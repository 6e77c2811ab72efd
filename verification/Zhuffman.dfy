/**
 The second decoder of the repository (`stb_image.c`): Huffman codes by a table of nine
 bits, and by comparison with the last code of each length for the longer ones.
 */
module Zhuffman {
  import opened Arith
  import opened Canonical
  import opened BitOrder
  import opened DecodeTable
  import opened Bitwise
  import opened BitSwaps
  import opened InflateSpec
  import opened InflateRuns

  const ZFAST_BITS := 9
  const ZFAST := 512
  const NONE := 0xffff

  /** Where the tables list symbol s: by length, and by symbol within a length. */
  ghost function Slot(lens: seq<int>, cnt: seq<int>, s: nat): int
    requires s < |lens| && 0 < lens[s] <= |cnt|
  {
    Total(cnt, lens[s] - 1) + Count(lens[..s], lens[s])
  }

  /** The length list of a code with lengths up to fifteen. */
  ghost predicate Sized(lens: seq<int>, cnt: seq<int>) {
    && |lens| <= 288 && |cnt| == 17 && cnt[0] == 0 && cnt[16] == 0 && Counts(lens, cnt)
    && (forall i :: 0 <= i < |lens| ==> 0 <= lens[i] < 16)
    && (forall b :: 0 <= b < 17 ==> cnt[b] >= 0)
  }

  lemma SlotBounds(lens: seq<int>, cnt: seq<int>, s: nat)
    requires Sized(lens, cnt) && s < |lens| && lens[s] > 0
    ensures Total(cnt, lens[s] - 1) <= Slot(lens, cnt, s) < Total(cnt, lens[s]) && 0 <= Slot(lens, cnt, s) < |lens|
  {
    var b := lens[s];
    CountStep(lens, s, b);
    CountMono(lens, s + 1, |lens|, b);
    assert lens[..|lens|] == lens;
    TotalGrows(cnt, 0, b - 1);
    TotalIsCountUpTo(lens, cnt, b);
    CountUpToRange(lens, b);
  }

  lemma {:induction false} TotalGrows(cnt: seq<int>, a: nat, b: nat)
    requires a <= b < |cnt| && forall i :: 0 <= i < |cnt| ==> cnt[i] >= 0
    ensures 0 <= Total(cnt, a) <= Total(cnt, b)
    decreases b
  {
    if a < b {
      TotalGrows(cnt, a, b - 1);
    } else if a > 0 {
      TotalGrows(cnt, a - 1, a - 1);
    }
  }

  lemma SlotsDiffer(lens: seq<int>, cnt: seq<int>, s: nat, t: nat)
    requires Sized(lens, cnt) && s < |lens| && t < |lens| && lens[s] > 0 && lens[t] > 0 && s != t
    ensures Slot(lens, cnt, s) != Slot(lens, cnt, t)
  {
    SlotBounds(lens, cnt, s);
    SlotBounds(lens, cnt, t);
    if lens[s] == lens[t] {
      RanksDiffer(lens, s, t);
    } else if lens[s] < lens[t] {
      TotalGrows(cnt, lens[s], lens[t] - 1);
    } else {
      TotalGrows(cnt, lens[t], lens[s] - 1);
    }
  }

  // ----- the tables

  /** The bits x start with the code of a symbol of up to nine bits. */
  ghost predicate Short(lens: seq<int>, cnt: seq<int>, x: int, s: nat) {
    Starts(lens, cnt, x, s) && lens[s] <= ZFAST_BITS
  }

  /** An entry of the fast table for the symbols below n. */
  ghost predicate FastAt(lens: seq<int>, cnt: seq<int>, x: int, e: int, n: nat) {
    || (e == NONE && forall s: nat :: s < n ==> !Short(lens, cnt, x, s))
    || (exists s: nat :: s < n && Short(lens, cnt, x, s) && e == Slot(lens, cnt, s))
  }

  ghost predicate FastUpTo(fast: seq<int>, lens: seq<int>, cnt: seq<int>, n: nat) {
    |fast| == ZFAST && forall x :: 0 <= x < ZFAST ==> FastAt(lens, cnt, x, fast[x], n)
  }

  /** The symbols below n stand in their slots. */
  ghost predicate Listed(size: seq<int>, value: seq<int>, lens: seq<int>, cnt: seq<int>, n: nat) {
    && |size| == |value| == 288
    && forall s: nat :: s < n && s < |lens| && lens[s] > 0 ==> InSlot(size, value, lens, cnt, s)
  }

  ghost predicate InSlot(size: seq<int>, value: seq<int>, lens: seq<int>, cnt: seq<int>, s: nat) {
    && s < |lens| && 0 < lens[s] <= |cnt|
    && var c := Slot(lens, cnt, s); 0 <= c < |size| && c < |value| && size[c] == lens[s] && value[c] == s
  }

  /** The first code, the number of shorter codes, and the end of the codes of a length, up to length n - 1. */
  ghost predicate Ranges(firstcode: seq<int>, firstsymbol: seq<int>, maxcode: seq<int>, cnt: seq<int>, n: nat) {
    && |firstcode| == |firstsymbol| == 16 && |maxcode| == |cnt| == 17
    && forall b :: 0 < b < n && b < 16 ==>
         firstcode[b] == FirstCode(cnt, b) && firstsymbol[b] == Total(cnt, b - 1)
         && maxcode[b] == Up(Used(cnt, b), 16 - b)
  }

  lemma FastNext(fast: seq<int>, fast': seq<int>, lens: seq<int>, cnt: seq<int>, n: nat)
    requires FastUpTo(fast, lens, cnt, n) && n < |lens| && |fast'| == |fast|
    requires lens[n] > 0 && lens[n] <= |cnt|
    requires forall x :: 0 <= x < ZFAST ==> fast'[x] == if Short(lens, cnt, x, n) then Slot(lens, cnt, n) else fast[x]
    ensures FastUpTo(fast', lens, cnt, n + 1)
  {
    forall x | 0 <= x < ZFAST ensures FastAt(lens, cnt, x, fast'[x], n + 1) {
      assert FastAt(lens, cnt, x, fast[x], n);
    }
    hide Short, Slot;
  }

  lemma FastSkips(fast: seq<int>, lens: seq<int>, cnt: seq<int>, n: nat)
    requires FastUpTo(fast, lens, cnt, n) && n < |lens| && (lens[n] == 0 || lens[n] > ZFAST_BITS)
    ensures FastUpTo(fast, lens, cnt, n + 1)
  {
    forall x | 0 <= x < ZFAST ensures FastAt(lens, cnt, x, fast[x], n + 1) {
      assert FastAt(lens, cnt, x, fast[x], n);
    }
    hide Slot;
  }

  lemma ListedNext(size: seq<int>, value: seq<int>, lens: seq<int>, cnt: seq<int>, n: nat)
    requires Sized(lens, cnt) && Listed(size, value, lens, cnt, n) && n < |lens| && lens[n] > 0
    ensures var c := Slot(lens, cnt, n);
            0 <= c < 288 && Listed(size[c := lens[n]], value[c := n], lens, cnt, n + 1)
  {
    SlotBounds(lens, cnt, n);
    var c := Slot(lens, cnt, n);
    var size', value' := size[c := lens[n]], value[c := n];
    forall s: nat | s < n + 1 && s < |lens| && lens[s] > 0 ensures InSlot(size', value', lens, cnt, s) {
      if s != n {
        assert InSlot(size, value, lens, cnt, s);
        SlotsDiffer(lens, cnt, s, n);
      }
    }
    hide Slot, Sized;
  }

  // ----- building

  /** One length of the code: what lies below it is known, and whether its own codes fit. */
  lemma NextLength(cnt: seq<int>, b: nat)
    requires 0 < b < |cnt| && FitBelow(cnt, b) && cnt[b] >= 0
    ensures FirstCode(cnt, b) == 2 * Used(cnt, b - 1) && Used(cnt, b) == FirstCode(cnt, b) + cnt[b]
            && Total(cnt, b) == Total(cnt, b - 1) + cnt[b]
    ensures cnt[b] == 0 ==> Used(cnt, b) <= Pow2(b)
  {
    assert Used(cnt, b - 1) <= Pow2(b - 1);
  }

  /** The lengths below n are not oversubscribed. */
  ghost predicate FitBelow(cnt: seq<int>, n: nat) {
    n <= |cnt| && forall b: nat :: b < n ==> Used(cnt, b) <= Pow2(b)
  }

  lemma FitNext(cnt: seq<int>, b: nat)
    requires b < |cnt| && FitBelow(cnt, b) && Used(cnt, b) <= Pow2(b)
    ensures FitBelow(cnt, b + 1)
  {
    hide Used, Pow2;
  }

  lemma TooMany(cnt: seq<int>, b: nat)
    requires b < |cnt| && Used(cnt, b) > Pow2(b)
    ensures !Fits(cnt)
  {
    hide Used, Pow2;
  }

  lemma RangesNone(firstcode: seq<int>, firstsymbol: seq<int>, maxcode: seq<int>, cnt: seq<int>)
    requires |firstcode| == |firstsymbol| == 16 && |maxcode| == |cnt| == 17
    ensures Ranges(firstcode, firstsymbol, maxcode, cnt, 1) && FitBelow(cnt, 1) && Used(cnt, 0) == 0
            && Total(cnt, 0) == 0
  {
  }

  lemma RangesNext(firstcode: seq<int>, firstsymbol: seq<int>, maxcode: seq<int>, cnt: seq<int>, b: nat)
    requires Ranges(firstcode, firstsymbol, maxcode, cnt, b) && 0 < b < 16
    ensures |firstcode| == |firstsymbol| == 16 && |maxcode| == |cnt| == 17
    ensures Ranges(firstcode[b := FirstCode(cnt, b)], firstsymbol[b := Total(cnt, b - 1)],
                   maxcode[b := Up(Used(cnt, b), 16 - b)], cnt, b + 1)
  {
    hide FirstCode, Total, Up, Used;
  }

  lemma RangesMore(firstcode: seq<int>, firstsymbol: seq<int>, maxcode: seq<int>, cnt: seq<int>, e: int)
    requires Ranges(firstcode, firstsymbol, maxcode, cnt, 16) && |maxcode| == 17
    ensures Ranges(firstcode, firstsymbol, maxcode[16 := e], cnt, 16)
  {
    hide FirstCode, Total, Up, Used;
  }

  lemma AllFit(cnt: seq<int>)
    requires |cnt| == 17 && cnt[0] == 0 && cnt[16] == 0 && (forall b :: 0 <= b < 17 ==> cnt[b] >= 0)
    requires FitBelow(cnt, 16)
    ensures Fits(cnt)
  {
    assert Used(cnt, 16) == 2 * Used(cnt, 15) && Pow2(16) == 2 * Pow2(15);
    hide Pow2;
  }

  /** How often each length occurs; length zero does not count. */
  method CountSizes(sizelist: seq<int>) returns (sizes: array<int>)
    requires |sizelist| <= 288 && forall i :: 0 <= i < |sizelist| ==> 0 <= sizelist[i] < 16
    ensures fresh(sizes) && Sized(sizelist, sizes[..])
  {
    sizes := new int[17](i => 0);
    assert sizelist[..0] == [];
    for i := 0 to |sizelist|
      invariant forall b :: 0 <= b < 17 ==> sizes[b] == Count(sizelist[..i], b)
    {
      forall b | 0 <= b < 17 ensures Count(sizelist[..i + 1], b)
      == Count(sizelist[..i], b) + (if sizelist[i] == b then 1 else 0) {
        CountStep(sizelist, i, b);
      }
      sizes[sizelist[i]] := sizes[sizelist[i]] + 1;
    }
    assert sizelist[..|sizelist|] == sizelist;
    NoneThere(sizelist, 16);
    sizes[0] := 0;
  }

  lemma {:induction false} NoneThere(s: seq<int>, x: int)
    requires forall i :: 0 <= i < |s| ==> s[i] != x
    ensures Count(s, x) == 0
  {
    if s != [] {
      NoneThere(s[..|s| - 1], x);
    }
  }

  class ZHuffman {
    const fast: array<int>
    const firstcode: array<int>
    const maxcode: array<int>
    const firstsymbol: array<int>
    const size: array<int>
    const value: array<int>

    constructor ()
      ensures Apart() && fresh({fast, firstcode, maxcode, firstsymbol, size, value})
    {
      fast := new int[512](i => 0);
      firstcode := new int[16](i => 0);
      maxcode := new int[17](i => 0);
      firstsymbol := new int[16](i => 0);
      size := new int[288](i => 0);
      value := new int[288](i => 0);
    }

    ghost predicate Apart() {
      && fast.Length == 512 && firstcode.Length == firstsymbol.Length == 16 && maxcode.Length == 17
      && size.Length == value.Length == 288
      && firstcode != firstsymbol && firstcode != maxcode && firstsymbol != maxcode && size != value
      && fast !in {firstcode, firstsymbol, maxcode, size, value}
      && firstcode !in {size, value} && firstsymbol !in {size, value} && maxcode !in {size, value}
    }

    lemma ApartParts()
      requires Apart()
      ensures fast.Length == 512 && firstcode.Length == firstsymbol.Length == 16 && maxcode.Length == 17
      ensures size.Length == value.Length == 288
      ensures firstcode != firstsymbol && firstcode != maxcode && firstsymbol != maxcode && size != value
      ensures fast != firstcode && fast != firstsymbol && fast != maxcode && fast != size && fast != value
      ensures firstcode != size && firstcode != value && firstsymbol != size && firstsymbol != value && maxcode != size
              && maxcode != value
      ensures ZFAST == 512 && ZFAST_BITS == 9 && NONE == 0xffff
    {
    }

    /** The tables are those of the code with the given lengths. */
    ghost predicate Built(lens: seq<int>, cnt: seq<int>)
      reads fast, firstcode, maxcode, firstsymbol, size, value
    {
      && Apart() && Sized(lens, cnt) && Fits(cnt)
      && FastUpTo(fast[..], lens, cnt, |lens|) && Listed(size[..], value[..], lens, cnt, |lens|)
      && Ranges(firstcode[..], firstsymbol[..], maxcode[..], cnt, 16) && maxcode[16] == 0x1_0000
    }

    /** The first half of `zbuild_huffman`: the codes of each length, and whether they fit. */
    method CodeRanges(sizes: array<int>, next: array<int>, ghost cnt: seq<int>) returns (ok: bool)
      requires Apart() && sizes.Length == 17 && next.Length == 16 && cnt == sizes[..]
      requires cnt[0] == 0 && cnt[16] == 0 && forall b :: 0 <= b < 17 ==> cnt[b] >= 0
      requires sizes !in {firstcode, firstsymbol, maxcode, next} && next !in {firstcode, firstsymbol, maxcode}
      modifies firstcode, firstsymbol, maxcode, next
      ensures ok <==> Fits(cnt)
      ensures ok ==> Ranges(firstcode[..], firstsymbol[..], maxcode[..], cnt, 16) && maxcode[16] == 0x1_0000
      ensures ok ==> forall b :: 0 < b < 16 ==> next[b] == FirstCode(cnt, b)
    {
      hide *;
      ApartParts();
      var k, code := 0, 0;
      RangesNone(firstcode[..], firstsymbol[..], maxcode[..], cnt);
      for i := 1 to 16
        invariant code == 2 * Used(cnt, i - 1) && k == Total(cnt, i - 1) && FitBelow(cnt, i)
        invariant forall b :: 0 < b < i ==> next[b] == FirstCode(cnt, b)
        invariant Ranges(firstcode[..], firstsymbol[..], maxcode[..], cnt, i)
      {
        ghost var f, s, m := firstcode[..], firstsymbol[..], maxcode[..];
        NextLength(cnt, i);
        UpOne(i);
        RangesNext(f, s, m, cnt, i);
        next[i] := code;
        firstcode[i] := code;
        firstsymbol[i] := k;
        code := code + sizes[i];
        if sizes[i] != 0 {
          if code - 1 >= Up(1, i) {
            TooMany(cnt, i);
            return false;
          }
        }
        FitNext(cnt, i);
        maxcode[i] := Up(code, 16 - i);
        code := code * 2;
        k := k + sizes[i];
      }
      RangesMore(firstcode[..], firstsymbol[..], maxcode[..], cnt, 0x1_0000);
      maxcode[16] := 0x1_0000;
      AllFit(cnt);
      return true;
    }

    /** One symbol of the second half: its slot, and its entries in the fast table. */
    method EnterSymbol(i: nat, sizelist: seq<int>, next: array<int>, ghost cnt: seq<int>)
      requires Apart() && next.Length == 16 && next !in {firstcode, firstsymbol, maxcode, fast, size, value}
      requires Sized(sizelist, cnt) && Fits(cnt) && i < |sizelist|
      requires Ranges(firstcode[..], firstsymbol[..], maxcode[..], cnt, 16) && NextCodes(next[..], sizelist, cnt, i)
      requires FastUpTo(fast[..], sizelist, cnt, i) && Listed(size[..], value[..], sizelist, cnt, i)
      modifies fast, size, value, next
      ensures NextCodes(next[..], sizelist, cnt, i + 1)
      ensures FastUpTo(fast[..], sizelist, cnt, i + 1) && Listed(size[..], value[..], sizelist, cnt, i + 1)
    {
      hide *;
      ApartParts();
      var s := sizelist[i];
      SizeBounds(sizelist, cnt, i);
      NextStep(next[..], sizelist, cnt, i);
      if s != 0 {
        RangesAt(firstcode[..], firstsymbol[..], maxcode[..], cnt, s);
        SlotIs(sizelist, cnt, i);
        var c := next[s] - firstcode[s] + firstsymbol[s];
        ListedNext(size[..], value[..], sizelist, cnt, i);
        size[c] := s;
        value[c] := i;
        if s <= ZFAST_BITS {
          FillFast(next[s], s, c, i, sizelist, cnt);
        } else {
          FastSkips(fast[..], sizelist, cnt, i);
        }
        next[s] := next[s] + 1;
      } else {
        FastSkips(fast[..], sizelist, cnt, i);
        ListedSkips(size[..], value[..], sizelist, cnt, i);
      }
    }

    /** All places of the fast table that begin with the code. */
    method FillFast(code: int, s: nat, c: int, i: nat, ghost lens: seq<int>, ghost cnt: seq<int>)
      requires Apart() && Sized(lens, cnt) && Fits(cnt) && i < |lens| && 0 < s == lens[i] <= ZFAST_BITS
      requires code == Code(lens, cnt, i) && c == Slot(lens, cnt, i) && FastUpTo(fast[..], lens, cnt, i)
      modifies fast
      ensures FastUpTo(fast[..], lens, cnt, i + 1)
    {
      hide *;
      ApartParts();
      ghost var f0 := fast[..];
      CodeFits(lens, cnt, i);
      var k := BitReverse(code, s);
      FirstPlace(lens, cnt, i, k);
      var step := Pow2(s);
      while k < ZFAST
        invariant k >= 0 && step > 0 && Short(lens, cnt, k, i) && fast.Length == ZFAST
        invariant forall x :: 0 <= x < ZFAST ==> fast[x] == if x < k && Short(lens, cnt, x, i) then c else f0[x]
        decreases ZFAST - k
      {
        fast[k] := c;
        forall x | k < x < k + step ensures !Short(lens, cnt, x, i) {
          Between(lens, cnt, i, k, x);
        }
        NextPlace(lens, cnt, i, k);
        k := k + step;
      }
      FastNext(f0, fast[..], lens, cnt, i);
    }

    /** `zbuild_huffman`: it accepts exactly the lengths that are not oversubscribed, complete or not. */
    method ZBuildHuffman(sizelist: seq<int>) returns (ok: bool, ghost cnt: seq<int>)
      requires Apart() && |sizelist| <= 288 && forall i :: 0 <= i < |sizelist| ==> 0 <= sizelist[i] < 16
      modifies fast, firstcode, maxcode, firstsymbol, size, value
      ensures Sized(sizelist, cnt) && (ok <==> Fits(cnt)) && (ok ==> Built(sizelist, cnt))
    {
      var sizes := CountSizes(sizelist);
      cnt := sizes[..];
      for k := 0 to ZFAST
        invariant sizes[..] == cnt && forall x :: 0 <= x < k ==> fast[x] == NONE
      {
        fast[k] := NONE;
      }
      assert FastUpTo(fast[..], sizelist, cnt, 0);
      var next := new int[16](i => 0);
      ok := CodeRanges(sizes, next, cnt);
      if !ok {
        return;
      }
      assert sizelist[..0] == [];
      hide FastUpTo, Listed, Sized, Fits, Ranges, NextCodes, FirstCode;
      NextStart(next[..], sizelist, cnt);
      ListedNone(size[..], value[..], sizelist, cnt);
      for i := 0 to |sizelist|
        invariant Ranges(firstcode[..], firstsymbol[..], maxcode[..], cnt, 16) && maxcode[16] == 0x1_0000
        invariant NextCodes(next[..], sizelist, cnt, i)
        invariant FastUpTo(fast[..], sizelist, cnt, i) && Listed(size[..], value[..], sizelist, cnt, i)
      {
        EnterSymbol(i, sizelist, next, cnt);
      }
    }
  }

  /** next[b] is the code of the next symbol of length b. */
  ghost predicate NextCodes(next: seq<int>, lens: seq<int>, cnt: seq<int>, n: nat) {
    && |next| == 16 && |cnt| == 17 && n <= |lens|
    && forall b :: 0 < b < 16 ==> next[b] == FirstCode(cnt, b) + Count(lens[..n], b)
  }

  lemma NextStart(next: seq<int>, lens: seq<int>, cnt: seq<int>)
    requires |next| == 16 && |cnt| == 17 && forall b :: 0 < b < 16 ==> next[b] == FirstCode(cnt, b)
    ensures NextCodes(next, lens, cnt, 0)
  {
    assert lens[..0] == [];
    hide FirstCode;
  }

  lemma NextStep(next: seq<int>, lens: seq<int>, cnt: seq<int>, i: nat)
    requires NextCodes(next, lens, cnt, i) && i < |lens| && 0 <= lens[i] < 16
    ensures |next| == 16 && NextCodes(if lens[i] == 0 then next
                                      else next[lens[i] := next[lens[i]] + 1], lens, cnt, i + 1)
    ensures lens[i] != 0 && lens[i] < |cnt| ==> next[lens[i]] == Code(lens, cnt, i)
  {
    forall b | 0 < b < 16 ensures Count(lens[..i + 1], b) == Count(lens[..i], b) + (if lens[i] == b then 1 else 0) {
      CountStep(lens, i, b);
    }
    hide FirstCode, Count;
  }

  lemma SizeBounds(lens: seq<int>, cnt: seq<int>, i: nat)
    requires Sized(lens, cnt) && i < |lens|
    ensures 0 <= lens[i] < 16 && |cnt| == 17 && |lens| <= 288
  {
    hide Counts;
  }

  lemma RangesAt(firstcode: seq<int>, firstsymbol: seq<int>, maxcode: seq<int>, cnt: seq<int>, b: nat)
    requires Ranges(firstcode, firstsymbol, maxcode, cnt, 16) && 0 < b < 16
    ensures |firstcode| == |firstsymbol| == 16 && |maxcode| == |cnt| == 17
    ensures firstcode[b] == FirstCode(cnt, b) && firstsymbol[b] == Total(cnt, b - 1)
            && maxcode[b] == Up(Used(cnt, b), 16 - b)
  {
    hide FirstCode, Total, Up, Used;
  }

  lemma SlotIs(lens: seq<int>, cnt: seq<int>, s: nat)
    requires s < |lens| && 0 < lens[s] < |cnt|
    ensures Slot(lens, cnt, s) == Code(lens, cnt, s) - FirstCode(cnt, lens[s]) + Total(cnt, lens[s] - 1)
  {
  }

  lemma ListedSkips(size: seq<int>, value: seq<int>, lens: seq<int>, cnt: seq<int>, n: nat)
    requires Listed(size, value, lens, cnt, n) && n < |lens| && lens[n] == 0
    ensures Listed(size, value, lens, cnt, n + 1)
  {
    hide InSlot;
  }

  lemma ListedNone(size: seq<int>, value: seq<int>, lens: seq<int>, cnt: seq<int>)
    requires |size| == |value| == 288
    ensures Listed(size, value, lens, cnt, 0)
  {
  }

  lemma CodeFits(lens: seq<int>, cnt: seq<int>, i: nat)
    requires Sized(lens, cnt) && Fits(cnt) && i < |lens| && lens[i] > 0
    ensures 0 < lens[i] < |cnt| && lens[i] <= 16 && 0 <= Code(lens, cnt, i) < Pow2(lens[i])
  {
    hide Pow2, Code, Counts, Fits;
    CodeBounds(lens, cnt, i);
  }

  /** The places of a code in the fast table are its reversal and every 2^s after it. */
  lemma FirstPlace(lens: seq<int>, cnt: seq<int>, i: nat, k: int)
    requires i < |lens| && 0 < lens[i] < |cnt| && lens[i] <= ZFAST_BITS && 0 <= Code(lens, cnt, i) < Pow2(lens[i])
    requires k == Rev(Code(lens, cnt, i), lens[i])
    ensures 0 <= k < Pow2(lens[i]) && Short(lens, cnt, k, i)
    ensures forall x :: 0 <= x < k ==> !Short(lens, cnt, x, i)
  {
    RevRev(Code(lens, cnt, i), lens[i]);
    hide Code;
    forall x | 0 <= x < k ensures !Short(lens, cnt, x, i) {
      if Short(lens, cnt, x, i) {
        RevRev(x, lens[i]);
      }
    }
  }

  lemma NextPlace(lens: seq<int>, cnt: seq<int>, i: nat, k: int)
    requires Short(lens, cnt, k, i)
    ensures lens[i] >= 0 && Short(lens, cnt, k + Pow2(lens[i]), i)
  {
    hide Code;
    RevLow(k, lens[i], lens[i]);
  }

  lemma Between(lens: seq<int>, cnt: seq<int>, i: nat, k: int, x: int)
    requires Short(lens, cnt, k, i) && k < x < k + Pow2(lens[i])
    ensures !Short(lens, cnt, x, i)
  {
    if Short(lens, cnt, x, i) {
      hide Code;
      var n := lens[i];
      LowIsMod(x, n);
      LowIsMod(k, n);
      hide Rev;
      DivMod(x, Pow2(n));
      DivMod(k, Pow2(n));
      NotBetween(x / Pow2(n), k / Pow2(n), Pow2(n));
    }
  }

  /** Multiples are not less than one apart. */
  lemma NotBetween(p: int, q: int, d: int)
    requires d > 0
    ensures !(0 < p * d - q * d < d)
  {
    if p > q {
      MulMono(q + 1, p, d);
    } else {
      MulMono(p, q, d);
    }
  }

  // ----- the input

  class ZBuf {
    const zbuffer: seq<Byte>
    var pos: nat
    var numBits: nat
    var codeBuffer: int

    constructor (data: seq<Byte>)
      ensures Valid() && Rest() == Value(data)
    {
      zbuffer, pos, numBits, codeBuffer := data, 0, 0, 0;
      new;
      assert zbuffer[0..] == zbuffer;
    }

    ghost predicate Valid()
      reads this
    {
      pos <= |zbuffer| && numBits <= 32 && 0 <= codeBuffer < Pow2(numBits)
    }

    /** What is still to be read; after the end of the data all bits are zero. */
    ghost function Rest(): (x: int)
      requires Valid()
      reads this
      ensures x >= 0
    {
      codeBuffer + UpNonNegative(Value(zbuffer[pos..]), numBits)
    }

    method ZGet8() returns (b: Byte)
      requires Valid()
      modifies this`pos
      ensures Valid() && Value(old(zbuffer[pos..])) == b + Up(Value(zbuffer[pos..]), 8)
    {
      hide Pow2;
      if pos >= |zbuffer| {
        ZeroUp(8);
        return 0;
      }
      b := zbuffer[pos];
      ValueCons(b, zbuffer[pos + 1..]);
      assert zbuffer[pos..] == [b] + zbuffer[pos + 1..];
      pos := pos + 1;
    }

    /** `fill_bits`: at least twenty-five bits in the buffer; what is to be read stays. */
    method FillBits()
      requires Valid() && numBits <= 24
      modifies this
      ensures Valid() && Rest() == old(Rest()) && numBits > 24
    {
      hide *;
      while true
        invariant Valid() && numBits <= 24 && Rest() == old(Rest())
        decreases 24 - numBits
      {
        ghost var x, c, n := Rest(), codeBuffer, numBits;
        RestIs();
        var b := ZGet8();
        RestIs();
        ByteFits(b);
        OrApart(codeBuffer, b, numBits);
        Filled(c, n, b, Value(zbuffer[pos..]));
        codeBuffer := Or(codeBuffer, Up(b, numBits));
        numBits := numBits + 8;
        MakeValid();
        RestIs();
        if numBits > 24 {
          break;
        }
      }
    }

    lemma RestIs()
      requires Valid()
      ensures pos <= |zbuffer| && numBits <= 32 && 0 <= codeBuffer < Pow2(numBits)
      ensures Rest() == codeBuffer + Up(Value(zbuffer[pos..]), numBits)
    {
    }

    lemma MakeValid()
      requires pos <= |zbuffer| && numBits <= 32 && 0 <= codeBuffer < Pow2(numBits)
      ensures Valid()
    {
    }

    /** Take n bits off the buffer. */
    method Drop(n: nat)
      requires Valid() && n <= numBits
      modifies this`codeBuffer, this`numBits
      ensures Valid() && Rest() == Shr(old(Rest()), n)
    {
      hide *;
      RestIs();
      Dropped(codeBuffer, numBits, Value(zbuffer[pos..]), n);
      codeBuffer := Shr(codeBuffer, n);
      numBits := numBits - n;
      MakeValid();
      RestIs();
    }

    /** `zreceive`: the next n bits. */
    method ZReceive(n: nat) returns (k: int)
      requires Valid() && n <= 24
      modifies this
      ensures Valid() && k == Low(old(Rest()), n) && Rest() == Shr(old(Rest()), n)
    {
      hide *;
      if numBits < n {
        FillBits();
      }
      RestIs();
      LowBits(codeBuffer, numBits, Value(zbuffer[pos..]), n);
      k := Low(codeBuffer, n);
      Drop(n);
    }
  }

  lemma ByteFits(b: Byte)
    ensures 0 <= b < Pow2(8)
  {
    assert Pow2(8) == 256;
  }

  /** One more byte in the buffer. */
  lemma Filled(c: int, n: nat, b: Byte, v: int)
    requires 0 <= c < Pow2(n) && v >= 0
    ensures 0 <= Up(b, n) && c + Up(b, n) < Pow2(n + 8) && c + Up(b + Up(v, 8), n) == c + Up(b, n) + Up(v, n + 8)
  {
    ByteFits(b);
    hide *;
    UpSum(b, Up(v, 8), n);
    UpUp(v, 8, n);
    UpMono(0, b, n);
    ZeroUp(n);
    UpMono(b + 1, Pow2(8), n);
    UpSum(b, 1, n);
    UpOne(n);
    UpOne(8);
    UpUp(1, 8, n);
    UpOne(8 + n);
  }

  /** Bits taken off the buffer are taken off what is to be read. */
  lemma Dropped(c: int, n: nat, v: int, k: nat)
    requires 0 <= c < Pow2(n) && v >= 0 && k <= n
    ensures 0 <= Up(v, n) && 0 <= Shr(c, k) < Pow2(n - k) && Shr(c + Up(v, n), k) == Shr(c, k) + Up(v, n - k)
  {
    ShrUp(v, n);
    ShrBound(c, k, n);
    ShrHigh(c, v, n, k);
  }

  lemma LowBits(c: int, n: nat, v: int, k: nat)
    requires 0 <= c < Pow2(n) && v >= 0 && k <= n
    ensures 0 <= Up(v, n) && Rev(c + Up(v, n), k) == Rev(c, k) && Low(c + Up(v, n), k) == Low(c, k)
  {
    ShrUp(v, n);
    RevHigh(c, v, n, k);
  }

  // ----- decoding

  /** What an entry of the fast table says about the bits ahead. */
  lemma FastTells(fast: seq<int>, size: seq<int>, value: seq<int>, lens: seq<int>, cnt: seq<int>, x: int)
      returns (s: nat)
    requires Sized(lens, cnt) && Fits(cnt) && FastUpTo(fast, lens, cnt, |lens|)
             && Listed(size, value, lens, cnt, |lens|) && x >= 0
    ensures 0 <= Low(x, 9) < |fast| && |size| == |value| == 288
    ensures var e := fast[Low(x, 9)];
            && (e == NONE ==> forall t: nat :: t < |lens| ==> !Short(lens, cnt, x, t))
            && (e != NONE ==> 0 <= e < 288 && s < |lens| && Starts(lens, cnt, x, s) && size[e] == lens[s]
                              && value[e] == s && 0 < lens[s] <= 9)
  {
    NinePow();
    var y := Low(x, 9);
    assert FastAt(lens, cnt, y, fast[y], |lens|);
    forall t: nat ensures Short(lens, cnt, y, t) <==> Short(lens, cnt, x, t) {
      ShortLow(lens, cnt, x, t);
    }
    s := 0;
    hide Low, Short;
    if fast[y] != NONE {
      s :| s < |lens| && Short(lens, cnt, y, s) && fast[y] == Slot(lens, cnt, s);
      ShortParts(lens, cnt, x, s);
      hide Slot, Sized;
      assert InSlot(size, value, lens, cnt, s);
    } else {
      NoSlotNone(lens, cnt, y);
    }
  }

  lemma NinePow()
    ensures Pow2(9) == 512 && Pow2(16) == 0x1_0000
  {
    assert Pow2(9) == 512;
    Pow2Add(9, 7);
    assert Pow2(7) == 128;
  }

  lemma ShortParts(lens: seq<int>, cnt: seq<int>, x: int, s: nat)
    requires Short(lens, cnt, x, s)
    ensures Starts(lens, cnt, x, s) && s < |lens| && 0 < lens[s] <= 9 && lens[s] < |cnt|
  {
    hide Code;
  }

  /** No slot has the number that stands for none. */
  lemma NoSlotNone(lens: seq<int>, cnt: seq<int>, y: int)
    requires Sized(lens, cnt)
    ensures forall s: nat :: s < |lens| && Short(lens, cnt, y, s) ==> Slot(lens, cnt, s) != NONE
  {
    forall s: nat | s < |lens| && Short(lens, cnt, y, s) ensures Slot(lens, cnt, s) != NONE {
      ShortParts(lens, cnt, y, s);
      SlotBounds(lens, cnt, s);
    }
    hide Slot, Short;
  }

  /** Nine bits tell whether a code of up to nine bits is ahead. */
  lemma ShortLow(lens: seq<int>, cnt: seq<int>, x: int, s: nat)
    requires x >= 0
    ensures Low(x, 9) >= 0 && (Short(lens, cnt, Low(x, 9), s) <==> Short(lens, cnt, x, s))
  {
    hide Code;
    if s < |lens| && 0 < lens[s] <= 9 {
      LowLow(x, lens[s], 9);
    }
  }

  /** No code has been seen up to length b: none starts the bits, or they lie above all of them. */
  lemma AboveAll(lens: seq<int>, cnt: seq<int>, x: int, b: nat)
    requires Sized(lens, cnt) && Fits(cnt) && x >= 0 && 0 < b <= 9
             && forall t: nat :: t < |lens| ==> !Short(lens, cnt, x, t)
    ensures Rev(x, b) >= Used(cnt, b)
  {
    hide *;
    SeventeenSizes(lens, cnt);
    if Rev(x, b) < Used(cnt, b) {
      var c := FirstBelow(x, cnt, b);
      var s := FirstStarts(lens, cnt, x, c);
      MakeShort(lens, cnt, x, s);
    }
  }

  lemma SeventeenSizes(lens: seq<int>, cnt: seq<int>)
    requires Sized(lens, cnt)
    ensures |cnt| == 17
  {
    hide Counts;
  }

  lemma MakeShort(lens: seq<int>, cnt: seq<int>, x: int, s: nat)
    requires Starts(lens, cnt, x, s) && s < |lens| && lens[s] <= 9
    ensures Short(lens, cnt, x, s)
  {
    hide Starts;
  }

  lemma FirstBelow(x: int, cnt: seq<int>, b: nat) returns (c: nat)
    requires x >= 0 && 0 < b < |cnt| && Rev(x, b) < Used(cnt, b)
    ensures 0 < c <= b && Rev(x, c) < Used(cnt, c) && forall i :: 0 < i < c ==> Rev(x, i) >= Used(cnt, i)
  {
    hide *;
    c := 1;
    while Rev(x, c) >= Used(cnt, c)
      invariant 0 < c <= b
      invariant forall i :: 0 < i < c ==> Rev(x, i) >= Used(cnt, i)
      decreases b - c
    {
      c := c + 1;
    }
  }

  /** At the first length at which the bits lie below the codes' end, they start with a code of that length. */
  lemma FirstStarts(lens: seq<int>, cnt: seq<int>, x: int, b: nat) returns (s: nat)
    requires Sized(lens, cnt) && Fits(cnt) && x >= 0 && 0 < b < 16 && Rev(x, b) < Used(cnt, b)
    requires forall c :: 0 < c < b ==> Rev(x, c) >= Used(cnt, c)
    ensures s < |lens| && lens[s] == b && Starts(lens, cnt, x, s)
    ensures Slot(lens, cnt, s) == Rev(x, b) - FirstCode(cnt, b) + Total(cnt, b - 1)
  {
    var k := Rev(x, 16);
    forall c | 0 < c <= b ensures Shr(k, 16 - c) == Rev(x, c) {
      RevPrefix(x, 16, c);
    }
    hide Rev, Used;
    assert FirstLength(cnt, k, 16, b);
    s := FirstLengthHeads(lens, cnt, k, 16, b);
    StartsIsHeads(lens, cnt, x, 16, s);
  }

  /** Longer codes: the comparison with the end of the codes of a length. */
  lemma BelowEnd(x: int, cnt: seq<int>, b: nat)
    requires x >= 0 && b < 16 < |cnt|
    ensures Rev(x, 16) < Up(Used(cnt, b), 16 - b) <==> Rev(x, b) < Used(cnt, b)
  {
    RevBelow(x, b, 16 - b, Used(cnt, b));
  }

  lemma NoneStarts(lens: seq<int>, cnt: seq<int>, x: int)
    requires Sized(lens, cnt) && Fits(cnt) && x >= 0 && forall b :: 0 < b < 16 ==> Rev(x, b) >= Used(cnt, b)
    ensures NoCode(lens, cnt, x)
  {
    forall s: nat ensures !Starts(lens, cnt, x, s) {
      if Starts(lens, cnt, x, s) {
        StartsBelow(lens, cnt, x, s);
      }
    }
    hide Starts;
  }

  lemma StartsBelow(lens: seq<int>, cnt: seq<int>, x: int, s: nat)
    requires Sized(lens, cnt) && Fits(cnt) && Starts(lens, cnt, x, s)
    ensures s < |lens| && 0 < lens[s] < 16 && |cnt| == 17 && Rev(x, lens[s]) < Used(cnt, lens[s])
  {
    CodeBounds(lens, cnt, s);
    hide Rev, Used, Code;
  }

  /**
   `zhuffman_decode`: the symbol whose bit-reversed code starts the bits ahead, found by the fast table or by
   comparison, and its bits taken off; -1 if and only if no code starts them.
   */
  method ZHuffmanDecode(a: ZBuf, z: ZHuffman, ghost lens: seq<int>, ghost cnt: seq<int>) returns (r: int)
    requires a.Valid() && z.Built(lens, cnt)
    modifies a
    ensures a.Valid() && r >= -1
    ensures r == -1 <==> NoCode(lens, cnt, old(a.Rest()))
    ensures r == -1 ==> a.Rest() == old(a.Rest())
    ensures r >= 0 ==> r < |lens| && Starts(lens, cnt, old(a.Rest()), r) && a.Rest() == Shr(old(a.Rest()), lens[r])
  {
    hide *;
    if a.numBits < 16 {
      a.FillBits();
    }
    ghost var x := a.Rest();
    BuiltParts(z, lens, cnt);
    a.RestIs();
    LowBits(a.codeBuffer, a.numBits, Value(a.zbuffer[a.pos..]), 9);
    LowBits(a.codeBuffer, a.numBits, Value(a.zbuffer[a.pos..]), 16);
    ghost var s := FastTells(z.fast[..], z.size[..], z.value[..], lens, cnt, x);
    var b := z.fast[Low(a.codeBuffer, 9)];
    if b < NONE {
      a.Drop(z.size[b]);
      HasCode(lens, cnt, x, s);
      return z.value[b];
    }
    var k := BitReverse(a.codeBuffer, 16);
    var n := SlowLength(z, k, x, lens, cnt);
    if n == 16 {
      NoneStarts(lens, cnt, x);
      return -1;
    }
    s := FirstStarts(lens, cnt, x, n);
    RevPrefix(x, 16, n);
    RangesAt(z.firstcode[..], z.firstsymbol[..], z.maxcode[..], cnt, n);
    SlotThere(z.size[..], z.value[..], lens, cnt, s);
    b := Shr(k, 16 - n) - z.firstcode[n] + z.firstsymbol[n];
    a.Drop(n);
    HasCode(lens, cnt, x, s);
    return z.value[b];
  }

  lemma HasCode(lens: seq<int>, cnt: seq<int>, x: int, s: nat)
    requires Starts(lens, cnt, x, s)
    ensures !NoCode(lens, cnt, x)
  {
    hide Starts;
  }

  lemma BuiltParts(z: ZHuffman, lens: seq<int>, cnt: seq<int>)
    requires z.Built(lens, cnt)
    ensures z.Apart() && Sized(lens, cnt) && Fits(cnt) && z.maxcode.Length == 17 && z.maxcode[16] == 0x1_0000
            && |cnt| == 17
    ensures z.fast.Length == 512 && z.size.Length == z.value.Length == 288
            && z.firstcode.Length == z.firstsymbol.Length == 16
    ensures FastUpTo(z.fast[..], lens, cnt, |lens|) && Listed(z.size[..], z.value[..], lens, cnt, |lens|)
    ensures Ranges(z.firstcode[..], z.firstsymbol[..], z.maxcode[..], cnt, 16) && NONE == 0xffff
  {
    hide FastUpTo, Listed, Ranges, Fits, Counts;
  }

  lemma SlotThere(size: seq<int>, value: seq<int>, lens: seq<int>, cnt: seq<int>, s: nat)
    requires Listed(size, value, lens, cnt, |lens|) && s < |lens| && 0 < lens[s] <= |cnt|
    ensures 0 <= Slot(lens, cnt, s) < |value| && value[Slot(lens, cnt, s)] == s
  {
    hide Slot;
    assert InSlot(size, value, lens, cnt, s);
  }

  /** The loop over the lengths above nine. */
  method SlowLength(z: ZHuffman, k: int, ghost x: int, ghost lens: seq<int>, ghost cnt: seq<int>) returns (n: nat)
    requires z.Built(lens, cnt) && x >= 0 && k == Rev(x, 16) && forall t: nat :: t < |lens| ==> !Short(lens, cnt, x, t)
    ensures 10 <= n <= 16 && (n < 16 ==> Rev(x, n) < Used(cnt, n)) && |cnt| == 17
    ensures forall c :: 0 < c < n && c < 16 ==> Rev(x, c) >= Used(cnt, c)
  {
    hide *;
    BuiltParts(z, lens, cnt);
    forall c | 0 < c < 10 ensures Rev(x, c) >= Used(cnt, c) {
      AboveAll(lens, cnt, x, c);
    }
    RevFits(x);
    n := 10;
    while !(k < z.maxcode[n])
      invariant 10 <= n <= 16
      invariant forall c :: 0 < c < n ==> Rev(x, c) >= Used(cnt, c)
      decreases 16 - n
    {
      RangesAt(z.firstcode[..], z.firstsymbol[..], z.maxcode[..], cnt, n);
      BelowEnd(x, cnt, n);
      n := n + 1;
    }
    if n < 16 {
      RangesAt(z.firstcode[..], z.firstsymbol[..], z.maxcode[..], cnt, n);
      BelowEnd(x, cnt, n);
    }
  }

  lemma RevFits(x: int)
    requires x >= 0
    ensures 0 <= Rev(x, 16) < 0x1_0000
  {
    NinePow();
    hide Pow2;
  }
}
