/**
 Table lookup against the canonical code: with n bits at hand, the table either
 gives the symbol that those bits determine, or asks for more bits.
 */
module TableLookup {
  import opened Arith
  import opened Canonical
  import opened BitOrder
  import opened DecodeTable
  import opened SymbolSort
  import opened InflateTable
  import opened InflateSpec
  import opened InflateRuns

  /** A decoding table in use: where it starts, and how many bits index its root. */
  datatype CodeTable = CodeTable(t: seq<Entry>, base: nat, bits: nat)

  /** The table decodes the code of lens. */
  ghost predicate Good(tab: CodeTable, kind: CodeType, lens: seq<int>) {
    Usable(kind, lens) && tab.bits >= 1 && Decodes(tab.t, tab.base, tab.bits, kind, lens, Cnt(lens))
  }

  /** A code that leaves gaps is told from them by its first bit. */
  lemma NoCodeDead(kind: CodeType, lens: seq<int>, x: int)
    requires Usable(kind, lens) && NoCode(lens, Cnt(lens), x)
    ensures Dead(lens, x)
  {
    var cnt := Cnt(lens);
    UsableFits(kind, lens);
    if Used(cnt, MAXBITS) == Pow2(MAXBITS) {
      AllStart(lens, cnt, MAXBITS, x);
    } else {
      ShortCodes(kind, lens);
      hide Usable, Counts, Fits, Cnt;
      forall y | y >= 0 && Rev(y, 1) == Rev(x, 1) ensures NoCode(lens, cnt, y) {
        forall s: nat ensures !Starts(lens, cnt, y, s) {
          assert !Starts(lens, cnt, x, s);
        }
      }
    }
  }

  lemma ShortCodes(kind: CodeType, lens: seq<int>)
    requires Usable(kind, lens) && Used(Cnt(lens), MAXBITS) != Pow2(MAXBITS)
    ensures forall s :: 0 <= s < |lens| ==> lens[s] <= 1
  {
    LongestUsed(lens, Cnt(lens), 1);
  }

  /** What a lookup says about the first n bits of x. */
  ghost predicate Answer(kind: CodeType, lens: seq<int>, x: int, n: nat, e: Entry) {
    if e.bits > n then x >= 0 && SymbolAt(lens, x, n) == More
    else x >= 0 && |lens| <= Alphabet(kind) &&
         match SymbolAt(lens, x, n)
         case Found(s) => e == EntryOf(kind, s, lens[s])
         case Gap => e == INVALID
         case More => false
  }

  /** The entry a lookup comes to. */
  lemma FoundEntry(tab: CodeTable, kind: CodeType, lens: seq<int>, x: int) returns (e: Entry)
    requires Good(tab, kind, lens) && x >= 0
    ensures Finds(tab.t, tab.base, tab.bits, x, e) && !Link(e) && e.bits <= MAXBITS
    ensures forall n: nat :: Answer(kind, lens, x, n, e)
  {
    hide Finds, Usable;
    if s: nat :| Starts(lens, Cnt(lens), x, s) {
      e := StartedEntry(tab, kind, lens, x, s);
    } else {
      e := INVALID;
      GapAnswer(kind, lens, x);
    }
  }

  lemma StartedEntry(tab: CodeTable, kind: CodeType, lens: seq<int>, x: int, s: nat) returns (e: Entry)
    requires Good(tab, kind, lens) && x >= 0 && Starts(lens, Cnt(lens), x, s)
    ensures Finds(tab.t, tab.base, tab.bits, x, e) && !Link(e) && e.bits <= MAXBITS
    ensures forall n: nat :: Answer(kind, lens, x, n, e)
  {
    UsableLens(kind, lens);
    hide Finds, Usable, Starts;
    StartsIn(lens, Cnt(lens), x, s);
    e := EntryOf(kind, s, lens[s]);
    SymbolIsNoLink(kind, s, lens[s]);
    EntryBits(kind, s, lens[s]);
    forall n: nat ensures Answer(kind, lens, x, n, e) {
      StartedAnswer(kind, lens, x, n, s);
    }
  }

  lemma UsableLens(kind: CodeType, lens: seq<int>)
    requires Usable(kind, lens)
    ensures forall i :: 0 <= i < |lens| ==> lens[i] <= MAXBITS
  {
  }

  lemma StartsIn(lens: seq<int>, cnt: seq<int>, x: int, s: nat)
    requires Starts(lens, cnt, x, s)
    ensures x >= 0 && s < |lens| && lens[s] > 0
  {
  }

  lemma EntryBits(kind: CodeType, s: nat, b: int)
    requires s < Alphabet(kind)
    ensures EntryOf(kind, s, b).bits == b
  {
  }

  lemma StartedAnswer(kind: CodeType, lens: seq<int>, x: int, n: nat, s: nat)
    requires Usable(kind, lens) && Starts(lens, Cnt(lens), x, s)
    ensures s < |lens| <= Alphabet(kind) && Answer(kind, lens, x, n, EntryOf(kind, s, lens[s]))
  {
    hide EntryOf, SymbolAt, Starts, Acceptable, Cnt;
    StartsIn(lens, Cnt(lens), x, s);
    EntryBits(kind, s, lens[s]);
    if lens[s] <= n {
      SymbolFound(kind, lens, x, n, s);
    } else {
      SymbolMore(kind, lens, x, n, s);
    }
  }

  lemma SymbolMore(kind: CodeType, lens: seq<int>, x: int, n: nat, s: nat)
    requires Usable(kind, lens) && Starts(lens, Cnt(lens), x, s) && lens[s] > n
    ensures SymbolAt(lens, x, n) == More
  {
    NotDead(lens, x, s);
    StartsIn(lens, Cnt(lens), x, s);
    assert Complete(lens, x, lens[s], s);
    hide Starts, Usable, Dead;
    var r := SymbolAt(lens, x, n);
    if r.Found? {
      CompleteUnique(kind, lens, x, n, lens[s], r.sym, s);
    }
  }

  lemma NotDead(lens: seq<int>, x: int, s: nat)
    requires Starts(lens, Cnt(lens), x, s)
    ensures !Dead(lens, x)
  {
    assert !NoCode(lens, Cnt(lens), x);
    var first := Rev(x, 1);
  }

  lemma GapAnswer(kind: CodeType, lens: seq<int>, x: int)
    requires Usable(kind, lens) && NoCode(lens, Cnt(lens), x)
    ensures forall n: nat :: Answer(kind, lens, x, n, INVALID)
  {
    NoCodeDead(kind, lens, x);
    forall n: nat ensures Answer(kind, lens, x, n, INVALID) {
      forall t: nat ensures !Complete(lens, x, n, t) {
      }
    }
  }

  /** What an entry of the root table says. */
  ghost predicate RootAnswer(tab: CodeTable, kind: CodeType, lens: seq<int>, x: int, n: nat, e: Entry) {
    if Link(e) then
      && e.bits == tab.bits
      && (e.bits > n ==> SymbolAt0(lens, x, n) == More)
      && x >= 0 && 0 <= tab.base + e.val + Low(Shr(x, tab.bits), e.op) < |tab.t|
      && var f := tab.t[tab.base + e.val + Low(Shr(x, tab.bits), e.op)];
         f.bits > 0 && !Link(f) && Answer(kind, lens, x, n, Entry(f.op, e.bits + f.bits, f.val))
    else Answer(kind, lens, x, n, e)
  }

  ghost function SymbolAt0(lens: seq<int>, x: int, n: nat): Symbol {
    if x >= 0 then SymbolAt(lens, x, n) else More
  }

  /** Looking up x in the root table: an answer, or a link to the sub-table with the answer. */
  lemma LookUp(tab: CodeTable, kind: CodeType, lens: seq<int>, x: int, n: nat)
    requires Good(tab, kind, lens) && x >= 0
    ensures tab.base + Low(x, tab.bits) < |tab.t|
    ensures RootAnswer(tab, kind, lens, x, n, tab.t[tab.base + Low(x, tab.bits)])
  {
    hide Good, Low, Shr, SymbolAt, Answer, Finds;
    var e := FoundEntry(tab, kind, lens, x);
    assert Answer(kind, lens, x, n, e);
    FindsIn(tab, x, e);
    AnswerMore(kind, lens, x, n, e);
  }

  lemma AnswerMore(kind: CodeType, lens: seq<int>, x: int, n: nat, e: Entry)
    requires Answer(kind, lens, x, n, e)
    ensures e.bits > n ==> SymbolAt0(lens, x, n) == More
  {
  }

  lemma FindsIn(tab: CodeTable, x: int, e: Entry)
    requires Finds(tab.t, tab.base, tab.bits, x, e)
    ensures x >= 0 && tab.base + Low(x, tab.bits) < |tab.t|
    ensures var first := tab.t[tab.base + Low(x, tab.bits)];
            if Link(first) then
              && first.bits == tab.bits && 0 <= tab.base + first.val + Low(Shr(x, tab.bits), first.op) < |tab.t|
              && var f := tab.t[tab.base + first.val + Low(Shr(x, tab.bits), first.op)];
                 !Link(f) && f.bits > 0 && e == Entry(f.op, first.bits + f.bits, f.val)
            else e == first
  {
    hide Low, Shr;
  }

  /** Bits that did not decide before do not contain the code found with more of them. */
  lemma JustEnough(kind: CodeType, lens: seq<int>, x: int, y: int, n: nat, n': nat, e: Entry)
    requires Usable(kind, lens) && Agree(x, y, n) && SymbolAt(lens, x, n) == More
    requires Answer(kind, lens, y, n', e) && e.bits <= n'
    ensures e.bits > n
  {
    match SymbolAt(lens, y, n')
    case Found(s) =>
      EntryBits(kind, s, lens[s]);
      if lens[s] <= n {
        CompleteAgree(lens, y, x, n, n, s);
      }
    case Gap =>
      if n >= 1 {
        AgreeLess(x, y, n, 1);
        DeadAgree(lens, y, x);
        DeadNone(lens, x, n);
      }
  }

  /** A code no longer than the root index needs no links. */
  lemma NoLinks(tab: CodeTable, kind: CodeType, lens: seq<int>, x: int)
    requires Good(tab, kind, lens) && x >= 0 && NoLonger(lens, tab.bits)
    ensures tab.base + Low(x, tab.bits) < |tab.t| && !Link(tab.t[tab.base + Low(x, tab.bits)])
  {
    var e := FoundEntry(tab, kind, lens, x);
    assert tab.bits >= 1;
    FindsIn(tab, x, e);
    var n: nat := if e.bits > 0 then e.bits else 0;
    hide Good, Finds, Low, Shr;
    assert Answer(kind, lens, x, n, e);
    AnswerBits(kind, lens, x, n, e, tab.bits);
  }

  lemma AnswerBits(kind: CodeType, lens: seq<int>, x: int, n: nat, e: Entry, top: int)
    requires Answer(kind, lens, x, n, e) && e.bits <= n && NoLonger(lens, top) && top >= 1
    ensures e.bits <= top
  {
    match SymbolAt(lens, x, n)
    case Found(s) => EntryBits(kind, s, lens[s]);
    case Gap =>
  }

  /** No code takes more than fifteen bits, so fifteen bits always decide. */
  lemma LookUpBits(tab: CodeTable, kind: CodeType, lens: seq<int>, x: int)
    requires Good(tab, kind, lens) && x >= 0
    ensures tab.base + Low(x, tab.bits) < |tab.t|
    ensures var e := tab.t[tab.base + Low(x, tab.bits)];
      if Link(e) then
        && e.bits == tab.bits && 0 <= tab.base + e.val + Low(Shr(x, tab.bits), e.op) < |tab.t|
        && e.bits + tab.t[tab.base + e.val + Low(Shr(x, tab.bits), e.op)].bits <= MAXBITS
      else e.bits <= MAXBITS
  {
    hide Good, Low, Shr, Finds;
    var e := FoundEntry(tab, kind, lens, x);
    FindsIn(tab, x, e);
  }
}
