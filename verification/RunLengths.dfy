/**
 Run-length coding of code lengths (RFC 1951 section 3.2.7): what `send_tree` sends,
 what `scan_tree` counts, and that inflate's rules read back the lengths.
 */
module RunLengths {
  import opened Arith
  import opened InflateSpec

  /** A code length symbol and the value of its extra bits. */
  datatype Run = Run(sym: nat, extra: int)

  const REP_3_6 := 16
  const REPZ_3_10 := 17
  const REPZ_11_138 := 18

  /** The symbol is one of the nineteen, and the repeat count fits its field. */
  ghost predicate FitsField(r: Run) {
    r.sym <= 18 && if r.sym < 16 then r.extra == 0 else 0 <= r.extra < Pow2(RunBits(r.sym))
  }

  // ----- what is sent

  function MaxCount(cur: int, prev: int): int {
    if cur == 0 then 138 else if cur == prev then 6 else 7
  }

  function MinCount(cur: int, prev: int): int {
    if cur == 0 || cur == prev then 3 else 4
  }

  /** A length repeated without run symbols. */
  function Plain(cur: nat, count: nat): (rs: seq<Run>)
    ensures |rs| == count
  {
    if count == 0 then [] else [Run(cur, 0)] + Plain(cur, count - 1)
  }

  /** The symbols for `count` equal lengths after a length prev. */
  function GroupOf(cur: nat, prev: int, count: nat): (rs: seq<Run>) {
    if count < MinCount(cur, prev) then Plain(cur, count)
    else if cur != 0 then
      if cur != prev then [Run(cur, 0), Run(REP_3_6, count - 4)] else [Run(REP_3_6, count - 3)]
    else if count <= 10 then [Run(REPZ_3_10, count - 3)]
    else [Run(REPZ_11_138, count - 11)]
  }

  /** How many equal lengths there are from i on, at most max. */
  function Stretch(lens: seq<nat>, i: nat, max: nat): (n: nat)
    requires i < |lens| && max >= 1
    ensures 1 <= n <= max && i + n <= |lens|
    decreases max
  {
    if max == 1 || i + 1 == |lens| || lens[i + 1] != lens[i] then 1 else 1 + Stretch(lens, i + 1, max - 1)
  }

  /** The symbols for the lengths from i on. */
  function RunsFrom(lens: seq<nat>, i: nat, prev: int): seq<Run>
    decreases |lens| - i
  {
    if i >= |lens| then []
    else
      var n := Stretch(lens, i, MaxCount(lens[i], prev));
      GroupOf(lens[i], prev, n) + RunsFrom(lens, i + n, lens[i])
  }

  function Runs(lens: seq<nat>): seq<Run> {
    RunsFrom(lens, 0, -1)
  }

  // ----- what is read back

  /** One symbol applied to the lengths read so far, as inflate does. */
  function Apply(lens: seq<int>, r: Run): seq<int> {
    if r.sym < 16 then lens + [r.sym]
    else
      var value := if r.sym == 16 && lens != [] then lens[|lens| - 1] else 0;
      lens + Repeat(value, RunBase(r.sym) + r.extra)
  }

  function Repeat(value: int, n: int): (s: seq<int>) {
    if n <= 0 then [] else seq(n, i => value)
  }

  function Expand(lens: seq<int>, rs: seq<Run>): seq<int>
    decreases |rs|
  {
    if rs == [] then lens else Expand(Apply(lens, rs[0]), rs[1..])
  }

  lemma {:induction false} ExpandAppend(lens: seq<int>, rs: seq<Run>, ss: seq<Run>)
    ensures Expand(lens, rs + ss) == Expand(Expand(lens, rs), ss)
    decreases |rs|
  {
    if rs == [] {
      assert rs + ss == ss;
    } else {
      assert (rs + ss)[1..] == rs[1..] + ss;
      ExpandAppend(Apply(lens, rs[0]), rs[1..], ss);
    }
  }

  lemma {:induction false} ExpandPlain(lens: seq<int>, cur: nat, count: nat)
    requires cur < 16
    ensures Expand(lens, Plain(cur, count)) == lens + Repeat(cur, count)
    decreases count
  {
    if count > 0 {
      ExpandPlain(lens + [cur], cur, count - 1);
      assert Plain(cur, count)[1..] == Plain(cur, count - 1);
      assert lens + [cur] + Repeat(cur, count - 1) == lens + Repeat(cur, count);
    }
  }

  /** What comes before a group: its length last, if it counts as the previous one. */
  ghost predicate Follows(lens: seq<int>, prev: int) {
    prev == -1 || (lens != [] && lens[|lens| - 1] == prev)
  }

  lemma ExpandGroup(lens: seq<int>, cur: nat, prev: int, count: nat)
    requires cur < 16 && Follows(lens, prev) && 1 <= count <= MaxCount(cur, prev)
    ensures Expand(lens, GroupOf(cur, prev, count)) == lens + Repeat(cur, count)
    ensures AllFit(GroupOf(cur, prev, count))
  {
    var rs := GroupOf(cur, prev, count);
    assert Pow2(2) == 4 && Pow2(3) == 8 && Pow2(7) == 16 * Pow2(3);
    if count < MinCount(cur, prev) {
      ExpandPlain(lens, cur, count);
      PlainFits(cur, count);
    } else if cur != 0 && cur != prev {
      var l1 := Apply(lens, rs[0]);
      ExpandTwo(lens, rs);
      assert lens + [cur] + Repeat(cur, count - 1) == lens + Repeat(cur, count);
    } else {
      ExpandOne(lens, rs);
    }
  }

  lemma ExpandOne(lens: seq<int>, rs: seq<Run>)
    requires |rs| == 1
    ensures Expand(lens, rs) == Apply(lens, rs[0])
  {
    assert rs[1..] == [];
    assert Expand(Apply(lens, rs[0]), []) == Apply(lens, rs[0]);
  }

  lemma ExpandTwo(lens: seq<int>, rs: seq<Run>)
    requires |rs| == 2
    ensures Expand(lens, rs) == Apply(Apply(lens, rs[0]), rs[1])
  {
    assert Expand(lens, rs) == Expand(Apply(lens, rs[0]), rs[1..]);
    ExpandOne(Apply(lens, rs[0]), rs[1..]);
  }

  lemma {:induction false} PlainFits(cur: nat, count: nat)
    requires cur < 16
    ensures forall i :: 0 <= i < count ==> FitsField(Plain(cur, count)[i])
  {
    if count > 0 {
      PlainFits(cur, count - 1);
    }
  }

  lemma {:induction false} StretchSame(lens: seq<nat>, i: nat, max: nat)
    requires i < |lens| && max >= 1
    ensures var n := Stretch(lens, i, max);
            lens[i..i + n] == Repeat(lens[i], n)
    decreases max
  {
    var n := Stretch(lens, i, max);
    if n > 1 {
      StretchSame(lens, i + 1, max - 1);
      assert lens[i..i + n] == [lens[i]] + lens[i + 1..i + n];
    }
  }

  ghost predicate AllFit(rs: seq<Run>) {
    forall i :: 0 <= i < |rs| ==> FitsField(rs[i])
  }

  lemma AllFitAppend(rs: seq<Run>, ss: seq<Run>)
    requires AllFit(rs) && AllFit(ss)
    ensures AllFit(rs + ss)
  {
    hide FitsField;
  }

  lemma RunsNone(lens: seq<nat>, prev: int)
    ensures RunsFrom(lens, |lens|, prev) == [] && lens[|lens|..] == [] && AllFit([])
            && forall acc :: Expand(acc, []) == acc
  {
  }

  /** One group and the rest. */
  lemma RunsStep(lens: seq<nat>, i: nat, prev: int, n: nat)
    requires i < |lens| && n == Stretch(lens, i, MaxCount(lens[i], prev))
    ensures 1 <= n <= MaxCount(lens[i], prev) && i + n <= |lens| && lens[i..i + n] == Repeat(lens[i], n)
    ensures RunsFrom(lens, i, prev) == GroupOf(lens[i], prev, n) + RunsFrom(lens, i + n, lens[i])
  {
    hide *;
    MaxPositive(lens[i], prev);
    StretchSame(lens, i, MaxCount(lens[i], prev));
    StretchRange(lens, i, MaxCount(lens[i], prev));
    RunsUnfold(lens, i, prev, n);
  }

  lemma StretchRange(lens: seq<nat>, i: nat, max: nat)
    requires i < |lens| && max >= 1
    ensures 1 <= Stretch(lens, i, max) <= max && i + Stretch(lens, i, max) <= |lens|
  {
  }

  lemma RunsUnfold(lens: seq<nat>, i: nat, prev: int, n: nat)
    requires i < |lens| && n == Stretch(lens, i, MaxCount(lens[i], prev))
    ensures RunsFrom(lens, i, prev) == GroupOf(lens[i], prev, n) + RunsFrom(lens, i + n, lens[i])
  {
    hide GroupOf, Stretch, MaxCount;
  }

  /** Reading back what is sent gives the lengths, and every repeat count fits its field. */
  lemma {:induction false} ExpandRuns(acc: seq<int>, lens: seq<nat>, i: nat, prev: int)
    requires i <= |lens| && Follows(acc, prev) && forall k :: 0 <= k < |lens| ==> lens[k] < 16
    ensures Expand(acc, RunsFrom(lens, i, prev)) == acc + lens[i..] && AllFit(RunsFrom(lens, i, prev))
    decreases |lens| - i
  {
    hide *;
    if i == |lens| {
      RunsNone(lens, prev);
      return;
    }
    MaxPositive(lens[i], prev);
    var cur, n := lens[i], Stretch(lens, i, MaxCount(lens[i], prev));
    var group, rest := GroupOf(cur, prev, n), RunsFrom(lens, i + n, cur);
    RunsStep(lens, i, prev, n);
    ExpandGroup(acc, cur, prev, n);
    ExpandAppend(acc, group, rest);
    EndsWith(acc, lens, i, n, cur);
    ExpandRuns(acc + lens[i..i + n], lens, i + n, cur);
    AllFitAppend(group, rest);
    assert acc + lens[i..i + n] + lens[i + n..] == acc + lens[i..];
  }

  lemma MaxPositive(cur: int, prev: int)
    ensures MaxCount(cur, prev) >= 1
  {
  }

  lemma EndsWith(acc: seq<int>, lens: seq<nat>, i: nat, n: nat, cur: nat)
    requires n >= 1 && i + n <= |lens| && lens[i..i + n] == Repeat(cur, n)
    ensures Follows(acc + lens[i..i + n], cur)
  {
    assert lens[i..i + n][n - 1] == cur;
  }

  /** The run-length round trip, after any lengths read before. */
  lemma RunsRoundTrip(acc: seq<int>, lens: seq<nat>)
    requires forall k :: 0 <= k < |lens| ==> lens[k] < 16
    ensures Expand(acc, Runs(lens)) == acc + lens
    ensures AllFit(Runs(lens))
  {
    ExpandRuns(acc, lens, 0, -1);
    assert lens[0..] == lens;
  }

  // ----- the loops over a tree

  /** The count of equal lengths has come to the end of its stretch. */
  lemma {:induction false} StretchEnds(lens: seq<nat>, i: nat, count: nat, max: nat)
    requires 1 <= count <= max && i + count <= |lens|
    requires forall k :: i <= k < i + count ==> lens[k] == lens[i]
    requires count == max || i + count == |lens| || lens[i + count] != lens[i]
    ensures Stretch(lens, i, max) == count
    decreases count
  {
    if count > 1 {
      StretchEnds(lens, i + 1, count - 1, max - 1);
    }
  }

  /** Where a loop over the lengths is: the symbols of the lengths before n - count are out. */
  ghost predicate Scanning(lens: seq<nat>, rs: seq<Run>, n: nat, count: nat, prev: int, max: int, min: int) {
    && count <= n <= |lens| && rs + RunsFrom(lens, n - count, prev) == Runs(lens)
    && (n == |lens| ==> count == 0)
    && (n < |lens| ==> max == MaxCount(lens[n], prev) && min == MinCount(lens[n], prev) && count < max
                       && forall k :: n - count <= k < n ==> lens[k] == lens[n])
  }

  lemma ScanStart(lens: seq<nat>, max: int, min: int)
    requires lens != [] && max == (if lens[0] == 0 then 138 else 7) && min == (if lens[0] == 0 then 3 else 4)
    ensures Scanning(lens, [], 0, 0, -1, max, min)
  {
    assert [] + RunsFrom(lens, 0, -1) == Runs(lens);
  }

  lemma ScanOn(lens: seq<nat>, rs: seq<Run>, n: nat, count: nat, prev: int, max: int, min: int)
    requires Scanning(lens, rs, n, count, prev, max, min) && n + 1 < |lens| && count + 1 < max && lens[n + 1] == lens[n]
    ensures Scanning(lens, rs, n + 1, count + 1, prev, max, min)
  {
    hide RunsFrom;
  }

  lemma ScanMin(lens: seq<nat>, rs: seq<Run>, n: nat, count: nat, prev: int, max: int, min: int)
    requires Scanning(lens, rs, n, count, prev, max, min) && n < |lens|
    ensures min == MinCount(lens[n], prev) && count + 1 <= max
  {
  }

  /** The stretch has ended: its group goes out. */
  lemma ScanGroup(lens: seq<nat>, rs: seq<Run>, n: nat, count: nat, prev: int, max: int, min: int, max': int, min': int)
    requires Scanning(lens, rs, n, count, prev, max, min) && n < |lens|
    requires count + 1 == max || n + 1 == |lens| || lens[n + 1] != lens[n]
    requires n + 1 < |lens| ==> max' == MaxCount(lens[n + 1], lens[n]) && min' == MinCount(lens[n + 1], lens[n])
    ensures Scanning(lens, rs + GroupOf(lens[n], prev, count + 1), n + 1, 0, lens[n], max', min')
    ensures min == MinCount(lens[n], prev) && count + 1 <= MaxCount(lens[n], prev)
  {
    hide GroupOf, RunsFrom, Stretch, Runs;
    GroupFirst(lens, n, count, prev, max);
    var group, rest := GroupOf(lens[n], prev, count + 1), RunsFrom(lens, n + 1, lens[n]);
    assert rs + (group + rest) == rs + group + rest;
  }

  lemma GroupFirst(lens: seq<nat>, n: nat, count: nat, prev: int, max: int)
    requires count <= n < |lens| && max == MaxCount(lens[n], prev) && count < max
    requires forall k :: n - count <= k < n ==> lens[k] == lens[n]
    requires count + 1 == max || n + 1 == |lens| || lens[n + 1] != lens[n]
    ensures RunsFrom(lens, n - count, prev) == GroupOf(lens[n], prev, count + 1) + RunsFrom(lens, n + 1, lens[n])
  {
    StretchEnds(lens, n - count, count + 1, max);
    hide Stretch, GroupOf;
  }

  /** Occurrences of a symbol. */
  function SymCount(rs: seq<Run>, s: nat): (n: nat) {
    if rs == [] then 0 else SymCount(rs[..|rs| - 1], s) + (if rs[|rs| - 1].sym == s then 1 else 0)
  }

  lemma {:induction false} SymCountAppend(rs: seq<Run>, ss: seq<Run>, s: nat)
    ensures SymCount(rs + ss, s) == SymCount(rs, s) + SymCount(ss, s)
    decreases |ss|
  {
    if ss == [] {
      assert rs + ss == rs;
    } else {
      assert (rs + ss)[..|rs + ss| - 1] == rs + ss[..|ss| - 1];
      SymCountAppend(rs, ss[..|ss| - 1], s);
    }
  }

  lemma {:induction false} SymCountPlain(cur: nat, count: nat, s: nat)
    ensures SymCount(Plain(cur, count), s) == if s == cur then count else 0
  {
    if count > 0 {
      SymCountPlain(cur, count - 1, s);
      SymCountAppend([Run(cur, 0)], Plain(cur, count - 1), s);
      assert [Run(cur, 0)][..0] == [];
    }
  }

  /** Frequencies f are frequencies f0 and the symbols of rs. */
  ghost predicate Tallies(f: seq<int>, f0: seq<int>, rs: seq<Run>) {
    |f| == |f0| >= 19 && (forall s: nat :: s < 19 ==> f[s] == f0[s] + SymCount(rs, s)) && f[19..] == f0[19..]
  }

  /** How a group changes the frequencies. */
  function Bumped(f: seq<int>, cur: nat, prev: int, count: nat): (g: seq<int>)
    requires |f| >= 19 && cur < 16
    ensures |g| == |f|
  {
    if count < MinCount(cur, prev) then f[cur := f[cur] + count]
    else if cur != 0 then
      var g := if cur != prev then f[cur := f[cur] + 1] else f;
      g[REP_3_6 := g[REP_3_6] + 1]
    else if count <= 10 then f[REPZ_3_10 := f[REPZ_3_10] + 1]
    else f[REPZ_11_138 := f[REPZ_11_138] + 1]
  }

  lemma GroupCount(cur: nat, prev: int, count: nat, s: nat)
    ensures count < MinCount(cur, prev) ==> SymCount(GroupOf(cur, prev, count), s) == if s == cur then count else 0
    ensures count >= MinCount(cur, prev) && cur != 0
            ==> SymCount(GroupOf(cur, prev, count), s)
                == (if s == cur && cur != prev then 1 else 0) + (if s == REP_3_6 then 1 else 0)
    ensures count >= MinCount(cur, prev) && cur == 0
            ==> SymCount(GroupOf(cur, prev, count), s)
                == (if s == (if count <= 10 then REPZ_3_10 else REPZ_11_138) then 1 else 0)
  {
    var rs := GroupOf(cur, prev, count);
    if count < MinCount(cur, prev) {
      SymCountPlain(cur, count, s);
    } else if |rs| == 2 {
      SymCountOne(rs[0], s);
      assert rs[..1] == [rs[0]];
    } else {
      SymCountOne(rs[0], s);
      assert rs == [rs[0]];
    }
  }

  lemma SymCountOne(r: Run, s: nat)
    ensures SymCount([r], s) == if r.sym == s then 1 else 0
  {
    assert [r][..0] == [];
  }

  lemma BumpedCounted(f: seq<int>, f0: seq<int>, rs: seq<Run>, cur: nat, prev: int, count: nat)
    requires Tallies(f, f0, rs) && cur < 16
    ensures Tallies(Bumped(f, cur, prev, count), f0, rs + GroupOf(cur, prev, count))
  {
    forall s: nat | s < 19
      ensures Bumped(f, cur, prev, count)[s] == f0[s] + SymCount(rs + GroupOf(cur, prev, count), s)
    {
      SymCountAppend(rs, GroupOf(cur, prev, count), s);
      GroupCount(cur, prev, count, s);
      hide GroupOf, SymCount;
    }
    hide GroupOf, SymCount;
  }

  /** The counts of one group. */
  method CountGroup(freq: array<int>, cur: nat, prev: int, count: nat, min: int)
    requires freq.Length >= 19 && cur < 16 && min == MinCount(cur, prev)
    modifies freq
    ensures freq[..] == Bumped(old(freq[..]), cur, prev, count)
  {
    if count < min {
      freq[cur] := freq[cur] + count;
    } else if cur != 0 {
      if cur != prev {
        freq[cur] := freq[cur] + 1;
      }
      freq[REP_3_6] := freq[REP_3_6] + 1;
    } else if count <= 10 {
      freq[REPZ_3_10] := freq[REPZ_3_10] + 1;
    } else {
      freq[REPZ_11_138] := freq[REPZ_11_138] + 1;
    }
  }

  /** The lengths of a tree as the loops see them, the guard behind the last. */
  ghost predicate Guarded(len: seq<int>, lens: seq<nat>) {
    lens != [] && |lens| < |len| && len[..|lens|] == lens && len[|lens|] == 0xffff
    && forall k :: 0 <= k < |lens| ==> lens[k] < 16
  }

  /** The next group's limits. */
  method Limits(nextlen: int, curlen: int) returns (max: int, min: int)
    ensures max == MaxCount(nextlen, curlen) && min == MinCount(nextlen, curlen)
  {
    if nextlen == 0 {
      max, min := 138, 3;
    } else if curlen == nextlen {
      max, min := 6, 3;
    } else {
      max, min := 7, 4;
    }
  }

  /** The end of a stretch in `scan_tree`: count its group, and set the limits for the next. */
  method ScanGroupOut(freq: array<int>, curlen: nat, nextlen: int, prevlen: int, count: nat, max: int, min: int,
                      ghost lens: seq<nat>, ghost f0: seq<int>, ghost rs: seq<Run>, ghost n: nat)
    returns (max': int, min': int)
    requires freq.Length >= 19 && n < |lens| && curlen == lens[n] < 16 && (n + 1 < |lens| ==> nextlen == lens[n + 1])
    requires count >= 1 && Scanning(lens, rs, n, count - 1, prevlen, max, min) && Tallies(freq[..], f0, rs)
    requires n + 1 == |lens| || !(count < max && curlen == nextlen)
    modifies freq
    ensures Scanning(lens, rs + GroupOf(curlen, prevlen, count), n + 1, 0, curlen, max', min')
    ensures Tallies(freq[..], f0, rs + GroupOf(curlen, prevlen, count))
  {
    hide *;
    ScanMin(lens, rs, n, count - 1, prevlen, max, min);
    BumpedCounted(freq[..], f0, rs, curlen, prevlen, count);
    CountGroup(freq, curlen, prevlen, count, min);
    max', min' := Limits(nextlen, curlen);
    ScanGroup(lens, rs, n, count - 1, prevlen, max, min, max', min');
  }

  /** `scan_tree`: count the symbols that will be sent. */
  method ScanTree(len: array<int>, maxCode: nat, freq: array<int>, ghost lens: seq<nat>)
    requires len != freq && freq.Length >= 19 && maxCode + 1 < len.Length && lens == len[..maxCode + 1]
    requires forall k :: 0 <= k < |lens| ==> lens[k] < 16
    modifies len, freq
    ensures len[..] == old(len[..])[maxCode + 1 := 0xffff] && Guarded(len[..], lens)
    ensures Tallies(freq[..], old(freq[..]), Runs(lens))
  {
    hide *;
    ghost var f0, rs := freq[..], [];
    var prevlen, nextlen, count := -1, len[0], 0;
    var max, min := 7, 4;
    if nextlen == 0 {
      max, min := 138, 3;
    }
    len[maxCode + 1] := 0xffff;
    ghost var l := len[..];
    ScanStart(lens, max, min);
    CountedNone(f0);
    GuardedMake(l, lens);
    for n := 0 to maxCode + 1
      invariant len[..] == l && Guarded(l, lens) && |lens| == maxCode + 1 && freq.Length == |f0|
      invariant count >= 0 && Scanning(lens, rs, n, count, prevlen, max, min) && Tallies(freq[..], f0, rs)
      invariant nextlen == l[n]
    {
      GuardedAt(l, lens, n);
      var curlen := nextlen;
      nextlen := len[n + 1];
      count := count + 1;
      if count < max && curlen == nextlen {
        ScanOn(lens, rs, n, count - 1, prevlen, max, min);
      } else {
        max, min := ScanGroupOut(freq, curlen, nextlen, prevlen, count, max, min, lens, f0, rs, n);
        rs := rs + GroupOf(curlen, prevlen, count);
        count, prevlen := 0, curlen;
      }
    }
    ScanEnds(lens, rs, count, prevlen, max, min);
  }

  lemma CountedNone(f: seq<int>)
    requires |f| >= 19
    ensures Tallies(f, f, [])
  {
  }

  lemma GuardedMake(l: seq<int>, lens: seq<nat>)
    requires lens != [] && |lens| < |l| && l[..|lens|] == lens && l[|lens|] == 0xffff
             && forall k :: 0 <= k < |lens| ==> lens[k] < 16
    ensures Guarded(l, lens)
  {
  }

  lemma GuardedAt(l: seq<int>, lens: seq<nat>, n: nat)
    requires Guarded(l, lens) && n < |lens|
    ensures n + 1 < |l| && 0 <= l[n] == lens[n] < 16
    ensures n + 1 < |lens| ==> l[n + 1] == lens[n + 1]
    ensures n + 1 == |lens| ==> l[n + 1] == 0xffff
  {
    assert l[..|lens|][n] == lens[n];
  }

  lemma ScanEnds(lens: seq<nat>, rs: seq<Run>, count: nat, prev: int, max: int, min: int)
    requires Scanning(lens, rs, |lens|, count, prev, max, min)
    ensures rs == Runs(lens)
  {
    assert rs + [] == rs;
  }
}
