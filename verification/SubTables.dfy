/**
 Sizes in `inflate_table`: every sub-table is long enough for the codes that share
 its prefix, and all tables together fit the space that the decoder reserves.
 */
module SubTables {
  import opened Arith
  import opened Canonical
  import opened DecodeTable
  import opened TableFill

  /** A sub-table of curr bits for prefix p, first needed for a code of length len. */
  ghost predicate Sized(cnt: seq<int>, p: int, root: nat, len: nat, curr: nat, max: nat) {
    && root < len <= root + curr <= max < |cnt|
    && (root + curr == max || Up(p + 1, curr) <= Used(cnt, root + curr))
    && (root + curr > len ==> Up(p + 1, curr - 1) > Used(cnt, root + curr - 1))
  }

  /** Codes at a later length start above all shorter codes. */
  lemma {:induction false} LaterCode(cnt: seq<int>, b: nat, len: nat, c: int)
    requires 0 < len && b < len < |cnt| && forall i :: 0 <= i < |cnt| ==> cnt[i] >= 0
    requires FirstCode(cnt, len) <= c
    ensures 0 <= c && 0 <= Used(cnt, b) <= Shr(c, len - b)
  {
    UsedNonNegative(cnt, b);
    UsedGrows(cnt, b, len - 1);
    ShrMono(Used(cnt, len - 1), c / 2, len - 1 - b);
  }

  /** A code of the same prefix fits the sub-table. */
  lemma PrefixFits(cnt: seq<int>, p: int, root: nat, l0: nat, curr: nat, max: nat, len: nat, c: int)
    requires Sized(cnt, p, root, l0, curr, max) && root < len <= max && p >= 0
    requires forall i :: 0 <= i < |cnt| ==> cnt[i] >= 0
    requires FirstCode(cnt, len) <= c && c >= 0 && Shr(c, len - root) == p
    ensures len <= root + curr
  {
    if len > root + curr {
      LaterCode(cnt, root + curr, len, c);
      ShrAdd(c, len - root - curr, curr);
      ShrUp(p + 1, curr);
      ShrMono(Up(p + 1, curr), Shr(c, len - root - curr), curr);
    }
  }

  lemma {:induction false} UsedUp(cnt: seq<int>, b: nat, c: nat)
    requires b <= c < |cnt| && forall i :: 0 <= i < |cnt| ==> cnt[i] >= 0
    ensures Up(Used(cnt, b), c - b) <= Used(cnt, c)
    decreases c
  {
    if b < c {
      UsedUp(cnt, b, c - 1);
    }
  }

  /** The next prefix is reached at full length: codes shorter than the sub-table's last bit do not fill it. */
  lemma NextPrefixLonger(cnt: seq<int>, p: int, root: nat, l0: nat, curr: nat, max: nat, len: nat, c: int)
    requires Sized(cnt, p, root, l0, curr, max) && l0 <= len <= max && p >= 0
    requires forall i :: 0 <= i < |cnt| ==> cnt[i] >= 0
    requires 0 <= c < Used(cnt, len) && p + 1 <= Shr(c, len - root)
    ensures root + curr <= len
  {
    if len < root + curr {
      var e := root + curr - 1;
      ShrBelow(c, p + 1, len - root);
      UpMono(Up(p + 1, len - root), Used(cnt, len), e - len);
      UpUp(p + 1, len - root, e - len);
      UsedUp(cnt, len, e);
    }
  }

  /** Space taken once the sub-table of curr bits has been added, before the code numbered sym. */
  ghost predicate Room(used: int, root: nat, sym: int, len: nat, top: nat) {
    root <= len && used <= Pow2(root) + sym + Pow2(len - root) + (if top > root then Pow2(top - root) else 0)
  }

  /** The codes placed since the sub-table was started cover the prefixes passed. */
  ghost predicate Covered(c0: int, l0: nat, sym0: int, len: nat, c: int, sym: int) {
    c >= 0 && l0 <= len && Shr(c, len - l0) - c0 <= sym - sym0
  }

  lemma {:induction false} ShrStep(c: int, k: nat)
    requires c >= 0
    ensures Shr(c, k) <= Shr(c + 1, k) <= Shr(c, k) + 1
  {
    if k > 0 {
      if (c + 1) / 2 != c / 2 {
        ShrStep(c / 2, k - 1);
      }
    }
  }

  lemma CoveredStep(c0: int, l0: nat, sym0: int, len: nat, c: int, sym: int, k: nat)
    requires Covered(c0, l0, sym0, len, c, sym)
    ensures Covered(c0, l0, sym0, len + k, Up(c + 1, k), sym + 1)
  {
    ShrStep(c, len - l0);
    ShrUp(c + 1, k);
    ShrAdd(Up(c + 1, k), k, len - l0);
  }

  /** When the next prefix is reached, the sub-table left behind has paid for its space. */
  lemma RoomAgain(used: int, root: nat, sym0: int, l0: nat, top: nat, c0: int, p: int, len: nat, c: int, sym: int)
    requires Room(used, root, sym0, l0, top) && root < l0 <= len && root < top <= len
    requires Covered(c0, l0, sym0, len, c, sym) && p >= 0 && c0 == Up(p, l0 - root) && p + 1 <= Shr(c, len - root)
    ensures Room(used, root, sym, len, root)
  {
    var d := Shr(c, len - l0);
    ShrAdd(c, len - l0, l0 - root);
    ShrBelow(d, p + 1, l0 - root);
    UpSum(p, 1, l0 - root);
    UpOne(l0 - root);
    assert sym - sym0 >= Pow2(l0 - root);
    Pow2Mono(top - root, len - root);
  }

  /** Table space that is always enough for a root index of the given bits. */
  function Enough(bits: nat, codes: nat): nat
    requires bits <= 15
  {
    Pow2(bits) + codes + 2 * Pow2(15 - bits)
  }

  lemma RoomEnough(used: int, root: nat, sym: int, codes: nat, len: nat, top: nat)
    requires Room(used, root, sym, len, top) && sym <= codes && len <= 15 && top <= 15
    ensures used <= Enough(root, codes)
  {
    Pow2Mono(len - root, 15 - root);
    if top > root {
      Pow2Mono(top - root, 15 - root);
    }
  }

  /** The two tables of a dynamic block fit the decoder's array, and the first leaves room for the second. */
  lemma EnoughIsEnough()
    ensures Enough(9, 286) + Enough(6, 32) <= 2048 && Enough(9, 288) < 2048 - 592 && Enough(7, 19) <= 2048
  {
    assert Pow2(9) == 512 && Pow2(6) == 64 && Pow2(7) == 128 && Pow2(8) == 256;
  }
}
