/**
 DES, triple DES and DESX in cipher block chaining (`des.c`; CBC as in section 6.2 of
 NIST SP 800-38A). The S-boxes are arbitrary functions: that decryption undoes encryption
 does not depend on them.
 */
module Des {
  /** For each of the eight boxes, the 32 bits that six bits select. */
  type Boxes = (nat, bv32) -> bv32

  datatype Block = Block(left: bv32, right: bv32)

  function Xor(x: bv32, y: bv32): bv32 {
    x ^ y
  }

  lemma XorTwice(x: bv32, y: bv32)
    ensures Xor(Xor(x, y), y) == x
  {
  }

  lemma XorComm(x: bv32, y: bv32)
    ensures Xor(x, y) == Xor(y, x)
  {
  }

  lemma XorGroups(x: bv32, y: bv32, z: bv32)
    ensures Xor(x, Xor(y, z)) == Xor(Xor(x, z), y)
  {
  }

  lemma XorSum(x: bv32, y: bv32, w: bv32)
    ensures Xor(Xor(x, w), Xor(y, w)) == Xor(x, y)
  {
    hide Xor;
    XorGroups(Xor(x, w), y, w);
    XorTwice(x, w);
  }

  function Or(x: bv32, y: bv32): bv32 {
    x | y
  }

  function Add(a: Block, b: Block): Block {
    Block(Xor(a.left, b.left), Xor(a.right, b.right))
  }

  function Swapped(b: Block): Block {
    Block(b.right, b.left)
  }

  lemma AddTwice(a: Block, b: Block)
    ensures Add(Add(a, b), b) == a
  {
    hide Xor;
    XorTwice(a.left, b.left);
    XorTwice(a.right, b.right);
  }

  // ----- the permutations around the rounds

  /** Two words exchange the bits of a mask, shifted against each other. */
  function Mix4(b: Block): Block {
    var work := ((b.left >> 4) ^ b.right) & 0x0f0f0f0f;
    Block(b.left ^ (work << 4), b.right ^ work)
  }

  function Mix16(b: Block): Block {
    var work := ((b.left >> 16) ^ b.right) & 0xffff;
    Block(b.left ^ (work << 16), b.right ^ work)
  }

  function Mix2(b: Block): Block {
    var work := ((b.left >> 2) ^ b.right) & 0x33333333;
    Block(b.left ^ (work << 2), b.right ^ work)
  }

  function Mix8(b: Block): Block {
    var work := ((b.left >> 8) ^ b.right) & 0xff00ff;
    Block(b.left ^ (work << 8), b.right ^ work)
  }

  /** Every other bit. */
  function Odd(x: bv32): bv32 {
    x & 0xaaaaaaaa
  }

  function Mix1(b: Block): Block {
    var work := Odd(Xor(b.left, b.right));
    Block(Xor(b.left, work), Xor(b.right, work))
  }

  function TurnRight(b: Block): Block {
    Block(b.left, (b.right << 1) | (b.right >> 31))
  }

  function BackRight(b: Block): Block {
    Block(b.left, (b.right << 31) | (b.right >> 1))
  }

  lemma Mix4Twice(b: Block)
    ensures Mix4(Mix4(b)) == b
  {
  }

  lemma Mix16Twice(b: Block)
    ensures Mix16(Mix16(b)) == b
  {
  }

  lemma Mix2Twice(b: Block)
    ensures Mix2(Mix2(b)) == b
  {
  }

  lemma Mix8Twice(b: Block)
    ensures Mix8(Mix8(b)) == b
  {
  }

  lemma Mix1Twice(b: Block)
    ensures Mix1(Mix1(b)) == b
  {
    hide Xor, Odd;
    var work := Odd(Xor(b.left, b.right));
    XorSum(b.left, b.right, work);
    XorTwice(b.left, work);
    XorTwice(b.right, work);
  }

  lemma Mix1Swapped(b: Block)
    ensures Mix1(Swapped(b)) == Swapped(Mix1(b))
  {
    hide Xor, Odd;
    XorComm(b.left, b.right);
  }

  lemma TurnBack(b: Block)
    ensures BackRight(TurnRight(b)) == b && TurnRight(BackRight(b)) == b
  {
  }

  function Initial(b: Block): Block {
    var m := Swapped(Mix16(Mix4(b)));
    var t := TurnRight(Swapped(Mix8(Mix2(m))));
    Swapped(TurnRight(Swapped(Mix1(t))))
  }

  function Final(b: Block): Block {
    var t := Mix1(BackRight(b));
    var m := Mix2(Mix8(Swapped(BackRight(Swapped(t)))));
    Mix4(Mix16(Swapped(m)))
  }

  lemma InitialFinal(b: Block)
    ensures Initial(Final(b)) == Swapped(b)
  {
    hide Mix1, Mix2, Mix4, Mix8, Mix16, TurnRight, BackRight;
    var t := Mix1(BackRight(b));
    var u := Swapped(BackRight(Swapped(t)));
    var m := Mix2(Mix8(u));
    Mix4Twice(Mix16(Swapped(m)));
    Mix16Twice(Swapped(m));
    Mix2Twice(Mix8(u));
    Mix8Twice(u);
    TurnBack(Swapped(t));
    Mix1Swapped(t);
    Mix1Twice(BackRight(b));
    TurnBack(b);
  }

  lemma FinalInitial(b: Block)
    ensures Final(Swapped(Initial(b))) == b
  {
    hide Mix1, Mix2, Mix4, Mix8, Mix16, TurnRight, BackRight;
    var m := Swapped(Mix16(Mix4(b)));
    var t := TurnRight(Swapped(Mix8(Mix2(m))));
    TurnBack(Swapped(Mix1(t)));
    Mix1Swapped(Mix1(t));
    Mix1Twice(t);
    TurnBack(Swapped(Mix8(Mix2(m))));
    Mix8Twice(Mix2(m));
    Mix2Twice(m);
    Mix16Twice(Mix4(b));
    Mix4Twice(b);
  }

  // ----- the sixteen rounds

  /** What the source's F adds to one half. */
  function Mangled(sp: Boxes, r: bv32, k0: bv32, k1: bv32): bv32 {
    var high := ((r >> 4) | (r << 28)) ^ k0;
    var low := r ^ k1;
    sp(6, high & 0x3f) ^ sp(4, (high >> 8) & 0x3f) ^ sp(2, (high >> 16) & 0x3f) ^ sp(0, (high >> 24) & 0x3f)
    ^ sp(7, low & 0x3f) ^ sp(5, (low >> 8) & 0x3f) ^ sp(3, (low >> 16) & 0x3f) ^ sp(1, (low >> 24) & 0x3f)
  }

  /** One round; the halves take turns. */
  function Round(sp: Boxes, k0: bv32, k1: bv32, b: Block, onRight: bool): Block {
    if onRight then Block(b.left, Xor(b.right, Mangled(sp, b.left, k0, k1)))
    else Block(Xor(b.left, Mangled(sp, b.right, k0, k1)), b.right)
  }

  lemma RoundTwice(sp: Boxes, k0: bv32, k1: bv32, b: Block, onRight: bool)
    ensures Round(sp, k0, k1, Swapped(Round(sp, k0, k1, b, onRight)), !onRight) == Swapped(b)
  {
    hide Mangled, Xor;
    XorTwice(b.left, Mangled(sp, b.right, k0, k1));
    XorTwice(b.right, Mangled(sp, b.left, k0, k1));
  }

  function Rounds(sp: Boxes, ks: seq<bv32>, b: Block, n: nat): Block
    requires |ks| == 32 && n <= 16
  {
    if n == 0 then b
    else Round(sp, ks[2 * n - 2], ks[2 * n - 1], Rounds(sp, ks, b, n - 1), n % 2 == 0)
  }

  lemma RoundsStart(sp: Boxes, ks: seq<bv32>, b: Block)
    requires |ks| == 32
    ensures Rounds(sp, ks, b, 0) == b
  {
  }

  lemma RoundsUnfold(sp: Boxes, ks: seq<bv32>, b: Block, n: nat)
    requires |ks| == 32 && n < 16
    ensures Rounds(sp, ks, b, n + 1) == Round(sp, ks[2 * n], ks[2 * n + 1], Rounds(sp, ks, b, n), n % 2 == 1)
  {
    hide Round;
  }

  function Crypt(sp: Boxes, ks: seq<bv32>, b: Block): Block
    requires |ks| == 32
  {
    Final(Rounds(sp, ks, Initial(b), 16))
  }

  /** The same pairs of subkeys from the last to the first. */
  ghost predicate Opposite(ks: seq<bv32>, back: seq<bv32>) {
    && |ks| == 32 && |back| == 32
    && forall i :: 0 <= i < 16 ==> back[2 * i] == ks[30 - 2 * i] && back[2 * i + 1] == ks[31 - 2 * i]
  }

  lemma {:induction false} RoundsUndone(sp: Boxes, ks: seq<bv32>, back: seq<bv32>, b: Block, n: nat)
    requires Opposite(ks, back) && n <= 16
    ensures Rounds(sp, back, Swapped(Rounds(sp, ks, b, 16)), n) == Swapped(Rounds(sp, ks, b, 16 - n))
  {
    hide Round, Rounds;
    if n == 0 {
      RoundsStart(sp, back, Swapped(Rounds(sp, ks, b, 16)));
    } else {
      RoundsUndone(sp, ks, back, b, n - 1);
      RoundsUnfold(sp, back, Swapped(Rounds(sp, ks, b, 16)), n - 1);
      RoundsUnfold(sp, ks, b, 16 - n);
      var i := n - 1;
      assert back[2 * i] == ks[30 - 2 * i] && back[2 * i + 1] == ks[31 - 2 * i];
      RoundTwice(sp, ks[30 - 2 * i], ks[31 - 2 * i], Rounds(sp, ks, b, 16 - n), n % 2 == 1);
    }
  }

  lemma CryptUndone(sp: Boxes, ks: seq<bv32>, back: seq<bv32>, b: Block)
    requires Opposite(ks, back)
    ensures Crypt(sp, back, Crypt(sp, ks, b)) == b
  {
    hide Initial, Final, Rounds;
    InitialFinal(Rounds(sp, ks, Initial(b), 16));
    RoundsUndone(sp, ks, back, Initial(b), 16);
    RoundsStart(sp, ks, Initial(b));
    FinalInitial(b);
  }

  lemma RoundIs(sp: Boxes, k0: bv32, k1: bv32, b: Block)
    ensures Round(sp, k0, k1, b, false) == Block(Xor(b.left, Mangled(sp, b.right, k0, k1)), b.right)
    ensures Round(sp, k0, k1, b, true) == Block(b.left, Xor(b.right, Mangled(sp, b.left, k0, k1)))
  {
    hide Mangled;
  }

  lemma RoundsNext(sp: Boxes, ks: seq<bv32>, b: Block, n: nat)
    requires |ks| == 32 && n <= 14 && n % 2 == 0
    ensures
      var p := Rounds(sp, ks, b, n);
      var l := Xor(p.left, Mangled(sp, p.right, ks[2 * n], ks[2 * n + 1]));
      Rounds(sp, ks, b, n + 2) == Block(l, Xor(p.right, Mangled(sp, l, ks[2 * n + 2], ks[2 * n + 3])))
  {
    hide *;
    RoundsUnfold(sp, ks, b, n);
    RoundsUnfold(sp, ks, b, n + 1);
    RoundIs(sp, ks[2 * n], ks[2 * n + 1], Rounds(sp, ks, b, n));
    RoundIs(sp, ks[2 * n + 2], ks[2 * n + 3], Rounds(sp, ks, b, n + 1));
  }

  lemma CryptIs(sp: Boxes, ks: seq<bv32>, b: Block)
    requires |ks| == 32
    ensures Crypt(sp, ks, b) == Final(Rounds(sp, ks, Initial(b), 16))
  {
    hide Final, Initial, Rounds;
  }

  /** The source's F on one half and then on the other, with two pairs of subkeys. */
  method TwoRounds(sp: Boxes, l0: bv32, r0: bv32, ks: array<bv32>, n: nat, ghost start: Block)
      returns (left: bv32, right: bv32)
    requires ks.Length == 32 && n <= 14 && n % 2 == 0 && Block(l0, r0) == Rounds(sp, ks[..], start, n)
    ensures Block(left, right) == Rounds(sp, ks[..], start, n + 2)
  {
    hide *;
    left := Xor(l0, Mangled(sp, r0, ks[2 * n], ks[2 * n + 1]));
    right := Xor(r0, Mangled(sp, left, ks[2 * n + 2], ks[2 * n + 3]));
    RoundsNext(sp, ks[..], start, n);
  }

  /** `desfunc`: a block is enciphered or deciphered in place. */
  method DesFunc(sp: Boxes, block: array<bv32>, ks: array<bv32>)
    requires block.Length == 2 && ks.Length == 32 && block != ks
    modifies block
    ensures Block(block[0], block[1]) == Crypt(sp, ks[..], old(Block(block[0], block[1])))
  {
    hide *;
    ghost var keys := ks[..];
    ghost var first := Block(block[0], block[1]);
    var start := Initial(Block(block[0], block[1]));
    var left, right := start.left, start.right;
    RoundsStart(sp, keys, start);
    left, right := TwoRounds(sp, left, right, ks, 0, start);
    left, right := TwoRounds(sp, left, right, ks, 2, start);
    left, right := TwoRounds(sp, left, right, ks, 4, start);
    left, right := TwoRounds(sp, left, right, ks, 6, start);
    left, right := TwoRounds(sp, left, right, ks, 8, start);
    left, right := TwoRounds(sp, left, right, ks, 10, start);
    left, right := TwoRounds(sp, left, right, ks, 12, start);
    left, right := TwoRounds(sp, left, right, ks, 14, start);
    CryptIs(sp, keys, first);
    var result := Final(Block(left, right));
    block[0], block[1] := result.left, result.right;
  }

  // ----- subkeys

  /** A place in the key that is not one of the eight parity bits. */
  type KeyPlace = l: nat | l < 64 && l % 8 != 7

  type Place = l: nat | l < 56

  type Turn = l: nat | l <= 28

  const PC1C: seq<KeyPlace> := [
    56, 48, 40, 32, 24, 16, 8, 0, 57, 49, 41, 33, 25, 17,
    9, 1, 58, 50, 42, 34, 26, 18, 10, 2, 59, 51, 43, 35
  ]

  const PC1D: seq<KeyPlace> := [
    62, 54, 46, 38, 30, 22, 14, 6, 61, 53, 45, 37, 29, 21,
    13, 5, 60, 52, 44, 36, 28, 20, 12, 4, 27, 19, 11, 3
  ]

  const PC1 := PC1C + PC1D

  const PC2C: seq<Place> := [
    13, 16, 10, 23, 0, 4, 2, 27, 14, 5, 20, 9,
    22, 18, 11, 3, 25, 7, 15, 6, 26, 19, 12, 1
  ]

  const PC2D: seq<Place> := [
    40, 51, 30, 36, 46, 54, 29, 39, 50, 44, 32, 47,
    43, 48, 38, 55, 33, 52, 45, 41, 49, 35, 28, 31
  ]

  const PC2 := PC2C + PC2D

  const TOTROT: seq<Turn> := [1, 2, 4, 6, 8, 10, 12, 14, 15, 17, 19, 21, 23, 25, 27, 28]

  const BYTEBIT: seq<bv8> := [0x80, 0x40, 0x20, 0x10, 0x08, 0x04, 0x02, 0x01]

  const BIGBYTE: seq<bv32> := [
    0x800000, 0x400000, 0x200000, 0x100000, 0x80000, 0x40000, 0x20000, 0x10000,
    0x8000, 0x4000, 0x2000, 0x1000, 0x800, 0x400, 0x200, 0x100,
    0x80, 0x40, 0x20, 0x10, 0x8, 0x4, 0x2, 0x1
  ]

  lemma TableSizes()
    ensures |PC1| == 56 && |PC2| == 48 && |TOTROT| == 16 && |BYTEBIT| == 8 && |BIGBYTE| == 24
  {
  }

  /** The bit of the key that the first permuted choice puts at a place. */
  predicate KeyBit(key: seq<bv8>, j: Place)
    requires |key| == 8
  {
    hide *;
    TableSizes();
    key[PC1[j] / 8] & BYTEBIT[PC1[j] % 8] != 0
  }

  /** Where the bit stands that round i has at a place: both halves are rotated. */
  function Source(i: nat, j: Place): Place
    requires i < 16
  {
    hide *;
    TableSizes();
    var l := j + TOTROT[i];
    if l < (if j < 28 then 28 else 56) then l else l - 28
  }

  predicate RoundBit(key: seq<bv8>, i: nat, j: nat)
    requires |key| == 8 && i < 16 && j < 48
  {
    hide *;
    TableSizes();
    KeyBit(key, Source(i, PC2[j]))
  }

  /** The word that n of the 24 bits from the given place on make. */
  function Gathered(key: seq<bv8>, i: nat, from: nat, n: nat): bv32
    requires |key| == 8 && i < 16 && from + n <= 48 && n <= 24
  {
    hide *;
    TableSizes();
    if n == 0 then 0
    else if RoundBit(key, i, from + n - 1) then Or(Gathered(key, i, from, n - 1), BIGBYTE[n - 1])
    else Gathered(key, i, from, n - 1)
  }

  function RawKeys(key: seq<bv8>): (kn: seq<bv32>)
    requires |key| == 8
    ensures |kn| == 32
  {
    seq(32, m requires 0 <= m < 32 => Gathered(key, m / 2, m % 2 * 24, 24))
  }

  function CookedHigh(raw0: bv32, raw1: bv32): bv32 {
    ((raw0 & 0x00fc0000) << 6) | ((raw0 & 0x00000fc0) << 10) | ((raw1 & 0x00fc0000) >> 10) | ((raw1 & 0x00000fc0) >> 6)
  }

  function CookedLow(raw0: bv32, raw1: bv32): bv32 {
    ((raw0 & 0x0003f000) << 12) | ((raw0 & 0x0000003f) << 16) | ((raw1 & 0x0003f000) >> 4) | (raw1 & 0x0000003f)
  }

  function Subkey(kn: seq<bv32>, i: nat, half: nat): bv32
    requires |kn| == 32 && i < 16
  {
    if half == 0 then CookedHigh(kn[2 * i], kn[2 * i + 1]) else CookedLow(kn[2 * i], kn[2 * i + 1])
  }

  /** The pair of raw keys that the words at place m are made of. */
  function PairAt(encrypt: bool, m: nat): (i: nat)
    requires m < 32
    ensures i < 16
  {
    if encrypt then m / 2 else 15 - m / 2
  }

  /** The subkeys in the order in which the rounds use them. */
  function Schedule(kn: seq<bv32>, encrypt: bool): (ks: seq<bv32>)
    requires |kn| == 32
    ensures |ks| == 32
    ensures forall m :: 0 <= m < 32 ==> ks[m] == Subkey(kn, PairAt(encrypt, m), m % 2)
  {
    hide *;
    seq(32, m requires 0 <= m < 32 => Subkey(kn, PairAt(encrypt, m), m % 2))
  }

  function Subkeys(key: seq<bv8>, encrypt: bool): (ks: seq<bv32>)
    requires |key| == 8
    ensures |ks| == 32
  {
    Schedule(RawKeys(key), encrypt)
  }

  lemma SchedulesOpposite(kn: seq<bv32>, encrypt: bool)
    requires |kn| == 32
    ensures Opposite(Schedule(kn, encrypt), Schedule(kn, !encrypt))
  {
    hide Subkey, Schedule;
    var ks, back := Schedule(kn, encrypt), Schedule(kn, !encrypt);
    forall i | 0 <= i < 16
      ensures back[2 * i] == ks[30 - 2 * i] && back[2 * i + 1] == ks[31 - 2 * i]
    {
      assert PairAt(encrypt, 30 - 2 * i) == PairAt(!encrypt, 2 * i);
      assert PairAt(encrypt, 31 - 2 * i) == PairAt(!encrypt, 2 * i + 1);
    }
  }

  lemma SubkeyIs(kn: seq<bv32>, encrypt: bool, i: nat, m: nat)
    requires |kn| == 32 && i < 16 && m == if encrypt then 2 * i else 30 - 2 * i
    ensures Schedule(kn, encrypt)[m] == CookedHigh(kn[2 * i], kn[2 * i + 1])
    ensures Schedule(kn, encrypt)[m + 1] == CookedLow(kn[2 * i], kn[2 * i + 1])
  {
    hide Schedule, CookedHigh, CookedLow;
  }

  /** `cookey`: the raw keys are spread over the six-bit fields that the boxes read. */
  method CooKey(subkeys: array<bv32>, kn: array<bv32>, encrypt: bool)
    requires subkeys.Length == 32 && kn.Length == 32 && subkeys != kn
    modifies subkeys
    ensures subkeys[..] == Schedule(kn[..], encrypt)
  {
    hide *;
    ghost var raw := kn[..];
    ghost var goal := Schedule(raw, encrypt);
    var cooked: int := if encrypt then 0 else 30;
    var increment := if encrypt then 1 else -3;
    for i := 0 to 16
      invariant kn[..] == raw
      invariant cooked == (if encrypt then 2 * i else 30 - 2 * i)
      invariant forall m :: 0 <= m < 32 && (if encrypt then m < 2 * i else 32 - 2 * i <= m) ==> subkeys[m] == goal[m]
    {
      var raw0, raw1 := kn[2 * i], kn[2 * i + 1];
      SubkeyIs(raw, encrypt, i, cooked);
      subkeys[cooked] := CookedHigh(raw0, raw1);
      cooked := cooked + 1;
      subkeys[cooked] := CookedLow(raw0, raw1);
      cooked := cooked + increment;
    }
  }

  method Permute(pc1m: array<bool>, key: seq<bv8>)
    requires |key| == 8 && pc1m.Length == 56
    modifies pc1m
    ensures forall j: Place :: pc1m[j] == KeyBit(key, j)
  {
    hide *;
    TableSizes();
    for j := 0 to 56
      invariant forall k: Place :: k < j ==> pc1m[k] == KeyBit(key, k)
    {
      KeyBitIs(key, j);
      var l := PC1[j];
      pc1m[j] := key[l / 8] & BYTEBIT[l % 8] != 0;
    }
  }

  lemma KeyBitIs(key: seq<bv8>, j: Place)
    requires |key| == 8 && |PC1| == 56 && |BYTEBIT| == 8
    ensures KeyBit(key, j) == (key[PC1[j] / 8] & BYTEBIT[PC1[j] % 8] != 0)
  {
    hide PC1, BYTEBIT;
  }

  method Rotate(pcr: array<bool>, pc1m: array<bool>, key: seq<bv8>, i: nat)
    requires |key| == 8 && pc1m.Length == 56 && pcr.Length == 56 && pcr != pc1m && i < 16
    requires forall j: Place :: pc1m[j] == KeyBit(key, j)
    modifies pcr
    ensures forall j: Place :: pcr[j] == KeyBit(key, Source(i, j))
  {
    hide *;
    TableSizes();
    var turn: nat := TOTROT[i];
    for j := 0 to 28
      invariant forall k: Place :: k < j ==> pcr[k] == KeyBit(key, Source(i, k))
    {
      SourceIs(i, j);
      var l := j + turn;
      pcr[j] := if l < 28 then pc1m[l] else pc1m[l - 28];
    }
    for j := 28 to 56
      invariant forall k: Place :: k < j ==> pcr[k] == KeyBit(key, Source(i, k))
    {
      SourceIs(i, j);
      var l := j + turn;
      pcr[j] := if l < 56 then pc1m[l] else pc1m[l - 28];
    }
  }

  lemma SourceIs(i: nat, j: Place)
    requires i < 16 && |TOTROT| == 16
    ensures
      var l := j + TOTROT[i];
      Source(i, j) == if l < (if j < 28 then 28 else 56) then l else l - 28
  {
    hide TOTROT;
  }

  method Gather(kn: array<bv32>, pcr: array<bool>, key: seq<bv8>, i: nat)
    requires |key| == 8 && pcr.Length == 56 && kn.Length == 32 && i < 16
    requires forall j: Place :: pcr[j] == KeyBit(key, Source(i, j))
    modifies kn
    ensures kn[2 * i] == Gathered(key, i, 0, 24) && kn[2 * i + 1] == Gathered(key, i, 24, 24)
    ensures forall m :: 0 <= m < 32 && m / 2 != i ==> kn[m] == old(kn[m])
  {
    hide *;
    TableSizes();
    var m, n := 2 * i, 2 * i + 1;
    kn[m], kn[n] := 0, 0;
    GatheredNone(key, i);
    for j := 0 to 24
      invariant kn[m] == Gathered(key, i, 0, j) && kn[n] == Gathered(key, i, 24, j)
      invariant forall m :: 0 <= m < 32 && m / 2 != i ==> kn[m] == old(kn[m])
    {
      GatheredNext(key, i, 0, j);
      GatheredNext(key, i, 24, j);
      if pcr[PC2[j]] {
        kn[m] := Or(kn[m], BIGBYTE[j]);
      }
      if pcr[PC2[j + 24]] {
        kn[n] := Or(kn[n], BIGBYTE[j]);
      }
    }
  }

  lemma GatheredNone(key: seq<bv8>, i: nat)
    requires |key| == 8 && i < 16
    ensures Gathered(key, i, 0, 0) == 0 && Gathered(key, i, 24, 0) == 0
  {
  }

  lemma GatheredNext(key: seq<bv8>, i: nat, from: nat, j: nat)
    requires |key| == 8 && i < 16 && from + j < 48 && j < 24 && |PC2| == 48 && |BIGBYTE| == 24
    ensures
      var w := Gathered(key, i, from, j);
      Gathered(key, i, from, j + 1) == if KeyBit(key, Source(i, PC2[from + j])) then Or(w, BIGBYTE[j]) else w
  {
    hide PC2, BIGBYTE, KeyBit, Source;
  }

  lemma RawKeyIs(key: seq<bv8>, i: nat)
    requires |key| == 8 && i < 16
    ensures RawKeys(key)[2 * i] == Gathered(key, i, 0, 24) && RawKeys(key)[2 * i + 1] == Gathered(key, i, 24, 24)
  {
    hide Gathered;
  }

  /** `deskey`: the sixteen pairs of subkeys, for deciphering in the opposite order. */
  method DesKey(subkeys: array<bv32>, key: seq<bv8>, encrypt: bool)
    requires subkeys.Length == 32 && |key| == 8
    modifies subkeys
    ensures subkeys[..] == Subkeys(key, encrypt)
  {
    hide *;
    var kn := new bv32[32];
    var pc1m := new bool[56];
    var pcr := new bool[56];
    Permute(pc1m, key);
    for i := 0 to 16
      invariant forall j: Place :: pc1m[j] == KeyBit(key, j)
      invariant forall m :: 0 <= m < 2 * i ==> kn[m] == RawKeys(key)[m]
    {
      RawKeyIs(key, i);
      Rotate(pcr, pc1m, key, i);
      Gather(kn, pcr, key, i);
      forall m | 0 <= m < 2 * i + 2
        ensures kn[m] == RawKeys(key)[m]
      {
        assert m / 2 == i ==> m == 2 * i || m == 2 * i + 1;
      }
    }
    assert kn[..] == RawKeys(key);
    SubkeysAre(key, encrypt);
    CooKey(subkeys, kn, encrypt);
  }

  lemma SubkeysAre(key: seq<bv8>, encrypt: bool)
    requires |key| == 8
    ensures Subkeys(key, encrypt) == Schedule(RawKeys(key), encrypt)
  {
    hide Schedule, RawKeys;
  }

  /** The eight parity bits of a key have no effect. */
  lemma ParityIgnored(key: seq<bv8>, other: seq<bv8>, encrypt: bool)
    requires |key| == 8 && |other| == 8
    requires forall i :: 0 <= i < 8 ==> key[i] & 0xfe == other[i] & 0xfe
    ensures Subkeys(key, encrypt) == Subkeys(other, encrypt)
  {
    hide *;
    forall j: Place
      ensures KeyBit(key, j) == KeyBit(other, j)
    {
      SameKeyBit(key, other, j);
    }
    forall m | 0 <= m < 32
      ensures RawKeys(key)[m] == RawKeys(other)[m]
    {
      RawKeyIs(key, m / 2);
      RawKeyIs(other, m / 2);
      SameGathered(key, other, m / 2, m % 2 * 24, 24);
    }
    assert RawKeys(key) == RawKeys(other);
    SubkeysAre(key, encrypt);
    SubkeysAre(other, encrypt);
  }

  lemma SameKeyBit(key: seq<bv8>, other: seq<bv8>, j: Place)
    requires |key| == 8 && |other| == 8
    requires forall i :: 0 <= i < 8 ==> key[i] & 0xfe == other[i] & 0xfe
    ensures KeyBit(key, j) == KeyBit(other, j)
  {
    hide *;
    TableSizes();
    KeyBitIs(key, j);
    KeyBitIs(other, j);
    var l := PC1[j];
    ByteBitIs(key[l / 8], other[l / 8], l % 8);
  }

  lemma ByteBitIs(x: bv8, y: bv8, m: nat)
    requires |BYTEBIT| == 8 && m < 7 && x & 0xfe == y & 0xfe
    ensures x & BYTEBIT[m] == y & BYTEBIT[m]
  {
    assert x & 0x80 == y & 0x80 && x & 0x40 == y & 0x40 && x & 0x20 == y & 0x20 && x & 0x10 == y & 0x10;
    assert x & 0x08 == y & 0x08 && x & 0x04 == y & 0x04 && x & 0x02 == y & 0x02;
  }

  lemma {:induction false} SameGathered(key: seq<bv8>, other: seq<bv8>, i: nat, from: nat, n: nat)
    requires |key| == 8 && |other| == 8 && i < 16 && from + n <= 48 && n <= 24 && (from == 0 || from == 24)
    requires forall j: Place :: KeyBit(key, j) == KeyBit(other, j)
    ensures Gathered(key, i, from, n) == Gathered(other, i, from, n)
  {
    hide *;
    if n == 0 {
      GatheredNone(key, i);
      GatheredNone(other, i);
    } else {
      TableSizes();
      SameGathered(key, other, i, from, n - 1);
      GatheredNext(key, i, from, n - 1);
      GatheredNext(other, i, from, n - 1);
    }
  }
}
