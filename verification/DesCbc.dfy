/**
 Cipher block chaining with DES, triple DES and DESX (`des.c`): the contexts that are
 updated message by message, and that deciphering gives the message back.
 */
module DesCbc {
  import opened Des

  type Key = s: seq<bv8> | |s| == 8 witness [0, 0, 0, 0, 0, 0, 0, 0]

  /** Whole blocks. */
  type Text = s: seq<bv8> | |s| % 8 == 0

  // ----- blocks and bytes

  function Word(a: bv8, b: bv8, c: bv8, d: bv8): bv32 {
    ((a as bv32) << 24) | ((b as bv32) << 16) | ((c as bv32) << 8) | (d as bv32)
  }

  function Byte3(w: bv32): bv8 {
    ((w >> 24) & 0xff) as bv8
  }

  function Byte2(w: bv32): bv8 {
    ((w >> 16) & 0xff) as bv8
  }

  function Byte1(w: bv32): bv8 {
    ((w >> 8) & 0xff) as bv8
  }

  function Byte0(w: bv32): bv8 {
    (w & 0xff) as bv8
  }

  lemma WordBytes(a: bv8, b: bv8, c: bv8, d: bv8)
    ensures
      var w := Word(a, b, c, d);
      Byte3(w) == a && Byte2(w) == b && Byte1(w) == c && Byte0(w) == d
  {
  }

  lemma BytesWord(w: bv32)
    ensures Word(Byte3(w), Byte2(w), Byte1(w), Byte0(w)) == w
  {
  }

  /** `scrunch` */
  function Scrunch(s: seq<bv8>): Block
    requires |s| == 8
  {
    Block(Word(s[0], s[1], s[2], s[3]), Word(s[4], s[5], s[6], s[7]))
  }

  /** `unscrunch` */
  function Unscrunch(b: Block): (s: seq<bv8>)
    ensures |s| == 8
  {
    [Byte3(b.left), Byte2(b.left), Byte1(b.left), Byte0(b.left),
      Byte3(b.right), Byte2(b.right), Byte1(b.right), Byte0(b.right)]
  }

  lemma ScrunchBack(b: Block)
    ensures Scrunch(Unscrunch(b)) == b
  {
    hide Word, Byte0, Byte1, Byte2, Byte3;
    BytesWord(b.left);
    BytesWord(b.right);
  }

  lemma UnscrunchBack(s: seq<bv8>)
    requires |s| == 8
    ensures Unscrunch(Scrunch(s)) == s
  {
    hide Word, Byte0, Byte1, Byte2, Byte3;
    WordBytes(s[0], s[1], s[2], s[3]);
    WordBytes(s[4], s[5], s[6], s[7]);
  }

  // ----- the three ciphers

  datatype Cipher =
    | Single(key: Key)
    | Triple(first: Key, second: Key, third: Key)
    | Whitened(key: Key, input: Block, output: Block)

  function Encipher(sp: Boxes, c: Cipher, b: Block): Block {
    match c
    case Single(key) => Crypt(sp, Subkeys(key, true), b)
    case Triple(first, second, third) =>
      Crypt(sp, Subkeys(third, true), Crypt(sp, Subkeys(second, false), Crypt(sp, Subkeys(first, true), b)))
    case Whitened(key, input, output) => Add(Crypt(sp, Subkeys(key, true), Add(b, input)), output)
  }

  function Decipher(sp: Boxes, c: Cipher, b: Block): Block {
    match c
    case Single(key) => Crypt(sp, Subkeys(key, false), b)
    case Triple(first, second, third) =>
      Crypt(sp, Subkeys(first, false), Crypt(sp, Subkeys(second, true), Crypt(sp, Subkeys(third, false), b)))
    case Whitened(key, input, output) => Add(Crypt(sp, Subkeys(key, false), Add(b, output)), input)
  }

  lemma KeyUndone(sp: Boxes, key: Key, encrypt: bool, b: Block)
    ensures Crypt(sp, Subkeys(key, !encrypt), Crypt(sp, Subkeys(key, encrypt), b)) == b
  {
    hide *;
    SubkeysAre(key, encrypt);
    SubkeysAre(key, !encrypt);
    SchedulesOpposite(RawKeys(key), encrypt);
    CryptUndone(sp, Subkeys(key, encrypt), Subkeys(key, !encrypt), b);
  }

  lemma DecipherEncipher(sp: Boxes, c: Cipher, b: Block)
    ensures Decipher(sp, c, Encipher(sp, c, b)) == b
  {
    hide Crypt, Subkeys, Add;
    match c
    case Single(key) =>
      KeyUndone(sp, key, true, b);
    case Triple(first, second, third) =>
      var b1 := Crypt(sp, Subkeys(first, true), b);
      KeyUndone(sp, third, true, Crypt(sp, Subkeys(second, false), b1));
      KeyUndone(sp, second, false, b1);
      KeyUndone(sp, first, true, b);
    case Whitened(key, input, output) =>
      AddTwice(Crypt(sp, Subkeys(key, true), Add(b, input)), output);
      KeyUndone(sp, key, true, Add(b, input));
      AddTwice(b, input);
  }

  lemma EncipherDecipher(sp: Boxes, c: Cipher, b: Block)
    ensures Encipher(sp, c, Decipher(sp, c, b)) == b
  {
    hide Crypt, Subkeys, Add;
    match c
    case Single(key) =>
      KeyUndone(sp, key, false, b);
    case Triple(first, second, third) =>
      var b1 := Crypt(sp, Subkeys(third, false), b);
      KeyUndone(sp, first, false, Crypt(sp, Subkeys(second, true), b1));
      KeyUndone(sp, second, true, b1);
      KeyUndone(sp, third, false, b);
    case Whitened(key, input, output) =>
      AddTwice(Crypt(sp, Subkeys(key, false), Add(b, output)), input);
      KeyUndone(sp, key, false, Add(b, output));
      AddTwice(b, output);
  }

  // ----- chaining

  function Encrypted(sp: Boxes, c: Cipher, iv: Block, m: Text): (r: Text)
    ensures |r| == |m|
    decreases |m|
  {
    hide *;
    if m == [] then [] else
      var b := Encipher(sp, c, Add(Scrunch(m[..8]), iv));
      Unscrunch(b) + Encrypted(sp, c, b, m[8..])
  }

  function Decrypted(sp: Boxes, c: Cipher, iv: Block, m: Text): (r: Text)
    ensures |r| == |m|
    decreases |m|
  {
    hide *;
    if m == [] then [] else
      var b := Scrunch(m[..8]);
      Unscrunch(Add(Decipher(sp, c, b), iv)) + Decrypted(sp, c, b, m[8..])
  }

  /** Deciphering gives every message back. */
  lemma {:induction false} RoundTrip(sp: Boxes, c: Cipher, iv: Block, m: Text)
    ensures Decrypted(sp, c, iv, Encrypted(sp, c, iv, m)) == m
    decreases |m|
  {
    hide Encipher, Decipher, Scrunch, Unscrunch, Add;
    if m != [] {
      var x := Scrunch(m[..8]);
      var b := Encipher(sp, c, Add(x, iv));
      var rest := Encrypted(sp, c, b, m[8..]);
      var e := Encrypted(sp, c, iv, m);
      assert e == Unscrunch(b) + rest;
      assert e[..8] == Unscrunch(b) && e[8..] == rest;
      ScrunchBack(b);
      DecipherEncipher(sp, c, Add(x, iv));
      AddTwice(x, iv);
      UnscrunchBack(m[..8]);
      RoundTrip(sp, c, b, m[8..]);
    }
  }

  lemma {:induction false} RoundTripBack(sp: Boxes, c: Cipher, iv: Block, m: Text)
    ensures Encrypted(sp, c, iv, Decrypted(sp, c, iv, m)) == m
    decreases |m|
  {
    hide Encipher, Decipher, Scrunch, Unscrunch, Add;
    if m != [] {
      var b := Scrunch(m[..8]);
      var x := Add(Decipher(sp, c, b), iv);
      var rest := Decrypted(sp, c, b, m[8..]);
      var d := Decrypted(sp, c, iv, m);
      assert d == Unscrunch(x) + rest;
      assert d[..8] == Unscrunch(x) && d[8..] == rest;
      ScrunchBack(x);
      AddTwice(Decipher(sp, c, b), iv);
      EncipherDecipher(sp, c, b);
      UnscrunchBack(m[..8]);
      RoundTripBack(sp, c, b, m[8..]);
    }
  }

  function LastBlock(iv: Block, m: Text): Block {
    if m == [] then iv else Scrunch(m[|m| - 8..])
  }

  /** What one call makes of a message. */
  function Converted(sp: Boxes, c: Cipher, encrypt: bool, iv: Block, m: Text): (r: Text)
    ensures |r| == |m|
  {
    if encrypt then Encrypted(sp, c, iv, m) else Decrypted(sp, c, iv, m)
  }

  /** The block that the next call is chained to: the last one enciphered. */
  function NextIv(sp: Boxes, c: Cipher, encrypt: bool, iv: Block, m: Text): Block {
    LastBlock(iv, if encrypt then Encrypted(sp, c, iv, m) else m)
  }

  lemma LastOfSum(iv: Block, a: Text, b: Text)
    ensures LastBlock(iv, a + b) == LastBlock(LastBlock(iv, a), b)
  {
    if b == [] {
      assert a + b == a;
    } else {
      assert (a + b)[|a + b| - 8..] == b[|b| - 8..];
    }
  }

  lemma {:induction false} EncryptedSplit(sp: Boxes, c: Cipher, iv: Block, a: Text, b: Text)
    ensures Encrypted(sp, c, iv, a + b)
         == Encrypted(sp, c, iv, a) + Encrypted(sp, c, LastBlock(iv, Encrypted(sp, c, iv, a)), b)
    decreases |a|
  {
    hide Encipher, Scrunch, Unscrunch, Add, LastBlock;
    if a == [] {
      assert a + b == b;
      LastOfNone(iv);
    } else {
      assert (a + b)[..8] == a[..8] && (a + b)[8..] == a[8..] + b;
      var e := Encipher(sp, c, Add(Scrunch(a[..8]), iv));
      EncryptedSplit(sp, c, e, a[8..], b);
      ScrunchBack(e);
      LastOfSum(iv, Unscrunch(e), Encrypted(sp, c, e, a[8..]));
      LastOfOne(iv, Unscrunch(e));
    }
  }

  lemma LastOfNone(iv: Block)
    ensures LastBlock(iv, []) == iv
  {
  }

  lemma LastOfOne(iv: Block, a: Text)
    requires |a| == 8
    ensures LastBlock(iv, a) == Scrunch(a)
  {
    assert a[0..] == a;
  }

  lemma {:induction false} DecryptedSplit(sp: Boxes, c: Cipher, iv: Block, a: Text, b: Text)
    ensures Decrypted(sp, c, iv, a + b) == Decrypted(sp, c, iv, a) + Decrypted(sp, c, LastBlock(iv, a), b)
    decreases |a|
  {
    hide Decipher, Scrunch, Unscrunch, Add, LastBlock;
    if a == [] {
      assert a + b == b;
      LastOfNone(iv);
    } else {
      assert (a + b)[..8] == a[..8] && (a + b)[8..] == a[8..] + b;
      DecryptedSplit(sp, c, Scrunch(a[..8]), a[8..], b);
      LastOfSum(iv, a[..8], a[8..]);
      LastOfOne(iv, a[..8]);
      assert a[..8] + a[8..] == a;
    }
  }

  /** A message may be cut into calls at any block. */
  lemma ConvertedSplit(sp: Boxes, c: Cipher, encrypt: bool, iv: Block, a: Text, b: Text, ab: Text, next: Block)
    requires ab == a + b && next == NextIv(sp, c, encrypt, iv, a)
    ensures Converted(sp, c, encrypt, iv, ab) == Converted(sp, c, encrypt, iv, a) + Converted(sp, c, encrypt, next, b)
    ensures NextIv(sp, c, encrypt, iv, ab) == NextIv(sp, c, encrypt, next, b)
  {
    hide Encrypted, Decrypted, LastBlock;
    if encrypt {
      EncryptedSplit(sp, c, iv, a, b);
      LastOfSum(iv, Encrypted(sp, c, iv, a), Encrypted(sp, c, next, b));
    } else {
      DecryptedSplit(sp, c, iv, a, b);
      LastOfSum(iv, a, b);
    }
  }

  function Joined(pieces: seq<Text>): (m: Text)
  {
    if pieces == [] then [] else pieces[0] + Joined(pieces[1..])
  }

  /** The outputs of successive calls, one after the other. */
  function Calls(sp: Boxes, c: Cipher, encrypt: bool, iv: Block, pieces: seq<Text>): (r: Text)
    decreases |pieces|
  {
    hide *;
    if pieces == [] then [] else
      Converted(sp, c, encrypt, iv, pieces[0])
      + Calls(sp, c, encrypt, NextIv(sp, c, encrypt, iv, pieces[0]), pieces[1..])
  }

  lemma {:induction false} CallsJoined(sp: Boxes, c: Cipher, encrypt: bool, iv: Block, pieces: seq<Text>)
    ensures Calls(sp, c, encrypt, iv, pieces) == Converted(sp, c, encrypt, iv, Joined(pieces))
    decreases |pieces|
  {
    if pieces == [] {
    } else {
      hide Converted, NextIv;
      var next := NextIv(sp, c, encrypt, iv, pieces[0]);
      CallsJoined(sp, c, encrypt, next, pieces[1..]);
      ConvertedSplit(sp, c, encrypt, iv, pieces[0], Joined(pieces[1..]), Joined(pieces), next);
    }
  }

  /** However a message is cut up to be enciphered, and the result to be deciphered, it comes back. */
  lemma AnyCalls(sp: Boxes, c: Cipher, iv: Block, sent: seq<Text>, received: seq<Text>)
    requires Joined(received) == Calls(sp, c, true, iv, sent)
    ensures Calls(sp, c, false, iv, received) == Joined(sent)
  {
    CallsJoined(sp, c, true, iv, sent);
    CallsJoined(sp, c, false, iv, received);
    RoundTrip(sp, c, iv, Joined(sent));
  }

  // ----- contexts

  lemma AddGroups(a: Block, b: Block, c: Block)
    ensures Add(a, Add(b, c)) == Add(Add(a, c), b)
  {
    hide Xor;
    XorGroups(a.left, b.left, c.left);
    XorGroups(a.right, b.right, c.right);
  }

  lemma FirstPart(now: seq<bv8>, was: seq<bv8>, m: seq<bv8>, at: nat)
    requires at + 8 <= |m| <= |was| == |now| && was[..|m|] == m
    requires now == was || now[at..] == was[at..]
    ensures now[at..at + 8] == m[at..at + 8]
  {
    assert now[at..at + 8] == now[at..][..8];
    assert was[at..at + 8] == was[at..][..8];
  }

  /** Eight bytes more have been put out. */
  lemma Placed(done: seq<bv8>, next: seq<bv8>, was: seq<bv8>, before: seq<bv8>, after: seq<bv8>, at: nat)
    requires |done| == at && |next| == 8 && at + 8 <= |was|
    requires before == done + was[at..]
    requires after == before[..at] + next + before[at + 8..]
    ensures after == done + next + was[at + 8..]
  {
    assert before[at + 8..] == was[at + 8..];
  }

  /** What one block becomes, chained to another. */
  function ChainedBlock(sp: Boxes, c: Cipher, encrypt: bool, iv: Block, x: Block): Block {
    if encrypt then Encipher(sp, c, Add(x, iv)) else Add(Decipher(sp, c, x), iv)
  }

  lemma ConvertedNext(sp: Boxes, c: Cipher, encrypt: bool, iv: Block, a: Text, b: Text, ab: Text, y: Block)
    requires |b| == 8 && ab == a + b && y == ChainedBlock(sp, c, encrypt, NextIv(sp, c, encrypt, iv, a), Scrunch(b))
    ensures Converted(sp, c, encrypt, iv, ab) == Converted(sp, c, encrypt, iv, a) + Unscrunch(y)
    ensures NextIv(sp, c, encrypt, iv, ab) == if encrypt then y else Scrunch(b)
  {
    hide *;
    ConvertedSplit(sp, c, encrypt, iv, a, b, ab, NextIv(sp, c, encrypt, iv, a));
    ConvertedOne(sp, c, encrypt, NextIv(sp, c, encrypt, iv, a), b);
  }

  lemma ConvertedOne(sp: Boxes, c: Cipher, encrypt: bool, iv: Block, b: Text)
    requires |b| == 8
    ensures
      var y := ChainedBlock(sp, c, encrypt, iv, Scrunch(b));
      && Converted(sp, c, encrypt, iv, b) == Unscrunch(y)
      && NextIv(sp, c, encrypt, iv, b) == if encrypt then y else Scrunch(b)
  {
    hide Encipher, Decipher, Scrunch, Unscrunch, Add, LastBlock;
    assert b[..8] == b && b[8..] == [];
    var y := ChainedBlock(sp, c, encrypt, iv, Scrunch(b));
    assert Unscrunch(y) + [] == Unscrunch(y);
    LastOfOne(iv, b);
    LastOfOne(iv, Unscrunch(y));
    ScrunchBack(y);
  }

  lemma ConvertedNone(sp: Boxes, c: Cipher, encrypt: bool, iv: Block)
    ensures Converted(sp, c, encrypt, iv, []) == [] && NextIv(sp, c, encrypt, iv, []) == iv
  {
  }

  /** `DES_CBC_CTX`, `DES3_CBC_CTX` with three lists of subkeys, and `DESX_CBC_CTX` with whiteners. */
  class CbcContext {
    const sp: Boxes
    const encrypt: bool
    const subkeys: seq<array<bv32>>
    const whitened: bool
    const inputWhitener: Block
    const outputWhitener: Block
    var iv: Block
    const originalIV: Block
    ghost const cipher: Cipher

    ghost predicate Valid()
      reads subkeys
    {
      && (forall k :: k in subkeys ==> k.Length == 32)
      && match cipher
         case Single(key) => |subkeys| == 1 && !whitened && subkeys[0][..] == Subkeys(key, encrypt)
         case Triple(first, second, third) =>
           && |subkeys| == 3 && !whitened
           && subkeys[0][..] == Subkeys(if encrypt then first else third, encrypt)
           && subkeys[1][..] == Subkeys(second, !encrypt)
           && subkeys[2][..] == Subkeys(if encrypt then third else first, encrypt)
         case Whitened(key, input, output) =>
           && |subkeys| == 1 && whitened && input == inputWhitener && output == outputWhitener
           && subkeys[0][..] == Subkeys(key, encrypt)
    }

    /** `DES_CBCInit` */
    constructor Des(sp: Boxes, key: Key, iv: seq<bv8>, encrypt: bool)
      requires |iv| == 8
      ensures Valid() && fresh(subkeys) && this.sp == sp && this.encrypt == encrypt && cipher == Single(key)
      ensures this.iv == originalIV == Scrunch(iv)
    {
      this.sp, this.encrypt := sp, encrypt;
      this.iv, originalIV := Scrunch(iv), Scrunch(iv);
      whitened, inputWhitener, outputWhitener := false, Block(0, 0), Block(0, 0);
      var ks := new bv32[32];
      DesKey(ks, key, encrypt);
      subkeys := [ks];
      cipher := Single(key);
      new;
      hide Subkeys, Scrunch;
    }

    /** `DES3_CBCInit` */
    constructor Des3(sp: Boxes, key: seq<bv8>, iv: seq<bv8>, encrypt: bool)
      requires |key| == 24 && |iv| == 8
      ensures Valid() && fresh(subkeys) && this.sp == sp && this.encrypt == encrypt
      ensures cipher == Triple(key[..8], key[8..16], key[16..])
      ensures this.iv == originalIV == Scrunch(iv)
    {
      hide Subkeys, Scrunch;
      this.sp, this.encrypt := sp, encrypt;
      this.iv, originalIV := Scrunch(iv), Scrunch(iv);
      whitened, inputWhitener, outputWhitener := false, Block(0, 0), Block(0, 0);
      var ks0, ks1, ks2 := new bv32[32], new bv32[32], new bv32[32];
      DesKey(ks0, if encrypt then key[..8] else key[16..], encrypt);
      DesKey(ks1, key[8..16], !encrypt);
      DesKey(ks2, if encrypt then key[16..] else key[..8], encrypt);
      subkeys := [ks0, ks1, ks2];
      cipher := Triple(key[..8], key[8..16], key[16..]);
      new;
    }

    /** `DESX_CBCInit` */
    constructor DesX(sp: Boxes, key: seq<bv8>, iv: seq<bv8>, encrypt: bool)
      requires |key| == 24 && |iv| == 8
      ensures Valid() && fresh(subkeys) && this.sp == sp && this.encrypt == encrypt
      ensures cipher == Whitened(key[..8], Scrunch(key[8..16]), Scrunch(key[16..]))
      ensures this.iv == originalIV == Scrunch(iv)
    {
      this.sp, this.encrypt := sp, encrypt;
      this.iv, originalIV := Scrunch(iv), Scrunch(iv);
      whitened, inputWhitener, outputWhitener := true, Scrunch(key[8..16]), Scrunch(key[16..]);
      var ks := new bv32[32];
      DesKey(ks, key[..8], encrypt);
      subkeys := [ks];
      cipher := Whitened(key[..8], Scrunch(key[8..16]), Scrunch(key[16..]));
      new;
      hide Subkeys, Scrunch;
    }

    /** `DES_CBCRestart` and its two variants. */
    method Restart()
      modifies this`iv
      ensures iv == originalIV
    {
      iv := originalIV;
    }

    /** One block through the ciphers. */
    method Run(x: Block) returns (y: Block)
      requires Valid() && !whitened
      ensures y == if encrypt then Encipher(sp, cipher, x) else Decipher(sp, cipher, x)
    {
      hide Crypt, Subkeys;
      var work := new bv32[2];
      work[0], work[1] := x.left, x.right;
      ghost var k0 := subkeys[0][..];
      assert Block(work[0], work[1]) == x;
      DesFunc(sp, work, subkeys[0]);
      assert Block(work[0], work[1]) == Crypt(sp, k0, x);
      if |subkeys| == 3 {
        ghost var k1, k2 := subkeys[1][..], subkeys[2][..];
        DesFunc(sp, work, subkeys[1]);
        assert Block(work[0], work[1]) == Crypt(sp, k1, Crypt(sp, k0, x));
        DesFunc(sp, work, subkeys[2]);
      }
      y := Block(work[0], work[1]);
    }

    /** The body of the loops: one block, and the block that the next one is chained to. */
    method Chain(x: Block) returns (y: Block)
      requires Valid()
      modifies this`iv
      ensures Valid() && y == ChainedBlock(sp, cipher, encrypt, old(iv), x)
      ensures iv == if encrypt then y else x
    {
      hide Crypt, Subkeys, Xor;
      if !whitened {
        y := Run(if encrypt then Add(x, iv) else x);
        if !encrypt {
          y := Add(y, iv);
        }
      } else {
        var work := new bv32[2];
        var entering := if encrypt then Add(Add(x, iv), inputWhitener) else Add(x, outputWhitener);
        work[0], work[1] := entering.left, entering.right;
        ghost var k0 := subkeys[0][..];
        assert Block(work[0], work[1]) == entering;
        DesFunc(sp, work, subkeys[0]);
        var left := Block(work[0], work[1]);
        assert left == Crypt(sp, k0, entering);
        if encrypt {
          y := Add(left, outputWhitener);
        } else {
          y := Add(left, Add(iv, inputWhitener));
          AddGroups(left, iv, inputWhitener);
        }
      }
      iv := if encrypt then y else x;
    }

    method Put(output: array<bv8>, at: nat, b: Block)
      requires Valid() && at + 8 <= output.Length
      modifies output
      ensures Valid()
      ensures output[..] == old(output[..at]) + Unscrunch(b) + old(output[at + 8..])
    {
      hide *;
      var s := Unscrunch(b);
      for k := 0 to 8
        invariant output[..] == old(output[..at]) + s[..k] + old(output[at + k..])
      {
        output[at + k] := s[k];
      }
      assert s[..8] == s;
    }

    /** The state of `Update` after the first `at` bytes. */
    ghost predicate At(first: Block, m: seq<bv8>, was: seq<bv8>, now: seq<bv8>, at: nat)
      reads this
      requires |m| <= |was|
    {
      hide *;
      && at % 8 == 0 && at <= |m|
      && iv == NextIv(sp, cipher, encrypt, first, m[..at])
      && now == Converted(sp, cipher, encrypt, first, m[..at]) + was[at..]
    }

    method Step(output: array<bv8>, x: seq<bv8>, ghost first: Block, ghost m: seq<bv8>, ghost was: seq<bv8>, at: nat)
      requires Valid() && |m| <= |was| == output.Length && at + 8 <= |m| && x == m[at..at + 8]
      requires At(first, m, was, output[..], at)
      modifies this`iv, output
      ensures Valid() && At(first, m, was, output[..], at + 8)
      ensures output[at + 8..] == was[at + 8..]
    {
      hide Valid, Converted, NextIv, ChainedBlock, Scrunch, Unscrunch;
      ghost var before := output[..];
      var y := Chain(Scrunch(x));
      assert m[..at] + x == m[..at + 8];
      ConvertedNext(sp, cipher, encrypt, first, m[..at], x, m[..at + 8], y);
      Put(output, at, y);
      Placed(Converted(sp, cipher, encrypt, first, m[..at]), Unscrunch(y), was, before, output[..], at);
    }

    /**
     The update functions: whole blocks are converted and the chain goes on; anything else is
     refused. The output may be the input itself.
     */
    method Update(output: array<bv8>, input: array<bv8>, len: nat) returns (ok: bool)
      requires Valid() && len <= input.Length && len <= output.Length
      modifies this`iv, output
      ensures Valid() && ok == (len % 8 == 0)
      ensures !ok ==> iv == old(iv) && output[..] == old(output[..])
      ensures ok ==> output[..] == Converted(sp, cipher, encrypt, old(iv), old(input[..len])) + old(output[len..])
      ensures ok ==> iv == NextIv(sp, cipher, encrypt, old(iv), old(input[..len]))
    {
      hide *;
      ok := len % 8 == 0;
      if ok {
        ghost var m, first, was := input[..len], iv, output[..];
        AtStart(m, was, output[..]);
        ghost var at, inp := 0, input[..];
        for i := 0 to len / 8
          invariant at == 8 * i && Valid() && At(first, m, was, output[..], at)
          invariant input[..] == inp || (input == output && was == inp && output[..][at..] == was[at..])
        {
          FirstPart(input[..], inp, m, at);
          Step(output, input[8 * i..8 * i + 8], first, m, was, 8 * i);
          at := at + 8;
        }
        AtEnd(first, m, was, output[..]);
      }
    }

    lemma AtStart(m: seq<bv8>, was: seq<bv8>, now: seq<bv8>)
      requires |m| <= |was| && now == was
      ensures At(iv, m, was, now, 0)
    {
      hide Converted, NextIv;
      ConvertedNone(sp, cipher, encrypt, iv);
      assert m[..0] == [];
    }

    lemma AtEnd(first: Block, m: seq<bv8>, was: seq<bv8>, now: seq<bv8>)
      requires |m| <= |was| && |m| % 8 == 0 && At(first, m, was, now, |m|)
      ensures iv == NextIv(sp, cipher, encrypt, first, m)
      ensures now == Converted(sp, cipher, encrypt, first, m) + was[|m|..]
    {
      hide Converted, NextIv;
      assert m[..|m|] == m;
    }
  }
}
