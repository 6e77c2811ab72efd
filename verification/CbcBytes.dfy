/**
 Cipher block chaining on bytes: what each block of a message becomes, by exclusive or of its
 bytes with those of the block before, and what that means for the initial vector and for
 bits that are changed on the way.
 */
module CbcBytes {
  import opened Des
  import opened DesCbc

  /** Eight bytes. */
  type Eight = s: seq<bv8> | |s| == 8 witness [0, 0, 0, 0, 0, 0, 0, 0]

  function XorByte(x: bv8, y: bv8): bv8 {
    x ^ y
  }

  function XorBytes(a: Eight, b: Eight): (r: Eight)
    ensures forall i :: 0 <= i < 8 ==> r[i] == a[i] ^ b[i]
  {
    hide *;
    XorByteIs(a, b);
    seq(8, i requires 0 <= i < 8 => XorByte(a[i], b[i]))
  }

  lemma XorByteIs(a: Eight, b: Eight)
    ensures forall i :: 0 <= i < 8 ==> XorByte(a[i], b[i]) == a[i] ^ b[i]
  {
  }

  /** The block function of one key on bytes. */
  function Keyed(sp: Boxes, key: Key, encrypt: bool, x: Eight): Eight {
    Unscrunch(Crypt(sp, Subkeys(key, encrypt), Scrunch(x)))
  }

  /** The three ciphers, whitening being exclusive or. */
  function Forward(sp: Boxes, c: Cipher, x: Eight): Eight {
    match c
    case Single(key) => Keyed(sp, key, true, x)
    case Triple(first, second, third) => Keyed(sp, third, true, Keyed(sp, second, false, Keyed(sp, first, true, x)))
    case Whitened(key, input, output) =>
      XorBytes(Keyed(sp, key, true, XorBytes(x, Unscrunch(input))), Unscrunch(output))
  }

  function Backward(sp: Boxes, c: Cipher, x: Eight): Eight {
    match c
    case Single(key) => Keyed(sp, key, false, x)
    case Triple(first, second, third) => Keyed(sp, first, false, Keyed(sp, second, true, Keyed(sp, third, false, x)))
    case Whitened(key, input, output) =>
      XorBytes(Keyed(sp, key, false, XorBytes(x, Unscrunch(output))), Unscrunch(input))
  }

  // ----- words and bytes

  lemma XorTop(v: bv32, w: bv32)
    ensures Byte3(Xor(v, w)) == XorByte(Byte3(v), Byte3(w))
  {
  }

  lemma XorSecond(v: bv32, w: bv32)
    ensures Byte2(Xor(v, w)) == XorByte(Byte2(v), Byte2(w))
  {
  }

  lemma XorThird(v: bv32, w: bv32)
    ensures Byte1(Xor(v, w)) == XorByte(Byte1(v), Byte1(w))
  {
  }

  lemma XorLow(v: bv32, w: bv32)
    ensures Byte0(Xor(v, w)) == XorByte(Byte0(v), Byte0(w))
  {
  }

  lemma XorWord(v: bv32, w: bv32)
    ensures Byte3(Xor(v, w)) == XorByte(Byte3(v), Byte3(w)) && Byte2(Xor(v, w)) == XorByte(Byte2(v), Byte2(w))
    ensures Byte1(Xor(v, w)) == XorByte(Byte1(v), Byte1(w)) && Byte0(Xor(v, w)) == XorByte(Byte0(v), Byte0(w))
  {
    hide *;
    XorTop(v, w);
    XorSecond(v, w);
    XorThird(v, w);
    XorLow(v, w);
  }

  /** Adding blocks is exclusive or of their bytes. */
  lemma AddIsXor(a: Block, b: Block)
    ensures Unscrunch(Add(a, b)) == XorBytes(Unscrunch(a), Unscrunch(b))
  {
    hide *;
    AddIs(a, b);
    XorWord(a.left, b.left);
    XorWord(a.right, b.right);
    UnscrunchIs(a);
    UnscrunchIs(b);
    UnscrunchIs(Add(a, b));
    XorBytesAre(Unscrunch(a), Unscrunch(b));
    assert Unscrunch(Add(a, b)) == XorBytes(Unscrunch(a), Unscrunch(b));
  }

  lemma AddIs(a: Block, b: Block)
    ensures Add(a, b) == Block(Xor(a.left, b.left), Xor(a.right, b.right))
  {
    hide Xor;
  }

  lemma UnscrunchIs(b: Block)
    ensures
      var s := Unscrunch(b);
      && s[0] == Byte3(b.left) && s[1] == Byte2(b.left) && s[2] == Byte1(b.left) && s[3] == Byte0(b.left)
      && s[4] == Byte3(b.right) && s[5] == Byte2(b.right) && s[6] == Byte1(b.right) && s[7] == Byte0(b.right)
  {
    hide Byte0, Byte1, Byte2, Byte3;
  }

  lemma XorBytesAre(a: Eight, b: Eight)
    ensures
      var r := XorBytes(a, b);
      && r[0] == XorByte(a[0], b[0]) && r[1] == XorByte(a[1], b[1])
      && r[2] == XorByte(a[2], b[2]) && r[3] == XorByte(a[3], b[3])
      && r[4] == XorByte(a[4], b[4]) && r[5] == XorByte(a[5], b[5])
      && r[6] == XorByte(a[6], b[6]) && r[7] == XorByte(a[7], b[7])
  {
    hide XorByte;
  }

  lemma AddScrunched(x: Eight, y: Eight)
    ensures Add(Scrunch(x), Scrunch(y)) == Scrunch(XorBytes(x, y))
  {
    hide *;
    AddIsXor(Scrunch(x), Scrunch(y));
    UnscrunchBack(x);
    UnscrunchBack(y);
    ScrunchBack(Add(Scrunch(x), Scrunch(y)));
  }

  lemma XorBytesTwice(a: Eight, b: Eight)
    ensures XorBytes(XorBytes(a, b), b) == a && XorBytes(a, b) == XorBytes(b, a)
  {
    hide *;
    XorBytesAt(XorBytes(a, b), b);
    XorBytesAt(a, b);
    XorBytesAt(b, a);
    forall i | 0 <= i < 8
      ensures XorBytes(XorBytes(a, b), b)[i] == a[i] && XorBytes(a, b)[i] == XorBytes(b, a)[i]
    {
      XorByteTwice(a[i], b[i]);
    }
  }

  lemma XorBytesAt(a: Eight, b: Eight)
    ensures forall i :: 0 <= i < 8 ==> XorBytes(a, b)[i] == XorByte(a[i], b[i])
  {
    hide XorByte;
  }

  lemma XorByteTwice(x: bv8, y: bv8)
    ensures XorByte(XorByte(x, y), y) == x && XorByte(x, y) == XorByte(y, x)
  {
  }

  lemma XorByteGroups(x: bv8, y: bv8, z: bv8)
    ensures XorByte(x, XorByte(y, z)) == XorByte(XorByte(x, y), z)
  {
  }

  lemma XorBytesGroups(a: Eight, b: Eight, c: Eight)
    ensures XorBytes(a, XorBytes(b, c)) == XorBytes(XorBytes(a, b), c)
  {
    hide *;
    XorBytesAt(b, c);
    XorBytesAt(a, XorBytes(b, c));
    XorBytesAt(a, b);
    XorBytesAt(XorBytes(a, b), c);
    forall i | 0 <= i < 8
      ensures XorBytes(a, XorBytes(b, c))[i] == XorBytes(XorBytes(a, b), c)[i]
    {
      XorByteGroups(a[i], b[i], c[i]);
    }
  }

  // ----- the ciphers on bytes

  lemma KeyedIs(sp: Boxes, key: Key, encrypt: bool, b: Block)
    ensures Unscrunch(Crypt(sp, Subkeys(key, encrypt), b)) == Keyed(sp, key, encrypt, Unscrunch(b))
  {
    hide Crypt, Subkeys, Scrunch, Unscrunch;
    ScrunchBack(b);
  }

  lemma EncipherIs(sp: Boxes, c: Cipher, b: Block)
    ensures Unscrunch(Encipher(sp, c, b)) == Forward(sp, c, Unscrunch(b))
  {
    hide Keyed, Crypt, Subkeys, Unscrunch, Add, XorBytes;
    match c
    case Single(key) =>
      KeyedIs(sp, key, true, b);
    case Triple(first, second, third) =>
      var b1 := Crypt(sp, Subkeys(first, true), b);
      KeyedIs(sp, first, true, b);
      KeyedIs(sp, second, false, b1);
      KeyedIs(sp, third, true, Crypt(sp, Subkeys(second, false), b1));
    case Whitened(key, input, output) =>
      AddIsXor(b, input);
      KeyedIs(sp, key, true, Add(b, input));
      AddIsXor(Crypt(sp, Subkeys(key, true), Add(b, input)), output);
  }

  lemma DecipherIs(sp: Boxes, c: Cipher, b: Block)
    ensures Unscrunch(Decipher(sp, c, b)) == Backward(sp, c, Unscrunch(b))
  {
    hide Keyed, Crypt, Subkeys, Unscrunch, Add, XorBytes;
    match c
    case Single(key) =>
      KeyedIs(sp, key, false, b);
    case Triple(first, second, third) =>
      var b1 := Crypt(sp, Subkeys(third, false), b);
      KeyedIs(sp, third, false, b);
      KeyedIs(sp, second, true, b1);
      KeyedIs(sp, first, false, Crypt(sp, Subkeys(second, true), b1));
    case Whitened(key, input, output) =>
      AddIsXor(b, output);
      KeyedIs(sp, key, false, Add(b, output));
      AddIsXor(Crypt(sp, Subkeys(key, false), Add(b, output)), input);
  }

  lemma BackwardForward(sp: Boxes, c: Cipher, x: Eight)
    ensures Backward(sp, c, Forward(sp, c, x)) == x
  {
    hide *;
    UnscrunchBack(x);
    EncipherIs(sp, c, Scrunch(x));
    DecipherIs(sp, c, Encipher(sp, c, Scrunch(x)));
    DecipherEncipher(sp, c, Scrunch(x));
  }

  // ----- chaining

  function BlockAt(m: Text, i: nat): Eight
    requires i < |m| / 8
  {
    m[8 * i..8 * i + 8]
  }

  /** What block i is chained to. */
  function Before(iv: Eight, sent: Text, i: nat): Eight
    requires i < |sent| / 8
  {
    if i == 0 then iv else BlockAt(sent, i - 1)
  }

  lemma BlockOfSum(a: Eight, s: Text, m: Text, i: nat)
    requires m == a + s && i < |m| / 8
    ensures BlockAt(m, i) == if i == 0 then a else BlockAt(s, i - 1)
  {
    if i > 0 {
      assert m[8 * i..8 * i + 8] == s[8 * (i - 1)..8 * (i - 1) + 8];
    }
  }

  lemma EncryptedFirst(sp: Boxes, c: Cipher, iv: Eight, x: Eight, rest: Text, m: Text, e: Eight)
    requires m == x + rest && e == Forward(sp, c, XorBytes(x, iv))
    ensures Encrypted(sp, c, Scrunch(iv), m) == e + Encrypted(sp, c, Scrunch(e), rest)
  {
    hide Encipher, Scrunch, Unscrunch, Add, XorBytes, Forward;
    var b := Encipher(sp, c, Add(Scrunch(x), Scrunch(iv)));
    AddScrunched(x, iv);
    EncipherIs(sp, c, Scrunch(XorBytes(x, iv)));
    UnscrunchBack(XorBytes(x, iv));
    ScrunchBack(b);
    assert m[..8] == x && m[8..] == rest;
  }

  /** Each block sent is the block cipher's value on its text exclusive or the block sent before. */
  lemma {:induction false} EncryptedAt(sp: Boxes, c: Cipher, iv: Eight, m: Text, i: nat)
    requires i < |m| / 8
    ensures
      var sent := Encrypted(sp, c, Scrunch(iv), m);
      BlockAt(sent, i) == Forward(sp, c, XorBytes(BlockAt(m, i), Before(iv, sent, i)))
    decreases |m|
  {
    hide Encrypted, Scrunch, XorBytes, Forward, BlockAt;
    var e := Forward(sp, c, XorBytes(m[..8], iv));
    assert m[..8] + m[8..] == m;
    EncryptedFirst(sp, c, iv, m[..8], m[8..], m, e);
    var rest := Encrypted(sp, c, Scrunch(e), m[8..]);
    BlockOfSum(m[..8], m[8..], m, i);
    BlockOfSum(e, rest, e + rest, i);
    if i > 0 {
      BlockOfSum(e, rest, e + rest, i - 1);
      EncryptedAt(sp, c, e, m[8..], i - 1);
    }
  }

  lemma DecryptedFirst(sp: Boxes, c: Cipher, iv: Eight, e: Eight, rest: Text, sent: Text)
    requires sent == e + rest
    ensures
      Decrypted(sp, c, Scrunch(iv), sent) == XorBytes(Backward(sp, c, e), iv) + Decrypted(sp, c, Scrunch(e), rest)
  {
    hide Decipher, Scrunch, Unscrunch, Add, XorBytes, Backward;
    DecipherIs(sp, c, Scrunch(e));
    AddIsXor(Decipher(sp, c, Scrunch(e)), Scrunch(iv));
    UnscrunchBack(e);
    UnscrunchBack(iv);
    assert sent[..8] == e && sent[8..] == rest;
  }

  /** Each block read is the inverse on its block exclusive or the block received before. */
  lemma {:induction false} DecryptedAt(sp: Boxes, c: Cipher, iv: Eight, sent: Text, i: nat)
    requires i < |sent| / 8
    ensures
      BlockAt(Decrypted(sp, c, Scrunch(iv), sent), i)
      == XorBytes(Backward(sp, c, BlockAt(sent, i)), Before(iv, sent, i))
    decreases |sent|
  {
    hide Decrypted, Scrunch, XorBytes, Backward, BlockAt;
    var e := sent[..8];
    assert e + sent[8..] == sent;
    DecryptedFirst(sp, c, iv, e, sent[8..], sent);
    var rest := Decrypted(sp, c, Scrunch(e), sent[8..]);
    BlockOfSum(e, sent[8..], sent, i);
    BlockOfSum(XorBytes(Backward(sp, c, e), iv), rest, Decrypted(sp, c, Scrunch(iv), sent), i);
    if i > 0 {
      BlockOfSum(e, sent[8..], sent, i - 1);
      DecryptedAt(sp, c, e, sent[8..], i - 1);
    }
  }

  // ----- what follows from it

  /** Two initial vectors give a message that is not empty the same ciphertext only if they are the same. */
  lemma VectorsTold(sp: Boxes, c: Cipher, iv: Eight, other: Eight, m: Text)
    requires m != [] && Encrypted(sp, c, Scrunch(iv), m) == Encrypted(sp, c, Scrunch(other), m)
    ensures iv == other
  {
    hide Encrypted, Scrunch, XorBytes, Forward, BlockAt;
    EncryptedAt(sp, c, iv, m, 0);
    EncryptedAt(sp, c, other, m, 0);
    var x := BlockAt(m, 0);
    BackwardForward(sp, c, XorBytes(x, iv));
    BackwardForward(sp, c, XorBytes(x, other));
    XorBytesTwice(iv, x);
    XorBytesTwice(other, x);
  }

  /** Equal blocks of a message are sent as equal blocks exactly if they are chained to equal blocks. */
  lemma EqualBlocks(sp: Boxes, c: Cipher, iv: Eight, m: Text, i: nat, j: nat)
    requires i < |m| / 8 && j < |m| / 8 && BlockAt(m, i) == BlockAt(m, j)
    ensures
      var sent := Encrypted(sp, c, Scrunch(iv), m);
      BlockAt(sent, i) == BlockAt(sent, j) <==> Before(iv, sent, i) == Before(iv, sent, j)
  {
    hide *;
    var sent := Encrypted(sp, c, Scrunch(iv), m);
    var p, q, x := Before(iv, sent, i), Before(iv, sent, j), BlockAt(m, i);
    EncryptedAt(sp, c, iv, m, i);
    EncryptedAt(sp, c, iv, m, j);
    BackwardForward(sp, c, XorBytes(x, p));
    BackwardForward(sp, c, XorBytes(x, q));
    XorBytesTwice(p, x);
    XorBytesTwice(q, x);
  }

  /** Bits flipped in one block sent flip in the next block read; of the others only its own changes. */
  lemma BitsFlip(sp: Boxes, c: Cipher, iv: Eight, sent: Text, i: nat, flips: Eight, j: nat)
    requires i < |sent| / 8 && j < |sent| / 8 && j != i
    ensures
      var changed: Text := sent[..8 * i] + XorBytes(BlockAt(sent, i), flips) + sent[8 * i + 8..];
      var read, was := Decrypted(sp, c, Scrunch(iv), changed), Decrypted(sp, c, Scrunch(iv), sent);
      BlockAt(read, j) == if j == i + 1 then XorBytes(BlockAt(was, j), flips) else BlockAt(was, j)
  {
    var changed: Text := sent[..8 * i] + XorBytes(BlockAt(sent, i), flips) + sent[8 * i + 8..];
    ChangedBlocks(sent, changed, XorBytes(BlockAt(sent, i), flips), i);
    hide *;
    BlocksBefore(iv, changed, j);
    BlocksBefore(iv, sent, j);
    DecryptedAt(sp, c, iv, changed, j);
    DecryptedAt(sp, c, iv, sent, j);
    if j == i + 1 {
      XorBytesGroups(Backward(sp, c, BlockAt(sent, j)), BlockAt(sent, i), flips);
    }
  }

  lemma BlocksBefore(iv: Eight, sent: Text, i: nat)
    requires i < |sent| / 8
    ensures Before(iv, sent, i) == if i == 0 then iv else BlockAt(sent, i - 1)
  {
    hide BlockAt;
  }

  lemma ChangedBlocks(sent: Text, changed: Text, x: Eight, i: nat)
    requires i < |sent| / 8 && changed == sent[..8 * i] + x + sent[8 * i + 8..]
    ensures |changed| == |sent|
    ensures forall k: nat :: k < |sent| / 8 ==> BlockAt(changed, k) == if k == i then x else BlockAt(sent, k)
  {
    forall k: nat | k < |sent| / 8
      ensures BlockAt(changed, k) == if k == i then x else BlockAt(sent, k)
    {
      if k < i {
        assert 8 * k + 8 <= 8 * i;
      } else if k > i {
        assert 8 * k >= 8 * i + 8;
      }
    }
  }
}
