/** 64-bit words, bytes, little-endian conversion and the XOR combiner.
    Every word of the cipher is a `u64`; Dafny's `bv64` arithmetic is
    arithmetic modulo 2^64, so `+` on `Word` is Rust's wrapping add. */
module Words {

  type Byte = bv8
  type Word = bv64

  /** `a.overflowing_add(b).0`: addition modulo 2^64. Because it wraps, it
      can always be undone by subtracting `b` again. */
  function WrappingAdd(a: Word, b: Word): (r: Word)
  {
    a + b
  }

  /** Subtraction modulo 2^64, the inverse of `WrappingAdd`. */
  function WrappingSub(a: Word, b: Word): (r: Word)
  {
    a - b
  }

  /** Wrapping addition loses nothing: subtracting the addend restores the
      other operand, and so equal sums with the same addend have equal
      operands. */
  lemma WrappingAddCancel(a: Word, b: Word)
    ensures WrappingSub(WrappingAdd(a, b), b) == a
  {
    assert WrappingAdd(a, b) == a + b;
    assert WrappingSub(a + b, b) == a;
  }

  /** `a ^ b`, as a function of words alone. */
  function Xor(a: Word, b: Word): Word
  {
    a ^ b
  }

  /** `a ^ b ^ c`, as a function of words alone. */
  function Xor3(a: Word, b: Word, c: Word): Word
  {
    a ^ b ^ c
  }

  /** XORing the same word twice cancels. */
  lemma XorCancel(a: Word, b: Word)
    ensures Xor(Xor(a, b), b) == a
  {
    assert Xor(a, b) == a ^ b;
    assert Xor(a ^ b, b) == a;
  }

  /** XORing two words into a word and then both again cancels. */
  lemma Xor3Cancel(a: Word, b: Word, c: Word)
    ensures Xor3(Xor3(a, b, c), b, c) == a
  {
    assert Xor3(a, b, c) == a ^ b ^ c;
    assert Xor3(a ^ b ^ c, b, c) == a;
  }

  /** `u64::to_le_bytes`: the least significant byte first. */
  function LeBytes(w: Word): (b: seq<Byte>)
    ensures |b| == 8
    ensures b[0] == (w & 0xFF) as Byte
    ensures b[7] == (w >> 56) as Byte
  {
    [ (w & 0xFF) as Byte, ((w >> 8) & 0xFF) as Byte,
      ((w >> 16) & 0xFF) as Byte, ((w >> 24) & 0xFF) as Byte,
      ((w >> 32) & 0xFF) as Byte, ((w >> 40) & 0xFF) as Byte,
      ((w >> 48) & 0xFF) as Byte, ((w >> 56) & 0xFF) as Byte ]
  }

  /** Reading eight bytes as one little-endian word (what `u64::from_le_bytes`
      does, and what reinterpreting a byte array as `u64`s does on a
      little-endian platform). */
  function LeWord(b: seq<Byte>): (w: Word)
    requires |b| == 8
    ensures w & 0xFF == b[0] as Word
    ensures w >> 56 == b[7] as Word
  {
    (b[0] as Word) | (b[1] as Word << 8) | (b[2] as Word << 16) | (b[3] as Word << 24)
    | (b[4] as Word << 32) | (b[5] as Word << 40) | (b[6] as Word << 48) | (b[7] as Word << 56)
  }

  lemma LeWordOfLeBytes(w: Word)
    ensures LeWord(LeBytes(w)) == w
  {
  }

  lemma LeBytesOfLeWord(b: seq<Byte>)
    requires |b| == 8
    ensures LeBytes(LeWord(b)) == b
  {
  }

  /** Words laid out one after another, each as its 8 little-endian bytes. */
  function EncodeWords(ws: seq<Word>): (bs: seq<Byte>)
    ensures |bs| == 8 * |ws|
  {
    if ws == [] then [] else LeBytes(ws[0]) + EncodeWords(ws[1..])
  }

  /** A byte string whose length is a multiple of 8, read as little-endian
      words. */
  function DecodeWords(bs: seq<Byte>): (ws: seq<Word>)
    requires |bs| % 8 == 0
    ensures 8 * |ws| == |bs|
  {
    if bs == [] then [] else [LeWord(bs[..8])] + DecodeWords(bs[8..])
  }

  lemma {:induction false} DecodeEncode(ws: seq<Word>)
    ensures DecodeWords(EncodeWords(ws)) == ws
  {
    if ws != [] {
      var bs := EncodeWords(ws);
      assert bs[..8] == LeBytes(ws[0]);
      assert bs[8..] == EncodeWords(ws[1..]);
      LeWordOfLeBytes(ws[0]);
      DecodeEncode(ws[1..]);
    }
  }

  lemma {:induction false} EncodeDecode(bs: seq<Byte>)
    requires |bs| % 8 == 0
    ensures EncodeWords(DecodeWords(bs)) == bs
  {
    if bs != [] {
      var ws := DecodeWords(bs);
      assert ws[0] == LeWord(bs[..8]);
      assert ws[1..] == DecodeWords(bs[8..]);
      LeBytesOfLeWord(bs[..8]);
      EncodeDecode(bs[8..]);
    }
  }

  lemma {:induction false} EncodeAppend(a: seq<Word>, b: seq<Word>)
    ensures EncodeWords(a + b) == EncodeWords(a) + EncodeWords(b)
  {
    if a != [] {
      assert (a + b)[0] == a[0];
      assert (a + b)[1..] == a[1..] + b;
      EncodeAppend(a[1..], b);
    } else {
      assert a + b == b;
    }
  }

  /** Byte `k` of an encoding is byte `k % 8` of word `k / 8`. */
  lemma {:induction false} EncodeWordsAt(ws: seq<Word>, j: nat, i: nat)
    requires j < |ws| && i < 8
    ensures EncodeWords(ws)[8 * j + i] == LeBytes(ws[j])[i]
  {
    var head, rest := LeBytes(ws[0]), EncodeWords(ws[1..]);
    assert EncodeWords(ws) == head + rest;
    if j > 0 {
      EncodeWordsAt(ws[1..], j - 1, i);
      assert 8 * j + i == 8 + (8 * (j - 1) + i);
      assert ws[1..][j - 1] == ws[j];
    }
  }

  /** `a ^ b` on bytes. */
  function XorByte(a: Byte, b: Byte): Byte
  {
    a ^ b
  }

  lemma XorByteCancel(a: Byte, b: Byte)
    ensures XorByte(XorByte(a, b), b) == a
  {
    assert XorByte(a, b) == a ^ b;
    assert XorByte(a ^ b, b) == a;
  }

  /** The keystream combiner: `data[k] ^ ks[k]` for every position of
      `data`, against the start of a keystream. */
  function XorBytes(data: seq<Byte>, ks: seq<Byte>): (out: seq<Byte>)
    requires |data| <= |ks|
    ensures |out| == |data|
    ensures forall k :: 0 <= k < |data| ==> out[k] == XorByte(data[k], ks[k])
  {
    seq(|data|, k requires 0 <= k < |data| => XorByte(data[k], ks[k]))
  }

  /** Combining is done piecewise: a message split in two, each part
      combined with its own piece of keystream, gives the combined whole. */
  lemma XorBytesAppend(d1: seq<Byte>, d2: seq<Byte>, k1: seq<Byte>, k2: seq<Byte>)
    requires |d1| == |k1| && |d2| <= |k2|
    ensures XorBytes(d1 + d2, k1 + k2) == XorBytes(d1, k1) + XorBytes(d2, k2)
  {
    var a, b := XorBytes(d1 + d2, k1 + k2), XorBytes(d1, k1) + XorBytes(d2, k2);
    forall t | 0 <= t < |a|
      ensures a[t] == b[t]
    {
      if t >= |d1| {
        assert (d1 + d2)[t] == d2[t - |d1|] && (k1 + k2)[t] == k2[t - |d1|];
      }
    }
  }

  /** Combining twice with the same keystream gives the data back. */
  lemma XorTwice(data: seq<Byte>, ks: seq<Byte>)
    requires |data| <= |ks|
    ensures XorBytes(XorBytes(data, ks), ks) == data
  {
    var once := XorBytes(data, ks);
    forall k | 0 <= k < |data|
      ensures XorBytes(once, ks)[k] == data[k]
    {
      XorByteCancel(data[k], ks[k]);
    }
  }

  /** Combining an all-zero buffer yields the keystream itself. */
  lemma XorZeros(n: nat, ks: seq<Byte>)
    requires n <= |ks|
    ensures XorBytes(seq(n, _ => 0 as Byte), ks) == ks[..n]
  {
    forall k | 0 <= k < n
      ensures XorByte(0, ks[k]) == ks[k]
    {
    }
  }
}
