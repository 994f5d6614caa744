/** How callers use the core: data is combined byte by byte with the
    keystream of successive `next_block` calls, as the cipher crate's stream
    wrapper does when `apply_keystream` is called once. */
module Stream {
  import opened Words
  import opened Strumok
  import opened Dstu8845
  import StreamProps

  /** The number of 128-byte blocks needed to cover `n` bytes. */
  function BlocksFor(n: nat): (k: nat)
    ensures n <= 128 * k < n + 128
  {
    (n + 127) / 128
  }

  /** `apply_keystream` on a fresh call: `data` XORed with the keystream,
      one block per `next_block` call, the last block used only as far as
      the data reaches. The result is the XOR of the data with the keystream
      from the cursor on, the core ends exactly `BlocksFor(|data|)`
      generation passes further on, and the cursor is where it was. */
  method ApplyKeystream(core: Dstu8845Core, data: seq<Byte>) returns (out: seq<Byte>)
    requires core.Valid()
    modifies core, core.s, core.r, core.gamma
    ensures core.Valid() && core.gammaCntr == old(core.gammaCntr)
    ensures core.Abs() == After(core.prim, old(core.Abs()), BlocksFor(|data|))
    ensures out == XorBytes(data, Keystream(core.prim, old(core.Abs()), old(core.gammaCntr), BlocksFor(|data|)))
  {
    ghost var e0, c := core.Abs(), core.gammaCntr;
    var n := |data|;
    var blocks := BlocksFor(n);
    out := [];
    ghost var ks: seq<Byte> := [];
    for k := 0 to blocks
      invariant core.Valid() && core.gammaCntr == c
      invariant core.Abs() == After(core.prim, e0, k)
      invariant ks == Keystream(core.prim, e0, c, k)
      invariant |out| == if 128 * k <= n then 128 * k else n
      invariant out == XorBytes(data[..|out|], ks)
    {
      StreamProps.KeystreamNext(core.prim, e0, c, k, core.Abs());
      var block := core.NextBlock();
      var m := if n - 128 * k < 128 then n - 128 * k else 128;
      CombineStep(data, out, ks, block[..], k, m);
      ks := ks + block[..];
      out := out + XorBytes(data[128 * k..128 * k + m], block[..]);
    }
  }

  /** One more block of keystream extends the combined output by the next
      `m` bytes of data, the whole block or what is left of the data. */
  lemma CombineStep(data: seq<Byte>, out: seq<Byte>, ks: seq<Byte>, block: seq<Byte>, k: nat, m: nat)
    requires |ks| == 128 * k && |block| == 128 && 128 * k < |data|
    requires m == if |data| - 128 * k < 128 then |data| - 128 * k else 128
    requires out == XorBytes(data[..128 * k], ks)
    ensures out + XorBytes(data[128 * k..128 * k + m], block) == XorBytes(data[..128 * k + m], ks + block)
  {
    XorBytesAppend(data[..128 * k], data[128 * k..128 * k + m], ks, block);
    assert data[..128 * k + m] == data[..128 * k] + data[128 * k..128 * k + m];
  }

  /** The test of `lib.rs`: a fresh core applied to 64 zero bytes yields
      the keystream itself, and read back as eight little-endian words that
      is the first half of the buffer the constructor filled. */
  method ZeroBuffer(core: Dstu8845Core) returns (z: seq<Byte>)
    requires core.Valid() && core.gammaCntr == 0
    modifies core, core.s, core.r, core.gamma
    ensures |z| == 64
    ensures DecodeWords(z) == old(core.Abs()).gamma[..8]
  {
    ghost var e0 := core.Abs();
    z := ApplyKeystream(core, seq(64, _ => 0 as Byte));
    ZeroBufferKeystream(core.prim, e0);
  }

  /** 64 zero bytes combined with the first keystream block of an engine
      with the cursor at 0 read back, as little-endian words, as the first
      eight words of its buffer. */
  lemma ZeroBufferKeystream(p: Primitives, e: Engine)
    requires e.WellFormed()
    ensures DecodeWords(XorBytes(seq(64, _ => 0 as Byte), Keystream(p, e, 0, 1))) == e.gamma[..8]
  {
    var ks := Keystream(p, e, 0, 1);
    XorZeros(64, ks);
    StreamProps.FirstBlock(p, e);
    EncodeDecode(ks);
    EncodeAppend(e.gamma[..8], e.gamma[8..]);
    assert e.gamma == e.gamma[..8] + e.gamma[8..];
    assert ks[..64] == EncodeWords(e.gamma[..8]);
    DecodeEncode(e.gamma[..8]);
  }

  /** The round trip of the crate's example: a text XORed by one core and
      then by a second core built from the same key and IV is the text
      again, whatever its length, for either key size. */
  method RoundTrip(endian: Endian, keyBytes: seq<Byte>, ivBytes: seq<Byte>, p: Primitives, text: seq<Byte>)
      returns (sent: seq<Byte>, received: seq<Byte>)
    requires endian == LittleEndian && (|keyBytes| == 32 || |keyBytes| == 64) && |ivBytes| == 32
    ensures received == text
  {
    var encoder := NewCore(endian, keyBytes, ivBytes, p);
    ghost var e := encoder.Abs();
    sent := ApplyKeystream(encoder, text);
    var decoder := NewCore(endian, keyBytes, ivBytes, p);
    received := ApplyKeystream(decoder, sent);
    XorTwice(text, Keystream(p, e, 0, BlocksFor(|text|)));
  }

  /** Builds a core for a 32- or 64-byte key. Two cores built from the same
      bytes start from the same engine. */
  method NewCore(endian: Endian, keyBytes: seq<Byte>, ivBytes: seq<Byte>, p: Primitives) returns (core: Dstu8845Core)
    requires endian == LittleEndian && (|keyBytes| == 32 || |keyBytes| == 64) && |ivBytes| == 32
    ensures fresh(core) && fresh(core.s) && fresh(core.r) && fresh(core.gamma)
    ensures core.Valid() && core.gammaCntr == 0 && core.prim == p
    ensures core.Abs() == if |keyBytes| == 32
      then Constructed(p, Setup256(DecodeWords(keyBytes), DecodeWords(ivBytes)))
      else Constructed(p, Setup512(DecodeWords(keyBytes), DecodeWords(ivBytes)))
  {
    if |keyBytes| == 32 {
      core := new Dstu8845Core.New256(endian, keyBytes, ivBytes, p);
    } else {
      core := new Dstu8845Core.New512(endian, keyBytes, ivBytes, p);
    }
  }
}
