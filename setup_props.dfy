/** What the two loading tables of `set_iv` guarantee. */
module SetupProps {
  import opened Words
  import opened Strumok

  /** Masking twice with the same key word gives the IV word back. */
  lemma Unmask(k: Word, v: Word)
    ensures Mask(Mask(k, v), k) == v
  {
    assert Mask(k, v) == k ^ v;
    assert Mask(k ^ v, k) == v;
  }

  /** Masking with a zero key word changes nothing. */
  lemma MaskZero(v: Word)
    ensures Mask(0, v) == v
  {
    assert Mask(0, v) == 0 ^ v;
  }

  /** Masking key and IV word with the same d leaves their mask unchanged. */
  lemma MaskShift(k: Word, v: Word, d: Word)
    ensures Mask(Mask(k, d), Mask(v, d)) == Mask(k, v)
  {
    assert Mask(k, d) == k ^ d && Mask(v, d) == v ^ d;
    assert Mask(k ^ d, v ^ d) == k ^ v;
  }

  /** Complementing twice gives the key word back. */
  lemma Uncomplement(k: Word)
    ensures Complement(Complement(k)) == k
  {
    assert Complement(k) == !k;
    assert Complement(!k) == !!k;
  }

  /** Two four-word sequences that agree word by word are equal. */
  lemma Equal4(a: seq<Word>, b: seq<Word>)
    requires |a| == 4 && |b| == 4
    requires a[0] == b[0] && a[1] == b[1] && a[2] == b[2] && a[3] == b[3]
    ensures a == b
  {
    assert forall i :: 0 <= i < 4 ==> a[i] == b[i];
  }

  /** Two eight-word sequences that agree word by word are equal. */
  lemma Equal8(a: seq<Word>, b: seq<Word>)
    requires |a| == 8 && |b| == 8
    requires a[0] == b[0] && a[1] == b[1] && a[2] == b[2] && a[3] == b[3]
    requires a[4] == b[4] && a[5] == b[5] && a[6] == b[6] && a[7] == b[7]
    ensures a == b
  {
    assert forall i :: 0 <= i < 8 ==> a[i] == b[i];
  }

  /** Two states that agree lane by lane are equal. */
  lemma Equal16(a: seq<Word>, b: seq<Word>)
    requires |a| == 16 && |b| == 16
    requires a[0] == b[0] && a[1] == b[1] && a[2] == b[2] && a[3] == b[3]
    requires a[4] == b[4] && a[5] == b[5] && a[6] == b[6] && a[7] == b[7]
    requires a[8] == b[8] && a[9] == b[9] && a[10] == b[10] && a[11] == b[11]
    requires a[12] == b[12] && a[13] == b[13] && a[14] == b[14] && a[15] == b[15]
    ensures a == b
  {
    assert forall i :: 0 <= i < 16 ==> a[i] == b[i];
  }

  // ---------------------------------------------------------------------
  // 256-bit table
  // ---------------------------------------------------------------------

  /** The sixteen lanes of the 256-bit table, spelled out. This unfolds
      the definition of `Lane256` and carries no proof of its own; the
      in-place writes are tied to the table by `SetIv256`. */
  lemma Lanes256(key: seq<Word>, iv: seq<Word>)
    requires |key| == 4 && |iv| == 4
    ensures var s := Setup256(key, iv);
      && s[0] == Mask(key[3], iv[0]) && s[1] == key[2] && s[2] == Mask(key[1], iv[1]) && s[3] == Mask(key[0], iv[2])
      && s[4] == key[3] && s[5] == Mask(key[2], iv[3]) && s[6] == Complement(key[1]) && s[7] == Complement(key[0])
      && s[8] == key[3] && s[9] == key[2] && s[10] == Complement(key[1]) && s[11] == key[0]
      && s[12] == key[3] && s[13] == Complement(key[2]) && s[14] == key[1] && s[15] == Complement(key[0])
  {
  }

  /** Reading key and IV back out of a 256-bit loaded state. */
  function KeyIv256(s: seq<Word>): (kv: (seq<Word>, seq<Word>))
    requires |s| == 16
    ensures |kv.0| == 4 && |kv.1| == 4
  {
    var key := [s[11], s[14], s[1], s[4]];
    (key, [Mask(s[0], key[3]), Mask(s[2], key[1]), Mask(s[3], key[0]), Mask(s[5], key[2])])
  }

  /** The read-back only needs the eight lanes that hold plain key words
      and masked IV words. */
  lemma ReadBack256(s: seq<Word>, key: seq<Word>, iv: seq<Word>)
    requires |s| == 16 && |key| == 4 && |iv| == 4
    requires s[11] == key[0] && s[14] == key[1] && s[1] == key[2] && s[4] == key[3]
    requires s[0] == Mask(key[3], iv[0]) && s[2] == Mask(key[1], iv[1])
    requires s[3] == Mask(key[0], iv[2]) && s[5] == Mask(key[2], iv[3])
    ensures KeyIv256(s) == (key, iv)
  {
    var kv := KeyIv256(s);
    Unmask(key[3], iv[0]);
    Unmask(key[1], iv[1]);
    Unmask(key[0], iv[2]);
    Unmask(key[2], iv[3]);
    Equal4(kv.0, key);
    Equal4(kv.1, iv);
  }

  /** The 256-bit table loses nothing: key and IV can be read back from the
      loaded lanes. */
  lemma Setup256Inverse(key: seq<Word>, iv: seq<Word>)
    requires |key| == 4 && |iv| == 4
    ensures KeyIv256(Setup256(key, iv)) == (key, iv)
  {
    Lanes256(key, iv);
    ReadBack256(Setup256(key, iv), key, iv);
  }

  /** Hence distinct 256-bit key/IV pairs load distinct states. */
  lemma Setup256Injective(key: seq<Word>, iv: seq<Word>, key': seq<Word>, iv': seq<Word>)
    requires |key| == 4 && |iv| == 4 && |key'| == 4 && |iv'| == 4
    ensures Setup256(key, iv) == Setup256(key', iv') <==> key == key' && iv == iv'
  {
    Setup256Inverse(key, iv);
    Setup256Inverse(key', iv');
  }

  /** The IV enters the 256-bit table only through lanes 0, 2, 3 and 5
      (where Lanes256 shows it masked with a key word): the other twelve
      lanes are the same for every IV. */
  lemma Setup256IvLanes(key: seq<Word>, iv: seq<Word>, iv': seq<Word>)
    requires |key| == 4 && |iv| == 4 && |iv'| == 4
    ensures var s, s' := Setup256(key, iv), Setup256(key, iv');
      && s[1] == s'[1] && s[4] == s'[4] && s[6] == s'[6] && s[7] == s'[7]
      && s[8] == s'[8] && s[9] == s'[9] && s[10] == s'[10] && s[11] == s'[11]
      && s[12] == s'[12] && s[13] == s'[13] && s[14] == s'[14] && s[15] == s'[15]
  {
    Lanes256(key, iv);
    Lanes256(key, iv');
  }

  // ---------------------------------------------------------------------
  // 512-bit table
  // ---------------------------------------------------------------------

  /** The sixteen lanes of the 512-bit table, spelled out. This unfolds
      the definition of `Lane512` and carries no proof of its own; the
      in-place writes are tied to the table by `SetIv512`. */
  lemma Lanes512(key: seq<Word>, iv: seq<Word>)
    requires |key| == 8 && |iv| == 4
    ensures var s := Setup512(key, iv);
      && s[0] == Mask(key[7], iv[0]) && s[1] == key[6] && s[2] == key[5] && s[3] == Mask(key[4], iv[1])
      && s[4] == key[3] && s[5] == Mask(key[2], iv[2]) && s[6] == key[1] && s[7] == Complement(key[0])
      && s[8] == Mask(key[4], iv[3]) && s[9] == Complement(key[6]) && s[10] == key[5] && s[11] == Complement(key[7])
      && s[12] == key[3] && s[13] == key[2] && s[14] == Complement(key[1]) && s[15] == key[0]
  {
  }

  /** Key word 4 of the 512-bit table appears only masked with IV word 1
      (lane 3) and IV word 3 (lane 8). This is the representative of the
      key/IV pairs that load the same lanes: key word 4 moved into those
      two IV words. */
  function Normalize512(key: seq<Word>, iv: seq<Word>): (kv: (seq<Word>, seq<Word>))
    requires |key| == 8 && |iv| == 4
    ensures |kv.0| == 8 && |kv.1| == 4
  {
    (key[4 := 0], iv[1 := Mask(key[4], iv[1])][3 := Mask(key[4], iv[3])])
  }

  /** Reading the normalized key and IV back out of a 512-bit loaded state. */
  function KeyIv512(s: seq<Word>): (kv: (seq<Word>, seq<Word>))
    requires |s| == 16
    ensures |kv.0| == 8 && |kv.1| == 4
  {
    var key := [s[15], s[6], s[13], s[12], 0, s[10], s[1], Complement(s[11])];
    (key, [Mask(s[0], key[7]), s[3], Mask(s[5], key[2]), s[8]])
  }

  /** The key half of the read-back. */
  lemma ReadBackKey512(s: seq<Word>, key: seq<Word>, iv: seq<Word>)
    requires |s| == 16 && |key| == 8 && |iv| == 4
    requires s[15] == key[0] && s[6] == key[1] && s[13] == key[2] && s[12] == key[3]
    requires s[10] == key[5] && s[1] == key[6] && s[11] == Complement(key[7])
    ensures KeyIv512(s).0 == Normalize512(key, iv).0
  {
    Uncomplement(key[7]);
    Equal8(KeyIv512(s).0, Normalize512(key, iv).0);
  }

  /** The IV half of the read-back. */
  lemma ReadBackIv512(s: seq<Word>, key: seq<Word>, iv: seq<Word>)
    requires |s| == 16 && |key| == 8 && |iv| == 4
    requires s[13] == key[2] && s[11] == Complement(key[7])
    requires s[0] == Mask(key[7], iv[0]) && s[3] == Mask(key[4], iv[1])
    requires s[5] == Mask(key[2], iv[2]) && s[8] == Mask(key[4], iv[3])
    ensures KeyIv512(s).1 == Normalize512(key, iv).1
  {
    Uncomplement(key[7]);
    Unmask(key[7], iv[0]);
    Unmask(key[2], iv[2]);
    Equal4(KeyIv512(s).1, Normalize512(key, iv).1);
  }

  /** What the 512-bit table keeps of its input is exactly the normal form. */
  lemma Setup512Inverse(key: seq<Word>, iv: seq<Word>)
    requires |key| == 8 && |iv| == 4
    ensures KeyIv512(Setup512(key, iv)) == Normalize512(key, iv)
  {
    Lanes512(key, iv);
    ReadBackKey512(Setup512(key, iv), key, iv);
    ReadBackIv512(Setup512(key, iv), key, iv);
  }

  /** What the 512-bit lanes depend on: every key word but word 4, IV
      words 0 and 2, and the masks of key word 4 with IV words 1 and 3. */
  predicate SameInputs512(key: seq<Word>, iv: seq<Word>, key': seq<Word>, iv': seq<Word>)
    requires |key| == 8 && |iv| == 4 && |key'| == 8 && |iv'| == 4
  {
    && key[0] == key'[0] && key[1] == key'[1] && key[2] == key'[2] && key[3] == key'[3]
    && key[5] == key'[5] && key[6] == key'[6] && key[7] == key'[7]
    && iv[0] == iv'[0] && iv[2] == iv'[2]
    && Mask(key[4], iv[1]) == Mask(key'[4], iv'[1]) && Mask(key[4], iv[3]) == Mask(key'[4], iv'[3])
  }

  /** Lanes 0 to 7 agree for inputs that agree on what they depend on. */
  lemma SameLow512(key: seq<Word>, iv: seq<Word>, key': seq<Word>, iv': seq<Word>)
    requires |key| == 8 && |iv| == 4 && |key'| == 8 && |iv'| == 4
    requires SameInputs512(key, iv, key', iv')
    ensures var s, s' := Setup512(key, iv), Setup512(key', iv');
      && s[0] == s'[0] && s[1] == s'[1] && s[2] == s'[2] && s[3] == s'[3]
      && s[4] == s'[4] && s[5] == s'[5] && s[6] == s'[6] && s[7] == s'[7]
  {
    Lanes512(key, iv);
    Lanes512(key', iv');
  }

  /** Lanes 8 to 15 agree for inputs that agree on what they depend on. */
  lemma SameHigh512(key: seq<Word>, iv: seq<Word>, key': seq<Word>, iv': seq<Word>)
    requires |key| == 8 && |iv| == 4 && |key'| == 8 && |iv'| == 4
    requires SameInputs512(key, iv, key', iv')
    ensures var s, s' := Setup512(key, iv), Setup512(key', iv');
      && s[8] == s'[8] && s[9] == s'[9] && s[10] == s'[10] && s[11] == s'[11]
      && s[12] == s'[12] && s[13] == s'[13] && s[14] == s'[14] && s[15] == s'[15]
  {
    Lanes512(key, iv);
    Lanes512(key', iv');
  }

  /** The 512-bit lanes are determined by the inputs SameInputs512 compares. */
  lemma Setup512SameInputs(key: seq<Word>, iv: seq<Word>, key': seq<Word>, iv': seq<Word>)
    requires |key| == 8 && |iv| == 4 && |key'| == 8 && |iv'| == 4
    requires SameInputs512(key, iv, key', iv')
    ensures Setup512(key, iv) == Setup512(key', iv')
  {
    SameLow512(key, iv, key', iv');
    SameHigh512(key, iv, key', iv');
    Equal16(Setup512(key, iv), Setup512(key', iv'));
  }

  /** A pair and its normal form load the same lanes. */
  lemma Setup512Normalized(key: seq<Word>, iv: seq<Word>)
    requires |key| == 8 && |iv| == 4
    ensures Setup512(Normalize512(key, iv).0, Normalize512(key, iv).1) == Setup512(key, iv)
  {
    var nv := Normalize512(key, iv);
    MaskZero(Mask(key[4], iv[1]));
    MaskZero(Mask(key[4], iv[3]));
    assert SameInputs512(nv.0, nv.1, key, iv);
    Setup512SameInputs(nv.0, nv.1, key, iv);
  }

  /** So, unlike the 256-bit table, the 512-bit one is not injective: two
      key/IV pairs load the same lanes exactly when their normal forms agree. */
  lemma Setup512SameState(key: seq<Word>, iv: seq<Word>, key': seq<Word>, iv': seq<Word>)
    requires |key| == 8 && |iv| == 4 && |key'| == 8 && |iv'| == 4
    ensures Setup512(key, iv) == Setup512(key', iv') <==> Normalize512(key, iv) == Normalize512(key', iv')
  {
    Setup512Inverse(key, iv);
    Setup512Inverse(key', iv');
    Setup512Normalized(key, iv);
    Setup512Normalized(key', iv');
  }

  /** Hence, for any word d, masking key word 4 and IV words 1 and 3 with
      d gives a pair that is constructed into the same engine as (key, iv),
      and so yields the same keystream. */
  lemma Setup512Shift(p: Primitives, key: seq<Word>, iv: seq<Word>, d: Word)
    requires |key| == 8 && |iv| == 4
    ensures Constructed(p, Setup512(key[4 := Mask(key[4], d)], iv[1 := Mask(iv[1], d)][3 := Mask(iv[3], d)]))
         == Constructed(p, Setup512(key, iv))
  {
    var key', iv' := key[4 := Mask(key[4], d)], iv[1 := Mask(iv[1], d)][3 := Mask(iv[3], d)];
    MaskShift(key[4], iv[1], d);
    MaskShift(key[4], iv[3], d);
    assert SameInputs512(key', iv', key, iv);
    Setup512SameInputs(key', iv', key, iv);
  }

  /** The IV enters the 512-bit table only through lanes 0, 3, 5 and 8:
      the other twelve lanes are the same for every IV. */
  lemma Setup512IvLanes(key: seq<Word>, iv: seq<Word>, iv': seq<Word>)
    requires |key| == 8 && |iv| == 4 && |iv'| == 4
    ensures var s, s' := Setup512(key, iv), Setup512(key, iv');
      && s[1] == s'[1] && s[2] == s'[2] && s[4] == s'[4] && s[6] == s'[6]
      && s[7] == s'[7] && s[9] == s'[9] && s[10] == s'[10] && s[11] == s'[11]
      && s[12] == s'[12] && s[13] == s'[13] && s[14] == s'[14] && s[15] == s'[15]
  {
    Lanes512(key, iv);
    Lanes512(key, iv');
  }
}
