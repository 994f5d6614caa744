/** The cipher core as the crate keeps it: a key, sixteen 64-bit lanes, a
    two-word register, a sixteen-word keystream buffer and a read cursor
    into that buffer, all updated in place. Every method is specified by the
    value functions of `Strumok` applied to `Abs()`, the engine the arrays
    currently hold. */
module Dstu8845 {
  import opened Words
  import opened Strumok
  import EngineProps

  /** Byte order of the target platform. The crate reads key and IV bytes
      as native-order words and refuses to initialise on big-endian
      targets. */
  datatype Endian = LittleEndian | BigEndian

  class Dstu8845Core {
    /** The helper functions `a_mul`, `ainv_mul` and `t`. */
    const prim: Primitives
    /** The key words, fixed at construction and never rewritten. */
    const key: seq<Word>
    /** The sixteen lanes. */
    const s: array<Word>
    /** The register `r[0]`, `r[1]`. */
    const r: array<Word>
    /** The keystream buffer. */
    const gamma: array<Word>
    /** Index of the next buffer word `next_block` hands out. */
    var gammaCntr: nat
    /** Initialisation steps and generation passes run so far. */
    ghost var initSteps: nat
    ghost var genPasses: nat

    /** The arrays have the crate's sizes and are distinct. */
    ghost predicate Shape()
    {
      s.Length == 16 && r.Length == 2 && gamma.Length == 16 && s != gamma
    }

    /** Between calls the cursor points into the buffer. */
    ghost predicate Valid()
      reads this
    {
      Shape() && gammaCntr < 16
    }

    /** The engine value the arrays hold. */
    ghost function Abs(): (e: Engine)
      requires Shape()
      reads this, s, r, gamma
      ensures e.WellFormed()
    {
      Engine(s[..], r[0], r[1], gamma[..])
    }

    /** `new` for a 256-bit key: the key bytes read as four little-endian
        words, then `set_iv`. */
    constructor New256(endian: Endian, keyBytes: seq<Byte>, ivBytes: seq<Byte>, p: Primitives)
      requires endian == LittleEndian
      requires |keyBytes| == 32 && |ivBytes| == 32
      ensures Valid() && fresh(s) && fresh(r) && fresh(gamma)
      ensures prim == p && key == DecodeWords(keyBytes)
      ensures Abs() == Constructed(p, Setup256(key, DecodeWords(ivBytes)))
      ensures gammaCntr == 0 && initSteps == 32 && genPasses == 1
    {
      prim := p;
      key := DecodeWords(keyBytes);
      s := new Word[16](_ => 0);
      r := new Word[2](_ => 0);
      gamma := new Word[16](_ => 0);
      gammaCntr := 0;
      initSteps, genPasses := 0, 0;
      new;
      SetIv256(DecodeWords(ivBytes));
    }

    /** `new` for a 512-bit key: eight little-endian key words. */
    constructor New512(endian: Endian, keyBytes: seq<Byte>, ivBytes: seq<Byte>, p: Primitives)
      requires endian == LittleEndian
      requires |keyBytes| == 64 && |ivBytes| == 32
      ensures Valid() && fresh(s) && fresh(r) && fresh(gamma)
      ensures prim == p && key == DecodeWords(keyBytes)
      ensures Abs() == Constructed(p, Setup512(key, DecodeWords(ivBytes)))
      ensures gammaCntr == 0 && initSteps == 32 && genPasses == 1
    {
      prim := p;
      key := DecodeWords(keyBytes);
      s := new Word[16](_ => 0);
      r := new Word[2](_ => 0);
      gamma := new Word[16](_ => 0);
      gammaCntr := 0;
      initSteps, genPasses := 0, 0;
      new;
      SetIv512(DecodeWords(ivBytes));
    }

    /** `set_iv` for a 256-bit key: loads the lanes from key and IV, clears
        the register and initialises. Whatever the buffer held before plays
        no part in the result. */
    method SetIv256(iv: seq<Word>)
      requires Shape() && |key| == 4 && |iv| == 4
      modifies this, s, r, gamma
      ensures Valid()
      ensures Abs() == Constructed(prim, Setup256(key, iv))
      ensures gammaCntr == 0
      ensures initSteps == old(initSteps) + 32 && genPasses == old(genPasses) + 1
    {
      // the sixteen lane writes go to distinct lanes and read only key and
      // IV, so they are made all at once, from the table `Lane256`
      forall i | 0 <= i < 16 {
        s[i] := Lane256(key, iv, i);
      }
      r[0], r[1] := 0, 0;
      assert s[..] == Setup256(key, iv);
      assert Abs() == Loaded(s[..]).(gamma := gamma[..]);
      EngineProps.SetupIgnoresGamma(prim, Loaded(Setup256(key, iv)), Abs().gamma);
      InitGamma();
    }

    /** `set_iv` for a 512-bit key. */
    method SetIv512(iv: seq<Word>)
      requires Shape() && |key| == 8 && |iv| == 4
      modifies this, s, r, gamma
      ensures Valid()
      ensures Abs() == Constructed(prim, Setup512(key, iv))
      ensures gammaCntr == 0
      ensures initSteps == old(initSteps) + 32 && genPasses == old(genPasses) + 1
    {
      // the sixteen lane writes go to distinct lanes and read only key and
      // IV, so they are made all at once, from the table `Lane512`
      forall i | 0 <= i < 16 {
        s[i] := Lane512(key, iv, i);
      }
      r[0], r[1] := 0, 0;
      assert s[..] == Setup512(key, iv);
      assert Abs() == Loaded(s[..]).(gamma := gamma[..]);
      EngineProps.SetupIgnoresGamma(prim, Loaded(Setup512(key, iv)), Abs().gamma);
      InitGamma();
    }

    /** `gamma_init_step!` on lane n. Lanes n+11, n+13 and n+15 are not
        lane n, so they are read before lane n is written. */
    method GammaInitStep(n: nat)
      requires Shape() && n < 16
      modifies this, s, r
      ensures Abs() == InitStep(prim, old(Abs()), n)
      ensures gammaCntr == old(gammaCntr)
      ensures initSteps == old(initSteps) + 1 && genPasses == old(genPasses)
    {
      var x13, x11, x15 := s[Lane(n, 13)], s[Lane(n, 11)], s[Lane(n, 15)];
      var x := Xor(Feedback(prim, s[n], x13, x11), Filter(r[0], r[1], x15));
      var tmp := WrappingAdd(r[1], x13);
      s[n] := x;
      r[0], r[1] := tmp, T(prim, r[0]);
      initSteps := initSteps + 1;
    }

    /** `gamma_next_step!` on lane n: lanes n+11, n+13 and n+1 are not lane
        n, so they are read before lane n is written. */
    method GammaNextStep(n: nat)
      requires Shape() && n < 16
      modifies this, s, r, gamma
      ensures Abs() == GenStep(prim, old(Abs()), n)
      ensures gammaCntr == old(gammaCntr)
      ensures initSteps == old(initSteps) && genPasses == old(genPasses)
    {
      var x13, x11, x1 := s[Lane(n, 13)], s[Lane(n, 11)], s[Lane(n, 1)];
      var x := Feedback(prim, s[n], x13, x11);
      var tmp := WrappingAdd(r[1], x13);
      s[n] := x;
      r[0], r[1] := tmp, T(prim, r[0]);
      gamma[n] := Output(r[0], r[1], x, x1);
    }

    /** `init_gamma`: two rounds of the sixteen initialisation steps, then
        one generation pass, leaving the cursor at 0. */
    method InitGamma()
      requires Shape()
      modifies this, s, r, gamma
      ensures Valid()
      ensures Abs() == Generate(prim, Mix(prim, old(Abs())))
      ensures gammaCntr == 0
      ensures initSteps == old(initSteps) + 32 && genPasses == old(genPasses) + 1
    {
      ghost var e0 := Abs();
      for round := 0 to 2
        invariant Abs() == if round == 0 then e0 else if round == 1 then InitPass(prim, e0, 16) else Mix(prim, e0)
        invariant initSteps == old(initSteps) + 16 * round && genPasses == old(genPasses)
      {
        ghost var start := Abs();
        for n := 0 to 16
          invariant Abs() == InitPass(prim, start, n)
          invariant initSteps == old(initSteps) + 16 * round + n && genPasses == old(genPasses)
        {
          GammaInitStep(n);
        }
      }
      GammaNext();
    }

    /** `gamma_next`: one generation pass over lanes 0 .. 15, which rewrites
        the whole buffer, and the cursor back to 0. */
    method GammaNext()
      requires Shape()
      modifies this, s, r, gamma
      ensures Valid()
      ensures Abs() == Generate(prim, old(Abs()))
      ensures gammaCntr == 0
      ensures initSteps == old(initSteps) && genPasses == old(genPasses) + 1
    {
      ghost var e0 := Abs();
      for n := 0 to 16
        invariant Abs() == GenPass(prim, e0, n)
        invariant initSteps == old(initSteps) && genPasses == old(genPasses)
      {
        GammaNextStep(n);
      }
      gammaCntr := 0;
      genPasses := genPasses + 1;
    }

    /** The inner loop of `next_block`: the eight bytes of `chunk` into
        `block[8j .. 8j + 8]`. */
    static method PutChunk(block: array<Byte>, j: nat, chunk: seq<Byte>)
      requires block.Length == 128 && j < 16 && |chunk| == 8
      modifies block
      ensures forall t :: 8 * j <= t < 8 * j + 8 ==> block[t] == chunk[t - 8 * j]
      ensures forall t :: 0 <= t < 128 && !(8 * j <= t < 8 * j + 8) ==> block[t] == old(block[t])
    {
      for i := 0 to 8
        invariant forall i' :: 0 <= i' < i ==> block[8 * j + i'] == chunk[i']
        invariant forall t :: 0 <= t < 128 && !(8 * j <= t < 8 * j + i) ==> block[t] == old(block[t])
      {
        block[8 * j + i] := chunk[i];
      }
    }

    /** `next_block`: the next sixteen buffer words from the cursor on, each
        as eight little-endian bytes. The buffer is refilled by exactly one
        generation pass, at the moment the cursor runs off its end, so the
        block is the tail of the current buffer followed by the head of the
        next one, and the cursor ends where it started. */
    method NextBlock() returns (block: array<Byte>)
      requires Valid()
      modifies this, s, r, gamma
      ensures Valid() && fresh(block) && block.Length == 128
      ensures gammaCntr == old(gammaCntr)
      ensures Abs() == Generate(prim, old(Abs()))
      ensures block[..] == EncodeWords(BlockWords(old(Abs()), Abs(), gammaCntr))
      ensures initSteps == old(initSteps) && genPasses == old(genPasses) + 1
    {
      block := new Byte[128](_ => 0);
      ghost var e0, c := Abs(), gammaCntr;
      ghost var e1 := Generate(prim, e0);
      ghost var words := BlockWords(e0, e1, c);
      ghost var bytes := EncodeWords(words);
      for j := 0 to 16
        invariant gammaCntr == if c + j < 16 then c + j else c + j - 16
        invariant Abs() == if c + j < 16 then e0 else e1
        invariant genPasses == old(genPasses) + (if c + j < 16 then 0 else 1)
        invariant initSteps == old(initSteps)
        invariant forall t :: 0 <= t < 8 * j ==> block[t] == bytes[t]
      {
        assert gamma[gammaCntr] == words[j];
        PutChunk(block, j, LeBytes(gamma[gammaCntr]));
        forall t | 8 * j <= t < 8 * j + 8 {
          EncodeWordsAt(words, j, t - 8 * j);
        }
        gammaCntr := gammaCntr + 1;
        if gammaCntr == 16 {
          GammaNext();
        }
      }
      assert block[..] == bytes;
    }
  }
}
