/** Properties of the keystream: successive `next_block` calls emit the
    buffers of successive generation passes back to back, starting at the
    cursor, with no word skipped or repeated at a block boundary, and a
    long run of calls is a short run continued. */
module StreamProps {
  import opened Words
  import opened Strumok

  /** The first `k` buffers laid end to end: the buffer of `e`, then those
      of the following generation passes. This is the reference reading of
      the stream. */
  function Buffers(p: Primitives, e: Engine, k: nat): (ws: seq<Word>)
    requires e.WellFormed()
    ensures |ws| == 16 * k
    decreases k
  {
    if k == 0 then [] else Buffers(p, e, k - 1) + After(p, e, k - 1).gamma
  }

  /** Cutting a slice at an inner point. */
  lemma SliceSplit(a: seq<Word>, i: nat, j: nat, l: nat)
    requires i <= j <= l <= |a|
    ensures a[i..l] == a[i..j] + a[j..l]
  {
  }

  /** A slice of `x + y` that ends inside `x` is a slice of `x`; one that
      starts at the end of `x` is a prefix of `y`. */
  lemma SliceAppend(x: seq<Word>, y: seq<Word>, i: nat, j: nat)
    requires i <= j <= |x| + |y|
    ensures j <= |x| ==> (x + y)[i..j] == x[i..j]
    ensures i == |x| ==> (x + y)[i..j] == y[..j - |x|]
  {
  }

  /** One more buffer extends the seamless reading by one block: if `w`
      is the `m` words of `g = h + prev` from `c` on, then `w`, the tail of
      `prev` and the head of `next` are the `m + 16` words of
      `f = g + next` from `c` on. */
  lemma SeamStep(h: seq<Word>, prev: seq<Word>, next: seq<Word>, g: seq<Word>, f: seq<Word>,
                 w: seq<Word>, c: nat, m: nat, l: nat)
    requires |prev| == 16 && |next| == 16 && c < 16 && |h| == m && l == m + 16
    requires g == h + prev && f == g + next && w == g[c..c + m]
    ensures w + prev[c..] + next[..c] == f[c..c + l]
  {
    SliceSplit(f, c, l, l + c);
    SliceAppend(g, next, c, l);
    SliceAppend(g, next, l, l + c);
    SliceSplit(g, c, c + m, l);
    SliceAppend(h, prev, c + m, l);
  }

  /** Block boundaries lose nothing: the words of `k` calls with the cursor
      at `c` are exactly the words `c .. c + 16k` of the first `k + 1`
      buffers laid end to end. */
  lemma {:induction false} EmittedSeamless(p: Primitives, e: Engine, c: nat, k: nat)
    requires e.WellFormed() && c < 16
    ensures Emitted(p, e, c, k) == Buffers(p, e, k + 1)[c..c + 16 * k]
    decreases k
  {
    if k == 0 {
      assert Buffers(p, e, 1)[c..c] == [];
    } else {
      EmittedSeamless(p, e, c, k - 1);
      var prev, next := After(p, e, k - 1).gamma, After(p, e, k).gamma;
      var w := Emitted(p, e, c, k - 1);
      SeamStep(Buffers(p, e, k - 1), prev, next, Buffers(p, e, k), Buffers(p, e, k + 1),
               w, c, 16 * (k - 1), 16 * k);
      assert Emitted(p, e, c, k) == w + prev[c..] + next[..c];
    }
  }

  /** With the cursor at 0, `k` calls emit the first `k` buffers whole, in
      order. */
  lemma {:induction false} EmittedFromStart(p: Primitives, e: Engine, k: nat)
    requires e.WellFormed()
    ensures Emitted(p, e, 0, k) == Buffers(p, e, k)
    decreases k
  {
    if k > 0 {
      EmittedFromStart(p, e, k - 1);
      var cur := After(p, e, k - 1);
      assert BlockWords(cur, After(p, e, k), 0) == cur.gamma;
    }
  }

  /** The engine after `a + b` passes is the engine `b` passes after the
      one that `a` passes leave behind. */
  lemma {:induction false} AfterSplit(p: Primitives, e: Engine, a: nat, b: nat)
    requires e.WellFormed()
    ensures After(p, e, a + b) == After(p, After(p, e, a), b)
    decreases b
  {
    if b > 0 {
      AfterSplit(p, e, a, b - 1);
    }
  }

  /** `a + b` calls emit the words of `a` calls followed by the words of
      `b` calls from the engine the first `a` calls leave behind. */
  lemma {:induction false} EmittedSplit(p: Primitives, e: Engine, c: nat, a: nat, b: nat)
    requires e.WellFormed() && c < 16
    ensures Emitted(p, e, c, a + b) == Emitted(p, e, c, a) + Emitted(p, After(p, e, a), c, b)
    decreases b
  {
    if b > 0 {
      var mid := After(p, e, a);
      EmittedSplit(p, e, c, a, b - 1);
      AfterSplit(p, e, a, b - 1);
      var x, y := Emitted(p, e, c, a), Emitted(p, mid, c, b - 1);
      var blk := BlockWords(After(p, mid, b - 1), After(p, mid, b), c);
      assert Emitted(p, e, c, a + b) == (x + y) + blk;
      assert Emitted(p, mid, c, b) == y + blk;
    }
  }

  /** The call after `k` calls, made on the engine `cur` those calls leave
      behind, refills it once and appends the encoding of its block words. */
  lemma KeystreamNext(p: Primitives, e: Engine, c: nat, k: nat, cur: Engine)
    requires e.WellFormed() && c < 16 && cur == After(p, e, k)
    ensures After(p, e, k + 1) == Generate(p, cur)
    ensures Keystream(p, e, c, k + 1)
      == Keystream(p, e, c, k) + EncodeWords(BlockWords(cur, Generate(p, cur), c))
  {
    EncodeAppend(Emitted(p, e, c, k), BlockWords(cur, After(p, e, k + 1), c));
  }

  /** The keystream is the buffers of successive passes laid end to end,
      read from the cursor on, each word little-endian. */
  lemma KeystreamSeamless(p: Primitives, e: Engine, c: nat, k: nat)
    requires e.WellFormed() && c < 16
    ensures Keystream(p, e, c, k) == EncodeWords(Buffers(p, e, k + 1)[c..c + 16 * k])
  {
    EmittedSeamless(p, e, c, k);
  }

  /** The stream has no seam between calls: `a + b` blocks are `a` blocks
      followed by `b` blocks from the engine the first `a` leave behind. */
  lemma KeystreamSplit(p: Primitives, e: Engine, c: nat, a: nat, b: nat)
    requires e.WellFormed() && c < 16
    ensures Keystream(p, e, c, a + b) == Keystream(p, e, c, a) + Keystream(p, After(p, e, a), c, b)
  {
    EmittedSplit(p, e, c, a, b);
    EncodeAppend(Emitted(p, e, c, a), Emitted(p, After(p, e, a), c, b));
  }

  /** With the cursor at 0, the keystream read back as little-endian words
      is the first `k` buffers, whole and in order. */
  lemma KeystreamFromStart(p: Primitives, e: Engine, k: nat)
    requires e.WellFormed()
    ensures DecodeWords(Keystream(p, e, 0, k)) == Buffers(p, e, k)
  {
    EmittedFromStart(p, e, k);
    DecodeEncode(Buffers(p, e, k));
  }

  /** The first block of a fresh stream is the buffer itself. */
  lemma FirstBlock(p: Primitives, e: Engine)
    requires e.WellFormed()
    ensures DecodeWords(Keystream(p, e, 0, 1)) == e.gamma
  {
    KeystreamFromStart(p, e, 1);
    assert Buffers(p, e, 1) == [] + e.gamma;
  }
}
