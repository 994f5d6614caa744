/** Properties of the lane steps and passes in `Strumok`: what each step
    changes, that a generation pass overwrites the whole buffer, and that
    initialisation can be run backwards when the helpers are invertible. */
module EngineProps {
  import opened Words
  import opened Strumok

  // ---------------------------------------------------------------------
  // What one step changes
  // ---------------------------------------------------------------------

  /** An initialisation step rewrites lane n alone and never the buffer. */
  lemma InitStepFrame(p: Primitives, e: Engine, n: nat)
    requires e.WellFormed() && n < 16
    ensures var e' := InitStep(p, e, n);
      && (forall i :: 0 <= i < 16 && i != n ==> e'.s[i] == e.s[i])
      && e'.gamma == e.gamma
  {
  }

  /** An initialisation step gives lane n its `InitLane` value and sets the
      register to `r1 + s[n+13]` and `t(r0)`, where lane n+13 is the one
      the step found (it is not the lane being rewritten). This spells out
      the definition of `InitStep` and carries no proof of its own; the
      in-place code is tied to `InitStep` by `GammaInitStep`. */
  lemma InitStepRegister(p: Primitives, e: Engine, n: nat)
    requires e.WellFormed() && n < 16
    ensures var e' := InitStep(p, e, n);
      && e'.s[n] == InitLane(p, e, n)
      && e'.r0 == WrappingAdd(e.r1, e.s[Lane(n, 13)])
      && e'.r1 == T(p, e.r0)
  {
  }

  /** A generation step rewrites lane n and buffer word n, and no other
      lane or buffer word. */
  lemma GenStepFrame(p: Primitives, e: Engine, n: nat)
    requires e.WellFormed() && n < 16
    ensures var e' := GenStep(p, e, n);
      forall i :: 0 <= i < 16 && i != n ==> e'.s[i] == e.s[i] && e'.gamma[i] == e.gamma[i]
  {
  }

  /** A generation step gives lane n the feedback alone (the register does
      not flow back into the lanes) and advances the register as
      initialisation does. This spells out the definition of `GenStep`; the
      in-place code is tied to `GenStep` by `GammaNextStep`. */
  lemma GenStepRegister(p: Primitives, e: Engine, n: nat)
    requires e.WellFormed() && n < 16
    ensures var e' := GenStep(p, e, n);
      && e'.s[n] == GenLane(p, e, n)
      && e'.r0 == WrappingAdd(e.r1, e.s[Lane(n, 13)])
      && e'.r1 == T(p, e.r0)
  {
  }

  /** Buffer word n after a generation step is the output word of the NEW
      register and the NEW lane n, with lane n+1 as the step found it.
      Like `GenStepRegister`, a spelled-out definition, not independent
      evidence; `GammaNextStep` ties the in-place code to `GenStep`. */
  lemma GenStepOutput(p: Primitives, e: Engine, n: nat)
    requires e.WellFormed() && n < 16
    ensures var e' := GenStep(p, e, n);
      e'.gamma[n] == Output(e'.r0, e'.r1, e'.s[n], e.s[Lane(n, 1)])
  {
  }

  // ---------------------------------------------------------------------
  // A generation pass overwrites the whole buffer
  // ---------------------------------------------------------------------

  /** A generation step does not read the buffer: started from any other
      buffer it computes the same lanes, register and word n, and leaves the
      other buffer words alone. */
  lemma GenStepIgnoresGamma(p: Primitives, e: Engine, g: seq<Word>, n: nat)
    requires e.WellFormed() && |g| == 16 && n < 16
    ensures var b := GenStep(p, e, n);
      GenStep(p, e.(gamma := g), n) == b.(gamma := g[n := b.gamma[n]])
  {
  }

  /** Writing word j of a buffer made of the first j words of `u` and the
      rest of `g` gives the first j + 1 words of `u[j := x]` and the rest of
      `g`. */
  lemma SpliceStep(u: seq<Word>, g: seq<Word>, j: nat, x: Word)
    requires |u| == 16 && |g| == 16 && j < 16
    ensures (u[..j] + g[j..])[j := x] == u[j := x][..j + 1] + g[j + 1..]
  {
    var a, b := (u[..j] + g[j..])[j := x], u[j := x][..j + 1] + g[j + 1..];
    assert forall i :: 0 <= i < 16 ==> a[i] == b[i];
  }

  /** After k steps of a generation pass started from any buffer `g`, the
      engine is the one started from `e`'s own buffer, except that the
      buffer words the pass has not reached yet are still those of `g`. */
  lemma {:induction false} GenPassIgnoresGamma(p: Primitives, e: Engine, g: seq<Word>, k: nat)
    requires e.WellFormed() && |g| == 16 && k <= 16
    ensures var b := GenPass(p, e, k);
      GenPass(p, e.(gamma := g), k) == b.(gamma := b.gamma[..k] + g[k..])
    decreases k
  {
    if k == 0 {
      assert g[0..] == g;
    } else {
      GenPassIgnoresGamma(p, e, g, k - 1);
      var b' := GenPass(p, e, k - 1);
      var h := b'.gamma[..k - 1] + g[k - 1..];
      GenStepIgnoresGamma(p, b', h, k - 1);
      var b := GenStep(p, b', k - 1);
      SpliceStep(b'.gamma, g, k - 1, b.gamma[k - 1]);
    }
  }

  /** `gamma_next` rewrites every buffer word: the refilled engine does not
      depend on the old buffer at all. */
  lemma GenerateIgnoresGamma(p: Primitives, e: Engine, g: seq<Word>)
    requires e.WellFormed() && |g| == 16
    ensures Generate(p, e.(gamma := g)) == Generate(p, e)
  {
    GenPassIgnoresGamma(p, e, g, 16);
    var b := GenPass(p, e, 16);
    assert b.gamma[..16] + g[16..] == b.gamma;
  }

  /** An initialisation step carries the buffer along untouched. */
  lemma InitStepIgnoresGamma(p: Primitives, e: Engine, g: seq<Word>, n: nat)
    requires e.WellFormed() && |g| == 16 && n < 16
    ensures InitStep(p, e.(gamma := g), n) == InitStep(p, e, n).(gamma := g)
  {
  }

  /** Initialisation neither reads nor writes the buffer: started from any
      buffer `g`, a pass ends in the same lanes and register, holding `g`. */
  lemma {:induction false} InitPassIgnoresGamma(p: Primitives, e: Engine, g: seq<Word>, k: nat)
    requires e.WellFormed() && |g| == 16 && k <= 16
    ensures InitPass(p, e.(gamma := g), k) == InitPass(p, e, k).(gamma := g)
    decreases k
  {
    if k > 0 {
      InitPassIgnoresGamma(p, e, g, k - 1);
      InitStepIgnoresGamma(p, InitPass(p, e, k - 1), g, k - 1);
    }
  }

  /** `set_iv` finds whatever buffer the engine holds, and `init_gamma`
      refills it from scratch: the constructed engine does not depend on it. */
  lemma SetupIgnoresGamma(p: Primitives, e: Engine, g: seq<Word>)
    requires e.WellFormed() && |g| == 16
    ensures Generate(p, Mix(p, e.(gamma := g))) == Generate(p, Mix(p, e))
  {
    var m := InitPass(p, e, 16);
    InitPassIgnoresGamma(p, e, g, 16);
    InitPassIgnoresGamma(p, m, g, 16);
    GenerateIgnoresGamma(p, Mix(p, e), g);
  }

  // ---------------------------------------------------------------------
  // Running initialisation backwards
  // ---------------------------------------------------------------------

  /** Inverses of the two helpers that the standard makes bijective (`a_mul`
      and `t`). The cipher never computes them; they only serve to show
      that no two loaded states are mixed into the same engine. */
  datatype Inverses = Inverses(aMulInv: Word -> Word, tInv: Word -> Word)

  function AMulInv(q: Inverses, y: Word): Word
  {
    q.aMulInv(y)
  }

  function TInv(q: Inverses, y: Word): Word
  {
    q.tInv(y)
  }

  /** `q` holds the inverses of `p`'s `a_mul` and `t`. */
  ghost predicate Undoes(q: Inverses, p: Primitives)
  {
    (forall x :: AMulInv(q, AMul(p, x)) == x) && (forall x :: TInv(q, T(p, x)) == x)
  }

  /** Recovers lane n from its feedback value `y` and the two other lanes
      the feedback was computed from. */
  function Unfeedback(p: Primitives, q: Inverses, y: Word, x13: Word, x11: Word): Word
  {
    AMulInv(q, Xor3(y, x13, AInvMul(p, x11)))
  }

  lemma FeedbackUndone(p: Primitives, q: Inverses, x: Word, x13: Word, x11: Word)
    requires Undoes(q, p)
    ensures Unfeedback(p, q, Feedback(p, x, x13, x11), x13, x11) == x
  {
    Xor3Cancel(AMul(p, x), x13, AInvMul(p, x11));
  }

  /** Removes the register filter from an initialised lane. */
  function Unfilter(y: Word, f: Word): Word
  {
    Xor(y, f)
  }

  lemma InitLaneUndone(p: Primitives, e: Engine, n: nat)
    requires e.WellFormed() && n < 16
    ensures Unfilter(InitLane(p, e, n), Filter(e.r0, e.r1, e.s[Lane(n, 15)]))
         == Feedback(p, e.s[n], e.s[Lane(n, 13)], e.s[Lane(n, 11)])
  {
    var f, l := Filter(e.r0, e.r1, e.s[Lane(n, 15)]), Feedback(p, e.s[n], e.s[Lane(n, 13)], e.s[Lane(n, 11)]);
    XorCancel(l, f);
  }

  /** The initialisation step on lane n run backwards: first the register
      (`r0 = t⁻¹(r1')`, `r1 = r0' - s[n+13]`), then the lane. */
  function UndoInitStep(p: Primitives, q: Inverses, e: Engine, n: nat): (e': Engine)
    requires e.WellFormed() && n < 16
    ensures e'.WellFormed()
  {
    var r0 := TInv(q, e.r1);
    var r1 := WrappingSub(e.r0, e.s[Lane(n, 13)]);
    var y := Unfilter(e.s[n], Filter(r0, r1, e.s[Lane(n, 15)]));
    Engine(e.s[n := Unfeedback(p, q, y, e.s[Lane(n, 13)], e.s[Lane(n, 11)])], r0, r1, e.gamma)
  }

  lemma InitStepUndone(p: Primitives, q: Inverses, e: Engine, n: nat)
    requires Undoes(q, p) && e.WellFormed() && n < 16
    ensures UndoInitStep(p, q, InitStep(p, e, n), n) == e
  {
    var e' := InitStep(p, e, n);
    var l13, l11, l15 := Lane(n, 13), Lane(n, 11), Lane(n, 15);
    InitStepFrame(p, e, n);
    InitStepRegister(p, e, n);
    assert e'.s[l13] == e.s[l13] && e'.s[l11] == e.s[l11] && e'.s[l15] == e.s[l15];
    WrappingAddCancel(e.r1, e.s[l13]);
    InitLaneUndone(p, e, n);
    FeedbackUndone(p, q, e.s[n], e.s[l13], e.s[l11]);
    var u := UndoInitStep(p, q, e', n);
    assert u.r0 == e.r0;
    assert u.r1 == e.r1;
    assert u.s[n] == e.s[n];
    assert u.s == e.s;
    assert u.gamma == e.gamma;
  }

  /** The first k steps of an initialisation pass run backwards, lane k-1
      first. */
  function UndoInitPass(p: Primitives, q: Inverses, e: Engine, k: nat): (e': Engine)
    requires e.WellFormed() && k <= 16
    ensures e'.WellFormed()
    decreases k
  {
    if k == 0 then e else UndoInitPass(p, q, UndoInitStep(p, q, e, k - 1), k - 1)
  }

  lemma {:induction false} InitPassUndone(p: Primitives, q: Inverses, e: Engine, k: nat)
    requires Undoes(q, p) && e.WellFormed() && k <= 16
    ensures UndoInitPass(p, q, InitPass(p, e, k), k) == e
    decreases k
  {
    if k > 0 {
      InitStepUndone(p, q, InitPass(p, e, k - 1), k - 1);
      InitPassUndone(p, q, e, k - 1);
    }
  }

  /** Both initialisation passes run backwards. */
  function UndoMix(p: Primitives, q: Inverses, e: Engine): (e': Engine)
    requires e.WellFormed()
    ensures e'.WellFormed()
  {
    UndoInitPass(p, q, UndoInitPass(p, q, e, 16), 16)
  }

  lemma MixUndone(p: Primitives, q: Inverses, e: Engine)
    requires Undoes(q, p) && e.WellFormed()
    ensures UndoMix(p, q, Mix(p, e)) == e
  {
    var once := InitPass(p, e, 16);
    InitPassUndone(p, q, once, 16);
    InitPassUndone(p, q, e, 16);
  }

  /** The 32 initialisation steps lose nothing: distinct engines are mixed
      into distinct engines. */
  lemma MixInjective(p: Primitives, q: Inverses, e: Engine, e': Engine)
    requires Undoes(q, p) && e.WellFormed() && e'.WellFormed()
    ensures Mix(p, e) == Mix(p, e') <==> e == e'
  {
    MixUndone(p, q, e);
    MixUndone(p, q, e');
  }

  // ---------------------------------------------------------------------
  // Running a generation pass backwards (lanes and register only)
  // ---------------------------------------------------------------------

  /** The generation step on lane n run backwards on lanes and register;
      the buffer word it wrote is not recovered. */
  function UndoGenStep(p: Primitives, q: Inverses, e: Engine, n: nat): (e': Engine)
    requires e.WellFormed() && n < 16
    ensures e'.WellFormed() && e'.gamma == e.gamma
  {
    var r0 := TInv(q, e.r1);
    var r1 := WrappingSub(e.r0, e.s[Lane(n, 13)]);
    Engine(e.s[n := Unfeedback(p, q, e.s[n], e.s[Lane(n, 13)], e.s[Lane(n, 11)])], r0, r1, e.gamma)
  }

  lemma GenStepUndone(p: Primitives, q: Inverses, e: Engine, n: nat)
    requires Undoes(q, p) && e.WellFormed() && n < 16
    ensures UndoGenStep(p, q, GenStep(p, e, n), n) == e.(gamma := GenStep(p, e, n).gamma)
  {
    var e' := GenStep(p, e, n);
    GenStepFrame(p, e, n);
    GenStepRegister(p, e, n);
    WrappingAddCancel(e.r1, e.s[Lane(n, 13)]);
    FeedbackUndone(p, q, e.s[n], e.s[Lane(n, 13)], e.s[Lane(n, 11)]);
    var u := UndoGenStep(p, q, e', n);
    assert u.s[n] == e.s[n];
    assert u.s == e.s;
  }

  /** The first k steps of a generation pass run backwards on lanes and
      register. */
  function UndoGenPass(p: Primitives, q: Inverses, e: Engine, k: nat): (e': Engine)
    requires e.WellFormed() && k <= 16
    ensures e'.WellFormed() && e'.gamma == e.gamma
    decreases k
  {
    if k == 0 then e else UndoGenPass(p, q, UndoGenStep(p, q, e, k - 1), k - 1)
  }

  /** Running a generation pass backwards never looks at the buffer. */
  lemma {:induction false} UndoGenPassIgnoresGamma(p: Primitives, q: Inverses, e: Engine, g: seq<Word>, k: nat)
    requires e.WellFormed() && |g| == 16 && k <= 16
    ensures UndoGenPass(p, q, e.(gamma := g), k) == UndoGenPass(p, q, e, k).(gamma := g)
    decreases k
  {
    if k > 0 {
      assert UndoGenStep(p, q, e.(gamma := g), k - 1) == UndoGenStep(p, q, e, k - 1).(gamma := g);
      UndoGenPassIgnoresGamma(p, q, UndoGenStep(p, q, e, k - 1), g, k - 1);
    }
  }

  lemma {:induction false} GenPassUndone(p: Primitives, q: Inverses, e: Engine, k: nat)
    requires Undoes(q, p) && e.WellFormed() && k <= 16
    ensures UndoGenPass(p, q, GenPass(p, e, k), k) == e.(gamma := GenPass(p, e, k).gamma)
    decreases k
  {
    if k > 0 {
      var b := GenPass(p, e, k - 1);
      var g := GenPass(p, e, k).gamma;
      GenStepUndone(p, q, b, k - 1);
      UndoGenPassIgnoresGamma(p, q, b, g, k - 1);
      GenPassUndone(p, q, e, k - 1);
    }
  }

  /** A generation pass run backwards recovers lanes and register. */
  lemma GenerateUndone(p: Primitives, q: Inverses, e: Engine)
    requires Undoes(q, p) && e.WellFormed()
    ensures UndoGenPass(p, q, Generate(p, e), 16) == e.(gamma := Generate(p, e).gamma)
  {
    GenPassUndone(p, q, e, 16);
  }

  /** Distinct loaded lane sets are constructed into distinct engines: the
      two initialisation passes and the generation pass lose nothing. */
  lemma ConstructedInjective(p: Primitives, q: Inverses, s: seq<Word>, s': seq<Word>)
    requires Undoes(q, p) && |s| == 16 && |s'| == 16
    ensures Constructed(p, s) == Constructed(p, s') <==> s == s'
  {
    var m, m' := Mix(p, Loaded(s)), Mix(p, Loaded(s'));
    if Constructed(p, s) == Constructed(p, s') {
      var c := Constructed(p, s);
      GenerateUndone(p, q, m);
      GenerateUndone(p, q, m');
      var u := UndoGenPass(p, q, c, 16);
      assert m.s == u.s == m'.s && m.r0 == u.r0 == m'.r0 && m.r1 == u.r1 == m'.r1;
      assert m.gamma == Zeros() == m'.gamma;
      MixUndone(p, q, Loaded(s));
      MixUndone(p, q, Loaded(s'));
    }
  }
}
