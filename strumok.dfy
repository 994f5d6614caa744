/** The DSTU 8845:2019 ("Strumok") state machine as values: the 16-lane
    state `s`, the two-word register `r` and the 16-word output buffer
    `gamma`, the key/IV loading tables, the two kinds of lane step and the
    passes built from them. The class in `Dstu8845` is proved against these
    functions. */
module Strumok {
  import opened Words

  /** The three helpers of the standard: multiplication by the field
      constant (`a_mul`), by its inverse (`ainv_mul`), and the register
      transform (`t`). Their bit-level definitions are not part of this
      model, so they are parameters and every result below holds for any
      choice of them. */
  datatype Primitives = Primitives(aMul: Word -> Word, aInvMul: Word -> Word, t: Word -> Word)

  /** `a_mul(x)`. Everything else applies the helpers only through these
      three functions. */
  function AMul(p: Primitives, x: Word): Word
  {
    p.aMul(x)
  }

  /** `ainv_mul(x)`. */
  function AInvMul(p: Primitives, x: Word): Word
  {
    p.aInvMul(x)
  }

  /** `t(x)`. */
  function T(p: Primitives, x: Word): Word
  {
    p.t(x)
  }

  /** The mutable part of the cipher: state lanes `s`, register `r = [r0, r1]`
      and keystream buffer `gamma`. */
  datatype Engine = Engine(s: seq<Word>, r0: Word, r1: Word, gamma: seq<Word>)
  {
    predicate WellFormed() {
      |s| == 16 && |gamma| == 16
    }
  }

  function Zeros(): (z: seq<Word>)
    ensures |z| == 16 && forall i :: 0 <= i < 16 ==> z[i] == 0
  {
    seq(16, _ => 0)
  }

  // ---------------------------------------------------------------------
  // Key/IV loading (`set_iv`)
  // ---------------------------------------------------------------------

  /** A key word XORed with an IV word, as the loading tables place them. */
  function Mask(k: Word, v: Word): Word
  {
    k ^ v
  }

  /** A complemented key word, as the loading tables place them. */
  function Complement(k: Word): Word
  {
    !k
  }

  /** Lane `i` of the 256-bit loading table: key words, complemented key
      words, and in lanes 0, 2, 3 and 5 key words masked with the four IV
      words. */
  function Lane256(key: seq<Word>, iv: seq<Word>, i: nat): Word
    requires |key| == 4 && |iv| == 4 && i < 16
  {
    match i
    case 0 => Mask(key[3], iv[0])
    case 1 => key[2]
    case 2 => Mask(key[1], iv[1])
    case 3 => Mask(key[0], iv[2])
    case 4 => key[3]
    case 5 => Mask(key[2], iv[3])
    case 6 => Complement(key[1])
    case 7 => Complement(key[0])
    case 8 => key[3]
    case 9 => key[2]
    case 10 => Complement(key[1])
    case 11 => key[0]
    case 12 => key[3]
    case 13 => Complement(key[2])
    case 14 => key[1]
    case 15 => Complement(key[0])
  }

  /** Lane `i` of the 512-bit loading table; the IV enters lanes 0, 3, 5
      and 8. */
  function Lane512(key: seq<Word>, iv: seq<Word>, i: nat): Word
    requires |key| == 8 && |iv| == 4 && i < 16
  {
    match i
    case 0 => Mask(key[7], iv[0])
    case 1 => key[6]
    case 2 => key[5]
    case 3 => Mask(key[4], iv[1])
    case 4 => key[3]
    case 5 => Mask(key[2], iv[2])
    case 6 => key[1]
    case 7 => Complement(key[0])
    case 8 => Mask(key[4], iv[3])
    case 9 => Complement(key[6])
    case 10 => key[5]
    case 11 => Complement(key[7])
    case 12 => key[3]
    case 13 => key[2]
    case 14 => Complement(key[1])
    case 15 => key[0]
  }

  /** The lanes `set_iv` writes for a 256-bit key. */
  function Setup256(key: seq<Word>, iv: seq<Word>): (s: seq<Word>)
    requires |key| == 4 && |iv| == 4
    ensures |s| == 16
  {
    seq(16, i requires 0 <= i < 16 => Lane256(key, iv, i))
  }

  /** The lanes `set_iv` writes for a 512-bit key. */
  function Setup512(key: seq<Word>, iv: seq<Word>): (s: seq<Word>)
    requires |key| == 8 && |iv| == 4
    ensures |s| == 16
  {
    seq(16, i requires 0 <= i < 16 => Lane512(key, iv, i))
  }

  /** The engine right after `set_iv` has written the lanes and zeroed the
      register; the buffer still holds the zeros the constructor put there. */
  function Loaded(s: seq<Word>): (e: Engine)
    requires |s| == 16
    ensures e.WellFormed() && e.s == s && e.r0 == 0 && e.r1 == 0
  {
    Engine(s, 0, 0, Zeros())
  }

  // ---------------------------------------------------------------------
  // Lane steps (`gamma_init_step!`, `gamma_next_step!`)
  // ---------------------------------------------------------------------

  /** Lane `n + d` of the circular state, the source's `(n + d) % 16`. */
  function Lane(n: nat, d: nat): (i: nat)
    requires n < 16 && d < 16
    ensures i < 16 && i == (n + d) % 16 && (i == n <==> d == 0)
  {
    if n + d < 16 then n + d else n + d - 16
  }

  /** The linear part of every lane update: `a_mul(s[n]) ^ s[n+13] ^
      ainv_mul(s[n+11])`, given those three lanes. */
  function Feedback(p: Primitives, x: Word, x13: Word, x11: Word): Word
  {
    Xor3(AMul(p, x), x13, AInvMul(p, x11))
  }

  /** The register filter `(r0 + x) ^ r1` (wrapping add): the register's
      contribution to a lane during initialisation, and to a keystream
      word during generation. */
  function Filter(r0: Word, r1: Word, x: Word): Word
  {
    WrappingAdd(r0, x) ^ r1
  }

  /** The new value of lane `n` in an initialisation step: the feedback XOR
      the register filter of lane n+15. */
  function InitLane(p: Primitives, e: Engine, n: nat): Word
    requires e.WellFormed() && n < 16
  {
    Xor(Feedback(p, e.s[n], e.s[Lane(n, 13)], e.s[Lane(n, 11)]), Filter(e.r0, e.r1, e.s[Lane(n, 15)]))
  }

  /** The new value of lane `n` in a generation step: the feedback alone. */
  function GenLane(p: Primitives, e: Engine, n: nat): Word
    requires e.WellFormed() && n < 16
  {
    Feedback(p, e.s[n], e.s[Lane(n, 13)], e.s[Lane(n, 11)])
  }

  /** A keystream word: the register filter of a lane, XOR the next lane. */
  function Output(r0: Word, r1: Word, x: Word, next: Word): Word
  {
    Filter(r0, r1, x) ^ next
  }

  /** One initialisation step on lane `n`: the lane takes `InitLane`, then
      the register advances, `r0 := r1 + s[n+13]` and `r1 := t(r0)`. */
  function InitStep(p: Primitives, e: Engine, n: nat): (e': Engine)
    requires e.WellFormed() && n < 16
    ensures e'.WellFormed()
  {
    // lane n + 13 is not lane n, so the register reads it unchanged
    Engine(e.s[n := InitLane(p, e, n)], WrappingAdd(e.r1, e.s[Lane(n, 13)]), T(p, e.r0), e.gamma)
  }

  /** One generation step on lane `n`: the lane takes `GenLane`, the
      register advances as in `InitStep`, and `gamma[n]` becomes the output
      word of the NEW register, the new lane and lane n+1. */
  function GenStep(p: Primitives, e: Engine, n: nat): (e': Engine)
    requires e.WellFormed() && n < 16
    ensures e'.WellFormed()
  {
    // lanes n + 13 and n + 1 are not lane n, so they are read unchanged
    var x := GenLane(p, e, n);
    var r0 := WrappingAdd(e.r1, e.s[Lane(n, 13)]);
    var r1 := T(p, e.r0);
    Engine(e.s[n := x], r0, r1, e.gamma[n := Output(r0, r1, x, e.s[Lane(n, 1)])])
  }

  // ---------------------------------------------------------------------
  // Passes
  // ---------------------------------------------------------------------

  /** The first `k` initialisation steps of a pass, lanes 0 .. k-1 in order.
      An initialisation pass never writes the buffer. */
  function InitPass(p: Primitives, e: Engine, k: nat): (e': Engine)
    requires e.WellFormed() && k <= 16
    ensures e'.WellFormed() && e'.gamma == e.gamma
    decreases |e.s| + k, 1
  {
    if k == 0 then e else LastInitStep(p, e, k)
  }

  /** Step `k - 1` of an initialisation pass, applied after the first
      `k - 1`. */
  function LastInitStep(p: Primitives, e: Engine, k: nat): (e': Engine)
    requires e.WellFormed() && 0 < k <= 16
    ensures e'.WellFormed() && e'.gamma == e.gamma
    decreases |e.s| + k, 0
  {
    InitStep(p, InitPass(p, e, k - 1), k - 1)
  }

  /** The first `k` generation steps of a pass. */
  function GenPass(p: Primitives, e: Engine, k: nat): (e': Engine)
    requires e.WellFormed() && k <= 16
    ensures e'.WellFormed()
    decreases |e.s| + k, 1
  {
    if k == 0 then e else LastGenStep(p, e, k)
  }

  /** Step `k - 1` of a generation pass, applied after the first `k - 1`. */
  function LastGenStep(p: Primitives, e: Engine, k: nat): (e': Engine)
    requires e.WellFormed() && 0 < k <= 16
    ensures e'.WellFormed()
    decreases |e.s| + k, 0
  {
    GenStep(p, GenPass(p, e, k - 1), k - 1)
  }

  /** `init_gamma`'s loop: two full initialisation passes, 32 steps. */
  function Mix(p: Primitives, e: Engine): (e': Engine)
    requires e.WellFormed()
    ensures e'.WellFormed() && e'.gamma == e.gamma
  {
    InitPass(p, InitPass(p, e, 16), 16)
  }

  /** `gamma_next`: one full generation pass, refilling the buffer. */
  function Generate(p: Primitives, e: Engine): (e': Engine)
    requires e.WellFormed()
    ensures e'.WellFormed()
  {
    GenPass(p, e, 16)
  }

  /** The engine at the end of construction from loaded lanes `s`: two
      initialisation passes, then one generation pass. */
  function Constructed(p: Primitives, s: seq<Word>): (e: Engine)
    requires |s| == 16
    ensures e.WellFormed()
  {
    Generate(p, Mix(p, Loaded(s)))
  }

  // ---------------------------------------------------------------------
  // The keystream
  // ---------------------------------------------------------------------

  /** The engine after `k` more generation passes. */
  function After(p: Primitives, e: Engine, k: nat): (e': Engine)
    requires e.WellFormed()
    ensures e'.WellFormed()
    decreases k
  {
    if k == 0 then e else Generate(p, After(p, e, k - 1))
  }

  /** The words one `next_block` call emits with the cursor at `c`, when
      `cur` holds the buffer and `next` is the engine after the refill: the
      rest of the current buffer, then the first `c` words of the new one. */
  function BlockWords(cur: Engine, next: Engine, c: nat): (ws: seq<Word>)
    requires cur.WellFormed() && next.WellFormed() && c < 16
    ensures |ws| == 16
  {
    cur.gamma[c..] + next.gamma[..c]
  }

  /** The words of `k` successive `next_block` calls starting from engine
      `e` with the cursor at `c`. */
  function Emitted(p: Primitives, e: Engine, c: nat, k: nat): (ws: seq<Word>)
    requires e.WellFormed() && c < 16
    ensures |ws| == 16 * k
    decreases k
  {
    if k == 0 then [] else Emitted(p, e, c, k - 1) + BlockWords(After(p, e, k - 1), After(p, e, k), c)
  }

  /** The keystream bytes of `k` successive `next_block` calls: each word
      little-endian, in the order emitted. */
  function Keystream(p: Primitives, e: Engine, c: nat, k: nat): (ks: seq<Byte>)
    requires e.WellFormed() && c < 16
    ensures |ks| == 128 * k
  {
    EncodeWords(Emitted(p, e, c, k))
  }
}
