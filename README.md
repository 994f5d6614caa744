# DSTU 8845:2019 ("Strumok") cipher core in Dafny

This project models `Dstu8845Core` from the Rust crate `dstu8845`. That is
the state machine of the Ukrainian standard stream cipher DSTU 8845:2019
("Strumok"), with 256-bit and 512-bit keys and a 256-bit IV.

The core keeps these fields:
- a key;
- sixteen 64-bit lanes `s`;
- a two-word register `r`;
- a sixteen-word keystream buffer `gamma`;
- a cursor `gamma_cntr` into that buffer.

Construction does the following:
- reads the key and IV bytes as little-endian words;
- loads the lanes from a fixed table of key words, masked IV words and complemented key words;
- zeroes the register;
- runs two initialisation passes of sixteen lane steps and one generation pass, which fills the buffer.

`next_block` hands out the sixteen buffer words that follow the cursor, as
128 little-endian bytes. It refills the buffer with one generation pass at
the moment the cursor reaches the end. A caller combines data with this
keystream by XOR.

The model has two layers.

- Value layer, modules `Words` and `Strumok`:
  - words are `bv64` and bytes are `bv8`, so `+` on words is Rust's wrapping add;
  - an `Engine` value holds lanes, register and buffer;
  - one function per lane step (`InitStep`, `GenStep`), one per pass (`InitPass`, `GenPass`, `Mix`, `Generate`) and one per setup table (`Setup256`, `Setup512`);
  - `Keystream` is the byte stream that successive `next_block` calls produce.
- Class layer, module `Dstu8845`:
  - the class `Dstu8845Core` keeps `s`, `r` and `gamma` as arrays and the cursor as a field, and its methods update them in place, as the crate does;
  - every method is specified through `Abs()`, the engine value its arrays hold;
  - ghost counters record how many initialisation steps and generation passes have run.

The helpers `a_mul`, `ainv_mul` and `t` are not defined in `src/lib.rs`.
They are function-valued fields of a `Primitives` datatype, so every result
holds for any choice of them. Where a proof needs inverses (injectivity of
construction), those come as a separate `Inverses` parameter that must undo
`a_mul` and `t`.

Besides the behaviour of the code, the lemmas establish the following:
- the 256-bit table is injective;
- the 512-bit table is not: key word 4 enters it only masked with IV words 1 and 3, so masking all three with the same word changes nothing;
- initialisation and generation can be run backwards when `a_mul` and `t` are invertible, so distinct loaded states give distinct constructed engines;
- a generation pass overwrites the whole buffer;
- successive blocks read the buffers of successive generation passes back to back, with no word skipped or repeated.

## Model

| member | source | states |
|---|---|---|
| Words.WrappingAddCancel | src/lib.rs:22 | `overflowing_add(..).0` loses nothing: subtracting the addend modulo 2^64 restores the other operand |
| Words.LeWordOfLeBytes | src/lib.rs:229 | reading back the eight `to_le_bytes` bytes of a word gives the word |
| Words.LeBytesOfLeWord | src/lib.rs:134 | eight bytes read as a little-endian word and written out again are the same bytes |
| Words.DecodeEncode | src/lib.rs:134-136 | decoding the little-endian encoding of a word sequence gives the words back |
| Words.EncodeDecode | src/lib.rs:134-136 | encoding the words decoded from a byte string whose length is a multiple of 8 gives the bytes back |
| Words.EncodeAppend | src/lib.rs:227-233 | the encoding of two word sequences laid end to end is the two encodings laid end to end |
| Words.EncodeWordsAt | src/lib.rs:228-232 | byte `8j + i` of the encoding is byte `i` of word `j`'s little-endian bytes, the position `next_block` writes it to |
| Words.LeBytes | src/lib.rs:229 | `to_le_bytes`: eight bytes, the low byte of the word first and the high byte last |
| Words.DecodeWords | src/lib.rs:134-136 | the key or IV bytes reinterpreted as native little-endian words: one word per eight bytes (also `src/lib.rs:178-180`) |
| Words.EncodeWords | src/lib.rs:228-233 | each word as its eight `to_le_bytes` bytes, in order: eight bytes per word |
| Words.XorBytes | src/lib.rs:107-110 | the combiner of `apply_keystream`: byte `k` of the output is `data[k] ^ ks[k]`, for every position of the data |
| Words.XorBytesAppend | src/lib.rs:361-363 | XOR with the keystream can be done piece by piece: two pieces combined with two keystream pieces give the combined whole |
| Words.XorTwice | examples/dstu8845_256.rs:12-20 | combining twice with the same keystream gives the data back |
| Words.XorZeros | src/lib.rs:361-363 | combining an all-zero buffer yields the keystream itself |
| Strumok.Lane | src/lib.rs:20-21 | the index `(n + d) % 16` stays below 16 and is lane `n` itself only when `d == 0`, so the lanes a step reads are not the lane it writes |
| Strumok.InitPass | src/lib.rs:17-27 | an initialisation pass leaves the buffer exactly as it was |
| Strumok.Mix | src/lib.rs:274-291 | the two initialisation rounds of `init_gamma` leave the buffer exactly as it was |
| Strumok.InitStep | src/lib.rs:17-27 | `gamma_init_step!` on lane `n` as a value: the lane takes `InitLane` (feedback XOR register filter of lane n+15), then `r0 := r1 + s[n+13]`, `r1 := t(r0)`; the result keeps sixteen lanes and sixteen buffer words |
| Strumok.GenStep | src/lib.rs:30-39 | `gamma_next_step!` on lane `n` as a value: the lane takes `GenLane` (the feedback alone), the register advances as in `InitStep`, and `gamma[n]` becomes `Output` of the new register, the new lane and lane n+1; the result stays well formed |
| Strumok.GenPass | src/lib.rs:248-263 | the first `k` generation steps, lanes 0..k-1 in order; the result stays well formed |
| Strumok.Generate | src/lib.rs:245-266 | `gamma_next`: all sixteen generation steps; the result stays well formed |
| Strumok.Setup256 | src/lib.rs:153-168 | the sixteen lanes `set_iv` writes for a 256-bit key, lane `i` given by the table `Lane256` |
| Strumok.Setup512 | src/lib.rs:197-212 | the sixteen lanes `set_iv` writes for a 512-bit key, lane `i` given by the table `Lane512` |
| Strumok.Loaded | src/lib.rs:138-145 | the state after the constructor's zeroed fields and the table writes: the given lanes, a zero register (also `src/lib.rs:170`) |
| Strumok.Constructed | src/lib.rs:268-294 | the state at the end of construction: two initialisation passes and one generation pass from the loaded lanes (called at `src/lib.rs:147` and `src/lib.rs:172`) |
| Strumok.After | src/lib.rs:225-243 | the engine after `k` further refills, one per `next_block` call |
| Strumok.Emitted | src/lib.rs:225-243 | the words of `k` successive `next_block` calls from cursor `c`: sixteen per call |
| Strumok.BlockWords | src/lib.rs:227-240 | a block is always sixteen words |
| Strumok.Keystream | src/lib.rs:225-243 | `k` blocks are exactly `128 k` bytes |
| SetupProps.Lanes256 | src/lib.rs:153-168 | the 256-bit table, lane by lane: `s[0] = k3 ^ iv0`, `s[1] = k2`, … `s[15] = !k0` |
| SetupProps.Setup256Inverse | src/lib.rs:153-168 | key and IV can be read back from the 256-bit loaded lanes |
| SetupProps.Setup256Injective | src/lib.rs:153-168 | two 256-bit key/IV pairs load the same lanes if and only if they are equal |
| SetupProps.Setup256IvLanes | src/lib.rs:153-168 | the IV enters only lanes 0, 2, 3 and 5: two IVs give lanes that agree everywhere else |
| SetupProps.Lanes512 | src/lib.rs:197-212 | the 512-bit table, lane by lane: `s[0] = k7 ^ iv0`, `s[3] = k4 ^ iv1`, `s[8] = k4 ^ iv3`, `s[9] = !k6`, `s[11] = !k7`, … |
| SetupProps.Setup512Inverse | src/lib.rs:197-212 | what the 512-bit lanes retain is exactly the normal form of key and IV (key word 4 cleared into IV words 1 and 3) |
| SetupProps.Setup512SameState | src/lib.rs:197-212 | two 512-bit key/IV pairs load the same lanes if and only if their normal forms agree |
| SetupProps.Setup512Shift | src/lib.rs:196-217 | masking key word 4 and IV words 1 and 3 with the same word yields the same constructed engine |
| SetupProps.Setup512IvLanes | src/lib.rs:197-212 | the IV enters only lanes 0, 3, 5 and 8: two IVs give lanes that agree everywhere else |
| EngineProps.InitStepFrame | src/lib.rs:17-27 | an initialisation step rewrites lane `n` only and never the buffer |
| EngineProps.InitStepRegister | src/lib.rs:17-27 | the new lane is `a_mul(s[n]) ^ s[n+13] ^ ainv_mul(s[n+11]) ^ (r0 + s[n+15]) ^ r1`, the new `r0` is `r1 + s[n+13]` and the new `r1` is `t(r0)` |
| EngineProps.GenStepFrame | src/lib.rs:30-39 | a generation step rewrites lane `n` and buffer word `n` and no other lane or buffer word |
| EngineProps.GenStepRegister | src/lib.rs:30-36 | the new lane is the feedback alone, with no register term, and the register advances as in initialisation |
| EngineProps.GenStepOutput | src/lib.rs:37-38 | buffer word `n` is `(r0' + s'[n]) ^ r1' ^ s[n+1]`, with the new register and the new lane |
| EngineProps.GenStepIgnoresGamma | src/lib.rs:30-39 | a generation step does not read the buffer |
| EngineProps.GenPassIgnoresGamma | src/lib.rs:248-263 | after `k` steps of a pass, buffer words `0..k` are fresh and the rest still hold whatever was there |
| EngineProps.GenerateIgnoresGamma | src/lib.rs:245-266 | `gamma_next` overwrites all sixteen buffer words: the refilled engine does not depend on the old buffer |
| EngineProps.InitStepIgnoresGamma | src/lib.rs:17-27 | an initialisation step neither reads nor writes the buffer |
| EngineProps.InitPassIgnoresGamma | src/lib.rs:274-291 | an initialisation pass started from any buffer ends in the same lanes and register, still holding that buffer |
| EngineProps.SetupIgnoresGamma | src/lib.rs:268-294 | what `init_gamma` produces does not depend on the buffer it starts with |
| EngineProps.FeedbackUndone | src/lib.rs:19-21 | with an inverse of `a_mul`, lane `n` is recovered from its feedback value and lanes `n+13` and `n+11` |
| EngineProps.InitLaneUndone | src/lib.rs:19-23 | the same holds for the initialisation lane value, the register filter removed first |
| EngineProps.InitStepUndone | src/lib.rs:17-27 | with inverses of `a_mul` and `t`, an initialisation step can be undone |
| EngineProps.InitPassUndone | src/lib.rs:274-291 | a whole initialisation pass can be undone, lanes `k-1` down to `0` |
| EngineProps.MixUndone | src/lib.rs:274-291 | the two initialisation rounds can be undone |
| EngineProps.MixInjective | src/lib.rs:274-291 | two engines mix to the same engine if and only if they are equal |
| EngineProps.GenStepUndone | src/lib.rs:30-39 | a generation step can be undone on lanes and register |
| EngineProps.GenPassUndone | src/lib.rs:248-263 | a generation pass can be undone on lanes and register |
| EngineProps.GenerateUndone | src/lib.rs:245-266 | undoing `gamma_next` restores lanes and register |
| EngineProps.ConstructedInjective | src/lib.rs:268-294 | two loaded states construct the same engine if and only if they are equal |
| StreamProps.EmittedSeamless | src/lib.rs:225-243 | the words of `k` calls from cursor `c` are exactly words `c .. c + 16k` of the first `k + 1` buffers laid end to end: none skipped, none repeated |
| StreamProps.EmittedFromStart | src/lib.rs:225-243 | from cursor 0, `k` calls emit the first `k` buffers whole and in order |
| StreamProps.AfterSplit | src/lib.rs:245-266 | `a + b` generation passes are `b` passes after the first `a` |
| StreamProps.EmittedSplit | src/lib.rs:225-243 | the words of `a + b` calls are those of `a` calls followed by those of `b` calls from the engine the first `a` leave |
| StreamProps.KeystreamNext | src/lib.rs:225-243 | call `k + 1` refills the engine once and appends the encoding of its block words to the stream |
| StreamProps.KeystreamSeamless | src/lib.rs:225-243 | the keystream is the encoding of the buffers of successive passes read from the cursor on |
| StreamProps.KeystreamSplit | src/lib.rs:225-243 | `a + b` blocks are `a` blocks followed by `b` blocks from where the first `a` leave off |
| StreamProps.KeystreamFromStart | src/lib.rs:225-243 | from cursor 0, the keystream read back as words is the first `k` buffers |
| StreamProps.FirstBlock | src/lib.rs:225-243 | from cursor 0, the first block read back as words is the current buffer |
| Dstu8845.Dstu8845Core.Abs | src/lib.rs:42-49 | the arrays hold sixteen lanes, two register words and sixteen buffer words |
| Dstu8845.Dstu8845Core.New256 | src/lib.rs:132-150 | the key field is the key bytes read as four little-endian words, and the engine is the 256-bit table of key and IV after 32 initialisation steps and one generation pass, with cursor 0 |
| Dstu8845.Dstu8845Core.New512 | src/lib.rs:176-194 | as `New256` with eight key words and the 512-bit table |
| Dstu8845.Dstu8845Core.SetIv256 | src/lib.rs:152-173 | the lanes are loaded from the 256-bit table, the register is zeroed and `init_gamma` runs, whatever the buffer held before |
| Dstu8845.Dstu8845Core.SetIv512 | src/lib.rs:196-217 | the same for the 512-bit table |
| Dstu8845.Dstu8845Core.GammaInitStep | src/lib.rs:17-27 | the arrays now hold `InitStep` of what they held, and exactly one initialisation step is counted |
| Dstu8845.Dstu8845Core.GammaNextStep | src/lib.rs:30-39 | the arrays now hold `GenStep` of what they held |
| Dstu8845.Dstu8845Core.InitGamma | src/lib.rs:268-294 | exactly 32 initialisation steps (two rounds of lanes 0..15), then one generation pass, and the cursor is 0 |
| Dstu8845.Dstu8845Core.GammaNext | src/lib.rs:245-266 | one generation pass over lanes 0..15 in order, and the cursor is 0 |
| Dstu8845.Dstu8845Core.PutChunk | src/lib.rs:230-232 | bytes `8j .. 8j + 8` of the block take the chunk and no other byte changes |
| Dstu8845.Dstu8845Core.NextBlock | src/lib.rs:225-243 | the block is the little-endian encoding of the buffer words from the cursor on, followed by the first words of the refilled buffer; exactly one generation pass runs; the cursor ends where it started and never rests at 16 |
| Stream.BlocksFor | src/lib.rs:360-363 | the number of 128-byte blocks covering `n` bytes: at least `n` bytes, and less than one block more |
| Stream.ApplyKeystream | src/lib.rs:107-110 | the output is the data XORed with the keystream from the cursor on, the core is exactly `BlocksFor(n)` generation passes further on, and the cursor is unchanged |
| Stream.CombineStep | src/lib.rs:107-110 | one more block extends the combined output by the next block of data, or by what is left of it |
| Stream.ZeroBufferKeystream | src/lib.rs:360-368 | 64 zero bytes combined with the first block, read as eight little-endian words, are the first eight buffer words |
| Stream.ZeroBuffer | src/lib.rs:360-368 | on a freshly constructed core, the 64-byte zero buffer of the test comes back as the first eight buffer words |
| Stream.RoundTrip | examples/dstu8845_256.rs:8-20 | a text XORed by one core and then by a second core built from the same key and IV is the text again, for any length and either key size |
| Stream.NewCore | src/lib.rs:132-194 | a 32-byte key builds the 256-bit core and a 64-byte key the 512-bit core, each in its constructed state |

## Left out

- The `cipher` crate plumbing, `src/lib.rs:59-130`: the size traits, `StreamCipherBackend`, `StreamCipherCore` and `StreamCipherCoreWrapper`. Of it, only one call of `apply_keystream` is modelled, by `Stream.ApplyKeystream`. The length check of `new_from_slices` is left out too; the constructors take byte sequences of exactly the right length, as the crate's array types do.
- Stream.ApplyKeystream: models a single call. The wrapper keeps the unused tail of the last block for its next call. In the model, a second call starts with a fresh block instead.
- Stream.ApplyKeystream: works on values. It takes the data as a sequence and returns the result, whereas the wrapper overwrites the caller's buffer in place. The core underneath is still the in-place class.
- The bodies of `a_mul`, `ainv_mul` and `t` are left out, because `src/utils.rs` is not part of this model. They are parameters, so every result holds for any choice of them, except the undo and injectivity lemmas of `EngineProps`. Those assume `a_mul` and `t` invertible through `Undoes(q, p)`, as the standard makes them.
- The known-answer vectors, `src/lib.rs:330-351` and `src/lib.rs:403-424`, cannot be reproduced without those bodies. `Stream.ZeroBuffer` states what the test checks: the zero buffer comes back as the constructor's first eight buffer words.
- `ZeroizeOnDrop`, `src/lib.rs:51-57`, is left out: erasing memory on drop is outside a value model.
- Key and IV generation in the examples is left out: it draws from an operating-system randomness source.
- Dstu8845.Dstu8845Core.New256, Dstu8845.Dstu8845Core.New512: the big-endian panic of `init_gamma` (`src/lib.rs:269-270`) is a precondition that the platform is little-endian. The byte-to-word reinterpretation is the explicit little-endian decode `DecodeWords`.
- Dstu8845.Dstu8845Core.SetIv256, Dstu8845.Dstu8845Core.SetIv512: the sixteen lane assignments are made as one simultaneous assignment from the tables `Lane256` and `Lane512`. They write distinct lanes and read only key and IV, so their order is immaterial. The tables transcribe the assignments lane by lane.
- Dstu8845.Dstu8845Core.GammaInitStep, Dstu8845.Dstu8845Core.GammaNextStep: lanes `n+11`, `n+13`, `n+15` and `n+1` are read before lane `n` is written, not after. `Strumok.Lane` proves these are never lane `n`, so the values read are the same.
- Dstu8845.Dstu8845Core.InitGamma, Dstu8845.Dstu8845Core.GammaNext: the sixteen unrolled macro invocations per pass are a loop over lanes 0..15, in the same order.
