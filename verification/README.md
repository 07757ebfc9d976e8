# musical-keyboard synthesis core, modelled in Dafny

This project models the synthesis core of a polyphonic keyboard synthesizer
written in Rust (`src/main.rs`). Every physical key, identified by its raw
scancode, is mapped to a pitch on an isomorphic lattice. Held keys form a
voice set. An audio callback fills the device buffer with the average of one
sine oscillator per held voice.

The model has four modules:

- `Arith` (`arith.dfy`): Rust's truncating `/` and `%` on signed integers
  (`TDiv`, `TMod`), which differ from Dafny's Euclidean operators on negative
  operands. Also an exact integer power `IPow` over the reals that allows
  negative exponents, as `f32::powi` does.
- `Pitch` (`pitch.dfy`): `scancode_to_frequency` split into `Row`, `Column` and
  `LatticeFrequency`, and the `KEY_FREQUENCIES` initialiser
  (`BuildKeyFrequencies`) with the table it must produce (`PitchTable`).
- `Voices` (`voices.dfy`): keyboard events, the `< MAX_SCANCODE` filter in
  the event handler (`Enqueue`), one receive-loop step on the voice set
  `KEYS_PRESSED` (`Apply`), its fold over the queue (`ApplyAll`), and the
  receive loop itself (`DrainQueue`). The queue is a sequence and the
  concurrent set is a `set<nat>`.
- `Synth` (`synth.dfy`): the per-frame mix (`MixFrame`, with the reference
  average `Mix`), the buffer fill (`FillBuffer`), and one callback after the
  queue has been drained (`RenderAfterEvents`).

Some parts of the program are outside the model or become parameters:

- The oscillator `sin(clock * f * TAU / rate)` is a parameter
  `osc: real -> real`. It is applied to the phase in cycles,
  `clock * f / rate`, and the predicate `Bounded(osc)` states that it stays
  within [-1, 1].
- `cpal::Sample::from` is a parameter `convert: real -> T`, applied to each
  frame's value.
- Concurrent updates of the voice set between frames appear as one voice-set
  snapshot per frame (`views` in `FillBuffer`).

Two behaviours of the code are easy to misread; the model follows the code:

- The sample clock is a local of the callback (src/main.rs:88). It restarts
  at 0 in every callback, and it is advanced before its first use, so frame
  `j` of each buffer uses clock `(j + 1) mod rate` (`FrameClock`). It does not
  persist across buffers.
- The table initialiser (src/main.rs:34-40) overwrites every one of its 64
  zero entries with the formula's frequency, and all of those are positive,
  so no entry stays 0.

Some properties of the lattice fall out of the truncating arithmetic:

- At scancode 0 the remainder `-1 % 13` is `-1`, which puts the key at
  column -5 (`ScancodeZeroLattice`).
- Scancodes 54..63 have a negative row numerator, which truncates to row 0.
  As a result all ten of them repeat the pitches of 41..50
  (`HighScancodesRepeat`).

## Model

| member | source | states |
|---|---|---|
| Arith.TDiv | src/main.rs:118 | the quotient rounds toward zero: `b*q` never overshoots `a`, falls short of it by less than `|b|`, and has the sign of `a/b` |
| Arith.TMod | src/main.rs:119 | the remainder rebuilds `a` with the quotient, is smaller than `|b|`, and never has the opposite sign to the dividend |
| Arith.TruncDivModUnique | src/main.rs:118-119 | any quotient/remainder pair that rebuilds `a` with a small remainder following `a`'s sign is exactly (TDiv, TMod), in both directions |
| Arith.TruncAgreesOnNonNegative | src/main.rs:118-119 | on a non-negative dividend and positive divisor, truncating and Euclidean division agree |
| Arith.IPow | src/main.rs:120 | `powi` of a positive base is positive for every integer exponent, negative ones included |
| Arith.IPowSucc | src/main.rs:120 | raising the exponent by one multiplies by the base, on both sides of zero |
| Pitch.Row | src/main.rs:118 | every scancode in [0, 64) lies on a row in 0..4, and scancodes 54..65 truncate to row 0 |
| Pitch.Column | src/main.rs:119 | every scancode in [0, 64) lies on a column in -5..12 |
| Pitch.LatticeFrequency | src/main.rs:120 | the frequency `100 * 1.5^row * (4/3)^column` of every lattice point is strictly positive, for negative rows and columns too |
| Pitch.ScancodeToFrequency | src/main.rs:116-121 | every scancode's frequency is strictly positive, including those with negative column exponents |
| Pitch.RowStepIsFifth | src/main.rs:120 | one row up at the same column multiplies the frequency by 3/2 |
| Pitch.ColumnStepIsFourth | src/main.rs:120 | one column right in the same row multiplies the frequency by 4/3 |
| Pitch.ScancodeZeroLattice | src/main.rs:118-119 | scancode 0 has row 4, its column remainder is -1 (a Euclidean remainder would be 12), and its column is -5 |
| Pitch.ScancodeFiveFrequency | src/main.rs:116-121 | scancode 5 has row 3 and column 0, and its frequency is exactly 337.5 Hz |
| Pitch.LatticePoint | src/main.rs:118-119 | given quotient/remainder witnesses for the two divisions, a scancode's row and column are those witnesses |
| Pitch.FifthAcrossRows | src/main.rs:116-121 | for scancodes 16..53 other than 29 and 43, scancode `k-13` is one row up at the same column, so it sounds a fifth above `k` |
| Pitch.FourthAlongRow | src/main.rs:116-121 | within each row segment, scancode `k+1` is one column right of `k` on the same row, so it sounds a fourth above `k` |
| Pitch.HighScancodesRepeat | src/main.rs:118-120 | scancodes 54..63 and 41..50 are all on row 0, and each of 54..63 has the same frequency as the scancode 13 below it |
| Pitch.PitchTable | src/main.rs:33-42 | the table `KEY_FREQUENCIES` should hold has one entry per scancode below 64, and every entry is a positive frequency |
| Pitch.BuildKeyFrequencies | src/main.rs:33-42 | the table has exactly 64 entries, entry `i` is the frequency of scancode `i`, and every entry is positive |
| Voices.Enqueue | src/main.rs:63-65 | an event reaches the queue iff it arrived and its scancode is below 64, and the queue is never longer than the input |
| Voices.EnqueueAppend | src/main.rs:63-64 | filtering commutes with concatenation, so the queue keeps arrival order |
| Voices.EnqueueKeepsAdmitted | src/main.rs:63-64 | events that are all in range pass through the filter unchanged |
| Voices.Apply | src/main.rs:74-81 | a press adds its scancode and a release removes it, with no other membership changed; pressing a held key and releasing an unheld key leave the set unchanged |
| Voices.LastState | src/main.rs:73-81 | there is no last transition for a scancode exactly when no event in the queue carries it; otherwise the result is the transition of an event carrying the scancode after which no event carries it |
| Voices.ApplyAll | src/main.rs:73-81 | consuming the queue in order changes the membership of no scancode that none of its events carries |
| Voices.ApplyAllHeld | src/main.rs:73-81 | after the queue is consumed, a scancode is held iff its last event was a press, or it had no event and was held before |
| Voices.ApplyAllAppend | src/main.rs:73-81 | consuming the queue in two batches is the same as consuming it at once |
| Voices.ApplyAllInRange | src/main.rs:63-64 | admitted events keep every member of the voice set below 64 |
| Voices.ReachableVoicesInRange | src/main.rs:43-43 | from the empty set, whatever keyboard events arrive, every held scancode is below 64 and at most 64 voices sound |
| Voices.DrainQueue | src/main.rs:72-83 | the receive loop ends with exactly the scancodes whose last event was a press, plus untouched ones already held |
| Synth.SetSumRemove | src/main.rs:93-100 | the sum over the voice set does not depend on iteration order: any voice can be taken out first |
| Synth.SetSumBounds | src/main.rs:93-100 | a sum of `n` terms, each within [-1, 1], lies within [-n, n] |
| Synth.VoiceTerm | src/main.rs:95-99 | when the oscillator stays within [-1, 1], so does every voice's term |
| Synth.Mix | src/main.rs:91-104 | the mix of no voice is silence, and the averaged mix lies within [-1, 1] whenever every voice's term does |
| Synth.MixOfTwo | src/main.rs:92-101 | two distinct voices mix to the average of their terms, not their sum |
| Synth.MixFrame | src/main.rs:91-104 | visiting the voices in any order gives the reference average; the result is 0 with no voice and lies within [-1, 1] for a bounded oscillator |
| Synth.FrameOf | src/main.rs:89 | slot `i` falls in the chunk `[j*channels, (j+1)*channels)` of its frame `j` |
| Synth.FrameOfChunk | src/main.rs:89 | every slot in chunk `j` belongs to frame `j` |
| Synth.NumFrames | src/main.rs:89 | the buffer splits into `ceil(len / channels)` frames: they cover every slot, and only the last may be short |
| Synth.FrameClock | src/main.rs:88-90 | the clock of frame `j` is always below the rate; it is `j + 1` until the rate is reached, and frame `rate - 1` wraps it to 0 |
| Synth.ClockStep | src/main.rs:90 | advancing the clock as `(clock + 1) % rate` keeps it equal to the frame count modulo the rate |
| Synth.FillBuffer | src/main.rs:87-109 | the output has the buffer's length; every slot of frame `j` holds the converted mix of frame `j`'s voices at clock `(j+1) mod rate`; all slots of a frame agree, the short final chunk included; a frame with no voice is converted silence |
| Synth.RenderAfterEvents | src/main.rs:71-109 | with the built table and the drained queue from silence, each slot holds the converted mix of the held voices at their scancodes' frequencies |

## Left out

- Audio I/O is not modelled: host, device and config acquisition, `build_output_stream`, `play()`, and the error callback's `eprintln!` (src/main.rs:17-28, 46-52, 84-113). These are calls into cpal.
- The winit event loop and `ControlFlow` handling are not modelled (src/main.rs:53-68). Only the `< MAX_SCANCODE` filter is kept.
- Each event is sent by its own spawned task (src/main.rs:64), so the runtime could in principle enqueue two events out of arrival order. The model takes the queue to hold the admitted events in arrival order.
- Concurrency is not modelled. This covers the async_std channel, `task::spawn` and the thread safety of `DashSet`. The queue is an ordered sequence, and the set is read as one snapshot per frame. Within a frame, `len()` and `iter()` are assumed to see the same set, although the receive loop could change it between the two calls.
- f32 numerics are replaced by exact reals: `sin`, `powi` rounding, and the float `% SAMPLE_RATE` on the clock. The clock is an integer. Real addition makes the mix independent of iteration order, which f32 summation is not.
- `sin` is not defined here: it is the parameter `osc`, which is applied to the phase in cycles (`clock * f / rate`) instead of radians.
- `cpal::Sample::from` is not defined here: it is the parameter `convert`, and the model says only that every slot of a frame gets the same converted value.
- The device's channel count and sample rate are taken to be positive (`Pos`). With a channel count of 0, `chunks_mut` would panic, and with a rate of 0 the float remainder would be NaN.
- Synth.VoiceTerm: a scancode without a table entry yields 0.0, which stands in for the panic of the out-of-bounds `KEY_FREQUENCIES[*scancode]` (src/main.rs:96). The requires of `MixFrame` and `FillBuffer` rule such scancodes out, and `ReachableVoicesInRange` shows that the event filter never lets one into the voice set.
- Pitch.ScancodeToFrequency: does not model `i32` overflow in `53 - scancode` for scancodes near `i32::MIN`, because the table only calls it on 0..63.
- The `u32` scancode of a keyboard event is a `nat`, because the filter only compares it against 64.
- The `Lazy` global initialisation order is not modelled. The table is built once and passed to the callback as a value.
