# Error-control codes and their transmission simulator, in Dafny

This project models the computational core of a teaching web application about error control. The application covers three codes:

- a single even-parity bit;
- the Hamming(7,4) single-error-correcting code, with layout `[p1, p2, d1, p3, d2, d3, d4]`;
- a CRC computed by modulo-2 long division, with default generator `1011` (x³ + x + 1).

The model also covers two pieces of simulation logic. The comparison page runs many random trials through all three codes and counts, per code, detected, corrected and undetected errors. The transmission animation sends a codeword over a noisy channel that spares the parity positions, in three timed steps.

Bit strings are `seq<char>` of `'0'` and `'1'`. The numeric bits that `parseInt` produces are `Bit` values 0 and 1. Every random coin (`Math.random() < errorRate`) becomes one `bool` from a sequence given as a parameter. Each expiring `setTimeout` becomes one tick of an explicit step machine.

Modules, one per concern:

- `Wrappers`: `Option` and `Result`.
- `Bits`: bit strings, parsing and printing, flips, counting ones.
- `Parity`, `Hamming`, `Crc`: the codecs of `src/utils/errorCorrection.ts`.
- `Compare`: `src/pages/Compare.tsx`.
- `DataTransmission`: `src/components/simulation/DataTransmission.tsx`.

The imperative parts of the source are methods with loops, each proved equal to a specification function. These work on arrays:

- the Hamming decoder's corrected copy;
- the CRC's padded buffer, XORed in place in two nested loops;
- `applyRandomErrors`;
- the channel's flip loop.

The simulation loop updates a local sequence of counter records, one `Record` per iteration, rather than three objects in place (see "## Left out").

The component's state is a class.

## Model

| member | source | states |
|---|---|---|
| Bits.Value | src/utils/errorCorrection.ts:30-33 | `parseInt(c, 2)` of a binary character: `'1'` reads as 1 and `'0'` as 0; `DigitsOfValues` and `ValuesOfDigits` state that it inverts `Digit` |
| Bits.Digit | src/utils/errorCorrection.ts:42 | a numeric bit prints as `'0'` or `'1'` and parses back to itself |
| Bits.Values | src/utils/errorCorrection.ts:50 | parsing a string gives one bit per character |
| Bits.Digits | src/utils/errorCorrection.ts:42 | joining bits gives a binary string of the same length |
| Bits.DigitsOfValues | src/utils/errorCorrection.ts:50 | parsing then joining a binary string gives it back |
| Bits.ValuesOfDigits | src/utils/errorCorrection.ts:82 | joining then parsing bits gives them back |
| Bits.Flip | src/pages/Compare.tsx:99 | the flip of a character is a binary digit different from it |
| Bits.FlipTwice | src/pages/Compare.tsx:99 | flipping a binary digit twice restores it |
| Bits.FlipAt | src/utils/errorCorrection.ts:77 | flipping at `i` changes position `i` and keeps every other position |
| Bits.Zeros | src/pages/Compare.tsx:47 | the `padEnd` filler has the requested length and only `'0'` characters |
| Bits.Xor | src/utils/errorCorrection.ts:106 | `(a ^ b) % 2` on numeric bits: 0 when they agree, 1 when they differ |
| Bits.CountOnes | src/utils/errorCorrection.ts:10 | the number of ones never exceeds the length |
| Bits.CountOnesAppend | src/utils/errorCorrection.ts:10 | ones of a concatenation add up |
| Bits.CountOnesSingleton | src/utils/errorCorrection.ts:10 | a single character counts 1 exactly when it is `'1'` |
| Bits.CountOnesFlipAt | src/utils/errorCorrection.ts:17-18 | one flip changes the number of ones by exactly one, up for a `'0'` and down for a `'1'` |
| Parity.AddParityBit | src/utils/errorCorrection.ts:8-13 | the result is one longer, keeps the data as its prefix, ends in a binary digit and passes the parity check, for every input including the empty string |
| Parity.CheckParity | src/utils/errorCorrection.ts:15-19 | a string passes when it holds an even number of `'1'` characters; `CheckMeansParityBit`, `SingleFlipDetected` and `DoubleFlipUndetected` state what that accepts |
| Parity.CheckMeansParityBit | src/utils/errorCorrection.ts:8-19 | a binary word passes `checkParity` if and only if its last bit is the parity bit `addParityBit` appends to the rest |
| Parity.SingleFlipDetected | src/utils/errorCorrection.ts:15-19 | flipping any one bit of an encoded string makes the check fail |
| Parity.DoubleFlipUndetected | src/utils/errorCorrection.ts:15-19 | flipping two distinct bits of an encoded string leaves the check passing |
| Parity.TwoFlipExample | src/utils/errorCorrection.ts:8-19 | `"1010"` encodes to `"10100"`; flips at 0 and 1 give `"01100"`, which passes |
| Hamming.DataBits | src/utils/errorCorrection.ts:81-82 | the data bits are positions 2, 4, 5 and 6 of the word |
| Hamming.ParityCheck | src/utils/errorCorrection.ts:62-64 | the mod-2 sum of the numeric bits at four positions; `SumMod2` states that it is their XOR |
| Hamming.S1 | src/utils/errorCorrection.ts:62 | `s1`: the check over p1, d1, d2 and d4, positions 0, 2, 4 and 6 |
| Hamming.S2 | src/utils/errorCorrection.ts:63 | `s2`: the check over p2, d1, d3 and d4, positions 1, 2, 5 and 6 |
| Hamming.S3 | src/utils/errorCorrection.ts:64 | `s3`: the check over p3, d2, d3 and d4, positions 3, 4, 5 and 6 |
| Hamming.Syndrome | src/utils/errorCorrection.ts:61-66 | `s1 + 2·s2 + 4·s3` lies in 0..7 |
| Hamming.EncodeHamming | src/utils/errorCorrection.ts:22-43 | fails exactly when the input is not 4 bits; otherwise a 7-bit word with the data at 2, 4, 5, 6 and syndrome 0, so that p1, p2 and p3 are the stated XORs |
| Hamming.HammingDecoding | src/utils/errorCorrection.ts:45-89 | fails exactly when the input is not 7 bits; otherwise `errorPosition` is in -1..6, `corrected` holds iff `errorPosition >= 0`, and the data is 4 bits |
| Hamming.DecodeHamming | src/utils/errorCorrection.ts:45-89 | the copy-and-flip-in-place decoder computes `HammingDecoding` |
| Hamming.DataBitsOfValues | src/utils/errorCorrection.ts:82 | joining the parsed data positions gives the data characters |
| Hamming.SumMod2 | src/utils/errorCorrection.ts:36-38 | a sum of four bits mod 2 is their XOR |
| Hamming.ParityCheckOfFlip | src/utils/errorCorrection.ts:62-64 | a flip inside a check's positions toggles that check; a flip outside leaves it |
| Hamming.SyndromeOfFlip | src/utils/errorCorrection.ts:62-66 | a flip at `i` toggles exactly the checks that cover `i` |
| Hamming.FlipAtSyndromeClears | src/utils/errorCorrection.ts:73-79 | flipping the position a non-zero syndrome names yields syndrome 0 |
| Hamming.ZeroSyndromeIsCodeword | src/utils/errorCorrection.ts:30-66 | every 7-bit word with syndrome 0 is the encoding of its data bits |
| Hamming.HammingRoundTrip | src/utils/errorCorrection.ts:22-89 | decoding an encoded word returns the data, `corrected = false`, `errorPosition = -1` |
| Hamming.HammingCorrectsSingleError | src/utils/errorCorrection.ts:61-88 | for every data word and every `i` in 0..6, decoding with bit `i` flipped returns the data, `corrected = true`, `errorPosition = i` |
| Hamming.DecodingFindsNearestCodeword | src/utils/errorCorrection.ts:61-88 | for any 7 bits, the decoded data encodes to the received word, or to it with the reported bit flipped |
| Hamming.DoubleFlipSyndrome | src/utils/errorCorrection.ts:61-66 | two distinct flips of a codeword give a non-zero syndrome naming a third position |
| Hamming.DoubleErrorMiscorrected | src/utils/errorCorrection.ts:61-88 | two distinct flips are reported as corrected, at neither flipped position, and the data returned differs from the data sent |
| Hamming.WorkedExample | src/utils/errorCorrection.ts:22-89 | `"1011"` encodes to `"0110011"`; `"0100011"` decodes to `"1011"` with position 2 corrected |
| Crc.ZeroBits | src/utils/errorCorrection.ts:99 | `Array(n).fill(0)` has `n` zero bits |
| Crc.XorBits | src/utils/errorCorrection.ts:106 | bitwise XOR keeps the length |
| Crc.XorInto | src/utils/errorCorrection.ts:105-107 | XORing the generator into a window keeps the buffer's length |
| Crc.Divide | src/utils/errorCorrection.ts:102-108 | the division keeps the buffer's length |
| Crc.Step | src/utils/errorCorrection.ts:103-107 | one division step keeps the buffer's length |
| Crc.Remainder | src/utils/errorCorrection.ts:92-112 | the CRC is binary and has one bit fewer than the generator, or as many bits as the data for a one-bit generator, where `slice(-0)` keeps everything |
| Crc.CalculateCrc | src/utils/errorCorrection.ts:92-112 | the in-place nested-loop division computes `Remainder` |
| Crc.DivideInPlace | src/utils/errorCorrection.ts:102-108 | the outer loop leaves the buffer equal to `Divide` of its old contents |
| Crc.XorGenerator | src/utils/errorCorrection.ts:105-107 | the inner loop leaves the buffer equal to `XorInto` of its old contents |
| Crc.EncodeCrc | src/utils/errorCorrection.ts:114-117 | the encoded message is binary, begins with the data, and is longer by one bit fewer than the generator for a generator of two or more bits |
| Crc.AllZeros | src/utils/errorCorrection.ts:123 | `every(bit => bit === '0')`: every character is `'0'` |
| Crc.CheckCrc | src/utils/errorCorrection.ts:119-124 | a message passes when the CRC recomputed over all of it is all `'0'`s; `CrcRoundTrip` states that every encoded message passes |
| Crc.DivideSplit | src/utils/errorCorrection.ts:102-108 | dividing over `[i, n)` is dividing over `[i, m)` and then over `[m, n)` |
| Crc.DivideZeros | src/utils/errorCorrection.ts:102-108 | an all-zero buffer divides to itself |
| Crc.StepExtend | src/utils/errorCorrection.ts:103-107 | a step leaves bits beyond its window untouched |
| Crc.DivideExtend | src/utils/errorCorrection.ts:102-108 | bits beyond the division's reach ride along unchanged |
| Crc.XorCommutes | src/utils/errorCorrection.ts:106 | XORing two bits into a third gives the same result in either order |
| Crc.StepXor | src/utils/errorCorrection.ts:103-107 | a pattern that is zero at the step's position passes through the step |
| Crc.DivideXor | src/utils/errorCorrection.ts:102-108 | linearity: a pattern that is zero over the divided positions passes through the whole division |
| Crc.DivideClears | src/utils/errorCorrection.ts:102-108 | with a leading 1 in the generator, every divided position ends up 0 |
| Crc.XorBitsSelf | src/utils/errorCorrection.ts:106 | a sequence XORed with itself is all zeros |
| Crc.ValuesAppend | src/utils/errorCorrection.ts:94 | parsing a concatenation is concatenating the parses |
| Crc.XorPattern | src/utils/errorCorrection.ts:106 | XORing zeros, then the CRC, then zeros onto the twice-padded data gives the data, the CRC, then zeros |
| Crc.DivideOnFromZeros | src/utils/errorCorrection.ts:102-108 | once a prefix of steps leaves only zeros, the remaining steps change nothing |
| Crc.DividedPadded | src/utils/errorCorrection.ts:97-111 | dividing the padded data clears the data positions; the CRC sits behind them |
| Crc.DividedTwicePadded | src/utils/errorCorrection.ts:97-111 | the twice-padded data divides to zeros, then the CRC, then zeros |
| Crc.DividedEncoded | src/utils/errorCorrection.ts:114-122 | data followed by its CRC, padded, divides to all zeros |
| Crc.RemainderValues | src/utils/errorCorrection.ts:110-111 | the CRC, parsed back, is the tail of the divided buffer |
| Crc.DigitsOfZeros | src/utils/errorCorrection.ts:123 | zero bits print as a string that is all `'0'` |
| Crc.RemainderOfDivided | src/utils/errorCorrection.ts:110-111 | the CRC is the buffer's tail behind the data, or the whole buffer for a one-bit generator |
| Crc.ZeroDivisionPasses | src/utils/errorCorrection.ts:119-124 | a message whose padded division leaves only zeros passes `checkCRC` |
| Crc.EncodedDivides | src/utils/errorCorrection.ts:114-122 | the encoded message, parsed and padded, divides to all zeros |
| Crc.CrcRoundTrip | src/utils/errorCorrection.ts:114-124 | for a generator of at least two bits with a leading 1, every freshly encoded message passes `checkCRC` |
| Crc.DefaultCrcRoundTrip | src/utils/errorCorrection.ts:92-124 | with the default generator `'1011'` of `calculateCRC`, `encodeCRC` and `checkCRC`, encoding adds three bits and every encoded binary message passes the check |
| Compare.WithErrors | src/pages/Compare.tsx:95-103 | the channel output has the input's length |
| Compare.ApplyRandomErrors | src/pages/Compare.tsx:95-103 | the in-place loop returns a string of the same length that differs from the input exactly where the draw succeeded |
| Compare.NormaliseForHamming | src/pages/Compare.tsx:43-48 | always 4 characters: the input's first four, or the input padded on the right with `'0'`, binary when the input is |
| Compare.ParityOutcome | src/pages/Compare.tsx:59-69 | parity never counts a correction |
| Compare.HammingSent | src/pages/Compare.tsx:42-49 | the Hamming codeword is 7 bits with syndrome 0 carrying the normalised payload |
| Compare.HammingOutcome | src/pages/Compare.tsx:60-79 | a correction or a detection is counted only when the decoder reported a correction |
| Compare.CrcOutcome | src/pages/Compare.tsx:61-87 | CRC never counts a correction |
| Compare.Judge | src/pages/Compare.tsx:54-87 | of one trial's three outcomes, only Hamming's can be a correction |
| Compare.JudgeAll | src/pages/Compare.tsx:35-88 | one outcome per trial, none of them a parity or CRC correction |
| Compare.Initial | src/pages/Compare.tsx:28-32 | three counter records, all nine counters zero |
| Compare.Count | src/pages/Compare.tsx:66-86 | counting an outcome keeps the code's name, raises the total by one unless the trial was clean, and raises `corrected` only for a correction |
| Compare.Total | src/pages/Compare.tsx:28-32 | the sum of one code's three counters; `RunSimulation` bounds it by the number of trials |
| Compare.Record | src/pages/Compare.tsx:63-87 | one trial keeps the names, raises each code's total by at most one, and leaves parity's and CRC's `corrected` alone unless they corrected |
| Compare.Totals | src/pages/Compare.tsx:35-88 | each code's total is at most the number of trials; with no parity or CRC correction among the outcomes their `corrected` counters stay 0 |
| Compare.TotalsKeepNames | src/pages/Compare.tsx:28-32 | the counters stay named Parity, Hamming, CRC, in that order |
| Compare.ParityTrial | src/pages/Compare.tsx:40-69 | the parity block of the loop computes `ParityOutcome` |
| Compare.HammingTrial | src/pages/Compare.tsx:43-79 | the Hamming block of the loop computes `HammingOutcome` |
| Compare.CrcTrial | src/pages/Compare.tsx:51-87 | the CRC block of the loop computes `CrcOutcome` |
| Compare.RunTrial | src/pages/Compare.tsx:36-87 | one loop iteration computes the trial's three outcomes |
| Compare.RunSimulation | src/pages/Compare.tsx:24-92 | the counters are those of the first `iterations` trials (none for a non-positive count); each code's total is at most the number of trials; parity's and CRC's `corrected` stay 0 |
| Compare.JudgeAllStep | src/pages/Compare.tsx:35-88 | one more iteration appends its trial's outcomes |
| Compare.TotalsAppend | src/pages/Compare.tsx:35-88 | counting one more outcome is recording it on the counters so far |
| Compare.CountTrue | src/pages/Compare.tsx:98 | no more flips than draws |
| Compare.NoFlipsNoCount | src/pages/Compare.tsx:97-101 | zero flips exactly when no draw succeeds |
| Compare.OnesAfterErrors | src/pages/Compare.tsx:95-103 | the parity of the number of ones changes with the parity of the number of flips |
| Compare.ParityDetectsOddFlips | src/pages/Compare.tsx:54-64 | after the channel, the parity check passes exactly when an even number of bits was flipped |
| Compare.PrefixUntouched | src/pages/Compare.tsx:59-61 | `slice(0, n)` of the received word still equals the payload exactly when no draw among the first `n` succeeded |
| Compare.ParityOutcomeByFlips | src/pages/Compare.tsx:54-69 | parity counts nothing unless a payload bit was hit (so a check-bit-only flip counts nothing), then a detection for an odd number of flips and a miss for an even number |
| Compare.ParityMissNeedsTwoFlips | src/pages/Compare.tsx:64-69 | a parity miss needs at least two flips |
| Compare.CrcCountsOnlyPayloadHits | src/pages/Compare.tsx:81-87 | CRC counts something exactly when a payload bit was hit |
| Compare.HammingSlicesAreData | src/pages/Compare.tsx:60 | `slice(2, 3) + slice(4, 7)` are the word's data bits |
| Compare.HammingSingleFlipCorrected | src/pages/Compare.tsx:72-74 | exactly one flipped bit of the Hamming codeword is counted as corrected |
| Compare.HammingDoubleFlipMiscorrected | src/pages/Compare.tsx:72-76 | exactly two flipped bits are counted as detected, never as corrected |
| Compare.QuietTrialCountsNothing | src/pages/Compare.tsx:54-87 | a trial in which no draw succeeds is counted nowhere |
| Compare.QuietRunCountsNothing | src/pages/Compare.tsx:28-88 | if no draw succeeds in any trial, all nine counters stay 0 |
| DataTransmission.Hit | src/components/simulation/DataTransmission.tsx:46 | a position is flipped when its draw succeeds and it is not listed in `parityBits` |
| DataTransmission.Received | src/components/simulation/DataTransmission.tsx:42-50 | same length; a position changes exactly when its draw succeeds and it is not a parity position; parity positions never change |
| DataTransmission.ErrorsUpTo | src/components/simulation/DataTransmission.tsx:43-50 | the recorded indices are in range and strictly increasing |
| DataTransmission.ErrorsAreHits | src/components/simulation/DataTransmission.tsx:45-50 | an index is recorded exactly when it was hit |
| DataTransmission.ErrorsAreChanges | src/components/simulation/DataTransmission.tsx:45-50 | the recorded indices are exactly the positions where the received word differs |
| DataTransmission.QuietChannel | src/components/simulation/DataTransmission.tsx:45-50 | with no successful draw the word arrives intact and no error is recorded |
| DataTransmission.SimulateChannel | src/components/simulation/DataTransmission.tsx:42-50 | the in-place flip loop returns `Received` and `ErrorsUpTo` |
| DataTransmission.Start | src/components/simulation/DataTransmission.tsx:72-77 | starting means sending, step 0, a timer scheduled |
| DataTransmission.TickAsWritten | src/components/simulation/DataTransmission.tsx:27-70 | as written, the call-back fires on any expiry at step 2 that is not idle, and leaves the status complete |
| DataTransmission.TickCorrected | src/components/simulation/DataTransmission.tsx:27-70 | corrected, the call-back fires only on leaving step 2 of a transmission in progress, which then becomes complete with nothing scheduled |
| DataTransmission.RunAsWritten | src/components/simulation/DataTransmission.tsx:27-70 | no more call-backs than expiries |
| DataTransmission.RunCorrected | src/components/simulation/DataTransmission.tsx:27-70 | no more call-backs than expiries |
| DataTransmission.Quiescent | src/components/simulation/DataTransmission.tsx:27-70 | with no timer scheduled nothing changes and nothing fires |
| DataTransmission.RefiresAfterComplete | src/components/simulation/DataTransmission.tsx:61-70 | as written, a transmission ends complete after calling back twice |
| DataTransmission.FiresOnce | src/components/simulation/DataTransmission.tsx:32-69 | corrected, the steps go 0, 1, 2, then complete, and the call-back fires exactly once, on the third expiry |
| DataTransmission.Transmission.constructor | src/components/simulation/DataTransmission.tsx:22-25 | idle at step 0, showing the codeword, no errors |
| DataTransmission.Transmission.StartTransmission | src/components/simulation/DataTransmission.tsx:72-77 | status sending, step 0, no errors, received word reset to the codeword |
| DataTransmission.Transmission.Expire | src/components/simulation/DataTransmission.tsx:27-69 | one expiry follows `TickCorrected`; leaving step 1 installs the channel's word and errors; leaving step 2 hands over the received word and errors; the class invariant holds throughout |

## Left out

- `generateRandomData` and every `Math.random()` comparison: floating-point randomness. Each trial's payload and each coin are parameters instead.
- The percentages and `Math.round` on the comparison page, the chart data, the colours of the counter records, and all JSX and page glue: presentation only. The name in `TestResult.method` is the `Code` datatype.
- `setTimeout` delays, timer cleanup and React's scheduling and batching. Only the order of the steps is kept: one tick per expiring timer, and a pending flag for whether the effect has scheduled one.
- DataTransmission.Transmission.Expire: follows the corrected machine (see Findings), not the effect as written.
- DataTransmission.Transmission.Expire: does not model a change of props during a transmission. In particular, a new `onTransmissionComplete` or `parityBits` identity re-runs the effect.
- `parseInt` of characters other than `'0'` and `'1'` (NaN): inputs are restricted to binary strings.
- Crc.CalculateCrc: requires a non-empty generator. With an empty one the source's `Array(-1)` throws a RangeError from the runtime, not an error of its own. The source never checks the generator's leading bit either, so the round trip requires a leading `'1'` and at least two bits.
- Compare.RunSimulation: payloads may have any length. The page draws every payload with the same `dataLength`, which is a special case.
- Compare.RunSimulation: the source bumps the fields of three fresh counter objects in place. The model updates a local sequence of values through `Record`, which is what those three increments compute. Nothing else can see the fresh objects during the loop, so no aliasing is lost.
- CRC burst-error detection: not stated. Only the round trip and the length of the CRC are proved.

## Findings

| source | as written | input that shows it | evidently intended | confidence | as-written member | corrected member |
|---|---|---|---|---|---|---|
| src/components/simulation/DataTransmission.tsx:61-70 | The effect still runs when `status` becomes `'complete'` with `currentStep` at 2, so it schedules the completion timer again and `onTransmissionComplete` is called a second time. With the pages' call-backs the call still happens exactly twice: the second call hands the parent the same values as the first, so nothing re-renders and no third timer is scheduled. | `startTransmission()`, then four timer expiries with the props unchanged | one call of `onTransmissionComplete` per transmission | medium, not executed | DataTransmission.RefiresAfterComplete | DataTransmission.FiresOnce |
