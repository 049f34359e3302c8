# Snowflake id generator, modelled in Dafny

This project models the Snowflake identifier generator of the id service
(`service/id_service/server/snowflake_id_generator.go`) and the manager that
dispatches to it (`service/id_service/server/id_generator_manager.go`).

A generator packs four fields into one 64-bit identity:
- the milliseconds passed since 2024-07-27T00:00Z (`SystemStartTime`, 1722038400000);
- a data-center id;
- a service id;
- a per-millisecond sequence number.

What the model covers:
- **Construction.** `NewSnowflakeIdGenerator` checks three bit widths and derives four offsets and four maxima.
- **Generate.** `Generate` is a state machine over `curTimestamp` and `curId`. It rejects a clock that went backwards and bumps the sequence within a millisecond. When the sequence is used up, it restarts the sequence and waits for the runner to store a new timestamp. It adopts a newer millisecond, checks for timestamp exhaustion, and ORs the shifted fields together.
- **Runner.** The background runner stores the clock reading into `curTimestamp` on every tick.
- **Manager.** The manager selects the generator by the name "snowflake".

Modules, one per file:
- `Uint64` (`uint64.dfy`): Go's `uint64`, on integers. `+` and `-` wrap modulo 2^64. `<<` drops bits past bit 63, so a count of 64 or more gives 0. `>>`, `|` and `&` are also defined.
- `Errors` (`errors.dfy`): one constructor per error message, plus one for the run-time panic of a negative shift.
- `Decimal` (`decimal.dfy`): decimal rendering, for `String`.
- `Snowflake` (`snowflake.dfy`): the configuration, the identity, the `SnowflakeIdGenerator` class and its constructor function, and `GenerateStep`. `GenerateStep` is the specification of `Generate`: the method's postcondition ties the new fields and the result to it.
- `Layout` (`layout.dfy`): reading the fields back out of a packed word.
- `SnowflakeProperties` (`snowflake_properties.dfy`): what one call guarantees, the tests' mask checks, and the failures of the code's layout.
- `Trace` (`trace.dfy`): runs of calls and ticks, and uniqueness of the identities a run hands out.
- `IntendedLayout` (`intended_layout.dfy`): the layout the comment and the tests expect, with its guarantees.
- `Manager` (`manager.dfy`): `IdGeneratorManager`, the runner, and `NewIdGeneratorManager`.

Modelling decisions:
- **Clock readings are parameters.** `time.Now()` becomes the argument `now`.
- **The busy-wait consumes ticks.** The wait at lines 104-108 reads a sequence `ticks`: the timestamps the runner stores, one per poll. The wait ends at the first one that differs from `now`.
- **A call must be able to return.** `Generate` requires that some tick differs from `now` when the sequence is used up; the code needs the runner to advance for the same reason. This requirement is `CanComplete`.
- **The generator follows the code's arithmetic.** It does not follow the layout comment at snowflake_id_generator.go:11:
  - The service-id and data-center offsets add the width of their own field (lines 60-61), and the timestamp offset adds the data-center width a second time (line 62). So for 42/5/5 the service id sits at bit 17, the data center at 22 and the timestamp at 27.
  - The comment at line 11 stacks the fields directly on one another, and the test's masks at test/id_service/server/snowflake_id_generator_test.go:40 and :49 read the data center at bit 17 and the service id at bit 12. Both give the offsets 22/17/12 for 42/5/5.
  - The exhaustion check is the strict `>` of line 116, although `maximumTimestamp` (line 64) is an exclusive bound like `maximumId`, which line 100 compares with `>=`.
  - The exhaustion error leaves the state already updated.
- **The width sum is not checked.** The code checks each width on its own (lines 47-55) and never checks their sum. Widths that each pass `checkBitNum` but add up to more than 64 make line 67 shift by a negative count, which panics in Go. The model returns the separate error `NegativeShiftCount` for this.

  `IntendedLayout` defines the layout of the comment and the test's masks, and the check with `>=`, beside the code's own.
- **The sequence invariant.** It is `curId == 0 || curId < maximumId`: when all three widths are 0, `maximumId` is `1 << 64`, which is 0.
- **Duplicates need a clock going back.** A runner tick that stores a reading behind the stored timestamp defeats the clock check (`Trace.RegressedTickRepeatsId`). So uniqueness is proved for runs whose clock does not go back.

## Model

| member | source | states |
|---|---|---|
| Snowflake.NewConfiguration | service/id_service/server/snowflake_id_generator.go:45-67 | fails with the illegal-width error exactly when a width is outside [0, 64]; fails with the negative-shift panic exactly when the widths pass but add up to more than 64; succeeds exactly when all three widths pass and add up to at most 64, and then the offsets are 64-t-d-s, +s, +d, +d, and each maximum is 2^width mod 2^64 with maximumId = 2^idOffset |
| Snowflake.NewSnowflakeIdGenerator | service/id_service/server/snowflake_id_generator.go:45-82 | succeeds exactly when the configuration does, with the same error otherwise; a new generator holds that configuration, the supplied clock reading, sequence 0 and both ids 0 |
| Snowflake.SnowflakeIdGenerator.constructor | service/id_service/server/snowflake_id_generator.go:69-78 | stores the configuration and the clock reading; sequence, data-center id and service id start at 0 |
| Snowflake.SnowflakeIdGenerator.Generate | service/id_service/server/snowflake_id_generator.go:85-127 | keeps the sequence in range; the new timestamp, the new sequence and the result are exactly those of `GenerateStep` on the old state |
| Snowflake.SnowflakeIdGenerator.Tick | service/id_service/server/id_generator_manager.go:64-66 | stores the reading as the current timestamp; the sequence is unchanged |
| Snowflake.SnowflakeIdentity.Value | service/id_service/server/snowflake_id_generator.go:129-131 | the word returned determines the identity |
| Snowflake.SnowflakeIdentity.String | service/id_service/server/snowflake_id_generator.go:133-135 | a canonical decimal numeral (digits only, no leading zero) that parses back to `Value()` |
| Decimal.RenderInjective | service/id_service/server/snowflake_id_generator.go:133-135 | distinct values print differently |
| Snowflake.WaitFor | service/id_service/server/snowflake_id_generator.go:104-108 | the wait ends on a stored timestamp that differs from `now` |
| Snowflake.WaitForIsFirst | service/id_service/server/snowflake_id_generator.go:104-108 | it is the first such timestamp: all values stored before it equal `now` |
| Layout.PackIsSum | service/id_service/server/snowflake_id_generator.go:120-124 | when each field fits below the next field's offset, the ORs and shifts lose nothing: the word is the fields stacked by addition |
| Layout.UnpackPack | service/id_service/server/snowflake_id_generator.go:120-124 | round trip: fields that fit are read back unchanged from the packed word |
| Layout.PackMonotone | service/id_service/server/snowflake_id_generator.go:120-124 | with both ids fixed, a later (timestamp, sequence) pair packs to a strictly larger word |
| Layout.MaskedField | test/id_service/server/snowflake_id_generator_test.go:37-53 | the tests' `(id >> off) & 0x1F` is the five bits of the word starting at bit off |
| SnowflakeProperties.ReferenceConfiguration | service/id_service/server/snowflake_id_generator.go:59-67 | widths 42/5/5 are accepted, with maxima 2^42, 32, 32, 4096 and offsets 27, 22, 17, 12 |
| SnowflakeProperties.ShlOneBelow | service/id_service/server/snowflake_id_generator.go:64-67 | a maximum `1 << n` truncated to 64 bits is at most 2^n |
| SnowflakeProperties.SequenceFits | service/id_service/server/snowflake_id_generator.go:97-102 | a sequence number in range is below 2^idOffset, hence below the service field |
| SnowflakeProperties.AsWrittenLayout | service/id_service/server/snowflake_id_generator.go:59-62 | for all accepted widths: the data-center field ends where the timestamp starts; the timestamp field fits below bit 64 exactly when the data-center width is 0; the service and data-center fields overlap exactly when 0 < d < s |
| SnowflakeProperties.OverlapCollision | service/id_service/server/snowflake_id_generator.go:120-124 | with widths 42/1/5, data center 1 and service 2 pack to the same word |
| SnowflakeProperties.GenerateErrors | service/id_service/server/snowflake_id_generator.go:91-118 | the clock-backwards error happens exactly when the stored timestamp is later than `now`, and then the state is unchanged; the exhaustion error happens exactly when the check passed and the new timestamp is more than `maximumTimestamp` past the epoch; otherwise the call succeeds |
| SnowflakeProperties.GenerateResult | service/id_service/server/snowflake_id_generator.go:115-126 | a success returns the passed time, both ids and the new sequence number, shifted and ORed together |
| SnowflakeProperties.SequenceStaysInRange | service/id_service/server/snowflake_id_generator.go:97-113 | a call keeps the sequence number in range |
| SnowflakeProperties.SameMillisecond | service/id_service/server/snowflake_id_generator.go:97-100 | in the same millisecond the sequence goes up by exactly one, without wrapping, while it stays below `maximumId` |
| SnowflakeProperties.SequenceExhausted | service/id_service/server/snowflake_id_generator.go:97-109 | when the sequence is used up it restarts at 0 and the timestamp becomes the first stored value that differs from `now`; it is later than `now` when no stored value is behind `now` |
| SnowflakeProperties.StalledWaitNeverEnds | service/id_service/server/snowflake_id_generator.go:97-108 | for 42/5/5, the call after sequence number 4095 in one millisecond overflows, and it cannot complete when every stored value seen while waiting equals `now` |
| SnowflakeProperties.NewerMillisecond | service/id_service/server/snowflake_id_generator.go:110-113 | a later `now` is adopted with the sequence at 0 |
| SnowflakeProperties.TimestampNeverDecreases | service/id_service/server/snowflake_id_generator.go:93-113 | the stored timestamp never decreases across a call, and is at least `now` after a call that passed the clock check, when no stored value is behind `now` |
| SnowflakeProperties.ExhaustionKeepsNewState | service/id_service/server/snowflake_id_generator.go:110-118 | a call can fail with the exhaustion error after it has already changed timestamp and sequence: nothing is rolled back |
| SnowflakeProperties.ReferencePack | service/id_service/server/snowflake_id_generator.go:120-124 | for 42/5/5 with both ids 0 the identity is the passed time's low 37 bits above bit 27, plus the sequence number |
| SnowflakeProperties.ReferenceMasksZero | test/id_service/server/snowflake_id_generator_test.go:37-53 | every identity the 42/5/5 generator returns with both ids 0 passes both mask checks of the test, whatever the clock |
| SnowflakeProperties.MasksMisreadServiceId | test/id_service/server/snowflake_id_generator_test.go:37-53 | in the code's layout, service id 1 reads back through the test's masks as data center 1 and service 0 |
| SnowflakeProperties.ReferenceTimestampWraps | service/id_service/server/snowflake_id_generator.go:115-124 | 2^37 ms after the epoch the 42/5/5 generator returns the same identity as in the epoch's first millisecond |
| Trace.CallMovesForward | service/id_service/server/snowflake_id_generator.go:93-113 | with a clock that does not go back, a call moves (timestamp, sequence) strictly forward |
| Trace.KeyMonotone | service/id_service/server/snowflake_id_generator.go:115-124 | inside the window where the fields fit, a later state packs to a larger word |
| Trace.IssuedIncreasing | test/id_service/server/snowflake_id_generator_test.go:25-60 | in any run of calls and ticks with a clock that does not go back and stays in that window, the identities handed out strictly increase |
| Trace.ReferenceIdsUnique | test/id_service/server/snowflake_id_generator_test.go:25-60 | with 42/5/5 and both ids 0, no identity repeats during the 2^37 ms after the epoch |
| Trace.RegressedTickRepeatsId | service/id_service/server/id_generator_manager.go:64-66 | in every configuration, after a call has stored `now`, a tick storing the earlier timestamp makes the next call at `now` return the same identity again |
| IntendedLayout.IntendedConfiguration | service/id_service/server/snowflake_id_generator.go:47-67 | the same two errors under the same conditions, and success exactly when the widths pass and add up to at most 64; each offset is the previous one plus the width of the field below it, and the timestamp field ends exactly at bit 64 |
| IntendedLayout.IntendedReferenceConfiguration | service/id_service/server/snowflake_id_generator.go:11 | for 42/5/5 the intended offsets are 22, 17, 12 |
| IntendedLayout.IntendedRoundTrip | service/id_service/server/snowflake_id_generator.go:11 | in the intended layout every field within its width is read back unchanged |
| IntendedLayout.IntendedStepRoundTrip | service/id_service/server/snowflake_id_generator.go:115-124 | a success of the corrected `Generate` yields a word from which passed time, ids and sequence number are read back |
| IntendedLayout.IntendedIdsIdentifyState | service/id_service/server/snowflake_id_generator.go:115-124 | two successes of the corrected `Generate` with equal identities had equal passed time and sequence number |
| IntendedLayout.TestMasksRecoverIds | test/id_service/server/snowflake_id_generator_test.go:37-53 | in the intended 42/5/5 layout the test's masks read back the data-center id and the service id |
| IntendedLayout.StrictCheckAdmitsWrap | service/id_service/server/snowflake_id_generator.go:115-118 | with the code's `>`, a passed time of 2^42 is accepted and, in the intended layout, repeats the epoch's identity; the corrected check rejects it |
| Manager.IdGeneratorManager.Generate | service/id_service/server/id_generator_manager.go:15-26 | "snowflake" gives exactly the generator's `Generate` result and state change; any other name gives the no-such-algorithm error and leaves the generator untouched |
| Manager.SnowflakeRunner | service/id_service/server/id_generator_manager.go:54-69 | a non-Snowflake generator fails with the illegal-type error; otherwise the runner keeps running, each tick stores its reading, and the sequence number and ids are unchanged |
| Manager.NewIdGeneratorManager | service/id_service/server/id_generator_manager.go:72-82 | never fails; the generator has the 42/5/5 configuration, the supplied clock reading, sequence 0 and both ids 0 |

## Left out

- `IdGeneratorManager.Run` (id_generator_manager.go:29-52): its goroutines, channels and signal wait are concurrency, which this model does not capture.
- The ticker cadence (id_generator_manager.go:61): only the body of one tick is modelled.
- The runner's infinite loop: it is modelled over a finite sequence of readings, after which the runner reports `Running`.
- The two mutexes and `runtime.Gosched`: `Generate` and `Tick` are atomic methods. Interleavings are modelled at event granularity by `Trace.Event`, plus the ticks a waiting call reads.
- `time.Now` and `time.Date`: they become clock-reading parameters and the epoch constant.
- `fmt.Sprintf("%d")`: it is modelled as decimal rendering of a natural number.
- `fmt.Errorf` messages: they become `Errors.Error` constructors.
- `config.go`: it is not part of this model. The generator never reads it, and the test's `ConfigGetUint64` lookups stand for the hard-coded ids 0.
- `id_generator.go`: it holds interfaces only. Its `IdGenerator` becomes the datatype `Manager.IdGenerator`, whose `OtherGenerator` stands for any other implementation.
- The benchmark in the test file: it is timing code.
- Snowflake.SnowflakeIdGenerator.Generate: would not return in Go if the runner never advanced while the call waits (lines 104-108). It requires `CanComplete`, meaning some stored tick differs from `now`, so that non-terminating case is not modelled as a run. `SnowflakeProperties.StalledWaitNeverEnds` shows that the case is real: for 42/5/5, the call after sequence number 4095 in one millisecond cannot complete while every poll sees `now`. A generator used without the manager's runner, as in the test file's `BenchmarkGenerate`, has no one to store a new timestamp.
- Trace.IssuedIncreasing: stated only for clocks that never go back and for the window in which the passed time fits below bit 64. Outside it, identities do repeat (`SnowflakeProperties.ReferenceTimestampWraps`, `Trace.RegressedTickRepeatsId`).

## Findings

The generator keeps the code's behaviour; each corrected definition stands beside it in `IntendedLayout`.

| source | as written | input that shows it | evidently intended | confidence | as-written member | corrected member |
|---|---|---|---|---|---|---|
| service/id_service/server/snowflake_id_generator.go:60-62 | the service-id and data-center offsets add their own field's width and the timestamp offset adds the data-center width again, so the fields sit one field width above the layout of line 11 | widths 42/5/5, service id 1: the test's masks read data center 1, service 0 | service at idOffset, data center at +s, timestamp at +d (12/17/22 for 42/5/5) | not executed; follows from the arithmetic | SnowflakeProperties.MasksMisreadServiceId | IntendedLayout.TestMasksRecoverIds |
| service/id_service/server/snowflake_id_generator.go:62 | the timestamp starts at bit 27 for 42/5/5, so only 37 of its 42 bits fit below bit 64 | passed time 2^37 (2028-12-03 UTC) gives the identity of passed time 0 | all 42 bits of the timestamp kept, so identities stay distinct for 2^42 ms | not executed; follows from the arithmetic | SnowflakeProperties.ReferenceTimestampWraps | IntendedLayout.IntendedIdsIdentifyState |
| service/id_service/server/snowflake_id_generator.go:116 | `passedTime > maximumTimestamp` accepts passedTime == 2^timestampBitNum, which no longer fits the field | intended layout 42/5/5, passed time 2^42: accepted, and packs to the identity of passed time 0 | `passedTime >= maximumTimestamp` | not executed; follows from the arithmetic | IntendedLayout.StrictCheckAdmitsWrap | IntendedLayout.IntendedStepRoundTrip |
