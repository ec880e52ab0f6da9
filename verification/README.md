# A verified model of the deterministic kernel, the signalling room and the test harness loops

This project models five parts of the repository whose correctness is an argument rather than a lookup, and proves that argument.

* **The deterministic math kernel** (`gc-core`). `cos_sin`, `exp` and `ln_ratio` reduce their argument, evaluate a short series and scale back. Over exact reals the reduction always finishes inside its cap, the scale-back loops are exact powers, the rotation is exactly of unit length with an explicit bound on the drift before it is put back on the circle, and `exp` is positive, obeys its functional equations exactly or within a stated bound, and is strictly increasing where it is. On the negative reals it steps down just beyond every octave boundary, so it is increasing on an interval exactly when the interval starts at or after -1/16 or lies within one octave. How far it can step down is bounded on the whole domain, and the dips are too narrow for binary64 to meet: between any two arguments a relative 2^-57 apart, and so on the binary64 numbers, it is strictly increasing. (These are the exact values; what rounding each operation adds is not in the model.) For reduced arguments the results are those of the first terms of the series up to a stated error, and the doubling laws carry that to every argument. `negative_log_one_minus` ends only because of rounding, so there every operation is rounded by an arbitrary function with the properties IEEE 754-2019 section 4.3.1 gives round-to-nearest; the loop is proved to end between the 30th and the 193rd term, at a sum that no later term would change, and its result to be within a relative 2^-41 of the exact -ln(1 - ratio) series. Rounding to 53 bits with ties to even is constructed and proved to have those properties. `ln_ratio` is modelled both ways, rounded and exact, and the rounded result is proved to be within a relative 2^-39 and 2^-50 of the exact one, although the two may take a different number of roots. The minstd generator is proved to have its full period of 2^31 - 2 from a factor certificate, and FNV-1a-64 to be a bijection byte by byte.
* **The room signalling protocol** (`infra/src`): the pure reducer, the fixed-window limiter, and the stateful object around them as a class whose methods are the atomic steps the platform delivers. The claims are about every reachable state and every run. What each event answers, writes and sends is stated exactly, in numbers and live sockets, and proved to be what the reducer does.
* **The in-process coordinator driver** (`gc-netcode`): queue, fake clock, half-closable links and round-based pump, with the coordinator an arbitrary function. A class carries the loops; each method is proved to do exactly what a function on one net value does, and the run-level claims are proved about those functions. The main one is an account of a whole run: each node hears exactly the events its operations tell it and the wires delivered to it, in order, and its state, its announcements and the open ends of its links follow from that alone.
* **Counting and timing loops** of the browser match harness and the online peer page. For the episode count: which of its numbers can depend on the order of the records, and exactly when; and exactly when dropping records can raise the popped count.
* **The hash blob** of the determinism fixture: printing, splitting and re-recording.

## How it is laid out

Code that only computes is written as functions with lemmas. Code that changes state is written as methods, in a class where the original is an object. `RealPowers`, `RealSums`, `Series`, `Nearness` and `Polynomials` hold the real arithmetic; `CosSin`, `Exp`, `ExpOrder`, `AtanhTerms`, `AtanhSeries`, `AtanhError`, `NegativeLog`, `Binary64Rounding`, `LnExact`, `AtanhDoubling`, `LnError`, `LnRatio`, `Minstd`, `MinstdPeriod` and `Fnv1a64` the kernel; `RateLimiter`, `RoomState`, `RoomSteps`, `RoomInvariant`, `RoomProperties`, `RoomAdmission`, `RoomRelay`, `RoomDeparture` and `RoomDurableObject` the room; `DriverSteps`, `DriverRelations`, `DriverMoves`, `DriverKeeps`, `DriverProperties`, `DriverStory`, `DriverTelling`, `DriverRuns`, `DriverEnds` and `Driver` the driver; `EpisodeCount`, `EpisodeProperties`, `EpisodeOrder`, `EpisodeKinds`, `EpisodeSplit`, `EpisodeDropping`, `FixedTimestep`, `Pacing`, `ByteString` and `HashBlob` the rest.

`dafny verify dfyconfig.toml` checks everything.

Three places where the code and its comments differ, and the model follows the code:

* The comment on `LN_MAX_HALVINGS` (`rust/crates/gc-core/src/deterministic_math.rs:263-266`) gives log2(ln(4096) / ln(1.0625)) as about 7.5; it is about 7.1, since 1.0625^137 is below 4096 and 1.0625^138 above it (`LnExact.LimitPowers`). Eight roots are the right number either way: 4096 needs exactly eight (`LnExact.EightRoots`).
* The comments on the grace period (`infra/src/room_durable_object.ts:131-137`, `infra/src/room_durable_object.ts:578-585`) read as if a departed host's room were wound up within five seconds. A refused attempt overwrites that alarm with the row's old deadline (`infra/src/room_durable_object.ts:395`), which can put it ten minutes off or, for a host that left just before that deadline, make it due at once and cut the five seconds kept for sends in flight (`infra/src/room_durable_object.ts:162-163`). `RoomProperties.GraceMovesExactly` says when it moves which way; `RoomProperties.GraceCanBePostponed` and `RoomProperties.GraceCanBeCutShort` show both.
* The comment on gaps (`scripts/browser_match_harness.py:1014-1016`) concludes from "a gap never merges" that `popped` is never inflated. A gap never merges, but it can split one popped episode into two (`EpisodeDropping.DroppingNeverMerges`, `EpisodeDropping.DroppingCanAddPops`). The conclusion holds exactly when no episode has two changes of lean three ticks or more apart (`EpisodeDropping.DroppingAddsNoPopsExactly`).

## Model

| member | source | states |
|---|---|---|
| RealPowers.Halve | rust/crates/gc-core/src/deterministic_math.rs:225-230 | The halving loop of `exp` and `cos_sin` always ends with the argument at or below 1/16, after the least number of halvings that does it; the cap never stops it |
| RealPowers.HalvingsExact | rust/crates/gc-core/src/deterministic_math.rs:140-156 | Any magnitude up to 2^j times the limit needs at most j halvings, and the reduced argument stays above half the limit when any were needed |
| RealPowers.HalvingsMonotone | rust/crates/gc-core/src/deterministic_math.rs:225-230 | A larger magnitude is halved at least as often |
| RealPowers.PowNearOne | rust/crates/gc-core/src/deterministic_math.rs:249-251 | How far repeated squaring can amplify a small deviation from one |
| CosSin.CosSin | rust/crates/gc-core/src/deterministic_math.rs:101-138 | For every accepted angle the loops compute the rotation, the returned pair lies exactly on the unit circle, and for magnitudes up to 1/16 it is (1 - x^2/2, x - x^3/6) within 1e-6 and 1e-8 |
| CosSin.DoubleBack | rust/crates/gc-core/src/deterministic_math.rs:123-128 | j rounds of the double-angle identities give the 2^j-th complex power of the series pair |
| CosSin.Renormalize | rust/crates/gc-core/src/deterministic_math.rs:130-137 | The magnitude is never zero, and dividing by it leaves exact unit length |
| CosSin.CPowNorm | rust/crates/gc-core/src/deterministic_math.rs:123-128 | The squared norm of a complex power is that power of the squared norm |
| CosSin.CPowDouble | rust/crates/gc-core/src/deterministic_math.rs:124-127 | One application of the double-angle identities doubles the exponent of the complex power |
| CosSin.SeedNorm | rust/crates/gc-core/src/deterministic_math.rs:115-121 | The squared norm of the series pair at x is a polynomial in x squared that starts 1 + O(x^10) |
| Series.GaugeNearOne | rust/crates/gc-core/src/deterministic_math.rs:50-59 | On the reduced range that polynomial differs from one by at most x^10 / 1800000 |
| CosSin.Drift | rust/crates/gc-core/src/deterministic_math.rs:130-132 | Before renormalisation the pair is off the unit circle by at most twice 2^k times that, never more than 1.04e-15 |
| CosSin.UnitIsOnCircle | rust/crates/gc-core/src/deterministic_math.rs:130-137 | The magnitude divided by is positive and the result has unit length |
| CosSin.OppositeAngle | rust/crates/gc-core/src/deterministic_math.rs:107-137 | Opposite angles give (c, -s) |
| CosSin.TwiceTheAngle | rust/crates/gc-core/src/deterministic_math.rs:85-88 | Rotating by 2a is exactly the double-angle image of rotating by a, whenever 2a is reduced by halving |
| CosSin.FromSmallAngle | rust/crates/gc-core/src/deterministic_math.rs:107-137 | Every accepted angle is one of magnitude up to 1/16 doubled at most ten times, and its rotation is that one's rotation taken that many times over |
| Series.SquareIdentity | rust/crates/gc-core/src/deterministic_math.rs:232-251 | The square of the ninth-order series at h is the series at 2h plus an explicit remainder of order h^10 |
| Series.SquareAhead | rust/crates/gc-core/src/deterministic_math.rs:232-251 | For nonnegative h one more halving never lowers the value |
| Exp.Exp | rust/crates/gc-core/src/deterministic_math.rs:219-253 | On the whole domain the loops compute T9(x/2^k)^(2^k), which is positive, and for magnitudes up to 1/16 it is 1 + x + x^2/2 + x^3/6 within 7e-7 |
| Exp.HornerSlope | rust/crates/gc-core/src/deterministic_math.rs:232-247 | On the reduced range every Horner level stays within 10 percent of one, and the whole series rises with slope at least 0.8 |
| Exp.IncreasingOnNonNegative | rust/crates/gc-core/src/deterministic_math.rs:219-253 | Strictly increasing on nonnegative arguments, also where the number of halvings changes |
| Exp.IncreasingWithinOctave | rust/crates/gc-core/src/deterministic_math.rs:219-253 | Strictly increasing, whatever the signs, between arguments halved equally often |
| Exp.SignOfExponent | rust/crates/gc-core/src/deterministic_math.rs:184-192 | Below one, one or above one exactly as the argument is negative, zero or positive |
| Exp.TwiceTheArgument | rust/crates/gc-core/src/deterministic_math.rs:189-192 | exp(2x) is exactly exp(x) squared whenever 2x is reduced by halving |
| Exp.OppositeArguments | rust/crates/gc-core/src/deterministic_math.rs:200-207 | exp(x) times exp(-x) is within a drift of one that doubles with every halving: 1.04e-15 for magnitudes up to 64, 2.65e-13 down to the whole accepted range |
| ExpOrder.AlmostIncreasing | rust/crates/gc-core/src/deterministic_math.rs:219-253 | On all accepted negative arguments the value can step down only by that drift, in relative terms |
| ExpOrder.StepsDownAtEveryBoundary | rust/crates/gc-core/src/deterministic_math.rs:227-230 | At every octave boundary of the negative reals: each argument just beyond it has the larger value |
| ExpOrder.IncreasingExactly | rust/crates/gc-core/src/deterministic_math.rs:219-253 | On an interval of reals it is strictly increasing exactly when the interval starts at or after -1/16 or lies within one negative octave |
| ExpOrder.IncreasingWhenApart | rust/crates/gc-core/src/deterministic_math.rs:219-253 | Strictly increasing between any two arguments a relative 2^-57 apart, over all octaves and both signs |
| ExpOrder.IncreasingOnBinary64 | rust/crates/gc-core/src/deterministic_math.rs:219-253 | So strictly increasing on the numbers of 53 significant bits: no two of them are close enough to see a step down |
| NegativeLog.NegativeLogOneMinus | rust/crates/gc-core/src/deterministic_math.rs:27-48 | For every ratio in [0, 0.95) the rounded loop ends between the 30th and the 193rd term, at the first sum from the 30th term on that its term leaves unchanged, which no later term would change; the result is within a relative 2^-41 of twice the exact series at ratio / (2 - ratio), however many terms that is given, and within 16 smallest normal numbers of it for ratios below four of them |
| AtanhSeries.PowerDecays | rust/crates/gc-core/src/deterministic_math.rs:46 | The rounded powers fall below z times 0.82^n until they are down at the smallest normal number |
| AtanhSeries.ContributionShrinks | rust/crates/gc-core/src/deterministic_math.rs:39 | Rounded contributions are nonnegative and never grow from one term to the next |
| AtanhSeries.SumAtLeastZ | rust/crates/gc-core/src/deterministic_math.rs:40-45 | The rounded sum never falls below its first term and is always representable |
| AtanhSeries.AbsorbedInTime | rust/crates/gc-core/src/deterministic_math.rs:42-44 | By the 193rd term a contribution has been rounded away, for every ratio |
| AtanhSeries.FixedForGood | rust/crates/gc-core/src/deterministic_math.rs:15-19 | Once a term leaves the sum unchanged, so does every later one |
| AtanhError.SettledIsAccurate | rust/crates/gc-core/src/deterministic_math.rs:31-48 | The settled rounded sum differs from the exact one by what at most 1357 roundings can amount to, over 193 rounded terms and powers and every exact term after them |
| Binary64Rounding.MeetsRoundsToNearest | rust/crates/gc-core/src/deterministic_math.rs:15-19 | Rounding to 53 bits, ties to even, with any smallest normal number up to 2^-216 and no largest one, has every property the rounded loop is proved from |
| LnRatio.LnRatio | rust/crates/gc-core/src/deterministic_math.rs:316-340 | Rounded: at most eight roots for every ratio in [1, 4096], the inner ratio lies in [0, 0.059] so its call is legal, the result is 2^k times twice the settled sum, and it is within a relative 2^-39 and 2^-50 of the exact value, however many terms that is given |
| LnError.RootsAgree | rust/crates/gc-core/src/deterministic_math.rs:322-327 | The rounded loop stops at most one root before or after the exact one |
| LnError.LnIsAccurate | rust/crates/gc-core/src/deterministic_math.rs:316-340 | So the scaled result is within the stated bound of the exact value, although it may have been scaled from another root |
| AtanhDoubling.DoubleIsNear | rust/crates/gc-core/src/deterministic_math.rs:322-340 | One root more changes the exact value by no more than a few roundings: the series at the double argument is nearly twice the series at the single one |
| LnExact.ReduceExact | rust/crates/gc-core/src/deterministic_math.rs:322-327 | Exact: the reduced ratio r lies in [1, 1.0625] after k at most 8 roots, r^(2^k) is x, and one root fewer would not have done |
| LnExact.RootsExactly | rust/crates/gc-core/src/deterministic_math.rs:322-327 | The roots taken are the fewest possible: j are enough exactly for ratios up to 1.0625^(2^j) |
| LnExact.EightRoots | rust/crates/gc-core/src/deterministic_math.rs:263-267 | No accepted ratio needs more than eight roots, and 4096 needs exactly eight |
| LnExact.BetweenElementaryBounds | rust/crates/gc-core/src/deterministic_math.rs:295-299 | For every number of terms the value lies between 2^k(1 - 1/r) and 2^k(r - 1) |
| LnExact.TermsHardlyMatter | rust/crates/gc-core/src/deterministic_math.rs:7-11 | From the 30th term on more terms change the value by at most 1024 / 33^61 |
| LnExact.LogOfSquare | rust/crates/gc-core/src/deterministic_math.rs:295-297 | The value at x squared is exactly twice the value at x, whenever x squared is reduced by a root |
| Minstd.Roll | rust/crates/gc-core/src/rng.rs:34-38 | The sample is in [0, 1), and the next state is never zero (a property of its type) |
| Minstd.SeedFacts | rust/crates/gc-core/src/rng.rs:20-30 | Every number seeds a valid state; its sign, its fraction and whole moduli do not matter, and a state seeds itself |
| Minstd.RollIsABijection | rust/crates/gc-core/src/rng.rs:34-38 | A roll is undone by multiplying by 1407677000, and every state is some roll's result |
| Minstd.SampleTellsTheState | rust/crates/gc-core/src/rng.rs:36 | Two rolls give the same sample exactly when they started in the same state |
| Minstd.RollsArePowers | rust/crates/gc-core/src/rng.rs:35 | n rolls multiply the state by 16807^n modulo 2^31 - 1 |
| MinstdPeriod.TenThousandthRoll | rust/crates/gc-core/src/rng.rs:15-18 | The constants are those of minstd_rand0: the ten thousandth roll from 1 is 1043618065, as section [rand.predef] of ISO C++ requires |
| MinstdPeriod.OrderIsStates | rust/crates/gc-core/src/rng.rs:15-18 | A positive number of rolls that brings the state back is a multiple of 2^31 - 2, from the certificate on 2, 3, 3, 7, 11, 31, 151 and 331 |
| MinstdPeriod.ComesBackExactly | rust/crates/gc-core/src/rng.rs:34-38 | Any state is back after n rolls exactly when n is a multiple of 2^31 - 2 |
| MinstdPeriod.FullPeriod | rust/crates/gc-core/src/rng.rs:34-38 | From any state the rolls visit all 2^31 - 2 states, none twice, before the first comes back |
| Fnv1a64.StepIsABijection | rust/crates/gc-core/src/fnv1a64.rs:38-41 | Each byte's step is a bijection of the 64-bit state, with an explicit inverse |
| Fnv1a64.StepTellsBytesApart | rust/crates/gc-core/src/fnv1a64.rs:38-41 | From one state, two bytes lead to the same state exactly when they are the same byte |
| Fnv1a64.FoldConcat | rust/crates/gc-core/src/fnv1a64.rs:43-50 | Feeding slices one after another equals feeding their concatenation |
| Fnv1a64.FoldIsABijection | rust/crates/gc-core/src/fnv1a64.rs:45-50 | Feeding any bytes is a bijection of the state, with an explicit inverse |
| Fnv1a64.OneByteNeverCollides | rust/crates/gc-core/src/fnv1a64.rs:72-78 | Two inputs that may differ in one byte have the same hash exactly when they do not |
| Fnv1a64.HexReadsBack | rust/crates/gc-core/src/fnv1a64.rs:52-56 | The rendering is always sixteen lower-case hexadecimal digits, and reads back as the state |
| Fnv1a64.CanonicalIsHex | rust/crates/gc-data/src/omp1_determinism.rs:290-297 | Every canonical hash is the rendering of exactly the state it reads as |
| Fnv1a64.PublishedVectors | rust/crates/gc-core/src/fnv1a64.rs:4-10 | The hash of no bytes is cbf29ce484222325 and that of the letter a is af63dc4c8601ec8c |
| Fnv1a64.Fnv1a64State.constructor | rust/crates/gc-core/src/fnv1a64.rs:33-35 | A fresh hasher is at the offset basis |
| Fnv1a64.Fnv1a64State.UpdateByte | rust/crates/gc-core/src/fnv1a64.rs:38-41 | In place, the state takes one byte's step |
| Fnv1a64.Fnv1a64State.Update | rust/crates/gc-core/src/fnv1a64.rs:45-50 | The loop folds in every byte of the slice in order |
| Fnv1a64.Hash | rust/crates/gc-core/src/fnv1a64.rs:73-78 | The rendering of the bytes folded from the offset basis, always canonical |
| HashBlob.RenderAll | rust/crates/gc-data/src/omp1_determinism.rs:348-352 | The blob is every hash followed by a newline |
| HashBlob.LinesOfRender | rust/crates/gc-data/src/omp1_determinism.rs:263-271 | A blob rendered from a nonempty list of one-line strings splits back into exactly that list |
| HashBlob.RoundTripExactly | rust/crates/gc-data/src/omp1_determinism.rs:263-271 | The round trip holds exactly for nonempty lists; the empty one reads back as one empty line |
| HashBlob.RenderOfLines | rust/crates/gc-data/src/omp1_determinism.rs:263-271 | Rendering a blob's lines gives the blob back exactly when it ends in a newline, and the blob with one otherwise |
| HashBlob.RerecordedJson | rust/crates/gc-data/src/omp1_determinism.rs:323-391 | Refuses an empty list, the first non-canonical hash by its index, then a non-canonical digest; a document it hands out reads back as the frozen fields with the derived ones replaced; with a faithful format nothing else fails |
| HashBlob.RerecordedAgrees | rust/crates/gc-data/src/omp1_determinism.rs:273-288 | The re-recorded blob splits into exactly the recorded hashes, as many as are counted, ending with the final hash |
| RateLimiter.RunKeeps | infra/src/rate_limiter.ts:30-42 | Over every nondecreasing run of attempts the stored count is the number admitted since the window start, never above the limit |
| RateLimiter.AdmittedPerInterval | infra/src/rate_limiter.ts:24-42 | In any stretch of one window length at most twice the limit less one are admitted, with its end point twice the limit |
| RateLimiter.BoundIsAttained | infra/src/rate_limiter.ts:30-42 | A burst that attains that bound |
| RateLimiter.RefusedOnlyWhenFull | infra/src/rate_limiter.ts:30-42 | Over every nondecreasing run an attempt is refused only when the limit's worth was admitted within the last window |
| RoomState.WithoutKeeps | infra/src/room_state.ts:188-190 | Leaving removes exactly that id and keeps the rest distinct |
| RoomState.JoinThenLeave | infra/src/room_state.ts:148-192 | A guest that leaves right after joining leaves only the activity time behind |
| RoomState.RemoveKeeps | infra/src/room_state.ts:181-213 | A removal closes the room exactly when it was closed or the host left, and `hostDeparted` holds exactly in the second case |
| RoomDurableObject.RoomObject.constructor | infra/src/room_durable_object.ts:222-239 | A new object holds no row, no alarm and no sockets |
| RoomDurableObject.RoomObject.Save | infra/src/room_durable_object.ts:318-340 | Saving replaces the row; an omitted join window keeps the stored one |
| RoomDurableObject.RoomObject.IsClaimedByHost | infra/src/room_durable_object.ts:350-354 | Answers from the stored row, changes nothing, and says yes exactly when a host's own attempt would meet a claimed room |
| RoomDurableObject.RoomObject.Fetch | infra/src/room_durable_object.ts:356-423 | The admission step: gates, limiter, claim or join, persistence, alarm, greeting and announcement; `RoomAdmission` says which answer it gives exactly when, and what it writes |
| RoomDurableObject.RoomObject.WebSocketMessage | infra/src/room_durable_object.ts:474-550 | The relay step: error replies, or touch, persist, re-arm and forward; a socket without a valid attachment is closed with 1011 and nothing changes; `RoomRelay` says which message is relayed exactly when |
| RoomDurableObject.RoomObject.Forward | infra/src/room_durable_object.ts:544-549 | The loop sends to exactly the accepted sockets among the recipients |
| RoomDurableObject.RoomObject.SendToGuests | infra/src/room_durable_object.ts:456-472 | The loop sends to exactly the accepted guest sockets |
| RoomDurableObject.RoomObject.Disconnect | infra/src/room_durable_object.ts:560-592 | The departure step: persist, announce, and arm the grace alarm of a closed room; without a valid attachment nothing changes |
| RoomDurableObject.RoomObject.AlarmFires | infra/src/room_durable_object.ts:594-610 | The alarm step: close the room and tell every accepted socket to close |
| RoomDurableObject.RoomObject.Handle | infra/src/room_durable_object.ts:356-610 | Whatever the platform delivers next is one step and keeps the invariant of every run |
| RoomInvariant.StepKeeps | infra/src/room_durable_object.ts:356-610 | Every enabled step keeps the invariant: well-formed row, sockets matching it, unique identities, an informed host, an exact alarm, one claim, one announcement, an exact limiter |
| RoomInvariant.FetchKeeps | infra/src/room_durable_object.ts:375-423 | An attempt, admitted or refused, keeps the invariant |
| RoomInvariant.MessageKeeps | infra/src/room_durable_object.ts:474-550 | A message, relayed or answered, keeps the invariant |
| RoomInvariant.DisconnectKeeps | infra/src/room_durable_object.ts:560-592 | A departure, reported once or again, keeps the invariant |
| RoomInvariant.RunKeeps | infra/src/room_durable_object.ts:356-610 | The invariant holds after every run |
| RoomProperties.RoomIsConsistent | infra/src/room_durable_object.ts:399-420 | In every reachable state the row is well formed; while it is open the live sockets are exactly its host and guests, at most eight, and the joins less the leaves the host has been told are exactly the guest list in join order; a code is claimed at most once |
| RoomProperties.AdmissionNeedsRoom | infra/src/room_durable_object.ts:383-422 | A host is admitted only to a room nobody ever claimed, a guest only to an open room with a place left |
| RoomProperties.AttemptsArePaced | infra/src/room_durable_object.ts:378-381 | In every reachable state at most 39 attempts passed the limiter in any 60 seconds, 40 with the end point |
| RoomProperties.ExpiredMeansLateAlarm | infra/src/room_durable_object.ts:394-407 | While a saved row is not closed the pending alarm is exactly its deadline, so expired and late alarm mean the same |
| RoomProperties.AlarmIsNeverEarly | infra/src/room_durable_object.ts:594-598 | An alarm never closes a room active within ten minutes and younger than two hours |
| RoomProperties.PunctualAlarmsKeepRoomsFresh | infra/src/room_durable_object.ts:532-536 | If no alarm is late, no event finds an expired room that is not closed, however much is relayed |
| RoomProperties.MessageReachesOneSocket | infra/src/room_durable_object.ts:520-549 | Every message but a host's JSON null causes exactly one frame: an error to its sender, or a signal to one live socket of the other role, the addressed one |
| RoomProperties.DepartureIsTheHosts | infra/src/room_durable_object.ts:569-577 | The departure is announced only by the host's own disconnect, once, to exactly the guests, and closes the room |
| RoomProperties.ClosedForGood | infra/src/room_durable_object.ts:356-610 | Over every continuation a closed room stays closed, admits nobody, relays nothing and announces nothing more |
| RoomProperties.GraceMovesExactly | infra/src/room_durable_object.ts:394-395 | A closed room's alarm is cleared exactly when it fires, and moves later or earlier exactly when a close is reported or a refused attempt passes the limiter, as the new deadline lies after or before it |
| RoomProperties.GraceIsOverwritten | infra/src/room_durable_object.ts:394-395 | For every time at which a host leaves and every later one at which a guest is refused, the grace alarm becomes the row's old deadline |
| RoomProperties.GraceCanBePostponed | infra/src/room_durable_object.ts:395 | A run after which the five-second alarm of a closed room is ten minutes off |
| RoomProperties.GraceCanBeCutShort | infra/src/room_durable_object.ts:162-163 | A run after which the alarm is due at once instead of in five seconds |
| RoomProperties.ClosedRoomsDrain | infra/src/room_durable_object.ts:578-610 | In a closed room an alarm is pending or every live socket was told to close, and firing it tells all of them |
| RoomProperties.WindingDownIsFinite | infra/src/room_durable_object.ts:560-617 | Without new connections or messages only finitely many alarms and reported closes can follow: at most two for each live socket and for each report of a socket already gone, and one more |
| RoomAdmission.AdmittedExactly | infra/src/room_durable_object.ts:356-423 | In every reachable state: an attempt is accepted exactly when it is an upgrade with a role, fewer than 20 passed since the stored window began or that was a minute ago, the row is at most two hours old and ten minutes idle, and the room waits (for a host) or is open with fewer than seven guests (for a guest); each status and each close code exactly when |
| RoomAdmission.AdmissionWrites | infra/src/room_durable_object.ts:398-422 | What an accepted attempt writes and sends: the row, the alarm in minutes, the new socket, its greeting, and for a guest the one frame to the host |
| RoomAdmission.RefusalWrites | infra/src/room_durable_object.ts:375-396 | A refused attempt changes no socket and sends nothing; one refused by the room leaves the row's state as it was and puts its deadline in the alarm |
| RoomAdmission.SevenGuestsFit | infra/src/room_state.ts:15 | Some run seats a host and seven guests |
| RoomRelay.GuestTextExactly | infra/src/room_durable_object.ts:520-549 | In every reachable state a guest's text goes to the host alone exactly when the room is open and the text is at most 16384 bytes, and then re-arms the alarm; otherwise the sender alone gets the error that says which, and nothing else changes |
| RoomRelay.HostTextExactly | infra/src/room_durable_object.ts:502-549 | A host's text goes to the addressed guest alone exactly when besides a live guest socket has that id; otherwise the error says which |
| RoomRelay.UnaddressedExactly | infra/src/room_durable_object.ts:491-518 | Binary frames, texts that are not JSON and envelopes without an address come back as their own error each |
| RoomDeparture.LeavingExactly | infra/src/room_durable_object.ts:560-592 | In every reachable state the host's close closes the room, tells each guest once and sets the alarm five seconds on; a guest's frees exactly its place, tells the host and leaves the alarm; one reported after the end sends nothing |
| RoomDeparture.AlarmExactly | infra/src/room_durable_object.ts:594-617 | A firing alarm leaves the row closed and empty, nothing pending, and every live socket told to close |
| Driver.CoordinatorDriver.constructor | rust/crates/gc-netcode/src/coordinator_driver.rs:134-179 | A host and its guests, each guest on its own open link, nothing in flight |
| Driver.CoordinatorDriver.Enqueue | rust/crates/gc-netcode/src/coordinator_driver.rs:208-238 | Queues a packet due after the latency, or counts it dropped when the link is unknown or the sender's end closed; what is queued is bound for the peer at the other end |
| Driver.CoordinatorDriver.Apply | rust/crates/gc-netcode/src/coordinator_driver.rs:240-270 | The action loop with its fan-out loop, in order |
| Driver.CoordinatorDriver.SendEvent | rust/crates/gc-netcode/src/coordinator_driver.rs:277-285 | One event through one node; refused exactly for an unknown peer |
| Driver.CoordinatorDriver.TakeDue | rust/crates/gc-netcode/src/coordinator_driver.rs:297-306 | Splits the queue into due and pending, each in queue order |
| Driver.CoordinatorDriver.Deliver | rust/crates/gc-netcode/src/coordinator_driver.rs:310-340 | Delivers exactly when the end the packet arrives at, the host's or the guest's, is open and the node there is still running; otherwise drops |
| Driver.CoordinatorDriver.Pump | rust/crates/gc-netcode/src/coordinator_driver.rs:294-343 | The round loop equals its specification, fails exactly where that does, and returns the number delivered |
| Driver.CoordinatorDriver.Tick | rust/crates/gc-netcode/src/coordinator_driver.rs:348-361 | For each tick: advance, pump, tick every node, pump |
| Driver.CoordinatorDriver.ConnectAll | rust/crates/gc-netcode/src/coordinator_driver.rs:364-371 | Connect every guest, then pump |
| Driver.CoordinatorDriver.Inject | rust/crates/gc-netcode/src/coordinator_driver.rs:384-417 | Numbers and sends a message as its peer, then pumps |
| Driver.CoordinatorDriver.Replay | rust/crates/gc-netcode/src/coordinator_driver.rs:425-443 | Queues a packet due at once, then pumps |
| Driver.CoordinatorDriver.DropLink | rust/crates/gc-netcode/src/coordinator_driver.rs:468-496 | Closes both ends, tells both peers that still run, then pumps |
| DriverRelations.MovesCompose | rust/crates/gc-netcode/src/coordinator_driver.rs:310-340 | Two stretches of work at one clock value compose: packets resolved in order, sends appended, counters balanced, ends only closing |
| DriverRelations.LaterCompose | rust/crates/gc-netcode/src/coordinator_driver.rs:84-105 | What is forbidden from a moment on stays forbidden over longer stretches |
| DriverMoves.ApplyActs | rust/crates/gc-netcode/src/coordinator_driver.rs:240-270 | Actions only append due-stamped packets from open ends, close ends and write their own messages; no coordinator changes |
| DriverMoves.ReactMoves | rust/crates/gc-netcode/src/coordinator_driver.rs:281-284 | A reacting node resolves nothing and balances the counters, whatever its coordinator answers |
| DriverMoves.DeliverAllMoves | rust/crates/gc-netcode/src/coordinator_driver.rs:310-340 | A round never panics in a wired net and resolves exactly its packets, in order, at this clock value |
| DriverKeeps.DueIsPrefix | rust/crates/gc-netcode/src/coordinator_driver.rs:297-306 | A queue sorted by deadline is cut in two, not shuffled |
| DriverKeeps.PumpKeeps | rust/crates/gc-netcode/src/coordinator_driver.rs:294-343 | However many rounds, a pump keeps the balance, the first-in first-out line, and punctuality |
| DriverKeeps.PumpSettles | rust/crates/gc-netcode/src/coordinator_driver.rs:294-343 | With a latency of at least one tick two rounds always settle, for every coordinator |
| DriverKeeps.StrayPacketPanics | rust/crates/gc-netcode/src/coordinator_driver.rs:311-313 | A due packet on an unknown link is a panic, not a drop |
| DriverKeeps.PerformSound | rust/crates/gc-netcode/src/coordinator_driver.rs:277-496 | Every operation keeps all of it, and cannot fail with a latency of at least one tick and known names |
| DriverProperties.PacketsAreConserved | rust/crates/gc-netcode/src/coordinator_driver.rs:208-343 | After any run, replays included, every send and replay is delivered, dropped or queued, and the delivered counter counts the deliveries |
| DriverProperties.FirstInFirstOut | rust/crates/gc-netcode/src/coordinator_driver.rs:294-343 | Whatever the latency, without replays what was resolved followed by what waits is exactly what was sent, in order, and the queue is sorted by deadline |
| DriverProperties.ResolvedOnTheTick | rust/crates/gc-netcode/src/coordinator_driver.rs:236-361 | With a latency of at least one tick every packet is resolved on the very tick it is due, and nothing waiting is due; without replays that tick is exactly the latency after the one it was sent on |
| DriverProperties.PanicsExactly | rust/crates/gc-netcode/src/coordinator_driver.rs:272-343 | With a latency of at least one tick a run panics exactly when one of its operations names a peer or a link that does not exist |
| DriverProperties.NeverPanicsExactly | rust/crates/gc-netcode/src/coordinator_driver.rs:290-343 | Runs with known names never panic, for any coordinator and any guests, exactly when the latency is at least one tick |
| DriverProperties.EchoRunPanics | rust/crates/gc-netcode/src/coordinator_driver.rs:165-169 | At no latency, the default, two coordinators that answer every packet panic after a single replay, although every name is known |
| DriverProperties.DeliveriesReachTheTarget | rust/crates/gc-netcode/src/coordinator_driver.rs:310-340 | A delivery changes the target's coordinator to what it received and no other; a drop changes no coordinator and no end |
| DriverProperties.LatencyIsWhatSettles | rust/crates/gc-netcode/src/coordinator_driver.rs:290-343 | Whatever bound of two or more the rounds have, it settles every net under every coordinator exactly when the latency is at least one tick |
| DriverProperties.EchoesForever | rust/crates/gc-netcode/src/coordinator_driver.rs:342 | Without latency, coordinators that answer every packet exhaust any number of rounds |
| DriverProperties.ClosedEndsStaySilent | rust/crates/gc-netcode/src/coordinator_driver.rs:214-342 | From any moment of a run on, closed ends stay closed, send nothing, receive nothing, and a node that has ended receives nothing |
| DriverProperties.TranscriptsNumberConsecutively | rust/crates/gc-netcode/src/coordinator_driver.rs:373-416 | If each coordinator step numbers its messages consecutively, each peer's transcript entries, injections included, run from its first number to its next without a gap |
| DriverProperties.TranscriptsIncrease | rust/crates/gc-netcode/src/coordinator_driver.rs:243-247 | So a later entry of the same peer has a higher number |
| DriverProperties.ReplayJumpsTheQueue | rust/crates/gc-netcode/src/coordinator_driver.rs:419-443 | With a latency of at least one tick a replayed packet is resolved at once and everything queued waits on: it overtakes exactly when the queue was not empty |
| DriverStory.TaleJoin | rust/crates/gc-netcode/src/coordinator_driver.rs:277-343 | Two stretches of work make one: what each node heard is joined, and states, announcements, ends, offers and refusals follow from the whole |
| DriverRuns.EveryOpGoes | rust/crates/gc-netcode/src/coordinator_driver.rs:277-496 | Each operation tells each node exactly its own events: a tick to everyone, a connection to every guest, a lost link to both of its peers that still run, an injection to its sender; and cuts, replays and advances the clock by exactly what it says |
| DriverEnds.EveryNodeHears | rust/crates/gc-netcode/src/coordinator_driver.rs:277-496 | After any run: each node heard exactly the events of the operations and the wires delivered to it, each in order, and nothing from a link it had closed; its state and its started and terminal marks are its own coordinator's answers to that; each end is open exactly until its own side asks to close it or the link is dropped; every target of every message was offered once; and the clock stands at the ticks asked for |
| DriverEnds.NothingAfterClosing | rust/crates/gc-netcode/src/coordinator_driver.rs:214-342 | From any moment of a run on, nothing more is delivered to or sent from the host if its end is closed, and likewise for the guest |
| DriverEnds.ClosingIsFinal | rust/crates/gc-netcode/src/coordinator_driver.rs:251-258 | So once a node has asked to close a link, or it was dropped, nothing more reaches that end or leaves it, whatever comes after |
| DriverEnds.OpenEndsReceive | rust/crates/gc-netcode/src/coordinator_driver.rs:322-340 | If terminal coordinators stay so, every packet that came due for an end that is still open and a node that is still running was delivered |
| DriverEnds.DeliveredExactly | rust/crates/gc-netcode/src/coordinator_driver.rs:322-340 | A packet for the host is delivered exactly when the host's end is open and the host is running, one for a guest when the guest's is |
| DriverEnds.QueuedExactly | rust/crates/gc-netcode/src/coordinator_driver.rs:208-238 | A message is queued for a target, due after the latency, exactly when the link exists and the sender's own end of it is open, and dropped otherwise |
| DriverEnds.TickComesLast | rust/crates/gc-netcode/src/coordinator_driver.rs:348-361 | With a latency of at least one tick, a tick hands every node first what came due, in order, then the tick, and nothing else |
| DriverEnds.InjectionGoesOut | rust/crates/gc-netcode/src/coordinator_driver.rs:384-417 | In every reached state an injected message is next in the transcript under its sender's number and next on the named peer's link if the sender's own end is open, and dropped otherwise |
| EpisodeCount.CountFamily | scripts/browser_match_harness.py:1003-1057 | Frames, leaning frames, episodes by kind and the longest; the three kinds add up to the total |
| EpisodeCount.CutRuns | scripts/browser_match_harness.py:1025-1033 | The run loop cuts one slot's records where the tick does not go up by one |
| EpisodeCount.GroupBySlot | scripts/browser_match_harness.py:1019-1021 | The records of each slot, in order |
| EpisodeProperties.EpisodesAreMaximalRuns | scripts/browser_match_harness.py:1003-1016 | For unique slot and tick, a list is an episode exactly when it is a contiguous run of one slot with nothing of that slot just before or after it |
| EpisodeProperties.EpisodesPartition | scripts/browser_match_harness.py:1024-1033 | The episodes hold every record of the family exactly as often as it was given, duplicates included |
| EpisodeOrder.OrderMattersExactly | scripts/browser_match_harness.py:1018-1033 | The family's episodes are the same in every order of the records exactly when no two different records of the family share a slot and a tick |
| EpisodeKinds.FramesAndLengthsSame | scripts/browser_match_harness.py:1018-1057 | Frames, leaning frames, the number of episodes and the longest never depend on the order, for any records |
| EpisodeKinds.SwapExactly | scripts/browser_match_harness.py:1027-1043 | Swapping two neighbouring records of one slot and tick keeps how many runs are of each kind exactly when they lean alike or the same is held on both sides of them |
| EpisodeSplit.KindsDependExactly | scripts/browser_match_harness.py:1018-1043 | The split into always leaning, never leaning and popped is the same in every order exactly when, at each tick a slot was saved with both leans, one and the same kind can be held just before and just after, and either that is nothing or exactly two records share the tick |
| EpisodeOrder.UniqueHasNoClash | scripts/browser_match_harness.py:1003-1016 | Records with unique slot and tick meet that condition for every family |
| EpisodeOrder.EpisodesKeepTies | scripts/browser_match_harness.py:1027 | Sorting is stable: the episodes show the records of one slot and tick in the order they came in |
| EpisodeSplit.AgreeingRecordsCountTheSame | scripts/browser_match_harness.py:1018-1043 | So every count is the same in every order when records of one slot and tick agree on the lean, different poses or not |
| EpisodeSplit.ClashesCanChangeTheCount | scripts/browser_match_harness.py:1027-1043 | Three tip records, two of them of one tick, whose split into kinds does depend on the order |
| EpisodeDropping.DroppingNeverMerges | scripts/browser_match_harness.py:1014-1016 | For unique slot and tick, when records are dropped each remaining episode lies inside one episode of the full list: a gap only splits |
| EpisodeDropping.DroppingAddsNoPopsExactly | scripts/browser_match_harness.py:1014-1016 | For unique slot and tick, no choice of dropped records raises the popped count exactly when no episode has two changes of lean three ticks or more apart |
| EpisodeDropping.DroppingCanAddPops | scripts/browser_match_harness.py:1014-1016 | It can be raised: five tip records that lose the middle one |
| EpisodeProperties.PoppedMeansBoth | scripts/browser_match_harness.py:1035-1043 | An episode counts as always leaning exactly when every tick leans, as never leaning when it has ticks and none does, and as popped when it leaned on one tick and not on another |
| EpisodeProperties.KindsAreCounted | scripts/browser_match_harness.py:1035-1043 | The count of a kind is the number of episodes of that kind |
| EpisodeProperties.FamilyHolds | scripts/browser_match_harness.py:1018 | The family holds exactly the records with one of its poses, each as often as it was given |
| EpisodeProperties.LongestIsMaximum | scripts/browser_match_harness.py:1056 | The longest episode's length is attained and never exceeded, and zero when there is none |
| EpisodeProperties.FamilySplits | scripts/browser_match_harness.py:1060-1087 | A family's frames and leaning frames are those of a part and those of the rest |
| EpisodeProperties.SaveFramesSplit | scripts/browser_match_harness.py:1071-1084 | Save frames are save-excluding-tip frames plus tip frames |
| FixedTimestep.SimulateAccumulator | scripts/browser_match_harness.py:2630-2652 | The loops compute the histogram of steps per frame |
| FixedTimestep.HistogramCounts | scripts/browser_match_harness.py:2651 | The histogram's entry at k is the number of frames that took k steps |
| FixedTimestep.Drain | scripts/browser_match_harness.py:2647-2650 | The inner loop takes whole steps out, at most eight |
| FixedTimestep.NothingIsLost | scripts/browser_match_harness.py:2643-2651 | For any frames of up to eight steps' time, steps taken out plus a remainder below one step equal the time put in |
| FixedTimestep.TotalIsFloor | scripts/browser_match_harness.py:2643-2651 | So the total of steps is the floor of the total time over the step |
| FixedTimestep.EachFrame | scripts/browser_match_harness.py:2643-2651 | Each of a run of equal frames takes its length over the step, rounded down or up |
| FixedTimestep.KeepsUpExactly | scripts/browser_match_harness.py:2647 | Equal frames are kept up with exactly when they are no longer than eight steps |
| FixedTimestep.OneTickPerFrameExactly | scripts/browser_match_harness.py:265-278 | With the nudged frame length every frame takes exactly one step, exactly as long as n picoseconds stay below one step |
| FixedTimestep.SingleBarExactly | scripts/browser_match_harness.py:265-278 | For exactly those run lengths the histogram is a single bar of one step |
| Pacing.RunTicks | tools/browser_online_match/web/online_peer.ts:385-516 | The loop's clock after pacing each tick, and after none when pacing is off |
| Pacing.LatenessIsLargestSuffix | tools/browser_online_match/web/online_peer.ts:488-491 | How late a peer is equals the largest sum of overruns over its most recent ticks, or zero |
| Pacing.LateWithinExactly | tools/browser_online_match/web/online_peer.ts:488-491 | Lateness stays within a bound exactly when every recent run of ticks overran by no more |
| Pacing.SkewIsBounded | tools/browser_online_match/web/online_peer.ts:488-491 | Two paced peers are never further apart than the larger overrun, however long the run |
| Pacing.SleptAfterDrifts | tools/browser_online_match/web/online_peer.ts:475-477 | Sleeping after the work lets two peers drift apart by the whole difference of their work |
| Pacing.SteadyPeers | tools/browser_online_match/web/online_peer.ts:475-491 | Steady peers that fit the period stay exactly together when paced and drift linearly otherwise |
| Pacing.Unpaced | tools/browser_online_match/web/online_peer.ts:510 | With the period not positive the clock only works |
| ByteString.ByteStringFromBytes | tools/browser_online_match/web/online_peer.ts:45-53 | The chunked loop gives one code unit for each byte |
| ByteString.BytesFromByteString | tools/browser_online_match/web/online_peer.ts:55-61 | The array holds the low eight bits of each code unit |
| ByteString.RoundTrips | tools/browser_online_match/web/online_peer.ts:45-61 | Bytes always survive the trip; a string does exactly when every code unit is below 256 |

## Left out

- Bit-exact binary64: `cos_sin`, `exp` and the timing loops are over exact reals; only the atanh loop and the rounded `ln_ratio` carry a rounding function. The measured accuracy figures in the comments are therefore not stated.
- Binary64Rounding.MeetsRoundsToNearest: there is no upper exponent limit and so no infinity; nothing the loop computes comes near it.
- Panics on arguments outside the accepted domains are preconditions; infinities and not-a-numbers are not modelled.
- Minstd.Roll: the sample is an exact quotient; that its division is rounded is not modelled. The seed of a not-a-number is left out.
- Fnv1a64: the exclusive or is defined bit by bit on naturals and the wrap-around is written out, so the machine word is not a bit-vector here. `finish` only reads the state.
- RoomDurableObject.RoomObject: each handler is one atomic step, although the original awaits the alarm call in the middle; its two clock readings within one handler are one. SQLite, the schema migration, JSON texts and the WebSocket upgrade are reduced to the values they carry.
- RoomDurableObject.RoomObject.WebSocketMessage: a host's JSON null makes the handler throw, which is modelled as ending it without an effect.
- RoomDurableObject.RoomObject.Forward: sending to a socket never throws, and the accepted sockets are listed in acceptance order.
- RoomDurableObject.RoomObject.Disconnect: the platform is taken to have dropped the socket from the accepted ones before it reports the close.
- HTTP routing, TURN credentials, room-code generation and the close-code table of `infra/src`: small finite checks or I/O.
- The coordinator and the wire protocol are arbitrary functions; that its steps number consecutively and that its terminal phase is final are hypotheses of the lemmas that need them.
- Driver.CoordinatorDriver.constructor: the seat limit of the match mode and the fixtures that build the coordinators are not modelled.
- Driver.CoordinatorDriver.Enqueue: the trace entry of a queued packet and the panic on a message that does not encode are not modelled; encoding is a total function.
- Driver.CoordinatorDriver.Inject: the panic on a body that builds no valid message is not modelled, and the session id is part of the payload.
- The driver's log and its trace, `first_wire`, `transcript_id`, `reach_start` and `play_out`: fixed scripts and read-only views over the modelled operations.
- DriverProperties.FirstInFirstOut: for runs without replays; `DriverProperties.ReplayJumpsTheQueue` says what a replay does to the order.
- HashBlob.RerecordedJson: the document format is a pair of functions; the names in error messages other than the perturbed field's are values.
- `lateral_sign` and the rest of `tally`: a comparison with a dead band and repeated calls of the modelled count, which would only add easy members.
- FixedTimestep.OneTickPerFrameExactly: over the reals the plain 1000/60 would do as well; that it does not in binary64 is the rounding the model leaves out.
- Pacing.RunTicks: a sleep lasts exactly as long as asked and every tick reaches its pacing; early exits end the list of ticks.
- Browser control, page bootstrap, screenshots, tracing, rendering, content tables and report writing: I/O or plain data.
