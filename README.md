# Echo-navigation game: a verified model of its core

This project models the logic of an audio-only navigation game. The ship is steered by ear:
a ping comes back as stereo echoes, and the steering aid's two-tone "FAD" signal
points at the next waypoint. Each source file becomes one Dafny module:

- **MapBuilder** (`tools/mapbuilder.py`) compiles a map image into the level file. It covers:
  - ARGB colour packing;
  - the START, START_LOOK_AT and breadcrumb marker pixels;
  - breadcrumb filtering by green byte;
  - greedy nearest-neighbour route ordering;
  - per-cell classification with a four-neighbour majority vote for marker pixels;
  - the row-major cell list of `to_jsonable`.
- **Echo** (`src/ts/worklets/audio_worklet_processors.ts`) is the echo worklet. Two ring
  buffers (`array<real>`) receive every delay line's scaled copy of each 128-sample input
  block, and are then drained and cleared into the output blocks.
- **Keyboard** (`src/ts/keyboard.ts`) builds a key-to-name table with duplicate detection.
  It keeps the set of held keys and fires a name's event only on the first keydown of a key.
  The fired events are recorded in a log field.
- **Levels** (`src/ts/levels.ts`) is the first level's tutorial, Start → Intro → FAD → Play.
  It is a transition function `Step` whose outputs are the clips stopped and played and the
  toggles of the ship's FAD, plus a `Level1` class proved against it.
- **Core** (`src/ts/core.ts`) is the ship's `tick`: a one-shot bearing wrap into [-π, π],
  then a half-step/step/half-step update of position and velocity. It is done in place on
  two-element arrays. π is the 16-digit decimal 3.141592653589793 by which `Math.PI` is written; `sin`, `cos` and `sqrt` are
  parameters.
- **Player** (`src/ts/player.ts`) covers three pieces of arithmetic:
  - `triangleWave`, exact over the reals with `.Floor`;
  - the two FAD envelopes of `FAD.set`, before `Math.pow`, which is a parameter;
  - the two loops of `ping` that normalise the echo gains.
- **Utility** (`src/ts/utility.ts`) holds the synchronous `Event` listener list and
  `vectorDot`/`vectorLength`.
- **Wrappers** holds `Option` and `Result`, which model the `null`, `None` and raised-error
  paths.

A Python `raise` and a JavaScript `throw` both become a `Failure` carrying an error value
that names the case.

## Model

| member | source | states |
|---|---|---|
| MapBuilder.ColourRoundTrip | tools/mapbuilder.py:11-16 | `rgba_to_int(int_to_rgba(c)) == c` for every 32-bit colour |
| MapBuilder.RgbaRoundTrip | tools/mapbuilder.py:11-16 | `int_to_rgba(rgba_to_int(v)) == v` for every four-byte vector |
| MapBuilder.ByteLayoutExamples | tools/test_mapbuilder.py:5-13 | ARGB is laid out as [R, G, B, A]; the four single-byte colours map both ways |
| MapBuilder.BreadcrumbIffAlphaAndBlue | tools/mapbuilder.py:29-36 | a colour is a breadcrumb iff its alpha byte and its blue byte are both 0xFF |
| MapBuilder.FindPixels | tools/mapbuilder.py:48-50 | the result holds exactly the in-bounds pixels whose (masked) value equals the target; it is in strictly increasing x-major order |
| MapBuilder.FindStartExactlyOne | tools/mapbuilder.py:52-59 | `find_start` returns p iff p is the one and only START pixel; otherwise it raises |
| MapBuilder.FindStartLookAtExactlyOne | tools/mapbuilder.py:61-68 | the same rule for the START_LOOK_AT pixel |
| MapBuilder.FindBreadcrumbsMeaning | tools/mapbuilder.py:70-76 | it fails iff the map has no breadcrumb pixel; otherwise it returns a non-empty list of exactly the breadcrumb pixels |
| MapBuilder.FindBreadcrumbsAsWritten | tools/mapbuilder.py:70-76 | the code as written succeeds exactly when the corrected one does, with the same list |
| MapBuilder.MissingBreadcrumbRaisesAttributeError | tools/mapbuilder.py:72-75 | on a map without a breadcrumb, the code as written fails on the undefined `BREADCRUMB` attribute; the corrected one reports the missing breadcrumb |
| MapBuilder.FilteredFailure | tools/mapbuilder.py:83-88 | filtering raises iff some breadcrumb's green byte is not 0x00, 0x88 or 0xFF; the error carries the first such pixel's colour |
| MapBuilder.FilteredFailurePersists | tools/mapbuilder.py:83-88 | a raise on a prefix of the breadcrumbs is the raise of the whole list |
| MapBuilder.FilteredIsSubsequence | tools/mapbuilder.py:81-91 | on success the result is a subsequence of the input (input order kept), and every kept point has green 0xFF or the selected green |
| MapBuilder.FilteredKeepsAll | tools/mapbuilder.py:81-91 | every breadcrumb with green 0xFF or the selected green is kept as often as it occurs; every other is dropped |
| MapBuilder.FilterBreadcrumbs | tools/mapbuilder.py:78-91 | the appending loop computes the filter specification, including its error |
| MapBuilder.ArgMin | tools/mapbuilder.py:99 | `np.argmin`: an index of minimum distance, strictly nearer than every earlier index (first minimum wins) |
| MapBuilder.Remove | tools/mapbuilder.py:101 | `np.delete` removes exactly that one element (multiset) |
| MapBuilder.GreedyPermutes | tools/mapbuilder.py:97-102 | the greedy order is a permutation of the breadcrumbs |
| MapBuilder.GreedyFirstNearest | tools/mapbuilder.py:99-100 | the first point chosen is nearest to the start among all the points |
| MapBuilder.GreedyNearest | tools/mapbuilder.py:97-102 | at every step the next point is a nearest one among the points not yet visited |
| MapBuilder.RouteShape | tools/mapbuilder.py:93-102 | `get_route` gives None iff no breadcrumb survives filtering; otherwise it gives the START pixel followed by a permutation of the survivors, length survivors + 1, each step to a nearest remaining point |
| MapBuilder.NearestNeighbourOrder | tools/mapbuilder.py:97-102 | the `while` loop builds `[start]` followed by the greedy order |
| MapBuilder.GetRoute | tools/mapbuilder.py:93-102 | the method computes the route specification, errors included |
| MapBuilder.AxisIndex | tools/mapbuilder.py:106-107 | numpy indexing on one axis: an index in [-n, n) is accepted, and a negative one counts from the end |
| MapBuilder.At | tools/mapbuilder.py:106-107 | reading `data[x, y]` succeeds iff both indices are in [-size, size), and then equals the wrapped pixel |
| MapBuilder.MostCommon | tools/mapbuilder.py:105-114 | `most_common` with the tie check: a colour iff it is strictly the most frequent, an error iff the top counts tie |
| MapBuilder.MajorityWins | tools/mapbuilder.py:105-114 | a colour held by more than half of the neighbours is the one chosen |
| MapBuilder.EvenSplitIsTie | tools/mapbuilder.py:110-113 | two colours two each is a tie, in either order |
| MapBuilder.GetNeighbourColour | tools/mapbuilder.py:104-114 | on success the colour is strictly the most common of the four neighbours; with the four neighbours read, a failure is exactly a tie |
| MapBuilder.InteriorNeighboursExist | tools/mapbuilder.py:104-108 | off the far edges all four neighbours can be read, and inside the map they are the left, right, upper and lower pixels |
| MapBuilder.NeighboursWrapAround | tools/mapbuilder.py:106-107 | on the near edges the missing neighbour is the pixel on the opposite edge (numpy's index -1) |
| MapBuilder.MarkerOnFarEdgeRaises | tools/mapbuilder.py:104-119 | a marker pixel on the last column or last row raises an index error |
| MapBuilder.ClassifyMeaning | tools/mapbuilder.py:120-128 | alpha 0 gives BLANK; exactly TERRAIN, FINISH or INTERFERENCE give those cells; every other colour raises "bad pixel" |
| MapBuilder.GetCellPlain | tools/mapbuilder.py:116-128 | a non-marker pixel is classified by its own colour |
| MapBuilder.GetCellMarkerMajority | tools/mapbuilder.py:116-119 | an interior marker pixel is classified by the majority colour of its neighbours |
| MapBuilder.RowCellsLayout | tools/mapbuilder.py:146-148 | one row's cell values succeed iff every cell of it classifies, and are listed in x order |
| MapBuilder.GridCellsSucceed | tools/mapbuilder.py:146-148 | the cell list is built iff every cell classifies |
| MapBuilder.GridCellsLayout | tools/mapbuilder.py:134-148 | the cell list has width · height entries, and entry y · width + x is `get_cell(x, y).value` |
| MapBuilder.ExistingRoutes | tools/mapbuilder.py:135-139 | the routes that are not None, the ordinary one first |
| MapBuilder.Assemble | tools/mapbuilder.py:130-149 | `to_jsonable` succeeds iff each of its steps does; its fields are the steps' results, and `look` is the look-at pixel minus the start |
| MapBuilder.ToJsonableShape | tools/mapbuilder.py:130-148 | the compiled map has the image's size, the START pixel, the START_LOOK_AT offset from it, and the row-major cell list |
| MapBuilder.ToJsonableRoutes | tools/mapbuilder.py:135-145 | the compiled map has one or two routes, each at least two points long and leaving from the START pixel |
| MapBuilder.ToJsonableFailsOnCells | tools/mapbuilder.py:146-148 | once start, look-at and routes are found, compiling fails iff some cell cannot be classified |
| MapBuilder.RoutesNotBothMissing | tools/mapbuilder.py:89-96 | when both routes are computed without error, at least one exists, since every valid breadcrumb passes one of the two filters |
| Echo.MaxDelay | src/ts/worklets/audio_worklet_processors.ts:49-53 | the largest left or right delay of all lines, 0 without lines; it is one of the delays or 0 |
| Echo.EchoProcessor.constructor | src/ts/worklets/audio_worklet_processors.ts:39-57 | `bufferLength = maxDelay + 128 + 1`; both buffers are that long and all zero; both indices start at 0 |
| Echo.EchoProcessor.Process | src/ts/worklets/audio_worklet_processors.ts:59-80 | with input, each buffer becomes old + the sum over lines of the scaled block delayed by the line's delay ahead of `readIdx`, and `lastWriteIdx = (readIdx + 128 + maxDelay) % bufferLength`; then min(128, pending) samples are copied out and cleared; `readIdx` advances by that count round the ring; the result is `readIdx != lastWriteIdx` |
| Echo.EchoProcessor.Deposit | src/ts/worklets/audio_worklet_processors.ts:62-67 | the nested loops add every line's delayed, scaled block to both buffers, additively |
| Echo.EchoProcessor.AddLine | src/ts/worklets/audio_worklet_processors.ts:63-66 | one line's 128 writes, sample i at `(readIdx + i + delay) % bufferLength` |
| Echo.AddTap | src/ts/worklets/audio_worklet_processors.ts:64-65 | one `+=` of `gain * input[i]` into its ring slot |
| Echo.LineWritesAccumulated | src/ts/worklets/audio_worklet_processors.ts:62-67 | a line's writes put `gain * input[ahead - delay]` at each slot `ahead` past `readIdx` inside its window, and leave every other slot alone |
| Echo.EchoSumOutsideWindows | src/ts/worklets/audio_worklet_processors.ts:62-67 | a slot in no line's window receives nothing |
| Echo.WriteFits | src/ts/worklets/audio_worklet_processors.ts:54-67 | every write offset `i + delay` is below `maxDelay + 128`, so a block never wraps onto `readIdx` |
| Echo.SlotAhead | src/ts/worklets/audio_worklet_processors.ts:64-68 | `(from + t) % bufferLength` is the one slot t places ahead of `from` |
| Echo.InputBlockDrainsFullQuantum | src/ts/worklets/audio_worklet_processors.ts:68-72 | after an input block `lastWriteIdx` is the slot just behind `readIdx`, so a full quantum is emitted |
| Echo.DrainCount | src/ts/worklets/audio_worklet_processors.ts:72 | the drain emits at most 128 samples |
| Echo.DrainedMeaning | src/ts/worklets/audio_worklet_processors.ts:72-78 | output sample k is `buffer[(readIdx + k) % bufferLength]` for the samples emitted, and unchanged after them |
| Echo.EchoProcessor.Drain | src/ts/worklets/audio_worklet_processors.ts:72-78 | copies and clears the pending slots from `readIdx` on, stopping at 128 or at `lastWriteIdx`, and returns whether samples are still pending |
| Echo.EmitSample | src/ts/worklets/audio_worklet_processors.ts:73-76 | the output sample is the slot's value, and the slot becomes 0 |
| Echo.EchoProcessor.Advance | src/ts/worklets/audio_worklet_processors.ts:77 | `readIdx` moves one slot round the ring and stays below `bufferLength` |
| Echo.WrapIsMod | src/ts/worklets/audio_worklet_processors.ts:77 | the single-step wrap equals `%` below twice the ring length |
| Echo.FirstBlock | src/ts/worklets/audio_worklet_processors.ts:59-80 | a fresh processor's first output is, per sample, the sum over lines of gain · input delayed by the line's delay; more is pending iff some line has a delay |
| Echo.FirstBlockPending | src/ts/worklets/audio_worklet_processors.ts:68-79 | after the first block `readIdx != lastWriteIdx` iff `maxDelay > 0` |
| Echo.IdleStaysIdle | src/ts/worklets/audio_worklet_processors.ts:60-79 | with no input channel, a fresh processor emits nothing, leaves the output untouched and returns false |
| Keyboard.BuildKeyTable | src/ts/keyboard.ts:20-27 | construction succeeds iff no key appears twice across all key lists; then `keyToName[k] = n` exactly for the keys k listed under n; a failure names the first repeated key |
| Keyboard.EnterKeys | src/ts/keyboard.ts:21-26 | one name's keys are entered; a key already in the table fails with "Duplicate key"; earlier entries are kept |
| Keyboard.FoundRepeat | src/ts/keyboard.ts:20-26 | the key that fails is the first key, in visiting order, that repeats an earlier one |
| Keyboard.AllKeysMember | src/ts/keyboard.ts:20-21 | a key is visited iff some name lists it |
| Keyboard.Lookup | src/ts/keyboard.ts:49 | `nameToKeys.get(name)`: absent iff no entry has the name, otherwise an entry's key list |
| Keyboard.LookupDistinct | src/ts/keyboard.ts:49 | with distinct names, the lookup returns that name's own key list |
| Keyboard.Keyboard.constructor | src/ts/keyboard.ts:28-30 | every name gets an event channel; nothing is held or fired yet |
| Keyboard.Keyboard.Create | src/ts/keyboard.ts:17-31 | the constructor: it fails iff a key repeats; otherwise the table maps exactly the bound keys to their names, every name has a channel, and nothing is held |
| Keyboard.Keyboard.HandleKeyDown | src/ts/keyboard.ts:33-42 | an unbound key changes nothing; a bound key fires its name iff it was not already held, then is held |
| Keyboard.Keyboard.HandleKeyUp | src/ts/keyboard.ts:44-46 | the key is no longer held, and nothing else changes (harmless for keys not held) |
| Keyboard.Keyboard.Has | src/ts/keyboard.ts:48-55 | true iff some key bound to the name is held; a name without an entry fails |
| Keyboard.AutoRepeatScenario | src/ts/keyboard.ts:33-55 | auto-repeat of a held key fires nothing; a second key of the same name fires again; the name stays held until both keys are up |
| Keyboard.DuplicateAcrossNames | src/ts/keyboard.ts:20-24 | a key under two names is refused |
| Keyboard.DuplicateWithinName | src/ts/keyboard.ts:20-24 | a key listed twice under one name is refused |
| Levels.ClipFor | src/ts/levels.ts:79-96 | the clip of each stage; only Start and FAD start theirs after a 2000 ms delay |
| Levels.Initial | src/ts/levels.ts:70-74 | the level starts in Start with the Start clip |
| Levels.StepKeepsConsistent | src/ts/levels.ts:76-120 | the clip playing is always its stage's clip, or the help clip during Play |
| Levels.StepMonotone | src/ts/levels.ts:59-64 | no input ever moves the stage back in Start < Intro < FAD < Play |
| Levels.ToggleIgnoredEarly | src/ts/levels.ts:111-114 | `toggleFAD` in Start or Intro changes nothing and toggles nothing |
| Levels.ShipToggledOnlyFromFAD | src/ts/levels.ts:111-120 | the ship's FAD is toggled iff the input is `toggleFAD` from the FAD stage on, once and as the last effect |
| Levels.BeaconCases | src/ts/levels.ts:99-109 | the beacon moves Start to Intro; in Play it stops the clip and plays help without a stage change; in Intro and FAD it does nothing |
| Levels.ClipEndedCases | src/ts/levels.ts:80-96 | at clip end Intro moves to FAD, Start and FAD replay their clip, and the Play clip has no follow-up |
| Levels.RunMonotone | src/ts/levels.ts:59-120 | over any sequence of inputs the stage never goes back, and the clip stays consistent |
| Levels.PlayIsFinal | src/ts/levels.ts:94-120 | once in Play the level stays in Play |
| Levels.TutorialPath | src/ts/levels.ts:76-120 | beacon, the intro's end, then the toggle, reach Play with the drive clip, having toggled the ship once |
| Levels.Level1.constructor | src/ts/levels.ts:70-74 | `init`: Start, one ship FAD toggle, then the Start clip |
| Levels.Level1.HandleState | src/ts/levels.ts:76-97 | stops the clip and starts the current stage's clip, stage unchanged |
| Levels.Level1.Beacon | src/ts/levels.ts:99-109 | state and effects follow the `Step` specification for the beacon |
| Levels.Level1.ToggleFAD | src/ts/levels.ts:111-120 | state and effects follow the `Step` specification for the toggle |
| Levels.Level1.ClipEnded | src/ts/levels.ts:80-93 | state and effects follow the `Step` specification for the playing clip's `ended` listener |
| Core.WrapOnce | src/ts/core.ts:21-22 | the bearing is changed by 0 or ±2π, and is left alone when already in [-π, π] |
| Core.BearingStaysInRange | src/ts/core.ts:11-22 | a bearing in [-π, π] turned by \|rotate\| ≤ 1 stays in [-π, π]; the step is rotate · 0.2, possibly ± 2π |
| Core.NoTurnKeepsBearing | src/ts/core.ts:20-22 | without rotation a bearing in range is unchanged |
| Core.PositionIsTrapezoid | src/ts/core.ts:28-33 | new position = old position + TickTime/2 · (old velocity + new velocity) |
| Core.VelocityStep | src/ts/core.ts:20-31 | new velocity = old velocity + TickTime² · (thrust · Acceleration · (-sin b, cos b) - velocity · speed · Drag), with b the new bearing |
| Core.CoastingDrag | src/ts/core.ts:23-31 | without thrust each velocity component is scaled by 1 - speed · Drag · TickTime² |
| Core.ThrustFromRest | src/ts/core.ts:20-31 | from rest the new velocity is thrust · 0.3 along (-sin b, cos b) of the new bearing |
| Core.RestIsFixed | src/ts/core.ts:23-33 | a ship at rest without thrust stays put and at rest |
| Core.Ship.constructor | src/ts/core.ts:17 | the fields are the given position, velocity and bearing |
| Core.Ship.Tick | src/ts/core.ts:19-34 | the ship after `tick` is the `Next` state of the ship before it |
| Core.Ship.Turn | src/ts/core.ts:20-22 | the bearing is turned and wrapped once |
| Core.Ship.Move | src/ts/core.ts:23-33 | the in-place half step, velocity step and half step, with the acceleration taken from the velocity before the move |
| Player.TriangleWaveRange | src/ts/player.ts:11-15 | `triangleWave(x)` is always in [-1, 1] |
| Player.TriangleWavePeriodic | src/ts/player.test.ts:7-14 | `triangleWave(x ± 2π) = triangleWave(x)` |
| Player.TriangleWaveSamples | src/ts/player.test.ts:7-10 | the values at 0, π/4, π/2, π, 3π/2 are exactly 0, 0.5, 1, 0, -1 |
| Player.BasesInRange | src/ts/player.ts:38-53 | for a normalised direction in [-1, 1] both envelope bases are in [0, 1] |
| Player.BaseLandmarks | src/ts/player.ts:39-53 | both bases are 0 dead ahead; the positive one is 1 at 2/3, the negative one at -2/3 |
| Player.BasesMirror | src/ts/player.ts:44-53 | the negative base at d equals the positive base at -d |
| Player.FadGainsMirror | src/ts/player.ts:38-53 | turning the direction round swaps the two tone gains |
| Player.DeadAheadSilent | src/ts/player.ts:38-53 | dead ahead both tones are silent when `pow(0, 1.5) = 0` |
| Player.Fad.constructor | src/ts/player.ts:25-30 | both tones start at gain 0 |
| Player.Fad.Set | src/ts/player.ts:32-54 | the gain fields become the FAD envelope of the direction: 0 and 0 for `null` |
| Player.TotalGainBounds | src/ts/player.ts:101-104 | with positive raw gains the total is positive and at least each raw gain |
| Player.SumOfQuotients | src/ts/player.ts:105-107 | dividing every raw gain by the same total divides their sum by that total |
| Player.NormalisedGains | src/ts/player.ts:101-107 | for a non-empty ping every echo gain is in (0, 1] and the gains sum to 1 |
| Player.PingEchoes | src/ts/player.ts:101-109 | the two loops give one echo per pong: its delay, its raw gain over the total, and the triangle-wave pan of its bearing |
| Utility.Event.constructor | src/ts/utility.ts:11 | an event starts without listeners |
| Utility.Event.Listen | src/ts/utility.ts:13-15 | the listener is appended at the end and every earlier one is kept |
| Utility.Event.Send | src/ts/utility.ts:17-21 | every registered listener is called once, in registration order, with the data |
| Utility.RepeatedListenerCalledEachTime | src/ts/utility.ts:13-21 | a listener registered twice is called twice |
| Utility.DeliveriesAppend | src/ts/utility.ts:17-21 | the calls for `a + b` are the calls for `a`, then those for `b` |
| Utility.DotSymmetric | src/ts/utility.ts:33-35 | `vectorDot(a, b) = vectorDot(b, a)` |
| Utility.DotExample | src/ts/utility.test.ts:31 | `vectorDot([1, -1], [2, -3]) = 5` |
| Utility.LengthSquaredIsSelfDot | src/ts/utility.ts:29-35 | `vectorLength(x)² = vectorDot(x, x)` and the length is non-negative, for a true square root |
| Utility.LengthExample | src/ts/utility.test.ts:30 | `vectorLength([3, 4]) = 5` for a true square root |

## Left out

- Image loading, JSON output and the build entry point (`tools/mapbuilder.py:41-46, 151-156`) are I/O. The model starts from the `data` array of colour integers.
- The start bearing of `to_jsonable` (`np.arctan2`, line 133) is floating point. The model keeps the look-at offset it is computed from.
- The ordering by Python's `collections.Counter` among colours with equal count: only the tie check of line 110 matters for the result, and it is modelled.
- The worklet's `Math.round(sampleRate * delay)` and `registerProcessor`: delays are given as whole numbers of samples.
- The worklet's `Float32Array` samples are `real`s, so single-precision rounding is not modelled.
- Echo.EchoProcessor.Process: it requires the two output arrays to be distinct from each other and from the ring buffers. The Web Audio runtime provides separate arrays; aliasing among them is not modelled.
- The DOM `addEventListener` registration (`src/ts/keyboard.ts:18-19`) and `Keyboard.listen`, which forwards to `Event.listen` (modelled in Utility). A fired event is logged by name instead of invoking the channel's listeners.
- Keyboard: `nameToKeys` is a JavaScript `Map`, whose names are distinct. The model takes a sequence of bindings and assumes distinct names only where the `has` lookup needs it (`LookupDistinct`).
- `Event.send` is `async`. Its body runs synchronously, so it is modelled as a plain loop that returns the calls it makes. A listener is identified by its registration id, not run.
- `Math.sin`, `Math.cos`, `Math.sqrt` and `Math.pow` are function parameters. Facts that need a true square root assume `IsSqrt`.
- Player.NormalisedGains: it requires `pow(10, e) > 0` for every exponent (`PositivePowersOfTen`), which a true power of ten satisfies.
- Player.PingEchoes: it requires the same of `pow`. For an empty ping the source's second loop never runs, so no division happens; the model returns no echoes.
- Player: the Web Audio graph of `FAD`, `ping`, `collision` and `finished` (oscillators, ramps, delay, gain and panner nodes, fetch and decode). `core.Pong` is not part of this model; it is the `Pong` datatype with the three fields `ping` reads.
- Levels: `ClipEnded` stands for the `ended` event of the clip now playing. When `Playback.ended` fires relative to `stop()` is not part of this model. The `Level` base class's forwarding to the renderer and the player (`src/ts/levels.ts:9-57`) and `loadFirstLevel` are left out.
- Core.Ship.constructor: it requires distinct position and velocity arrays. `src/ts/core.ts:17` also accepts one array passed twice, and `tick` would then update it through both names; that aliased case is not modelled.
- JavaScript numbers are 64-bit doubles, but Core, Player and Utility compute over exact `real`s. Double rounding is not modelled, so these results hold exactly only in the model: the gains of `Player.NormalisedGains` summing to exactly 1, `Player.TriangleWavePeriodic`, the exact values of `Player.TriangleWaveSamples` (the tests compare approximately), and the wrap in `Core.BearingStaysInRange`.
- Core: the ship's collision, ping and route events named in `src/ts/levels.ts:21-28` are not defined in `src/ts/core.ts`, so there is nothing to model. `vectorLength` of `src/ts/core.ts:7-9` is the same as `Utility.VectorLength`, which is reused.
- MapBuilder.ToJsonableShape: it states that the start is the pixel `find_start` returns. That this is the only START pixel follows from `FindStartExactlyOne`.
- `tools/test_mapbuilder.py`'s `test_mappng` uses a `breadcrumbs` key and a `BREADCRUMB` attribute that the code does not have. The model follows the code.

## Findings

| source | as written | input that shows it | evidently intended | confidence | as-written member | corrected member |
|---|---|---|---|---|---|---|
| tools/mapbuilder.py:74 | the "no breadcrumb" message formats `self.BREADCRUMB`, which `MapPng` does not define, so building the message raises `AttributeError` instead of the intended `ValueError` | a one-pixel map whose pixel is 0 (`MapPng(np.array([[0]]))`) | raise the `ValueError` naming the breadcrumb mask `BREADCRUMB_MASK` | not executed | MapBuilder.MissingBreadcrumbRaisesAttributeError | MapBuilder.FindBreadcrumbs |
