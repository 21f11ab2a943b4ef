# Wikispeed edit-rate engine in Dafny

This project models the rate engine of the `wikispeed` page. The page shows one gauge per wiki for the Wikimedia recent-change feed.
Each gauge id owns a **channel**. A channel holds a buffer of edit timestamps, a unit and a gauge ceiling:

- `global`, `wikidatawiki` and `commonswiki` read in edits/min, with a ceiling of 600.
- Every other id reads in edits/sec, with a ceiling of 10.

Each feed message is **classified**:

- A canary event is dropped.
- An event of a tracked wiki is pushed onto that wiki's buffer.
- An event is also pushed onto the `global` buffer when its server name contains `wikipedia` or its wiki is `wikidatawiki` or `commonswiki`.

Once a second, the **update loop** computes a rate for every channel:

- For the first 60 seconds (bootstrap), the whole buffer is scaled by the elapsed time.
- After that (steady), the buffer is first pruned to the timestamps later than `now - 60`, and its length is scaled by a fixed factor.
- The gauge shows the smaller of the rate and its ceiling.

Modules, following the page's structure:

- `Channels` (channels.dfy): the registry. It holds the `Channel` value, the per-id units and ceilings, the reference registry `Declare(ids)` and the append operation.
- `Window` (window.dfy): the steady-phase filter `Prune` and its properties. The properties are exact survivors, arrival order, concatenation, idempotence and sliding.
- `Classifier` (classifier.dfy): events, the buffers an event names (`Targets`) and the reference effect of a message (`Deliver`). `Deliver` includes the throw when a buffer is missing.
- `Estimator` (estimator.dfy): the two-phase estimate, the ceiling and the effect of a tick on every channel.
- `Meter` (meter.dfy): the page's mutable state as the class `EditRateMeter`. It has a `channels` map field and a fixed `begin` time. Its constructor loops over the gauge ids. `OnMessage` pushes in place. `UpdateCounters` loops over every channel and reassigns its buffer. Each is proved equal to the reference functions above.

The clock is an input. The page's opening time is a constructor argument, and each tick receives `now`. Timestamps and rates are exact `real`s.

Several of the code's behaviours differ from what a reader might expect of a rate gauge. The model follows the code in each case:

- **Bootstrap scale.** One might expect the bootstrap rate to be the count in the channel's own unit divided by the elapsed seconds. Then three edits at seconds 1, 2 and 3 of a per-second channel, read at second 3, would show 1.0. The code multiplies per-second counts by 60 and per-minute counts by 1 (wikispeed/wikispeed.js:119). These factors are the reciprocals of the steady factors on line 122. On that example the code computes 60, and the gauge is capped at 10 (`Estimator.BootstrapPerSecondScenario`).
- **Global match.** Which events feed `global` is hard-coded: a substring test for `wikipedia` on the server name, plus two wiki names. It is not configurable.
- **Duplicate ids.** A repeated gauge id is not rejected. Both gauges share one buffer, and `Declare` does the same.
- **Missing buffer.** A tracked wiki, or `global`, may have no gauge on the page. A push onto its missing buffer then throws a `TypeError`. That ends the handler, and any push already made stays in place. `Deliver` records this as `threw`.
- **No lower bound.** The shown value is capped only from above, by `Math.min` with the ceiling. If the clock put a tick before the opening time, a channel whose buffer holds edits would show a negative value, and an empty one would show 0 (`Estimator.DisplayedBeforeStart`). At zero elapsed time, a gauge shows its ceiling if its buffer has entries and NaN if it is empty (`Estimator.DisplayedAtStart`).

## Model

| member | source | states |
|---|---|---|
| `Channels.Fresh` | wikispeed/wikispeed.js:12-15 | a new channel has an empty buffer; it is per-minute exactly when its id is listed in `perMinuteWikis`; its ceiling is 600 if per-minute and 10 otherwise |
| `Channels.Declare` | wikispeed/wikispeed.js:10-15 | the registry holds an entry for exactly the gauge ids; a repeated id shares one entry, so there are at most as many entries as ids; each entry is a fresh channel |
| `Channels.DeclaredChannels` | wikispeed/wikispeed.js:10-15 | the registry has exactly one channel per gauge id; each starts with an empty buffer; it is per-minute exactly when listed in `perMinuteWikis`; its ceiling is 600 if per-minute and 10 otherwise, so always positive |
| `Meter.EditRateMeter.constructor` | wikispeed/wikispeed.js:10-15 | the loop over the gauge ids builds exactly the reference registry `Declare(ids)` and fixes the opening time |
| `Channels.Append` | wikispeed/wikispeed.js:97 | a push keeps the old buffer as a prefix, places the timestamp last, grows the buffer by one, and leaves unit and ceiling alone |
| `Window.Prune` | wikispeed/wikispeed.js:121 | the filtered buffer is no longer than the original, holds only timestamps later than the cutoff, and holds nothing the original lacked |
| `Window.PruneKeepsExactlyLater` | wikispeed/wikispeed.js:121 | each timestamp later than the cutoff survives with all its copies; each one at or before the cutoff loses all of them |
| `Window.PruneIsSubsequence` | wikispeed/wikispeed.js:121 | the survivors keep their relative arrival order (a subsequence of the old buffer) |
| `Window.PruneConcat` | wikispeed/wikispeed.js:121 | pruning distributes over concatenation, so later pushes are pruned independently of earlier contents |
| `Window.PruneKeepsRecent` | wikispeed/wikispeed.js:121 | a buffer whose timestamps are all inside the window is unchanged by pruning |
| `Window.PruneIdempotent` | wikispeed/wikispeed.js:121 | pruning twice with the same cutoff equals pruning once |
| `Window.PruneSlides` | wikispeed/wikispeed.js:121 | pruning at an earlier cutoff and then a later one equals pruning once at the later one |
| `Classifier.ContainsIsSubstring` | wikispeed/wikispeed.js:100 | the `Contains` test that models `match("wikipedia")` holds exactly when the pattern occurs at some position of the text |
| `Classifier.FeedsGlobalExactly` | wikispeed/wikispeed.js:100 | an event feeds the aggregate exactly when `wikipedia` occurs somewhere in its server name or its wiki is `wikidatawiki` or `commonswiki` |
| `Classifier.InertExactly` | wikispeed/wikispeed.js:92-102 | on a registry holding every tracked wiki, an event leaves every buffer unchanged exactly when its `meta.domain` is `canary` (`IsCanary`) or it is neither of a tracked wiki nor feeds the aggregate |
| `Classifier.Targets` | wikispeed/wikispeed.js:92-102 | a canary names no buffer; an event names at most two buffers, both among its own wiki and `global`; its own wiki is named exactly when it is tracked; `global` is named exactly when the event feeds the aggregate or is itself of wiki `global` |
| `Classifier.TargetCount` | wikispeed/wikispeed.js:96-102 | a non-canary event names each buffer once for being its tracked wiki plus once for being `global` when it feeds the aggregate, and names no other buffer |
| `Classifier.PushAll` | wikispeed/wikispeed.js:96-102 | successive pushes never add or remove a channel, nor change a unit or ceiling, even when one of them throws |
| `Classifier.PushAllThrows` | wikispeed/wikispeed.js:96-102 | the pushes throw exactly when some named buffer does not exist |
| `Classifier.PushAllAppends` | wikispeed/wikispeed.js:96-102 | when every named buffer exists, each buffer gains one copy of the timestamp per time it is named, after its old contents |
| `Classifier.PushAllUntouched` | wikispeed/wikispeed.js:96-102 | a buffer that is not named is left exactly as it was |
| `Classifier.Deliver` | wikispeed/wikispeed.js:89-103 | handling a message keeps the set of channel ids |
| `Classifier.CanaryIsInert` | wikispeed/wikispeed.js:92-94 | a canary event changes no buffer and does not throw |
| `Classifier.UnmatchedIsInert` | wikispeed/wikispeed.js:96-102 | an event of an untracked wiki that does not feed the aggregate changes nothing and does not throw |
| `Classifier.DeliverThrows` | wikispeed/wikispeed.js:96-102 | a message throws exactly when it is not a canary and its tracked wiki's buffer or the needed `global` buffer is missing; it never throws on a registry holding every tracked wiki; units and ceilings stay consistent |
| `Classifier.DeliverAppends` | wikispeed/wikispeed.js:96-102 | on a registry holding every tracked wiki, each buffer becomes its old contents followed by one copy of the timestamp per time the event names it |
| `Classifier.OwnWikiAppended` | wikispeed/wikispeed.js:96-98 | a tracked wiki's non-canary event lands at the end of its own buffer, with the old contents as a prefix |
| `Classifier.GlobalFedExactly` | wikispeed/wikispeed.js:100-102 | for an event of any wiki but `global`, the `global` buffer grows by one entry exactly when the server name contains `wikipedia` or the wiki is `wikidatawiki`/`commonswiki`, and otherwise stays the same length |
| `Classifier.OthersUnchanged` | wikispeed/wikispeed.js:96-102 | no buffer other than the event's own wiki's and `global` changes |
| `Classifier.AtMostOnePerBuffer` | wikispeed/wikispeed.js:96-102 | no buffer grows by more than one entry unless the event is a non-canary event of wiki `global` that also feeds the aggregate; such an event adds exactly two entries to `global` |
| `Meter.EditRateMeter.OnMessage` | wikispeed/wikispeed.js:89-103 | the in-place handler leaves the registry, and reports a throw, exactly as the reference `Deliver` does; unit/ceiling consistency is kept |
| `Estimator.Quotient` | wikispeed/wikispeed.js:119 | JavaScript division of a non-negative count: for a non-zero divisor, the result times the divisor is the count; for a zero divisor, the result is +Infinity exactly when the count is positive and NaN exactly when it is zero |
| `Estimator.AtMost` | wikispeed/wikispeed.js:127 | `Math.min` with the ceiling: a finite rate becomes a value no greater than the rate or the ceiling and equal to one of them; +Infinity becomes the ceiling; NaN stays NaN |
| `Estimator.EstimateScales` | wikispeed/wikispeed.js:118-122 | the rate `Estimate` is finite unless no time has elapsed, and non-negative once time has elapsed; in bootstrap, rate × elapsed = buffer length × (1 per-minute, 60 per-second); in steady phase, rate × (1 per-minute, 60 per-second) = number of timestamps later than `now - 60` |
| `Estimator.Advance` | wikispeed/wikispeed.js:118-123 | a tick keeps each channel's unit and ceiling and never lengthens its buffer; in steady phase every remaining timestamp is later than `now - 60` |
| `Estimator.AdvanceAll` | wikispeed/wikispeed.js:114-123 | a tick keeps exactly the same channel ids |
| `Estimator.DisplayAll` | wikispeed/wikispeed.js:114-131 | a tick produces a reading for every channel id and no other |
| `Estimator.Displayed` | wikispeed/wikispeed.js:125-127 | after a positive elapsed time, the shown value is finite and lies between 0 and the channel's ceiling |
| `Estimator.BootstrapEstimate` | wikispeed/wikispeed.js:118-119 | for any non-zero elapsed time under 60 seconds (negative included), the buffer is not touched and the rate is length × (1 if per-minute, else 60) / elapsed |
| `Estimator.SteadyEstimate` | wikispeed/wikispeed.js:120-122 | from 60 seconds on, the survivors are the pruned buffer and the rate is their count (per-minute) or count/60 (per-second), depending on nothing else |
| `Estimator.DisplayedIsClampedEstimate` | wikispeed/wikispeed.js:127 | after a positive elapsed time, the rate is a non-negative finite number and the shown value is the rate if it is within the ceiling, else the ceiling |
| `Estimator.DisplayedAtStart` | wikispeed/wikispeed.js:118-127 | at zero elapsed time, JavaScript division gives +Infinity or NaN; the gauge then shows its ceiling if the buffer has entries and NaN if it is empty |
| `Estimator.DisplayedBeforeStart` | wikispeed/wikispeed.js:119-127 | with a negative elapsed time, a gauge with edits in its buffer shows a negative value and one with an empty buffer shows 0 |
| `Estimator.BootstrapKeepsBuffers` | wikispeed/wikispeed.js:118-119 | a bootstrap tick leaves every buffer unchanged |
| `Estimator.SteadyTickWindows` | wikispeed/wikispeed.js:121 | after a steady tick, each buffer holds exactly its timestamps later than `now - 60` (with their multiplicities) in arrival order, and is no longer than before |
| `Estimator.TickIdempotent` | wikispeed/wikispeed.js:114-123 | a second tick at the same instant leaves the buffers as the first one did |
| `Estimator.TicksSlide` | wikispeed/wikispeed.js:114-123 | two steady ticks at non-decreasing times leave the buffers as the later tick alone would |
| `Estimator.DisplayBounded` | wikispeed/wikispeed.js:125-127 | on a consistent registry, after a positive elapsed time, every gauge shows a finite value in [0, 600] for per-minute ids and in [0, 10] for the others (ceilings from line 15) |
| `Estimator.SteadyPerSecondScenario` | wikispeed/wikispeed.js:120-122 | a per-second channel with 30 timestamps all inside the window shows 0.5 edits/sec in steady phase |
| `Estimator.BootstrapPerSecondScenario` | wikispeed/wikispeed.js:118-127 | three edits of a per-second channel read at elapsed 3 give a rate of 60 (the code's bootstrap scale), shown capped at 10 |
| `Meter.TickChannel` | wikispeed/wikispeed.js:115-127 | the loop body leaves the channel as the reference tick `Advance` does and returns the reference reading `Displayed` |
| `Meter.EditRateMeter.UpdateCounters` | wikispeed/wikispeed.js:110-133 | the in-place loop over every channel leaves the registry equal to the reference tick, returns the reference reading for every id, and keeps unit/ceiling consistency |

## Left out

- Gauge chart configuration and creation (wikispeed/wikispeed.js:17-79) belong to a foreign UI library. Only each gauge's ceiling, which line 127 reads back as the axis maximum, is kept in the channel.
- A gauge whose chart could not be created gets no update (line 125). The model returns a reading for every channel id, as if every chart exists.
- The chart update call and its try/catch (lines 125-131) are display plumbing. They become the returned map of shown values.
- The DOM lookup of gauge nodes (lines 1, 10-11) is replaced by the gauge ids, passed as a parameter.
- The `EventSource` connection, its `onopen`/`onerror` logging and `JSON.parse` (lines 83-90, 105-107) are network I/O. A message is modelled as a record with `wiki`, `server_name`, `meta.domain` and `timestamp`.
- Messages whose `server_name` is missing or is not a string would throw at line 100. They are not representable in the model.
- `setInterval` scheduling and the `onbeforeunload` teardown (lines 136-142) are timer and lifecycle plumbing.
- `Date.now()` (lines 2, 111) is replaced by the `begin` constructor argument and the `now` argument of each tick.
- IEEE floating-point rounding is not modelled, because arithmetic is exact over `real`. This includes the division by 60 on line 122. A division by zero elapsed time is modelled (+Infinity or NaN); negative zero is not.
- The order in which `for...in` visits the ids (line 114) is left open: the loop takes any remaining id. Channels are independent, so the final state and readings do not depend on it.
- `String.match` is modelled only for the literal pattern `wikipedia`, which has no special regular-expression characters and so is a substring test.
