# EspEventChain in Dafny

A model of the cascading timed-callback scheduler of the EspEventChain
library. An `EspEvent` holds a delay in milliseconds (measured from the
preceding event), an optional callback and a text handle. An `EspEventChain`
holds a vector of events, a cursor and two flags (`_started`, `_runOnceFlag`).
The chain's scheduling task runs the event under the cursor, moves on to the
next event that has a callback (wrapping to position 0 at the end), and waits
the delay of the event it arrived at. In run-once mode, reaching the end stops
the chain instead of cycling.

Files:

- `outcomes.dfy`: `Result`, `Status` and `Option`. A position the source
  rejects with `panic()` (the position check) or with `std::out_of_range`
  (`std::vector::at`) becomes an `Err`/`Fail` value. The chain is left
  unchanged in that case.
- `esp_event.dfy`: the `Event` value that a chain copies, and the `EspEvent`
  class, whose setters update it in place. Callbacks are abstract numbers.
  Running an event is described by the list of callbacks it invokes.
- `chain_spec.dfy`: what a chain means, stated on values. It defines the sums
  of delays, the scan for the next callable event (`NextCallable`, `Advance`),
  one iteration of the scheduling loop (`Tick`), the loop itself run for a
  bounded number of iterations (`Run`), and the start transition (`Begin`).
  It also holds the lemmas that relate them.
- `esp_event_chain.dfy`: the `EspEventChain` class. Its fields are updated in
  place. The scheduling methods and the time sums are proved against the
  functions of `chain_spec.dfy`. The editing methods and the getters state
  the new event sequence directly in terms of the old one. The field `fired`
  records, in order, the positions whose callback ran. It stands for the
  callbacks' side effects.
- `findings.dfy`: three behaviours of the source that contradict its
  documentation. Each is modelled as written, with the input that shows it.
- `scenarios.dfy`: client code that replays the repository's test programs
  through the class interface.

The header comment of `getIteratorFromHandle` (src/EspEventChain.h:243-246)
says it returns the matching event closest to `begin()`. The loop in
src/EspEventChain.cpp:66-68 overwrites the result on every match, so it
returns the last match. The model follows the code.

## Model

| member | source | states |
|---|---|---|
| `EspEvents.MakeEvent` | src/EspEvent.cpp:5-12 | the constructor stores delay, callback and handle unchanged; the handle defaults to "null" |
| `EspEvents.DefaultEvent` | src/EspEvent.h:48-54 | the default event has no callback, delay 0 and (corrected, see Findings) the handle "null" |
| `EspEvents.Event.WithTime` | src/EspEvent.cpp:26-29 | setTime changes only the delay (0 allowed); callback and handle unchanged |
| `EspEvents.Event.WithCallback` | src/EspEvent.cpp:31-34 | setCallback changes only the callback; the event is callable exactly when the new callback is |
| `EspEvents.Invocations` | src/EspEvent.cpp:18-24 | runEvent invokes the stored callback exactly once, and nothing when the callback is empty |
| `EspEvents.EspEvent.Default` | src/EspEvent.cpp:3 | a default-constructed object holds the default event value, whose handle is "null" (corrected, see Findings) |
| `EspEvents.EspEvent.constructor` | src/EspEvent.h:56-67 | the object holds exactly the given delay, callback and handle ("null" when omitted) |
| `EspEvents.EspEvent.IsCallable` | src/EspEvent.cpp:14 | operator bool is true exactly when the stored callback is not empty |
| `EspEvents.EspEvent.GetTime` | src/EspEvent.cpp:15 | returns the last delay set, by the constructor or by setTime |
| `EspEvents.EspEvent.GetHandle` | src/EspEvent.cpp:16 | returns the handle given at construction |
| `EspEvents.EspEvent.RunEvent` | src/EspEvent.cpp:18-24 | the calls made are exactly `Invocations` of the current value |
| `EspEvents.EspEvent.SetTime` | src/EspEvent.h:76-85 | updates the delay in place, leaves callback and handle, and returns the same object |
| `EspEvents.EspEvent.SetCallback` | src/EspEvent.h:88-96 | replaces only the callback in place and returns the same object; a later RunEvent calls the new callback |
| `ChainSpec.SumConcat` | src/EspEventChain.cpp:28-39 | the total delay of two concatenated chains is the sum of their totals |
| `ChainSpec.TotalTimeBeforeStep` | src/EspEventChain.cpp:28-44 | totalTimeBefore(pos) + getTimeOf(pos) == totalTimeBefore(pos + 1) |
| `ChainSpec.AppendTotal` | src/EspEventChain.cpp:88-91 | appending an event raises the total time by exactly its delay |
| `ChainSpec.InsertTotal` | src/EspEventChain.cpp:93-104 | inserting an event at any position raises the total time by exactly its delay |
| `ChainSpec.RemoveTotal` | src/EspEventChain.cpp:106-126 | removing the event at pos lowers the total time by exactly its delay |
| `ChainSpec.RemoveThenInsert` | src/EspEventChain.cpp:93-126 | removing the event at pos and inserting it back at pos restores the chain exactly |
| `ChainSpec.ContainsNonzero` | src/EspEventChain.cpp:306-311 | true exactly when some event has a nonzero delay |
| `ChainSpec.NonzeroIffPositiveTotal` | src/EspEventChain.cpp:169-180 | the start guard refuses exactly the chains whose total time is 0 (empty or all delays 0) |
| `ChainSpec.NextCallable` | src/EspEventChain.cpp:271-279 | the first position after the cursor whose event has a callback, or the end when there is none |
| `ChainSpec.Advance` | src/EspEventChain.cpp:271-283 | moves to the smallest later callable position and reports true; otherwise moves to 0 (without checking event 0) and reports `!runOnce` |
| `ChainSpec.Tick` | src/EspEventChain.cpp:217-242 | one loop iteration: the current event fires if it has a callback; the chain stops, with the run-once flag cleared, exactly when a run-once pass wraps; the wait is the delay under the new cursor |
| `ChainSpec.Run` | src/EspEventChain.cpp:217-242 | the loop run for at most the given number of iterations keeps the events and leaves a running chain with a valid cursor |
| `ChainSpec.CallableFromExactly` | src/EspEventChain.cpp:271-283 | the reference list of callable positions from k holds each callable position of k..n-1 once, in increasing order |
| `ChainSpec.CallableFromSkip` | src/EspEventChain.cpp:271-279 | positions without a callback add nothing to the list of callable positions |
| `ChainSpec.RunOnceFiresSuffix` | src/EspEventChain.cpp:217-227 | a run-once pass from cursor c fires exactly the callable positions c..n-1, in order, then stops with the flag clear |
| `ChainSpec.CyclicKeepsRunning` | src/EspEventChain.cpp:271-283 | without the run-once flag the loop never stops and waits once per iteration |
| `ChainSpec.Begin` | src/EspEventChain.cpp:139-180 | startFrom/runOnceStartFrom (corrected, see Findings): a position past the end is an error; otherwise the cursor is set and the flag is set to the mode; the chain starts exactly when the cursor is on an event and the total time is positive |
| `ChainSpec.StartNeverRunsOnce` | src/EspEventChain.cpp:137-144 | a chain started by the corrected startFrom (see Findings) keeps cycling for any number of iterations |
| `ChainSpec.RunOnceStartFromFires` | src/EspEventChain.cpp:146-151 | runOnceStartFrom(k) followed by the loop fires exactly the callable events k..n-1, in order, then clears the run-once flag and stops |
| `EspEventChains.EspEventChain.constructor` | src/EspEventChain.cpp:9 | a default-constructed chain is empty, stopped, with the run-once flag clear |
| `EspEventChains.EspEventChain.WithCapacity` | src/EspEventChain.cpp:11-14 | reserving capacity leaves the chain empty, stopped, with the run-once flag clear |
| `EspEventChains.EspEventChain.FromEvents` | src/EspEventChain.h:102-107 | stores copies of its arguments in argument order, so numEvents is the argument count; stopped, flag clear |
| `EspEventChains.EspEventChain.Destroy` | src/EspEventChain.h:114 | the destructor leaves the chain not running and changes nothing else |
| `EspEventChains.EspEventChain.NumEvents` | src/EspEventChain.cpp:128 | the number of stored events |
| `EspEventChains.EspEventChain.IsRunning` | src/EspEventChain.h:305 | reports the started flag |
| `EspEventChains.EspEventChain.GetTimeOf` | src/EspEventChain.cpp:41-44 | the delay at pos < n; pos == n passes the position check and fails in `at`; pos > n fails the check |
| `EspEventChains.EspEventChain.GetTotalTimeBefore` | src/EspEventChain.cpp:28-39 | the sum of the delays of positions 0..k-1 (0 for k == 0); k > n is an error |
| `EspEventChains.EspEventChain.GetTotalTime` | src/EspEventChain.cpp:23-26 | the sum of every delay, 0 for an empty chain |
| `EspEventChains.EspEventChain.GetIteratorFromHandle` | src/EspEventChain.cpp:56-70 | the LAST position whose handle equals the query; n when nothing matches or the query is "null" |
| `EspEventChains.EspEventChain.GetPositionFromHandle` | src/EspEventChain.cpp:46-54 | -1 exactly when the query is "null" or matches nothing; otherwise the last matching position |
| `EspEventChains.EspEventChain.PushBack` | src/EspEventChain.cpp:88-91 | appends a copy of the event's current value; nothing else changes |
| `EspEventChains.EspEventChain.EmplaceBack` | src/EspEventChain.h:128-131 | appends the event built from the arguments; nothing else changes |
| `EspEventChains.EspEventChain.Insert` | src/EspEventChain.cpp:93-104 | pos <= n gives `old[..pos] + [e] + old[pos..]` (pos == n appends); pos > n is an error with the chain unchanged |
| `EspEventChains.EspEventChain.Emplace` | src/EspEventChain.h:161-167 | pos <= n places the built event at pos and shifts the later ones up; pos > n is an error with the chain unchanged |
| `EspEventChains.EspEventChain.Remove` | src/EspEventChain.cpp:106-126 | pos < n returns the old event at pos and leaves `old[..pos] + old[pos+1..]`; pos == n and pos > n are errors with the chain unchanged |
| `EspEventChains.EspEventChain.ChangeTimeOf` | src/EspEventChain.cpp:72-77 | sets the delay at pos and changes nothing else in any event; pos >= n is an error with the chain unchanged |
| `EspEventChains.EspEventChain.AtEndOfChain` | src/EspEventChain.cpp:315-317 | the cursor is past the last event |
| `EspEventChains.EspEventChain.ValidCurrentEvent` | src/EspEventChain.cpp:312-314 | the cursor is on an event that has a callback |
| `EspEventChains.EspEventChain.SetCurrentEventTo` | src/EspEventChain.cpp:294-299 | moves the cursor to pos when the position check (0 <= pos <= n) passes; otherwise an error |
| `EspEventChains.EspEventChain.StartCurrent` | src/EspEventChain.cpp:169-199 | `_start` (corrected): the chain starts exactly when the cursor is on an event and some delay is nonzero |
| `EspEventChains.EspEventChain.Begin` | src/EspEventChain.cpp:139-151 | the shared body of the two start variants (corrected, see Findings): the new state is `ChainSpec.Begin` of the old one |
| `EspEventChains.EspEventChain.StartFrom` | src/EspEventChain.cpp:139-144 | startFrom (corrected, see Findings): the new state is `ChainSpec.Begin(old, pos, false)`, so the run-once flag is cleared and pos == n is refused; an error leaves the chain unchanged |
| `EspEventChains.EspEventChain.Start` | src/EspEventChain.cpp:137 | startFrom(0) (corrected, see Findings), which never fails |
| `EspEventChains.EspEventChain.RunOnceStartFrom` | src/EspEventChain.cpp:146-151 | runOnceStartFrom: the new state is `ChainSpec.Begin(old, pos, true)`, so the flag is set whether or not the chain starts, as in the source; startFrom clears it (see Findings). The one correction is that pos == n is refused (see Findings); an error leaves the chain unchanged |
| `EspEventChains.EspEventChain.RunOnce` | src/EspEventChain.cpp:153 | runOnceStartFrom(0), which never fails; sets the flag whether or not the chain starts |
| `EspEventChains.EspEventChain.Stop` | src/EspEventChain.cpp:155-167 | leaves the chain not running; a no-op when it was not running |
| `EspEventChains.EspEventChain.AdvanceToNextCallable` | src/EspEventChain.cpp:271-283 | the recursive scan ends in exactly the state and result of `ChainSpec.Advance` |
| `EspEventChains.EspEventChain.TickOnce` | src/EspEventChain.cpp:217-242 | one loop iteration ends in exactly the state, firing and wait of `ChainSpec.Tick` |
| `EspEventChains.EspEventChain.HandleTick` | src/EspEventChain.cpp:207-248 | the task loop ends in exactly the state, firings and waits of `ChainSpec.Run` |
| `ChainFindings.BeginAsWritten` | src/EspEventChain.cpp:139-180 | start as written: accepts pos == n, starts whenever the total time is positive, and ORs the run-once flag into the old one |
| `ChainFindings.StartAtEndIsAccepted` | src/EspEventChain.h:23-29 | on a one-event chain, startFrom(1) as written starts the chain with the cursor at end() |
| `ChainFindings.StartAtEndIsRefused` | src/EspEventChain.h:262-269 | corrected: startFrom(1) on a one-event chain leaves it stopped |
| `ChainFindings.StickyRunOnce` | src/EspEventChain.cpp:146-151 | as written: a refused runOnce() leaves the flag set, so a later start() stops after its first iteration |
| `ChainFindings.StartAfterRefusedRunOnceCycles` | src/EspEventChain.cpp:139-144 | corrected: the same sequence leaves start() cycling |
| `ChainFindings.DefaultHandleAsWritten` | src/EspEvent.cpp:3 | the default constructor as written stores no handle, so its handle is not "null" |
| `ChainFindings.DefaultHandleDiffers` | src/EspEvent.h:105-110 | the documented default handle "null" differs from what the as-written constructor leaves |
| `ChainScenarios.RunOnceFromTwo` | src/EspEventChainTest.cpp:239-260 | on [A, B, A, A, B, B], runOnceStartFrom(2) fires positions 2..5, adds 2+2+3+3 to the counter and stops |
| `ChainScenarios.AllZeroRefuses` | src/EspEventChain.cpp:175-179 | a chain whose delays are all 0 does not start |
| `ChainScenarios.StartThenStop` | test/constructor_getters_setters/test.cpp:100-107 | not running before start(), running after it, not running after stop() |
| `ChainScenarios.LookupFindsLater` | src/EspEventChain.cpp:66-68 | two events tagged "x": lookup returns the later one; "null" returns -1 |
| `ChainScenarios.CopyIsIndependent` | src/EspEventChainTest.cpp:123-143 | the chain keeps a copy, in the mutation form of that test's property: setting the caller's event to another delay after `PushBack` leaves the stored delay at 30 (the test instead deletes the caller's object) |
| `ChainScenarios.InsertOrder` | src/EspEventChainTest.cpp:160-185 | push_back/insert in the test's order give the delays [10, 0, 10, 0] |

## Left out

- The platform timer wrappers (the TickerHandler classes) are not part of this model. They are FreeRTOS and ESP8266 `Ticker` adapters that the chain does not use.
- Real time is left out. `millis()` in `runEvent` is not modelled, and neither are `vTaskDelayUntil`, `taskYIELD` or `pdMS_TO_TICKS`. Each wait is recorded as a number of milliseconds, and a wait of 0 means "no wait".
- Task management is left out: `xTaskCreate`, `vTaskDelete`, `sHandleTick`'s pointer cast and the stack high-water logging. The model runs the task loop directly.
- `Stop` does not model the busy-wait in `stop()` that spins until the task has moved the cursor to end(). It also does not model the task moving the cursor to end() on exit. These are a handshake between two execution contexts. Note that when `stop()` is called from inside the task loop (the run-once exit), it waits for a cursor change that only that same task would make. So when a run-once pass ends, the source's task hangs in `stop()` and never reaches the wait after it, while `ChainSpec.Tick` and `Run` still record a wait of `events[0].time` for that last iteration.
- `HandleTick` runs at most `maxTicks` iterations. The source loop runs until `_started` is cleared, which in cyclic mode only a caller's `stop()` does. The bound is an observation horizon.
- The non-ESP32 branch of `handleTick` is not modelled. It runs one event, and its re-arming cascade is commented out.
- `ESP_LOG*` diagnostics are not modelled.
- `panic()` and `std::out_of_range` are modelled as error results.
- Handles are strings. A C-string pointer cannot be null here, so the null-pointer check on the query has no counterpart. `strcmp` becomes string equality.
- Delays are unbounded naturals. The `unsigned long` wrap-around of the time sums is not modelled.
- `RunEvent` does not return the elapsed time that the definition computes with `millis()`. The header declares `runEvent` as `void`, while the definition returns `unsigned long`.
- `WithCapacity` does not model the capacity reservation (`reserve`), because it has no observable effect on the chain.
- `EspEventChains.EspEventChain.constructor` sets the cursor to 0. In the source, `_currentEvent` is left default-constructed until the first start.
- `StartFrom`, `Start`, `RunOnceStartFrom`, `RunOnce`: these require a stopped chain. Starting a running chain creates a second task that runs over the same state. That is a data race the model does not represent.
- `PushBack`, `EmplaceBack`, `Insert`, `Emplace`, `Remove`: an edit while the chain runs keeps the cursor index. The source documents the four insertions as undefined behaviour while the chain runs; `remove` while running is allowed and only logs a warning. In all five, a reallocation or shift invalidates the cursor iterator. `TickOnce` requires the cursor to be on an event, as the source's dereference does.

## Findings

| source | as written | input that shows it | evidently intended | confidence | as-written member | corrected member |
|---|---|---|---|---|---|---|
| src/EspEventChain.cpp:139-144 | the position check accepts pos == numEvents(), and `_start` then starts the chain with the cursor at end(); the first loop iteration calls `runEvent` through end() | chain [10 ms event], `startFrom(1)` | start only from a position `0 <= pos < numEvents()`, as the header documents at src/EspEventChain.h:262-269 | high, not executed | `ChainFindings.StartAtEndIsAccepted` | `ChainFindings.StartAtEndIsRefused` |
| src/EspEventChain.cpp:146-151 | `runOnceStartFrom` sets `_runOnceFlag` before `_start`. Only a completed pass clears the flag, so after a refused start or a `stop()` the flag stays set | chain [0 ms event]: `runOnce()` (refused), then `changeTimeOf(0, 10)`, then `start()`, which stops after one pass | `start()` cycles indefinitely; only the run-once variants set the flag | medium, not executed | `ChainFindings.StickyRunOnce` | `ChainFindings.StartAfterRefusedRunOnceCycles` |
| src/EspEvent.cpp:3 | the default constructor initialises only `_time_ms`, so `_HANDLE` is left indeterminate | `EspEvent e; e.getHandle()` | the handle is "null" (src/EspEvent.h:105-110; test/native/EspEvent/EspEventTest.cpp:14) | high, not executed | `ChainFindings.DefaultHandleAsWritten` | `EspEvents.DefaultEvent` |
