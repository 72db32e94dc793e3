# Loopio / AlertReactBridge: watcher and timer bookkeeping, in Dafny

Loopio (with its older form, AlertReactBridge) bridges two PHP event-loop APIs.
The Alert API names every registration by an integer watcher id and offers
`cancel`, `enable` and `disable` on ids. The React API hands out timer handles
and keys streams by resource. Each facade implements one API on top of an
engine of the other kind. This project models the bookkeeping both facades do:

- the Alert facades over a React loop: Loopio's `Alertable\Loop`, and the older
  `SimpleLoop` (no disabled set) and `FullyCompatibleLoop`. Each has a watcher
  map from id to (type, data), a wrapping id counter that skips live ids, an
  optional disabled set, and the wrapper closures that run when the engine
  fires;
- the React facades over an Alert reactor: Loopio's `Reactable\Loop` with the
  integer timers of `Alert000101React000100Loop`, and the older
  `AlertReactBridge\Reactable\Loop`. Each keeps a per-direction map from stream
  to watcher id and a map from timer to watcher id. The timers of
  `Alert000101React000100Loop` are integers, because its `createTimer` returns
  one. But `cancelTimer` and `isTimerActive` declare a `TimerInterface`
  parameter, and PHP refuses an integer for it. `LoopioReactable.Loop.CancelTimer`
  and `IsTimerActive` treat the handle as an abstract identity and model what
  the method bodies do. The members ending in `AsDeclared` model what a call
  with an integer handle actually does: it fails with a type error.

The engine underneath each facade is the `calls` field: the log of calls the
facade has issued to it, oldest first. The values the engine returns are
method parameters: a React timer object, or an Alert watcher id (`token`).
A wrapper closure firing is an explicit `Fire…` method. It returns whether the
user callback is called, and with which arguments. The shared pieces are
`IdAllocation.Probe`, the do-while id probe, and `Watchers.WatcherRegistry`.
The registry supplies `registerWatcher`, `deregisterWatcher` and the `watchers`
map. The older Alert facades use them without defining them, so the model gives
them the definitions in `src/Loopio/Alertable/Loop.php`. `Scenarios` holds
concrete runs proved from the facades' contracts alone.

Where the bridge's intent and its code differ, the model follows the code.
Each difference is a row under Findings, with a corrected member beside it:
- a repeating Alert timer deregisters itself on every fire;
- re-adding a stream overwrites the recorded watcher id without cancelling it;
- a fired one-shot React timer stays active in the Loopio facade;
- the older React bridge registers a one-shot timer through `repeat`;
- the integer timers of the Loopio facade are refused by `cancelTimer` and
  `isTimerActive`;
- the watcher counter never wraps at PHP_INT_MAX, because PHP turns it into
  a float.

The code also differs from the documented design in one harmless way, which
the model keeps: the disabled mark of a one-shot timer survives its firing.

## Model

| member | source | states |
|---|---|---|
| `IdAllocation.Probe` | src/Loopio/Alertable/Loop.php:64-70 | returns an id within the range that no live entry holds. Every id the counter stepped over, wrapping from the top of the range to its bottom, is in use. The counter is left one step past the id. Terminates whenever fewer ids are live than the range holds. |
| `Watchers.WatcherRegistry.constructor` | src/Loopio/Alertable/Loop.php:29-43 | the registry starts with no watchers and the counter at 0 |
| `Watchers.WatcherRegistry.Register` | src/Loopio/Alertable/Loop.php:62-75 | the returned id was not a key beforehand and is the first free id from the counter in wrapping order within -PHP_INT_MAX..PHP_INT_MAX. The map gains `id -> (type, data)` and every other entry is unchanged. |
| `Watchers.WatcherRegistry.Deregister` | src/Loopio/Alertable/Loop.php:82-85 | removes exactly that id, whether or not it is present |
| `Watchers.Removal` | src/Loopio/Alertable/Loop.php:127-139 | the removal call matches the type both ways: READ gives removeReadStream, WRITE gives removeWriteStream, TIMER gives cancelTimer. The call carries the stored data. |
| `Watchers.AtDelay` | src/Loopio/Alertable/Loop.php:233-240 | fails with InvalidArgumentException iff the time did not parse or is not after now. Otherwise the delay is strictly positive and now + delay is the parsed time. |
| `LoopioAlertable.Loop.constructor` | src/Loopio/Alertable/Loop.php:29-53 | no watchers, no disabled ids, counter 0, nothing issued |
| `LoopioAlertable.Loop.Cancel` | src/Loopio/Alertable/Loop.php:122-143 | a live id issues exactly one removal call matching its type, and an unknown id issues none. Either way the id leaves both the watchers map and the disabled set. |
| `LoopioAlertable.Loop.Immediately` | src/Loopio/Alertable/Loop.php:151-167 | issues one zero-second addTimer and registers a TIMER watcher holding the returned timer under a fresh id |
| `LoopioAlertable.Loop.Once` | src/Loopio/Alertable/Loop.php:178-194 | issues one addTimer of delay/1000 seconds and registers a TIMER watcher under a fresh id |
| `LoopioAlertable.Loop.Repeat` | src/Loopio/Alertable/Loop.php:205-221 | issues one addPeriodicTimer of interval/1000 seconds and registers a TIMER watcher under a fresh id |
| `LoopioAlertable.Loop.At` | src/Loopio/Alertable/Loop.php:231-243 | fails iff the time did not parse or is not in the future, and then registers and issues nothing. Otherwise it acts as `once` with (executeAt - now) * 1000 ms, so it issues an addTimer of executeAt - now seconds. |
| `LoopioAlertable.Loop.OnReadable` | src/Loopio/Alertable/Loop.php:253-271 | issues addReadStream and registers a READ watcher under a fresh id. The id joins the disabled set iff enableNow is false. |
| `LoopioAlertable.Loop.OnWritable` | src/Loopio/Alertable/Loop.php:281-299 | the same for writability, with a WRITE watcher |
| `LoopioAlertable.Loop.Disable` | src/Loopio/Alertable/Loop.php:306-309 | inserts that one id into the disabled set, even for an unknown id |
| `LoopioAlertable.Loop.Enable` | src/Loopio/Alertable/Loop.php:316-319 | removes that one id from the disabled set, even for an unknown id |
| `LoopioAlertable.Loop.FireTimer` | src/Loopio/Alertable/Loop.php:155-163 | the timer wrapper, the same closure for immediately, once and repeat. It removes the id from the watchers first. It calls the callback with the id iff the id is not disabled, and leaves the disabled set untouched. |
| `LoopioAlertable.Loop.FireRepeatingTimer` | src/Loopio/Alertable/Loop.php:209-217 | corrected repeat wrapper: keeps the watcher registered and calls the callback iff the id is not disabled |
| `LoopioAlertable.Loop.FireStream` | src/Loopio/Alertable/Loop.php:257-263 | the stream wrapper calls the callback with the id and stream iff the id is not disabled, and changes nothing |
| `AlertReactBridgeAlertable.SimpleLoop.constructor` | src/AlertReactBridge/Alertable/Loop.php:22-25 | no watchers, counter 0, nothing issued |
| `AlertReactBridgeAlertable.SimpleLoop.Immediately` | src/AlertReactBridge/Alertable/SimpleLoop.php:16-27 | one zero-second addTimer, and the returned id is freshly registered as TIMER |
| `AlertReactBridgeAlertable.SimpleLoop.Once` | src/AlertReactBridge/Alertable/SimpleLoop.php:38-49 | one addTimer of delay/1000 seconds, and a fresh TIMER id |
| `AlertReactBridgeAlertable.SimpleLoop.Repeat` | src/AlertReactBridge/Alertable/SimpleLoop.php:60-71 | one addPeriodicTimer of interval/1000 seconds, and a fresh TIMER id |
| `AlertReactBridgeAlertable.SimpleLoop.At` | src/AlertReactBridge/Alertable/SimpleLoop.php:81-100 | throws iff the time did not parse or is not in the future, and then registers nothing. Otherwise it issues addTimer of executeAt - now seconds, not milliseconds, and registers a TIMER id. |
| `AlertReactBridgeAlertable.SimpleLoop.OnReadable` | src/AlertReactBridge/Alertable/SimpleLoop.php:111-119 | with enableNow false it throws UnimplementedArgumentException before any call or registration. Otherwise it issues addReadStream and returns a fresh READ id. |
| `AlertReactBridgeAlertable.SimpleLoop.OnWritable` | src/AlertReactBridge/Alertable/SimpleLoop.php:130-138 | the same for writability, with a WRITE id |
| `AlertReactBridgeAlertable.SimpleLoop.Cancel` | src/AlertReactBridge/Alertable/SimpleLoop.php:145-164 | a live id issues one removal call by its stored type, and a missing id issues none. Then the entry is removed. |
| `AlertReactBridgeAlertable.SimpleLoop.Disable` | src/AlertReactBridge/Alertable/SimpleLoop.php:172-175 | always throws UnimplementedMethodException and changes nothing |
| `AlertReactBridgeAlertable.SimpleLoop.Enable` | src/AlertReactBridge/Alertable/SimpleLoop.php:183-186 | always throws UnimplementedMethodException and changes nothing |
| `AlertReactBridgeAlertable.SimpleLoop.FireTimer` | src/AlertReactBridge/Alertable/SimpleLoop.php:20-23 | the timer wrapper removes the watcher entry, then calls the callback unconditionally, with no arguments |
| `AlertReactBridgeAlertable.FullyCompatibleLoop.constructor` | src/AlertReactBridge/Alertable/FullyCompatibleLoop.php:12 | no watchers, no disabled ids, counter 0, nothing issued |
| `AlertReactBridgeAlertable.FullyCompatibleLoop.Immediately` | src/AlertReactBridge/Alertable/FullyCompatibleLoop.php:20-31 | one zero-second addTimer, and a fresh TIMER id |
| `AlertReactBridgeAlertable.FullyCompatibleLoop.Once` | src/AlertReactBridge/Alertable/FullyCompatibleLoop.php:42-53 | one addTimer of delay/1000 seconds, and a fresh TIMER id |
| `AlertReactBridgeAlertable.FullyCompatibleLoop.Repeat` | src/AlertReactBridge/Alertable/FullyCompatibleLoop.php:64-75 | one addPeriodicTimer of interval/1000 seconds, and a fresh TIMER id |
| `AlertReactBridgeAlertable.FullyCompatibleLoop.At` | src/AlertReactBridge/Alertable/FullyCompatibleLoop.php:85-104 | throws iff the time did not parse or is not in the future, and then registers nothing. Otherwise it issues addTimer(executeAt - now) and registers a TIMER id. |
| `AlertReactBridgeAlertable.FullyCompatibleLoop.OnReadable` | src/AlertReactBridge/Alertable/FullyCompatibleLoop.php:114-128 | issues addReadStream and returns a fresh READ id, which is disabled iff enableNow is false |
| `AlertReactBridgeAlertable.FullyCompatibleLoop.OnWritable` | src/AlertReactBridge/Alertable/FullyCompatibleLoop.php:138-152 | the same for writability, with a WRITE id |
| `AlertReactBridgeAlertable.FullyCompatibleLoop.Disable` | src/AlertReactBridge/Alertable/FullyCompatibleLoop.php:159-162 | sets that one key of the disabled set |
| `AlertReactBridgeAlertable.FullyCompatibleLoop.Enable` | src/AlertReactBridge/Alertable/FullyCompatibleLoop.php:169-172 | clears that one key of the disabled set |
| `AlertReactBridgeAlertable.FullyCompatibleLoop.Cancel` | src/AlertReactBridge/Alertable/FullyCompatibleLoop.php:179-183 | runs the parent cancellation: one matching removal call for a live id, none for an unknown one, and the entry removed. Then it removes the id from the disabled set. |
| `AlertReactBridgeAlertable.FullyCompatibleLoop.FireTimer` | src/AlertReactBridge/Alertable/FullyCompatibleLoop.php:24-27 | the timer wrapper, the same for immediately, once, repeat and at. It deregisters first, then calls the callback iff the id is not disabled. |
| `AlertReactBridgeAlertable.FullyCompatibleLoop.FireStream` | src/AlertReactBridge/Alertable/FullyCompatibleLoop.php:118-120 | the stream wrapper calls the callback iff the id is not disabled, and changes nothing |
| `LoopioReactable.Loop.constructor` | src/Loopio/Reactable/Alert000101React000100Loop.php:21-25 | an empty timers map is installed, and the stream maps start empty, the counter at 0 and nothing issued |
| `LoopioReactable.Loop.AddReadStream` | src/Loopio/Reactable/Loop.php:72-77 | issues onReadable and sets the stream's read entry to the returned id. It overwrites any earlier entry without cancelling it and leaves the write map unchanged. |
| `LoopioReactable.Loop.AddWriteStream` | src/Loopio/Reactable/Loop.php:85-90 | the same with onWritable and the write map |
| `LoopioReactable.Loop.AddReadStreamReplacing` | src/Loopio/Reactable/Loop.php:72-77 | corrected addReadStream: cancels a recorded read watcher for the stream, then records the new one |
| `LoopioReactable.Loop.RemoveReadStream` | src/Loopio/Reactable/Loop.php:97-105 | a recorded read entry is cancelled, exactly that id, and removed. An absent one makes no call and changes nothing. |
| `LoopioReactable.Loop.RemoveWriteStream` | src/Loopio/Reactable/Loop.php:112-120 | the same for the write map |
| `LoopioReactable.Loop.RemoveStream` | src/Loopio/Reactable/Loop.php:127-131 | afterwards neither map holds the stream. At most one cancel is issued per recorded direction, read first. |
| `LoopioReactable.Loop.CreateTimer` | src/Loopio/Reactable/Alert000101React000100Loop.php:37-48 | returns an id in [0, PHP_INT_MAX) that is not a key of `timers`. It is the first free id from the counter, which resets to 0 on reaching PHP_INT_MAX. Only the counter changes, and the probe terminates while fewer than PHP_INT_MAX timers are live. |
| `LoopioReactable.Loop.AddTimer` | src/Loopio/Reactable/Loop.php:144-157 | issues one `once` with interval * timeScaleFactor and maps a fresh timer id to the returned id. The timer is active afterwards. |
| `LoopioReactable.Loop.AddPeriodicTimer` | src/Loopio/Reactable/Loop.php:170-183 | the same through `repeat` |
| `LoopioReactable.Loop.CancelTimer` | src/Loopio/Reactable/Loop.php:190-197 | a mapped timer loses its mapping and its watcher id is cancelled. Otherwise it is a no-op. Either way isTimerActive is false afterwards. |
| `LoopioReactable.Loop.IsTimerActive` | src/Loopio/Reactable/Loop.php:206-209 | true iff the timer is a key of `timers`. The handle is treated as an abstract identity. |
| `LoopioReactable.Loop.CancelTimerAsDeclared` | src/Loopio/Reactable/Loop.php:190 | with the integer timer this facade hands out, the TimerInterface-typed cancelTimer fails with a type error and changes nothing |
| `LoopioReactable.Loop.IsTimerActiveAsDeclared` | src/Loopio/Reactable/Loop.php:206 | with an integer timer, the TimerInterface-typed isTimerActive fails with a type error instead of answering |
| `LoopioReactable.Loop.NextTick` | src/Loopio/Reactable/Loop.php:219-224 | exactly one `immediately` call |
| `LoopioReactable.Loop.FutureTick` | src/Loopio/Reactable/Loop.php:233-236 | exactly one `immediately` call, through nextTick |
| `LoopioReactable.Loop.FireTimer` | src/Loopio/Reactable/Loop.php:148-150 | the wrapped timer callback forwards the timer and leaves isTimerActive as it was |
| `LoopioReactable.Loop.FireOneShotTimer` | src/Loopio/Reactable/Loop.php:148-150 | corrected one-shot wrapper: the fired timer loses its mapping, so it is inactive |
| `AlertReactBridgeReactable.Loop.constructor` | src/AlertReactBridge/Reactable/Loop.php:52-58 | empty timers map, empty stream maps, nothing issued |
| `AlertReactBridgeReactable.Loop.AddReadStream` | src/AlertReactBridge/Reactable/Loop.php:66-69 | stores the id onReadable returns under the stream, in the read map only |
| `AlertReactBridgeReactable.Loop.AddWriteStream` | src/AlertReactBridge/Reactable/Loop.php:77-80 | stores the id onWritable returns under the stream, in the write map only |
| `AlertReactBridgeReactable.Loop.RemoveReadStream` | src/AlertReactBridge/Reactable/Loop.php:87-93 | always issues a cancel, of the recorded id or of null when there is none, and then unsets the key |
| `AlertReactBridgeReactable.Loop.RemoveWriteStream` | src/AlertReactBridge/Reactable/Loop.php:100-106 | the same for the write map |
| `AlertReactBridgeReactable.Loop.RemoveStream` | src/AlertReactBridge/Reactable/Loop.php:113-117 | both unguarded removals: two cancels issued, read first, and neither map keeps the stream |
| `AlertReactBridgeReactable.Loop.AddTimer` | src/AlertReactBridge/Reactable/Loop.php:130-137 | registers through `repeat` with the unscaled interval. The new timer object is fresh and not periodic, and it maps to the returned id. |
| `AlertReactBridgeReactable.Loop.AddPeriodicTimer` | src/AlertReactBridge/Reactable/Loop.php:150-157 | the same, except that the timer is periodic |
| `AlertReactBridgeReactable.Loop.CancelTimer` | src/AlertReactBridge/Reactable/Loop.php:164-168 | cancels the mapped id and leaves the map entry in place. A timer not in the map throws UnexpectedValueException and issues nothing. |
| `AlertReactBridgeReactable.Loop.NextTick` | src/AlertReactBridge/Reactable/Loop.php:190-193 | forwards to one `immediately` call |
| `AlertReactBridgeReactable.Loop.FutureTick` | src/AlertReactBridge/Reactable/Loop.php:202-205 | forwards to one `immediately` call, the same as nextTick |
| `Scenarios.WatcherIdWrapsAround` | src/Loopio/Alertable/Loop.php:64-70 | the wrap the code means to do, on exact integers: the counter at PHP_INT_MAX, with PHP_INT_MAX and -PHP_INT_MAX live, wraps and yields -PHP_INT_MAX + 1 without collision |
| `PhpWatcherCounter.Increment` | src/Loopio/Alertable/Loop.php:65 | `++` as PHP evaluates it: the result stays an integer, one higher, iff the counter is an integer below PHP_INT_MAX. Otherwise it is the float 2^63. |
| `PhpWatcherCounter.StuckForever` | src/Loopio/Alertable/Loop.php:64-70 | once the counter is the float 2^63, every pass of the do-while takes that same id |
| `PhpWatcherCounter.StuckAfterMax` | src/Loopio/Alertable/Loop.php:64-70 | as PHP evaluates it, the wrap test at line 67 never fires: from PHP_INT_MAX, the first pass takes PHP_INT_MAX and every later pass takes the float 2^63 |
| `Scenarios.TimerIdWrapsAround` | src/Loopio/Reactable/Alert000101React000100Loop.php:39-45 | the counter at PHP_INT_MAX - 1, with that id and 0 live, resets and yields 1 |
| `Scenarios.OneShotCancelsItself` | src/Loopio/Alertable/Loop.php:182-190 | a one-shot callback that cancels its own id finds it already gone. No cancelTimer is issued and no error is raised. |
| `Scenarios.DisabledOneShotIsSkipped` | src/Loopio/Alertable/Loop.php:182-190 | a disabled one-shot timer that fires skips its callback and is deregistered, and its disabled mark stays |
| `Scenarios.HeldReadWatcher` | src/Loopio/Alertable/Loop.php:253-271 | a watcher held for later stays registered with its callback skipped, and runs once enabled |
| `Scenarios.AtInThePast` | src/Loopio/Alertable/Loop.php:236-240 | `at` with yesterday's time throws and registers and issues nothing |
| `Scenarios.RepeatUncancellableAfterFire` | src/Loopio/Alertable/Loop.php:209-217 | after the first fire of a repeat, `cancel` issues no cancelTimer |
| `Scenarios.RepeatCancellableAfterFire` | src/Loopio/Alertable/Loop.php:209-217 | with the corrected wrapper, `cancel` after a fire issues cancelTimer |
| `Scenarios.TimerCancelledBeforeFire` | src/Loopio/Reactable/Loop.php:190-197 | addTimer then cancelTimer issues once and then cancel of the same id, and the timer is inactive |
| `Scenarios.IntegerTimerRejected` | src/Loopio/Reactable/Loop.php:190-209 | a timer from addTimer cannot be cancelled or queried: both calls fail with a type error, nothing is issued after `once`, and the timer stays mapped |
| `Scenarios.FiredTimerStaysActive` | src/Loopio/Reactable/Loop.php:204-209 | a fired one-shot timer still reports itself active |
| `Scenarios.FiredTimerInactive` | src/Loopio/Reactable/Loop.php:204-209 | with the corrected wrapper, a fired one-shot timer is inactive |
| `Scenarios.ReaddedStreamOrphansWatcher` | src/Loopio/Reactable/Loop.php:72-77 | adding a stream twice then removing it never cancels the first watcher, and nothing records it any more |
| `Scenarios.ReaddedStreamCancelsWatcher` | src/Loopio/Reactable/Loop.php:72-77 | with the corrected add, both watchers are cancelled |
| `Scenarios.OldBridgeOneShotRepeats` | src/AlertReactBridge/Reactable/Loop.php:130-137 | a non-periodic timer is registered as a repeating Alert timer |
| `Scenarios.OneShotRegistersOnce` | src/Loopio/Reactable/Loop.php:144-157 | the newer facade registers a one-shot timer through `once` |
| `Scenarios.OldBridgeCancelTwice` | src/AlertReactBridge/Reactable/Loop.php:164-168 | cancelling the same timer twice cancels the same id twice, since the entry stays |

## Left out

- The engines underneath: React's `LoopInterface` and Alert's `Reactor` are foreign code. They appear as the `calls` log and as parameters for the values they return. When they fire a callback, and in what order, is not modelled, so the FIFO order of `nextTick` callbacks is the engine's property and is not stated.
- Callbacks and closures: a callback is not a value in the model. A closure firing is a `Fire…` method that reports whether the callback is called and with which arguments. The `$this` argument passed beside them is implied.
- Loopio's React stream and tick wrappers (src/Loopio/Reactable/Loop.php:74-76, 221-223) only forward to the listener, so they are not modelled separately.
- `run`, `tick` and `stop` only forward to the engine: src/Loopio/Alertable/Loop.php:92-115, src/AlertReactBridge/Alertable/Loop.php:32-55, src/Loopio/Reactable/Loop.php:241-260 and src/AlertReactBridge/Reactable/Loop.php:210-229.
- `time()` and `strtotime()`: `now` is an integer parameter. The parsed time is an `Option<int>`, with None for a string `strtotime()` rejects.
- PHP numbers: delays and intervals are exact `real`s, without PHP float rounding of `delay / 1000`.
- Watchers.WatcherRegistry.Register: the counter is an exact integer, and the wrap to -PHP_INT_MAX happens as the code means it to. In PHP, `++` on PHP_INT_MAX yields the float 2^63, and the wrap test compares it with PHP_INT_MAX converted to a float, which is also 2^63. So the wrap never fires, and the counter stays at 2^63 from then on. `PhpWatcherCounter` models that; it is a row under Findings.
- LoopioReactable.Loop.CancelTimer and LoopioReactable.Loop.IsTimerActive: the timer handle is an abstract identity (an integer key of `timers`), and the `TimerInterface` parameter type is dropped. With the integer timers of `Alert000101React000100Loop`, PHP refuses both calls; `CancelTimerAsDeclared` and `IsTimerActiveAsDeclared` model that, and it is a row under Findings.
- `Watchers.WatcherRegistry.Register` and `IdAllocation.Probe` require fewer live ids than the range holds. Without that, the source's probe never terminates.
- PHP notices for reading a missing key (SimpleLoop.php:147 and the older React `remove*Stream`) are not modelled. Only their effect is: a null type that matches no `case`, or `cancel(null)`.
- `AlertReactBridgeReactable.Loop.isTimerActive` (src/AlertReactBridge/Reactable/Loop.php:177-180) asks the foreign timer object, so it is not modelled. The timer classes src/AlertReactBridge/Reactable/Timer.php and TimerFactory.php wrap React's unseen `Timer`. The model keeps only a fresh object with its interval and its periodic flag.
- src/Loopio/Reactable/Alert000101React000300Loop.php only delegates `createTimer` to the factory. Only the integer-timer variant is modelled.
- The loop factories hold no selection logic, only constructors. `Alert000101Loop` and `Alert000600Loop` only set `timeScaleFactor` to 1, which is the constant `LoopioReactable.TimeScaleFactor`.

## Findings

| source | as written | input that shows it | evidently intended | confidence | as-written member | corrected member |
|---|---|---|---|---|---|---|
| src/Loopio/Alertable/Loop.php:209-217 | the `repeat` wrapper deregisters its watcher on every fire | `repeat(cb, 100)`, let it fire once, then `cancel(id)`: no cancelTimer is issued and the React timer keeps firing | a repeating watcher stays registered until cancelled | high (not executed) | `Scenarios.RepeatUncancellableAfterFire` | `LoopioAlertable.Loop.FireRepeatingTimer` |
| src/Loopio/Reactable/Loop.php:72-77 | `addReadStream` overwrites the recorded watcher id without cancelling the old watcher | `addReadStream(s, L1)`, `addReadStream(s, L2)`, `removeReadStream(s)`: the first Alert watcher is never cancelled and L1 keeps firing | a replaced registration is cancelled first | medium (not executed) | `Scenarios.ReaddedStreamOrphansWatcher` | `LoopioReactable.Loop.AddReadStreamReplacing` |
| src/Loopio/Reactable/Loop.php:148-150 | a fired one-shot timer keeps its `timers` entry | `addTimer(0.1, cb)`, let it fire, then `isTimerActive(t)`: true, though the timer is no longer enqueued (docblock at 204) | a fired one-shot timer is inactive | medium (not executed) | `Scenarios.FiredTimerStaysActive` | `LoopioReactable.Loop.FireOneShotTimer` |
| src/AlertReactBridge/Reactable/Loop.php:132 | `addTimer` registers through the Alert reactor's `repeat` | `addTimer(1, cb)`: a repeating Alert watcher is registered, so cb runs every second | one-shot registration through `once`, as the newer facade does | high (not executed) | `Scenarios.OldBridgeOneShotRepeats` | `LoopioReactable.Loop.AddTimer` |
| src/Loopio/Reactable/Loop.php:190-209 | `cancelTimer` and `isTimerActive` declare a `TimerInterface` parameter, but `createTimer` in Alert000101React000100Loop.php:37-48 returns an integer | `$t = addTimer(0.1, cb); cancelTimer($t);`: PHP raises a type error (in PHP 5, a catchable fatal error) and the timer is not cancelled | the integer timer is accepted as the handle, as the comment at Alert000101React000100Loop.php:30 says | medium (not executed) | `Scenarios.IntegerTimerRejected` | `LoopioReactable.Loop.CancelTimer` |
| src/Loopio/Alertable/Loop.php:65-69 | `$this->watcherId++` at PHP_INT_MAX yields the float 2^63, which is not `> PHP_INT_MAX` once PHP_INT_MAX is converted to a float | the counter at PHP_INT_MAX, then register three watchers: the counter never wraps and every registration after the first takes the id 2^63, so the third one's do-while never exits | the counter wraps to -PHP_INT_MAX | low (not executed; on a 64-bit build) | `PhpWatcherCounter.StuckAfterMax` | `Watchers.WatcherRegistry.Register` |
