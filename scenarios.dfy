/**
 * Concrete runs of the facades, proved from the contracts of their methods
 * alone: wraparound of both id counters, self-cancellation, disabled
 * watchers, `at` with a past time, cancelling a timer before it fires, and
 * the defects listed under Findings in README.md together with the
 * corrected behaviour.
 */
module Scenarios {
  import opened Wrappers
  import opened BridgeTypes
  import opened Watchers
  import IdAllocation
  import LoopioAlertable
  import LoopioReactable
  import AlertReactBridgeReactable

  /**
   * The watcher counter at PHP_INT_MAX with ids PHP_INT_MAX and -PHP_INT_MAX
   * live: the probe wraps, skips the live id and returns -PHP_INT_MAX + 1.
   */
  method WatcherIdWrapsAround() returns (id: int, next: int)
    ensures id == MinId + 1 && next == MinId + 2
  {
    id, next := IdAllocation.Probe({MaxId, MinId}, MaxId, MinId, MaxId);
    assert IdAllocation.Offset(MaxId, MinId + 1, MinId, MaxId) == 2;
  }

  /**
   * The timer counter at PHP_INT_MAX - 1 with timers PHP_INT_MAX - 1 and 0
   * live: the counter resets to 0, skips it and returns 1.
   */
  method TimerIdWrapsAround() returns (timer: int, next: int)
    ensures timer == 1 && next == 2
  {
    timer, next := IdAllocation.Probe({LoopioReactable.MaxTimerId, 0}, LoopioReactable.MaxTimerId, 0, LoopioReactable.MaxTimerId);
    assert IdAllocation.Offset(LoopioReactable.MaxTimerId, 1, 0, LoopioReactable.MaxTimerId) == 2;
  }

  /**
   * A one-shot timer whose callback cancels its own id: the watcher is gone
   * before the callback runs, so the cancel finds nothing, issues no React
   * call and raises nothing.
   */
  method OneShotCancelsItself() returns (inv: Invocation, calls: seq<ReactCall>, live: map<int, Watcher>)
    ensures inv.Called? && calls == [AddTimer(0.1)] && live == map[]
  {
    var loop := new LoopioAlertable.Loop();
    var id := loop.Once(100.0, 1);
    inv := loop.FireTimer(id);
    loop.Cancel(id);
    calls, live := loop.calls, loop.registry.watchers;
  }

  /**
   * A disabled one-shot timer that fires: the callback is skipped, the
   * watcher is gone, and the disabled mark is left behind.
   */
  method DisabledOneShotIsSkipped() returns (id: int, inv: Invocation, live: map<int, Watcher>, disabled: set<int>)
    ensures inv == Skipped && id !in live && id in disabled
  {
    var loop := new LoopioAlertable.Loop();
    id := loop.Once(100.0, 1);
    loop.Disable(id);
    inv := loop.FireTimer(id);
    live, disabled := loop.registry.watchers, loop.disabledWatchers;
  }

  /**
   * A read watcher held for later: it stays registered, its callback is
   * skipped until it is enabled, and then runs with its id and stream.
   */
  method HeldReadWatcher() returns (id: int, before: Invocation, after: Invocation, live: map<int, Watcher>)
    ensures before == Skipped && after == Called(StreamWatcherArgs(id, 3))
    ensures id in live && live[id] == Watcher(Read, 3)
  {
    var loop := new LoopioAlertable.Loop();
    id := loop.OnReadable(3, false);
    before := loop.FireStream(id, 3);
    loop.Enable(id);
    after := loop.FireStream(id, 3);
    live := loop.registry.watchers;
  }

  /** `at` with a time already past throws and registers nothing. */
  method AtInThePast() returns (r: Result<int, Error>, calls: seq<ReactCall>, live: map<int, Watcher>)
    ensures r == Failure(InvalidArgument) && calls == [] && live == map[]
  {
    var loop := new LoopioAlertable.Loop();
    r := loop.At(Some(1000 - 86400), 1000, 1);
    calls, live := loop.calls, loop.registry.watchers;
  }

  /**
   * As written: once a repeating timer has fired, its watcher is gone, so
   * `cancel` issues no cancelTimer and the React timer keeps running.
   */
  method RepeatUncancellableAfterFire() returns (calls: seq<ReactCall>)
    ensures calls == [AddPeriodicTimer(0.1)]
  {
    var loop := new LoopioAlertable.Loop();
    var id := loop.Repeat(100.0, 7);
    var _ := loop.FireTimer(id);
    loop.Cancel(id);
    calls := loop.calls;
  }

  /** Corrected: with the watcher kept across fires, `cancel` cancels the React timer. */
  method RepeatCancellableAfterFire() returns (calls: seq<ReactCall>)
    ensures calls == [AddPeriodicTimer(0.1), CancelTimer(7)]
  {
    var loop := new LoopioAlertable.Loop();
    var id := loop.Repeat(100.0, 7);
    var _ := loop.FireRepeatingTimer(id);
    loop.Cancel(id);
    calls := loop.calls;
  }

  /** A React timer cancelled before it fires: its Alert watcher is cancelled and it is inactive. */
  method TimerCancelledBeforeFire() returns (calls: seq<AlertCall>, active: bool)
    ensures calls == [Once(0.1), Cancel(5)] && !active
  {
    var loop := new LoopioReactable.Loop();
    var timer := loop.AddTimer(0.1, 5);
    loop.CancelTimer(timer);
    calls, active := loop.calls, loop.IsTimerActive(timer);
  }

  /**
   * As written: the integer timer addTimer returns is refused by the
   * TimerInterface-typed cancelTimer and isTimerActive, so the timer cannot
   * be cancelled and its Alert watcher stays live.
   */
  method IntegerTimerRejected() returns (cancel: Outcome<Error>, query: Result<bool, Error>, calls: seq<AlertCall>, active: bool)
    ensures cancel == Fail(TypeMismatch) && query == Failure(TypeMismatch)
    ensures calls == [Once(0.1)] && active
  {
    var loop := new LoopioReactable.Loop();
    var timer := loop.AddTimer(0.1, 5);
    cancel := loop.CancelTimerAsDeclared(timer);
    query := loop.IsTimerActiveAsDeclared(timer);
    calls, active := loop.calls, loop.IsTimerActive(timer);
  }

  /**
   * As written: a one-shot React timer that has fired still reports itself
   * active, since the wrapper only forwards.
   */
  method FiredTimerStaysActive() returns (inv: Invocation, active: bool)
    ensures inv.Called? && active
  {
    var loop := new LoopioReactable.Loop();
    var timer := loop.AddTimer(0.1, 5);
    inv := loop.FireTimer(timer);
    active := loop.IsTimerActive(timer);
  }

  /** Corrected: a one-shot timer that has fired is inactive. */
  method FiredTimerInactive() returns (inv: Invocation, active: bool)
    ensures inv.Called? && !active
  {
    var loop := new LoopioReactable.Loop();
    var timer := loop.AddTimer(0.1, 5);
    inv := loop.FireOneShotTimer(timer);
    active := loop.IsTimerActive(timer);
  }

  /**
   * As written: adding a read stream twice and removing it cancels only the
   * second Alert watcher; the first is never cancelled and is no longer
   * recorded anywhere.
   */
  method ReaddedStreamOrphansWatcher() returns (calls: seq<AlertCall>, recorded: map<StreamId, int>)
    ensures calls == [OnReadable(3), OnReadable(3), Cancel(11)]
    ensures Cancel(10) !in calls && 10 !in recorded.Values
  {
    var loop := new LoopioReactable.Loop();
    loop.AddReadStream(3, 10);
    loop.AddReadStream(3, 11);
    loop.RemoveReadStream(3);
    calls, recorded := loop.calls, loop.readWatcherIDs;
  }

  /** Corrected: replacing the read stream cancels the first watcher, removal the second. */
  method ReaddedStreamCancelsWatcher() returns (calls: seq<AlertCall>)
    ensures calls == [OnReadable(3), Cancel(10), OnReadable(3), Cancel(11)]
  {
    var loop := new LoopioReactable.Loop();
    loop.AddReadStreamReplacing(3, 10);
    loop.AddReadStreamReplacing(3, 11);
    loop.RemoveReadStream(3);
    calls := loop.calls;
  }

  /** As written: the older bridge registers a one-shot timer as a repeating Alert timer. */
  method OldBridgeOneShotRepeats() returns (calls: seq<AlertCall>, periodic: bool)
    ensures calls == [Repeat(1.0)] && !periodic
  {
    var loop := new AlertReactBridgeReactable.Loop();
    var timer := loop.AddTimer(1.0, 9);
    calls, periodic := loop.calls, timer.periodic;
  }

  /** Corrected: the newer facade registers a one-shot timer through `once`. */
  method OneShotRegistersOnce() returns (calls: seq<AlertCall>)
    ensures calls == [Once(1.0)]
  {
    var loop := new LoopioReactable.Loop();
    var _ := loop.AddTimer(1.0, 9);
    calls := loop.calls;
  }

  /**
   * The older bridge keeps a cancelled timer mapped, so cancelling it again
   * cancels the same Alert watcher again instead of doing nothing.
   */
  method OldBridgeCancelTwice() returns (calls: seq<AlertCall>, first: Outcome<Error>, second: Outcome<Error>)
    ensures calls == [Repeat(1.0), Cancel(9), Cancel(9)] && first == Pass && second == Pass
  {
    var loop := new AlertReactBridgeReactable.Loop();
    var timer := loop.AddTimer(1.0, 9);
    first := loop.CancelTimer(timer);
    second := loop.CancelTimer(timer);
    calls := loop.calls;
  }
}
