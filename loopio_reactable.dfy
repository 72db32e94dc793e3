/**
 * Loopio\Reactable\Loop with the integer timers of Alert000101React000100Loop:
 * the React loop API implemented over an Alert reactor. The facade remembers
 * the Alert watcher id behind each stream direction and each timer it handed out.
 */
module LoopioReactable {
  import opened Wrappers
  import opened BridgeTypes
  import IdAllocation

  /** `timeScaleFactor`, 1 in every concrete loop (Alert000101Loop, Alert000600Loop). */
  const TimeScaleFactor: int := 1

  /** Timer ids run from 0 to PHP_INT_MAX - 1: the counter resets to 0 on reaching PHP_INT_MAX. */
  const MaxTimerId: int := PhpIntMax - 1

  class Loop {
    /** Stream id to the Alert watcher id of its read watcher. */
    var readWatcherIDs: map<StreamId, int>
    /** Stream id to the Alert watcher id of its write watcher. */
    var writeWatcherIDs: map<StreamId, int>
    /** Timer handed out to the Alert watcher id behind it. */
    var timers: map<int, int>
    var timerIdCounter: int
    /** The calls issued to the underlying Alert reactor, oldest first. */
    var calls: seq<AlertCall>

    ghost predicate Valid()
      reads this
    {
      && 0 <= timerIdCounter <= MaxTimerId
      && forall t :: t in timers ==> 0 <= t <= MaxTimerId
    }

    /** The timers map starts empty (installed before the parent constructor runs), as do the stream maps. */
    constructor ()
      ensures Valid()
      ensures readWatcherIDs == map[] && writeWatcherIDs == map[] && timers == map[]
      ensures timerIdCounter == 0 && calls == []
    {
      timers := map[];
      timerIdCounter := 0;
      readWatcherIDs := map[];
      writeWatcherIDs := map[];
      calls := [];
    }

    /** Record the Alert watcher `token` that `onReadable` returned, replacing any earlier one without cancelling it. */
    method AddReadStream(stream: StreamId, token: int)
      modifies this`readWatcherIDs, this`calls
      ensures readWatcherIDs == old(readWatcherIDs)[stream := token]
      ensures calls == old(calls) + [OnReadable(stream)]
    {
      calls := calls + [OnReadable(stream)];
      readWatcherIDs := readWatcherIDs[stream := token];
    }

    /** Record the Alert watcher `token` that `onWritable` returned, replacing any earlier one without cancelling it. */
    method AddWriteStream(stream: StreamId, token: int)
      modifies this`writeWatcherIDs, this`calls
      ensures writeWatcherIDs == old(writeWatcherIDs)[stream := token]
      ensures calls == old(calls) + [OnWritable(stream)]
    {
      calls := calls + [OnWritable(stream)];
      writeWatcherIDs := writeWatcherIDs[stream := token];
    }

    /**
     * `addReadStream` as evidently intended (see README, Findings): a watcher
     * already recorded for the stream is cancelled before it is replaced.
     */
    method AddReadStreamReplacing(stream: StreamId, token: int)
      modifies this`readWatcherIDs, this`calls
      ensures readWatcherIDs == old(readWatcherIDs)[stream := token]
      ensures calls == old(calls) + (if stream in old(readWatcherIDs) then [Cancel(old(readWatcherIDs)[stream])] else []) + [OnReadable(stream)]
    {
      RemoveReadStream(stream);
      AddReadStream(stream, token);
    }

    /** Cancel the stream's read watcher if one is recorded, and forget it; otherwise nothing happens. */
    method RemoveReadStream(stream: StreamId)
      modifies this`readWatcherIDs, this`calls
      ensures readWatcherIDs == old(readWatcherIDs) - {stream}
      ensures calls == old(calls) + if stream in old(readWatcherIDs) then [Cancel(old(readWatcherIDs)[stream])] else []
    {
      if stream in readWatcherIDs {
        calls := calls + [Cancel(readWatcherIDs[stream])];
        readWatcherIDs := readWatcherIDs - {stream};
      }
    }

    /** Cancel the stream's write watcher if one is recorded, and forget it; otherwise nothing happens. */
    method RemoveWriteStream(stream: StreamId)
      modifies this`writeWatcherIDs, this`calls
      ensures writeWatcherIDs == old(writeWatcherIDs) - {stream}
      ensures calls == old(calls) + if stream in old(writeWatcherIDs) then [Cancel(old(writeWatcherIDs)[stream])] else []
    {
      if stream in writeWatcherIDs {
        calls := calls + [Cancel(writeWatcherIDs[stream])];
        writeWatcherIDs := writeWatcherIDs - {stream};
      }
    }

    /** Both removals: afterwards the stream has neither watcher recorded. */
    method RemoveStream(stream: StreamId)
      modifies this`readWatcherIDs, this`writeWatcherIDs, this`calls
      ensures stream !in readWatcherIDs && stream !in writeWatcherIDs
      ensures readWatcherIDs == old(readWatcherIDs) - {stream}
      ensures writeWatcherIDs == old(writeWatcherIDs) - {stream}
      ensures calls == old(calls)
        + (if stream in old(readWatcherIDs) then [Cancel(old(readWatcherIDs)[stream])] else [])
        + (if stream in old(writeWatcherIDs) then [Cancel(old(writeWatcherIDs)[stream])] else [])
    {
      RemoveReadStream(stream);
      RemoveWriteStream(stream);
    }

    /**
     * createTimer: probe the wrapping counter for a timer id no live timer
     * holds. Reads `timers` and leaves it alone.
     */
    method CreateTimer() returns (timer: int)
      requires Valid() && |timers| < PhpIntMax
      modifies this`timerIdCounter
      ensures Valid()
      ensures 0 <= timer <= MaxTimerId && timer !in timers
      ensures IdAllocation.SkipsOnlyUsed(timers.Keys, old(timerIdCounter), timer, 0, MaxTimerId)
      ensures timerIdCounter == IdAllocation.Next(timer, 0, MaxTimerId)
    {
      timer, timerIdCounter := IdAllocation.Probe(timers.Keys, timerIdCounter, 0, MaxTimerId);
    }

    /**
     * A one-shot Alert timer after the scaled interval; `token` is the watcher
     * id `once` returns. The new timer is fresh and maps to that id.
     */
    method AddTimer(interval: real, token: int) returns (timer: int)
      requires Valid() && |timers| < PhpIntMax
      modifies this`timers, this`timerIdCounter, this`calls
      ensures Valid()
      ensures calls == old(calls) + [Once(interval * TimeScaleFactor as real)]
      ensures timer !in old(timers) && timers == old(timers)[timer := token]
      ensures IdAllocation.SkipsOnlyUsed(old(timers).Keys, old(timerIdCounter), timer, 0, MaxTimerId)
      ensures timerIdCounter == IdAllocation.Next(timer, 0, MaxTimerId)
      ensures IsTimerActive(timer)
    {
      calls := calls + [Once(interval * TimeScaleFactor as real)];
      timer := CreateTimer();
      timers := timers[timer := token];
    }

    /** A periodic Alert timer every scaled interval; otherwise as AddTimer. */
    method AddPeriodicTimer(interval: real, token: int) returns (timer: int)
      requires Valid() && |timers| < PhpIntMax
      modifies this`timers, this`timerIdCounter, this`calls
      ensures Valid()
      ensures calls == old(calls) + [Repeat(interval * TimeScaleFactor as real)]
      ensures timer !in old(timers) && timers == old(timers)[timer := token]
      ensures IdAllocation.SkipsOnlyUsed(old(timers).Keys, old(timerIdCounter), timer, 0, MaxTimerId)
      ensures timerIdCounter == IdAllocation.Next(timer, 0, MaxTimerId)
      ensures IsTimerActive(timer)
    {
      calls := calls + [Repeat(interval * TimeScaleFactor as real)];
      timer := CreateTimer();
      timers := timers[timer := token];
    }

    /**
     * A mapped timer loses its mapping and then its Alert watcher is
     * cancelled; an unknown timer changes nothing. Either way it is inactive.
     */
    method CancelTimer(timer: int)
      requires Valid()
      modifies this`timers, this`calls
      ensures Valid() && !IsTimerActive(timer)
      ensures timers == old(timers) - {timer}
      ensures calls == old(calls) + if timer in old(timers) then [Cancel(old(timers)[timer])] else []
    {
      if timer in timers {
        var id := timers[timer];
        timers := timers - {timer};
        calls := calls + [Cancel(id)];
      }
    }

    /**
     * isTimerActive on the handle as an abstract identity: a timer is active
     * while it is a key of `timers`.
     */
    predicate IsTimerActive(timer: int): (active: bool)
      reads this
      ensures active <==> timer in timers
    {
      timer in timers
    }

    /**
     * cancelTimer as declared: its parameter is typed TimerInterface, and the
     * timers this facade hands out are integers, so PHP refuses the call
     * before the body runs and nothing changes.
     */
    method CancelTimerAsDeclared(timer: int) returns (r: Outcome<Error>)
      ensures r == Fail(TypeMismatch)
    {
      r := Fail(TypeMismatch);
    }

    /** isTimerActive as declared: the integer timer is refused in the same way. */
    method IsTimerActiveAsDeclared(timer: int) returns (r: Result<bool, Error>)
      ensures r == Failure(TypeMismatch)
    {
      r := Failure(TypeMismatch);
    }

    /** One `immediately` call on the Alert reactor. */
    method NextTick()
      modifies this`calls
      ensures calls == old(calls) + [Immediately]
    {
      calls := calls + [Immediately];
    }

    /** The same single `immediately` call, by way of nextTick. */
    method FutureTick()
      modifies this`calls
      ensures calls == old(calls) + [Immediately]
    {
      NextTick();
    }

    /**
     * The wrapped timer callback, fired by the Alert reactor: it only forwards
     * the timer to the user callback, so the timer stays active.
     */
    method FireTimer(timer: int) returns (inv: Invocation)
      ensures inv == Called(TimerArgs(timer))
      ensures IsTimerActive(timer) == old(IsTimerActive(timer))
    {
      inv := Called(TimerArgs(timer));
    }

    /**
     * The one-shot wrapper as evidently intended (see README, Findings): the
     * timer is no longer enqueued once it has fired, so it loses its mapping
     * before the user callback runs.
     */
    method FireOneShotTimer(timer: int) returns (inv: Invocation)
      requires Valid()
      modifies this`timers
      ensures Valid() && !IsTimerActive(timer)
      ensures timers == old(timers) - {timer}
      ensures inv == Called(TimerArgs(timer))
    {
      timers := timers - {timer};
      inv := Called(TimerArgs(timer));
    }
  }
}
