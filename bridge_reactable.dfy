/**
 * AlertReactBridge\Reactable\Loop: the older React facade over an Alert
 * reactor. Removal is unguarded, both kinds of timer are registered as
 * repeating Alert timers, and cancelling a timer keeps its map entry.
 */
module AlertReactBridgeReactable {
  import opened Wrappers
  import opened BridgeTypes

  /** A timer object made by the timer factory: its interval and whether it is periodic. */
  class Timer {
    const interval: real
    const periodic: bool

    constructor (interval: real, periodic: bool)
      ensures this.interval == interval && this.periodic == periodic
    {
      this.interval := interval;
      this.periodic := periodic;
    }
  }

  class Loop {
    /** Stream id to the Alert watcher id of its read watcher. */
    var readWatcherIDs: map<StreamId, int>
    /** Stream id to the Alert watcher id of its write watcher. */
    var writeWatcherIDs: map<StreamId, int>
    /** Timer object (by identity, as in an SplObjectStorage) to its Alert watcher id. */
    var timers: map<Timer, int>
    /** The calls issued to the underlying Alert reactor, oldest first. */
    var calls: seq<AlertCall>

    constructor ()
      ensures readWatcherIDs == map[] && writeWatcherIDs == map[] && timers == map[] && calls == []
    {
      readWatcherIDs := map[];
      writeWatcherIDs := map[];
      timers := map[];
      calls := [];
    }

    /** Record the Alert watcher `token` that `onReadable` returned, in the read map only. */
    method AddReadStream(stream: StreamId, token: int)
      modifies this`readWatcherIDs, this`calls
      ensures readWatcherIDs == old(readWatcherIDs)[stream := token]
      ensures calls == old(calls) + [OnReadable(stream)]
    {
      calls := calls + [OnReadable(stream)];
      readWatcherIDs := readWatcherIDs[stream := token];
    }

    /** Record the Alert watcher `token` that `onWritable` returned, in the write map only. */
    method AddWriteStream(stream: StreamId, token: int)
      modifies this`writeWatcherIDs, this`calls
      ensures writeWatcherIDs == old(writeWatcherIDs)[stream := token]
      ensures calls == old(calls) + [OnWritable(stream)]
    {
      calls := calls + [OnWritable(stream)];
      writeWatcherIDs := writeWatcherIDs[stream := token];
    }

    /**
     * Always issue a cancel, with no presence check: a missing key reads as
     * null and `cancel(null)` is issued. Then the key is unset.
     */
    method RemoveReadStream(stream: StreamId)
      modifies this`readWatcherIDs, this`calls
      ensures readWatcherIDs == old(readWatcherIDs) - {stream}
      ensures calls == old(calls) + [if stream in old(readWatcherIDs) then Cancel(old(readWatcherIDs)[stream]) else CancelNull]
    {
      var call := if stream in readWatcherIDs then Cancel(readWatcherIDs[stream]) else CancelNull;
      calls := calls + [call];
      readWatcherIDs := readWatcherIDs - {stream};
    }

    /** As RemoveReadStream, for the write map. */
    method RemoveWriteStream(stream: StreamId)
      modifies this`writeWatcherIDs, this`calls
      ensures writeWatcherIDs == old(writeWatcherIDs) - {stream}
      ensures calls == old(calls) + [if stream in old(writeWatcherIDs) then Cancel(old(writeWatcherIDs)[stream]) else CancelNull]
    {
      var call := if stream in writeWatcherIDs then Cancel(writeWatcherIDs[stream]) else CancelNull;
      calls := calls + [call];
      writeWatcherIDs := writeWatcherIDs - {stream};
    }

    /** Both removals: two cancels issued, and neither map keeps the stream. */
    method RemoveStream(stream: StreamId)
      modifies this`readWatcherIDs, this`writeWatcherIDs, this`calls
      ensures readWatcherIDs == old(readWatcherIDs) - {stream}
      ensures writeWatcherIDs == old(writeWatcherIDs) - {stream}
      ensures calls == old(calls)
        + [if stream in old(readWatcherIDs) then Cancel(old(readWatcherIDs)[stream]) else CancelNull]
        + [if stream in old(writeWatcherIDs) then Cancel(old(writeWatcherIDs)[stream]) else CancelNull]
    {
      RemoveReadStream(stream);
      RemoveWriteStream(stream);
    }

    /**
     * A timer registered through the Alert reactor's `repeat` with the interval
     * unscaled; `token` is the watcher id `repeat` returns. The fresh timer is
     * not periodic and maps to that id.
     */
    method AddTimer(interval: real, token: int) returns (timer: Timer)
      modifies this`timers, this`calls
      ensures fresh(timer) && timer.interval == interval && !timer.periodic
      ensures timer !in old(timers) && timers == old(timers)[timer := token]
      ensures calls == old(calls) + [Repeat(interval)]
    {
      calls := calls + [Repeat(interval)];
      timer := new Timer(interval, false);
      timers := timers[timer := token];
    }

    /** As AddTimer, except that the fresh timer is periodic. */
    method AddPeriodicTimer(interval: real, token: int) returns (timer: Timer)
      modifies this`timers, this`calls
      ensures fresh(timer) && timer.interval == interval && timer.periodic
      ensures timer !in old(timers) && timers == old(timers)[timer := token]
      ensures calls == old(calls) + [Repeat(interval)]
    {
      calls := calls + [Repeat(interval)];
      timer := new Timer(interval, true);
      timers := timers[timer := token];
    }

    /**
     * Cancel the Alert watcher mapped to the timer, leaving the map entry in
     * place; a timer the map does not hold throws UnexpectedValueException
     * and issues nothing.
     */
    method CancelTimer(timer: Timer) returns (r: Outcome<Error>)
      modifies this`calls
      ensures r.Pass? <==> timer in timers
      ensures r.Fail? ==> r.error == UnexpectedValue && calls == old(calls)
      ensures r.Pass? ==> calls == old(calls) + [Cancel(timers[timer])]
    {
      if timer !in timers {
        return Fail(UnexpectedValue);
      }
      calls := calls + [Cancel(timers[timer])];
      r := Pass;
    }

    /** One `immediately` call, with the listener unchanged. */
    method NextTick()
      modifies this`calls
      ensures calls == old(calls) + [Immediately]
    {
      calls := calls + [Immediately];
    }

    /** Exactly what NextTick does. */
    method FutureTick()
      modifies this`calls
      ensures calls == old(calls) + [Immediately]
    {
      calls := calls + [Immediately];
    }
  }
}
