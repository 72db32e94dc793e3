/**
 * The watcher registry of the Alert facades over a React loop: the map from
 * watcher id to (type, data), the wrapping id counter, and the two pieces of
 * logic every facade shares, the type dispatch of `cancel` and the validation
 * of the time given to `at`.
 */
module Watchers {
  import opened Wrappers
  import opened BridgeTypes
  import IdAllocation

  /** WATCHER_TYPE_READ (1), WATCHER_TYPE_WRITE (2) and WATCHER_TYPE_TIMER (3). */
  datatype Kind = Read | Write | Timer

  /** A registered watcher: its type and its data, a stream or a React timer. */
  datatype Watcher = Watcher(kind: Kind, data: int)

  /** Watcher ids run from -PHP_INT_MAX to PHP_INT_MAX. */
  const MinId: int := -PhpIntMax
  const MaxId: int := PhpIntMax
  const IdSpace: int := MaxId - MinId + 1

  predicate IsWatcherId(id: int)
  {
    MinId <= id <= MaxId
  }

  /** The one call `cancel` issues to the React loop to undo a watcher, chosen by its type. */
  function Removal(w: Watcher): (call: ReactCall)
    ensures call.RemoveReadStream? <==> w.kind == Read
    ensures call.RemoveWriteStream? <==> w.kind == Write
    ensures call.CancelTimer? <==> w.kind == Timer
    ensures call in {RemoveReadStream(w.data), RemoveWriteStream(w.data), CancelTimer(w.data)}
  {
    match w.kind
    case Read => RemoveReadStream(w.data)
    case Write => RemoveWriteStream(w.data)
    case Timer => CancelTimer(w.data)
  }

  /**
   * The delay in seconds `at` schedules, given the parsed time (None when
   * `strtotime()` fails) and the current time: an InvalidArgumentException
   * unless the time parsed and lies strictly in the future.
   */
  function AtDelay(executeAt: Option<int>, now: int): (r: Result<int, Error>)
    ensures r.Failure? <==> executeAt.None? || executeAt.value <= now
    ensures r.Failure? ==> r.error == InvalidArgument
    ensures r.Success? ==> r.value > 0 && now + r.value == executeAt.value
  {
    if executeAt.None? || executeAt.value <= now then Failure(InvalidArgument)
    else Success(executeAt.value - now)
  }

  /** The registry: `watchers` and the `watcherId` counter. */
  class WatcherRegistry {
    var watchers: map<int, Watcher>
    var watcherId: int

    ghost predicate Valid()
      reads this
    {
      && IsWatcherId(watcherId)
      && forall id :: id in watchers ==> IsWatcherId(id)
    }

    constructor ()
      ensures Valid()
      ensures watchers == map[] && watcherId == 0
    {
      watchers := map[];
      watcherId := 0;
    }

    /**
     * `w` is now registered under `id`: an id that was free, the first free one
     * the counter reached, with the counter left one step past it and every
     * other entry as it was.
     */
    twostate predicate Registered(id: int, w: Watcher)
      reads this
    {
      && IsWatcherId(id)
      && id !in old(watchers)
      && IdAllocation.SkipsOnlyUsed(old(watchers).Keys, old(watcherId), id, MinId, MaxId)
      && watcherId == IdAllocation.Next(id, MinId, MaxId)
      && watchers == old(watchers)[id := w]
    }

    /** registerWatcher: allocate a fresh id and store the watcher under it. */
    method Register(kind: Kind, data: int) returns (id: int)
      requires Valid() && |watchers| < IdSpace
      modifies this
      ensures Valid() && Registered(id, Watcher(kind, data))
    {
      id, watcherId := IdAllocation.Probe(watchers.Keys, watcherId, MinId, MaxId);
      watchers := watchers[id := Watcher(kind, data)];
    }

    /** deregisterWatcher: forget the id, whether or not it is registered. */
    method Deregister(id: int)
      requires Valid()
      modifies this`watchers
      ensures Valid() && watchers == old(watchers) - {id}
    {
      watchers := watchers - {id};
    }
  }
}
