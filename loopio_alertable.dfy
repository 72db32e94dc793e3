/**
 * Loopio\Alertable\Loop: the Alert reactor API implemented over a React loop.
 * Every registration issues one call to the React loop and records a watcher;
 * `disabledWatchers` holds the ids whose callbacks are suppressed.
 */
module LoopioAlertable {
  import opened Wrappers
  import opened BridgeTypes
  import opened Watchers

  class Loop {
    const registry: WatcherRegistry
    var disabledWatchers: set<int>
    /** The calls issued to the underlying React loop, oldest first. */
    var calls: seq<ReactCall>

    ghost predicate Valid()
      reads this, registry
    {
      registry.Valid()
    }

    constructor ()
      ensures Valid() && fresh(registry)
      ensures registry.watchers == map[] && registry.watcherId == 0
      ensures disabledWatchers == {} && calls == []
    {
      registry := new WatcherRegistry();
      disabledWatchers := {};
      calls := [];
    }

    /**
     * Undo a watcher: a live id issues the one removal call its type calls for,
     * an unknown id issues nothing and raises nothing; either way the id leaves
     * the registry and the disabled set.
     */
    method Cancel(id: int)
      requires Valid()
      modifies registry`watchers, this`disabledWatchers, this`calls
      ensures Valid()
      ensures calls == old(calls) + if id in old(registry.watchers) then [Removal(old(registry.watchers)[id])] else []
      ensures registry.watchers == old(registry.watchers) - {id}
      ensures disabledWatchers == old(disabledWatchers) - {id}
    {
      if id in registry.watchers {
        calls := calls + [Removal(registry.watchers[id])];
      }
      registry.Deregister(id);
      disabledWatchers := disabledWatchers - {id};
    }

    /** A zero-second React timer, registered as a TIMER watcher; `timer` is what the React loop returns. */
    method Immediately(timer: ReactTimer) returns (id: int)
      requires Valid() && |registry.watchers| < IdSpace
      modifies registry, this`calls
      ensures Valid() && registry.Registered(id, Watcher(Timer, timer))
      ensures calls == old(calls) + [AddTimer(0.0)]
    {
      calls := calls + [AddTimer(0.0)];
      id := registry.Register(Timer, timer);
    }

    /** A one-shot React timer after `delay` milliseconds. */
    method Once(delay: real, timer: ReactTimer) returns (id: int)
      requires Valid() && |registry.watchers| < IdSpace
      modifies registry, this`calls
      ensures Valid() && registry.Registered(id, Watcher(Timer, timer))
      ensures calls == old(calls) + [AddTimer(delay / 1000.0)]
    {
      calls := calls + [AddTimer(delay / 1000.0)];
      id := registry.Register(Timer, timer);
    }

    /** A periodic React timer every `interval` milliseconds. */
    method Repeat(interval: real, timer: ReactTimer) returns (id: int)
      requires Valid() && |registry.watchers| < IdSpace
      modifies registry, this`calls
      ensures Valid() && registry.Registered(id, Watcher(Timer, timer))
      ensures calls == old(calls) + [AddPeriodicTimer(interval / 1000.0)]
    {
      calls := calls + [AddPeriodicTimer(interval / 1000.0)];
      id := registry.Register(Timer, timer);
    }

    /**
     * `once` at the parsed time `executeAt` (None when `strtotime()` fails),
     * given the clock's `now`: throws, registering and issuing nothing, unless
     * the time lies strictly in the future; otherwise the React loop is asked
     * for a timer after exactly executeAt - now seconds.
     */
    method At(executeAt: Option<int>, now: int, timer: ReactTimer) returns (r: Result<int, Error>)
      requires Valid()
      requires AtDelay(executeAt, now).Success? ==> |registry.watchers| < IdSpace
      modifies registry, this`calls
      ensures Valid()
      ensures r.Failure? <==> AtDelay(executeAt, now).Failure?
      ensures r.Failure? ==> r.error == InvalidArgument && unchanged(registry) && calls == old(calls)
      ensures r.Success? ==> registry.Registered(r.value, Watcher(Timer, timer))
      ensures r.Success? ==> calls == old(calls) + [AddTimer((executeAt.value - now) as real)]
    {
      if executeAt.None? || executeAt.value <= now {
        return Failure(InvalidArgument);
      }
      var id := Once(((executeAt.value - now) * 1000) as real, timer);
      r := Success(id);
    }

    /** Watch a stream for readability; with `enableNow` false the watcher starts disabled. */
    method OnReadable(stream: StreamId, enableNow: bool) returns (id: int)
      requires Valid() && |registry.watchers| < IdSpace
      modifies registry, this`calls, this`disabledWatchers
      ensures Valid() && registry.Registered(id, Watcher(Read, stream))
      ensures calls == old(calls) + [AddReadStream(stream)]
      ensures disabledWatchers == if enableNow then old(disabledWatchers) else old(disabledWatchers) + {id}
    {
      calls := calls + [AddReadStream(stream)];
      id := registry.Register(Read, stream);
      if !enableNow {
        Disable(id);
      }
    }

    /** Watch a stream for writability; with `enableNow` false the watcher starts disabled. */
    method OnWritable(stream: StreamId, enableNow: bool) returns (id: int)
      requires Valid() && |registry.watchers| < IdSpace
      modifies registry, this`calls, this`disabledWatchers
      ensures Valid() && registry.Registered(id, Watcher(Write, stream))
      ensures calls == old(calls) + [AddWriteStream(stream)]
      ensures disabledWatchers == if enableNow then old(disabledWatchers) else old(disabledWatchers) + {id}
    {
      calls := calls + [AddWriteStream(stream)];
      id := registry.Register(Write, stream);
      if !enableNow {
        Disable(id);
      }
    }

    /** Mark an id disabled, known or not; nothing else changes. */
    method Disable(id: int)
      modifies this`disabledWatchers
      ensures disabledWatchers == old(disabledWatchers) + {id}
    {
      disabledWatchers := disabledWatchers + {id};
    }

    /** Clear an id's disabled mark, known or not; nothing else changes. */
    method Enable(id: int)
      modifies this`disabledWatchers
      ensures disabledWatchers == old(disabledWatchers) - {id}
    {
      disabledWatchers := disabledWatchers - {id};
    }

    /**
     * The closure `immediately`, `once` and `repeat` (and so `at`) hand to the
     * React loop, fired for watcher `id`: it deregisters the watcher first, then
     * calls the user callback with the id unless the id is disabled. The
     * disabled mark itself stays.
     */
    method FireTimer(id: int) returns (inv: Invocation)
      requires Valid()
      modifies registry`watchers
      ensures Valid() && registry.watchers == old(registry.watchers) - {id}
      ensures inv == if id in disabledWatchers then Skipped else Called(WatcherArgs(id))
    {
      registry.Deregister(id);
      if id in disabledWatchers {
        return Skipped;
      }
      inv := Called(WatcherArgs(id));
    }

    /**
     * The repeat closure as evidently intended (see README, Findings): the
     * watcher stays registered across fires, so `cancel` still reaches it.
     */
    method FireRepeatingTimer(id: int) returns (inv: Invocation)
      ensures inv.Skipped? <==> id in disabledWatchers
      ensures inv.Called? ==> inv.args == WatcherArgs(id)
    {
      if id in disabledWatchers {
        return Skipped;
      }
      inv := Called(WatcherArgs(id));
    }

    /**
     * The closure `onReadable`/`onWritable` hand to the React loop, fired for
     * watcher `id` on `stream`: the user callback runs iff the id is not
     * disabled, and the registry is left alone.
     */
    method FireStream(id: int, stream: StreamId) returns (inv: Invocation)
      ensures inv.Skipped? <==> id in disabledWatchers
      ensures inv.Called? ==> inv.args == StreamWatcherArgs(id, stream)
    {
      if id in disabledWatchers {
        return Skipped;
      }
      inv := Called(StreamWatcherArgs(id, stream));
    }
  }
}
