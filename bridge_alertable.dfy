/**
 * AlertReactBridge\Alertable: the two older Alert facades over a React loop.
 * Both rely on `registerWatcher`, `deregisterWatcher`, the `watchers` map and
 * the guarded `cancel` that Loopio\Alertable\Loop defines; here they come from
 * the shared WatcherRegistry and Removal.
 */
module AlertReactBridgeAlertable {
  import opened Wrappers
  import opened BridgeTypes
  import opened Watchers

  /**
   * The degraded facade: no disabled set. `enable`, `disable` and a stream
   * watcher held for later are refused with an exception.
   */
  class SimpleLoop {
    const registry: WatcherRegistry
    /** The calls issued to the underlying React loop, oldest first. */
    var calls: seq<ReactCall>

    ghost predicate Valid()
      reads this, registry
    {
      registry.Valid()
    }

    constructor ()
      ensures Valid() && fresh(registry)
      ensures registry.watchers == map[] && registry.watcherId == 0 && calls == []
    {
      registry := new WatcherRegistry();
      calls := [];
    }

    /** A zero-second React timer, registered as a TIMER watcher. */
    method Immediately(timer: ReactTimer) returns (id: int)
      requires Valid() && |registry.watchers| < IdSpace
      modifies registry, this`calls
      ensures Valid() && registry.Registered(id, Watcher(Timer, timer))
      ensures calls == old(calls) + [AddTimer(0.0)]
    {
      calls := calls + [AddTimer(0.0)];
      id := registry.Register(Timer, timer);
    }

    /** A one-shot React timer after `delay` milliseconds. */
    method Once(delay: real, timer: ReactTimer) returns (id: int)
      requires Valid() && |registry.watchers| < IdSpace
      modifies registry, this`calls
      ensures Valid() && registry.Registered(id, Watcher(Timer, timer))
      ensures calls == old(calls) + [AddTimer(delay / 1000.0)]
    {
      calls := calls + [AddTimer(delay / 1000.0)];
      id := registry.Register(Timer, timer);
    }

    /** A periodic React timer every `interval` milliseconds. */
    method Repeat(interval: real, timer: ReactTimer) returns (id: int)
      requires Valid() && |registry.watchers| < IdSpace
      modifies registry, this`calls
      ensures Valid() && registry.Registered(id, Watcher(Timer, timer))
      ensures calls == old(calls) + [AddPeriodicTimer(interval / 1000.0)]
    {
      calls := calls + [AddPeriodicTimer(interval / 1000.0)];
      id := registry.Register(Timer, timer);
    }

    /**
     * A React timer at the parsed time `executeAt`: throws, registering and
     * issuing nothing, unless the time lies strictly in the future; otherwise
     * the React timer is for executeAt - now seconds.
     */
    method At(executeAt: Option<int>, now: int, timer: ReactTimer) returns (r: Result<int, Error>)
      requires Valid()
      requires AtDelay(executeAt, now).Success? ==> |registry.watchers| < IdSpace
      modifies registry, this`calls
      ensures Valid()
      ensures r.Failure? <==> AtDelay(executeAt, now).Failure?
      ensures r.Failure? ==> r.error == InvalidArgument && unchanged(registry) && calls == old(calls)
      ensures r.Success? ==> registry.Registered(r.value, Watcher(Timer, timer))
      ensures r.Success? ==> calls == old(calls) + [AddTimer((executeAt.value - now) as real)]
    {
      if executeAt.None? || executeAt.value <= now {
        return Failure(InvalidArgument);
      }
      calls := calls + [AddTimer((executeAt.value - now) as real)];
      var id := registry.Register(Timer, timer);
      r := Success(id);
    }

    /** Watch a stream for readability; a watcher held for later is refused before anything happens. */
    method OnReadable(stream: StreamId, enableNow: bool) returns (r: Result<int, Error>)
      requires Valid()
      requires enableNow ==> |registry.watchers| < IdSpace
      modifies registry, this`calls
      ensures Valid()
      ensures r.Failure? <==> !enableNow
      ensures r.Failure? ==> r.error == UnimplementedArgument && unchanged(registry) && calls == old(calls)
      ensures r.Success? ==> registry.Registered(r.value, Watcher(Read, stream))
      ensures r.Success? ==> calls == old(calls) + [AddReadStream(stream)]
    {
      if !enableNow {
        return Failure(UnimplementedArgument);
      }
      calls := calls + [AddReadStream(stream)];
      var id := registry.Register(Read, stream);
      r := Success(id);
    }

    /** Watch a stream for writability; a watcher held for later is refused before anything happens. */
    method OnWritable(stream: StreamId, enableNow: bool) returns (r: Result<int, Error>)
      requires Valid()
      requires enableNow ==> |registry.watchers| < IdSpace
      modifies registry, this`calls
      ensures Valid()
      ensures r.Failure? <==> !enableNow
      ensures r.Failure? ==> r.error == UnimplementedArgument && unchanged(registry) && calls == old(calls)
      ensures r.Success? ==> registry.Registered(r.value, Watcher(Write, stream))
      ensures r.Success? ==> calls == old(calls) + [AddWriteStream(stream)]
    {
      if !enableNow {
        return Failure(UnimplementedArgument);
      }
      calls := calls + [AddWriteStream(stream)];
      var id := registry.Register(Write, stream);
      r := Success(id);
    }

    /**
     * Undo a watcher without first checking it exists: a live id issues the
     * removal call its type calls for; a missing one reads as a null type,
     * which matches no case, so nothing is issued. The id leaves the registry.
     */
    method Cancel(id: int)
      requires Valid()
      modifies registry`watchers, this`calls
      ensures Valid()
      ensures calls == old(calls) + if id in old(registry.watchers) then [Removal(old(registry.watchers)[id])] else []
      ensures registry.watchers == old(registry.watchers) - {id}
    {
      if id in registry.watchers {
        calls := calls + [Removal(registry.watchers[id])];
      }
      registry.Deregister(id);
    }

    /** Not implemented: always throws and changes nothing. */
    method Disable(id: int) returns (r: Outcome<Error>)
      ensures r == Fail(UnimplementedMethod)
    {
      r := Fail(UnimplementedMethod);
    }

    /** Not implemented: always throws and changes nothing. */
    method Enable(id: int) returns (r: Outcome<Error>)
      ensures r == Fail(UnimplementedMethod)
    {
      r := Fail(UnimplementedMethod);
    }

    /**
     * The closure every timer registration hands to the React loop, fired for
     * watcher `id`: it deregisters the watcher, then calls the user callback
     * with no arguments, unconditionally.
     */
    method FireTimer(id: int) returns (inv: Invocation)
      requires Valid()
      modifies registry`watchers
      ensures Valid() && registry.watchers == old(registry.watchers) - {id}
      ensures inv == Called(NoArgs)
    {
      registry.Deregister(id);
      inv := Called(NoArgs);
    }
  }

  /** The facade with a disabled set, kept in step with `cancel`. */
  class FullyCompatibleLoop {
    const registry: WatcherRegistry
    var disabledWatchers: set<int>
    /** The calls issued to the underlying React loop, oldest first. */
    var calls: seq<ReactCall>

    ghost predicate Valid()
      reads this, registry
    {
      registry.Valid()
    }

    constructor ()
      ensures Valid() && fresh(registry)
      ensures registry.watchers == map[] && registry.watcherId == 0
      ensures disabledWatchers == {} && calls == []
    {
      registry := new WatcherRegistry();
      disabledWatchers := {};
      calls := [];
    }

    /** A zero-second React timer, registered as a TIMER watcher. */
    method Immediately(timer: ReactTimer) returns (id: int)
      requires Valid() && |registry.watchers| < IdSpace
      modifies registry, this`calls
      ensures Valid() && registry.Registered(id, Watcher(Timer, timer))
      ensures calls == old(calls) + [AddTimer(0.0)]
    {
      calls := calls + [AddTimer(0.0)];
      id := registry.Register(Timer, timer);
    }

    /** A one-shot React timer after `delay` milliseconds. */
    method Once(delay: real, timer: ReactTimer) returns (id: int)
      requires Valid() && |registry.watchers| < IdSpace
      modifies registry, this`calls
      ensures Valid() && registry.Registered(id, Watcher(Timer, timer))
      ensures calls == old(calls) + [AddTimer(delay / 1000.0)]
    {
      calls := calls + [AddTimer(delay / 1000.0)];
      id := registry.Register(Timer, timer);
    }

    /** A periodic React timer every `interval` milliseconds. */
    method Repeat(interval: real, timer: ReactTimer) returns (id: int)
      requires Valid() && |registry.watchers| < IdSpace
      modifies registry, this`calls
      ensures Valid() && registry.Registered(id, Watcher(Timer, timer))
      ensures calls == old(calls) + [AddPeriodicTimer(interval / 1000.0)]
    {
      calls := calls + [AddPeriodicTimer(interval / 1000.0)];
      id := registry.Register(Timer, timer);
    }

    /**
     * A React timer at the parsed time `executeAt`: throws, registering and
     * issuing nothing, unless the time lies strictly in the future; otherwise
     * the React timer is for executeAt - now seconds.
     */
    method At(executeAt: Option<int>, now: int, timer: ReactTimer) returns (r: Result<int, Error>)
      requires Valid()
      requires AtDelay(executeAt, now).Success? ==> |registry.watchers| < IdSpace
      modifies registry, this`calls
      ensures Valid()
      ensures r.Failure? <==> AtDelay(executeAt, now).Failure?
      ensures r.Failure? ==> r.error == InvalidArgument && unchanged(registry) && calls == old(calls)
      ensures r.Success? ==> registry.Registered(r.value, Watcher(Timer, timer))
      ensures r.Success? ==> calls == old(calls) + [AddTimer((executeAt.value - now) as real)]
    {
      if executeAt.None? || executeAt.value <= now {
        return Failure(InvalidArgument);
      }
      calls := calls + [AddTimer((executeAt.value - now) as real)];
      var id := registry.Register(Timer, timer);
      r := Success(id);
    }

    /** Watch a stream for readability; with `enableNow` false the watcher starts disabled. */
    method OnReadable(stream: StreamId, enableNow: bool) returns (id: int)
      requires Valid() && |registry.watchers| < IdSpace
      modifies registry, this`calls, this`disabledWatchers
      ensures Valid() && registry.Registered(id, Watcher(Read, stream))
      ensures calls == old(calls) + [AddReadStream(stream)]
      ensures disabledWatchers == if enableNow then old(disabledWatchers) else old(disabledWatchers) + {id}
    {
      calls := calls + [AddReadStream(stream)];
      id := registry.Register(Read, stream);
      if !enableNow {
        Disable(id);
      }
    }

    /** Watch a stream for writability; with `enableNow` false the watcher starts disabled. */
    method OnWritable(stream: StreamId, enableNow: bool) returns (id: int)
      requires Valid() && |registry.watchers| < IdSpace
      modifies registry, this`calls, this`disabledWatchers
      ensures Valid() && registry.Registered(id, Watcher(Write, stream))
      ensures calls == old(calls) + [AddWriteStream(stream)]
      ensures disabledWatchers == if enableNow then old(disabledWatchers) else old(disabledWatchers) + {id}
    {
      calls := calls + [AddWriteStream(stream)];
      id := registry.Register(Write, stream);
      if !enableNow {
        Disable(id);
      }
    }

    /** Mark an id disabled, known or not; nothing else changes. */
    method Disable(id: int)
      modifies this`disabledWatchers
      ensures disabledWatchers == old(disabledWatchers) + {id}
    {
      disabledWatchers := disabledWatchers + {id};
    }

    /** Clear an id's disabled mark, known or not; nothing else changes. */
    method Enable(id: int)
      modifies this`disabledWatchers
      ensures disabledWatchers == old(disabledWatchers) - {id}
    {
      disabledWatchers := disabledWatchers - {id};
    }

    /**
     * The guarded cancellation of the parent, then the disabled mark is
     * cleared: a live id issues its one removal call, an unknown id nothing.
     */
    method Cancel(id: int)
      requires Valid()
      modifies registry`watchers, this`disabledWatchers, this`calls
      ensures Valid()
      ensures calls == old(calls) + if id in old(registry.watchers) then [Removal(old(registry.watchers)[id])] else []
      ensures registry.watchers == old(registry.watchers) - {id}
      ensures disabledWatchers == old(disabledWatchers) - {id}
    {
      if id in registry.watchers {
        calls := calls + [Removal(registry.watchers[id])];
      }
      registry.Deregister(id);
      disabledWatchers := disabledWatchers - {id};
    }

    /**
     * The closure every timer registration hands to the React loop, fired for
     * watcher `id`: it deregisters first, then calls the user callback with no
     * arguments iff the id is not disabled.
     */
    method FireTimer(id: int) returns (inv: Invocation)
      requires Valid()
      modifies registry`watchers
      ensures Valid() && registry.watchers == old(registry.watchers) - {id}
      ensures inv == if id in disabledWatchers then Skipped else Called(NoArgs)
    {
      registry.Deregister(id);
      inv := if id !in disabledWatchers then Called(NoArgs) else Skipped;
    }

    /**
     * The closure a stream watcher hands to the React loop, fired for watcher
     * `id`: the user callback runs, with no arguments, iff the id is not
     * disabled; nothing changes.
     */
    method FireStream(id: int) returns (inv: Invocation)
      ensures inv.Skipped? <==> id in disabledWatchers
      ensures inv.Called? ==> inv.args == NoArgs
    {
      inv := if id !in disabledWatchers then Called(NoArgs) else Skipped;
    }
  }
}
