/**
 * The listener table of src/EventBus/EventEmitter.js: per-event lists of
 * listeners called in registration order, at most one once-handler per event,
 * optional limits on listeners per event and on events, and warnings that are
 * each issued at most once per emitter.
 *
 * Listeners are identified by a number; a listener that throws is one in the
 * `throwing` parameter of `Emit`. The once-handler's listener is optional,
 * since `once` accepts a missing one.
 */
module EventEmitter {
  import opened Values
  import opened Registry

  type Listener = nat

  /** `#maxListeners` / `#maxEvents`: `Infinity`, or a number. */
  datatype Limit = Unlimited | AtMost(n: int)

  /** `n || Infinity` for a number `n`. */
  function LimitOf(n: int): (l: Limit)
    ensures l.Unlimited? <==> n == 0
    ensures l.AtMost? ==> l.n == n
  {
    if n == 0 then Unlimited else AtMost(n)
  }

  /** The warning test `limit <= count`, never true for `Infinity`. */
  predicate Reached(limit: Limit, count: nat) {
    limit.AtMost? && limit.n <= count
  }

  /** A `console.warn` the emitter issues. */
  datatype Warning = TooManyListeners(event: string, count: nat) | TooManyEvents(count: nat) | OnceOverridden(event: string)

  /** The flag each warning is guarded by: 0 for the listener limit, 1 for the event limit, 2 for once. */
  function KindOf(w: Warning): nat {
    if w.TooManyListeners? then 0 else if w.TooManyEvents? then 1 else 2
  }

  /** How many warnings of `kind` were issued. */
  function CountKind(ws: seq<Warning>, kind: nat): nat {
    if ws == [] then 0
    else CountKind(ws[..|ws| - 1], kind) + (if KindOf(ws[|ws| - 1]) == kind then 1 else 0)
  }

  lemma CountKindAppend(ws: seq<Warning>, w: Warning, kind: nat)
    ensures CountKind(ws + [w], kind) == CountKind(ws, kind) + (if KindOf(w) == kind then 1 else 0)
  {
    assert (ws + [w])[..|ws|] == ws;
  }

  /** Only the three kinds occur. */
  lemma {:induction false} CountKindOther(ws: seq<Warning>, kind: nat)
    requires kind > 2
    ensures CountKind(ws, kind) == 0
  {
    if ws != [] {
      CountKindOther(ws[..|ws| - 1], kind);
    }
  }

  /** `#events[event]` after `#get(event)`: the listeners, or a fresh empty list. */
  function ListenersOf(events: map<string, seq<Listener>>, event: string): seq<Listener> {
    if event in events then events[event] else []
  }

  /** The index of the first listener that throws, or the length of the list if none does. */
  function FirstThrow(ls: seq<Listener>, throwing: set<Listener>): (k: nat)
    ensures k <= |ls|
    ensures forall j :: 0 <= j < k ==> ls[j] !in throwing
    ensures k < |ls| ==> ls[k] in throwing
  {
    if ls == [] || ls[0] in throwing then 0 else 1 + FirstThrow(ls[1..], throwing)
  }

  /** The first throwing listener is the first index where one throws. */
  lemma {:induction false} FirstThrowIs(ls: seq<Listener>, throwing: set<Listener>, k: nat)
    requires k <= |ls|
    requires forall j :: 0 <= j < k ==> ls[j] !in throwing
    requires k < |ls| ==> ls[k] in throwing
    ensures FirstThrow(ls, throwing) == k
  {
    if ls != [] && k > 0 {
      assert ls[0] !in throwing;
      FirstThrowIs(ls[1..], throwing, k - 1);
    }
  }

  /** The effect of one `emit`: the listeners called, in order, whether the call threw, and the once-table after. */
  datatype EmitResult = EmitResult(called: seq<Listener>, threw: bool, once: map<string, Option<Listener>>)

  /**
   * `emit(event, x)`: every listener of `event` in registration order, the
   * first throwing one ending the call; then, if nothing threw, the
   * once-handler, whose wrapper catches its listener's exception and removes
   * itself only after the listener returned. A once-handler without a listener
   * does nothing and stays.
   */
  function Dispatch(events: map<string, seq<Listener>>, once: map<string, Option<Listener>>,
                    event: string, throwing: set<Listener>): (r: EmitResult)
    ensures var ls := ListenersOf(events, event);
      && (r.threw <==> exists j :: 0 <= j < |ls| && ls[j] in throwing)
      && (r.threw ==> r.called <= ls && r.called != [] && r.called[|r.called| - 1] in throwing && r.once == once)
      && (r.threw ==> r.called == ls[..FirstThrow(ls, throwing) + 1])
      && (!r.threw ==> r.called == ls + (if event in once && once[event].Some? then [once[event].value] else []))
      && r.once == (if !r.threw && event in once && once[event].Some? && once[event].value !in throwing
                    then once - {event} else once)
      && (forall e :: e != event ==> (e in r.once <==> e in once))
      && (forall e :: e in r.once ==> e in once && r.once[e] == once[e])
  {
    var ls := ListenersOf(events, event);
    var k := FirstThrow(ls, throwing);
    if k < |ls| then EmitResult(ls[..k + 1], true, once)
    else if event in once && once[event].Some? then
      var l := once[event].value;
      EmitResult(ls + [l], false, if l in throwing then once else once - {event})
    else
      EmitResult(ls, false, once)
  }

  /** An event with nothing registered calls nothing and changes nothing. */
  lemma EmitNothingRegistered(events: map<string, seq<Listener>>, once: map<string, Option<Listener>>,
                              event: string, throwing: set<Listener>)
    requires event !in events && event !in once
    ensures Dispatch(events, once, event, throwing) == EmitResult([], false, once)
  {
  }

  /**
   * A once-handler fires at most once: after an emit in which its listener
   * returned, the next emit calls only the event's own listeners.
   */
  lemma OnceFiresAtMostOnce(events: map<string, seq<Listener>>, once: map<string, Option<Listener>>,
                            event: string, throwing1: set<Listener>, throwing2: set<Listener>)
    requires event in once && once[event].Some?
    ensures var r1 := Dispatch(events, once, event, throwing1);
      var r2 := Dispatch(events, r1.once, event, throwing2);
      && (!r1.threw ==> r1.called == ListenersOf(events, event) + [once[event].value])
      && (!r1.threw && once[event].value !in throwing1 ==> event !in r1.once && r2.called <= ListenersOf(events, event))
  {
    var r1 := Dispatch(events, once, event, throwing1);
    var ls := ListenersOf(events, event);
    if !r1.threw && once[event].value !in throwing1 {
      var r2 := Dispatch(events, r1.once, event, throwing2);
      if !r2.threw {
        assert r2.called == ls;
      }
    }
  }

  /** A once-listener that throws is not removed, so it runs again on the next emit. */
  lemma ThrowingOnceListenerStays(events: map<string, seq<Listener>>, once: map<string, Option<Listener>>,
                                  event: string, throwing: set<Listener>)
    requires event in once && once[event].Some? && once[event].value in throwing
    ensures Dispatch(events, once, event, throwing).once == once
  {
  }

  class EventEmitter {
    var events: map<string, seq<Listener>>
    var once: map<string, Option<Listener>>
    var maxListeners: Limit
    var maxEvents: Limit
    /** `#warn.maxListeners`, `#warn.maxEvents`, `#warn.once`. */
    var warnedMaxListeners: bool
    var warnedMaxEvents: bool
    var warnedOnce: bool
    /** Every warning issued, in order. */
    ghost var warnings: seq<Warning>

    /** Each warning flag is set exactly when its warning was issued, and then it was issued once. */
    ghost predicate Valid()
      reads this
    {
      && CountKind(warnings, 0) == (if warnedMaxListeners then 1 else 0)
      && CountKind(warnings, 1) == (if warnedMaxEvents then 1 else 0)
      && CountKind(warnings, 2) == (if warnedOnce then 1 else 0)
    }

    /** Each warning is issued at most once over the emitter's life. */
    lemma WarningsAtMostOnce(kind: nat)
      requires Valid()
      ensures CountKind(warnings, kind) <= 1
    {
      if kind > 2 {
        CountKindOther(warnings, kind);
      }
    }

    constructor ()
      ensures Valid()
      ensures events == map[] && once == map[]
      ensures maxListeners == Unlimited && maxEvents == Unlimited
      ensures !warnedMaxListeners && !warnedMaxEvents && !warnedOnce && warnings == []
    {
      events := map[];
      once := map[];
      maxListeners := Unlimited;
      maxEvents := Unlimited;
      warnedMaxListeners := false;
      warnedMaxEvents := false;
      warnedOnce := false;
      warnings := [];
    }

    /** `setMaxListeners(n)`: 0 means no limit. */
    method SetMaxListeners(n: int)
      requires Valid()
      modifies this`maxListeners
      ensures Valid() && maxListeners == LimitOf(n)
    {
      maxListeners := LimitOf(n);
    }

    /** `setMaxEvents(n)`: 0 means no limit. */
    method SetMaxEvents(n: int)
      requires Valid()
      modifies this`maxEvents
      ensures Valid() && maxEvents == LimitOf(n)
    {
      maxEvents := LimitOf(n);
    }

    /**
     * `on(event, listener)`: appends the listener to the event's list, leaving
     * every other event's list as it was, then warns, the first time only,
     * when the list reaches the listener limit or the table the event limit.
     */
    method On(event: string, l: Listener)
      requires Valid()
      modifies this`events, this`warnedMaxListeners, this`warnedMaxEvents, this`warnings
      ensures Valid()
      ensures events == old(events)[event := ListenersOf(old(events), event) + [l]]
      ensures var count := |events[event]|;
        warnedMaxListeners == (old(warnedMaxListeners) || Reached(maxListeners, count))
      ensures warnedMaxEvents == (old(warnedMaxEvents) || Reached(maxEvents, |events|))
      ensures var count := |events[event]|;
        warnings == old(warnings)
          + (if Reached(maxListeners, count) && !old(warnedMaxListeners) then [TooManyListeners(event, count)] else [])
          + (if Reached(maxEvents, |events|) && !old(warnedMaxEvents) then [TooManyEvents(|events|)] else [])
    {
      var ls := ListenersOf(events, event) + [l];
      events := events[event := ls];
      WarnListeners(event, |ls|);
      WarnEvents(|events|);
    }

    /** The listener-limit warning of `on`, issued the first time the limit is reached. */
    method WarnListeners(event: string, count: nat)
      requires Valid()
      modifies this`warnedMaxListeners, this`warnings
      ensures Valid()
      ensures warnedMaxListeners == (old(warnedMaxListeners) || Reached(maxListeners, count))
      ensures warnings == old(warnings) +
        (if Reached(maxListeners, count) && !old(warnedMaxListeners) then [TooManyListeners(event, count)] else [])
    {
      if Reached(maxListeners, count) && !warnedMaxListeners {
        var w := TooManyListeners(event, count);
        CountKindAppend(warnings, w, 0);
        CountKindAppend(warnings, w, 1);
        CountKindAppend(warnings, w, 2);
        warnings := warnings + [w];
        warnedMaxListeners := true;
      }
    }

    /** The event-limit warning of `on`, issued the first time the limit is reached. */
    method WarnEvents(count: nat)
      requires Valid()
      modifies this`warnedMaxEvents, this`warnings
      ensures Valid()
      ensures warnedMaxEvents == (old(warnedMaxEvents) || Reached(maxEvents, count))
      ensures warnings == old(warnings) +
        (if Reached(maxEvents, count) && !old(warnedMaxEvents) then [TooManyEvents(count)] else [])
    {
      if Reached(maxEvents, count) && !warnedMaxEvents {
        var w := TooManyEvents(count);
        CountKindAppend(warnings, w, 0);
        CountKindAppend(warnings, w, 1);
        CountKindAppend(warnings, w, 2);
        warnings := warnings + [w];
        warnedMaxEvents := true;
      }
    }

    /** `off(event, listener)`: every occurrence of the listener leaves the event's list; an unknown event gets an empty one. */
    method Off(event: string, l: Listener)
      requires Valid()
      modifies this`events
      ensures Valid()
      ensures events == old(events)[event := Without(ListenersOf(old(events), event), l)]
    {
      events := events[event := Without(ListenersOf(events, event), l)];
    }

    /** `once(event, listener)`: replaces the event's once-handler, warning the first time one is overridden. */
    method Once(event: string, l: Option<Listener>)
      requires Valid()
      modifies this`once, this`warnedOnce, this`warnings
      ensures Valid()
      ensures once == old(once)[event := l]
      ensures warnedOnce == (old(warnedOnce) || event in old(once))
      ensures warnings == old(warnings) + (if event in old(once) && !old(warnedOnce) then [OnceOverridden(event)] else [])
    {
      if event in once && !warnedOnce {
        CountKindAppend(warnings, OnceOverridden(event), 0);
        CountKindAppend(warnings, OnceOverridden(event), 1);
        CountKindAppend(warnings, OnceOverridden(event), 2);
        warnings := warnings + [OnceOverridden(event)];
        warnedOnce := true;
      }
      once := once[event := l];
    }

    /** `removeOnceListener(event)`: deletes that event's once-handler only. */
    method RemoveOnceListener(event: string)
      requires Valid()
      modifies this`once
      ensures Valid()
      ensures once == old(once) - {event}
    {
      once := once - {event};
    }

    /** `emit(event, x)`, which calls the listeners and the once-handler as `Dispatch` describes. */
    method Emit(event: string, throwing: set<Listener>) returns (called: seq<Listener>, threw: bool)
      requires Valid()
      modifies this`once
      ensures Valid()
      ensures EmitResult(called, threw, once) == Dispatch(events, old(once), event, throwing)
    {
      var ls := ListenersOf(events, event);
      called := [];
      threw := false;
      var i := 0;
      while i < |ls|
        invariant 0 <= i <= |ls|
        invariant called == ls[..i]
        invariant forall j :: 0 <= j < i ==> ls[j] !in throwing
      {
        called := called + [ls[i]];
        if ls[i] in throwing {
          FirstThrowIs(ls, throwing, i);
          assert called == ls[..i + 1];
          threw := true;
          return;
        }
        i := i + 1;
      }
      FirstThrowIs(ls, throwing, |ls|);
      assert called == ls;
      if event in once && once[event].Some? {
        var l := once[event].value;
        called := called + [l];
        if l !in throwing {
          RemoveOnceListener(event);
        }
      }
    }
  }
}
