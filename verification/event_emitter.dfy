/**
 * `EventEmitter` of the browser client (src/js/utils/event-emitter.js):
 * a map from event names to the set of listeners registered for them.
 *
 * Callbacks are compared by identity, so they are modelled by an opaque
 * identity. `once` registers a fresh wrapper function around its
 * callback; the wrapper is a listener of its own, told apart from every
 * other by a token drawn from a counter. What a callback does when it
 * runs is outside the model, except whether it throws.
 */
module EventEmitter {
  import opened Wrappers
  import opened JsCollections

  /** A callback function, by identity. */
  datatype Callback = Callback(id: nat)

  /** What is stored in an event's set: the callback itself, or the wrapper `once` made for it. */
  datatype Listener =
    | Direct(callback: Callback)
    | OnceWrapper(callback: Callback, token: nat)

  /** The emitter: its event map, and the next token for a `once` wrapper. */
  datatype Emitter = Emitter(events: JsMap<seq<Listener>>, nextToken: nat)
  {
    /**
     * The map is well formed, no event maps to an empty set (`off` deletes
     * it), no set holds a listener twice, and every wrapper is older than
     * the next one to be made.
     */
    predicate Valid()
    {
      && events.Valid()
      && forall e :: e in events.entries ==> ListenersValid(events.entries[e], nextToken)
    }
  }

  predicate ListenersValid(ls: seq<Listener>, next: nat)
  {
    |ls| > 0 && Distinct(ls) && forall i :: 0 <= i < |ls| && ls[i].OnceWrapper? ==> ls[i].token < next
  }

  /** `new EventEmitter()`. */
  function NewEmitter(): (em: Emitter)
    ensures em.Valid()
    ensures forall e :: ListenerCount(em, e) == 0
  {
    Emitter(EmptyMap(), 0)
  }

  /** The listeners of an event in registration order; none for an unknown event. */
  function ListenersOf(em: Emitter, e: string): seq<Listener>
  {
    em.events.Get(e).GetOr([])
  }

  /** In a well-formed emitter every event's listeners are distinct and their wrappers old. */
  lemma ListenersOfValid(em: Emitter, e: string)
    requires em.Valid()
    ensures Distinct(ListenersOf(em, e))
    ensures forall i :: 0 <= i < |ListenersOf(em, e)| && ListenersOf(em, e)[i].OnceWrapper?
                        ==> ListenersOf(em, e)[i].token < em.nextToken
  {
    if em.events.Has(e) {
      assert ListenersValid(em.events.entries[e], em.nextToken);
    }
  }

  /** Storing a valid set of listeners under an event keeps the emitter well formed. */
  lemma PutValid(em: Emitter, e: string, ls: seq<Listener>)
    requires em.Valid() && ListenersValid(ls, em.nextToken)
    ensures Emitter(Put(em.events, e, ls), em.nextToken).Valid()
  {
    var m := Put(em.events, e, ls);
    forall f | f in m.entries
      ensures ListenersValid(m.entries[f], em.nextToken)
    {
      if f != e {
        assert m.entries[f] == em.events.entries[f];
      }
    }
  }

  /** `listenerCount(event)`: the size of the event's set, or 0. */
  function ListenerCount(em: Emitter, e: string): (n: nat)
    ensures n == 0 <==> !em.events.Has(e) || |em.events.entries[e]| == 0
  {
    |ListenersOf(em, e)|
  }

  /** What `on` returns: calling it is `off` for the same event and listener. */
  datatype Subscription = Subscription(event: string, listener: Listener)

  /** `on(event, callback)` for a listener: added at the end of the event's set unless it is there already. */
  function On(em: Emitter, e: string, l: Listener): (r: (Emitter, Subscription))
    requires em.Valid() && (l.OnceWrapper? ==> l.token < em.nextToken)
    ensures r.0.Valid() && r.0.nextToken == em.nextToken
    ensures r.1 == Subscription(e, l)
    ensures ListenersOf(r.0, e) == SetAdd(ListenersOf(em, e), l)
    ensures forall f :: f != e ==> r.0.events.Get(f) == em.events.Get(f)
  {
    ListenersOfValid(em, e);
    var ls := SetAdd(ListenersOf(em, e), l);
    assert ListenersValid(ls, em.nextToken);
    PutValid(em, e, ls);
    (Emitter(Put(em.events, e, ls), em.nextToken), Subscription(e, l))
  }

  /** `off(event, callback)`: the listener goes; an event left without listeners is deleted; an unknown event is ignored. */
  function Off(em: Emitter, e: string, l: Listener): (r: Emitter)
    requires em.Valid()
    ensures r.Valid() && r.nextToken == em.nextToken
    ensures ListenersOf(r, e) == Without(ListenersOf(em, e), l)
    ensures r.events.Has(e) <==> |Without(ListenersOf(em, e), l)| > 0
    ensures forall f :: f != e ==> r.events.Get(f) == em.events.Get(f)
  {
    if !em.events.Has(e) then
      em
    else
      var ls := Without(ListenersOf(em, e), l);
      WithoutDistinct(ListenersOf(em, e), l);
      if |ls| == 0 then Emitter(Delete(em.events, e), em.nextToken)
      else Emitter(Put(em.events, e, ls), em.nextToken)
  }

  /** Calling the function `on` returned. */
  function Unsubscribe(em: Emitter, sub: Subscription): (r: Emitter)
    requires em.Valid()
    ensures r.Valid()
    ensures sub.listener !in ListenersOf(r, sub.event)
    ensures forall l :: l != sub.listener && l in ListenersOf(em, sub.event) ==> l in ListenersOf(r, sub.event)
  {
    Off(em, sub.event, sub.listener)
  }

  /** `once(event, callback)`: a fresh wrapper around the callback is registered. */
  function Once(em: Emitter, e: string, cb: Callback): (r: (Emitter, Subscription))
    requires em.Valid()
    ensures r.0.Valid() && r.0.nextToken == em.nextToken + 1
    ensures ListenersOf(r.0, e) == ListenersOf(em, e) + [OnceWrapper(cb, em.nextToken)]
    ensures ListenerCount(r.0, e) == ListenerCount(em, e) + 1
    ensures forall f :: f != e ==> r.0.events.Get(f) == em.events.Get(f)
  {
    var wrapper := OnceWrapper(cb, em.nextToken);
    var bumped := Emitter(em.events, em.nextToken + 1);
    assert wrapper !in ListenersOf(em, e);
    On(bumped, e, wrapper)
  }

  /** `removeAllListeners(event)`: a truthy event name clears that event; no name, or the empty one, clears them all. */
  function RemoveAllListeners(em: Emitter, e: Option<string>): (r: Emitter)
    requires em.Valid()
    ensures r.Valid()
    ensures e.Some? && e.value != "" ==> ListenerCount(r, e.value) == 0
                                         && forall f :: f != e.value ==> r.events.Get(f) == em.events.Get(f)
    ensures e.None? || e == Some("") ==> forall f :: ListenerCount(r, f) == 0
  {
    if e.Some? && e.value != "" then Emitter(Delete(em.events, e.value), em.nextToken)
    else Emitter(EmptyMap(), em.nextToken)
  }

  // -----------------------------------------------------------------------
  // emit

  /** What `emit` leaves behind: the emitter, the callbacks run in order, and those that threw (logged, not rethrown). */
  datatype Emission = Emission(emitter: Emitter, invoked: seq<Callback>, failed: seq<Callback>)

  predicate IsDirect(l: Listener)
  {
    l.Direct?
  }

  /** The callbacks behind a sequence of listeners, in order. */
  function Callbacks(ls: seq<Listener>): (r: seq<Callback>)
    ensures |r| == |ls| && forall i :: 0 <= i < |ls| ==> r[i] == ls[i].callback
  {
    seq(|ls|, i requires 0 <= i < |ls| => ls[i].callback)
  }

  /**
   * The `off` calls the `once` wrappers among `ls` make as they run, in
   * order. `done` are the direct listeners already run, still registered
   * before `ls`.
   */
  function DropWrappers(em: Emitter, e: string, done: seq<Listener>, ls: seq<Listener>): (r: Emitter)
    requires em.Valid() && ListenersOf(em, e) == done + ls && Distinct(done + ls)
    requires forall i :: 0 <= i < |done| ==> done[i].Direct?
    ensures r.Valid() && r.nextToken == em.nextToken
    ensures ListenersOf(r, e) == done + Filter(ls, IsDirect)
    ensures forall f :: f != e ==> r.events.Get(f) == em.events.Get(f)
    decreases |ls|
  {
    if |ls| == 0 then
      assert done + ls == done;
      em
    else
      var l := ls[0];
      assert done + ls == done + [l] + ls[1..];
      if l.OnceWrapper? then
        DropWrapper(done, l, ls[1..]);
        DropWrappers(Off(em, e, l), e, done, ls[1..])
      else
        assert Distinct(done + [l] + ls[1..]);
        assert done + [l] + Filter(ls[1..], IsDirect) == done + Filter(ls, IsDirect);
        DropWrappers(em, e, done + [l], ls[1..])
  }

  lemma DropWrapper(done: seq<Listener>, l: Listener, rest: seq<Listener>)
    requires Distinct(done + [l] + rest) && l.OnceWrapper?
    requires forall i :: 0 <= i < |done| ==> done[i].Direct?
    ensures Without(done + [l] + rest, l) == done + rest
    ensures Distinct(done + rest)
  {
    assert l !in done;
    var all := done + [l] + rest;
    assert all[|done|] == l;
    forall i | 0 <= i < |rest|
      ensures rest[i] != l
    {
      assert rest[i] == all[|done| + 1 + i];
    }
    WithoutOne(done, l, rest);
    WithoutDistinct(done + [l] + rest, l);
  }

  /**
   * `emit(event, ...args)`: every listener of the event runs, in
   * registration order, whether or not an earlier one threw; the `once`
   * wrappers are gone afterwards and the direct listeners stay.
   */
  function Emit(em: Emitter, e: string, throws: Callback -> bool): (r: Emission)
    requires em.Valid()
    ensures r.emitter.Valid() && r.emitter.nextToken == em.nextToken
    ensures |r.invoked| == ListenerCount(em, e)
    ensures forall i :: 0 <= i < |r.invoked| ==> r.invoked[i] == ListenersOf(em, e)[i].callback
    ensures r.failed == Filter(r.invoked, throws)
    ensures ListenersOf(r.emitter, e) == Filter(ListenersOf(em, e), IsDirect)
    ensures forall f :: f != e ==> r.emitter.events.Get(f) == em.events.Get(f)
  {
    var ls := ListenersOf(em, e);
    ListenersOfValid(em, e);
    assert [] + ls == ls;
    var invoked := Callbacks(ls);
    Emission(DropWrappers(em, e, [], ls), invoked, Filter(invoked, throws))
  }

  // -----------------------------------------------------------------------
  // Properties

  /** Registering the same listener twice has no further effect. */
  lemma OnIdempotent(em: Emitter, e: string, l: Listener)
    requires em.Valid() && (l.OnceWrapper? ==> l.token < em.nextToken)
    ensures On(On(em, e, l).0, e, l).0 == On(em, e, l).0
  {
    var em1 := On(em, e, l).0;
    assert em1.events.Has(e);
    assert em1.events.entries[e := ListenersOf(em1, e)] == em1.events.entries;
  }

  /** Unsubscribing a listener that was new gives back the emitter as it was. */
  lemma OnThenUnsubscribe(em: Emitter, e: string, l: Listener)
    requires em.Valid() && (l.OnceWrapper? ==> l.token < em.nextToken)
    requires l !in ListenersOf(em, e)
    ensures Unsubscribe(On(em, e, l).0, On(em, e, l).1) == em
  {
    var ls := ListenersOf(em, e);
    WithoutAppended(ls, l);
    if em.events.Has(e) {
      var em1 := On(em, e, l).0;
      assert em1.events.order == em.events.order;
      assert em1.events.entries[e := ls] == em.events.entries;
    } else {
      PutThenDelete(em.events, e, [l]);
    }
  }

  /**
   * A callback registered with `once` fires at most once: the first
   * `emit` runs it, the next does not, when it was not otherwise
   * registered for the event.
   */
  lemma OnceFiresOnce(em: Emitter, e: string, cb: Callback, throws: Callback -> bool)
    requires em.Valid()
    requires forall i :: 0 <= i < |ListenersOf(em, e)| ==> ListenersOf(em, e)[i].callback != cb
    ensures var em1 := Once(em, e, cb).0;
            var first := Emit(em1, e, throws);
            cb in first.invoked && cb !in Emit(first.emitter, e, throws).invoked
  {
    var em1 := Once(em, e, cb).0;
    var first := Emit(em1, e, throws);
    var n := |ListenersOf(em, e)|;
    assert first.invoked[n] == cb;
    var second := Emit(first.emitter, e, throws);
    FilterOfAppend(ListenersOf(em, e), OnceWrapper(cb, em.nextToken));
    forall i | 0 <= i < |second.invoked|
      ensures second.invoked[i] != cb
    {
      var l := ListenersOf(first.emitter, e)[i];
      assert l in ListenersOf(em, e);
    }
  }

  lemma FilterOfAppend(ls: seq<Listener>, w: Listener)
    requires w.OnceWrapper?
    ensures Filter(ls + [w], IsDirect) == Filter(ls, IsDirect)
  {
    FilterConcat(ls, [w], IsDirect);
  }
}
