/**
 * `Router` of the browser client (src/js/utils/router.js): a map from
 * paths to handlers, the current route, and the `popstate` listener it
 * installs on the window.
 *
 * The router is an `EventEmitter`; what it emits is modelled as the list
 * of signals it sends, in order, which `EventEmitter.Emit` then delivers.
 * The browser history is modelled by the entry each navigation writes,
 * and the window's `popstate` listeners by the identities of the bound
 * functions registered (`bind` makes a new function on every call).
 */
module Router {
  import opened Wrappers
  import opened JsCollections

  /** A route handler, by identity. */
  datatype Handler = Handler(id: nat)

  /** What the router emits: `route-change` with the new and previous routes, `route-error`, `route-not-found`. */
  datatype Signal =
    | RouteChange(path: string, previous: Option<string>)
    | RouteError(path: string)
    | RouteNotFound(path: string)

  /** The history entry a navigation writes. */
  datatype HistoryEntry = Pushed(path: string) | Replaced(path: string)

  datatype RouterState = RouterState(
    routes: JsMap<Handler>,
    currentRoute: Option<string>,
    isStarted: bool,
    popstateListeners: seq<nat>,  // bound functions registered on the window, by identity
    nextBinding: nat)             // identity of the next function `bind` makes
  {
    predicate Valid()
    {
      routes.Valid() && Distinct(popstateListeners) && nextBinding > BoundPopState
      && forall i :: 0 <= i < |popstateListeners| ==> popstateListeners[i] < nextBinding
    }
  }

  /** What a step leaves behind: the router, the signals emitted and the handlers run, in order. */
  datatype Step = Step(router: RouterState, signals: seq<Signal>, ran: seq<Handler>)

  /** `new Router()`. */
  function NewRouter(): (r: RouterState)
    ensures r.Valid() && r.currentRoute.None? && !r.isStarted && r.popstateListeners == []
  {
    RouterState(EmptyMap(), None, false, [], 1)
  }

  /** `addRoute(path, handler)`: `Map.set`. */
  function AddRoute(r: RouterState, path: string, h: Handler): (s: RouterState)
    requires r.Valid()
    ensures s.Valid() && s.routes.Get(path) == Some(h)
    ensures forall p :: p != path ==> s.routes.Get(p) == r.routes.Get(p)
  {
    r.(routes := Put(r.routes, path, h))
  }

  /** `removeRoute(path)`: `Map.delete`. */
  function RemoveRoute(r: RouterState, path: string): (s: RouterState)
    requires r.Valid()
    ensures s.Valid() && s.routes.Get(path).None?
    ensures forall p :: p != path ==> s.routes.Get(p) == r.routes.Get(p)
  {
    r.(routes := Delete(r.routes, path))
  }

  /**
   * `handleRoute(path)`: the path becomes the current route and
   * `route-change` goes out with the previous one; then the registered
   * handler runs, and `route-error` follows when it throws, or
   * `route-not-found` goes out when there is no handler.
   */
  function HandleRoute(r: RouterState, path: string, throws: Handler -> bool): (s: Step)
    requires r.Valid()
    ensures s.router == r.(currentRoute := Some(path))
    ensures |s.signals| == 2 <==> r.routes.Get(path).None? || throws(r.routes.entries[path])
    ensures |s.signals| >= 1 && s.signals[0] == RouteChange(path, r.currentRoute)
    ensures s.ran == (if r.routes.Has(path) then [r.routes.entries[path]] else [])
    ensures !r.routes.Has(path) ==> s.signals == [RouteChange(path, r.currentRoute), RouteNotFound(path)]
    ensures r.routes.Has(path) ==> RouteNotFound(path) !in s.signals
  {
    var changed := r.(currentRoute := Some(path));
    var change := RouteChange(path, r.currentRoute);
    match r.routes.Get(path)
    case Some(h) =>
      Step(changed, if throws(h) then [change, RouteError(path)] else [change], [h])
    case None =>
      Step(changed, [change, RouteNotFound(path)], [])
  }

  /** `navigate(path, replace)`: nothing happens for the current route; otherwise a history entry is written and the route handled. */
  function Navigate(r: RouterState, path: string, replace: bool, throws: Handler -> bool): (s: (Step, Option<HistoryEntry>))
    requires r.Valid()
    ensures r.currentRoute == Some(path) ==> s == (Step(r, [], []), None)
    ensures r.currentRoute != Some(path) ==>
      s.0 == HandleRoute(r, path, throws) && s.1 == Some(if replace then Replaced(path) else Pushed(path))
  {
    if r.currentRoute == Some(path) then (Step(r, [], []), None)
    else (HandleRoute(r, path, throws), Some(if replace then Replaced(path) else Pushed(path)))
  }

  /** `start()` with the page at `location`: a second call does nothing. */
  function Start(r: RouterState, location: string, throws: Handler -> bool): (s: Step)
    requires r.Valid()
    ensures s.router.Valid() && s.router.isStarted
    ensures r.isStarted ==> s == Step(r, [], [])
    ensures !r.isStarted ==> |s.router.popstateListeners| == |r.popstateListeners| + 1
                             && s.router.currentRoute == Some(location)
  {
    if r.isStarted then Step(r, [], [])
    else
      var bound := r.nextBinding;
      var listening := r.(isStarted := true, popstateListeners := SetAdd(r.popstateListeners, bound), nextBinding := bound + 1);
      assert bound !in r.popstateListeners;
      HandleRoute(listening, location, throws)
  }

  /**
   * `stop()` as written: the function it asks the window to remove is a
   * fresh `bind`, registered nowhere, so the listener `start` added stays.
   */
  function Stop(r: RouterState): (s: RouterState)
    requires r.Valid()
    ensures s.Valid() && !s.isStarted
    ensures s.popstateListeners == r.popstateListeners
  {
    var rebound := r.nextBinding;
    assert rebound !in r.popstateListeners;
    WithoutAbsent(r.popstateListeners, rebound);
    r.(isStarted := false, popstateListeners := Without(r.popstateListeners, rebound), nextBinding := rebound + 1)
  }

  /**
   * The identity of the one bound `handlePopState` the corrected router
   * makes, at construction, and hands to both `addEventListener` and
   * `removeEventListener`; the functions the code as written binds come
   * after it.
   */
  const BoundPopState := 0

  /** `start()` with the bound handler kept: the window keeps a function at most once. */
  function StartCorrected(r: RouterState, location: string, throws: Handler -> bool): (s: Step)
    requires r.Valid()
    ensures s.router.Valid() && s.router.isStarted
    ensures r.isStarted ==> s == Step(r, [], [])
    ensures !r.isStarted ==> s.router.popstateListeners == SetAdd(r.popstateListeners, BoundPopState)
  {
    if r.isStarted then Step(r, [], [])
    else HandleRoute(r.(isStarted := true, popstateListeners := SetAdd(r.popstateListeners, BoundPopState)), location, throws)
  }

  /** `stop()` removing the handler `start` added. */
  function StopCorrected(r: RouterState): (s: RouterState)
    requires r.Valid()
    ensures s.Valid() && !s.isStarted
    ensures s.popstateListeners == Without(r.popstateListeners, BoundPopState)
  {
    WithoutDistinct(r.popstateListeners, BoundPopState);
    r.(isStarted := false, popstateListeners := Without(r.popstateListeners, BoundPopState))
  }

  /** With the corrected pair, a stopped router no longer reacts to `popstate`, and a restart listens once. */
  lemma CorrectedStopSilencesPopState(r: RouterState, location: string, later: string, throws: Handler -> bool)
    requires r.Valid() && !r.isStarted && r.popstateListeners == []
    ensures var stopped := StopCorrected(StartCorrected(r, location, throws).router);
            PopState(stopped, later, throws) == Step(stopped, [], [])
            && StartCorrected(stopped, location, throws).router.popstateListeners == [BoundPopState]
  {
    var started := StartCorrected(r, location, throws).router;
    assert started.popstateListeners == [BoundPopState];
    assert Without(started.popstateListeners, BoundPopState) == [];
  }

  /** A `popstate` event with the page at `location`: every registered listener handles the route. */
  function PopState(r: RouterState, location: string, throws: Handler -> bool): (s: Step)
    requires r.Valid()
    ensures s.router.Valid()
    ensures |s.signals| >= |r.popstateListeners|
    ensures r.popstateListeners == [] ==> s == Step(r, [], [])
  {
    Handlers(r, location, throws, |r.popstateListeners|)
  }

  /** `handleRoute(location)` run `n` times in a row. */
  function Handlers(r: RouterState, location: string, throws: Handler -> bool, n: nat): (s: Step)
    requires r.Valid()
    ensures s.router.Valid() && s.router.popstateListeners == r.popstateListeners
    ensures |s.signals| >= n
    ensures n > 0 ==> s.router.currentRoute == Some(location)
    ensures n == 0 ==> s == Step(r, [], [])
    decreases n
  {
    if n == 0 then Step(r, [], [])
    else
      var first := HandleRoute(r, location, throws);
      var rest := Handlers(first.router, location, throws, n - 1);
      Step(rest.router, first.signals + rest.signals, first.ran + rest.ran)
  }

  // -----------------------------------------------------------------------
  // Properties

  /** Starting twice is starting once. */
  lemma StartIsIdempotent(r: RouterState, location: string, later: string, throws: Handler -> bool)
    requires r.Valid()
    ensures var s := Start(r, location, throws);
            Start(s.router, later, throws) == Step(s.router, [], [])
  {
  }

  /** Navigating to the current route twice changes nothing the second time. */
  lemma NavigateTwiceIsOnce(r: RouterState, path: string, replace: bool, again: bool, throws: Handler -> bool)
    requires r.Valid()
    ensures var s := Navigate(r, path, replace, throws).0.router;
            Navigate(s, path, again, throws) == (Step(s, [], []), None)
  {
  }

  /** A route added and removed again, when it was new, leaves the route map as it was. */
  lemma AddThenRemoveRoute(r: RouterState, path: string, h: Handler)
    requires r.Valid() && !r.routes.Has(path)
    ensures RemoveRoute(AddRoute(r, path, h), path) == r
  {
    PutThenDelete(r.routes, path, h);
  }

  /** The handler for a registered path runs, and no `route-not-found` goes out. */
  lemma RegisteredRouteRuns(r: RouterState, path: string, h: Handler, throws: Handler -> bool)
    requires r.Valid() && r.currentRoute != Some(path)
    ensures var s := Navigate(AddRoute(r, path, h), path, false, throws).0;
            s.ran == [h] && RouteNotFound(path) !in s.signals && s.router.currentRoute == Some(path)
  {
  }
}
