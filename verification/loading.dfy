/**
 * `LoadingManager` of the browser client (src/js/utils/loading.js): a
 * counter of pending operations behind one global loading overlay.
 *
 * The overlay and message elements are looked up by `init`; the model
 * keeps only whether they were found. Body scrolling is left out.
 */
module Loading {
  import opened Wrappers

  datatype LoadingManager = LoadingManager(
    hasOverlay: bool,
    hasMessageElement: bool,
    message: Option<string>,   // the message element's text, once set
    isVisible: bool,
    loadingCount: nat)

  /** `new LoadingManager()`: no elements yet, hidden, nothing pending. */
  const Initial := LoadingManager(false, false, None, false, 0)

  /** The message `show` uses when given none. */
  const DefaultMessage := "Loading..."

  /** `init()`: which of the two elements the page has. */
  function Init(l: LoadingManager, overlay: bool, messageElement: bool): (r: LoadingManager)
    ensures r.hasOverlay == overlay && r.hasMessageElement == messageElement
    ensures r.loadingCount == l.loadingCount && r.isVisible == l.isVisible
  {
    l.(hasOverlay := overlay, hasMessageElement := messageElement)
  }

  /** `show(message)`: one more pending operation; with an overlay it becomes visible and shows the message. */
  function Show(l: LoadingManager, message: Option<string>): (r: LoadingManager)
    ensures r.loadingCount == l.loadingCount + 1
    ensures r.isVisible == (l.hasOverlay || l.isVisible)
    ensures r.message == if l.hasOverlay && l.hasMessageElement then Some(message.GetOr(DefaultMessage)) else l.message
    ensures r.hasOverlay == l.hasOverlay && r.hasMessageElement == l.hasMessageElement
  {
    var counted := l.(loadingCount := l.loadingCount + 1);
    if !l.hasOverlay then counted
    else
      var shown := if l.hasMessageElement then counted.(message := Some(message.GetOr(DefaultMessage))) else counted;
      shown.(isVisible := true)
  }

  /** `hide()`: one fewer pending operation, never below zero; the overlay goes once none is left. */
  function Hide(l: LoadingManager): (r: LoadingManager)
    ensures r.loadingCount == if l.loadingCount == 0 then 0 else l.loadingCount - 1
    ensures r.isVisible == (l.isVisible && (r.loadingCount > 0 || !l.hasOverlay))
    ensures r.hasOverlay == l.hasOverlay && r.hasMessageElement == l.hasMessageElement && r.message == l.message
  {
    var n := if l.loadingCount == 0 then 0 else l.loadingCount - 1;
    var counted := l.(loadingCount := n);
    if n > 0 then counted
    else if !l.hasOverlay then counted
    else counted.(isVisible := false)
  }

  /** `isLoading()`: whether the overlay is shown, which is not the same as a pending count. */
  function IsLoading(l: LoadingManager): bool
  {
    l.isVisible
  }

  /** `setMessage(message)`: only when the message element exists. */
  function SetMessage(l: LoadingManager, message: string): (r: LoadingManager)
    ensures r.message == if l.hasMessageElement then Some(message) else l.message
    ensures r.loadingCount == l.loadingCount && r.isVisible == l.isVisible
  {
    if l.hasMessageElement then l.(message := Some(message)) else l
  }

  /** `forceHide()`: the count drops to zero and, with an overlay, it is hidden. */
  function ForceHide(l: LoadingManager): (r: LoadingManager)
    ensures r.loadingCount == 0
    ensures r.isVisible == (l.isVisible && !l.hasOverlay)
  {
    Hide(l.(loadingCount := 0))
  }

  // -----------------------------------------------------------------------
  // Properties

  /** With an overlay, it is shown exactly while something is pending. */
  predicate Consistent(l: LoadingManager)
  {
    l.hasOverlay ==> (l.isVisible <==> l.loadingCount > 0)
  }

  /** The operations other than `init` keep the overlay consistent with the count. */
  lemma OperationsKeepConsistency(l: LoadingManager, message: Option<string>, text: string)
    requires Consistent(l)
    ensures Consistent(Show(l, message)) && Consistent(Hide(l))
    ensures Consistent(ForceHide(l)) && Consistent(SetMessage(l, text))
  {
  }

  /**
   * `init` is left out of the lemma above because it can break the
   * invariant: a `show` before the overlay is found counts without showing,
   * and an `init` that then finds the overlay leaves a pending operation
   * with nothing visible.
   */
  lemma InitAfterShowIsInconsistent()
    ensures Consistent(Show(Initial, None))
    ensures !Consistent(Init(Show(Initial, None), true, true))
  {
  }

  /**
   * `init` keeps the invariant when the overlay was already known, when
   * nothing is pending or shown, or when it finds no overlay.
   */
  lemma InitKeepsConsistency(l: LoadingManager, overlay: bool, messageElement: bool)
    requires Consistent(l) && (l.hasOverlay || (l.loadingCount == 0 && !l.isVisible) || !overlay)
    ensures Consistent(Init(l, overlay, messageElement))
  {
  }

  /** `show` called n times. */
  function ShowTimes(l: LoadingManager, n: nat): (r: LoadingManager)
    ensures r.loadingCount == l.loadingCount + n
    ensures r.hasOverlay == l.hasOverlay && r.hasMessageElement == l.hasMessageElement
  {
    if n == 0 then l else Show(ShowTimes(l, n - 1), None)
  }

  /** `hide` called n times. */
  function HideTimes(l: LoadingManager, n: nat): (r: LoadingManager)
    ensures r.loadingCount == if l.loadingCount >= n then l.loadingCount - n else 0
    ensures r.hasOverlay == l.hasOverlay
  {
    if n == 0 then l else Hide(HideTimes(l, n - 1))
  }

  /** Nested shows and hides: the overlay stays up until the last `hide` of n balanced calls. */
  lemma {:induction false} BalancedCallsHideAtTheEnd(l: LoadingManager, n: nat)
    requires Consistent(l) && l.hasOverlay && l.loadingCount == 0 && n > 0
    ensures var up := ShowTimes(l, n);
      && up.isVisible
      && (forall k :: 0 <= k < n ==> HideTimes(up, k).isVisible)
      && !HideTimes(up, n).isVisible && HideTimes(up, n).loadingCount == 0
  {
    var up := ShowTimes(l, n);
    ShowTimesConsistent(l, n);
    forall k | 0 <= k <= n
      ensures Consistent(HideTimes(up, k))
    {
      HideTimesConsistent(up, k);
    }
  }

  lemma {:induction false} ShowTimesConsistent(l: LoadingManager, n: nat)
    requires Consistent(l)
    ensures Consistent(ShowTimes(l, n))
  {
    if n > 0 {
      ShowTimesConsistent(l, n - 1);
      OperationsKeepConsistency(ShowTimes(l, n - 1), None, "");
    }
  }

  lemma {:induction false} HideTimesConsistent(l: LoadingManager, n: nat)
    requires Consistent(l)
    ensures Consistent(HideTimes(l, n))
  {
    if n > 0 {
      HideTimesConsistent(l, n - 1);
      OperationsKeepConsistency(HideTimes(l, n - 1), None, "");
    }
  }

  /** Without an overlay nothing becomes visible or hidden, whatever is called. */
  lemma {:induction false} NoOverlayNeverChangesVisibility(l: LoadingManager, n: nat, k: nat)
    requires !l.hasOverlay
    ensures HideTimes(ShowTimes(l, n), k).isVisible == l.isVisible
    ensures ForceHide(l).isVisible == l.isVisible
  {
    NoOverlayShows(l, n);
    NoOverlayHides(ShowTimes(l, n), k);
  }

  lemma {:induction false} NoOverlayShows(l: LoadingManager, n: nat)
    requires !l.hasOverlay
    ensures ShowTimes(l, n).isVisible == l.isVisible
  {
    if n > 0 {
      NoOverlayShows(l, n - 1);
    }
  }

  lemma {:induction false} NoOverlayHides(l: LoadingManager, k: nat)
    requires !l.hasOverlay
    ensures HideTimes(l, k).isVisible == l.isVisible
  {
    if k > 0 {
      NoOverlayHides(l, k - 1);
    }
  }
}
