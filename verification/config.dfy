/** SSConfigLazyList: the settings object an application hands to the list.
    Every field has a default, each convenience initializer sets one field,
    each setter replaces one field, and `onResponseAllowLoading` forwards a
    decision to the completion handle the list last stored. */
module Config {
  import opened Optional
  import VT = ViewTypes
  import CA = CellAnimator

  /** How the load-more trigger is armed: by pulling past the bottom, or by
      the last row coming into view. */
  datatype LoadMoreTypes = OnPullUp | OnLastRow

  /** The application's views and trigger callback; only their identity matters. */
  type HandlesId = nat

  datatype SSPullToRefresh = SSPullToRefresh(handles: HandlesId)
  datatype SSLoadMore = SSLoadMore(kind: LoadMoreTypes, handles: HandlesId)

  /** The completion handles the list stores in `dataLoadingClosure`: the
      refresher's `stopObserving` or the page loader's `stopRefreshing`. */
  datatype Completion = RefreshCompletion | PageLoadCompletion

  /** A call of a completion handle with its `continue` argument. */
  datatype CompletionCall = CompletionCall(target: Completion, allowMore: bool)

  /** All fields of the configuration at one moment. */
  datatype Settings = Settings(
    newCellAnimation: CA.SSCellAnimationType,
    pullToRefreshType: Option<SSPullToRefresh>,
    pageLoadingType: Option<SSLoadMore>,
    loadingView: VT.SSViewType,
    dataNotFoundView: VT.SSViewType,
    dataLoadingClosure: Option<Completion>)

  const Defaults: Settings := Settings(CA.None, Nothing, Nothing, VT.None, VT.None, Nothing)

  /** The defaults switch every feature off. */
  lemma DefaultsAreOff()
    ensures CA.Same(Defaults.newCellAnimation, CA.None)
    ensures Defaults.pullToRefreshType.Nothing? && Defaults.pageLoadingType.Nothing?
    ensures VT.Same(Defaults.loadingView, VT.None) && VT.Same(Defaults.dataNotFoundView, VT.None)
    ensures Defaults.dataLoadingClosure.Nothing?
  {
  }

  /** What `onResponseAllowLoading(allow)` does with a stored handle: it calls
      it with `allow`, and does nothing when none is stored. */
  function ResponseCall(closure: Option<Completion>, allow: bool): (call: Option<CompletionCall>)
    ensures call.Nothing? <==> closure.Nothing?
    ensures call.Some? ==> call.value.target == closure.value && call.value.allowMore == allow
  {
    match closure
    case Nothing => Nothing
    case Some(c) => Some(CompletionCall(c, allow))
  }

  class SSConfigLazyList {
    var newCellAnimation: CA.SSCellAnimationType
    var pullToRefreshType: Option<SSPullToRefresh>
    var pageLoadingType: Option<SSLoadMore>
    var loadingView: VT.SSViewType
    var dataNotFoundView: VT.SSViewType
    var dataLoadingClosure: Option<Completion>

    function Snapshot(): Settings
      reads this
    {
      Settings(newCellAnimation, pullToRefreshType, pageLoadingType, loadingView, dataNotFoundView, dataLoadingClosure)
    }

    constructor ()
      ensures Snapshot() == Defaults
    {
      newCellAnimation := CA.None;
      pullToRefreshType := Nothing;
      pageLoadingType := Nothing;
      loadingView := VT.None;
      dataNotFoundView := VT.None;
      dataLoadingClosure := Nothing;
    }

    constructor WithAnimator(animator: CA.SSCellAnimationType)
      ensures Snapshot() == Defaults.(newCellAnimation := animator)
    {
      newCellAnimation := animator;
      pullToRefreshType := Nothing;
      pageLoadingType := Nothing;
      loadingView := VT.None;
      dataNotFoundView := VT.None;
      dataLoadingClosure := Nothing;
    }

    constructor WithLoadingView(loadingView: VT.SSViewType)
      ensures Snapshot() == Defaults.(loadingView := loadingView)
    {
      newCellAnimation := CA.None;
      pullToRefreshType := Nothing;
      pageLoadingType := Nothing;
      this.loadingView := loadingView;
      dataNotFoundView := VT.None;
      dataLoadingClosure := Nothing;
    }

    constructor WithDataNotFound(dataNotFoundType: VT.SSViewType)
      ensures Snapshot() == Defaults.(dataNotFoundView := dataNotFoundType)
    {
      newCellAnimation := CA.None;
      pullToRefreshType := Nothing;
      pageLoadingType := Nothing;
      loadingView := VT.None;
      dataNotFoundView := dataNotFoundType;
      dataLoadingClosure := Nothing;
    }

    constructor WithPullToRefresh(pullToRefresh: SSPullToRefresh)
      ensures Snapshot() == Defaults.(pullToRefreshType := Some(pullToRefresh))
    {
      newCellAnimation := CA.None;
      pullToRefreshType := Some(pullToRefresh);
      pageLoadingType := Nothing;
      loadingView := VT.None;
      dataNotFoundView := VT.None;
      dataLoadingClosure := Nothing;
    }

    constructor WithPageLoading(pageLoadingType: SSLoadMore)
      ensures Snapshot() == Defaults.(pageLoadingType := Some(pageLoadingType))
    {
      newCellAnimation := CA.None;
      pullToRefreshType := Nothing;
      this.pageLoadingType := Some(pageLoadingType);
      loadingView := VT.None;
      dataNotFoundView := VT.None;
      dataLoadingClosure := Nothing;
    }

    method SetNewCellAnimation(animator: CA.SSCellAnimationType)
      modifies this
      ensures Snapshot() == old(Snapshot()).(newCellAnimation := animator)
    {
      newCellAnimation := animator;
    }

    method SetLoadingView(viewType: VT.SSViewType)
      modifies this
      ensures Snapshot() == old(Snapshot()).(loadingView := viewType)
    {
      loadingView := viewType;
    }

    method SetNoDataView(viewType: VT.SSViewType)
      modifies this
      ensures Snapshot() == old(Snapshot()).(dataNotFoundView := viewType)
    {
      dataNotFoundView := viewType;
    }

    method SetReloadType(viewType: SSPullToRefresh)
      modifies this
      ensures Snapshot() == old(Snapshot()).(pullToRefreshType := Some(viewType))
    {
      pullToRefreshType := Some(viewType);
    }

    method SetLoadMoreType(viewType: SSLoadMore)
      modifies this
      ensures Snapshot() == old(Snapshot()).(pageLoadingType := Some(viewType))
    {
      pageLoadingType := Some(viewType);
    }

    /** The list stores the completion it has just handed to the application. */
    method StoreCompletion(c: Completion)
      modifies this
      ensures Snapshot() == old(Snapshot()).(dataLoadingClosure := Some(c))
    {
      dataLoadingClosure := Some(c);
    }

    /** Calls the stored completion with `allow`; changes no field. */
    method OnResponseAllowLoading(allow: bool) returns (call: Option<CompletionCall>)
      ensures call.Nothing? <==> dataLoadingClosure.Nothing?
      ensures call.Some? ==> call.value == CompletionCall(dataLoadingClosure.value, allow)
    {
      call := ResponseCall(dataLoadingClosure, allow);
    }
  }

  /** Each setter called twice, interleaved with the others: the last value
      of each field wins, the fields do not interfere, and the stored
      completion handle is untouched. */
  method LastSetWins(c: SSConfigLazyList, x: CA.SSCellAnimationType, y: CA.SSCellAnimationType,
                     a: VT.SSViewType, b: VT.SSViewType, m: VT.SSViewType, n: VT.SSViewType,
                     r1: SSPullToRefresh, r2: SSPullToRefresh, l1: SSLoadMore, l2: SSLoadMore)
    modifies c
    ensures c.Snapshot() == Settings(y, Some(r2), Some(l2), b, n, old(c.dataLoadingClosure))
  {
    c.SetNewCellAnimation(x);
    c.SetLoadingView(a);
    c.SetNoDataView(m);
    c.SetReloadType(r1);
    c.SetLoadMoreType(l1);
    c.SetNewCellAnimation(y);
    c.SetLoadingView(b);
    c.SetNoDataView(n);
    c.SetReloadType(r2);
    c.SetLoadMoreType(l2);
  }
}
