/** SSLazyList, the list host: which of list, "no data", "loading" or nothing
    it shows; how it splits the rows into first, middle and last; when it
    mounts the refresh and load-more trackers and with which margin; how it
    re-arms load-more when a refresh starts; and how it assembles the
    load-more indicator's frame from measurements. */
module LazyList {
  import opened Geometry
  import opened Optional
  import VT = ViewTypes
  import CA = CellAnimator
  import Config
  import PageLoader

  // ---------------------------------------------------------------- view state

  datatype ListState = ShowList | DataNotFound | Loading | Empty

  /** `loadListWrapper`'s choice. */
  function WrapperState<T>(data: Option<seq<T>>, dataNotFoundView: VT.SSViewType, loadingView: VT.SSViewType): (r: ListState)
    ensures r == ShowList <==> data.Some? && |data.value| > 0
    ensures r == DataNotFound <==> data == Some([]) && (dataNotFoundView.System? || dataNotFoundView.CustomView?)
    ensures r == Loading <==> !(data.Some? && |data.value| > 0)
                              && !(data == Some([]) && !dataNotFoundView.None?)
                              && !loadingView.None?
    ensures data.Nothing? ==> r != DataNotFound
  {
    VT.NotNoneMeansShown(dataNotFoundView);
    VT.NotNoneMeansShown(loadingView);
    if data.Some? && |data.value| > 0 then ShowList
    else if data.Some? && |data.value| == 0 && !VT.Same(dataNotFoundView, VT.None) then DataNotFound
    else if !VT.Same(loadingView, VT.None) then Loading
    else Empty
  }

  /** What a placeholder switch renders. */
  datatype Placeholder = NoDataMessage | ProgressMessage | Custom(view: VT.ViewId) | EmptyView

  /** `getDataNotFoundView`. */
  function DataNotFoundView(t: VT.SSViewType): Placeholder
  {
    match t
    case System => NoDataMessage
    case CustomView(v) => Custom(v)
    case None => EmptyView
  }

  /** `getDefaultProgressView`. */
  function DefaultProgressView(t: VT.SSViewType): Placeholder
  {
    match t
    case System => ProgressMessage
    case CustomView(v) => Custom(v)
    case None => EmptyView
  }

  /** The switches render the system view for `.system`, the application's
      own view for `.customView`, and an empty view exactly for `.none`; so the
      state chosen by `WrapperState` never shows an empty placeholder. */
  lemma PlaceholderMapping(t: VT.SSViewType)
    ensures t.System? ==> DataNotFoundView(t) == NoDataMessage && DefaultProgressView(t) == ProgressMessage
    ensures t.CustomView? ==> DataNotFoundView(t) == Custom(t.view) && DefaultProgressView(t) == Custom(t.view)
    ensures DataNotFoundView(t) == EmptyView <==> VT.Same(t, VT.None)
    ensures DefaultProgressView(t) == EmptyView <==> VT.Same(t, VT.None)
  {
    VT.NotNoneMeansShown(t);
  }

  lemma ChosenPlaceholderIsShown<T>(data: Option<seq<T>>, dataNotFoundView: VT.SSViewType, loadingView: VT.SSViewType)
    ensures WrapperState(data, dataNotFoundView, loadingView) == DataNotFound ==> DataNotFoundView(dataNotFoundView) != EmptyView
    ensures WrapperState(data, dataNotFoundView, loadingView) == Loading ==> DefaultProgressView(loadingView) != EmptyView
  {
    PlaceholderMapping(dataNotFoundView);
    PlaceholderMapping(loadingView);
  }

  // ---------------------------------------------------------------- rows

  /** One rendered row: its item, whether it reports the refresh sentinel,
      whether it carries the last-row modifier, and how many cell animators
      wrap it. */
  datatype Row<T> = Row(item: T, observesRefresh: bool, lastRowModifier: bool, animators: nat)

  /** The flags the row split reads. */
  datatype RowFlags = RowFlags(hasPullToRefresh: bool, animation: CA.SSCellAnimationType, isRefreshing: bool, isPageLoading: bool)

  predicate Idle(f: RowFlags)
  {
    !f.isRefreshing && !f.isPageLoading
  }

  /** The cell animator is applied while the animation is not `.none` and no
      refresh or page load is running. */
  predicate Animated(f: RowFlags)
  {
    !CA.Same(f.animation, CA.None) && Idle(f)
  }

  /** `ForEach` over all items, keeping those whose id is neither the first's nor the last's. */
  function MiddleRows<T, K(==)>(data: seq<T>, id: T -> K, firstId: K, lastId: K, f: RowFlags): seq<Row<T>>
    decreases |data|
  {
    if data == [] then []
    else
      var rest := MiddleRows(data[1..], id, firstId, lastId, f);
      if firstId != id(data[0]) && lastId != id(data[0])
      then [Row(data[0], false, false, if Animated(f) then 1 else 0)] + rest
      else rest
  }

  /** The rows exactly as the list body writes them: the last row is wrapped
      in the cell animator twice. */
  function RowsAsWritten<T, K(==)>(data: seq<T>, id: T -> K, f: RowFlags): seq<Row<T>>
    requires |data| > 0
  {
    var firstId := id(data[0]);
    var lastId := id(data[|data| - 1]);
    [Row(data[0], f.hasPullToRefresh && Idle(f), firstId == lastId, if Animated(f) then 1 else 0)]
    + MiddleRows(data, id, firstId, lastId, f)
    + (if firstId != lastId then [Row(data[|data| - 1], false, true, if Animated(f) then 2 else 0)] else [])
  }

  /** The rows with one animator per row, as every other row has. */
  function Rows<T, K(==)>(data: seq<T>, id: T -> K, f: RowFlags): seq<Row<T>>
    requires |data| > 0
  {
    var firstId := id(data[0]);
    var lastId := id(data[|data| - 1]);
    [Row(data[0], f.hasPullToRefresh && Idle(f), firstId == lastId, if Animated(f) then 1 else 0)]
    + MiddleRows(data, id, firstId, lastId, f)
    + (if firstId != lastId then [Row(data[|data| - 1], false, true, if Animated(f) then 1 else 0)] else [])
  }

  function Items<T>(rows: seq<Row<T>>): (items: seq<T>)
    ensures |items| == |rows| && forall i :: 0 <= i < |rows| ==> items[i] == rows[i].item
  {
    seq(|rows|, i requires 0 <= i < |rows| => rows[i].item)
  }

  predicate DistinctIds<T, K(==)>(data: seq<T>, id: T -> K)
  {
    forall i, j :: 0 <= i < j < |data| ==> id(data[i]) != id(data[j])
  }

  lemma {:induction false} MiddleRowsAppend<T, K>(a: seq<T>, b: seq<T>, id: T -> K, firstId: K, lastId: K, f: RowFlags)
    ensures MiddleRows(a + b, id, firstId, lastId, f) == MiddleRows(a, id, firstId, lastId, f) + MiddleRows(b, id, firstId, lastId, f)
    decreases |a|
  {
    if a == [] {
      assert a + b == b;
    } else {
      assert (a + b)[1..] == a[1..] + b;
      MiddleRowsAppend(a[1..], b, id, firstId, lastId, f);
    }
  }

  /** Items whose id is neither excluded id are all kept, in order. */
  lemma {:induction false} MiddleRowsKeepAll<T, K>(data: seq<T>, id: T -> K, firstId: K, lastId: K, f: RowFlags)
    requires forall i :: 0 <= i < |data| ==> id(data[i]) != firstId && id(data[i]) != lastId
    ensures Items(MiddleRows(data, id, firstId, lastId, f)) == data
    ensures forall r :: r in MiddleRows(data, id, firstId, lastId, f) ==> !r.lastRowModifier && !r.observesRefresh
    decreases |data|
  {
    if data != [] {
      MiddleRowsKeepAll(data[1..], id, firstId, lastId, f);
      var rest := MiddleRows(data[1..], id, firstId, lastId, f);
      assert MiddleRows(data, id, firstId, lastId, f) == [Row(data[0], false, false, if Animated(f) then 1 else 0)] + rest;
      assert Items([Row(data[0], false, false, if Animated(f) then 1 else 0)] + rest) == [data[0]] + Items(rest);
      assert data == [data[0]] + data[1..];
    }
  }

  /** An item carrying an excluded id gives no middle row. */
  lemma MiddleRowsSkip<T, K>(x: T, id: T -> K, firstId: K, lastId: K, f: RowFlags)
    requires id(x) == firstId || id(x) == lastId
    ensures MiddleRows([x], id, firstId, lastId, f) == []
  {
    assert [x][1..] == [];
  }

  /** With distinct ids, the middle rows are exactly the items strictly
      between the first and the last. */
  lemma MiddleOfDistinct<T, K>(data: seq<T>, id: T -> K, f: RowFlags)
    requires |data| >= 2 && DistinctIds(data, id)
    ensures var m := MiddleRows(data, id, id(data[0]), id(data[|data| - 1]), f);
      Items(m) == data[1..|data| - 1] && forall r :: r in m ==> !r.lastRowModifier && !r.observesRefresh
  {
    var n := |data|;
    var firstId := id(data[0]);
    var lastId := id(data[n - 1]);
    var mid := data[1..n - 1];
    assert data == [data[0]] + mid + [data[n - 1]];
    forall i | 0 <= i < |mid| ensures id(mid[i]) != firstId && id(mid[i]) != lastId {
      assert mid[i] == data[i + 1];
    }
    MiddleRowsAppend([data[0]] + mid, [data[n - 1]], id, firstId, lastId, f);
    MiddleRowsAppend([data[0]], mid, id, firstId, lastId, f);
    MiddleRowsSkip(data[0], id, firstId, lastId, f);
    MiddleRowsSkip(data[n - 1], id, firstId, lastId, f);
    MiddleRowsKeepAll(mid, id, firstId, lastId, f);
  }

  /** With pairwise distinct ids the rows reproduce the data, in order; only
      the first row reports the refresh sentinel and only the last carries the
      last-row modifier (a single item is both). */
  lemma RowsReproduceData<T, K>(data: seq<T>, id: T -> K, f: RowFlags)
    requires |data| > 0 && DistinctIds(data, id)
    ensures Items(Rows(data, id, f)) == data
    ensures forall i :: 0 <= i < |data| ==> (Rows(data, id, f)[i].lastRowModifier <==> i == |data| - 1)
    ensures forall i :: 0 < i < |data| ==> !Rows(data, id, f)[i].observesRefresh
    ensures Rows(data, id, f)[0].observesRefresh <==> f.hasPullToRefresh && Idle(f)
  {
    var n := |data|;
    var firstId := id(data[0]);
    var lastId := id(data[n - 1]);
    var anim := if Animated(f) then 1 else 0;
    var head := [Row(data[0], f.hasPullToRefresh && Idle(f), firstId == lastId, anim)];
    if n == 1 {
      MiddleRowsSkip(data[0], id, firstId, lastId, f);
      assert data == [data[0]];
      assert Rows(data, id, f) == head;
    } else {
      MiddleOfDistinct(data, id, f);
      var middle := MiddleRows(data, id, firstId, lastId, f);
      var last := [Row(data[n - 1], false, true, anim)];
      var rows := head + middle + last;
      assert firstId != lastId;
      assert Rows(data, id, f) == rows;
      assert |middle| == n - 2;
      forall i | 0 <= i < n
        ensures rows[i].item == data[i]
        ensures rows[i].lastRowModifier <==> i == n - 1
        ensures 0 < i ==> !rows[i].observesRefresh
      {
        if i == 0 {
          assert rows[i] == head[0];
        } else if i == n - 1 {
          assert rows[i] == last[0];
        } else {
          assert rows[i] == middle[i - 1];
          assert middle[i - 1] in middle;
          assert Items(middle)[i - 1] == data[1..n - 1][i - 1];
        }
      }
    }
  }

  /** The rows as written differ from the corrected rows only in the last
      row's animator count, which is doubled; every item, observer and
      last-row modifier is the same. */
  lemma AsWrittenDiffersOnlyInLastAnimator<T, K>(data: seq<T>, id: T -> K, f: RowFlags)
    requires |data| > 0
    ensures |RowsAsWritten(data, id, f)| == |Rows(data, id, f)|
    ensures var n := |Rows(data, id, f)|;
      forall i :: 0 <= i < n ==>
        RowsAsWritten(data, id, f)[i]
        == (if i == n - 1 && id(data[0]) != id(data[|data| - 1])
            then Rows(data, id, f)[i].(animators := 2 * Rows(data, id, f)[i].animators)
            else Rows(data, id, f)[i])
  {
  }

  /** What the list renders reproduces the data in order, with the same
      observers and last-row modifier as the corrected rows. */
  lemma RowsAsWrittenReproduceData<T, K>(data: seq<T>, id: T -> K, f: RowFlags)
    requires |data| > 0 && DistinctIds(data, id)
    ensures Items(RowsAsWritten(data, id, f)) == data
    ensures forall i :: 0 <= i < |data| ==> (RowsAsWritten(data, id, f)[i].lastRowModifier <==> i == |data| - 1)
    ensures forall i :: 0 < i < |data| ==> !RowsAsWritten(data, id, f)[i].observesRefresh
    ensures RowsAsWritten(data, id, f)[0].observesRefresh <==> f.hasPullToRefresh && Idle(f)
  {
    RowsReproduceData(data, id, f);
    AsWrittenDiffersOnlyInLastAnimator(data, id, f);
    var w := RowsAsWritten(data, id, f);
    var r := Rows(data, id, f);
    assert |w| == |data|;
    forall i | 0 <= i < |data| ensures w[i].item == r[i].item && w[i].lastRowModifier == r[i].lastRowModifier
      && w[i].observesRefresh == r[i].observesRefresh
    {
    }
    assert Items(w) == Items(r);
  }

  /** The corrected rows wrap every row in the same number of animators: one
      when animation applies, none otherwise. */
  lemma {:induction false} RowsAnimateUniformly<T, K>(data: seq<T>, id: T -> K, f: RowFlags)
    requires |data| > 0
    ensures forall r :: r in Rows(data, id, f) ==> r.animators == (if Animated(f) then 1 else 0)
  {
    MiddleRowsAnimators(data, id, id(data[0]), id(data[|data| - 1]), f);
  }

  lemma {:induction false} MiddleRowsAnimators<T, K>(data: seq<T>, id: T -> K, firstId: K, lastId: K, f: RowFlags)
    ensures forall r :: r in MiddleRows(data, id, firstId, lastId, f) ==> r.animators == (if Animated(f) then 1 else 0)
    decreases |data|
  {
    if data != [] {
      MiddleRowsAnimators(data[1..], id, firstId, lastId, f);
    }
  }

  /** As written, a list of two items with an animation gets two animators on
      its last row and one on its first, so the last row's slide-in offsets add up. */
  lemma LastRowAnimatedTwice(a: int, b: int)
    requires a != b
    ensures var f := RowFlags(false, CA.Auto(0, CA.Once), false, false);
      var rows := RowsAsWritten([a, b], (x: int) => x, f);
      |rows| == 2 && rows[0].animators == 1 && rows[1].animators == 2
  {
    var f := RowFlags(false, CA.Auto(0, CA.Once), false, false);
    CA.SameIffSameCase(CA.Auto(0, CA.Once), CA.None);
    MiddleRowsSkip(a, (x: int) => x, a, b, f);
    MiddleRowsAppend([a], [b], (x: int) => x, a, b, f);
    MiddleRowsSkip(b, (x: int) => x, a, b, f);
    assert [a, b] == [a] + [b];
  }

  // ---------------------------------------------------------------- trackers

  /** `notifyVariableHeight` handed to the page loader. */
  function NotifyVariableHeight(kind: Config.LoadMoreTypes, pagerViewRect: Rect): real
  {
    match kind
    case OnPullUp => -18.0
    case OnLastRow => -Height(pagerViewRect) + 18.0
  }

  /** The page loader's `displayRect` is the pager rect itself, so its
      threshold is the indicator's height less 18 when pulling up, and exactly
      18 whatever the height for the last row. */
  lemma LoadMoreThreshold(kind: Config.LoadMoreTypes, pagerViewRect: Rect, pull: Rect)
    ensures kind == Config.OnPullUp ==> PageLoader.NotifyAtHeight(pagerViewRect, NotifyVariableHeight(kind, pagerViewRect)) == Height(pagerViewRect) - 18.0
    ensures kind == Config.OnLastRow ==> PageLoader.NotifyAtHeight(pagerViewRect, NotifyVariableHeight(kind, pagerViewRect)) == 18.0
    ensures kind == Config.OnLastRow ==>
      (PageLoader.PastThreshold(pull, pagerViewRect, NotifyVariableHeight(kind, pagerViewRect)) <==> MinY(pull) + 18.0 < MinY(pagerViewRect))
  {
  }

  /** The host state the mounting decisions read. */
  datatype HostFlags = HostFlags(
    isActivePullToRefresh: bool, isRefreshing: bool, refreshRect: Rect,
    isActiveLoadMore: bool, isPageLoading: bool, pagerViewRect: Rect)

  /** The list body with its rows is shown: the trackers exist only there. */
  predicate HasRows<T>(data: Option<seq<T>>)
  {
    data.Some? && |data.value| > 0
  }

  /** The refresh tracker is mounted inside the list body while nothing is
      loading, pull-to-refresh is active and configured, and its indicator has
      been measured. */
  function RefresherMounted<T>(data: Option<seq<T>>, h: HostFlags, c: Config.Settings): (r: bool)
    ensures r ==> WrapperState(data, c.dataNotFoundView, c.loadingView) == ShowList
    ensures r ==> !h.isRefreshing && !h.isPageLoading
    ensures r ==> h.isActivePullToRefresh && c.pullToRefreshType.Some? && h.refreshRect != Zero
  {
    HasRows(data) && !h.isRefreshing && !h.isPageLoading
    && h.isActivePullToRefresh && c.pullToRefreshType != Nothing && h.refreshRect != Zero
  }

  /** The load-more tracker is mounted inside the list body while nothing is
      loading, load-more is active, its indicator has been measured and a
      load-more type is set. */
  function LoaderMounted<T>(data: Option<seq<T>>, h: HostFlags, c: Config.Settings): (r: bool)
    ensures r ==> WrapperState(data, c.dataNotFoundView, c.loadingView) == ShowList
    ensures r ==> !h.isRefreshing && !h.isPageLoading
    ensures r ==> h.isActiveLoadMore && h.pagerViewRect != Zero && c.pageLoadingType.Some?
  {
    HasRows(data) && !h.isRefreshing && !h.isPageLoading && h.isActiveLoadMore && h.pagerViewRect != Zero
    && c.pageLoadingType.Some?
    && (c.pageLoadingType.value.kind == Config.OnPullUp || c.pageLoadingType.value.kind == Config.OnLastRow)
  }

  /** A placeholder or nothing is shown exactly when no tracker can be
      mounted: with no rows neither tracker exists, whatever the flags. */
  lemma NoTrackerWithoutRows<T>(data: Option<seq<T>>, h: HostFlags, c: Config.Settings)
    ensures WrapperState(data, c.dataNotFoundView, c.loadingView) != ShowList ==>
      !RefresherMounted(data, h, c) && !LoaderMounted(data, h, c)
    ensures data.Nothing? || data == Some([]) ==> !RefresherMounted(data, h, c) && !LoaderMounted(data, h, c)
  {
  }

  /** A refresh or a page load in progress unmounts both trackers, so neither
      can start the other's work; once the data has rows and nothing loads,
      each is mounted as soon as it is active, configured and measured. */
  lemma TrackersWaitForLoads<T>(data: Option<seq<T>>, h: HostFlags, c: Config.Settings)
    ensures h.isRefreshing || h.isPageLoading ==> !RefresherMounted(data, h, c) && !LoaderMounted(data, h, c)
    ensures (HasRows(data) && !h.isRefreshing && !h.isPageLoading && h.isActivePullToRefresh
             && c.pullToRefreshType.Some? && h.refreshRect != Zero) ==> RefresherMounted(data, h, c)
    ensures (HasRows(data) && !h.isRefreshing && !h.isPageLoading && h.isActiveLoadMore
             && h.pagerViewRect != Zero && c.pageLoadingType.Some?) ==> LoaderMounted(data, h, c)
  {
  }

  /** Whether a re-measure of the indicator is mounted: for `onPullUp` beside
      the list, for `onLastRow` on the last row while nothing is loading. */
  predicate PageLoaderRectMeasured(h: HostFlags, c: Config.Settings)
  {
    h.pagerViewRect == Zero && c.pageLoadingType.Some? && c.pageLoadingType.value.kind == Config.OnPullUp
  }

  predicate LastRowRectMeasured(h: HostFlags, c: Config.Settings)
  {
    h.pagerViewRect == Zero && !h.isRefreshing && !h.isPageLoading
    && c.pageLoadingType.Some? && c.pageLoadingType.value.kind == Config.OnLastRow
  }

  /** One measurement of a view with a height ends the measuring: the merged
      frame is no longer zero, so neither re-measure stays mounted, and the
      loader, which needs a non-zero frame, can now be mounted. */
  lemma MeasuringStopsOnceMeasured<T>(data: Option<seq<T>>, h: HostFlags, c: Config.Settings, listMinX: real, originY: real, measured: Rect)
    requires Height(measured) != 0.0
    ensures PageLoaderRectMeasured(h, c) || LastRowRectMeasured(h, c) ==> !LoaderMounted(data, h, c)
    ensures var merged := MergePagerRect(h.pagerViewRect, listMinX, originY, measured);
      merged != Zero
      && !PageLoaderRectMeasured(h.(pagerViewRect := merged), c)
      && !LastRowRectMeasured(h.(pagerViewRect := merged), c)
  {
  }

  // ---------------------------------------------------------------- pager rect

  /** The field-by-field merge of a measurement into the pager rect: the
      origin is filled in only where it is still zero, the size is replaced
      only by non-zero measured values. */
  function MergePagerRect(current: Rect, listMinX: real, originY: real, measured: Rect): (r: Rect)
    ensures MinX(current) != 0.0 ==> r.x == current.x
    ensures MinY(current) != 0.0 ==> r.y == current.y
    ensures MinX(current) == 0.0 ==> r.x == listMinX
    ensures MinY(current) == 0.0 ==> r.y == originY
    ensures r.w == (if Width(measured) != 0.0 then Width(measured) else current.w)
    ensures r.h == (if Height(measured) != 0.0 then Height(measured) else current.h)
  {
    var x := if MinX(current) == 0.0 then listMinX else current.x;
    var y := if MinY(current) == 0.0 then originY else current.y;
    var w := if Width(measured) != 0.0 then Width(measured) else current.w;
    var h := if Height(measured) != 0.0 then Height(measured) else current.h;
    Rect(x, y, w, h)
  }

  /** Measured from zero, the pager rect is the list's left edge, the given
      origin and the measured size. */
  lemma MergeFromZero(listMinX: real, originY: real, measured: Rect)
    ensures MergePagerRect(Zero, listMinX, originY, measured) == Rect(listMinX, originY, Width(measured), Height(measured))
  {
  }

  /** The merge keeps a rect standardized, and merging the same measurement
      again changes nothing. */
  lemma MergeIdempotent(current: Rect, listMinX: real, originY: real, measured: Rect)
    requires Standardized(current)
    ensures Standardized(MergePagerRect(current, listMinX, originY, measured))
    ensures var once := MergePagerRect(current, listMinX, originY, measured);
      MergePagerRect(once, listMinX, originY, measured) == once
  {
  }

  /** The host's own state. */
  class SSLazyList {
    var isActivePullToRefresh: bool
    var isRefreshing: bool
    var refreshRect: Rect
    var isActiveLoadMore: bool
    var isPageLoading: bool
    var pagerViewRect: Rect
    const configuration: Config.SSConfigLazyList

    function Flags(): HostFlags
      reads this
    {
      HostFlags(isActivePullToRefresh, isRefreshing, refreshRect, isActiveLoadMore, isPageLoading, pagerViewRect)
    }

    constructor (configuration: Config.SSConfigLazyList)
      ensures this.configuration == configuration
      ensures Flags() == HostFlags(true, false, Zero, true, false, Zero)
    {
      this.configuration := configuration;
      isActivePullToRefresh := true;
      isRefreshing := false;
      refreshRect := Zero;
      isActiveLoadMore := true;
      isPageLoading := false;
      pagerViewRect := Zero;
    }

    /** The `onRefresh` closure given to the refresher: it stores the
        completion, and re-arms load-more if a page-loading type is set. */
    method OnRefresh()
      modifies this, configuration
      ensures configuration.Snapshot() == old(configuration.Snapshot()).(dataLoadingClosure := Some(Config.RefreshCompletion))
      ensures isActiveLoadMore == (old(isActiveLoadMore) || configuration.pageLoadingType.Some?)
      ensures Flags() == old(Flags()).(isActiveLoadMore := isActiveLoadMore)
    {
      configuration.StoreCompletion(Config.RefreshCompletion);
      if configuration.pageLoadingType != Nothing && isActiveLoadMore != true {
        isActiveLoadMore := true;
      }
    }

    /** The `onPageLoad` closure given to the page loader: it stores the completion. */
    method OnPageLoad()
      modifies configuration
      ensures configuration.Snapshot() == old(configuration.Snapshot()).(dataLoadingClosure := Some(Config.PageLoadCompletion))
    {
      configuration.StoreCompletion(Config.PageLoadCompletion);
    }

    /** The deferred block of `setUpRefreshRect`. */
    method SetUpRefreshRect(frame: Rect)
      modifies this
      ensures Flags() == old(Flags()).(refreshRect := frame)
    {
      refreshRect := frame;
    }

    /** The deferred block of `setUpPageLoaderRect`: the indicator goes below the list. */
    method SetUpPageLoaderRect(rectList: Rect, viewFrame: Rect)
      modifies this
      ensures pagerViewRect == MergePagerRect(old(pagerViewRect), MinX(rectList), Height(rectList), viewFrame)
      ensures Flags() == old(Flags()).(pagerViewRect := pagerViewRect)
    {
      var newRect := pagerViewRect;
      if MinX(newRect) == 0.0 {
        newRect := newRect.(x := MinX(rectList));
      }
      if MinY(newRect) == 0.0 {
        newRect := newRect.(y := Height(rectList));
      }
      if Width(viewFrame) != 0.0 {
        newRect := newRect.(w := Width(viewFrame));
      }
      if Height(viewFrame) != 0.0 {
        newRect := newRect.(h := Height(viewFrame));
      }
      pagerViewRect := newRect;
    }

    /** The deferred block of `setUpLastRowLoaderRect`: the indicator goes
        below the list by the last row's height. */
    method SetUpLastRowLoaderRect(rectList: Rect, rowRect: Rect)
      modifies this
      ensures pagerViewRect == MergePagerRect(old(pagerViewRect), MinX(rectList), Height(rectList) + Height(rowRect), rowRect)
      ensures Flags() == old(Flags()).(pagerViewRect := pagerViewRect)
    {
      var viewFrame := rowRect;
      var newRect := pagerViewRect;
      if MinX(newRect) == 0.0 {
        newRect := newRect.(x := MinX(rectList));
      }
      if MinY(newRect) == 0.0 {
        newRect := newRect.(y := Height(rectList) + Height(viewFrame));
      }
      if Width(viewFrame) != 0.0 {
        newRect := newRect.(w := Width(viewFrame));
      }
      if Height(viewFrame) != 0.0 {
        newRect := newRect.(h := Height(viewFrame));
      }
      pagerViewRect := newRect;
    }
  }
}
