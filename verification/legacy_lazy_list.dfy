/** The earlier SSLazyList: a plain list of rows, each wrapped in the cell
    animator when one is configured, or a placeholder when there are no rows. */
module LegacyLazyList {
  import opened Optional
  import VT = ViewTypes
  import CA = CellAnimator
  import LegacyConfig
  import LazyList

  datatype LegacyRow<T> = LegacyRow(item: T, animated: bool)

  datatype LegacyView<T> = ListView(rows: seq<LegacyRow<T>>) | PlaceholderView(shown: LazyList.Placeholder) | NoView

  /** `loadListWrapper` of the earlier list. */
  function LoadListWrapper<T>(data: Option<seq<T>>, c: LegacyConfig.LegacySettings): (v: LegacyView<T>)
    ensures v.ListView? <==> data.Some? && |data.value| > 0
    ensures v.ListView? ==>
      |v.rows| == |data.value|
      && forall i :: 0 <= i < |v.rows| ==> v.rows[i].item == data.value[i] && (v.rows[i].animated <==> !c.newCellAnimation.None?)
    ensures data == Some([]) && !c.dataNotFoundView.None? ==> v == PlaceholderView(LazyList.DataNotFoundView(c.dataNotFoundView))
    ensures data.Nothing? || (data == Some([]) && c.dataNotFoundView.None?) ==>
      v == (if c.loadingView.None? then NoView else PlaceholderView(LazyList.DefaultProgressView(c.loadingView)))
    ensures v.PlaceholderView? ==> v.shown != LazyList.EmptyView
  {
    VT.NotNoneMeansShown(c.dataNotFoundView);
    VT.NotNoneMeansShown(c.loadingView);
    LazyList.PlaceholderMapping(c.dataNotFoundView);
    LazyList.PlaceholderMapping(c.loadingView);
    CA.SameIffSameCase(c.newCellAnimation, CA.None);
    if data.Some? && |data.value| > 0 then
      var animate := !CA.Same(c.newCellAnimation, CA.None);
      ListView(seq(|data.value|, i requires 0 <= i < |data.value| => LegacyRow(data.value[i], animate)))
    else if data.Some? && |data.value| == 0 && !VT.Same(c.dataNotFoundView, VT.None) then
      PlaceholderView(LazyList.DataNotFoundView(c.dataNotFoundView))
    else if !VT.Same(c.loadingView, VT.None) then
      PlaceholderView(LazyList.DefaultProgressView(c.loadingView))
    else NoView
  }

  /** Both versions of the list choose between list, "no data", "loading" and
      nothing in the same way. */
  lemma SameChoiceAsCurrentList<T>(data: Option<seq<T>>, c: LegacyConfig.LegacySettings)
    ensures var v := LoadListWrapper(data, c);
      var s := LazyList.WrapperState(data, c.dataNotFoundView, c.loadingView);
      (v.ListView? <==> s == LazyList.ShowList)
      && (v == PlaceholderView(LazyList.DataNotFoundView(c.dataNotFoundView)) && !v.shown.ProgressMessage? <== s == LazyList.DataNotFound)
      && (v == PlaceholderView(LazyList.DefaultProgressView(c.loadingView)) <== s == LazyList.Loading)
      && (v.NoView? <==> s == LazyList.Empty)
  {
  }
}
