/** The earlier SSConfigLazyList: an observable settings object with three
    fields, a designated initializer per field and a setter per field. */
module LegacyConfig {
  import VT = ViewTypes
  import CA = CellAnimator

  datatype LegacySettings = LegacySettings(
    newCellAnimation: CA.SSCellAnimationType,
    loadingView: VT.SSViewType,
    dataNotFoundView: VT.SSViewType)

  const LegacyDefaults: LegacySettings := LegacySettings(CA.None, VT.None, VT.None)

  class SSConfigLazyList {
    var newCellAnimation: CA.SSCellAnimationType
    var loadingView: VT.SSViewType
    var dataNotFoundView: VT.SSViewType

    function Snapshot(): LegacySettings
      reads this
    {
      LegacySettings(newCellAnimation, loadingView, dataNotFoundView)
    }

    constructor ()
      ensures Snapshot() == LegacyDefaults
    {
      newCellAnimation := CA.None;
      loadingView := VT.None;
      dataNotFoundView := VT.None;
    }

    constructor WithAnimator(animator: CA.SSCellAnimationType)
      ensures Snapshot() == LegacyDefaults.(newCellAnimation := animator)
    {
      newCellAnimation := animator;
      loadingView := VT.None;
      dataNotFoundView := VT.None;
    }

    constructor WithProgressIndicator(progressIndicatorType: VT.SSViewType)
      ensures Snapshot() == LegacyDefaults.(loadingView := progressIndicatorType)
    {
      newCellAnimation := CA.None;
      loadingView := progressIndicatorType;
      dataNotFoundView := VT.None;
    }

    constructor WithDataNotFound(dataNotFoundType: VT.SSViewType)
      ensures Snapshot() == LegacyDefaults.(dataNotFoundView := dataNotFoundType)
    {
      newCellAnimation := CA.None;
      loadingView := VT.None;
      dataNotFoundView := dataNotFoundType;
    }

    method SetNewCellAnimation(animator: CA.SSCellAnimationType)
      modifies this
      ensures Snapshot() == old(Snapshot()).(newCellAnimation := animator)
    {
      newCellAnimation := animator;
    }

    method SetLoadingView(viewType: VT.SSViewType)
      modifies this
      ensures Snapshot() == old(Snapshot()).(loadingView := viewType)
    {
      loadingView := viewType;
    }

    method SetNoDataView(viewType: VT.SSViewType)
      modifies this
      ensures Snapshot() == old(Snapshot()).(dataNotFoundView := viewType)
    {
      dataNotFoundView := viewType;
    }
  }

  /** Each setter called twice, in any interleaving with the others: the last
      value of each field wins and the fields do not interfere. */
  method LastSetWins(c: SSConfigLazyList, x: CA.SSCellAnimationType, y: CA.SSCellAnimationType,
                     a: VT.SSViewType, b: VT.SSViewType, m: VT.SSViewType, n: VT.SSViewType)
    modifies c
    ensures c.Snapshot() == LegacySettings(y, b, n)
  {
    c.SetNewCellAnimation(x);
    c.SetLoadingView(a);
    c.SetNoDataView(m);
    c.SetNewCellAnimation(y);
    c.SetLoadingView(b);
    c.SetNoDataView(n);
  }
}
