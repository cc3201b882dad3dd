/** SSViewType: which placeholder view the list shows for the "loading" and
    "no data" situations, and the description-based equality the list uses to
    compare such values. */
module ViewTypes {

  /** An application-supplied view; only its identity matters to the list. */
  type ViewId = nat

  datatype SSViewType = None | System | CustomView(view: ViewId)

  /** The case name of the value; a custom view's payload is not part of it. */
  function Description(t: SSViewType): (s: string)
    ensures s == "none" || s == "system" || s == "customView"
    ensures t.None? <==> s == "none"
    ensures t.System? <==> s == "system"
    ensures t.CustomView? <==> s == "customView"
  {
    match t
    case None => "none"
    case System => "system"
    case CustomView(_) => "customView"
  }

  /** The type's `==`: two values are equal when their descriptions are. */
  predicate Same(a: SSViewType, b: SSViewType)
  {
    Description(a) == Description(b)
  }

  /** `==` holds exactly between values of the same case, so any two custom
      views are equal whatever they wrap, and different cases never are. */
  lemma SameIffSameCase(a: SSViewType, b: SSViewType)
    ensures Same(a, b) <==> (a.None? && b.None?) || (a.System? && b.System?) || (a.CustomView? && b.CustomView?)
  {
    assert "none" != "system" && "none" != "customView" && "system" != "customView";
  }

  /** Custom views are the only values `==` equates without their being identical. */
  lemma CustomViewsAreSame(a: SSViewType, b: SSViewType)
    ensures a.CustomView? && b.CustomView? ==> Same(a, b)
    ensures Same(a, b) && a != b <==> a.CustomView? && b.CustomView? && a.view != b.view
  {
    SameIffSameCase(a, b);
  }

  /** Because it compares strings, `==` is an equivalence relation. */
  lemma SameIsEquivalence(a: SSViewType, b: SSViewType, c: SSViewType)
    ensures Same(a, a)
    ensures Same(a, b) ==> Same(b, a)
    ensures Same(a, b) && Same(b, c) ==> Same(a, c)
  {
  }

  /** `x != .none` as the list writes it: the value is `.system` or a custom view. */
  lemma NotNoneMeansShown(t: SSViewType)
    ensures !Same(t, None) <==> t.System? || t.CustomView?
  {
    SameIffSameCase(t, None);
  }
}
