/** Cell appearance animation: the animation type a list configures for new
    cells, the offset a cell starts from before it slides in, the scroll
    direction that offset depends on, and the visibility flag whose reset on
    disappearance depends on the type's `Times`. */
module CellAnimator {

  /** Whether the slide-in replays each time the cell re-enters the screen. */
  datatype Times = Always | Once

  /** An animation curve; only its identity matters to the model. */
  type AnimationId = nat

  datatype SSCellAnimationType =
    | None
    | Auto(animation: AnimationId, timing: Times)
    | FromTop(animation: AnimationId, timing: Times)
    | FromBottom(animation: AnimationId, timing: Times)
    | FromRight(animation: AnimationId)
    | FromLeft(animation: AnimationId)

  datatype ScrollDirection = NoDirection | Top | Bottom

  /** The offset (width, height) a cell is displaced by. */
  datatype Size = Size(width: real, height: real)

  const ZeroSize: Size := Size(0.0, 0.0)

  /** The distance a cell slides in from; the animator never changes it. */
  const AnimationDistance: real := 700.0

  /** The type's `times` property. */
  function Timing(t: SSCellAnimationType): Times
  {
    match t
    case None => Once
    case Auto(_, value) => value
    case FromTop(_, value) => value
    case FromBottom(_, value) => value
    case FromRight(_) => Once
    case FromLeft(_) => Once
  }

  /** The type's `description`: its case name. */
  function Description(t: SSCellAnimationType): string
  {
    match t
    case None => "none"
    case Auto(_, _) => "auto"
    case FromTop(_, _) => "fromTop"
    case FromBottom(_, _) => "fromBottom"
    case FromRight(_) => "fromRight"
    case FromLeft(_) => "fromLeft"
  }

  /** The type's `==`: descriptions are compared, payloads are not. */
  predicate Same(a: SSCellAnimationType, b: SSCellAnimationType)
  {
    Description(a) == Description(b)
  }

  /** Only the three vertical types carry a `Times`; the others always animate once. */
  lemma TimingFollowsPayload(t: SSCellAnimationType)
    ensures t.Auto? || t.FromTop? || t.FromBottom? ==> Timing(t) == t.timing
    ensures Timing(t) == Always ==> t.Auto? || t.FromTop? || t.FromBottom?
  {
  }

  /** `==` holds exactly between values of the same case, whatever animation
      curve and `Times` they carry. */
  lemma SameIffSameCase(a: SSCellAnimationType, b: SSCellAnimationType)
    ensures Same(a, b) <==>
      (a.None? && b.None?) || (a.Auto? && b.Auto?) || (a.FromTop? && b.FromTop?) ||
      (a.FromBottom? && b.FromBottom?) || (a.FromRight? && b.FromRight?) || (a.FromLeft? && b.FromLeft?)
  {
    var names := ["none", "auto", "fromTop", "fromBottom", "fromRight", "fromLeft"];
    assert names[0][0] == 'n' && names[1][0] == 'a' && names[4][0] == 'f';
    assert |names[2]| == 7 && |names[3]| == 10 && |names[4]| == 9 && |names[5]| == 8;
  }

  lemma SameIgnoresPayload(a1: AnimationId, a2: AnimationId, t1: Times, t2: Times)
    ensures Same(Auto(a1, t1), Auto(a2, t2)) && Same(FromTop(a1, t1), FromTop(a2, t2))
    ensures Same(FromBottom(a1, t1), FromBottom(a2, t2)) && Same(FromRight(a1), FromRight(a2))
    ensures Same(FromLeft(a1), FromLeft(a2))
  {
  }

  /** The offset a cell is drawn at: nothing once visible, otherwise the
      (type, direction) table of the animator's switch, in its order. */
  function OffsetForAnimation(isVisible: bool, t: SSCellAnimationType, direction: ScrollDirection, d: real): Size
  {
    if isVisible then ZeroSize
    else
      match (t, direction)
      case (FromTop(_, _), NoDirection) => Size(0.0, -1.0 * d)
      case (FromBottom(_, _), NoDirection) => Size(0.0, d)
      case (_, NoDirection) => ZeroSize
      case (None, _) => ZeroSize
      case (Auto(_, _), Bottom) => Size(0.0, d)
      case (FromBottom(_, _), Bottom) => Size(0.0, d)
      case (Auto(_, _), Top) => Size(0.0, -1.0 * d)
      case (FromTop(_, _), Top) => Size(0.0, -1.0 * d)
      case (FromTop(_, _), Bottom) => ZeroSize
      case (FromBottom(_, _), Top) => ZeroSize
      case (FromRight(_), Top) => Size(0.0, 0.0)
      case (FromRight(_), Bottom) => Size(d, 0.0)
      case (FromLeft(_), Top) => Size(0.0, 0.0)
      case (FromLeft(_), Bottom) => Size(-1.0 * d, 0.0)
  }

  lemma VisibleCellHasNoOffset(t: SSCellAnimationType, direction: ScrollDirection, d: real)
    ensures OffsetForAnimation(true, t, direction, d) == ZeroSize
  {
  }

  /** Scrolling toward the bottom: `auto` and `fromBottom` come up from below,
      the side types slide in horizontally, `fromTop` does not move. */
  lemma OffsetScrollingDown(t: SSCellAnimationType, d: real)
    ensures t.Auto? || t.FromBottom? ==> OffsetForAnimation(false, t, Bottom, d) == Size(0.0, d)
    ensures t.FromTop? || t.None? ==> OffsetForAnimation(false, t, Bottom, d) == ZeroSize
    ensures t.FromRight? ==> OffsetForAnimation(false, t, Bottom, d) == Size(d, 0.0)
    ensures t.FromLeft? ==> OffsetForAnimation(false, t, Bottom, d) == Size(-d, 0.0)
  {
  }

  /** Scrolling toward the top: only `auto` and `fromTop` move, coming down from above. */
  lemma OffsetScrollingUp(t: SSCellAnimationType, d: real)
    ensures t.Auto? || t.FromTop? ==> OffsetForAnimation(false, t, Top, d) == Size(0.0, -d)
    ensures !(t.Auto? || t.FromTop?) ==> OffsetForAnimation(false, t, Top, d) == ZeroSize
  {
  }

  /** No known direction: only the two explicitly vertical types move. */
  lemma OffsetWithoutDirection(t: SSCellAnimationType, d: real)
    ensures t.FromTop? ==> OffsetForAnimation(false, t, NoDirection, d) == Size(0.0, -d)
    ensures t.FromBottom? ==> OffsetForAnimation(false, t, NoDirection, d) == Size(0.0, d)
    ensures !(t.FromTop? || t.FromBottom?) ==> OffsetForAnimation(false, t, NoDirection, d) == ZeroSize
  {
  }

  /** Every offset is zero or lies on one axis at the full distance; the side
      types move horizontally and all the others vertically. */
  lemma OffsetIsAxisAligned(v: bool, t: SSCellAnimationType, direction: ScrollDirection, d: real)
    ensures var o := OffsetForAnimation(v, t, direction, d);
      o == ZeroSize || (o.width == 0.0 && (o.height == d || o.height == -d)) || (o.height == 0.0 && (o.width == d || o.width == -d))
    ensures OffsetForAnimation(v, t, direction, d).width != 0.0 ==> t.FromRight? || t.FromLeft?
    ensures OffsetForAnimation(v, t, direction, d).height != 0.0 ==> t.Auto? || t.FromTop? || t.FromBottom?
  {
  }

  /** The `scrollPosition` observer: moving down the content gives `.bottom`,
      anything else (an equal position included) gives `.top`. */
  function NextDirection(oldY: real, newY: real): ScrollDirection
  {
    if oldY < newY then Bottom else Top
  }

  lemma NextDirectionIsKnown(oldY: real, newY: real)
    ensures NextDirection(oldY, newY) != NoDirection
    ensures NextDirection(oldY, newY) == Bottom <==> newY > oldY
  {
  }

  /** What one cell goes through: a new scroll position, appearing, disappearing. */
  datatype CellEvent = Scrolled(y: real) | Appeared | Disappeared

  /** The animator's mutable state. */
  datatype CellState = CellState(direction: ScrollDirection, isVisible: bool, scrollY: real)

  const InitialCell: CellState := CellState(Bottom, false, 0.0)

  /** One event's effect on the animator's state. */
  function CellStep(t: SSCellAnimationType, s: CellState, e: CellEvent): CellState
  {
    match e
    case Scrolled(y) => s.(direction := NextDirection(s.scrollY, y), scrollY := y)
    case Appeared => s.(isVisible := true)
    case Disappeared => if Timing(t) == Always then s.(isVisible := false) else s
  }

  function CellRun(t: SSCellAnimationType, s: CellState, events: seq<CellEvent>): CellState
    decreases |events|
  {
    if events == [] then s else CellRun(t, CellStep(t, s, events[0]), events[1..])
  }

  /** The `.none` direction rows of the table are never reached: starting from
      `.bottom`, no sequence of events yields an unknown direction. */
  lemma {:induction false} DirectionStaysKnown(t: SSCellAnimationType, s: CellState, events: seq<CellEvent>)
    requires s.direction != NoDirection
    ensures CellRun(t, s, events).direction != NoDirection
    decreases |events|
  {
    if events != [] {
      DirectionStaysKnown(t, CellStep(t, s, events[0]), events[1..]);
    }
  }

  /** A `.once` cell that has appeared stays visible, so its offset stays zero,
      whatever it goes through afterwards. */
  lemma {:induction false} OnceCellNeverReanimates(t: SSCellAnimationType, s: CellState, events: seq<CellEvent>, d: real)
    requires Timing(t) == Once && s.isVisible
    ensures CellRun(t, s, events).isVisible
    ensures OffsetForAnimation(CellRun(t, s, events).isVisible, t, CellRun(t, s, events).direction, d) == ZeroSize
    decreases |events|
  {
    if events != [] {
      OnceCellNeverReanimates(t, CellStep(t, s, events[0]), events[1..], d);
    }
  }

  /** An `.always` cell is invisible again after it disappears, so it slides in
      again by the table the next time it appears. */
  lemma AlwaysCellReanimates(t: SSCellAnimationType, s: CellState)
    requires Timing(t) == Always
    ensures !CellStep(t, s, Disappeared).isVisible
    ensures CellStep(t, CellStep(t, s, Disappeared), Appeared).isVisible
  {
  }

  /** The animator modifier of one cell. */
  class SSListCellAnimator {
    const animationType: SSCellAnimationType
    const animationDistance: real
    var scrollDirection: ScrollDirection
    var isVisible: bool
    var scrollY: real

    function State(): CellState
      reads this
    {
      CellState(scrollDirection, isVisible, scrollY)
    }

    /** The list creates every animator at scroll position zero. */
    constructor (t: SSCellAnimationType)
      ensures animationType == t && animationDistance == AnimationDistance
      ensures State() == InitialCell
    {
      animationType := t;
      animationDistance := AnimationDistance;
      scrollDirection := Bottom;
      isVisible := false;
      scrollY := 0.0;
    }

    /** The offset the cell is drawn at now. */
    function CurrentOffset(): Size
      reads this
    {
      OffsetForAnimation(isVisible, animationType, scrollDirection, animationDistance)
    }

    method SetScrollPosition(y: real)
      modifies this
      ensures State() == CellStep(animationType, old(State()), Scrolled(y))
      ensures scrollY == y && isVisible == old(isVisible)
      ensures scrollDirection == (if old(scrollY) < y then Bottom else Top)
    {
      var oldY := scrollY;
      scrollY := y;
      if oldY < scrollY {
        if scrollDirection != Bottom {
          scrollDirection := Bottom;
        }
      } else {
        if scrollDirection != Top {
          scrollDirection := Top;
        }
      }
    }

    method OnAppear()
      modifies this
      ensures State() == CellStep(animationType, old(State()), Appeared)
      ensures isVisible && CurrentOffset() == ZeroSize
    {
      isVisible := true;
    }

    method OnDisappear()
      modifies this
      ensures State() == CellStep(animationType, old(State()), Disappeared)
      ensures isVisible == (old(isVisible) && Timing(animationType) == Once)
    {
      if Timing(animationType) == Always {
        isVisible := false;
      }
    }
  }
}
