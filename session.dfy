/** The slingshot game session as a state machine over values: one function
    per event handler of the game window, each giving the whole new state
    from the old one. The imperative window in module Game is proved to
    follow these functions step by step. */
module Session {
  import opened Geometry

  /** The slingshot's pivot, where the projectile rests. */
  const Anchor := Point(100.0, 300.0)
  /** Horizontal distance from the pivot to each band's fixed end. */
  const SlingshotLength := 50.0
  /** Added to the vertical velocity on every tick of flight. */
  const Gravity := 0.8
  /** Fraction of the vertical speed kept by a bounce on the floor. */
  const GroundFriction := 0.2
  /** Launch velocity per unit of pull. */
  const SpeedFactor := 0.3

  /** Fixed ends of the left and right bands. */
  const LeftPost := Point(Anchor.x - SlingshotLength, Anchor.y)
  const RightPost := Point(Anchor.x + SlingshotLength, Anchor.y)

  /** Sizes the window takes from its layout: the projectile's width and
      height, and the canvas height whose floor lies 30 units above it. */
  datatype Config = Config(width: real, height: real, canvasHeight: real)
  {
    /** Layout sizes are never negative. */
    predicate Valid() { width >= 0.0 && height >= 0.0 }

    function Floor(): real { canvasHeight - 30.0 }
  }

  datatype Option<T> = None | Some(value: T)

  /** Everything the handlers read or write. `shown` is the top-left corner
      at which the projectile is displayed: it is refreshed only by
      UpdateProjectilePosition and may lag behind `position`. `pigs` are
      the bounding boxes of the remaining targets in canvas order, and
      `victories` counts the victory notifications raised so far. */
  datatype State = State(
    position: Point,
    velocity: Vector,
    dragStart: Point,
    dragging: bool,
    flying: bool,
    shown: Point,
    leftBand: Line,
    rightBand: Line,
    pigs: seq<Rect>,
    victories: nat)

  /** Both bands start at their posts and end at one common point. */
  predicate BandsAnchored(s: State)
  {
    s.leftBand.from == LeftPost && s.rightBand.from == RightPost &&
    s.leftBand.to == s.rightBand.to
  }

  /** The slingshot at rest: both bands end at the pivot. */
  predicate BandsCollapsed(s: State)
  {
    BandsAnchored(s) && s.leftBand.to == Anchor
  }

  /** The rectangle the projectile occupies on screen. */
  function ProjectileRect(c: Config, s: State): Rect
  {
    Rect(s.shown.x, s.shown.y, c.width, c.height)
  }

  /** Top-left corner that displays a projectile centred on `p`. */
  function ShownAt(c: Config, p: Point): Point
  {
    Point(p.x - c.width / 2.0, p.y - c.height / 2.0)
  }

  /** The state right after the window is built: the projectile at the
      pivot, displayed there, at rest; bands and targets as laid out. */
  function Initial(c: Config, pigs: seq<Rect>, leftBand: Line, rightBand: Line): (r: State)
    ensures r.position == Anchor && r.velocity == Vector(0.0, 0.0)
    ensures r.leftBand == leftBand && r.rightBand == rightBand
    ensures r.pigs == pigs && r.victories == 0 && !r.dragging && !r.flying
    ensures UpdateProjectilePosition(c, r) == r
    ensures OnTimerTick(c, r) == r
    ensures forall p :: MouseUp(r, p) == r
    ensures forall p :: MouseMove(c, r, p) == r
  {
    State(Anchor, Vector(0.0, 0.0), Point(0.0, 0.0), false, false,
          ShownAt(c, Anchor), leftBand, rightBand, pigs, 0)
  }

  /** Moves the displayed projectile so that it is centred on the model
      position; nothing else changes. */
  function UpdateProjectilePosition(c: Config, s: State): (r: State)
    ensures r.shown.x + c.width / 2.0 == s.position.x
    ensures r.shown.y + c.height / 2.0 == s.position.y
    ensures s.(shown := r.shown) == r
  {
    s.(shown := ShownAt(c, s.position))
  }

  /** Points both bands from their posts at `center`. */
  function SetSlingshotBands(s: State, center: Point): (r: State)
    ensures BandsAnchored(r) && r.leftBand.to == center && r.rightBand.to == center
    ensures s.(leftBand := r.leftBand, rightBand := r.rightBand) == r
  {
    s.(leftBand := Line(LeftPost, center), rightBand := Line(RightPost, center))
  }

  /** Collapses both bands onto the pivot. */
  function HideSlingshot(s: State): (r: State)
    ensures BandsCollapsed(r)
    ensures s.(leftBand := r.leftBand, rightBand := r.rightBand) == r
  {
    SetSlingshotBands(s, Anchor)
  }

  /** Bands follow the projectile while it is dragged and collapse otherwise. */
  function UpdateSlingshot(s: State): (r: State)
    ensures BandsAnchored(r)
    ensures s.dragging ==> r.leftBand.to == s.position
    ensures !s.dragging ==> BandsCollapsed(r)
    ensures s.(leftBand := r.leftBand, rightBand := r.rightBand) == r
  {
    if s.dragging then SetSlingshotBands(s, s.position) else HideSlingshot(s)
  }

  /** The hit test of a pointer against the projectile: within half the
      projectile's width of its centre, compared on squared distances. */
  predicate IsInsideProjectile(c: Config, center: Point, point: Point): (r: bool)
    ensures point == center ==> r
  {
    SquaredLength(Diff(point, center)) <= (c.width / 2.0) * (c.width / 2.0)
  }

  /** Puts the projectile back on the pivot, at rest, displayed there, with
      the bands collapsed. The drag flag, the drag start, the targets and
      the victory count are kept. */
  function ResetProjectile(c: Config, s: State): (r: State)
    ensures r.position == Anchor && r.velocity == Vector(0.0, 0.0) && !r.flying
    ensures r.shown == ShownAt(c, Anchor) && BandsCollapsed(r)
    ensures r.dragging == s.dragging && r.dragStart == s.dragStart
    ensures r.pigs == s.pigs && r.victories == s.victories
  {
    HideSlingshot(UpdateProjectilePosition(c, s.(position := Anchor, velocity := Vector(0.0, 0.0), flying := false)))
  }

  /** Pointer pressed at `p`. With the left button down it records `p` as
      the drag start and starts a drag exactly when `p` hits the
      projectile; a miss resets the projectile. Otherwise nothing happens. */
  function MouseDown(c: Config, s: State, p: Point, leftPressed: bool): (r: State)
    ensures !leftPressed ==> r == s
    ensures leftPressed ==> r.dragStart == p && r.dragging == IsInsideProjectile(c, s.position, p)
    ensures leftPressed && IsInsideProjectile(c, s.position, p) ==> r == s.(dragging := true, dragStart := p)
    ensures leftPressed && !IsInsideProjectile(c, s.position, p) ==>
              r == ResetProjectile(c, s.(dragging := false, dragStart := p))
  {
    if !leftPressed then s
    else
      var pressed := s.(dragging := IsInsideProjectile(c, s.position, p), dragStart := p);
      if !pressed.dragging then ResetProjectile(c, pressed) else pressed
  }

  /** Pointer moved to `p`. While dragging, the projectile follows the
      pointer (model and display) and the bands end at it; otherwise
      nothing happens. */
  function MouseMove(c: Config, s: State, p: Point): (r: State)
    ensures !s.dragging ==> r == s
    ensures s.dragging ==> r.position == p && r.shown == ShownAt(c, p)
    ensures s.dragging ==> BandsAnchored(r) && r.leftBand.to == p && r.rightBand.to == p
    ensures s.dragging ==> s.(position := r.position, shown := r.shown, leftBand := r.leftBand, rightBand := r.rightBand) == r
  {
    if s.dragging then UpdateSlingshot(UpdateProjectilePosition(c, s.(position := p)))
    else s
  }

  /** Pointer released at `p`. A drag ends in a launch whose velocity is the
      pull (drag start minus release point) times SpeedFactor, and the bands
      collapse; without a drag nothing happens. */
  function MouseUp(s: State, p: Point): (r: State)
    ensures !s.dragging ==> r == s
    ensures s.dragging ==> !r.dragging && r.flying
    ensures s.dragging ==> r.velocity == Vector((s.dragStart.x - p.x) * SpeedFactor, (s.dragStart.y - p.y) * SpeedFactor)
    ensures s.dragging ==> BandsCollapsed(r)
    ensures s.dragging ==> s.(dragging := r.dragging, flying := r.flying, velocity := r.velocity, leftBand := r.leftBand, rightBand := r.rightBand) == r
  {
    if s.dragging then
      HideSlingshot(s.(dragging := false, flying := true, velocity := Scale(Diff(s.dragStart, p), SpeedFactor)))
    else s
  }

  /** Index of the first target, in canvas order, that overlaps `box`. */
  function FirstHit(pigs: seq<Rect>, box: Rect): (r: Option<nat>)
    ensures r.Some? ==> r.value < |pigs| && Intersects(pigs[r.value], box)
    ensures forall j :: 0 <= j < |pigs| && (r.None? || j < r.value) ==> !Intersects(pigs[j], box)
  {
    if |pigs| == 0 then None
    else if Intersects(pigs[0], box) then Some(0)
    else
      match FirstHit(pigs[1..], box)
      case None => None
      case Some(k) => Some(k + 1)
  }

  /** `s` without its element at index `k`, the others in their order. */
  function RemoveAt<T>(s: seq<T>, k: nat): (r: seq<T>)
    requires k < |s|
    ensures |r| == |s| - 1
    ensures forall j :: 0 <= j < k ==> r[j] == s[j]
    ensures forall j :: k <= j < |r| ==> r[j] == s[j + 1]
  {
    s[..k] + s[k + 1..]
  }

  /** The first hit is the overlapping target that every earlier target
      misses. */
  lemma FirstHitAt(pigs: seq<Rect>, box: Rect, i: nat)
    requires i < |pigs| && Intersects(pigs[i], box)
    requires forall j :: 0 <= j < i ==> !Intersects(pigs[j], box)
    ensures FirstHit(pigs, box) == Some(i)
  {
  }

  /** The targets left after one collision check against `box`: the first
      overlapping target is gone, at most one, and the rest keep their order. */
  function Survivors(pigs: seq<Rect>, box: Rect): (r: seq<Rect>)
    ensures FirstHit(pigs, box).None? ==> r == pigs
    ensures FirstHit(pigs, box).Some? ==> |r| == |pigs| - 1
    ensures FirstHit(pigs, box).Some? ==>
              forall j :: 0 <= j < |r| ==> r[j] == pigs[if j < FirstHit(pigs, box).value then j else j + 1]
  {
    match FirstHit(pigs, box)
    case None => pigs
    case Some(k) => RemoveAt(pigs, k)
  }

  /** A collision check neither duplicates a target nor brings one back:
      the survivors are a sub-multiset of the targets checked. */
  lemma SurvivorsAreSubMultiset(pigs: seq<Rect>, box: Rect)
    ensures multiset(Survivors(pigs, box)) <= multiset(pigs)
  {
    match FirstHit(pigs, box)
    case None =>
    case Some(k) =>
      assert pigs == pigs[..k] + [pigs[k]] + pigs[k + 1..];
      assert Survivors(pigs, box) == pigs[..k] + pigs[k + 1..];
  }

  /** One collision check against the displayed projectile. The first
      overlapping target is removed and the flight stops; with no overlap
      the targets and the flight are kept. A victory is raised exactly
      when no target remains after the check. */
  function CheckCollisionWithPigs(c: Config, s: State): (r: State)
    ensures r.pigs == Survivors(s.pigs, ProjectileRect(c, s))
    ensures r.flying == (s.flying && FirstHit(s.pigs, ProjectileRect(c, s)).None?)
    ensures r.victories == if r.pigs == [] then s.victories + 1 else s.victories
    ensures s.(pigs := r.pigs, flying := r.flying, victories := r.victories) == r
  {
    var box := ProjectileRect(c, s);
    var checked := match FirstHit(s.pigs, box)
      case None => s
      case Some(k) => s.(pigs := RemoveAt(s.pigs, k), flying := false);
    if checked.pigs == [] then checked.(victories := checked.victories + 1) else checked
  }

  /** The physics part of a tick: an Euler step, gravity, and the floor
      bounce, which resets the projectile when it leaves too little
      vertical speed. */
  function Fly(c: Config, s: State): (r: State)
    ensures r.dragging == s.dragging && r.dragStart == s.dragStart
    ensures r.pigs == s.pigs && r.victories == s.victories
    ensures BandsAnchored(s) ==> BandsAnchored(r)
    ensures (r.leftBand == s.leftBand && r.rightBand == s.rightBand) || BandsCollapsed(r)
    ensures r.flying ==> r.position.y <= c.Floor()
  {
    var moved := s.(position := Translate(s.position, s.velocity),
                    velocity := s.velocity.(dy := s.velocity.dy + Gravity));
    if moved.position.y > c.Floor() then
      var bounced := moved.(position := moved.position.(y := c.Floor()),
                            velocity := moved.velocity.(dy := -moved.velocity.dy * GroundFriction));
      if Abs(bounced.velocity.dy) < 1.0 then ResetProjectile(c, bounced) else bounced
    else moved
  }

  /** One timer tick. Without a flight nothing changes. In flight: the
      physics step, then the collision check (against the projectile as
      displayed before this tick, or at the pivot after a reset), then the
      display is refreshed. The drag state is never touched, targets are
      never added and victories never withdrawn. */
  function OnTimerTick(c: Config, s: State): (r: State)
    ensures !s.flying ==> r == s
    ensures s.flying ==> r.shown == ShownAt(c, r.position)
    ensures r.dragging == s.dragging && r.dragStart == s.dragStart
    ensures s.flying ==> r.pigs == Survivors(s.pigs, ProjectileRect(c, Fly(c, s)))
    ensures |r.pigs| <= |s.pigs| <= |r.pigs| + 1
    ensures r.victories >= s.victories
    ensures BandsAnchored(s) ==> BandsAnchored(r)
    ensures (r.leftBand == s.leftBand && r.rightBand == s.rightBand) || BandsCollapsed(r)
  {
    if !s.flying then s
    else UpdateProjectilePosition(c, CheckCollisionWithPigs(c, Fly(c, s)))
  }

  /** The events the window reacts to. */
  datatype Event =
    | PointerDown(at: Point, leftPressed: bool)
    | PointerMove(at: Point)
    | PointerUp(at: Point)
    | TimerTick

  function Step(c: Config, s: State, e: Event): State
  {
    match e
    case PointerDown(p, left) => MouseDown(c, s, p, left)
    case PointerMove(p) => MouseMove(c, s, p)
    case PointerUp(p) => MouseUp(s, p)
    case TimerTick => OnTimerTick(c, s)
  }

  /** The state after handling `events` in order. */
  function Run(c: Config, s: State, events: seq<Event>): State
    decreases |events|
  {
    if events == [] then s
    else Run(c, Step(c, s, events[0]), events[1..])
  }

  /** The state after `n` timer ticks and no other event. */
  function Ticks(c: Config, s: State, n: nat): State
  {
    if n == 0 then s else OnTimerTick(c, Ticks(c, s, n - 1))
  }
}
