/** Properties of the game session that relate several handlers or several
    events: launch and reset laws, the physics of a tick, what a run of
    events can and cannot do to the targets, and closed-form free flight. */
module SessionProperties {
  import opened Geometry
  import opened Session

  // ---------------------------------------------------------------
  // Pointer input
  // ---------------------------------------------------------------

  /** The squared-distance hit test agrees with the test on the distance
      itself: a press starts a drag exactly when the pointer lies within
      half the projectile's width of its centre. */
  lemma PressHitsWithinRadius(c: Config, s: State, p: Point, distance: real)
    requires c.Valid()
    requires distance >= 0.0 && distance * distance == SquaredLength(Diff(p, s.position))
    ensures MouseDown(c, s, p, true).dragging <==> distance <= c.width / 2.0
  {
    WithinRadius(distance, c.width / 2.0, SquaredLength(Diff(p, s.position)));
  }

  /** A press always hits the projectile at its own centre. */
  lemma PressOnCentreStartsDrag(c: Config, s: State)
    ensures MouseDown(c, s, s.position, true) == s.(dragging := true, dragStart := s.position)
  {
    assert IsInsideProjectile(c, s.position, s.position);
  }

  /** A press on the projectile while it is flying starts a drag without
      ending the flight, so dragging and flying can hold together. */
  lemma DragDuringFlight(c: Config, s: State)
    requires s.flying
    ensures MouseDown(c, s, s.position, true).dragging
    ensures MouseDown(c, s, s.position, true).flying
  {
    PressOnCentreStartsDrag(c, s);
  }

  /** Releasing at any point within reach after pressing at that same point
      launches with zero velocity. */
  lemma ZeroPullLaunchesAtRest(c: Config, s: State, q: Point)
    requires IsInsideProjectile(c, s.position, q)
    ensures MouseUp(MouseDown(c, s, q, true), q).velocity == Vector(0.0, 0.0)
    ensures MouseUp(MouseDown(c, s, q, true), q).position == s.position
    ensures MouseUp(MouseDown(c, s, q, true), q).flying
  {
  }

  /** Reset, then a press and release at the pivot: the projectile is still
      on the pivot with zero velocity, in flight, and the bands are
      collapsed onto the pivot. */
  lemma ResetThenZeroPull(c: Config, s: State)
    ensures var r := MouseUp(MouseDown(c, ResetProjectile(c, s), Anchor, true), Anchor);
            r.position == Anchor && r.velocity == Vector(0.0, 0.0) &&
            BandsCollapsed(r) && r.flying && !r.dragging &&
            r.pigs == s.pigs && r.victories == s.victories
  {
    var reset := ResetProjectile(c, s);
    PressOnCentreStartsDrag(c, reset);
  }

  /** A pull from (100, 300) released at (80, 280) launches at (6, 6). */
  lemma LaunchExample(s: State)
    requires s.dragging && s.dragStart == Point(100.0, 300.0)
    ensures MouseUp(s, Point(80.0, 280.0)).velocity == Vector(6.0, 6.0)
  {
  }

  // ---------------------------------------------------------------
  // One tick
  // ---------------------------------------------------------------

  /** A tick above the floor: an Euler step with gravity, then a collision
      check against the projectile as displayed before the step. */
  lemma TickInAir(c: Config, s: State)
    requires s.flying
    requires s.position.y + s.velocity.dy <= c.Floor()
    ensures var r := OnTimerTick(c, s);
            r.position == Translate(s.position, s.velocity) &&
            r.velocity == Vector(s.velocity.dx, s.velocity.dy + Gravity) &&
            r.pigs == Survivors(s.pigs, ProjectileRect(c, s)) &&
            r.flying == FirstHit(s.pigs, ProjectileRect(c, s)).None? &&
            r.leftBand == s.leftBand && r.rightBand == s.rightBand
  {
  }

  /** A tick that reaches below the floor with enough speed to bounce: the
      projectile sits on the floor and the vertical velocity (after
      gravity) is reversed and damped by GroundFriction. */
  lemma TickBounces(c: Config, s: State)
    requires s.flying
    requires s.position.y + s.velocity.dy > c.Floor()
    requires Abs((s.velocity.dy + Gravity) * GroundFriction) >= 1.0
    ensures var r := OnTimerTick(c, s);
            r.position == Point(s.position.x + s.velocity.dx, c.Floor()) &&
            r.velocity == Vector(s.velocity.dx, -(s.velocity.dy + Gravity) * GroundFriction) &&
            r.pigs == Survivors(s.pigs, ProjectileRect(c, s)) &&
            r.flying == FirstHit(s.pigs, ProjectileRect(c, s)).None? &&
            r.leftBand == s.leftBand && r.rightBand == s.rightBand
  {
  }

  /** A bounce too weak to keep going puts the projectile back on the pivot
      at rest, wherever it was and however fast it moved sideways; the
      collision check of that tick still runs, against the projectile as
      displayed on the pivot. */
  lemma TickAutoResets(c: Config, s: State)
    requires s.flying
    requires s.position.y + s.velocity.dy > c.Floor()
    requires Abs((s.velocity.dy + Gravity) * GroundFriction) < 1.0
    ensures var r := OnTimerTick(c, s);
            r.position == Anchor && r.velocity == Vector(0.0, 0.0) && !r.flying &&
            r.shown == ShownAt(c, Anchor) && BandsCollapsed(r) &&
            r.pigs == Survivors(s.pigs, Rect(ShownAt(c, Anchor).x, ShownAt(c, Anchor).y, c.width, c.height))
  {
  }

  /** A bounce at speed 10 leaves an upward speed of 2. */
  lemma BounceExample(c: Config, s: State)
    requires s.flying && s.velocity.dy + Gravity == 10.0
    requires s.position.y + s.velocity.dy > c.Floor()
    ensures OnTimerTick(c, s).velocity.dy == -2.0
  {
    TickBounces(c, s);
  }

  /** On a tick in flight the victory message is raised exactly when no
      target is left after the check; off flight it is never raised. */
  lemma TickVictory(c: Config, s: State)
    ensures var r := OnTimerTick(c, s);
            r.victories == if s.flying && r.pigs == [] then s.victories + 1 else s.victories
  {
  }

  /** Once every target is gone, each tick of a later flight raises the
      victory message again, although nothing is removed. */
  lemma VictoryRepeatsWhileEmpty(c: Config, s: State)
    requires s.flying && s.pigs == []
    ensures OnTimerTick(c, s).victories == s.victories + 1
  {
  }

  // ---------------------------------------------------------------
  // Runs of events
  // ---------------------------------------------------------------

  /** What one event can do to the targets, the victory count and the bands. */
  lemma StepMonotone(c: Config, s: State, e: Event)
    ensures multiset(Step(c, s, e).pigs) <= multiset(s.pigs)
    ensures |Step(c, s, e).pigs| <= |s.pigs|
    ensures Step(c, s, e).victories >= s.victories
    ensures !e.TimerTick? ==> Step(c, s, e).pigs == s.pigs && Step(c, s, e).victories == s.victories
    ensures BandsAnchored(s) ==> BandsAnchored(Step(c, s, e))
  {
    if e.TimerTick? && s.flying {
      SurvivorsAreSubMultiset(s.pigs, ProjectileRect(c, Fly(c, s)));
    }
  }

  /** Over any run of events no target is ever added back or duplicated,
      the victory count never decreases, and bands that start anchored at
      their posts stay so. */
  lemma {:induction false} RunMonotone(c: Config, s: State, events: seq<Event>)
    ensures multiset(Run(c, s, events).pigs) <= multiset(s.pigs)
    ensures |Run(c, s, events).pigs| <= |s.pigs|
    ensures Run(c, s, events).victories >= s.victories
    ensures BandsAnchored(s) ==> BandsAnchored(Run(c, s, events))
    decreases |events|
  {
    if events != [] {
      var next := Step(c, s, events[0]);
      StepMonotone(c, s, events[0]);
      RunMonotone(c, next, events[1..]);
    }
  }

  /** Without timer ticks neither the targets nor the victory count change. */
  lemma {:induction false} PointerRunKeepsTargets(c: Config, s: State, events: seq<Event>)
    requires forall i :: 0 <= i < |events| ==> !events[i].TimerTick?
    ensures Run(c, s, events).pigs == s.pigs
    ensures Run(c, s, events).victories == s.victories
    decreases |events|
  {
    if events != [] {
      StepMonotone(c, s, events[0]);
      PointerRunKeepsTargets(c, Step(c, s, events[0]), events[1..]);
    }
  }

  // ---------------------------------------------------------------
  // Free flight
  // ---------------------------------------------------------------

  /** Position and velocity after `n` Euler steps under gravity alone,
      step by step, as a tick computes them. */
  function Trajectory(p: Point, v: Vector, n: nat): (Point, Vector)
  {
    if n == 0 then (p, v)
    else
      var (q, w) := Trajectory(p, v, n - 1);
      (Translate(q, w), w.(dy := w.dy + Gravity))
  }

  /** Position after `n` ticks of free flight from `p` with velocity `v`:
      the Euler sum of the velocities, with gravity adding
      Gravity * n * (n - 1) / 2 downwards. */
  function FlightPosition(p: Point, v: Vector, n: nat): Point
  {
    var t := n as real;
    Point(p.x + t * v.dx, p.y + t * v.dy + Gravity * t * (t - 1.0) / 2.0)
  }

  /** Velocity after `n` ticks of free flight. */
  function FlightVelocity(v: Vector, n: nat): Vector
  {
    Vector(v.dx, v.dy + (n as real) * Gravity)
  }

  /** One Euler step advances the closed form by one tick. */
  lemma FlightStep(p: Point, v: Vector, n: nat)
    requires n >= 1
    ensures Translate(FlightPosition(p, v, n - 1), FlightVelocity(v, n - 1)) == FlightPosition(p, v, n)
    ensures FlightVelocity(v, n - 1).(dy := FlightVelocity(v, n - 1).dy + Gravity) == FlightVelocity(v, n)
  {
  }

  /** Euler integration under constant gravity lands exactly on the
      parabola of the closed form. */
  lemma {:induction false} TrajectoryIsParabola(p: Point, v: Vector, n: nat)
    ensures Trajectory(p, v, n) == (FlightPosition(p, v, n), FlightVelocity(v, n))
  {
    if n == 0 {
      var t := 0 as real;
      assert t * v.dx == 0.0 && t * v.dy == 0.0;
      assert Gravity * t * (t - 1.0) / 2.0 == 0.0;
    } else {
      TrajectoryIsParabola(p, v, n - 1);
      FlightStep(p, v, n);
    }
  }

  /** The tick after `k` free ticks from `p` with `v` stays above the floor
      and its collision check, against the projectile shown where the
      previous tick left it, finds no target. */
  predicate ClearTick(c: Config, p: Point, v: Vector, pigs: seq<Rect>, k: nat)
  {
    var shown := ShownAt(c, FlightPosition(p, v, k));
    FlightPosition(p, v, k + 1).y <= c.Floor() &&
    FirstHit(pigs, Rect(shown.x, shown.y, c.width, c.height)).None?
  }

  /** The same condition on the step-by-step trajectory. */
  predicate ClearEulerTick(c: Config, p: Point, v: Vector, pigs: seq<Rect>, k: nat)
  {
    var shown := ShownAt(c, Trajectory(p, v, k).0);
    Trajectory(p, v, k + 1).0.y <= c.Floor() &&
    FirstHit(pigs, Rect(shown.x, shown.y, c.width, c.height)).None?
  }

  /** A tick of flight that stays above the floor and hits nothing: the
      Euler step with gravity, the display refreshed, and a victory raised
      only when no target is left. */
  lemma ClearTickStep(c: Config, s: State)
    requires s.flying
    requires s.position.y + s.velocity.dy <= c.Floor()
    requires FirstHit(s.pigs, ProjectileRect(c, s)).None?
    ensures OnTimerTick(c, s) ==
            s.(position := Translate(s.position, s.velocity),
               velocity := s.velocity.(dy := s.velocity.dy + Gravity),
               shown := ShownAt(c, Translate(s.position, s.velocity)),
               victories := if s.pigs == [] then s.victories + 1 else s.victories)
  {
    var flown := Fly(c, s);
    assert flown == s.(position := Translate(s.position, s.velocity),
                       velocity := s.velocity.(dy := s.velocity.dy + Gravity));
  }

  /** While every tick stays above the floor and hits nothing, `n` ticks
      follow the Euler trajectory, the flight goes on with the projectile
      displayed where it is and the targets kept, and a victory is raised
      on every tick only if no target was left to begin with. */
  lemma {:induction false} FreeFlightSteps(c: Config, s: State, n: nat)
    requires s.flying && s.shown == ShownAt(c, s.position)
    requires forall k :: 0 <= k < n ==> ClearEulerTick(c, s.position, s.velocity, s.pigs, k)
    ensures Ticks(c, s, n) ==
            s.(position := Trajectory(s.position, s.velocity, n).0,
               velocity := Trajectory(s.position, s.velocity, n).1,
               shown := ShownAt(c, Trajectory(s.position, s.velocity, n).0),
               victories := if s.pigs == [] then s.victories + n else s.victories)
  {
    if n > 0 {
      FreeFlightSteps(c, s, n - 1);
      assert ClearEulerTick(c, s.position, s.velocity, s.pigs, n - 1);
      ClearTickStep(c, Ticks(c, s, n - 1));
    }
  }

  /** While every tick stays above the floor and hits nothing, `n` ticks
      follow the closed-form parabola. */
  lemma FreeFlight(c: Config, s: State, n: nat)
    requires s.flying && s.shown == ShownAt(c, s.position)
    requires forall k :: 0 <= k < n ==> ClearTick(c, s.position, s.velocity, s.pigs, k)
    ensures Ticks(c, s, n) ==
            s.(position := FlightPosition(s.position, s.velocity, n),
               velocity := FlightVelocity(s.velocity, n),
               shown := ShownAt(c, FlightPosition(s.position, s.velocity, n)),
               victories := if s.pigs == [] then s.victories + n else s.victories)
  {
    var p, v := s.position, s.velocity;
    forall k | 0 <= k < n
      ensures ClearEulerTick(c, p, v, s.pigs, k)
    {
      TrajectoryIsParabola(p, v, k);
      TrajectoryIsParabola(p, v, k + 1);
      assert ClearTick(c, p, v, s.pigs, k);
    }
    FreeFlightSteps(c, s, n);
    TrajectoryIsParabola(p, v, n);
  }
}
