# Slingshot game session, modelled in Dafny

The model covers the game logic of the slingshot window `MainWindow` in
`repos/WpfApp2/WpfApp2/MainWindow.xaml.cs`. The player presses on the
projectile, drags it away from the slingshot pivot at (100, 300) and
releases it. A timer then moves it under gravity. It bounces on the floor
with damping and snaps back to the pivot once a bounce is too weak. Each
tick it is tested against the remaining targets ("pigs"). The first
target it overlaps is removed and the flight stops. When no target is
left, a victory message is shown.

The project has four files:

- `geometry.dfy` (module `Geometry`): points, vectors, axis-aligned
  rectangles with a closed-interval overlap test, and band line segments.
  Its lemma `WithinRadius` justifies comparing squared distances.
- `session.dfy` (module `Session`): the session as a state machine over
  values. There is one function per handler (`MouseDown`, `MouseMove`,
  `MouseUp`, `OnTimerTick`, `CheckCollisionWithPigs`, `ResetProjectile`,
  `UpdateProjectilePosition`, `SetSlingshotBands`, `HideSlingshot`,
  `UpdateSlingshot`, `IsInsideProjectile`). Each function's contract states
  the one-call laws: the launch formula, the reset state, "nothing changes
  when not dragging / not flying", and "at most one target removed per
  check". The module also gives the event type and `Run`, which handles a
  sequence of events.
- `main_window.dfy` (module `Game`): class `MainWindow`. Its fields are the
  ones the handlers update in place: position, velocity, drag start, the
  two flags, the displayed corner, both bands, the target sequence and a
  victory counter. Each method is proved to leave exactly the state that
  the matching `Session` function computes. `CheckCollisionWithPigs` keeps
  the source's search loop, with its early exit.
- `properties.dfy` (module `SessionProperties`): lemmas that relate several
  events or ticks. They cover the hit test against the true distance, the
  reset-then-zero-pull round trip, the three tick laws (in the air,
  bounce, auto-reset), when victory fires, and the fact that no run of
  events adds a target or lowers the victory count. The last group shows
  that `n` clear ticks follow the closed-form parabola
  `p + n·v + (0, 0.8·n(n−1)/2)`.

Sizes the code file does not show are parameters. These are the
projectile's width and height, the canvas height (the floor is
`ActualHeight - 30`), the target rectangles and the initial band lines.
`shown` is the projectile's displayed top-left corner
(`Canvas.GetLeft/GetTop`), kept separate from `position`. The collision
test reads `shown`. During a tick, `shown` is refreshed only after the
collision check, so the check sees the projectile where it was last
displayed: by the previous tick, or, on the first tick of a flight or
after a drag move, by the last `MouseMove`, reset or the constructor. An
auto-reset in the tick itself redisplays it at the pivot before the
check.

Behaviour of the code worth knowing:

- The victory message is raised on every collision check that finds no
  target left. Once all targets are gone, every tick of a later flight
  raises it again (`VictoryRepeatsWhileEmpty`).
- A press on the projectile while it flies starts a drag and does not end
  the flight, so dragging and flying can hold together
  (`DragDuringFlight`).
- A hit stops the flight but leaves the velocity as it was.
- The bounce damps the vertical velocity after gravity has been added on
  that tick.
- The floor is the canvas height minus 30.
- Rectangles that only touch along an edge or at a corner overlap, and so
  does a zero-sized rectangle lying on another one.

## Model

| member | source | states |
|---|---|---|
| Game.MainWindow.constructor | repos/WpfApp2/WpfApp2/MainWindow.xaml.cs:21-35 | the window starts with the projectile on the pivot (100, 300), displayed there, not dragging, not flying, zero velocity, no victory; targets and bands as laid out; the projectile sizes are non-negative, as WPF requires of element sizes |
| Game.MainWindow.UpdateProjectilePosition | repos/WpfApp2/WpfApp2/MainWindow.xaml.cs:95-99 | the new state is Session.UpdateProjectilePosition of the old one: only the displayed corner changes |
| Game.MainWindow.SetSlingshotBands | repos/WpfApp2/WpfApp2/MainWindow.xaml.cs:114-124 | the new state is Session.SetSlingshotBands of the old one: only the bands change |
| Game.MainWindow.HideSlingshot | repos/WpfApp2/WpfApp2/MainWindow.xaml.cs:127-130 | the new state is Session.HideSlingshot of the old one |
| Game.MainWindow.UpdateSlingshot | repos/WpfApp2/WpfApp2/MainWindow.xaml.cs:101-111 | the new state is Session.UpdateSlingshot of the old one |
| Game.MainWindow.ResetProjectile | repos/WpfApp2/WpfApp2/MainWindow.xaml.cs:177-184 | the new state is Session.ResetProjectile of the old one |
| Game.MainWindow.MouseDown | repos/WpfApp2/WpfApp2/MainWindow.xaml.cs:38-46 | the new state is Session.MouseDown of the old one, the pointer and the button state |
| Game.MainWindow.MouseMove | repos/WpfApp2/WpfApp2/MainWindow.xaml.cs:49-57 | the new state is Session.MouseMove of the old one and the pointer |
| Game.MainWindow.MouseUp | repos/WpfApp2/WpfApp2/MainWindow.xaml.cs:60-69 | the new state is Session.MouseUp of the old one; after a drag the velocity is (drag start − release) · 0.3 |
| Game.MainWindow.OnTimerTick | repos/WpfApp2/WpfApp2/MainWindow.xaml.cs:72-92 | the new state is Session.OnTimerTick of the old one; after a tick in flight the projectile is displayed centred on its position |
| Game.MainWindow.CheckCollisionWithPigs | repos/WpfApp2/WpfApp2/MainWindow.xaml.cs:133-167 | the search loop with early exit leaves the state Session.CheckCollisionWithPigs computes: first overlapping target removed, flight stopped only on a hit, victory counted when none is left |
| Session.Initial | repos/WpfApp2/WpfApp2/MainWindow.xaml.cs:21-35 | the start state has the projectile on the pivot at zero velocity, the bands and targets as laid out, no victory, neither dragging nor flying; it is already displayed centred, and ticks, moves and releases leave it unchanged |
| Session.IsInsideProjectile | repos/WpfApp2/WpfApp2/MainWindow.xaml.cs:170-174 | the hit test within half the projectile's width of its centre, on squared distances; the centre itself always hits |
| Session.UpdateProjectilePosition | repos/WpfApp2/WpfApp2/MainWindow.xaml.cs:95-99 | the displayed rectangle is centred on the model position (its corner plus half the size is the position); nothing else changes |
| Session.SetSlingshotBands | repos/WpfApp2/WpfApp2/MainWindow.xaml.cs:114-124 | the bands start at (100 ∓ 50, 300) and both end at the given centre; nothing else changes |
| Session.HideSlingshot | repos/WpfApp2/WpfApp2/MainWindow.xaml.cs:127-130 | both bands start at their posts and end at the pivot; nothing else changes |
| Session.UpdateSlingshot | repos/WpfApp2/WpfApp2/MainWindow.xaml.cs:101-111 | the bands stay anchored; while dragging they end at the projectile, otherwise they are collapsed on the pivot; nothing else changes |
| Session.ResetProjectile | repos/WpfApp2/WpfApp2/MainWindow.xaml.cs:177-184 | position is the pivot, velocity (0, 0), not flying, displayed on the pivot, bands collapsed; drag flag, drag start, targets and victories are kept |
| Session.MouseDown | repos/WpfApp2/WpfApp2/MainWindow.xaml.cs:38-46 | without the left button nothing changes; with it the drag start is the pointer and dragging holds iff the pointer hits the projectile; a hit changes nothing else, a miss is exactly a reset |
| Session.MouseMove | repos/WpfApp2/WpfApp2/MainWindow.xaml.cs:49-57 | when not dragging nothing changes; while dragging the position and the display follow the pointer and both bands end at it, nothing else changes |
| Session.MouseUp | repos/WpfApp2/WpfApp2/MainWindow.xaml.cs:60-69 | when not dragging nothing changes; after a drag: not dragging, flying, velocity (drag start − release) · 0.3, bands collapsed, nothing else changes |
| Session.FirstHit | repos/WpfApp2/WpfApp2/MainWindow.xaml.cs:135-149 | the index found is an overlapping target and every earlier target misses; no index means no target overlaps |
| Session.FirstHitAt | repos/WpfApp2/WpfApp2/MainWindow.xaml.cs:135-149 | an overlapping target that all earlier ones miss is the one the search finds |
| Session.RemoveAt | repos/WpfApp2/WpfApp2/MainWindow.xaml.cs:144 | removing one target leaves the others in their order, one fewer |
| Session.Survivors | repos/WpfApp2/WpfApp2/MainWindow.xaml.cs:135-149 | with no overlap the targets are unchanged; with one, exactly the first overlapping target is gone and the others keep their order |
| Session.SurvivorsAreSubMultiset | repos/WpfApp2/WpfApp2/MainWindow.xaml.cs:135-149 | a check never duplicates or restores a target |
| Session.CheckCollisionWithPigs | repos/WpfApp2/WpfApp2/MainWindow.xaml.cs:133-167 | targets become the survivors of the displayed rectangle; flying is cleared iff something was hit; the victory count rises by one iff no target remains; nothing else changes |
| Session.Fly | repos/WpfApp2/WpfApp2/MainWindow.xaml.cs:76-87 | the physics step leaves the drag state, targets, victories and band anchoring alone; the bands stay as they were unless an auto-reset collapses them; if still flying, the projectile is not below the floor |
| Session.OnTimerTick | repos/WpfApp2/WpfApp2/MainWindow.xaml.cs:72-92 | a tick off flight is a no-op; in flight the display ends centred on the position, targets are the survivors of one check, so at most one is removed and none added; victories never drop; drag state and band anchoring are kept; the bands either stay exactly as they were or (after an auto-reset) are collapsed on the pivot |
| Geometry.WithinRadius | repos/WpfApp2/WpfApp2/MainWindow.xaml.cs:172-173 | for non-negative lengths, distance ≤ radius iff squared distance ≤ radius² |
| SessionProperties.PressHitsWithinRadius | repos/WpfApp2/WpfApp2/MainWindow.xaml.cs:170-174 | a left press starts a drag iff the pointer's distance to the projectile centre is at most half its width |
| SessionProperties.PressOnCentreStartsDrag | repos/WpfApp2/WpfApp2/MainWindow.xaml.cs:38-46 | a press at the projectile's centre always starts a drag and only records the drag start |
| SessionProperties.DragDuringFlight | repos/WpfApp2/WpfApp2/MainWindow.xaml.cs:38-46 | a press on the flying projectile leaves it dragging and flying at once |
| SessionProperties.ZeroPullLaunchesAtRest | repos/WpfApp2/WpfApp2/MainWindow.xaml.cs:60-69 | press and release at the same point on the projectile launch it in place with zero velocity |
| SessionProperties.ResetThenZeroPull | repos/WpfApp2/WpfApp2/MainWindow.xaml.cs:177-184 | reset followed by a press and release at the pivot leaves the projectile on the pivot, zero velocity, bands collapsed, flying, targets and victories unchanged |
| SessionProperties.LaunchExample | repos/WpfApp2/WpfApp2/MainWindow.xaml.cs:66 | a pull from (100, 300) released at (80, 280) launches at (6, 6) |
| SessionProperties.TickInAir | repos/WpfApp2/WpfApp2/MainWindow.xaml.cs:76-77 | above the floor a tick adds the velocity to the position and 0.8 to the vertical velocity, then checks the stale displayed rectangle; the bands are untouched |
| SessionProperties.TickBounces | repos/WpfApp2/WpfApp2/MainWindow.xaml.cs:80-83 | past the floor the projectile sits on the floor and the vertical velocity becomes −(vy + 0.8) · 0.2; the check runs on the stale displayed rectangle and the bands are untouched |
| SessionProperties.TickAutoResets | repos/WpfApp2/WpfApp2/MainWindow.xaml.cs:84-90 | a bounce leaving less than 1 of vertical speed puts the projectile on the pivot at rest with bands collapsed, and the check of that tick uses the pivot's rectangle |
| SessionProperties.BounceExample | repos/WpfApp2/WpfApp2/MainWindow.xaml.cs:83 | a bounce at vertical speed 10 leaves −2 |
| SessionProperties.TickVictory | repos/WpfApp2/WpfApp2/MainWindow.xaml.cs:152-166 | a tick raises the victory message iff it is in flight and no target remains after its check |
| SessionProperties.VictoryRepeatsWhileEmpty | repos/WpfApp2/WpfApp2/MainWindow.xaml.cs:152-166 | with no target left, each tick of a flight raises the victory message again |
| SessionProperties.StepMonotone | repos/WpfApp2/WpfApp2/MainWindow.xaml.cs:38-92 | one event never adds a target or lowers the victory count; pointer events leave both untouched; band anchoring is kept |
| SessionProperties.RunMonotone | repos/WpfApp2/WpfApp2/MainWindow.xaml.cs:38-167 | over any run of events the remaining targets are a sub-multiset of the initial ones, never more, victories never drop, and anchored bands stay anchored |
| SessionProperties.PointerRunKeepsTargets | repos/WpfApp2/WpfApp2/MainWindow.xaml.cs:38-69 | a run of pointer events only never touches the targets or the victory count |
| SessionProperties.FlightStep | repos/WpfApp2/WpfApp2/MainWindow.xaml.cs:76-77 | one Euler step with gravity moves the closed-form position and velocity on by one tick |
| SessionProperties.TrajectoryIsParabola | repos/WpfApp2/WpfApp2/MainWindow.xaml.cs:76-77 | n Euler steps under gravity 0.8 land on p + n·v + (0, 0.8·n(n−1)/2) with velocity v + (0, 0.8·n) |
| SessionProperties.ClearTickStep | repos/WpfApp2/WpfApp2/MainWindow.xaml.cs:74-91 | a flying tick that stays above the floor and hits nothing moves by the Euler step, redisplays, keeps the targets and counts a victory only if none are left |
| SessionProperties.FreeFlightSteps | repos/WpfApp2/WpfApp2/MainWindow.xaml.cs:74-91 | n ticks that stay above the floor and hit nothing follow the Euler trajectory, stay in flight and keep the targets |
| SessionProperties.FreeFlight | repos/WpfApp2/WpfApp2/MainWindow.xaml.cs:74-91 | n such ticks follow the closed-form parabola |

## Left out

- The `DispatcherTimer` and its 16 ms period (lines 31-33): a tick is a method call, and `Ticks`/`Run` sequence them.
- `MessageBox.Show` (line 165): each victory message adds one to a counter.
- WPF rendering objects (`Canvas.SetLeft/SetTop/GetLeft`, `Line.X1…Y2`): only their values are model fields.
- XAML sizes and `GameCanvas.ActualHeight`: constructor parameters, fixed for the session. A window resize that changes the height between ticks is not modelled.
- The type test on `GameCanvas.Children` (an `Ellipse` other than the projectile) is replaced by an explicit target sequence in canvas order. Other children of the canvas are not modelled.
- `Rect.IntersectsWith` is library code that the file does not show: its behaviour is assumed to be the closed-interval overlap in `Geometry.Intersects`. `Rect`'s exception on negative sizes is not modelled.
- IEEE double rounding and the square root in `Vector.Length`: coordinates are exact reals, and the hit test compares squared distances.
- Event dispatch, modal-dialog message pumping and threading: handlers run one at a time, to completion.
