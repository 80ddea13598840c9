/** The game window: the projectile's state, the slingshot bands and the
    targets as fields that the event handlers update in place. Each handler
    is proved to produce the state that the matching function of module
    Session computes from the old state. */
module Game {
  import opened Geometry
  import Session

  class MainWindow {
    /** Projectile width and height, and the canvas height (layout sizes). */
    const width: real
    const height: real
    const canvasHeight: real

    var position: Point
    var dragStart: Point
    var velocity: Vector
    var isDragging: bool
    var isFlying: bool
    /** Top-left corner at which the projectile is displayed. */
    var shown: Point
    var leftBand: Line
    var rightBand: Line
    /** Bounding boxes of the targets still on the canvas, in canvas order. */
    var pigs: seq<Rect>
    /** How many times the victory message has been shown. */
    var victories: nat

    function Config(): Session.Config
    {
      Session.Config(width, height, canvasHeight)
    }

    /** The abstract value of the window. */
    function State(): Session.State
      reads this
    {
      Session.State(position, velocity, dragStart, isDragging, isFlying,
                    shown, leftBand, rightBand, pigs, victories)
    }

    /** Builds the window from its layout (projectile size, canvas height,
        target boxes and the bands as drawn) and puts the projectile on the
        pivot. */
    constructor (width: real, height: real, canvasHeight: real,
                 pigs: seq<Rect>, leftBand: Line, rightBand: Line)
      requires width >= 0.0 && height >= 0.0
      ensures Config() == Session.Config(width, height, canvasHeight)
      ensures State() == Session.Initial(Config(), pigs, leftBand, rightBand)
    {
      this.width := width;
      this.height := height;
      this.canvasHeight := canvasHeight;
      this.pigs := pigs;
      this.leftBand := leftBand;
      this.rightBand := rightBand;
      velocity := Vector(0.0, 0.0);
      dragStart := Point(0.0, 0.0);
      isDragging := false;
      isFlying := false;
      victories := 0;
      new;
      position := Session.Anchor;
      UpdateProjectilePosition();
    }

    method UpdateProjectilePosition()
      modifies this
      ensures State() == Session.UpdateProjectilePosition(Config(), old(State()))
    {
      shown := Point(position.x - width / 2.0, position.y - height / 2.0);
    }

    method SetSlingshotBands(center: Point)
      modifies this
      ensures State() == Session.SetSlingshotBands(old(State()), center)
    {
      leftBand := Line(Point(Session.Anchor.x - Session.SlingshotLength, Session.Anchor.y), center);
      rightBand := Line(Point(Session.Anchor.x + Session.SlingshotLength, Session.Anchor.y), center);
    }

    method HideSlingshot()
      modifies this
      ensures State() == Session.HideSlingshot(old(State()))
    {
      SetSlingshotBands(Session.Anchor);
    }

    method UpdateSlingshot()
      modifies this
      ensures State() == Session.UpdateSlingshot(old(State()))
    {
      if isDragging {
        SetSlingshotBands(position);
      } else {
        HideSlingshot();
      }
    }

    method ResetProjectile()
      modifies this
      ensures State() == Session.ResetProjectile(Config(), old(State()))
    {
      position := Session.Anchor;
      velocity := Vector(0.0, 0.0);
      isFlying := false;
      UpdateProjectilePosition();
      HideSlingshot();
    }

    method MouseDown(p: Point, leftPressed: bool)
      modifies this
      ensures State() == Session.MouseDown(Config(), old(State()), p, leftPressed)
    {
      if leftPressed {
        isDragging := Session.IsInsideProjectile(Config(), position, p);
        dragStart := p;
        if !isDragging {
          ResetProjectile();
        }
      }
    }

    method MouseMove(p: Point)
      modifies this
      ensures State() == Session.MouseMove(Config(), old(State()), p)
    {
      if isDragging {
        position := p;
        UpdateProjectilePosition();
        UpdateSlingshot();
      }
    }

    method MouseUp(p: Point)
      modifies this
      ensures State() == Session.MouseUp(old(State()), p)
      ensures old(isDragging) ==> velocity == Scale(Diff(old(dragStart), p), Session.SpeedFactor)
    {
      if isDragging {
        isDragging := false;
        isFlying := true;
        velocity := Scale(Diff(dragStart, p), Session.SpeedFactor);
        HideSlingshot();
      }
    }

    method OnTimerTick()
      modifies this
      ensures State() == Session.OnTimerTick(Config(), old(State()))
      ensures old(isFlying) ==> shown == Session.ShownAt(Config(), position)
    {
      if isFlying {
        position := Translate(position, velocity);
        velocity := velocity.(dy := velocity.dy + Session.Gravity);
        if position.y > Config().Floor() {
          position := position.(y := Config().Floor());
          velocity := velocity.(dy := -velocity.dy * Session.GroundFriction);
          if Abs(velocity.dy) < 1.0 {
            ResetProjectile();
          }
        }
        assert State() == Session.Fly(Config(), old(State()));
        CheckCollisionWithPigs();
        UpdateProjectilePosition();
      }
    }

    /** Removes the first target that overlaps the displayed projectile and
        stops the flight; then raises the victory message if none is left. */
    method CheckCollisionWithPigs()
      modifies this
      ensures State() == Session.CheckCollisionWithPigs(Config(), old(State()))
    {
      ghost var before := State();
      var box := Rect(shown.x, shown.y, width, height);
      assert box == Session.ProjectileRect(Config(), before);
      var i := 0;
      while i < |pigs|
        invariant i <= |pigs| && State() == before
        invariant forall j :: 0 <= j < i ==> !Intersects(pigs[j], box)
      {
        if Intersects(pigs[i], box) {
          Session.FirstHitAt(pigs, box, i);
          pigs := Session.RemoveAt(pigs, i);
          isFlying := false;
          break;
        }
        i := i + 1;
      }
      assert State() == before.(pigs := Session.Survivors(before.pigs, box),
                                flying := before.flying && Session.FirstHit(before.pigs, box).None?);
      // The second scan of the canvas stops at the first target it meets,
      // so it only asks whether any target is left.
      var pigsRemaining := |pigs| > 0;
      if !pigsRemaining {
        victories := victories + 1;
      }
    }
  }
}
