/**
 * The pan camera of the board (static/app.js, animate, recenter, onWheel and
 * movePan): the per-frame arithmetic on the desired pan `target`, the rendered
 * pan `view` and the inertial velocity. JavaScript numbers are exact reals here.
 */
module Camera {

  /** Inertia decay per frame. */
  const FRICTION: real := 0.9
  /** Pan smoothing factor. */
  const LERP: real := 0.14
  /** A velocity component below this, after decay, snaps to zero. */
  const SNAP: real := 0.01
  /** movePan's velocity estimate: the drag offset times this. */
  const DRAG_VELOCITY: real := 0.08
  /** onWheel's impulse: the wheel delta times `factor` (0.9) times 0.02. */
  const WHEEL_SCALE: real := 0.9 * 0.02

  function Abs(x: real): real
  {
    if x < 0.0 then -x else x
  }

  /** One frame of inertia decay on one axis: multiply by FRICTION, snap to zero below SNAP. */
  function Decay(v: real): (r: real)
    ensures Abs(r) <= FRICTION * Abs(v)
    ensures r != 0.0 ==> Abs(r) >= SNAP && (r < 0.0 <==> v < 0.0)
  {
    var w := v * FRICTION;
    if Abs(w) < SNAP then 0.0 else w
  }

  /** One frame of smoothing on one axis: the view moves LERP of the way to the target. */
  function Smooth(view: real, target: real): (r: real)
    ensures target - r == (1.0 - LERP) * (target - view)
    ensures view <= target ==> view <= r <= target
    ensures target <= view ==> target <= r <= view
    ensures view != target ==> Abs(target - r) < Abs(target - view)
  {
    view + (target - view) * LERP
  }

  /** The velocity after `n` frames of free coasting. */
  function Coast(v: real, n: nat): real
    decreases n
  {
    if n == 0 then v else Coast(Decay(v), n - 1)
  }

  /** A velocity already at zero stays there. */
  lemma {:induction false} CoastFromZero(n: nat)
    ensures Coast(0.0, n) == 0.0
  {
    if n > 0 {
      CoastFromZero(n - 1);
    }
  }

  /**
   * Because of the snap to zero, coasting stops: a velocity of magnitude at
   * most n / 1000 is exactly zero after n + 1 frames.
   */
  lemma {:induction false} CoastStops(v: real, n: nat)
    requires Abs(v) <= n as real / 1000.0
    ensures Coast(v, n + 1) == 0.0
    decreases n
  {
    var w := Decay(v);
    if w == 0.0 {
      CoastFromZero(n);
    } else {
      // a velocity that survives the snap lost a tenth of at least SNAP / FRICTION
      assert Abs(w) == FRICTION * Abs(v);
      assert Abs(v) >= SNAP / FRICTION;
      assert n > 0;
      CoastStops(w, n - 1);
    }
  }
}
