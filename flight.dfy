/**
 * The vertical motion of one balloon: the per-frame position update (rise by
 * SPEED, or stay put and flag for removal once the next position would be
 * above OFFSCREEN) and the frame throttle (a frame counts only when FRAME_MS
 * or more have passed since the last counted one). Positions and timestamps
 * are integers; the horizontal jitter is not modelled.
 */
module Flight {

  /** Pixels a balloon rises per counted frame. */
  const SPEED: int := 2

  /** The lowest vertical position a balloon may move to; beyond it, it is flagged for removal. */
  const OFFSCREEN: int := -100

  /** Minimum milliseconds between two counted frames (about 60 per second). */
  const FRAME_MS: int := 16

  /** The outcome of one position update: the new vertical position and whether removal was flagged. */
  datatype Step = Step(y: int, remove: bool)

  /** The position updater. */
  function VerticalStep(y: int): (r: Step)
    ensures r.remove <==> y - SPEED < OFFSCREEN
    ensures r.y == if r.remove then y else y - SPEED
  {
    var newY := y - SPEED;
    if newY < OFFSCREEN then Step(y, true) else Step(newY, false)
  }

  /** Whether a frame at `now` passes the throttle, the last counted frame having been at `last`. */
  predicate Accepts(last: int, now: int) {
    now - last >= FRAME_MS
  }

  /** The per-balloon animation state: position, time of the last counted frame, removal flag. */
  datatype Motion = Motion(y: int, lastTime: int, shouldRemove: bool)

  /** One animation-frame callback at time `now`. */
  function Tick(m: Motion, now: int): (r: Motion)
    ensures r.y <= m.y
    ensures !Accepts(m.lastTime, now) ==> r == m
    ensures Accepts(m.lastTime, now) ==> r.lastTime == now && r.y == VerticalStep(m.y).y
    ensures m.shouldRemove ==> r.shouldRemove
  {
    if Accepts(m.lastTime, now) then
      var s := VerticalStep(m.y);
      Motion(s.y, now, m.shouldRemove || s.remove)
    else m
  }

  /** The state after the animation-frame callbacks at `times`, in order. */
  function Frames(m: Motion, times: seq<int>): Motion
    decreases |times|
  {
    if times == [] then m else Frames(Tick(m, times[0]), times[1..])
  }

  /** The frame times the throttle lets through, starting after a counted frame at `last`. */
  function Throttled(last: int, times: seq<int>): (r: seq<int>)
    ensures |r| <= |times|
    ensures forall i :: 0 <= i < |r| ==> r[i] in times
    ensures |r| > 0 ==> r[0] - last >= FRAME_MS
    ensures times != [] && Accepts(last, times[0]) ==> |r| > 0 && r[0] == times[0]
    ensures forall i :: 0 < i < |r| ==> r[i] - r[i - 1] >= FRAME_MS
    decreases |times|
  {
    if times == [] then []
    else if Accepts(last, times[0]) then [times[0]] + Throttled(times[0], times[1..])
    else Throttled(last, times[1..])
  }

  /** `n` counted frames in a row from position `y`: the position reached and whether removal was flagged. */
  function Descend(y: int, n: nat): Step
    decreases n
  {
    if n == 0 then Step(y, false)
    else
      var s := VerticalStep(y);
      var rest := Descend(s.y, n - 1);
      Step(rest.y, s.remove || rest.remove)
  }

  /** How many more frames a balloon at `y` can rise before it is flagged. */
  function MovesLeft(y: int): nat {
    if y - SPEED < OFFSCREEN then 0 else (y - SPEED - OFFSCREEN) / SPEED + 1
  }

  function Min(a: int, b: int): int {
    if a <= b then a else b
  }

  /**
   * Closed form of the descent: a balloon rises by exactly SPEED per counted frame for
   * MovesLeft(y) frames, never past OFFSCREEN, and is flagged exactly when more frames follow.
   */
  lemma {:induction false} DescendClosedForm(y: int, n: nat)
    requires y >= OFFSCREEN
    ensures Descend(y, n).y == y - SPEED * Min(n, MovesLeft(y))
    ensures Descend(y, n).remove <==> n > MovesLeft(y)
    ensures Descend(y, n).y >= OFFSCREEN
    decreases n
  {
    if n > 0 {
      var s := VerticalStep(y);
      if !s.remove {
        assert MovesLeft(s.y) == MovesLeft(y) - 1;
      }
      DescendClosedForm(s.y, n - 1);
    }
  }

  /** Once flagged, a balloon stays where it is and stays flagged on every later frame. */
  lemma {:induction false} FlaggedStaysPut(m: Motion, times: seq<int>)
    requires m.shouldRemove && m.y - SPEED < OFFSCREEN
    ensures Frames(m, times).y == m.y && Frames(m, times).shouldRemove
    decreases |times|
  {
    if times != [] {
      FlaggedStaysPut(Tick(m, times[0]), times[1..]);
    }
  }

  /**
   * The position after any sequence of animation frames depends only on how many of them the
   * throttle let through; the removal flag is set exactly when the descent flagged it (or was set before).
   */
  lemma {:induction false} FramesFollowThrottle(m: Motion, times: seq<int>)
    ensures Frames(m, times).y == Descend(m.y, |Throttled(m.lastTime, times)|).y
    ensures Frames(m, times).shouldRemove ==
      (m.shouldRemove || Descend(m.y, |Throttled(m.lastTime, times)|).remove)
    decreases |times|
  {
    if times != [] {
      var m' := Tick(m, times[0]);
      FramesFollowThrottle(m', times[1..]);
    }
  }
}
