/**
 * One Balloon component: its position and throttle state (advanced by the
 * animation-frame callback), and its three flags. A click sets exploding and
 * arms a 500 ms timer; the timer sets popped and calls onPop(id, true); the
 * removal flag, once set by the motion, makes the effect call onPop(id).
 * Each callback firing is a method call; the calls to onPop are returned as
 * PopRequest values for the App to handle.
 */
module BalloonComponent {
  import opened BalloonList
  import opened Flight

  datatype Option<T> = None | Some(value: T)

  /** A call onPop(id, isSound). */
  datatype PopRequest = PopRequest(id: int, isSound: bool)

  /** What a live balloon renders: its vertical position, colour, content and whether it is exploding. */
  datatype View = View(top: int, color: string, content: string, exploding: bool)

  /** Vertical start position: 50 pixels below a window of the given inner height. */
  function StartY(innerHeight: nat): (y: int)
    ensures y > innerHeight && y >= OFFSCREEN
  {
    innerHeight + 50
  }

  class Balloon {
    const id: nat
    const color: string
    const content: string
    var y: int
    var lastTime: int
    var shouldRemove: bool
    var isExploding: bool
    var isPopped: bool
    /** Click timers armed and not yet fired. */
    var pendingPops: nat

    /**
     * The balloon never rises past OFFSCREEN, is flagged only once it cannot rise further,
     * and is popped, or awaits a pop, only after a click set exploding.
     */
    ghost predicate Valid()
      reads this
    {
      && y >= OFFSCREEN
      && (shouldRemove ==> y - SPEED < OFFSCREEN)
      && (isPopped ==> isExploding)
      && (pendingPops > 0 ==> isExploding)
    }

    function CurrentMotion(): Motion
      reads this
    {
      Motion(y, lastTime, shouldRemove)
    }

    /** Mounting the component for a record of the App's list. */
    constructor (rec: BalloonRecord, innerHeight: nat)
      ensures Valid()
      ensures id == rec.id && color == rec.color && content == rec.content
      ensures CurrentMotion() == Motion(StartY(innerHeight), 0, false)
      ensures !isExploding && !isPopped && pendingPops == 0
    {
      id, color, content := rec.id, rec.color, rec.content;
      y, lastTime, shouldRemove := StartY(innerHeight), 0, false;
      isExploding, isPopped, pendingPops := false, false, 0;
    }

    /** The animation-frame callback at `currentTime`: throttled vertical step. */
    method Animate(currentTime: int)
      requires Valid()
      modifies this
      ensures Valid()
      ensures CurrentMotion() == Tick(old(CurrentMotion()), currentTime)
      ensures isExploding == old(isExploding) && isPopped == old(isPopped)
      ensures pendingPops == old(pendingPops)
    {
      if currentTime - lastTime >= FRAME_MS {
        var s := VerticalStep(y);
        y := s.y;
        if s.remove {
          shouldRemove := true;
        }
        lastTime := currentTime;
      }
    }

    /** A click on the rendered balloon: exploding is set and one more 500 ms timer is armed. */
    method HandleClick()
      requires Valid() && !isPopped
      modifies this
      ensures Valid()
      ensures isExploding && pendingPops == old(pendingPops) + 1
      ensures isPopped == old(isPopped) && CurrentMotion() == old(CurrentMotion())
    {
      isExploding := true;
      pendingPops := pendingPops + 1;
    }

    /** An armed click timer fires: popped is set and onPop(id, true) is called. */
    method PopTimeout() returns (req: PopRequest)
      requires Valid() && pendingPops > 0
      modifies this
      ensures Valid()
      ensures req == PopRequest(id, true)
      ensures isPopped && isExploding && pendingPops == old(pendingPops) - 1
      ensures CurrentMotion() == old(CurrentMotion())
    {
      isPopped := true;
      pendingPops := pendingPops - 1;
      req := PopRequest(id, true);
    }

    /** The removal effect: calls onPop(id), without sound, exactly when the removal flag is set. */
    method RemovalEffect() returns (req: Option<PopRequest>)
      requires Valid()
      ensures req.Some? <==> shouldRemove
      ensures req.Some? ==> req.value == PopRequest(id, false)
    {
      if shouldRemove {
        req := Some(PopRequest(id, false));
      } else {
        req := None;
      }
    }

    /** What the component renders: nothing once popped, otherwise the balloon at its position. */
    function Render(): (v: Option<View>)
      reads this
      ensures v.None? <==> isPopped
      ensures v.Some? ==> v.value.top == y && v.value.exploding == isExploding
      ensures v.Some? ==> v.value.color == color && v.value.content == content
    {
      if isPopped then None else Some(View(y, color, content, isExploding))
    }
  }

  /**
   * Two clicks inside the 500 ms window arm two timers, so onPop(id, true) reaches the App
   * twice for one balloon; BalloonList.LatePopNoop shows the second call leaves the list alone,
   * whatever the App did in between.
   */
  method DoubleClick(rec: BalloonRecord, innerHeight: nat) returns (first: PopRequest, second: PopRequest)
    ensures first == second == PopRequest(rec.id, true)
  {
    var b := new Balloon(rec, innerHeight);
    b.HandleClick();
    b.HandleClick();
    first := b.PopTimeout();
    second := b.PopTimeout();
  }
}
