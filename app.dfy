/**
 * The App component's state and its three handlers, as a class whose fields
 * are the component's state variables. Each handler is proved to move the
 * state exactly as the matching step of BalloonList does, and to keep
 * BalloonList.Inv. Every handler is taken to see the committed state of the
 * previous one (one handler per event).
 */
module AppComponent {
  import opened BalloonList

  class App {
    var balloons: seq<BalloonRecord>
    var nextId: nat

    ghost predicate Valid()
      reads this
    {
      Inv(Board(balloons, nextId))
    }

    /** The component's state as a value. */
    function State(): Board
      reads this
    {
      Board(balloons, nextId)
    }

    /** Mounting: no balloons, and the first id to hand out is 1. */
    constructor ()
      ensures Valid() && State() == INITIAL
    {
      balloons := [];
      nextId := 1;
    }

    /**
     * The "add" button. `picks` are the random palette draws, one per possible loop
     * iteration. Returns false exactly when the list is full (the component shows an alert
     * and changes nothing).
     */
    method AddMoreBalloons(picks: seq<Pick>) returns (accepted: bool)
      requires Valid() && |picks| == BATCH && ValidPicks(picks)
      modifies this
      ensures Valid()
      ensures accepted <==> |old(balloons)| < MAX_BALLOONS
      ensures State() == AddStep(old(State()), picks)
    {
      AddStepKeepsInv(State(), picks);
      if |balloons| >= MAX_BALLOONS {
        return false;
      }
      var newBalloons: seq<BalloonRecord> := [];
      var toAdd := BatchSize(|balloons|);
      for i := 0 to toAdd
        invariant newBalloons == NewBatch(nextId, picks[..i])
      {
        assert picks[..i + 1][..i] == picks[..i];
        newBalloons := newBalloons + [MakeRecord(nextId + i, picks[i])];
      }
      balloons := balloons + newBalloons;
      nextId := nextId + toAdd;
      return true;
    }

    /** onPop(id, isSound): drop every balloon with that id; the pop sound is requested iff isSound. */
    method HandleBalloonPop(id: int, isSound: bool) returns (playSound: bool)
      requires Valid()
      modifies this
      ensures Valid()
      ensures State() == PopStep(old(State()), id)
      ensures playSound == isSound
    {
      PopStepKeepsInv(State(), id);
      balloons := Without(balloons, id);
      playSound := isSound;
    }

    /** The "clear all" button: empties the list and keeps nextId. */
    method ClearAllBalloons()
      requires Valid()
      modifies this
      ensures Valid()
      ensures State() == ClearStep(old(State()))
    {
      balloons := [];
    }

    /** The counter line: how many balloons there are, out of MAX_BALLOONS. */
    method Counter() returns (live: nat, cap: nat)
      requires Valid()
      ensures live == |balloons| && cap == MAX_BALLOONS && live <= cap
    {
      live, cap := |balloons|, MAX_BALLOONS;
    }
  }
}
