/**
 * The balloon bookkeeping of the App component, as values: the balloon
 * records, the palettes a new record is drawn from, the cap on the number of
 * live balloons, and the three updates the component applies to its state
 * (add, pop by id, clear). The class in app.dfy is proved against these.
 */
module BalloonList {

  /** Hard cap on the number of live balloons. */
  const MAX_BALLOONS: nat := 15

  /** Most balloons one press of the "add" button creates (first argument of the min). */
  const BATCH: nat := 1

  const COLORS: seq<string> :=
    ["#FF6B6B", "#4ECDC4", "#45B7D1", "#96CEB4", "#FFEAA7", "#DDA0DD", "#98D8C8"]

  /** Four glyphs and one image path. */
  const CONTENTS: seq<string> :=
    ["\U{1F388}", "\U{1F389}", "\U{1F38A}", "\U{1F381}", "./tam.jpg"]

  const POINTS: seq<int> := [10, 20, 30, 40, 50, 60, 70, 80, 90, 100]

  /** The three random draws behind one new balloon, as indices into the palettes. */
  datatype Pick = Pick(color: nat, content: nat, points: nat)

  predicate ValidPick(p: Pick) {
    p.color < |COLORS| && p.content < |CONTENTS| && p.points < |POINTS|
  }

  predicate ValidPicks(picks: seq<Pick>) {
    forall i :: 0 <= i < |picks| ==> ValidPick(picks[i])
  }

  datatype BalloonRecord = BalloonRecord(id: nat, color: string, content: string, points: int)

  /** The record pushed for identifier `id` and the draws `p`. */
  function MakeRecord(id: nat, p: Pick): (r: BalloonRecord)
    requires ValidPick(p)
    ensures r.id == id
    ensures r.color in COLORS && r.content in CONTENTS && r.points in POINTS
  {
    BalloonRecord(id, COLORS[p.color], CONTENTS[p.content], POINTS[p.points])
  }

  /** How many balloons an accepted add creates: min(BATCH, MAX_BALLOONS - len). */
  function BatchSize(len: nat): (n: int)
    requires len < MAX_BALLOONS
    ensures n == 1 && len + n <= MAX_BALLOONS
  {
    var room: int := MAX_BALLOONS - len;
    if BATCH <= room then BATCH else room
  }

  /** The records the add loop pushes, the i-th one with identifier start + i. */
  function NewBatch(start: nat, picks: seq<Pick>): (r: seq<BalloonRecord>)
    requires ValidPicks(picks)
    ensures |r| == |picks|
    ensures forall i :: 0 <= i < |r| ==> r[i] == MakeRecord(start + i, picks[i])
  {
    if picks == [] then []
    else NewBatch(start, picks[..|picks| - 1]) + [MakeRecord(start + |picks| - 1, picks[|picks| - 1])]
  }

  /** The list with every balloon whose identifier is `id` filtered out, order kept. */
  function Without(s: seq<BalloonRecord>, id: int): (r: seq<BalloonRecord>)
    ensures |r| <= |s|
    ensures forall x :: x in r <==> x in s && x.id != id
  {
    if s == [] then []
    else if s[0].id != id then [s[0]] + Without(s[1..], id)
    else Without(s[1..], id)
  }

  predicate HasId(s: seq<BalloonRecord>, id: int) {
    exists x :: x in s && x.id == id
  }

  predicate UniqueIds(s: seq<BalloonRecord>) {
    forall i, j :: 0 <= i < j < |s| ==> s[i].id != s[j].id
  }

  predicate IdsBelow(s: seq<BalloonRecord>, bound: nat) {
    forall x :: x in s ==> x.id < bound
  }

  /** The state of the App component: its balloon list and its id counter. */
  datatype Board = Board(balloons: seq<BalloonRecord>, nextId: nat)

  /** The state the component starts in. */
  const INITIAL: Board := Board([], 1)

  /** What every reachable state satisfies: under the cap, ids distinct and all below nextId. */
  predicate Inv(b: Board) {
    |b.balloons| <= MAX_BALLOONS && UniqueIds(b.balloons) && IdsBelow(b.balloons, b.nextId)
  }

  /** One press of "add": rejected when full, otherwise fresh records appended and nextId advanced. */
  function AddStep(b: Board, picks: seq<Pick>): (r: Board)
    requires |picks| == BATCH && ValidPicks(picks)
    ensures |b.balloons| >= MAX_BALLOONS ==> r == b
    ensures |b.balloons| < MAX_BALLOONS ==>
      r.balloons == b.balloons + [MakeRecord(b.nextId, picks[0])] && r.nextId == b.nextId + 1
  {
    if |b.balloons| >= MAX_BALLOONS then b
    else
      var n := BatchSize(|b.balloons|);
      Board(b.balloons + NewBatch(b.nextId, picks[..n]), b.nextId + n)
  }

  /** onPop(id): the filter on the list; nextId untouched. */
  function PopStep(b: Board, id: int): (r: Board)
    ensures r.balloons == Without(b.balloons, id) && r.nextId == b.nextId
  {
    Board(Without(b.balloons, id), b.nextId)
  }

  /** The "clear all" button: the list emptied, nextId kept. */
  function ClearStep(b: Board): (r: Board)
    ensures r.balloons == [] && r.nextId == b.nextId
  {
    Board([], b.nextId)
  }

  datatype Action = Add(picks: seq<Pick>) | Pop(id: int) | Clear

  predicate ValidAction(a: Action) {
    a.Add? ==> |a.picks| == BATCH && ValidPicks(a.picks)
  }

  predicate ValidActions(acts: seq<Action>) {
    forall i :: 0 <= i < |acts| ==> ValidAction(acts[i])
  }

  function Apply(b: Board, a: Action): Board
    requires ValidAction(a)
  {
    match a
    case Add(picks) => AddStep(b, picks)
    case Pop(id) => PopStep(b, id)
    case Clear => ClearStep(b)
  }

  /** The state after handling `acts` in order, starting from `b`. */
  function Replay(b: Board, acts: seq<Action>): Board
    requires ValidActions(acts)
    decreases |acts|
  {
    if acts == [] then b else Replay(Apply(b, acts[0]), acts[1..])
  }

  // ---------------------------------------------------------------------------
  // The filter

  /** Filtering distributes over concatenation: the kept balloons stay in their order. */
  lemma {:induction false} WithoutConcat(a: seq<BalloonRecord>, b: seq<BalloonRecord>, id: int)
    ensures Without(a + b, id) == Without(a, id) + Without(b, id)
  {
    if a == [] {
      assert a + b == b;
    } else {
      assert (a + b)[0] == a[0];
      assert (a + b)[1..] == a[1..] + b;
      WithoutConcat(a[1..], b, id);
    }
  }

  /** Popping an identifier no balloon carries changes nothing. */
  lemma {:induction false} WithoutAbsent(s: seq<BalloonRecord>, id: int)
    requires !HasId(s, id)
    ensures Without(s, id) == s
  {
    if s != [] {
      assert s[0] in s;
      assert !HasId(s[1..], id) by {
        forall x | x in s[1..] ensures x.id != id {
          assert x in s;
        }
      }
      WithoutAbsent(s[1..], id);
    }
  }

  /** Popping the same identifier twice is popping it once. */
  lemma {:induction false} WithoutIdempotent(s: seq<BalloonRecord>, id: int)
    ensures Without(Without(s, id), id) == Without(s, id)
  {
    WithoutAbsent(Without(s, id), id);
  }

  lemma UniqueTail(s: seq<BalloonRecord>)
    requires s != [] && UniqueIds(s)
    ensures UniqueIds(s[1..]) && !HasId(s[1..], s[0].id)
  {
  }

  lemma UniqueCons(x: BalloonRecord, t: seq<BalloonRecord>)
    requires UniqueIds(t) && !HasId(t, x.id)
    ensures UniqueIds([x] + t)
  {
  }

  /** The filter keeps identifiers distinct. */
  lemma {:induction false} WithoutKeepsUnique(s: seq<BalloonRecord>, id: int)
    requires UniqueIds(s)
    ensures UniqueIds(Without(s, id))
  {
    if s != [] {
      UniqueTail(s);
      WithoutKeepsUnique(s[1..], id);
      if s[0].id != id {
        assert !HasId(Without(s[1..], id), s[0].id);
        UniqueCons(s[0], Without(s[1..], id));
      }
    }
  }

  /** With distinct identifiers, popping a present one removes exactly one balloon. */
  lemma {:induction false} WithoutPresentRemovesOne(s: seq<BalloonRecord>, id: int)
    requires UniqueIds(s) && HasId(s, id)
    ensures |Without(s, id)| == |s| - 1
  {
    UniqueTail(s);
    if s[0].id == id {
      WithoutAbsent(s[1..], id);
    } else {
      var x :| x in s && x.id == id;
      assert x in s[1..] by {
        assert x != s[0];
      }
      WithoutPresentRemovesOne(s[1..], id);
    }
  }

  // ---------------------------------------------------------------------------
  // The three updates

  /** An accepted add appends one record whose id is the old nextId, above every id already used. */
  lemma AddStepKeepsInv(b: Board, picks: seq<Pick>)
    requires Inv(b) && |picks| == BATCH && ValidPicks(picks)
    ensures Inv(AddStep(b, picks))
    ensures AddStep(b, picks).nextId >= b.nextId
    ensures forall x :: x in AddStep(b, picks).balloons ==> x in b.balloons || x.id >= b.nextId
  {
  }

  /** Popping keeps the invariant and changes nothing but the list. */
  lemma PopStepKeepsInv(b: Board, id: int)
    requires Inv(b)
    ensures Inv(PopStep(b, id)) && PopStep(b, id).nextId == b.nextId
    ensures forall x :: x in PopStep(b, id).balloons ==> x in b.balloons
  {
    WithoutKeepsUnique(b.balloons, id);
  }

  /**
   * Popping `id` removes exactly the balloons carrying it; an absent id is a no-op;
   * a second pop of the same id straight after the first changes nothing.
   */
  lemma PopStepExact(b: Board, id: int)
    ensures forall x :: x in PopStep(b, id).balloons <==> x in b.balloons && x.id != id
    ensures !HasId(b.balloons, id) ==> PopStep(b, id) == b
    ensures PopStep(PopStep(b, id), id) == PopStep(b, id)
    ensures Inv(b) && HasId(b.balloons, id) ==> |PopStep(b, id).balloons| == |b.balloons| - 1
  {
    if !HasId(b.balloons, id) {
      WithoutAbsent(b.balloons, id);
    }
    WithoutIdempotent(b.balloons, id);
    if Inv(b) && HasId(b.balloons, id) {
      WithoutPresentRemovesOne(b.balloons, id);
    }
  }

  /** Every update keeps the invariant, never lowers nextId and only ever introduces ids at or above it. */
  lemma ApplyKeepsInv(b: Board, a: Action)
    requires Inv(b) && ValidAction(a)
    ensures Inv(Apply(b, a)) && Apply(b, a).nextId >= b.nextId
    ensures forall x :: x in Apply(b, a).balloons ==> x in b.balloons || x.id >= b.nextId
  {
    match a
    case Add(picks) => AddStepKeepsInv(b, picks);
    case Pop(id) => PopStepKeepsInv(b, id);
    case Clear =>
  }

  /**
   * Across any sequence of add, pop and clear: the count stays within MAX_BALLOONS, ids stay
   * distinct and below nextId, and every balloon not already present carries an id at or above
   * the starting nextId, so no id handed out before (even before a clear) is ever reused.
   */
  lemma {:induction false} ReplayKeepsInv(b: Board, acts: seq<Action>)
    requires Inv(b) && ValidActions(acts)
    ensures Inv(Replay(b, acts)) && Replay(b, acts).nextId >= b.nextId
    ensures forall x :: x in Replay(b, acts).balloons ==> x in b.balloons || x.id >= b.nextId
    decreases |acts|
  {
    if acts != [] {
      var b' := Apply(b, acts[0]);
      ApplyKeepsInv(b, acts[0]);
      assert ValidActions(acts[1..]) by {
        forall i | 0 <= i < |acts[1..]| ensures ValidAction(acts[1..][i]) {
          assert acts[1..][i] == acts[i + 1];
        }
      }
      ReplayKeepsInv(b', acts[1..]);
    }
  }

  /**
   * A late second pop of an id that was already handed out changes nothing, whatever adds,
   * pops and clears ran between the two pops: no balloon can carry that id any more. This is
   * the case of the click timer firing after the balloon was already removed (or of two timers
   * armed by two clicks).
   */
  lemma LatePopNoop(b: Board, id: int, acts: seq<Action>)
    requires Inv(b) && id < b.nextId && ValidActions(acts)
    ensures PopStep(Replay(PopStep(b, id), acts), id) == Replay(PopStep(b, id), acts)
  {
    var b' := PopStep(b, id);
    PopStepKeepsInv(b, id);
    PopStepExact(b, id);
    ReplayKeepsInv(b', acts);
    var r := Replay(b', acts);
    assert !HasId(r.balloons, id) by {
      forall x | x in r.balloons ensures x.id != id {
        assert x in b'.balloons || x.id >= b'.nextId;
      }
    }
    PopStepExact(r, id);
  }

  /** From the initial state, every reachable state has at most MAX_BALLOONS balloons with distinct ids. */
  lemma ReachableBounded(acts: seq<Action>)
    requires ValidActions(acts)
    ensures |Replay(INITIAL, acts).balloons| <= MAX_BALLOONS
    ensures UniqueIds(Replay(INITIAL, acts).balloons)
  {
    ReplayKeepsInv(INITIAL, acts);
  }
}
