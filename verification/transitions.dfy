/**
 Transition generation: every ordered pair of distinct state positions is a
 candidate; the plausibility filter keeps the pairs whose inflow quantity,
 volume quantity and inflow derivative changes the successor predicates
 allow; the epsilon-ordering filter then drops the pairs that mix an
 instantaneous change with a gradual one.
 */
module Transitions {
  import opened Seqs
  import opened Domain
  import opened Successors
  import States

  /** A transition: positions (from, to) into the state sequence. */
  type Edge = (nat, nat)

  /** Lexicographic order on position pairs. */
  predicate LexBefore(a: Edge, b: Edge) {
    a.0 < b.0 || (a.0 == b.0 && a.1 < b.1)
  }

  /** The pairs (i, k) with j <= k < n and k != i, by ascending k. */
  function Row(i: nat, j: nat, n: nat): (r: seq<Edge>)
    ensures forall e :: e in r <==> e.0 == i && j <= e.1 < n && e.1 != i
    ensures Increasing(LexBefore, r)
    decreases n - j
  {
    if j >= n then []
    else
      var head: seq<Edge> := if j == i then [] else [(i, j)];
      var tail := Row(i, j + 1, n);
      IncreasingConcat(LexBefore, head, tail);
      head + tail
  }

  /** The rows i, i + 1, ..., n - 1, concatenated. */
  function Rows(i: nat, n: nat): (r: seq<Edge>)
    ensures forall e :: e in r <==> i <= e.0 < n && e.1 < n && e.0 != e.1
    ensures Increasing(LexBefore, r)
    decreases n - i
  {
    if i >= n then []
    else
      var row := Row(i, 0, n);
      var rest := Rows(i + 1, n);
      assert forall a, b :: 0 <= a < |row| && 0 <= b < |rest| ==> row[a].0 < rest[b].0 by {
        forall a, b | 0 <= a < |row| && 0 <= b < |rest|
          ensures row[a].0 < rest[b].0
        {
          assert row[a] in row && rest[b] in rest;
        }
      }
      IncreasingConcat(LexBefore, row, rest);
      row + rest
  }

  /**
   `itertools.permutations(range(n), 2)`: every ordered pair of distinct
   positions below `n`, each once, in lexicographic order.
   */
  function Permutations(n: nat): (r: seq<Edge>)
    ensures forall e :: e in r <==> e.0 < n && e.1 < n && e.0 != e.1
    ensures Increasing(LexBefore, r)
    ensures NoDup(r)
  {
    var r := Rows(0, n);
    IncreasingNoDup(LexBefore, r);
    r
  }

  /** Both positions of `e` address `states`. */
  predicate InRange(states: seq<State>, e: Edge) {
    e.0 < |states| && e.1 < |states|
  }

  /**
   A step from `a` to `b` is plausible when the next inflow quantity, volume
   quantity and inflow derivative are each among the successor values of `a`.
   */
  predicate Plausible(a: State, b: State): (ok: bool)
    ensures ok <==>
      && InflowStep(a, b.iq)
      && VolumeStep(a, b.vq)
      && (a.id == 1 ==> b.id == (if a.vq == 2 then 0 else 1))
      && (a.id != 1 ==> b.id != 1)
  {
    && b.iq in NextIQ(a)
    && b.vq in NextVQ(a)
    && b.id in NextID(a)
  }

  function PlausibleIn(states: seq<State>): Edge -> bool {
    e => InRange(states, e) && Plausible(states[e.0], states[e.1])
  }

  /** The plausibility filter over candidate transitions `ts`. */
  function PlausibleTransitions(states: seq<State>, ts: seq<Edge>): (r: seq<Edge>)
    requires forall e :: e in ts ==> InRange(states, e)
    ensures forall e :: e in r <==> e in ts && InRange(states, e) && Plausible(states[e.0], states[e.1])
    ensures Increasing(LexBefore, ts) ==> Increasing(LexBefore, r)
    ensures NoDup(ts) ==> NoDup(r)
  {
    FilterIncreasing(LexBefore, PlausibleIn(states), ts);
    FilterNoDup(PlausibleIn(states), ts);
    Filter(PlausibleIn(states), ts)
  }

  /** The classification of one quantity's change. */
  datatype Change = Neither | Instant | NotInstant

  /**
   A change is instant when it lands on the positive landmark 1, not instant
   when it lands anywhere else, and neither when the value does not change.
   */
  function IsInstant(prev: int, next: int): (c: Change)
    ensures c == Neither <==> prev == next
    ensures c == Instant <==> prev != next && next == 1
    ensures c == NotInstant <==> prev != next && next != 1
  {
    if prev != next then
      if next == 1 then Instant else NotInstant
    else Neither
  }

  /** The three quantities whose changes are classified. */
  datatype Quantity = Inflow | Volume | Outflow

  function Amount(s: State, q: Quantity): int {
    match q
    case Inflow => s.iq
    case Volume => s.vq
    case Outflow => s.oq
  }

  function Classify(a: State, b: State, q: Quantity): Change {
    IsInstant(Amount(a, q), Amount(b, q))
  }

  /**
   The epsilon-ordering law for a step from `a` to `b`: the classifications
   of IQ, VQ and OQ must not include both an instant and a not-instant change.
   */
  predicate EpsilonOk(a: State, b: State): (ok: bool)
    ensures ok <==>
      || (forall q :: Amount(a, q) != Amount(b, q) ==> Amount(b, q) == 1)
      || (forall q :: Amount(a, q) != Amount(b, q) ==> Amount(b, q) != 1)
  {
    var l := [IsInstant(a.iq, b.iq), IsInstant(a.vq, b.vq), IsInstant(a.oq, b.oq)];
    assert Amount(b, Inflow) == b.iq && Amount(b, Volume) == b.vq && Amount(b, Outflow) == b.oq;
    !(Instant in l && NotInstant in l)
  }

  function EpsilonIn(states: seq<State>): Edge -> bool {
    e => InRange(states, e) && EpsilonOk(states[e.0], states[e.1])
  }

  /** The epsilon-ordering filter over candidate transitions `ts`. */
  function EpsilonOrdering(states: seq<State>, ts: seq<Edge>): (r: seq<Edge>)
    requires forall e :: e in ts ==> InRange(states, e)
    ensures forall e :: e in r <==> e in ts && InRange(states, e) && EpsilonOk(states[e.0], states[e.1])
    ensures Increasing(LexBefore, ts) ==> Increasing(LexBefore, r)
    ensures NoDup(ts) ==> NoDup(r)
  {
    FilterIncreasing(LexBefore, EpsilonIn(states), ts);
    FilterNoDup(EpsilonIn(states), ts);
    Filter(EpsilonIn(states), ts)
  }

  /**
   The transitions over `states`: exactly the distinct in-range position
   pairs that are plausible and obey epsilon ordering, each once, in
   lexicographic order.
   */
  function GetTransitions(states: seq<State>): (r: seq<Edge>)
    ensures forall e :: e in r <==>
      && e.0 < |states| && e.1 < |states| && e.0 != e.1
      && Plausible(states[e.0], states[e.1])
      && EpsilonOk(states[e.0], states[e.1])
    ensures Increasing(LexBefore, r)
    ensures NoDup(r)
  {
    var candidates := Permutations(|states|);
    var plausible := PlausibleTransitions(states, candidates);
    EpsilonOrdering(states, plausible)
  }

  /**
   Transition generation as the engine performs it: build the candidate
   pairs, then prune them twice by marking and removing.
   */
  method ComputeTransitions(states: seq<State>) returns (ts: seq<Edge>)
    ensures ts == GetTransitions(states)
    ensures forall e :: e in ts ==> e.0 != e.1 && InRange(states, e)
  {
    ts := Permutations(|states|);
    ts := MarkThenRemove(ts, PlausibleIn(states));
    FilterNoDup(PlausibleIn(states), Permutations(|states|));
    ts := MarkThenRemove(ts, EpsilonIn(states));
  }

  /**
   The list-membership test of `EpsilonOk` restated as a quantifier over the
   three quantities: no quantity changes instantly while another changes
   gradually.
   */
  lemma EpsilonOkIffNoMixedChange(a: State, b: State)
    ensures EpsilonOk(a, b) <==>
      !exists q1, q2 :: Classify(a, b, q1) == Instant && Classify(a, b, q2) == NotInstant
  {
    var l := [IsInstant(a.iq, b.iq), IsInstant(a.vq, b.vq), IsInstant(a.oq, b.oq)];
    assert l[0] == Classify(a, b, Inflow);
    assert l[1] == Classify(a, b, Volume);
    assert l[2] == Classify(a, b, Outflow);
  }

  /**
   Within a quantity space, a one-step change is instant exactly when it
   leaves a point landmark (zero or maximum) for the interval between, and
   not instant exactly when it leaves that interval to reach a landmark.
   */
  lemma InstantIffLeavingLandmark(prev: Qty, next: Qty)
    requires -1 <= next - prev <= 1
    ensures IsInstant(prev, next) == Instant <==> prev != next && prev != 1
    ensures IsInstant(prev, next) == NotInstant <==> prev != next && prev == 1
  {
  }

  /** Applying epsilon ordering a second time removes nothing more. */
  lemma {:induction false} EpsilonOrderingIdempotent(states: seq<State>, ts: seq<Edge>)
    requires forall e :: e in ts ==> InRange(states, e)
    ensures EpsilonOrdering(states, EpsilonOrdering(states, ts)) == EpsilonOrdering(states, ts)
  {
    FilterIdempotent(EpsilonIn(states), ts);
  }

  /** Along every transition, a tap that is not opening does not start opening. */
  lemma TapNeverReopens(states: seq<State>)
    ensures forall e :: e in GetTransitions(states) ==>
      (states[e.1].id == 1 ==> states[e.0].id == 1)
  {
  }

  /** Along every transition the volume moves at most one landmark. */
  lemma VolumeMovesOneStep(states: seq<State>)
    ensures forall e :: e in GetTransitions(states) ==>
      -1 <= states[e.1].vq - states[e.0].vq <= 1
  {
  }

  /** A distinct, plausible, epsilon-ordered pair of positions is an edge. */
  lemma EdgeBetween(states: seq<State>, i: nat, j: nat)
    requires i < |states| && j < |states| && i != j
    requires Plausible(states[i], states[j]) && EpsilonOk(states[i], states[j])
    ensures (i, j) in GetTransitions(states)
  {
  }

  /** Some position of `states` holds `s`. */
  lemma PositionIn(states: seq<State>, s: State) returns (k: nat)
    requires s in states
    ensures k < |states| && states[k] == s
  {
    k :| k < |states| && states[k] == s;
  }

  /**
   From the tap just opened on an empty container the inflow must become
   positive, and in any sequence holding exactly the legal states (such as
   the generated one) the graph has an edge leaving that state.
   */
  lemma TapOpenedHasSuccessor(states: seq<State>)
    requires forall s :: s in states <==> States.Legal(s)
    ensures NextIQ(State(1, 0, 0, 0, 0, 0)) == [1]
    ensures exists e :: (e in GetTransitions(states) &&
                         states[e.0] == State(1, 0, 0, 0, 0, 0))
  {
    var a := State(1, 0, 0, 0, 0, 0);
    var b := State(1, 1, 1, 0, 1, 0);
    assert States.Legal(a) && States.Legal(b);
    var i := PositionIn(states, a);
    var j := PositionIn(states, b);
    EdgeBetween(states, i, j);
  }

  /**
   There is no overflow guard: over the legal states the graph has an edge
   from a full container into a state whose volume is still increasing.
   */
  lemma FullContainerMayKeepRising(states: seq<State>)
    requires forall s :: s in states <==> States.Legal(s)
    ensures exists e :: (e in GetTransitions(states) &&
                         states[e.0].vq == 2 && states[e.1].vd == 1)
  {
    var a := State(0, 1, 1, 2, 1, 2);
    var b := State(-1, 1, 1, 2, 1, 2);
    assert States.Legal(a) && States.Legal(b);
    var i := PositionIn(states, a);
    var j := PositionIn(states, b);
    EdgeBetween(states, i, j);
  }

  /** The generated state graph has an edge leaving the tap-just-opened state. */
  lemma GeneratedTapOpenedHasSuccessor()
    ensures exists e :: (e in GetTransitions(States.GetStates()) &&
                         States.GetStates()[e.0] == State(1, 0, 0, 0, 0, 0))
  {
    var st := States.GetStates();
    TapOpenedHasSuccessor(st);
  }

  /** The generated state graph has an edge from a full container into a rising volume. */
  lemma GeneratedFullContainerMayKeepRising()
    ensures exists e :: (e in GetTransitions(States.GetStates()) &&
                         States.GetStates()[e.0].vq == 2 && States.GetStates()[e.1].vd == 1)
  {
    var st := States.GetStates();
    FullContainerMayKeepRising(st);
  }
}
