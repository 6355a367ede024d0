/**
 The successor predicates: for a state, the values one variable may take in
 the next state. Each is a total function of the state returning a list of
 values in ascending order, as the engine's `next_*` functions do.
 */
module Successors {
  import opened Seqs
  import opened Domain

  predicate Below(a: int, b: int) {
    a < b
  }

  /** A list of values in strictly ascending order (so also duplicate-free). */
  ghost predicate Ascending(vs: seq<int>) {
    Increasing(Below, vs)
  }

  /** Sign of an integer. */
  function Sign(x: int): int {
    if x < 0 then -1 else if x == 0 then 0 else 1
  }

  /**
   How the inflow quantity may move: it holds when its derivative is steady,
   is pushed to (or kept at) positive when increasing, and may only stay or
   drop when decreasing.
   */
  predicate InflowStep(s: State, v: int) {
    && 0 <= v <= 1
    && (s.id == 0 ==> v == s.iq)
    && (s.id == 1 ==> v == 1)
    && (s.id == -1 ==> v <= s.iq)
  }

  /** Next inflow quantities. */
  function NextIQ(s: State): (r: seq<int>)
    ensures forall v :: v in r <==> InflowStep(s, v)
    ensures Ascending(r) && r != []
  {
    if s.id == 0 then [s.iq]
    else if s.id == 1 then [1]
    else if s.iq == 1 then [0, 1]
    else [0]
  }

  /**
   Next inflow derivatives: the exogenous tap policy. An opening tap keeps
   opening until the container is full, then steadies; a steady or closing
   tap may only stay or close further, so it is never reopened.
   */
  function NextID(s: State): (r: seq<int>)
    ensures Ascending(r) && r != []
    ensures forall v :: v in r ==> -1 <= v <= 1
    ensures 1 in r <==> s.id == 1 && s.vq != 2
    ensures 0 in r <==> s.id != 1 || s.vq == 2
    ensures -1 in r <==> s.id != 1
  {
    if s.id == 1 then (if s.vq == 2 then [0] else [1])
    else [-1, 0]
  }

  /**
   How the volume quantity may move: by at most one step within {0,1,2},
   never against its derivative, not at all when the derivative is steady,
   and necessarily off zero when increasing from zero.
   */
  predicate VolumeStep(s: State, v: int) {
    && 0 <= v <= 2
    && -1 <= v - s.vq <= 1
    && (s.vd == 0 ==> v == s.vq)
    && (s.vd == 1 ==> v >= s.vq && (s.vq == 0 ==> v == 1))
    && (s.vd == -1 ==> v <= s.vq)
  }

  /** Next volume quantities. */
  function NextVQ(s: State): (r: seq<int>)
    ensures forall v :: v in r <==> VolumeStep(s, v)
    ensures Ascending(r) && r != []
    ensures s.vd == 0 ==> r == [s.vq]
    ensures s.vd == 1 ==> forall v :: v in r ==> v >= s.vq
    ensures s.vd == -1 ==> forall v :: v in r ==> v <= s.vq
  {
    if s.vd == 0 then [s.vq]
    else if s.vd == 1 then
      (if s.vq == 0 then [1] else if s.vq == 1 then [1, 2] else [2])
    else
      (if s.vq == 0 then [0] else if s.vq == 1 then [0, 1] else [1, 2])
  }

  /**
   Next volume derivative from the two influences on the volume: inflow
   pushes it up, outflow pushes it down. When exactly one influence is
   active, or neither, the derivative follows the sign of the balance; when
   both are active the balance is unknown and no value is returned.
   */
  function NextVD(s: State): (r: seq<int>)
    ensures |r| <= 1
    ensures r == [] <==> s.iq == 1 && s.oq > 0
    ensures forall v :: v in r <==> !(s.iq == 1 && s.oq > 0) && v == Sign(s.iq - s.oq)
  {
    if s.iq == 0 then (if s.oq == 1 || s.oq == 2 then [-1] else [0])
    else if s.oq == 0 then [1]
    else []
  }
}
