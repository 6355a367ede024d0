/**
 State generation: the assignments of the product enumeration that violate
 none of the dependency and exogenous constraints, kept in enumeration order.
 */
module States {
  import opened Seqs
  import opened Domain
  import Successors

  /**
   The nine rejection conditions of state generation, each negated, in the
   order the engine tests them.
   */
  predicate Legal(s: State) {
    // exogenous: the tap is opened only while the container is empty
    && !(s.id == 1 && s.iq == 0 && s.vq != 0)
    // volume and outflow quantities correspond
    && s.vq == s.oq
    // outflow derivative is proportional to the volume derivative
    && s.vd == s.od
    // a zero quantity cannot decrease
    && !(s.iq == 0 && s.id == -1)
    && !(s.vq == 0 && s.vd == -1)
    && !(s.oq == 0 && s.od == -1)
    // direct influences of inflow and outflow on the volume
    && !(s.iq == 0 && s.vd == 1)
    && !(s.iq == 0 && s.oq > 0 && s.vd != -1)
    && !(s.iq == 1 && s.oq == 0 && s.vd != 1)
  }

  /**
   The legal states: exactly the assignments meeting every constraint, each
   once, in ascending product position.
   */
  function GetStates(): (r: seq<State>)
    ensures forall s :: s in r <==> Legal(s)
    ensures NoDup(r)
    ensures Increasing(ProductBefore, r)
  {
    FilterNoDup(Legal, Product());
    FilterIncreasing(ProductBefore, Legal, Product());
    Filter(Legal, Product())
  }

  /**
   State generation as the engine performs it: mark each rejected
   assignment, then remove the marked ones from the enumeration.
   */
  method ComputeStates() returns (states: seq<State>)
    ensures states == GetStates()
    ensures forall s :: s in states <==> Legal(s)
  {
    states := MarkThenRemove(Product(), Legal);
  }

  /**
   A second reading of the constraints: a state is legal iff volume and
   outflow agree, the volume derivative is the one the inflow/outflow
   balance dictates whenever that balance is known, a tap with no flow is
   not closing, and an opening tap with no flow implies an empty container.
   */
  lemma LegalIffBalanced(s: State)
    ensures Legal(s) <==>
      && s.oq == s.vq
      && s.od == s.vd
      && (Successors.NextVD(s) != [] ==> s.vd in Successors.NextVD(s))
      && (s.iq == 0 ==> s.id != -1)
      && (s.id == 1 && s.iq == 0 ==> s.vq == 0)
  {
  }

  /** The tap just opened on an empty, steady container is a legal state. */
  lemma TapOpenedIsLegal()
    ensures State(1, 0, 0, 0, 0, 0) in GetStates()
  {
    assert Legal(State(1, 0, 0, 0, 0, 0));
  }

  /**
   The state "tap opening, no inflow yet, volume increasing" is not legal:
   with no inflow the volume cannot increase.
   */
  lemma OpeningWithRisingVolumeIsIllegal()
    ensures State(1, 0, 1, 0, 1, 0) !in GetStates()
  {
    assert !Legal(State(1, 0, 1, 0, 1, 0));
  }

  /**
   No overflow guard: a full container whose volume is still increasing is
   a legal state.
   */
  lemma FullAndRisingIsLegal()
    ensures State(1, 1, 1, 2, 1, 2) in GetStates()
  {
    assert Legal(State(1, 1, 1, 2, 1, 2));
  }
}
