/**
 The qualitative domain of the tap / container / drain system: the value
 spaces of the six variables, the state record, and the enumeration of every
 assignment in the order `itertools.product` produces it (ID outermost, then
 IQ, VD, VQ, OD, and OQ innermost; each variable's values in ascending order).
 */
module Domain {
  import opened Seqs

  /** A derivative: -1 decreasing, 0 steady, 1 increasing. */
  type Deriv = x: int | -1 <= x <= 1

  /** The inflow quantity space: 0 zero, 1 positive (the tap has no maximum). */
  type InflowQty = x: int | 0 <= x <= 1

  /** The volume and outflow quantity space: 0 zero, 1 positive, 2 maximum. */
  type Qty = x: int | 0 <= x <= 2

  /** One assignment of the six variables. Identity is the whole tuple. */
  datatype State = State(id: Deriv, iq: InflowQty, vd: Deriv, vq: Qty, od: Deriv, oq: Qty)

  /** Number of assignments: 3 * 2 * 3 * 3 * 3 * 3. */
  const ProductSize: nat := 486

  /** Position of `s` in the product enumeration (mixed radix, OQ least significant). */
  function Encode(s: State): (k: nat)
    ensures k < ProductSize
  {
    (((((s.id + 1) * 2 + s.iq) * 3 + (s.vd + 1)) * 3 + s.vq) * 3 + (s.od + 1)) * 3 + s.oq
  }

  /** The assignment at position `k` of the product enumeration. */
  function Decode(k: nat): State
    requires k < ProductSize
  {
    var oq := k % 3;
    var k1 := k / 3;
    var od := k1 % 3 - 1;
    var k2 := k1 / 3;
    var vq := k2 % 3;
    var k3 := k2 / 3;
    var vd := k3 % 3 - 1;
    var k4 := k3 / 3;
    var iq := k4 % 2;
    var id := k4 / 2 - 1;
    State(id, iq, vd, vq, od, oq)
  }

  /** Decoding the position of a state gives the state back. */
  lemma DecodeEncode(s: State)
    ensures Decode(Encode(s)) == s
  {
    var k4 := (s.id + 1) * 2 + s.iq;
    var k3 := k4 * 3 + (s.vd + 1);
    var k2 := k3 * 3 + s.vq;
    var k1 := k2 * 3 + (s.od + 1);
    var k := k1 * 3 + s.oq;
    assert k / 3 == k1 && k % 3 == s.oq;
    assert k1 / 3 == k2 && k1 % 3 == s.od + 1;
    assert k2 / 3 == k3 && k2 % 3 == s.vq;
    assert k3 / 3 == k4 && k3 % 3 == s.vd + 1;
    assert k4 / 2 == s.id + 1 && k4 % 2 == s.iq;
  }

  /** Encoding the state at a position gives the position back. */
  lemma EncodeDecode(k: nat)
    requires k < ProductSize
    ensures Encode(Decode(k)) == k
  {
    var k1 := k / 3;
    var k2 := k1 / 3;
    var k3 := k2 / 3;
    var k4 := k3 / 3;
    assert k == k1 * 3 + k % 3;
    assert k1 == k2 * 3 + k1 % 3;
    assert k2 == k3 * 3 + k2 % 3;
    assert k3 == k4 * 3 + k3 % 3;
    assert k4 == (k4 / 2) * 2 + k4 % 2;
  }

  /** `a` comes before `b` in the product enumeration. */
  predicate ProductBefore(a: State, b: State) {
    Encode(a) < Encode(b)
  }

  /**
   A sequence that lists, at each position, the assignment decoded from that
   position holds every assignment, each exactly once, in ascending position.
   */
  lemma DecodeOnto(r: seq<State>)
    requires |r| == ProductSize
    requires forall k :: 0 <= k < |r| ==> r[k] == Decode(k)
    ensures forall s: State :: s in r
    ensures forall k :: 0 <= k < |r| ==> Encode(r[k]) == k
    ensures NoDup(r)
    ensures Increasing(ProductBefore, r)
  {
    forall s: State
      ensures s in r
    {
      DecodeEncode(s);
      assert r[Encode(s)] == s;
    }
    forall k | 0 <= k < |r|
      ensures Encode(r[k]) == k
    {
      EncodeDecode(k);
    }
    IncreasingNoDup(ProductBefore, r);
  }

  /**
   `itertools.product` over the six value lists: every assignment, each
   exactly once, at the position its mixed-radix digits spell, hence in
   strictly ascending product order.
   */
  function Product(): (r: seq<State>)
    ensures |r| == ProductSize
    ensures forall s: State :: s in r
    ensures forall k :: 0 <= k < |r| ==> Encode(r[k]) == k
    ensures NoDup(r)
    ensures Increasing(ProductBefore, r)
  {
    var r := seq(ProductSize, k requires 0 <= k < ProductSize => Decode(k));
    DecodeOnto(r);
    r
  }
}
