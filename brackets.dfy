/** Progressive, tax-bracket-style discount over a sequence of layers
    (`discount_given_layers` in premium_discount.py). */
module Brackets {

  /** A bracket `[start, end)` of the premium and its marginal discount rate.
      Bounds are whole currency units; rates are exact rationals. */
  datatype Layer = Layer(start: int, end: int, rate: real)

  /** The most a layer can contribute: its width times its rate. */
  function Cap(l: Layer): real {
    (l.end - l.start) as real * l.rate
  }

  function Max(a: real, b: real): real { if a >= b then a else b }

  function Min(a: real, b: real): real { if a <= b then a else b }

  /** A layer whose bounds are in order and whose rate is not negative. */
  predicate Sane(l: Layer) {
    l.start <= l.end && 0.0 <= l.rate
  }

  predicate AllSane(layers: seq<Layer>) {
    forall k :: 0 <= k < |layers| ==> Sane(layers[k])
  }

  /** The shape every discount table has: it starts at 0 with a rate-0 layer,
      every layer is non-empty with a rate in [0, 1), and each layer ends
      where the next one starts. */
  predicate WellFormed(layers: seq<Layer>) {
    && |layers| > 0
    && layers[0].start == 0
    && layers[0].rate == 0.0
    && (forall k :: 0 <= k < |layers| ==>
          layers[k].start < layers[k].end && 0.0 <= layers[k].rate < 1.0)
    && (forall k :: 0 <= k < |layers| - 1 ==> layers[k].end == layers[k + 1].start)
  }

  lemma MulMonotone(a: real, b: real, r: real)
    requires a <= b && 0.0 <= r
    ensures a * r <= b * r
  {
    assert b * r - a * r == (b - a) * r;
  }

  /** The marginal amount `(premium - start) * rate` before clamping. */
  function Marginal(premium: int, l: Layer): real {
    (premium - l.start) as real * l.rate
  }

  /** Where the marginal amount lies relative to 0 and the cap. */
  lemma MarginalBounds(premium: int, l: Layer)
    requires Sane(l)
    ensures 0.0 <= Cap(l)
    ensures premium <= l.start ==> Marginal(premium, l) <= 0.0
    ensures l.end <= premium ==> Cap(l) <= Marginal(premium, l)
    ensures l.start <= premium ==> 0.0 <= Marginal(premium, l)
    ensures premium <= l.end ==> Marginal(premium, l) <= Cap(l)
  {
    var width, above := (l.end - l.start) as real, (premium - l.start) as real;
    assert Cap(l) == width * l.rate && Marginal(premium, l) == above * l.rate;
    MulMonotone(0.0, width, l.rate);
    if premium <= l.start {
      MulMonotone(above, 0.0, l.rate);
    } else {
      MulMonotone(0.0, above, l.rate);
    }
    if l.end <= premium {
      MulMonotone(width, above, l.rate);
    } else {
      MulMonotone(above, width, l.rate);
    }
  }

  /** One layer's share of the discount for `premium`: the marginal amount,
      first raised to 0, then lowered to the cap. */
  function Contribution(premium: int, l: Layer): (c: real)
    ensures Sane(l) ==> 0.0 <= c <= Cap(l)
    ensures Sane(l) && premium <= l.start ==> c == 0.0
    ensures Sane(l) && l.end <= premium ==> c == Cap(l)
    ensures Sane(l) && l.start <= premium <= l.end ==> c == Marginal(premium, l)
  {
    if Sane(l) then MarginalBounds(premium, l); Min(Max(Marginal(premium, l), 0.0), Cap(l))
    else Min(Max(Marginal(premium, l), 0.0), Cap(l))
  }

  /** Sum of the layer caps: the discount of a fully saturated table. */
  function SumCaps(layers: seq<Layer>): (s: real)
    ensures AllSane(layers) ==> 0.0 <= s
  {
    if layers == [] then 0.0
    else
      assert AllSane(layers) ==> Sane(layers[|layers| - 1]);
      SumCaps(layers[..|layers| - 1]) + Cap(layers[|layers| - 1])
  }

  /** Total discount for `premium`: the contributions of all layers, added
      in layer order. */
  function Discount(premium: int, layers: seq<Layer>): (d: real)
    ensures AllSane(layers) ==> 0.0 <= d <= SumCaps(layers)
  {
    if layers == [] then 0.0
    else
      assert AllSane(layers) ==> Sane(layers[|layers| - 1]);
      Discount(premium, layers[..|layers| - 1]) + Contribution(premium, layers[|layers| - 1])
  }

  /** The loop of `discount_given_layers`: accumulate each layer's clamped
      contribution. */
  method DiscountGivenLayers(premium: int, layers: seq<Layer>) returns (cumulative: real)
    ensures cumulative == Discount(premium, layers)
    ensures AllSane(layers) ==> 0.0 <= cumulative <= SumCaps(layers)
  {
    cumulative := 0.0;
    for i := 0 to |layers|
      invariant cumulative == Discount(premium, layers[..i])
    {
      var layer := layers[i];
      var discount := Max(Marginal(premium, layer), 0.0);
      discount := Min(discount, Cap(layer));
      DiscountNext(premium, layers, i);
      cumulative := cumulative + discount;
    }
    assert layers[..|layers|] == layers;
  }

  lemma DiscountNext(premium: int, layers: seq<Layer>, i: int)
    requires 0 <= i < |layers|
    ensures Discount(premium, layers[..i + 1])
         == Discount(premium, layers[..i]) + Contribution(premium, layers[i])
  {
    assert layers[..i + 1][..i] == layers[..i];
  }

  lemma {:induction false} DiscountAppend(premium: int, a: seq<Layer>, b: seq<Layer>)
    ensures Discount(premium, a + b) == Discount(premium, a) + Discount(premium, b)
    decreases |b|
  {
    if b == [] {
      assert a + b == a;
    } else {
      var n := |b| - 1;
      assert (a + b)[..|a + b| - 1] == a + b[..n];
      DiscountAppend(premium, a, b[..n]);
    }
  }

  /** A layer contributes nothing below its start and all of its cap past
      its end, so with every layer ended at or below the premium the
      discount is the sum of the caps. */
  lemma {:induction false} DiscountSaturated(premium: int, layers: seq<Layer>)
    requires AllSane(layers)
    requires forall k :: 0 <= k < |layers| ==> layers[k].end <= premium
    ensures Discount(premium, layers) == SumCaps(layers)
  {
    if layers != [] {
      DiscountSaturated(premium, layers[..|layers| - 1]);
    }
  }

  /** With every layer starting at or above the premium, the discount is 0. */
  lemma {:induction false} DiscountBelow(premium: int, layers: seq<Layer>)
    requires AllSane(layers)
    requires forall k :: 0 <= k < |layers| ==> premium <= layers[k].start
    ensures Discount(premium, layers) == 0.0
  {
    if layers != [] {
      DiscountBelow(premium, layers[..|layers| - 1]);
    }
  }

  lemma ContributionMonotone(p: int, q: int, l: Layer)
    requires p <= q && Sane(l)
    ensures Contribution(p, l) <= Contribution(q, l)
  {
    MulMonotone((p - l.start) as real, (q - l.start) as real, l.rate);
    assert Marginal(p, l) <= Marginal(q, l);
  }

  /** With no negative rate, a larger premium never gets a smaller discount. */
  lemma {:induction false} DiscountMonotone(p: int, q: int, layers: seq<Layer>)
    requires p <= q && AllSane(layers)
    ensures Discount(p, layers) <= Discount(q, layers)
  {
    if layers != [] {
      DiscountMonotone(p, q, layers[..|layers| - 1]);
      ContributionMonotone(p, q, layers[|layers| - 1]);
    }
  }

  /** In a well-formed table an earlier layer ends at or before a later one starts. */
  lemma {:induction false} EndBeforeStart(layers: seq<Layer>, i: int, j: int)
    requires WellFormed(layers)
    requires 0 <= i < j < |layers|
    ensures layers[i].end <= layers[j].start
    decreases j - i
  {
    if j > i + 1 {
      EndBeforeStart(layers, i, j - 1);
    }
  }

  lemma WellFormedIsSane(layers: seq<Layer>)
    requires WellFormed(layers)
    ensures AllSane(layers)
  {
  }

  /** Marginal-rate application: a premium inside layer k gets every earlier
      layer's full cap plus layer k's rate on the part above its start. */
  lemma DiscountWithinLayer(premium: int, layers: seq<Layer>, k: int)
    requires WellFormed(layers)
    requires 0 <= k < |layers|
    requires layers[k].start <= premium <= layers[k].end
    ensures Discount(premium, layers)
         == SumCaps(layers[..k]) + Marginal(premium, layers[k])
  {
    var before, at, after := layers[..k], [layers[k]], layers[k + 1..];
    assert layers == before + at + after;
    assert Discount(premium, before) == SumCaps(before) by {
      WellFormedIsSane(layers);
      forall j | 0 <= j < |before|
        ensures before[j].end <= premium
      {
        EndBeforeStart(layers, j, k);
      }
      DiscountSaturated(premium, before);
    }
    assert Discount(premium, after) == 0.0 by {
      WellFormedIsSane(layers);
      forall j | 0 <= j < |after|
        ensures premium <= after[j].start
      {
        EndBeforeStart(layers, k, k + 1 + j);
      }
      DiscountBelow(premium, after);
    }
    assert Discount(premium, at) == Marginal(premium, layers[k]) by {
      assert at[..0] == [];
      assert Sane(layers[k]);
    }
    DiscountAppend(premium, before + at, after);
    DiscountAppend(premium, before, at);
  }

  /** A premium no larger than the first layer's end gets no discount. */
  lemma DiscountZeroInFirstLayer(premium: int, layers: seq<Layer>)
    requires WellFormed(layers)
    requires premium <= layers[0].end
    ensures Discount(premium, layers) == 0.0
  {
    if premium < 0 {
      WellFormedIsSane(layers);
      forall j | 0 <= j < |layers|
        ensures premium <= layers[j].start
      {
        if j > 0 {
          EndBeforeStart(layers, 0, j);
        }
      }
      DiscountBelow(premium, layers);
    } else {
      DiscountWithinLayer(premium, layers, 0);
    }
  }

  /** Continuity at each bracket boundary: crossing layer k adds exactly its cap. */
  lemma DiscountAcrossLayer(layers: seq<Layer>, k: int)
    requires WellFormed(layers)
    requires 0 <= k < |layers|
    ensures Discount(layers[k].end, layers) == Discount(layers[k].start, layers) + Cap(layers[k])
  {
    var l, before := layers[k], SumCaps(layers[..k]);
    assert Discount(l.end, layers) == before + Cap(l) by {
      DiscountWithinLayer(l.end, layers, k);
    }
    assert Discount(l.start, layers) == before by {
      DiscountWithinLayer(l.start, layers, k);
    }
  }

  /** At or beyond the last layer's end the table is saturated. */
  lemma DiscountBeyondLastLayer(premium: int, layers: seq<Layer>)
    requires WellFormed(layers)
    requires layers[|layers| - 1].end <= premium
    ensures Discount(premium, layers) == SumCaps(layers)
  {
    WellFormedIsSane(layers);
    forall j | 0 <= j < |layers|
      ensures layers[j].end <= premium
    {
      if j < |layers| - 1 {
        EndBeforeStart(layers, j, |layers| - 1);
      }
    }
    DiscountSaturated(premium, layers);
  }
}
