/**
 One row of a cash-flow schedule, the column sums over a schedule and the
 Macaulay duration of a schedule.
 */
module CashFlow {
  import opened Wrappers

  /** One payment period: its 1-based index `i`, the principal in settlement
      currency, interest, amortization, total flow, present value, the time
      `ti` in years, the annual rate of the period and the projected variable
      of the series (absent for the fixed-rate series). */
  datatype Flujo = Flujo(
    i: nat,
    capital: real,
    intPeriodo: real,
    amort: real,
    flujoTotal: real,
    vp: real,
    ti: real,
    teaAnualPeriodo: real,
    varDinamica: Option<real>)

  /** Sum of the interest column, accumulated front to back. */
  function SumInt(flujos: seq<Flujo>): real
  {
    if flujos == [] then 0.0 else SumInt(flujos[..|flujos| - 1]) + flujos[|flujos| - 1].intPeriodo
  }

  /** Sum of the present-value column, accumulated front to back. */
  function SumVP(flujos: seq<Flujo>): real
  {
    if flujos == [] then 0.0 else SumVP(flujos[..|flujos| - 1]) + flujos[|flujos| - 1].vp
  }

  /** Sum of `ti * vp`: the numerator of the Macaulay duration. */
  function SumTiVP(flujos: seq<Flujo>): real
  {
    if flujos == [] then 0.0 else SumTiVP(flujos[..|flujos| - 1]) + flujos[|flujos| - 1].ti * flujos[|flujos| - 1].vp
  }

  /** Sum of the weights `vp / totalVP`. */
  function SumWeights(flujos: seq<Flujo>, totalVP: real): real
    requires totalVP != 0.0
  {
    if flujos == [] then 0.0 else SumWeights(flujos[..|flujos| - 1], totalVP) + flujos[|flujos| - 1].vp / totalVP
  }

  /** The fold of the duration helper: `ti * (vp / totalVP)` summed front to back.
      Its value is the ratio of the two column sums. */
  function DurSum(flujos: seq<Flujo>, totalVP: real): (d: real)
    requires totalVP != 0.0
    ensures d == SumTiVP(flujos) / totalVP
  {
    if flujos == [] then 0.0
    else
      var init, last := flujos[..|flujos| - 1], flujos[|flujos| - 1];
      var d0 := DurSum(init, totalVP);
      assert d0 * totalVP == SumTiVP(init);
      assert (d0 + last.ti * (last.vp / totalVP)) * totalVP == SumTiVP(init) + last.ti * last.vp;
      d0 + last.ti * (last.vp / totalVP)
  }

  /** Macaulay duration as the present-value-weighted mean of `ti`. A
      non-empty schedule with a zero total present value divides by zero,
      which yields a non-finite number: that outcome is `None`. */
  function CalcDuracion(flujos: seq<Flujo>, totalVP: real): (d: Option<real>)
    ensures d.None? <==> flujos != [] && totalVP == 0.0
    ensures flujos == [] ==> d == Some(0.0)
    ensures totalVP != 0.0 ==> d == Some(SumTiVP(flujos) / totalVP)
  {
    if flujos == [] then Some(0.0)
    else if totalVP == 0.0 then None
    else Some(DurSum(flujos, totalVP))
  }

  /** The weights sum to the ratio of the present-value sum to `totalVP`. */
  lemma {:induction false} SumWeightsIsRatio(flujos: seq<Flujo>, totalVP: real)
    requires totalVP != 0.0
    ensures SumWeights(flujos, totalVP) == SumVP(flujos) / totalVP
  {
    if flujos != [] {
      var init, last := flujos[..|flujos| - 1], flujos[|flujos| - 1];
      SumWeightsIsRatio(init, totalVP);
      assert SumWeights(init, totalVP) * totalVP == SumVP(init);
      assert (SumWeights(init, totalVP) + last.vp / totalVP) * totalVP == SumVP(init) + last.vp;
    }
  }

  /** When `totalVP` is the positive sum of the present values, the duration
      weights sum to one. */
  lemma WeightsSumToOne(flujos: seq<Flujo>)
    requires SumVP(flujos) > 0.0
    ensures SumWeights(flujos, SumVP(flujos)) == 1.0
  {
    var total := SumVP(flujos);
    SumWeightsIsRatio(flujos, total);
    assert total / total == 1.0;
  }

  /** With non-negative present values and every `ti` in `[lo, hi]`, the
      numerator of the duration lies between `lo` and `hi` times the present-value sum. */
  lemma {:induction false} SumTiVPBounds(flujos: seq<Flujo>, lo: real, hi: real)
    requires forall k :: 0 <= k < |flujos| ==> flujos[k].vp >= 0.0
    requires forall k :: 0 <= k < |flujos| ==> lo <= flujos[k].ti <= hi
    ensures lo * SumVP(flujos) <= SumTiVP(flujos) <= hi * SumVP(flujos)
  {
    if flujos != [] {
      var init, last := flujos[..|flujos| - 1], flujos[|flujos| - 1];
      assert forall k :: 0 <= k < |init| ==> init[k] == flujos[k];
      SumTiVPBounds(init, lo, hi);
      var v0, w0 := SumVP(init), SumTiVP(init);
      assert lo * v0 <= w0 <= hi * v0;
      assert lo <= last.ti <= hi && last.vp >= 0.0;
      MulMono(lo, last.ti, last.vp);
      MulMono(last.ti, hi, last.vp);
      assert SumVP(flujos) == v0 + last.vp;
      assert SumTiVP(flujos) == w0 + last.ti * last.vp;
      assert lo * (v0 + last.vp) == lo * v0 + lo * last.vp;
      assert hi * (v0 + last.vp) == hi * v0 + hi * last.vp;
    }
  }

  /** Non-negative present values sum to a non-negative price. */
  lemma {:induction false} SumVPNonnegative(flujos: seq<Flujo>)
    requires forall k :: 0 <= k < |flujos| ==> flujos[k].vp >= 0.0
    ensures SumVP(flujos) >= 0.0
  {
    if flujos != [] {
      var init := flujos[..|flujos| - 1];
      assert forall k :: 0 <= k < |init| ==> init[k].vp == flujos[k].vp;
      SumVPNonnegative(init);
    }
  }

  /** Non-negative present values with a positive last one sum to a
      positive price. */
  lemma SumVPPositive(flujos: seq<Flujo>)
    requires flujos != [] && flujos[|flujos| - 1].vp > 0.0
    requires forall k :: 0 <= k < |flujos| ==> flujos[k].vp >= 0.0
    ensures SumVP(flujos) > 0.0
  {
    var init := flujos[..|flujos| - 1];
    assert forall k :: 0 <= k < |init| ==> init[k].vp == flujos[k].vp;
    SumVPNonnegative(init);
  }

  lemma MulMono(x: real, y: real, z: real)
    requires x <= y && z >= 0.0
    ensures x * z <= y * z
  {
  }

  lemma MulStrict(x: real, y: real, z: real)
    requires x < y && z > 0.0
    ensures x * z < y * z
  {
  }

  /** Dividing bounds `lo * t <= x <= hi * t` by a positive `t`. */
  lemma DivBetween(lo: real, hi: real, x: real, t: real)
    requires t > 0.0 && lo * t <= x <= hi * t
    ensures lo <= x / t <= hi
  {
    var d := x / t;
    assert d * t == x;
    if d < lo {
      MulStrict(d, lo, t);
    }
    if d > hi {
      MulStrict(hi, d, t);
    }
  }

  /** With non-negative present values and a positive total present value,
      the duration lies between the smallest and the largest `ti`. */
  lemma DurationBounds(flujos: seq<Flujo>, lo: real, hi: real)
    requires forall k :: 0 <= k < |flujos| ==> flujos[k].vp >= 0.0
    requires forall k :: 0 <= k < |flujos| ==> lo <= flujos[k].ti <= hi
    requires SumVP(flujos) > 0.0
    ensures CalcDuracion(flujos, SumVP(flujos)).Some?
    ensures lo <= CalcDuracion(flujos, SumVP(flujos)).value <= hi
  {
    SumTiVPBounds(flujos, lo, hi);
    DivBetween(lo, hi, SumTiVP(flujos), SumVP(flujos));
  }
}
