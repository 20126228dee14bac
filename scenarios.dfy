/**
 Worked examples of the engine: each pins the inputs of one calculator
 state and states the figures the page shows for it.
 */
module Scenarios {
  import opened SeriesConfig
  import opened CashFlow
  import opened Engine
  import opened EngineProperties

  /** Series B, one bond, two annual coupons at 10 % discounted at 10 %:
      each year pays 1,000,000 of interest, the principal is repaid at the
      end, and the bond prices at par. The one power the fixed inputs need
      beyond the laws of `Pow` is `1.1^2`. */
  lemma ParBondScenario(p: Inputs, pow: PowFn)
    requires ValidInputs(p, pow)
    requires p.numBonos == 1 && p.indVal == 10.0 && p.plazo == 2 && p.periodo == 1 && p.descVal == 10.0
    requires Pow(pow, 1.1, 2.0) == 1.21
    ensures var s := Schedule(B, p, pow);
      && |s| == 2
      && s[0].intPeriodo == 1_000_000.0 && s[0].amort == 0.0
      && s[1].intPeriodo == 1_000_000.0 && s[1].amort == 10_000_000.0
      && SumInt(s) == 2_000_000.0
      && SumVP(s) == 10_000_000.0
  {
    var s := Schedule(B, p, pow);
    ScheduleShape(B, p, pow);
    BulletAmortization(B, p, pow);
    PesoSeriesSchedule(B, p, pow);
    FlowIdentity(B, p, pow);
    assert TasaPeriodicaFija(p, pow) == 0.1 by {
      assert 1.0 / (p.periodo as real) == 1.0;
    }
    FixedRateRow(B, p, pow, 0);
    FixedRateRow(B, p, pow, 1);
    assert s[0].ti == 1.0 && s[1].ti == 2.0;
    assert Discount(p, pow, 1.0) == 1.1 && Discount(p, pow, 2.0) == 1.21;
    TwoRowSums(s);
  }

  /** The interest and price of a two-row schedule, written out. */
  lemma TwoRowSums(s: seq<Flujo>)
    requires |s| == 2
    ensures SumInt(s) == s[0].intPeriodo + s[1].intPeriodo
    ensures SumVP(s) == s[0].vp + s[1].vp
  {
    var init := s[..1];
    assert init[..0] == [] && init[0] == s[0];
    assert SumInt(init) == s[0].intPeriodo && SumVP(init) == s[0].vp;
    assert s[..|s| - 1] == init;
  }

  /** Series A with an IPC of 5 % and a spread of 3 %: the effective annual
      rate at issue is `1.05 * 1.03 - 1`. */
  lemma IndexSpreadScenario(p: Inputs, pow: PowFn)
    requires ValidInputs(p, pow) && p.indVal == 5.0 && p.marVal == 3.0
    ensures TeaInicial(A, p, pow) == 0.0815
    ensures Periodo(A, p, pow, 0.0).teaAnual == 0.0815
  {
    TeaInicialIsRateAtIssue(A, p, pow);
  }

  /** Series C, one bond, quarterly, with an IBR of 9.75 % that does not move
      and a spread of 2 %: every quarter pays `10,000,000 * 0.1175 / 4`. */
  lemma IbrScenario(p: Inputs, pow: PowFn)
    requires ValidInputs(p, pow)
    requires p.numBonos == 1 && p.indVal == 9.75 && p.marVal == 2.0 && p.periodo == 4 && p.ibrChange == 0.0
    ensures var s := Schedule(C, p, pow);
      forall k :: 0 <= k < |s| ==> s[k].intPeriodo == 293_750.0
  {
    var s := Schedule(C, p, pow);
    forall k | 0 <= k < |s|
      ensures s[k].intPeriodo == 293_750.0
    {
      ScheduleShape(C, p, pow);
      SeriesCRow(p, pow, k);
      StaticIndex(p, pow, s[k].ti);
    }
  }
}
