/**
 What the engine's schedule and figures promise: the shape of the schedule,
 the bullet amortization, the flow identity, the per-series rate rules, the
 rate at issue, the scaling in the number of bonds, the range of the duration
 and the worked scenarios of the calculator.
 */
module EngineProperties {
  import opened Wrappers
  import opened SeriesConfig
  import opened CashFlow
  import opened Engine

  /** The value in pesos, `t` years after issue, of one unit of the
      series' currency: the projected UVR for D, the projected exchange rate
      for E, 1 for the peso series. */
  function Unidad(serie: Serie, p: Inputs, pow: PowFn, t: real): real
  {
    UnidadDe(serie, UvrActual(p, pow, t), TrmActual(p, pow, t))
  }

  /** The principal of `cb` pesos converted at the series' currency unit
      `t` years after issue. */
  function Principal(serie: Serie, p: Inputs, pow: PowFn, cb: real, t: real): real
  {
    cb * Unidad(serie, p, pow, t)
  }

  /** Row `j + 1` sits at position `j` of the first `k` rows. */
  lemma {:induction false} RowsAt(serie: Serie, p: Inputs, pow: PowFn, cb: real, k: nat, j: nat)
    requires ValidInputs(p, pow) && j < k
    ensures Rows(serie, p, pow, cb, k)[j] == Row(serie, p, pow, cb, j + 1)
  {
    if j < k - 1 {
      RowsAt(serie, p, pow, cb, k - 1, j);
    }
  }

  /** What row `i` holds: its index and time, the principal converted at
      that time, the bullet amortization, the whole flow and its present
      value, and the coupon, annual rate and projected variable of the rate
      dispatch. */
  lemma RowFacts(serie: Serie, p: Inputs, pow: PowFn, cb: real, i: nat)
    requires ValidInputs(p, pow)
    ensures var f := Row(serie, p, pow, cb, i); var t := f.ti;
      && f.i == i && t == (i as real) / (p.periodo as real)
      && f.capital == Principal(serie, p, pow, cb, t)
      && f.amort == (if i == TotalPeriodos(p) then f.capital else 0.0)
      && f.flujoTotal == f.intPeriodo + f.amort
      && f.vp == PresentValue(p, pow, f.flujoTotal, t)
      && f.intPeriodo == InteresPeriodo(cb, Periodo(serie, p, pow, t))
      && f.teaAnualPeriodo == Periodo(serie, p, pow, t).teaAnual
      && f.varDinamica == VarDinamica(serie, p, pow, t)
  {
  }

  /** The same facts about position `k` of the first `n` rows. */
  lemma RowsEntry(serie: Serie, p: Inputs, pow: PowFn, cb: real, n: nat, k: nat)
    requires ValidInputs(p, pow) && k < n
    ensures var f := Rows(serie, p, pow, cb, n)[k]; var t := f.ti;
      && f.i == k + 1 && t == ((k + 1) as real) / (p.periodo as real)
      && f.capital == Principal(serie, p, pow, cb, t)
      && f.amort == (if k + 1 == TotalPeriodos(p) then f.capital else 0.0)
      && f.flujoTotal == f.intPeriodo + f.amort
      && f.vp == PresentValue(p, pow, f.flujoTotal, t)
      && f.intPeriodo == InteresPeriodo(cb, Periodo(serie, p, pow, t))
      && f.teaAnualPeriodo == Periodo(serie, p, pow, t).teaAnual
      && f.varDinamica == VarDinamica(serie, p, pow, t)
  {
    RowsAt(serie, p, pow, cb, n, k);
    RowFacts(serie, p, pow, cb, k + 1);
  }

  /** The same facts about position `k` of the schedule. */
  lemma ScheduleRow(serie: Serie, p: Inputs, pow: PowFn, k: nat)
    requires ValidInputs(p, pow) && k < TotalPeriodos(p)
    ensures var f := Schedule(serie, p, pow)[k]; var t := f.ti;
      && f.i == k + 1 && t == ((k + 1) as real) / (p.periodo as real)
      && f.capital == Principal(serie, p, pow, CapitalBase(serie, p), t)
      && f.amort == (if k + 1 == TotalPeriodos(p) then f.capital else 0.0)
      && f.flujoTotal == f.intPeriodo + f.amort
      && f.vp == PresentValue(p, pow, f.flujoTotal, t)
      && f.intPeriodo == InteresPeriodo(CapitalBase(serie, p), Periodo(serie, p, pow, t))
      && f.teaAnualPeriodo == Periodo(serie, p, pow, t).teaAnual
      && f.varDinamica == VarDinamica(serie, p, pow, t)
  {
    RowsEntry(serie, p, pow, CapitalBase(serie, p), TotalPeriodos(p), k);
  }

  lemma DivStrict(a: real, b: real, m: real)
    requires a < b && m > 0.0
    ensures a / m < b / m
  {
    PositiveQuotient(b - a, m);
    assert (b - a) / m == b / m - a / m;
  }

  lemma PositiveQuotient(x: real, m: real)
    requires x > 0.0 && m > 0.0
    ensures x / m > 0.0
  {
  }

  /** The schedule has `plazo * periodo` rows; position `k` is period
      `k + 1`, paid `(k + 1) / periodo` years after issue, so the times
      strictly increase from `1 / periodo` to `plazo`. */
  lemma ScheduleShape(serie: Serie, p: Inputs, pow: PowFn)
    requires ValidInputs(p, pow)
    ensures var s := Schedule(serie, p, pow);
      && |s| == p.plazo * p.periodo
      && (forall k :: 0 <= k < |s| ==> s[k].i == k + 1 && s[k].ti == ((k + 1) as real) / (p.periodo as real))
      && (forall j, k :: 0 <= j < k < |s| ==> s[j].ti < s[k].ti)
      && (s != [] ==> s[0].ti == 1.0 / (p.periodo as real) && s[|s| - 1].ti == p.plazo as real)
  {
    var s := Schedule(serie, p, pow);
    var m := p.periodo as real;
    forall k | 0 <= k < |s|
      ensures s[k].i == k + 1 && s[k].ti == ((k + 1) as real) / m
    {
      ScheduleRow(serie, p, pow, k);
    }
    forall j, k | 0 <= j < k < |s|
      ensures s[j].ti < s[k].ti
    {
      DivStrict((j + 1) as real, (k + 1) as real, m);
    }
    if s != [] {
      assert ((p.plazo * p.periodo) as real) == (p.plazo as real) * m;
      assert s[|s| - 1].ti == ((p.plazo as real) * m) / m;
    }
  }

  /** Amortization is zero on every row but the last; the last repays the
      whole principal, converted at the UVR or exchange rate of maturity. */
  lemma BulletAmortization(serie: Serie, p: Inputs, pow: PowFn)
    requires ValidInputs(p, pow)
    ensures var s := Schedule(serie, p, pow);
      && (forall k :: 0 <= k < |s| - 1 ==> s[k].amort == 0.0)
      && (s != [] ==> s[|s| - 1].amort == s[|s| - 1].capital
                      == CapitalBase(serie, p) * Unidad(serie, p, pow, p.plazo as real))
  {
    var s := Schedule(serie, p, pow);
    forall k | 0 <= k < |s| - 1
      ensures s[k].amort == 0.0
    {
      ScheduleRow(serie, p, pow, k);
    }
    if s != [] {
      var n := |s|;
      ScheduleRow(serie, p, pow, n - 1);
      ScheduleShape(serie, p, pow);
    }
  }

  /** Every row's flow is its coupon plus its amortization, and its present
      value is that flow divided by the discount factor of its time, so the
      two have the same sign. */
  lemma FlowIdentity(serie: Serie, p: Inputs, pow: PowFn)
    requires ValidInputs(p, pow)
    ensures var s := Schedule(serie, p, pow);
      forall k :: 0 <= k < |s| ==>
        && s[k].flujoTotal == s[k].intPeriodo + s[k].amort
        && s[k].vp * Discount(p, pow, s[k].ti) == s[k].flujoTotal
        && (s[k].vp >= 0.0 <==> s[k].flujoTotal >= 0.0)
  {
    var s := Schedule(serie, p, pow);
    forall k | 0 <= k < |s|
      ensures s[k].flujoTotal == s[k].intPeriodo + s[k].amort
      ensures s[k].vp * Discount(p, pow, s[k].ti) == s[k].flujoTotal
      ensures s[k].vp >= 0.0 <==> s[k].flujoTotal >= 0.0
    {
      ScheduleRow(serie, p, pow, k);
      PresentValueFacts(p, pow, s[k].flujoTotal, s[k].ti);
    }
  }

  /** The present value carries the sign of the flow and recovers it when
      multiplied back by the discount factor. */
  lemma PresentValueFacts(p: Inputs, pow: PowFn, x: real, t: real)
    requires ValidInputs(p, pow)
    ensures PresentValue(p, pow, x, t) * Discount(p, pow, t) == x
    ensures PresentValue(p, pow, x, t) >= 0.0 <==> x >= 0.0
    ensures PresentValue(p, pow, x, t) > 0.0 <==> x > 0.0
  {
    var d, v := Discount(p, pow, t), PresentValue(p, pow, x, t);
    assert d > 0.0;
    assert v * d == x;
    if v < 0.0 {
      MulStrict(v, 0.0, d);
    } else if v > 0.0 {
      MulStrict(0.0, v, d);
    }
  }

  /** The periodic rate of the fixed-rate series: the annual rate `ind`
      de-compounded over `periodo` payments. */
  function TasaPeriodicaFija(p: Inputs, pow: PowFn): real
    requires ValidInputs(p, pow)
  {
    Pow(pow, 1.0 + p.indVal / 100.0, 1.0 / (p.periodo as real)) - 1.0
  }

  /** The fixed-rate series B, D and E: the annual rate is `ind`, the
      periodic rate is its de-compounding, and the coupon per unit of face
      value is that rate, converted for D and E at the unit of that date. */
  lemma PeriodoFija(serie: Serie, p: Inputs, pow: PowFn, t: real)
    requires ValidInputs(p, pow) && serie in {B, D, E}
    ensures var q := Periodo(serie, p, pow, t);
      && q.teaAnual == p.indVal / 100.0
      && q.iPeriodica == TasaPeriodicaFija(p, pow)
      && q.cupon == TasaPeriodicaFija(p, pow) * Unidad(serie, p, pow, t)
      && (serie == B ==> q.cupon == TasaPeriodicaFija(p, pow))
  {
  }

  /** Series C: the projected IBR is never negative, the periodic rate and
      the coupon per unit are the IBR plus margin split evenly over the
      periods, and the annual rate compounds it. */
  lemma PeriodoC(p: Inputs, pow: PowFn, t: real)
    requires ValidInputs(p, pow)
    ensures var q := Periodo(C, p, pow, t);
      && IbrActual(p, t) >= 0.0
      && q.iPeriodica == (IbrActual(p, t) + p.marVal / 100.0) / (p.periodo as real)
      && q.cupon == q.iPeriodica
      && q.teaAnual == Pow(pow, 1.0 + q.iPeriodica, p.periodo as real) - 1.0
  {
  }

  /** Every row's principal is the series' principal converted at the unit
      of its own date. */
  lemma PrincipalSchedule(serie: Serie, p: Inputs, pow: PowFn)
    requires ValidInputs(p, pow)
    ensures var s := Schedule(serie, p, pow);
      forall k :: 0 <= k < |s| ==> s[k].capital == Principal(serie, p, pow, CapitalBase(serie, p), s[k].ti)
  {
    var s := Schedule(serie, p, pow);
    forall k | 0 <= k < |s|
      ensures s[k].capital == Principal(serie, p, pow, CapitalBase(serie, p), s[k].ti)
    {
      ScheduleRow(serie, p, pow, k);
    }
  }

  /** The peso series A, B and C: every row's principal is the base
      principal and the reported currency multiplier is 1. */
  lemma PesoSeriesSchedule(serie: Serie, p: Inputs, pow: PowFn)
    requires ValidInputs(p, pow) && Config(serie).moneda == COP
    ensures CapMultFinal(serie, p) == 1.0
    ensures var s := Schedule(serie, p, pow);
      forall k :: 0 <= k < |s| ==> s[k].capital == CapitalBase(serie, p)
  {
    var s := Schedule(serie, p, pow);
    forall k | 0 <= k < |s|
      ensures s[k].capital == CapitalBase(serie, p)
    {
      ScheduleRow(serie, p, pow, k);
      assert Unidad(serie, p, pow, s[k].ti) == 1.0;
    }
  }

  /** One row of a fixed-rate series: see `FixedRateSchedule`. */
  lemma FixedRateRow(serie: Serie, p: Inputs, pow: PowFn, k: nat)
    requires ValidInputs(p, pow) && serie in {B, D, E} && k < TotalPeriodos(p)
    ensures var f := Schedule(serie, p, pow)[k];
      && f.teaAnualPeriodo == p.indVal / 100.0
      && f.intPeriodo == Principal(serie, p, pow, CapitalBase(serie, p), f.ti) * TasaPeriodicaFija(p, pow)
      && (serie == B ==> f.intPeriodo == CapitalBase(serie, p) * TasaPeriodicaFija(p, pow))
  {
    ScheduleRow(serie, p, pow, k);
    FixedRateFacts(serie, p, pow, CapitalBase(serie, p), Schedule(serie, p, pow)[k]);
  }

  /** The fixed-rate facts of any row whose rates come from the dispatch. */
  lemma FixedRateFacts(serie: Serie, p: Inputs, pow: PowFn, cb: real, f: Flujo)
    requires ValidInputs(p, pow) && serie in {B, D, E}
    requires f.intPeriodo == InteresPeriodo(cb, Periodo(serie, p, pow, f.ti))
    requires f.teaAnualPeriodo == Periodo(serie, p, pow, f.ti).teaAnual
    ensures f.teaAnualPeriodo == p.indVal / 100.0
    ensures f.intPeriodo == Principal(serie, p, pow, cb, f.ti) * TasaPeriodicaFija(p, pow)
    ensures serie == B ==> f.intPeriodo == cb * TasaPeriodicaFija(p, pow)
  {
    var q := Periodo(serie, p, pow, f.ti);
    PeriodoFija(serie, p, pow, f.ti);
    FixedCoupon(cb, TasaPeriodicaFija(p, pow), Unidad(serie, p, pow, f.ti), q.cupon,
      f.intPeriodo, Principal(serie, p, pow, cb, f.ti));
  }

  /** The coupon algebra of a fixed-rate row, over plain reals: the coupon
      per unit `tpf * u` on the principal `cb` is the rate `tpf` on the
      converted principal `cb * u`. */
  lemma FixedCoupon(cb: real, tpf: real, u: real, cupon: real, interes: real, principal: real)
    requires cupon == tpf * u && interes == cb * cupon && principal == cb * u
    ensures interes == principal * tpf
    ensures u == 1.0 ==> interes == cb * tpf
  {
  }

  /** The fixed-rate series B, D and E: `ind` is the annual rate of every
      row and the rate at issue, and every coupon is the de-compounded rate
      on the principal converted at that row's date (the row's `capital`, by
      `PrincipalSchedule`); for B, whose principal stays in pesos, every
      coupon is the same. */
  lemma FixedRateSchedule(serie: Serie, p: Inputs, pow: PowFn)
    requires ValidInputs(p, pow) && serie in {B, D, E}
    ensures TeaInicial(serie, p, pow) == p.indVal / 100.0
    ensures var s := Schedule(serie, p, pow);
      forall k :: 0 <= k < |s| ==>
        && s[k].teaAnualPeriodo == p.indVal / 100.0
        && s[k].intPeriodo == Principal(serie, p, pow, CapitalBase(serie, p), s[k].ti) * TasaPeriodicaFija(p, pow)
    ensures var s := Schedule(serie, p, pow);
      serie == B ==> forall k :: 0 <= k < |s| ==> s[k].intPeriodo == CapitalBase(serie, p) * TasaPeriodicaFija(p, pow)
  {
    forall k | 0 <= k < |Schedule(serie, p, pow)|
      ensures var f := Schedule(serie, p, pow)[k];
        && f.teaAnualPeriodo == p.indVal / 100.0
        && f.intPeriodo == Principal(serie, p, pow, CapitalBase(serie, p), f.ti) * TasaPeriodicaFija(p, pow)
        && (serie == B ==> f.intPeriodo == CapitalBase(serie, p) * TasaPeriodicaFija(p, pow))
    {
      FixedRateRow(serie, p, pow, k);
    }
  }

  /** One row of series C: see `SeriesCSchedule`. */
  lemma SeriesCRow(p: Inputs, pow: PowFn, k: nat)
    requires ValidInputs(p, pow) && k < TotalPeriodos(p)
    ensures var f := Schedule(C, p, pow)[k];
      && IbrActual(p, f.ti) >= 0.0
      && f.intPeriodo == CapitalBase(C, p) * ((IbrActual(p, f.ti) + p.marVal / 100.0) / (p.periodo as real))
      && f.varDinamica == Some(IbrActual(p, f.ti) * 100.0)
  {
    ScheduleRow(C, p, pow, k);
    PeriodoC(p, pow, Schedule(C, p, pow)[k].ti);
  }

  /** Series C: on every row the projected IBR is non-negative, the coupon
      is the base principal times the IBR plus margin over `periodo`, the
      principal stays in pesos and the projected IBR is shown in percent. */
  lemma SeriesCSchedule(p: Inputs, pow: PowFn)
    requires ValidInputs(p, pow)
    ensures var s, m := Schedule(C, p, pow), p.periodo as real;
      forall k :: 0 <= k < |s| ==>
        && IbrActual(p, s[k].ti) >= 0.0
        && s[k].intPeriodo == CapitalBase(C, p) * ((IbrActual(p, s[k].ti) + p.marVal / 100.0) / m)
        && s[k].varDinamica == Some(IbrActual(p, s[k].ti) * 100.0)
  {
    var s := Schedule(C, p, pow);
    forall k | 0 <= k < |s|
      ensures IbrActual(p, s[k].ti) >= 0.0
      ensures s[k].intPeriodo == CapitalBase(C, p) * ((IbrActual(p, s[k].ti) + p.marVal / 100.0) / (p.periodo as real))
      ensures s[k].varDinamica == Some(IbrActual(p, s[k].ti) * 100.0)
    {
      SeriesCRow(p, pow, k);
    }
  }

  /** The rate reported at issue is the annual rate of the dispatch at time
      0 for A (the projected IPC is the IPC entered) and, when the IBR
      entered is not negative, for C; for the fixed-rate series it is the
      annual rate of every period. */
  lemma TeaInicialIsRateAtIssue(serie: Serie, p: Inputs, pow: PowFn)
    requires ValidInputs(p, pow)
    ensures serie == A ==> TeaInicial(serie, p, pow) == Periodo(serie, p, pow, 0.0).teaAnual
    ensures serie == C && p.indVal >= 0.0 ==> TeaInicial(serie, p, pow) == Periodo(serie, p, pow, 0.0).teaAnual
    ensures serie in {B, D, E} ==> forall t :: TeaInicial(serie, p, pow) == Periodo(serie, p, pow, t).teaAnual
  {
    if serie == A {
      assert Pow(pow, 1.0 + p.ipcGrowth / 100.0, 0.0) == 1.0;
      assert IpcProyectado(p, pow, 0.0) == p.indVal / 100.0;
    } else if serie == C && p.indVal >= 0.0 {
      assert IbrActual(p, 0.0) == p.indVal / 100.0;
    } else if serie in {B, D, E} {
      forall t
        ensures TeaInicial(serie, p, pow) == Periodo(serie, p, pow, t).teaAnual
      {
        PeriodoFija(serie, p, pow, t);
      }
    }
  }

  /** The variable shown beside each period is the projection the rate
      dispatch and the principal conversion use at that date: the IPC or
      the floored IBR in percent, the UVR, the exchange rate; none for B. */
  lemma VarDinamicaIsProjection(serie: Serie, p: Inputs, pow: PowFn, t: real)
    ensures serie == A ==> VarDinamica(serie, p, pow, t) == Some(IpcProyectado(p, pow, t) * 100.0)
    ensures serie == C ==> VarDinamica(serie, p, pow, t) == Some(IbrActual(p, t) * 100.0)
    ensures serie == D ==> VarDinamica(serie, p, pow, t) == Some(UvrActual(p, pow, t))
    ensures serie == E ==> VarDinamica(serie, p, pow, t) == Some(TrmActual(p, pow, t))
    ensures serie == B <==> VarDinamica(serie, p, pow, t).None?
  {
    match serie
    case A =>
      assert VarDinamica(A, p, pow, t) == Some(IpcProyectado(p, pow, t) * 100.0);
    case C =>
      assert VarDinamica(C, p, pow, t) == Some(IbrActual(p, t) * 100.0);
    case D =>
      assert VarDinamica(D, p, pow, t) == Some(UvrActual(p, pow, t));
    case E =>
      assert VarDinamica(E, p, pow, t) == Some(TrmActual(p, pow, t));
    case B =>
  }

  /** The currency multiplier reported with the results is the unit at
      issue: the UVR or exchange rate entered, 1 for the peso series. */
  lemma CapMultFinalIsIssueUnit(serie: Serie, p: Inputs, pow: PowFn)
    ensures CapMultFinal(serie, p) == Unidad(serie, p, pow, 0.0)
  {
    assert Pow(pow, 1.0 + p.uvrInflation / 100.0, 0.0) == 1.0;
    assert Pow(pow, 1.0 + p.trmDevaluation / 100.0, 0.0) == 1.0;
  }

  /** Without growth the projections stay at the values entered: the IPC
      and the UVR and exchange rate, and the IBR floored at zero. */
  lemma StaticIndex(p: Inputs, pow: PowFn, t: real)
    ensures p.ipcGrowth == 0.0 ==> IpcProyectado(p, pow, t) == p.indVal / 100.0
    ensures p.ibrChange == 0.0 ==> IbrActual(p, t) == Max(0.0, p.indVal / 100.0)
    ensures p.uvrInflation == 0.0 ==> UvrActual(p, pow, t) == p.uvr
    ensures p.trmDevaluation == 0.0 ==> TrmActual(p, pow, t) == p.trm
  {
    if p.ipcGrowth == 0.0 {
      assert 1.0 + p.ipcGrowth / 100.0 == 1.0;
      assert Pow(pow, 1.0, t) == 1.0;
    }
    if p.uvrInflation == 0.0 {
      assert 1.0 + p.uvrInflation / 100.0 == 1.0;
      assert Pow(pow, 1.0, t) == 1.0;
    }
    if p.trmDevaluation == 0.0 {
      assert 1.0 + p.trmDevaluation / 100.0 == 1.0;
      assert Pow(pow, 1.0, t) == 1.0;
    }
  }

  /** No growth in the series' own projection. */
  predicate Static(serie: Serie, p: Inputs)
  {
    match serie
    case A => p.ipcGrowth == 0.0
    case B => true
    case C => p.ibrChange == 0.0
    case D => p.uvrInflation == 0.0
    case E => p.trmDevaluation == 0.0
  }

  /** Without growth every period is priced as the issue date is. */
  lemma PeriodoStatic(serie: Serie, p: Inputs, pow: PowFn, t: real)
    requires ValidInputs(p, pow) && Static(serie, p)
    ensures Periodo(serie, p, pow, t) == Periodo(serie, p, pow, 0.0)
  {
    StaticIndex(p, pow, t);
    StaticIndex(p, pow, 0.0);
    match serie
    case A =>
      assert IpcProyectado(p, pow, t) == IpcProyectado(p, pow, 0.0);
    case C =>
      assert IbrActual(p, t) == IbrActual(p, 0.0);
    case D =>
      assert UvrActual(p, pow, t) == UvrActual(p, pow, 0.0);
    case E =>
      assert TrmActual(p, pow, t) == TrmActual(p, pow, 0.0);
    case B =>
  }

  /** Without growth the principal keeps its value at issue. */
  lemma PrincipalStatic(serie: Serie, p: Inputs, pow: PowFn, cb: real, t: real)
    requires Static(serie, p)
    ensures Principal(serie, p, pow, cb, t) == Principal(serie, p, pow, cb, 0.0)
  {
    StaticIndex(p, pow, t);
    StaticIndex(p, pow, 0.0);
  }

  /** One row of a schedule without growth: see `StaticSchedule`. */
  lemma StaticRow(serie: Serie, p: Inputs, pow: PowFn, k: nat)
    requires ValidInputs(p, pow) && Static(serie, p) && k < TotalPeriodos(p)
    ensures var f, cb := Schedule(serie, p, pow)[k], CapitalBase(serie, p);
      && f.intPeriodo == InteresPeriodo(cb, Periodo(serie, p, pow, 0.0))
      && f.teaAnualPeriodo == Periodo(serie, p, pow, 0.0).teaAnual
      && (serie != C || p.indVal >= 0.0 ==> f.teaAnualPeriodo == TeaInicial(serie, p, pow))
      && f.capital == cb * CapMultFinal(serie, p)
  {
    ScheduleRow(serie, p, pow, k);
    assert Periodo(serie, p, pow, Schedule(serie, p, pow)[k].ti) == Periodo(serie, p, pow, 0.0) by {
      PeriodoStatic(serie, p, pow, Schedule(serie, p, pow)[k].ti);
    }
    assert Principal(serie, p, pow, CapitalBase(serie, p), Schedule(serie, p, pow)[k].ti)
        == CapitalBase(serie, p) * CapMultFinal(serie, p) by {
      PrincipalStatic(serie, p, pow, CapitalBase(serie, p), Schedule(serie, p, pow)[k].ti);
      PrincipalAtIssue(serie, p, pow, CapitalBase(serie, p));
    }
    assert serie != C || p.indVal >= 0.0 ==> TeaInicial(serie, p, pow) == Periodo(serie, p, pow, 0.0).teaAnual by {
      TeaInicialIsRateAtIssue(serie, p, pow);
    }
  }

  /** The principal converted at the unit of issue is the principal times
      the reported multiplier. */
  lemma PrincipalAtIssue(serie: Serie, p: Inputs, pow: PowFn, cb: real)
    ensures Principal(serie, p, pow, cb, 0.0) == cb * CapMultFinal(serie, p)
  {
    CapMultFinalIsIssueUnit(serie, p, pow);
  }

  /** Without growth in the series' projection the schedule degenerates to
      the static model: every coupon is the coupon of the issue date, every
      annual rate is the annual rate of the issue date, which is the
      reported rate at issue unless series C starts from a negative IBR
      (the rows floor it at zero, the reported rate does not), and every
      principal is the principal
      converted at the unit of issue, the reported multiplier. */
  lemma StaticSchedule(serie: Serie, p: Inputs, pow: PowFn)
    requires ValidInputs(p, pow) && Static(serie, p)
    ensures var s, cb := Schedule(serie, p, pow), CapitalBase(serie, p);
      forall k :: 0 <= k < |s| ==>
        && s[k].intPeriodo == InteresPeriodo(cb, Periodo(serie, p, pow, 0.0))
        && s[k].teaAnualPeriodo == Periodo(serie, p, pow, 0.0).teaAnual
        && (serie != C || p.indVal >= 0.0 ==> s[k].teaAnualPeriodo == TeaInicial(serie, p, pow))
        && s[k].capital == cb * CapMultFinal(serie, p)
  {
    forall k | 0 <= k < |Schedule(serie, p, pow)|
      ensures var f, cb := Schedule(serie, p, pow)[k], CapitalBase(serie, p);
        && f.intPeriodo == InteresPeriodo(cb, Periodo(serie, p, pow, 0.0))
        && f.teaAnualPeriodo == Periodo(serie, p, pow, 0.0).teaAnual
        && (serie != C || p.indVal >= 0.0 ==> f.teaAnualPeriodo == TeaInicial(serie, p, pow))
        && f.capital == cb * CapMultFinal(serie, p)
    {
      StaticRow(serie, p, pow, k);
    }
  }

  lemma DivMono(a: real, b: real, m: real)
    requires a <= b && m > 0.0
    ensures a / m <= b / m
  {
    if a < b {
      DivStrict(a, b, m);
    }
  }

  /** A non-negative IBR drift never lowers the projected IBR. */
  lemma IbrNondecreasing(p: Inputs, t1: real, t2: real)
    requires p.ibrChange >= 0.0 && t1 <= t2
    ensures IbrActual(p, t1) <= IbrActual(p, t2)
  {
    var c := p.ibrChange / 100.0;
    MulMono(t1, t2, c);
    assert c * t1 <= c * t2;
    MaxMono(0.0, p.indVal / 100.0 + c * t1, p.indVal / 100.0 + c * t2);
  }

  lemma MaxMono(a: real, x: real, y: real)
    requires x <= y
    ensures Max(a, x) <= Max(a, y)
  {
  }

  /** Series C with a non-negative IBR drift and principal: the coupons
      never decrease along the schedule. */
  lemma SeriesCCouponsNondecreasing(p: Inputs, pow: PowFn)
    requires ValidInputs(p, pow) && p.ibrChange >= 0.0 && CapitalBase(C, p) >= 0.0
    ensures var s := Schedule(C, p, pow);
      forall j, k :: 0 <= j < k < |s| ==> s[j].intPeriodo <= s[k].intPeriodo
  {
    var s, m, mar := Schedule(C, p, pow), p.periodo as real, p.marVal / 100.0;
    ScheduleShape(C, p, pow);
    SeriesCSchedule(p, pow);
    forall j, k | 0 <= j < k < |s|
      ensures s[j].intPeriodo <= s[k].intPeriodo
    {
      IbrNondecreasing(p, s[j].ti, s[k].ti);
      DivMono(IbrActual(p, s[j].ti) + mar, IbrActual(p, s[k].ti) + mar, m);
      MulMono((IbrActual(p, s[j].ti) + mar) / m, (IbrActual(p, s[k].ti) + mar) / m, CapitalBase(C, p));
    }
  }

  /** With non-negative present values and a positive price, the duration
      is defined and lies between the first payment date `1 / periodo` and
      the term `plazo`. */
  lemma DurationWithinTerm(serie: Serie, p: Inputs, pow: PowFn)
    requires ValidInputs(p, pow)
    requires forall k :: 0 <= k < |Schedule(serie, p, pow)| ==> Schedule(serie, p, pow)[k].vp >= 0.0
    requires SumVP(Schedule(serie, p, pow)) > 0.0
    ensures var s := Schedule(serie, p, pow);
      && CalcDuracion(s, SumVP(s)).Some?
      && 1.0 / (p.periodo as real) <= CalcDuracion(s, SumVP(s)).value <= p.plazo as real
  {
    var s := Schedule(serie, p, pow);
    ScheduleShape(serie, p, pow);
    assert s != [];
    var lo, hi := s[0].ti, s[|s| - 1].ti;
    forall k | 0 <= k < |s|
      ensures lo <= s[k].ti <= hi
    {
    }
    DurationBounds(s, lo, hi);
  }

  /** Series C from its inputs alone: with at least one bond, a term of at
      least a year and a non-negative margin, every present value is
      non-negative and the price is positive, so the duration is defined
      and lies between `1 / periodo` and `plazo`. */
  lemma SeriesCDurationWithinTerm(p: Inputs, pow: PowFn)
    requires ValidInputs(p, pow) && p.plazo >= 1 && p.numBonos >= 1 && p.marVal >= 0.0
    ensures var s := Schedule(C, p, pow);
      && CalcDuracion(s, SumVP(s)).Some?
      && 1.0 / (p.periodo as real) <= CalcDuracion(s, SumVP(s)).value <= p.plazo as real
  {
    var s := Schedule(C, p, pow);
    ScheduleShape(C, p, pow);
    forall k | 0 <= k < |s|
      ensures s[k].vp >= 0.0
      ensures k == |s| - 1 ==> s[k].vp > 0.0
    {
      SeriesCRowPositive(p, pow, k);
    }
    SumVPPositive(s);
    DurationWithinTerm(C, p, pow);
  }

  /** One row of series C under the hypotheses of
      `SeriesCDurationWithinTerm`: its present value is non-negative, and
      positive on the last row, which repays the principal. */
  lemma SeriesCRowPositive(p: Inputs, pow: PowFn, k: nat)
    requires ValidInputs(p, pow) && p.numBonos >= 1 && p.marVal >= 0.0 && k < TotalPeriodos(p)
    ensures Schedule(C, p, pow)[k].vp >= 0.0
    ensures k == TotalPeriodos(p) - 1 ==> Schedule(C, p, pow)[k].vp > 0.0
  {
    var f, cb, m := Schedule(C, p, pow)[k], CapitalBase(C, p), p.periodo as real;
    assert cb > 0.0 by {
      assert Config(C).nominal > 0.0;
      MulStrict(0.0, Config(C).nominal, p.numBonos as real);
    }
    ScheduleRow(C, p, pow, k);
    SeriesCRow(p, pow, k);
    var x := IbrActual(p, f.ti) + p.marVal / 100.0;
    assert x / m >= 0.0 by {
      DivMono(0.0, x, m);
    }
    MulMono(0.0, x / m, cb);
    assert f.intPeriodo >= 0.0;
    assert f.amort >= 0.0 && (k == TotalPeriodos(p) - 1 ==> f.amort == cb);
    PresentValueFacts(p, pow, f.flujoTotal, f.ti);
    if k == TotalPeriodos(p) - 1 {
      PositiveValue(f.vp, Discount(p, pow, f.ti), f.flujoTotal);
    }
  }

  /** A value that a positive factor turns into a positive amount is
      positive. */
  lemma PositiveValue(v: real, d: real, x: real)
    requires d > 0.0 && v * d == x && x > 0.0
    ensures v > 0.0
  {
    if v <= 0.0 {
      MulMono(v, 0.0, d);
    }
  }

  // Linearity in the principal: the coupon, flow and present value of
  // every row are the principal times those of one unit of face value, so
  // the interest total, the price and the duration numerator are too.

  /** `c` times `x`: an amount per unit of face value on a principal of
      `c` pesos. */
  function Escala(c: real, x: real): real
  {
    c * x
  }

  /** The principal repaid on one unit of face value in period `i`. */
  function AmortUnitaria(serie: Serie, p: Inputs, pow: PowFn, i: nat): real
    requires ValidInputs(p, pow)
  {
    if i == TotalPeriodos(p) then Unidad(serie, p, pow, (i as real) / (p.periodo as real)) else 0.0
  }

  /** The flow paid on one unit of face value in period `i`. */
  function FlujoUnitario(serie: Serie, p: Inputs, pow: PowFn, i: nat): real
    requires ValidInputs(p, pow)
  {
    Periodo(serie, p, pow, (i as real) / (p.periodo as real)).cupon + AmortUnitaria(serie, p, pow, i)
  }

  /** The coupons of one unit of face value over the first `n` periods. */
  function Cupones(serie: Serie, p: Inputs, pow: PowFn, n: nat): (xs: seq<real>)
    requires ValidInputs(p, pow)
    ensures |xs| == n
  {
    if n == 0 then []
    else Cupones(serie, p, pow, n - 1) + [Periodo(serie, p, pow, (n as real) / (p.periodo as real)).cupon]
  }

  /** The present values of the flows of one unit of face value over the
      first `n` periods. */
  function Valores(serie: Serie, p: Inputs, pow: PowFn, n: nat): (xs: seq<real>)
    requires ValidInputs(p, pow)
    ensures |xs| == n
  {
    if n == 0 then []
    else
      Valores(serie, p, pow, n - 1)
      + [PresentValue(p, pow, FlujoUnitario(serie, p, pow, n), (n as real) / (p.periodo as real))]
  }

  /** Sum of a column of reals. */
  function SumR(xs: seq<real>): real
  {
    if xs == [] then 0.0 else SumR(xs[..|xs| - 1]) + xs[|xs| - 1]
  }

  /** Sum of `((k + 1) / m) * xs[k]`: values weighted by their payment time. */
  function SumPonderada(xs: seq<real>, m: nat): real
    requires m >= 1
  {
    if xs == [] then 0.0
    else SumPonderada(xs[..|xs| - 1], m) + ((|xs| as real) / (m as real)) * xs[|xs| - 1]
  }

  lemma {:induction false} CuponesAt(serie: Serie, p: Inputs, pow: PowFn, n: nat, k: nat)
    requires ValidInputs(p, pow) && k < n
    ensures Cupones(serie, p, pow, n)[k] == Periodo(serie, p, pow, ((k + 1) as real) / (p.periodo as real)).cupon
  {
    if k < n - 1 {
      CuponesAt(serie, p, pow, n - 1, k);
    }
  }

  lemma {:induction false} ValoresAt(serie: Serie, p: Inputs, pow: PowFn, n: nat, k: nat)
    requires ValidInputs(p, pow) && k < n
    ensures Valores(serie, p, pow, n)[k]
      == PresentValue(p, pow, FlujoUnitario(serie, p, pow, k + 1), ((k + 1) as real) / (p.periodo as real))
  {
    if k < n - 1 {
      ValoresAt(serie, p, pow, n - 1, k);
    }
  }

  /** Scaling a flow scales its present value. */
  lemma PresentValueScales(p: Inputs, pow: PowFn, c: real, x: real, t: real)
    requires ValidInputs(p, pow)
    ensures PresentValue(p, pow, c * x, t) == c * PresentValue(p, pow, x, t)
  {
    var d := Discount(p, pow, t);
    assert d > 0.0;
    assert (c * x) / d == c * (x / d);
  }

  /** Linearity of a sum, over plain reals. */
  lemma SumScales(c: real, a0: real, b0: real, a1: real, b1: real)
    requires a1 == c * a0 && b1 == c * b0
    ensures a1 + b1 == c * (a0 + b0)
  {
  }

  /** The flow algebra of a row, over plain values: a row whose principal
      is `cb * u` and whose coupon is `cb * cu` pays `cb` times the flow
      `fu` of one unit of face value, and is worth `cb` times its value. */
  lemma FlujoLinear(p: Inputs, pow: PowFn, cb: real, last: bool, f: Flujo, cu: real, u: real, fu: real)
    requires ValidInputs(p, pow)
    requires f.capital == Escala(cb, u) && f.intPeriodo == Escala(cb, cu)
    requires f.amort == (if last then f.capital else 0.0)
    requires f.flujoTotal == f.intPeriodo + f.amort
    requires f.vp == PresentValue(p, pow, f.flujoTotal, f.ti)
    requires fu == cu + (if last then u else 0.0)
    ensures f.flujoTotal == Escala(cb, fu)
    ensures f.vp == Escala(cb, PresentValue(p, pow, fu, f.ti))
  {
    var au := if last then u else 0.0;
    assert f.amort == cb * au;
    SumScales(cb, cu, au, f.intPeriodo, f.amort);
    PresentValueScales(p, pow, cb, fu, f.ti);
  }

  /** One step of a running sum that stays `c` times another. */
  lemma LinearStep(c: real, s0: real, u0: real, a: real, ua: real, s1: real, u1: real)
    requires s0 == Escala(c, u0) && a == Escala(c, ua) && s1 == s0 + a && u1 == u0 + ua
    ensures s1 == Escala(c, u1)
  {
  }

  /** `t * (c * x) == c * (t * x)`, over plain reals. */
  lemma MulSwap(t: real, u: real, c: real, x: real, v: real)
    requires t == u && v == Escala(c, x)
    ensures t * v == Escala(c, u * x)
  {
  }

  /** Rows that pay `cb` times a unit coupon pay `cb` times the unit
      interest. */
  lemma {:induction false} SumIntScale(s: seq<Flujo>, cu: seq<real>, cb: real)
    requires |cu| == |s|
    requires forall k :: 0 <= k < |s| ==> s[k].intPeriodo == Escala(cb, cu[k])
    ensures SumInt(s) == Escala(cb, SumR(cu))
  {
    if s != [] {
      var n := |s|;
      SumIntScale(s[..n - 1], cu[..n - 1], cb);
      LinearStep(cb, SumInt(s[..n - 1]), SumR(cu[..n - 1]), s[n - 1].intPeriodo, cu[n - 1], SumInt(s), SumR(cu));
    }
  }

  /** Rows worth `cb` times a unit value are worth `cb` times the unit
      price. */
  lemma {:induction false} SumVPScale(s: seq<Flujo>, vp: seq<real>, cb: real)
    requires |vp| == |s|
    requires forall k :: 0 <= k < |s| ==> s[k].vp == Escala(cb, vp[k])
    ensures SumVP(s) == Escala(cb, SumR(vp))
  {
    if s != [] {
      var n := |s|;
      SumVPScale(s[..n - 1], vp[..n - 1], cb);
      LinearStep(cb, SumVP(s[..n - 1]), SumR(vp[..n - 1]), s[n - 1].vp, vp[n - 1], SumVP(s), SumR(vp));
    }
  }

  /** Rows worth `cb` times a unit value, row `k` paid at `(k + 1) / m`,
      have `cb` times the unit duration numerator. */
  lemma {:induction false} SumTiVPScale(s: seq<Flujo>, vp: seq<real>, cb: real, m: nat)
    requires m >= 1 && |vp| == |s|
    requires forall k :: 0 <= k < |s| ==> s[k].vp == Escala(cb, vp[k]) && s[k].ti == ((k + 1) as real) / (m as real)
    ensures SumTiVP(s) == Escala(cb, SumPonderada(vp, m))
  {
    if s != [] {
      var init, vinit := s[..|s| - 1], vp[..|vp| - 1];
      assert SumTiVP(init) == Escala(cb, SumPonderada(vinit, m)) by {
        SumTiVPScale(init, vinit, cb, m);
      }
      MulSwap(s[|s| - 1].ti, (|vp| as real) / (m as real), cb, vp[|vp| - 1], s[|s| - 1].vp);
      LinearStep(cb, SumTiVP(init), SumPonderada(vinit, m),
        s[|s| - 1].ti * s[|s| - 1].vp, ((|vp| as real) / (m as real)) * vp[|vp| - 1],
        SumTiVP(s), SumPonderada(vp, m));
    }
  }

  /** Row `k` of a principal `cb` pays `cb` times the coupon of one unit. */
  lemma UnitCouponRow(serie: Serie, p: Inputs, pow: PowFn, cb: real, n: nat, k: nat)
    requires ValidInputs(p, pow) && k < n
    ensures Rows(serie, p, pow, cb, n)[k].intPeriodo == Escala(cb, Cupones(serie, p, pow, n)[k])
  {
    var f := Rows(serie, p, pow, cb, n)[k];
    RowsEntry(serie, p, pow, cb, n, k);
    CuponesAt(serie, p, pow, n, k);
    UnitCoupon(cb, f, Cupones(serie, p, pow, n)[k], Periodo(serie, p, pow, f.ti));
  }

  /** A coupon computed on the principal `cb` is `cb` times the coupon of
      one unit. */
  lemma UnitCoupon(cb: real, f: Flujo, x: real, q: Tasas)
    requires f.intPeriodo == InteresPeriodo(cb, q) && x == q.cupon
    ensures f.intPeriodo == Escala(cb, x)
  {
  }


  /** Row `k` of a principal `cb` is worth `cb` times the value of one
      unit's flow. */
  lemma UnitValueRow(serie: Serie, p: Inputs, pow: PowFn, cb: real, n: nat, k: nat)
    requires ValidInputs(p, pow) && k < n && n == TotalPeriodos(p)
    ensures Rows(serie, p, pow, cb, n)[k].vp == Escala(cb, Valores(serie, p, pow, n)[k])
  {
    RowsEntry(serie, p, pow, cb, n, k);
    ValoresAt(serie, p, pow, n, k);
    UnitValue(serie, p, pow, cb, k, Rows(serie, p, pow, cb, n)[k], Valores(serie, p, pow, n)[k]);
  }

  /** A row `f` of period `k + 1` computed from the principal `cb` is worth
      `cb` times the value `v` of one unit's flow. */
  lemma UnitValue(serie: Serie, p: Inputs, pow: PowFn, cb: real, k: nat, f: Flujo, v: real)
    requires ValidInputs(p, pow)
    requires f.ti == ((k + 1) as real) / (p.periodo as real)
    requires f.capital == Principal(serie, p, pow, cb, f.ti)
    requires f.amort == (if k + 1 == TotalPeriodos(p) then f.capital else 0.0)
    requires f.flujoTotal == f.intPeriodo + f.amort
    requires f.vp == PresentValue(p, pow, f.flujoTotal, f.ti)
    requires f.intPeriodo == InteresPeriodo(cb, Periodo(serie, p, pow, f.ti))
    requires v == PresentValue(p, pow, FlujoUnitario(serie, p, pow, k + 1), ((k + 1) as real) / (p.periodo as real))
    ensures f.vp == Escala(cb, v)
  {
    var fu := FlujoUnitario(serie, p, pow, k + 1);
    FlujoLinear(p, pow, cb, k + 1 == TotalPeriodos(p), f, Periodo(serie, p, pow, f.ti).cupon, Unidad(serie, p, pow, f.ti), fu);
  }

  /** The interest of a principal `cb` is `cb` times that of one unit of
      face value. */
  lemma RowsUnitInterest(serie: Serie, p: Inputs, pow: PowFn, cb: real, n: nat)
    requires ValidInputs(p, pow)
    ensures SumInt(Rows(serie, p, pow, cb, n)) == Escala(cb, SumR(Cupones(serie, p, pow, n)))
  {
    var s := Rows(serie, p, pow, cb, n);
    var cu := Cupones(serie, p, pow, n);
    forall k | 0 <= k < |s|
      ensures s[k].intPeriodo == Escala(cb, cu[k])
    {
      UnitCouponRow(serie, p, pow, cb, n, k);
    }
    SumIntScale(s, cu, cb);
  }

  /** The price of a principal `cb` is `cb` times that of one unit of face
      value. */
  lemma RowsUnitPrice(serie: Serie, p: Inputs, pow: PowFn, cb: real)
    requires ValidInputs(p, pow)
    ensures SumVP(Rows(serie, p, pow, cb, TotalPeriodos(p)))
      == Escala(cb, SumR(Valores(serie, p, pow, TotalPeriodos(p))))
  {
    var n := TotalPeriodos(p);
    var s := Rows(serie, p, pow, cb, n);
    var vs := Valores(serie, p, pow, n);
    forall k | 0 <= k < |s|
      ensures s[k].vp == Escala(cb, vs[k])
    {
      UnitValueRow(serie, p, pow, cb, n, k);
    }
    SumVPScale(s, vs, cb);
  }

  /** The duration numerator of a principal `cb` is `cb` times that of one
      unit of face value. */
  lemma RowsUnitWeighted(serie: Serie, p: Inputs, pow: PowFn, cb: real)
    requires ValidInputs(p, pow)
    ensures SumTiVP(Rows(serie, p, pow, cb, TotalPeriodos(p)))
      == Escala(cb, SumPonderada(Valores(serie, p, pow, TotalPeriodos(p)), p.periodo))
  {
    var n := TotalPeriodos(p);
    var s := Rows(serie, p, pow, cb, n);
    var vs := Valores(serie, p, pow, n);
    forall k | 0 <= k < |s|
      ensures s[k].vp == Escala(cb, vs[k]) && s[k].ti == ((k + 1) as real) / (p.periodo as real)
    {
      UnitValueRow(serie, p, pow, cb, n, k);
      RowsEntry(serie, p, pow, cb, n, k);
    }
    SumTiVPScale(s, vs, cb, p.periodo);
  }

  // The number of bonds only scales the principal: the coupons and values
  // of one unit of face value do not depend on it.

  /** Changing the number of bonds keeps the inputs valid. */
  lemma BonosValid(p: Inputs, pow: PowFn, k: int)
    requires ValidInputs(p, pow)
    ensures ValidInputs(p.(numBonos := k), pow)
  {
    var q := p.(numBonos := k);
    forall t: real
      ensures Discount(q, pow, t) > 0.0
    {
      assert Discount(q, pow, t) == Discount(p, pow, t);
    }
  }

  /** The rate dispatch does not read the number of bonds. */
  lemma PeriodoBonos(serie: Serie, p: Inputs, pow: PowFn, k: int, t: real)
    requires ValidInputs(p, pow) && ValidInputs(p.(numBonos := k), pow)
    ensures Periodo(serie, p.(numBonos := k), pow, t) == Periodo(serie, p, pow, t)
  {
    var q := p.(numBonos := k);
    match serie
    case A =>
      assert IpcProyectado(q, pow, t) == IpcProyectado(p, pow, t);
    case B =>
    case C =>
      assert IbrActual(q, t) == IbrActual(p, t);
    case D =>
      assert UvrActual(q, pow, t) == UvrActual(p, pow, t);
    case E =>
      assert TrmActual(q, pow, t) == TrmActual(p, pow, t);
  }

  /** The unit coupons do not depend on the number of bonds. */
  lemma {:induction false} CuponesBonos(serie: Serie, p: Inputs, pow: PowFn, k: int, n: nat)
    requires ValidInputs(p, pow) && ValidInputs(p.(numBonos := k), pow)
    ensures Cupones(serie, p.(numBonos := k), pow, n) == Cupones(serie, p, pow, n)
  {
    if n > 0 {
      CuponesBonos(serie, p, pow, k, n - 1);
      PeriodoBonos(serie, p, pow, k, (n as real) / (p.periodo as real));
    }
  }

  /** The unit present values do not depend on the number of bonds. */
  lemma {:induction false} ValoresBonos(serie: Serie, p: Inputs, pow: PowFn, k: int, n: nat)
    requires ValidInputs(p, pow) && ValidInputs(p.(numBonos := k), pow)
    ensures Valores(serie, p.(numBonos := k), pow, n) == Valores(serie, p, pow, n)
  {
    if n > 0 {
      ValoresBonos(serie, p, pow, k, n - 1);
      FlujoBonos(serie, p, pow, k, n);
      PresentValueBonos(p, pow, k, FlujoUnitario(serie, p, pow, n), (n as real) / (p.periodo as real));
    }
  }

  /** The flow of one unit of face value does not depend on the number of
      bonds. */
  lemma FlujoBonos(serie: Serie, p: Inputs, pow: PowFn, k: int, n: nat)
    requires ValidInputs(p, pow) && ValidInputs(p.(numBonos := k), pow)
    ensures FlujoUnitario(serie, p.(numBonos := k), pow, n) == FlujoUnitario(serie, p, pow, n)
  {
    var t := (n as real) / (p.periodo as real);
    PeriodoBonos(serie, p, pow, k, t);
    assert AmortUnitaria(serie, p.(numBonos := k), pow, n) == AmortUnitaria(serie, p, pow, n);
  }

  /** Discounting does not depend on the number of bonds. */
  lemma PresentValueBonos(p: Inputs, pow: PowFn, k: int, x: real, t: real)
    requires ValidInputs(p, pow) && ValidInputs(p.(numBonos := k), pow)
    ensures PresentValue(p.(numBonos := k), pow, x, t) == PresentValue(p, pow, x, t)
  {
    assert Discount(p.(numBonos := k), pow, t) == Discount(p, pow, t);
  }

  /** Over plain reals: totals taken on principals `nb * cq` and `cq` of
      the same unit total stand in the ratio `nb`. */
  lemma BonosRatio(nb: real, cp: real, cq: real, u: real, a: real, b: real)
    requires cp == nb * cq && a == Escala(cp, u) && b == Escala(cq, u)
    ensures a == Escala(nb, b)
  {
  }

  /** Over plain reals: scaling a ratio's numerator and denominator by the
      same non-zero factor leaves it unchanged. */
  lemma RatioScale(c: real, x: real, y: real, a: real, b: real)
    requires c != 0.0 && y != 0.0 && a == Escala(c, x) && b == Escala(c, y)
    ensures a / b == x / y
  {
    assert a * y == b * x;
  }

  /** The principal of `numBonos` bonds is `numBonos` times that of one. */
  lemma CapitalBonos(serie: Serie, p: Inputs)
    ensures CapitalBase(serie, p) == (p.numBonos as real) * CapitalBase(serie, p.(numBonos := 1))
  {
  }

  /** The total interest of `numBonos` bonds is `numBonos` times that of a
      single bond. */
  lemma NumBonosInterest(serie: Serie, p: Inputs, q: Inputs, pow: PowFn)
    requires ValidInputs(p, pow) && q == p.(numBonos := 1)
    ensures ValidInputs(q, pow)
    ensures SumInt(Schedule(serie, p, pow)) == Escala(p.numBonos as real, SumInt(Schedule(serie, q, pow)))
  {
    BonosValid(p, pow, 1);
    var n := TotalPeriodos(p);
    var cp, cq := CapitalBase(serie, p), CapitalBase(serie, q);
    var u := SumR(Cupones(serie, p, pow, n));
    var a, b := SumInt(Schedule(serie, p, pow)), SumInt(Schedule(serie, q, pow));
    assert a == Escala(cp, u) by {
      RowsUnitInterest(serie, p, pow, cp, n);
    }
    assert b == Escala(cq, u) by {
      assert TotalPeriodos(q) == n;
      RowsUnitInterest(serie, q, pow, cq, n);
      CuponesBonos(serie, p, pow, 1, n);
    }
    CapitalBonos(serie, p);
    BonosRatio(p.numBonos as real, cp, cq, u,
      SumInt(Schedule(serie, p, pow)), SumInt(Schedule(serie, q, pow)));
  }

  /** The price of `numBonos` bonds is `numBonos` times that of a single
      bond. */
  lemma NumBonosPrice(serie: Serie, p: Inputs, q: Inputs, pow: PowFn)
    requires ValidInputs(p, pow) && q == p.(numBonos := 1)
    ensures ValidInputs(q, pow)
    ensures SumVP(Schedule(serie, p, pow)) == Escala(p.numBonos as real, SumVP(Schedule(serie, q, pow)))
  {
    BonosValid(p, pow, 1);
    var n := TotalPeriodos(p);
    var cp, cq := CapitalBase(serie, p), CapitalBase(serie, q);
    var u := SumR(Valores(serie, p, pow, n));
    var a, b := SumVP(Schedule(serie, p, pow)), SumVP(Schedule(serie, q, pow));
    assert a == Escala(cp, u) by {
      RowsUnitPrice(serie, p, pow, cp);
    }
    assert b == Escala(cq, u) by {
      assert TotalPeriodos(q) == n;
      RowsUnitPrice(serie, q, pow, cq);
      ValoresBonos(serie, p, pow, 1, n);
    }
    CapitalBonos(serie, p);
    BonosRatio(p.numBonos as real, cp, cq, u,
      SumVP(Schedule(serie, p, pow)), SumVP(Schedule(serie, q, pow)));
  }

  /** The duration numerator of `numBonos` bonds is `numBonos` times that
      of a single bond. */
  lemma NumBonosWeighted(serie: Serie, p: Inputs, q: Inputs, pow: PowFn)
    requires ValidInputs(p, pow) && q == p.(numBonos := 1)
    ensures ValidInputs(q, pow)
    ensures SumTiVP(Schedule(serie, p, pow)) == Escala(p.numBonos as real, SumTiVP(Schedule(serie, q, pow)))
  {
    BonosValid(p, pow, 1);
    var n := TotalPeriodos(p);
    var cp, cq := CapitalBase(serie, p), CapitalBase(serie, q);
    var u := SumPonderada(Valores(serie, p, pow, n), p.periodo);
    var a, b := SumTiVP(Schedule(serie, p, pow)), SumTiVP(Schedule(serie, q, pow));
    assert a == Escala(cp, u) by {
      RowsUnitWeighted(serie, p, pow, cp);
    }
    assert b == Escala(cq, u) by {
      assert TotalPeriodos(q) == n;
      RowsUnitWeighted(serie, q, pow, cq);
      ValoresBonos(serie, p, pow, 1, n);
    }
    CapitalBonos(serie, p);
    BonosRatio(p.numBonos as real, cp, cq, u,
      SumTiVP(Schedule(serie, p, pow)), SumTiVP(Schedule(serie, q, pow)));
  }

  /** The duration does not depend on the number of bonds (which is never
      zero). */
  lemma DurationIndependentOfBonos(serie: Serie, p: Inputs, q: Inputs, pow: PowFn)
    requires ValidInputs(p, pow) && q == p.(numBonos := 1) && p.numBonos != 0
    ensures ValidInputs(q, pow)
    ensures CalcDuracion(Schedule(serie, p, pow), SumVP(Schedule(serie, p, pow)))
      == CalcDuracion(Schedule(serie, q, pow), SumVP(Schedule(serie, q, pow)))
  {
    NumBonosPrice(serie, p, q, pow);
    NumBonosWeighted(serie, p, q, pow);
    var sp, sq := Schedule(serie, p, pow), Schedule(serie, q, pow);
    assert |sp| == |sq|;
    var c := p.numBonos as real;
    if SumVP(sq) == 0.0 {
      assert SumVP(sp) == 0.0;
    } else {
      assert SumVP(sp) != 0.0;
      RatioScale(c, SumTiVP(sq), SumVP(sq), SumTiVP(sp), SumVP(sp));
    }
  }
}
