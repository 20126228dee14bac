/**
 The bond cash-flow engine: from a series key and the calculator's inputs it
 builds the schedule of periodic payments and the aggregate figures (total
 interest, price, Macaulay duration, initial effective annual rate).
 */
module Engine {
  import opened Wrappers
  import opened SeriesConfig
  import opened CashFlow

  /** `Math.pow` as this engine uses it, kept abstract except for three
      laws the floating-point function obeys exactly: a power of 1 is 1, the
      exponent 0 gives 1 and the exponent 1 gives the base back. */
  type PowFn = f: (real, real) -> real |
      (forall e: real :: f(1.0, e) == 1.0)
      && (forall b: real :: f(b, 0.0) == 1.0)
      && (forall b: real :: f(b, 1.0) == b)
    witness (b: real, e: real) => if e == 0.0 then 1.0 else if e == 1.0 then b else 1.0

  /** `Math.pow(b, e)`. */
  function Pow(pow: PowFn, b: real, e: real): real
  {
    pow(b, e)
  }

  /** The calculator's state that the engine reads. Rates are percentages,
      as entered; `periodo` is the number of payments per year. */
  datatype Inputs = Inputs(
    numBonos: int,
    indVal: real,
    marVal: real,
    plazo: nat,
    periodo: nat,
    uvr: real,
    trm: real,
    descVal: real,
    ipcGrowth: real,
    ibrChange: real,
    uvrInflation: real,
    trmDevaluation: real)

  /** What the engine returns to the page. `dur` is absent when it is not a
      finite number. */
  datatype Results = Results(
    flujos: seq<Flujo>,
    teaInicial: real,
    precio: real,
    totalIntereses: real,
    capitalBase: real,
    capMultFinal: real,
    m: nat,
    dur: Option<real>,
    plazo: nat,
    totalPeriodos: nat,
    r: real)

  /** The discount factor `(1 + r)^t`. */
  function Discount(p: Inputs, pow: PowFn, t: real): real
  {
    Pow(pow, 1.0 + p.descVal / 100.0, t)
  }

  /** The value today of `flujo` paid `t` years ahead. */
  function PresentValue(p: Inputs, pow: PowFn, flujo: real, t: real): real
    requires ValidInputs(p, pow)
  {
    flujo / Discount(p, pow, t)
  }

  /** At least one payment a year, and a discount factor that is positive at
      every time (as `Math.pow` is for a discount rate above -100%). */
  ghost predicate ValidInputs(p: Inputs, pow: PowFn)
  {
    p.periodo >= 1 && forall t: real :: Discount(p, pow, t) > 0.0
  }

  /** `Math.max` on two reals. */
  function Max(a: real, b: real): (r: real)
    ensures r >= a && r >= b
    ensures r == a || r == b
  {
    if a >= b then a else b
  }

  function TotalPeriodos(p: Inputs): nat
  {
    p.plazo * p.periodo
  }

  function CapitalBase(serie: Serie, p: Inputs): real
  {
    Config(serie).nominal * (p.numBonos as real)
  }

  /** The IPC projected `t` years ahead, compounding at `ipcGrowth` % a year. */
  function IpcProyectado(p: Inputs, pow: PowFn, t: real): real
  {
    (p.indVal / 100.0) * Pow(pow, 1.0 + p.ipcGrowth / 100.0, t)
  }

  /** The IBR projected `t` years ahead, drifting by `ibrChange` % a year and
      floored at zero. */
  function IbrActual(p: Inputs, t: real): real
  {
    Max(0.0, p.indVal / 100.0 + (p.ibrChange / 100.0) * t)
  }

  /** The UVR projected `t` years ahead, growing with `uvrInflation` % a year. */
  function UvrActual(p: Inputs, pow: PowFn, t: real): real
  {
    p.uvr * Pow(pow, 1.0 + p.uvrInflation / 100.0, t)
  }

  /** The exchange rate projected `t` years ahead, growing with `trmDevaluation` % a year. */
  function TrmActual(p: Inputs, pow: PowFn, t: real): real
  {
    p.trm * Pow(pow, 1.0 + p.trmDevaluation / 100.0, t)
  }

  /** What the rate dispatch yields for a period: the effective annual
      rate, the periodic rate and the coupon paid per unit of face value
      (the periodic rate, times the projected UVR or exchange rate for D and
      E). */
  datatype Tasas = Tasas(
    teaAnual: real,
    iPeriodica: real,
    cupon: real)

  /** The rate dispatch. A compounds the projected IPC with the margin; B
      and, on a principal converted at the projected UVR or exchange rate, D
      and E pay a fixed effective annual rate; C splits the nominal IBR plus
      margin evenly over the periods. */
  function Periodo(serie: Serie, p: Inputs, pow: PowFn, t: real): Tasas
    requires ValidInputs(p, pow)
  {
    var ind, mar, m := p.indVal / 100.0, p.marVal / 100.0, p.periodo as real;
    match serie
    case A =>
      var tea := (1.0 + IpcProyectado(p, pow, t)) * (1.0 + mar) - 1.0;
      var iPeriodica := Pow(pow, 1.0 + tea, 1.0 / m) - 1.0;
      Tasas(tea, iPeriodica, iPeriodica)
    case B =>
      var iPeriodica := Pow(pow, 1.0 + ind, 1.0 / m) - 1.0;
      Tasas(ind, iPeriodica, iPeriodica)
    case C =>
      var iPeriodica := (IbrActual(p, t) + mar) / m;
      Tasas(Pow(pow, 1.0 + iPeriodica, m) - 1.0, iPeriodica, iPeriodica)
    case D =>
      var iPeriodica := Pow(pow, 1.0 + ind, 1.0 / m) - 1.0;
      Tasas(ind, iPeriodica, iPeriodica * UvrActual(p, pow, t))
    case E =>
      var iPeriodica := Pow(pow, 1.0 + ind, 1.0 / m) - 1.0;
      Tasas(ind, iPeriodica, iPeriodica * TrmActual(p, pow, t))
  }

  /** The coupon of a period on a principal of `capitalBase` pesos. */
  function InteresPeriodo(capitalBase: real, q: Tasas): real
  {
    capitalBase * q.cupon
  }

  /** The projected variable shown beside a period `t` years ahead: the IPC
      or IBR in percent, the UVR or the exchange rate; absent for B. */
  function VarDinamica(serie: Serie, p: Inputs, pow: PowFn, t: real): Option<real>
  {
    var ind := p.indVal / 100.0;
    if serie == A then Some(ind * Pow(pow, 1.0 + p.ipcGrowth / 100.0, t) * 100.0)
    else if serie == C then Some(Max(0.0, ind + (p.ibrChange / 100.0) * t) * 100.0)
    else if serie == D then Some(p.uvr * Pow(pow, 1.0 + p.uvrInflation / 100.0, t))
    else if serie == E then Some(p.trm * Pow(pow, 1.0 + p.trmDevaluation / 100.0, t))
    else None
  }

  /** The value in pesos of one unit of the series' currency, given the
      UVR and exchange rate of the date: the UVR for D, the exchange rate
      for E, 1 for the peso series. */
  function UnidadDe(serie: Serie, uvr: real, trm: real): real
  {
    if serie == D then uvr else if serie == E then trm else 1.0
  }

  /** The row of period `i`, `ti` years after issue, once the rate dispatch
      has produced its coupon, its annual rate and the UVR and exchange rate
      of that date: the principal converted to pesos, the bullet amortization
      on the last period, the whole flow and its present value. */
  function Fila(serie: Serie, p: Inputs, pow: PowFn, capitalBase: real, i: nat, ti: real,
                intPeriodo: real, teaAnualPeriodo: real, uvrActual: real, trmActual: real): Flujo
    requires ValidInputs(p, pow)
  {
    var esUltimo := i == p.plazo * p.periodo;
    var unidad := UnidadDe(serie, uvrActual, trmActual);
    var amort := if esUltimo then capitalBase * unidad else 0.0;
    var flujoTotal := intPeriodo + amort;
    Flujo(i, capitalBase * unidad, intPeriodo, amort, flujoTotal, PresentValue(p, pow, flujoTotal, ti), ti,
          teaAnualPeriodo, VarDinamica(serie, p, pow, ti))
  }

  /** Row `i` of the schedule of a principal of `capitalBase` pesos. */
  function Row(serie: Serie, p: Inputs, pow: PowFn, capitalBase: real, i: nat): Flujo
    requires ValidInputs(p, pow)
  {
    var ti := (i as real) / (p.periodo as real);
    var q := Periodo(serie, p, pow, ti);
    Fila(serie, p, pow, capitalBase, i, ti, InteresPeriodo(capitalBase, q), q.teaAnual,
         if serie == D then UvrActual(p, pow, ti) else p.uvr,
         if serie == E then TrmActual(p, pow, ti) else p.trm)
  }

  /** The first `k` rows of the schedule of a principal of `capitalBase`
      pesos, in order. */
  function Rows(serie: Serie, p: Inputs, pow: PowFn, capitalBase: real, k: nat): (s: seq<Flujo>)
    requires ValidInputs(p, pow)
    ensures |s| == k
  {
    if k == 0 then [] else Rows(serie, p, pow, capitalBase, k - 1) + [Row(serie, p, pow, capitalBase, k)]
  }

  /** The whole schedule: `plazo * periodo` rows. */
  function Schedule(serie: Serie, p: Inputs, pow: PowFn): seq<Flujo>
    requires ValidInputs(p, pow)
  {
    Rows(serie, p, pow, CapitalBase(serie, p), TotalPeriodos(p))
  }

  /** The effective annual rate at issue. */
  function TeaInicial(serie: Serie, p: Inputs, pow: PowFn): real
    requires ValidInputs(p, pow)
  {
    var ind, mar, m := p.indVal / 100.0, p.marVal / 100.0, p.periodo as real;
    if serie == A then (1.0 + ind) * (1.0 + mar) - 1.0
    else if serie == C then Pow(pow, 1.0 + (ind + mar) / m, m) - 1.0
    else ind
  }

  /** The currency multiplier of the principal reported with the results:
      the UVR or exchange rate entered for today, 1 for peso series. */
  function CapMultFinal(serie: Serie, p: Inputs): real
  {
    UnidadDe(serie, p.uvr, p.trm)
  }

  /** The rate dispatch of one period, `yearFraction` years after issue:
      the series' projection of its index or currency unit, its annual rate
      and the period's coupon. */
  method CalcularPeriodo(serie: Serie, p: Inputs, pow: PowFn, capitalBase: real, yearFraction: real)
    returns (intPeriodo: real, teaAnualPeriodo: real, uvrActual: real, trmActual: real)
    requires ValidInputs(p, pow)
    ensures intPeriodo == InteresPeriodo(capitalBase, Periodo(serie, p, pow, yearFraction))
    ensures teaAnualPeriodo == Periodo(serie, p, pow, yearFraction).teaAnual
    ensures uvrActual == if serie == D then UvrActual(p, pow, yearFraction) else p.uvr
    ensures trmActual == if serie == E then TrmActual(p, pow, yearFraction) else p.trm
  {
    var m := p.periodo;
    var ind := p.indVal / 100.0;
    var mar := p.marVal / 100.0;
    intPeriodo := 0.0;
    var capMult := 1.0;
    var ibrActual := ind;
    uvrActual := p.uvr;
    trmActual := p.trm;
    teaAnualPeriodo := 0.0;

    if serie == A {
      var ipcProyectado := ind * Pow(pow, 1.0 + p.ipcGrowth / 100.0, yearFraction);
      assert ipcProyectado == IpcProyectado(p, pow, yearFraction);
      teaAnualPeriodo := (1.0 + ipcProyectado) * (1.0 + mar) - 1.0;
      assert teaAnualPeriodo == Periodo(serie, p, pow, yearFraction).teaAnual;
      var iPeriodica := Pow(pow, 1.0 + teaAnualPeriodo, 1.0 / (m as real)) - 1.0;
      assert iPeriodica == Periodo(serie, p, pow, yearFraction).iPeriodica;
      intPeriodo := capitalBase * iPeriodica;
      assert intPeriodo == InteresPeriodo(capitalBase, Periodo(serie, p, pow, yearFraction));
    } else if serie == B {
      teaAnualPeriodo := ind;
      var iPeriodica := Pow(pow, 1.0 + teaAnualPeriodo, 1.0 / (m as real)) - 1.0;
      intPeriodo := capitalBase * iPeriodica;
      assert intPeriodo == InteresPeriodo(capitalBase, Periodo(serie, p, pow, yearFraction));
      assert teaAnualPeriodo == Periodo(serie, p, pow, yearFraction).teaAnual;
    } else if serie == C {
      ibrActual := Max(0.0, ind + (p.ibrChange / 100.0) * yearFraction);
      assert ibrActual == IbrActual(p, yearFraction);
      var tasaNominalTotal := ibrActual + mar;
      var iPeriodica := tasaNominalTotal / (m as real);
      assert iPeriodica == Periodo(serie, p, pow, yearFraction).iPeriodica;
      intPeriodo := capitalBase * iPeriodica;
      teaAnualPeriodo := Pow(pow, 1.0 + iPeriodica, m as real) - 1.0;
      assert intPeriodo == InteresPeriodo(capitalBase, Periodo(serie, p, pow, yearFraction));
      assert teaAnualPeriodo == Periodo(serie, p, pow, yearFraction).teaAnual;
    } else if serie == D {
      uvrActual := p.uvr * Pow(pow, 1.0 + p.uvrInflation / 100.0, yearFraction);
      capMult := uvrActual;
      teaAnualPeriodo := ind;
      var iPeriodica := Pow(pow, 1.0 + teaAnualPeriodo, 1.0 / (m as real)) - 1.0;
      intPeriodo := capitalBase * iPeriodica * capMult;
      assert intPeriodo == capitalBase * (iPeriodica * capMult);
      assert intPeriodo == InteresPeriodo(capitalBase, Periodo(serie, p, pow, yearFraction));
      assert teaAnualPeriodo == Periodo(serie, p, pow, yearFraction).teaAnual;
    } else if serie == E {
      trmActual := p.trm * Pow(pow, 1.0 + p.trmDevaluation / 100.0, yearFraction);
      capMult := trmActual;
      teaAnualPeriodo := ind;
      var iPeriodica := Pow(pow, 1.0 + teaAnualPeriodo, 1.0 / (m as real)) - 1.0;
      intPeriodo := capitalBase * iPeriodica * capMult;
      assert intPeriodo == capitalBase * (iPeriodica * capMult);
      assert intPeriodo == InteresPeriodo(capitalBase, Periodo(serie, p, pow, yearFraction));
      assert teaAnualPeriodo == Periodo(serie, p, pow, yearFraction).teaAnual;
    }
  }

  /** The row the loop assembles from the branch's outputs is the row of
      the schedule. */
  lemma FilaIsRow(serie: Serie, p: Inputs, pow: PowFn, capitalBase: real, i: nat,
                  intPeriodo: real, teaAnualPeriodo: real, uvrActual: real, trmActual: real)
    requires ValidInputs(p, pow)
    requires var ti := (i as real) / (p.periodo as real);
      && intPeriodo == InteresPeriodo(capitalBase, Periodo(serie, p, pow, ti))
      && teaAnualPeriodo == Periodo(serie, p, pow, ti).teaAnual
      && uvrActual == (if serie == D then UvrActual(p, pow, ti) else p.uvr)
      && trmActual == (if serie == E then TrmActual(p, pow, ti) else p.trm)
    ensures Fila(serie, p, pow, capitalBase, i, (i as real) / (p.periodo as real),
                 intPeriodo, teaAnualPeriodo, uvrActual, trmActual)
         == Row(serie, p, pow, capitalBase, i)
  {
  }

  /** The schedule loop: builds the rows period by period, accumulating
      the interest total. */
  method CalcularFlujos(serie: Serie, p: Inputs, pow: PowFn, capitalBase: real)
    returns (flujos: seq<Flujo>, totalIntereses: real)
    requires ValidInputs(p, pow) && capitalBase == CapitalBase(serie, p)
    ensures flujos == Schedule(serie, p, pow)
    ensures totalIntereses == SumInt(flujos)
  {
    var m := p.periodo;
    flujos := [];
    totalIntereses := 0.0;

    var i := 1;
    while i <= p.plazo * m
      invariant 1 <= i <= p.plazo * m + 1
      invariant flujos == Rows(serie, p, pow, capitalBase, i - 1)
      invariant totalIntereses == SumInt(flujos)
      decreases p.plazo * m + 1 - i
    {
      var ti := (i as real) / (m as real);
      var intPeriodo, teaAnualPeriodo, uvrActual, trmActual := CalcularPeriodo(serie, p, pow, capitalBase, ti);
      var fila := Fila(serie, p, pow, capitalBase, i, ti, intPeriodo, teaAnualPeriodo, uvrActual, trmActual);
      FilaIsRow(serie, p, pow, capitalBase, i, intPeriodo, teaAnualPeriodo, uvrActual, trmActual);
      totalIntereses := totalIntereses + intPeriodo;
      assert (flujos + [fila])[..|flujos|] == flujos;
      flujos := flujos + [fila];
      i := i + 1;
    }
  }

  /** The engine: the schedule and interest total, then price, duration,
      the rate at issue and the reported currency multiplier. */
  method Calcular(serie: Serie, p: Inputs, pow: PowFn) returns (res: Results)
    requires ValidInputs(p, pow)
    ensures res.flujos == Schedule(serie, p, pow)
    ensures res.totalIntereses == SumInt(res.flujos)
    ensures res.precio == SumVP(res.flujos)
    ensures res.dur == CalcDuracion(res.flujos, res.precio)
    ensures res.teaInicial == TeaInicial(serie, p, pow)
    ensures res.capitalBase == CapitalBase(serie, p)
    ensures res.capMultFinal == CapMultFinal(serie, p)
    ensures res.m == p.periodo && res.plazo == p.plazo
    ensures res.totalPeriodos == TotalPeriodos(p) && res.r == p.descVal / 100.0
  {
    var m := p.periodo;
    var r := p.descVal / 100.0;
    var capitalBase := Config(serie).nominal * (p.numBonos as real);
    var flujos, totalIntereses := CalcularFlujos(serie, p, pow, capitalBase);
    var precio := SumVP(flujos);
    var dur := CalcDuracion(flujos, precio);
    var teaInicial := TeaInicial(serie, p, pow);
    var capMultFinal := CapMultFinal(serie, p);
    res := Results(flujos, teaInicial, precio, totalIntereses, capitalBase, capMultFinal, m, dur,
                   p.plazo, p.plazo * m, r);
  }
}
