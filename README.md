# Bond cash-flow engine

This project models the calculation engine of a bond calculator for bonds issued in five series:
- A: IPC + margin, in pesos.
- B: fixed rate, in pesos.
- C: IBR + margin, in pesos.
- D: fixed rate on a UVR principal.
- E: fixed rate on a USD principal.

From the series key and the calculator's inputs, `calcular` builds the schedule of periodic payments. The inputs are:
- the number of bonds;
- the index and margin rates;
- the term in years;
- the payments per year;
- the UVR and exchange rate entered for today;
- the discount rate;
- the four projection rates.

Each row of the schedule holds:
- the period and its time in years;
- the principal converted to pesos;
- the coupon and the amortization;
- the total flow and its present value;
- the annual rate of the period;
- the projected variable shown beside it.

`calcular` then returns:
- the interest total;
- the price, as the sum of present values;
- the Macaulay duration, through `calcDuracion`;
- the effective annual rate at issue;
- the currency multiplier of the principal.

`getPeriodoLabel` names a period for the table.

Modules:
- `SeriesConfig` (`series_config.dfy`): the face value and currency of each series.
- `CashFlow` (`cash_flow.dfy`): the row record, the column sums, and `calcDuracion` with its bounds.
- `PeriodLabel` (`period_label.dfy`): `getPeriodoLabel`, with a decimal spelling of the period number that reads back.
- `Engine` (`engine.dfy`):
  - `calcular` as the method `Calcular`, with its loop in `CalcularFlujos` and the per-series branch in `CalcularPeriodo`;
  - the functions `Periodo`, `Row`, `Rows`, `Schedule` and `TeaInicial`, which those methods are proved against.
- `EngineProperties` (`engine_properties.dfy`): what the schedule satisfies:
  - its shape;
  - bullet amortization;
  - the flow identity;
  - the rates of each series;
  - the behaviour without growth;
  - the bounds on duration;
  - linearity in the number of bonds.
- `Scenarios` (`scenarios.dfy`): three worked calculator states with their figures.
- `Wrappers` (`wrappers.dfy`): `Option`.

`Math.pow` is a parameter `pow` of type `PowFn`. That type fixes only the three laws the floating-point function obeys exactly:
- `pow(1, e) == 1`;
- `pow(b, 0) == 1`;
- `pow(b, 1) == b`.

Inputs are valid (`ValidInputs`) when both of these hold:
- there is at least one payment a year;
- every discount factor is positive.

All amounts are `real`.

## Model

| member | source | states |
|---|---|---|
| SeriesConfig.Config | src/App.jsx:4-72 | The face value of each series is positive. A, B and C are in pesos, D is in UVR and E is in USD, each stated both ways. |
| CashFlow.DurSum | src/App.jsx:79-81 | The left fold of `ti * (vp / totalVP)` equals the sum of `ti * vp` divided by `totalVP`. |
| CashFlow.CalcDuracion | src/App.jsx:79-81 | The duration is absent (not a finite number) exactly when the schedule is non-empty and `totalVP` is zero. It is 0 on an empty schedule. Otherwise it is the weighted numerator over `totalVP`. |
| CashFlow.SumWeightsIsRatio | src/App.jsx:79-81 | The weights `vp / totalVP` sum to the present-value sum over `totalVP`. |
| CashFlow.WeightsSumToOne | src/App.jsx:79-81 | When `totalVP` is the positive price, the weights sum to one. |
| CashFlow.SumTiVPBounds | src/App.jsx:79-81 | With non-negative present values and every `ti` in `[lo, hi]`, the duration numerator lies between `lo` and `hi` times the price. |
| CashFlow.DurationBounds | src/App.jsx:79-81 | Under the same hypotheses, with a positive price, the duration is defined and lies in `[lo, hi]`. |
| PeriodLabel.NatToString | src/App.jsx:83-86 | The period number is spelled in decimal digits, with no leading zero, and has one digit exactly when it is below 10. |
| PeriodLabel.NatToStringRoundTrip | src/App.jsx:83-86 | Reading the spelling back gives the number. |
| PeriodLabel.LabelWordNamesPeriodicity | src/App.jsx:82-87 | The word is "Mes " exactly for 12 payments a year, "Trim " exactly for 4, "Sem " exactly for 2, and "Año " exactly for any other count. |
| PeriodLabel.GetPeriodoLabel | src/App.jsx:82-87 | The label starts with the periodicity word, and the rest of it reads back as the period number. |
| PeriodLabel.LabelNamesPeriod | src/App.jsx:82-87 | A label is exactly the periodicity word followed by the decimal spelling of the period, whose digits read back as the period. |
| PeriodLabel.LabelInjective | src/App.jsx:82-87 | Equal labels mean the same period number and the same periodicity word, even across periodicities. |
| PeriodLabel.WordsAgree | src/App.jsx:82-87 | A periodicity word followed by digits splits back into that word and those digits in only one way. |
| PeriodLabel.WordShape | src/App.jsx:83-86 | The only space in a label is the word's trailing space. |
| Engine.CalcularPeriodo | src/App.jsx:414-452 | The branch on the series yields the coupon `capitalBase` times the period's coupon per unit of face value (the periodic rate, times the projected UVR or exchange rate for D and E), the annual rate of the dispatch `Periodo`, and the UVR (D) or exchange rate (E) projected to that date. Otherwise it yields the ones entered. |
| Engine.CalcularFlujos | src/App.jsx:405-474 | The loop builds exactly the schedule `Schedule`, and its running total is the sum of the coupons. |
| Engine.Calcular | src/App.jsx:400-483 | The results are the schedule, its interest total, its price (the sum of present values), the duration of the schedule at that price, the rate at issue, the principal `nominal * numBonos`, the currency multiplier, and the term, periodicity, row count and discount rate. |
| EngineProperties.RowsAt | src/App.jsx:409-474 | Row `j` of the schedule is the row computed for period `j + 1`. |
| EngineProperties.RowsEntry | src/App.jsx:409-474 | The same facts, read at an index of the row sequence. |
| EngineProperties.ScheduleRow | src/App.jsx:409-474 | The same facts, read at an index of the schedule. |
| EngineProperties.ScheduleShape | src/App.jsx:409-466 | The schedule has `plazo * periodo` rows. Row `k` is period `k + 1` at time `(k + 1) / periodo`. |
| EngineProperties.BulletAmortization | src/App.jsx:410-454 | Every row but the last amortizes 0. The last repays its principal, which is `capitalBase` times the currency unit at maturity. |
| EngineProperties.FlowIdentity | src/App.jsx:455-456 | Every row's flow is coupon plus amortization. Its present value times the discount factor is the flow, so the two have the same sign. |
| EngineProperties.PresentValueFacts | src/App.jsx:456 | Discounting is undone by the discount factor, and it keeps the sign of the flow, both ways. |
| EngineProperties.PeriodoC | src/App.jsx:431-437 | For C, the projected IBR is never negative, and the periodic rate is `(IBR + mar) / m`. |
| EngineProperties.PrincipalSchedule | src/App.jsx:465 | Every row's principal is `capitalBase` converted at that row's date. |
| EngineProperties.PesoSeriesSchedule | src/App.jsx:465-481 | For the peso series, every row's principal is `capitalBase` and the reported multiplier is 1. |
| EngineProperties.FixedRateRow | src/App.jsx:427-451 | For B, D and E, a row's annual rate is `ind`, and its coupon is the periodic rate on the row's converted principal. |
| EngineProperties.FixedRateFacts | src/App.jsx:427-451 | The same, about any row built from the dispatch. |
| EngineProperties.FixedRateSchedule | src/App.jsx:427-480 | For B, D and E, every row's annual rate and the rate at issue are `ind`, and every coupon is the periodic rate on the converted principal. For B, every coupon is the same. |
| EngineProperties.SeriesCRow | src/App.jsx:431-437 | For C, a row's IBR is never negative and its coupon is `capitalBase * (IBR + mar) / m`. |
| EngineProperties.SeriesCSchedule | src/App.jsx:431-469 | The same on every row of C, and the projected IBR is shown in percent. |
| EngineProperties.TeaInicialIsRateAtIssue | src/App.jsx:478-480 | The rate at issue is the dispatch's annual rate at time 0, for A and for C with a non-negative IBR. For B, D and E, it is the annual rate of every period. |
| EngineProperties.CapMultFinalIsIssueUnit | src/App.jsx:481 | The reported multiplier is the currency unit at issue. |
| EngineProperties.StaticIndex | src/App.jsx:420-451 | With no growth, the projected IPC, UVR and exchange rate are the values entered, and the projected IBR is the IBR entered, floored at zero. |
| EngineProperties.VarDinamicaIsProjection | src/App.jsx:467-471 | The variable shown beside each period is the projection of that date: the IPC or the floored IBR in percent, the UVR, or the exchange rate. B shows none, and only B. |
| EngineProperties.PeriodoStatic | src/App.jsx:420-451 | With no growth in its own projection, every period of a series is priced like the issue date. |
| EngineProperties.PrincipalStatic | src/App.jsx:454-465 | With no growth, the converted principal is the same on every date. |
| EngineProperties.StaticRow | src/App.jsx:420-479 | With no growth in its own projection, a row's coupon is the coupon at issue, its annual rate is the annual rate at time 0, and its principal is the principal times the reported multiplier. The annual rate equals the reported rate at issue, except for series C with a negative IBR entered. |
| EngineProperties.StaticSchedule | src/App.jsx:420-479 | The same on every row of the schedule. |
| EngineProperties.IbrNondecreasing | src/App.jsx:434 | With a non-negative IBR drift, the projected IBR never decreases in time. |
| EngineProperties.SeriesCCouponsNondecreasing | src/App.jsx:431-437 | For C with a non-negative drift and principal, the coupons never decrease along the schedule. |
| EngineProperties.DurationWithinTerm | src/App.jsx:476-477 | With non-negative present values and a positive price, the duration is defined and lies between `1 / periodo` and `plazo`. |
| EngineProperties.SeriesCDurationWithinTerm | src/App.jsx:409-477 | For series C with at least one bond, a term of at least a year and a non-negative margin, the duration is defined and lies between `1 / periodo` and `plazo`. It needs no hypothesis about the output. |
| EngineProperties.SeriesCRowPositive | src/App.jsx:431-466 | Under the same inputs, every C row has a non-negative present value, and the last row, which repays the principal, has a positive one. |
| CashFlow.SumVPNonnegative | src/App.jsx:476 | Non-negative present values sum to a non-negative price. |
| CashFlow.SumVPPositive | src/App.jsx:476 | Non-negative present values with a positive last one sum to a positive price. |
| EngineProperties.CuponesAt | src/App.jsx:409-436 | Entry `k` of the unit coupons is the coupon per unit of face value of period `k + 1` (the periodic rate, times the projected UVR or exchange rate for D and E). |
| EngineProperties.ValoresAt | src/App.jsx:454-456 | Entry `k` of the unit values is the discounted flow of one unit of face value in period `k + 1`. |
| EngineProperties.PresentValueScales | src/App.jsx:456 | Discounting commutes with scaling the flow. |
| EngineProperties.FlujoLinear | src/App.jsx:454-456 | A row whose principal and coupon are `cb` times a unit's has `cb` times the unit's flow and value. |
| EngineProperties.SumIntScale | src/App.jsx:457 | Rows paying `cb` times unit coupons total `cb` times the unit interest. |
| EngineProperties.SumVPScale | src/App.jsx:476 | Rows worth `cb` times unit values are worth `cb` times the unit price. |
| EngineProperties.SumTiVPScale | src/App.jsx:79-81 | The same for the duration numerator. |
| EngineProperties.UnitCouponRow | src/App.jsx:414-452 | Row `k` on principal `cb` pays `cb` times the unit coupon of period `k + 1`. |
| EngineProperties.UnitValue | src/App.jsx:454-456 | A row on principal `cb` is worth `cb` times the value of one unit's flow. |
| EngineProperties.UnitValueRow | src/App.jsx:454-456 | Row `k` on principal `cb` is worth `cb` times the unit value of period `k + 1`. |
| EngineProperties.RowsUnitInterest | src/App.jsx:405-457 | The interest total on principal `cb` is `cb` times the sum of the unit coupons. |
| EngineProperties.RowsUnitPrice | src/App.jsx:405-476 | The price on principal `cb` is `cb` times the sum of the unit values. |
| EngineProperties.RowsUnitWeighted | src/App.jsx:405-477 | The duration numerator on principal `cb` is `cb` times the time-weighted sum of the unit values. |
| EngineProperties.BonosValid | src/App.jsx:405 | Changing the number of bonds keeps the inputs valid. |
| EngineProperties.PeriodoBonos | src/App.jsx:414-452 | The rate dispatch does not depend on the number of bonds. |
| EngineProperties.CuponesBonos | src/App.jsx:414-452 | The unit coupons do not depend on the number of bonds. |
| EngineProperties.FlujoBonos | src/App.jsx:454-455 | The flow of one unit does not depend on the number of bonds. |
| EngineProperties.PresentValueBonos | src/App.jsx:456 | Discounting does not depend on the number of bonds. |
| EngineProperties.ValoresBonos | src/App.jsx:454-456 | The unit values do not depend on the number of bonds. |
| EngineProperties.CapitalBonos | src/App.jsx:405 | The principal of `numBonos` bonds is `numBonos` times that of one bond. |
| EngineProperties.NumBonosInterest | src/App.jsx:405-457 | The interest total of `numBonos` bonds is `numBonos` times that of one bond. |
| EngineProperties.NumBonosPrice | src/App.jsx:405-476 | The price of `numBonos` bonds is `numBonos` times that of one bond. |
| EngineProperties.NumBonosWeighted | src/App.jsx:405-477 | The duration numerator of `numBonos` bonds is `numBonos` times that of one bond. |
| EngineProperties.DurationIndependentOfBonos | src/App.jsx:476-477 | For any non-zero number of bonds, the duration is that of one bond. |
| Scenarios.ParBondScenario | src/App.jsx:400-483 | Series B, one bond, two annual periods, 10 % coupon and discount. Interest is 1,000,000 a year. Amortization is 0, then 10,000,000. Interest totals 2,000,000, and the price is par (10,000,000). |
| Scenarios.IndexSpreadScenario | src/App.jsx:420-480 | Series A with IPC 5 % and margin 3 %. The rate at issue, and the dispatch's annual rate at time 0, are both 8.15 %. |
| Scenarios.IbrScenario | src/App.jsx:431-437 | Series C, one bond, quarterly, IBR 9.75 % with no drift, margin 2 %. Every coupon is 293,750. |

## Left out

- The React components, page layout, input handlers and their `parseInt`/`parseFloat ... || 1` coercions are presentation, not engine logic. The inputs are parameters of `Calcular`. The one consequence used is that a bond count is never 0 (`DurationIndependentOfBonos` requires it).
- The payment date of each row (`fechaStr`) is left out. It depends on the wall clock and the locale.
- The formatters and the display strings, colours and `show*` flags of the series table are left out.
- The day-count convention (`convencion`) and `ibrPlazo` are left out. `calcular` never reads either, so the IBR branch divides by the payments per year only.
- Exact values of `Math.pow` are not modelled beyond its three exact laws. `Scenarios.ParBondScenario` takes the one value it needs, `1.1^2 = 1.21`, as a hypothesis.
- Floating-point rounding is not modelled: amounts and rates are reals. `pow` is total, so the `NaN` that `Math.pow` gives for a negative base and a fractional exponent is not represented. Only typed values reach such inputs: for example, series A with an IPC below -100 % and two payments a year. The duration's non-finite results are the only ones the model keeps (as `None`).
  - D and E compute the coupon as `(capitalBase * iPeriodica) * capMult`. The model groups it as `capitalBase * (iPeriodica * capMult)`, which is equal over reals.
- The duration's non-finite results (`NaN`, `±Infinity` from a zero price) are collapsed into `None`.
- The term is a whole number of years (`plazo: nat`), the step of its slider. The number field under the slider passes any typed value through `parseFloat(...) || 0`, so a fractional or negative term can reach `calcular`, and the model covers neither. If `plazo * m` is not a whole number (plazo 2.5 with one payment a year, for example), `i === plazo * m` never holds and the principal is never repaid. If `plazo * m` is whole (plazo 2.5 with two payments a year), the source builds a correct schedule that the model cannot express. A negative term (-3, say) gives an empty schedule with a negative period count.
- ValidInputs: requires every discount factor to be positive. This excludes a discount rate of -100 % or lower, which the slider (0 % to 30 %) never gives but a typed value can.
- Monotonicity of the price in the discount rate is not stated, because it needs `Math.pow` to be monotone in the exponent and the base, which the model leaves open.
- EngineProperties.TeaInicialIsRateAtIssue: for C, the rate at issue equals the dispatch's rate at time 0 only for a non-negative IBR. `teaInicial` uses the IBR as entered, while the periods clamp it at 0.
- EngineProperties.StaticRow: for C with a negative IBR entered, the row's annual rate is stated only as the rate of time 0, not as the reported rate at issue, for the same reason.
- EngineProperties.StaticSchedule: the same condition as StaticRow, on every row.
- EngineProperties.DurationWithinTerm: requires non-negative present values. Those follow from non-negative rates and anchors, which the sliders give but the model does not require.
- EngineProperties.SeriesCCouponsNondecreasing: requires a non-negative drift and principal.
- The reported multiplier (`capMultFinal`) is the UVR or exchange rate at issue. The last amortization converts at the rate projected to maturity. This is how the code behaves, and the model keeps it (`CapMultFinalIsIssueUnit`, `BulletAmortization`).
