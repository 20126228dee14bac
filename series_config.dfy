/**
 The static table of the five bond series (A..E). Only the two fields the
 cash-flow engine depends on are kept: the face value of one bond and the
 currency it is denominated in.
 */
module SeriesConfig {

  /** The series key: A = IPC + margin, B = fixed rate, C = IBR + margin,
      D = UVR + fixed rate, E = USD + fixed rate. */
  datatype Serie = A | B | C | D | E

  datatype Moneda = COP | UVR | USD

  datatype SeriesDef = SeriesDef(nominal: real, moneda: Moneda)

  /** The row of the series table for `s`. */
  function Config(s: Serie): (c: SeriesDef)
    ensures c.nominal > 0.0
    ensures c.moneda == COP <==> s.A? || s.B? || s.C?
    ensures c.moneda == UVR <==> s.D?
    ensures c.moneda == USD <==> s.E?
  {
    match s
    case A => SeriesDef(10_000_000.0, COP)
    case B => SeriesDef(10_000_000.0, COP)
    case C => SeriesDef(10_000_000.0, COP)
    case D => SeriesDef(100_000.0, UVR)
    case E => SeriesDef(5_000.0, USD)
  }
}
