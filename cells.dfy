/** Table cells as the pandas front ends see them, and the number parsers they call. */
module Cells {
  import opened Wrappers

  /** One cell of a decoded CSV table: blank (pandas NaN), text, or a number the
      reader already converted. */
  datatype Cell = Missing | Text(s: string) | Num(x: real)

  /** One row of the uploaded table, one field per column the detectors read. */
  datatype Row = Row(
    tradehash: Cell, shortLong: Cell, asset: Cell,
    entryDatetimes: Cell, marketEntries: Cell, closeDatetimes: Cell, marketCloses: Cell,
    accountId: Cell, userId: Cell, netProfit: Cell, totalContracts: Cell,
    avgMarketEntry: Cell, avgMarketClose: Cell)

  /** A cell that survived `dropna`. */
  type Present = c: Cell | !c.Missing? witness Num(0.0)

  /** A string-to-number conversion (`float()`, `pd.to_numeric`, `parseFloat`,
      `pd.to_datetime`): the number, or `None` where the source gets NaN or an
      exception. The conversion itself is not modelled, so every operation takes
      it as a parameter. */
  type Parser = string -> Option<real>

  /** Python `==` on cells: NaN equals nothing, not even itself. */
  predicate PyEq(a: Cell, b: Cell) {
    a == b && !a.Missing?
  }

  /** `pd.to_numeric(c, errors='coerce')`: a number, or NaN (`None`). */
  function ToNumeric(c: Cell, parse: Parser): (r: Option<real>)
    ensures c.Num? ==> r == Some(c.x)
    ensures c.Missing? ==> r == None
  {
    match c
    case Missing => None
    case Num(x) => Some(x)
    case Text(s) => parse(s)
  }

  function Abs(x: real): (r: real)
    ensures r >= 0.0 && (r == x || r == -x)
  {
    if x < 0.0 then -x else x
  }
}
