/** The hedge-pair matcher of the Flask back end (`find_hedge_pairs` in app.py):
    clean the uploaded table, normalize symbols, extract first entry and close
    times, group by normalized symbol in sorted order, and compare every ordered
    pair of trades in a group, numbering the accepted pairs from 1. */
module AppMatcher {
  import opened Wrappers
  import opened Cells
  import opened Seqs
  import opened AppFields
  import opened Scoring

  /** The exceptions the matcher can raise; the Flask handler turns each into an
      HTTP 500 response carrying its message. */
  datatype Error =
    | MissingColumn(column: string)   // the ValueError for a missing required column
    | TypeError                       // a symbol that is not text
    | ValueError                      // float() on text that is not a number
    | KeyError(column: string)        // an optional price column that is absent
    | ZeroDivisionError               // a price threshold of 0

  /** The uploaded table: the header's column names and the rows. */
  datatype Table = Table(columns: set<string>, rows: seq<Row>)

  const RequiredColumns: seq<string> := [
    "tradehash", "short_long", "asset", "entry_datetimes", "market_entries",
    "close_datetimes", "market_closes", "account_id", "user_id", "net_profit",
    "total_contracts"]

  /** The first column of `cols`, in order, that the header lacks. */
  function FirstMissing(cols: seq<string>, present: set<string>): (r: Option<string>)
    ensures r.None? <==> forall k :: 0 <= k < |cols| ==> cols[k] in present
    ensures r.Some? ==> r.value in cols && r.value !in present
    ensures r.Some? ==> exists k :: 0 <= k < |cols| && cols[k] == r.value && forall i :: 0 <= i < k ==> cols[i] in present
  {
    if cols == [] then None
    else if cols[0] !in present then
      Some(cols[0])
    else
      var r := FirstMissing(cols[1..], present);
      assert r.Some? ==> exists k :: 0 <= k < |cols| && cols[k] == r.value && forall i :: 0 <= i < k ==> cols[i] in present by {
        if r.Some? {
          var k :| 0 <= k < |cols[1..]| && cols[1..][k] == r.value && forall i :: 0 <= i < k ==> cols[1..][i] in present;
          forall i | 0 <= i < k + 1 ensures cols[i] in present {
            if i > 0 { assert cols[i] == cols[1..][i - 1]; }
          }
          assert cols[k + 1] == r.value;
        }
      }
      r
  }

  /** The required-column loop: stop at the first column the header lacks. */
  method CheckColumns(cols: seq<string>, present: set<string>) returns (missing: Option<string>)
    ensures missing == FirstMissing(cols, present)
  {
    var i := 0;
    while i < |cols|
      invariant 0 <= i <= |cols|
      invariant forall k :: 0 <= k < i ==> cols[k] in present
    {
      if cols[i] !in present {
        return Some(cols[i]);
      }
      i := i + 1;
    }
    return None;
  }

  /** `dropna(subset=required_columns)` keeps the rows where none of these is blank. */
  predicate Complete(row: Row) {
    && !row.tradehash.Missing? && !row.shortLong.Missing? && !row.asset.Missing?
    && !row.entryDatetimes.Missing? && !row.marketEntries.Missing?
    && !row.closeDatetimes.Missing? && !row.marketCloses.Missing?
    && !row.accountId.Missing? && !row.userId.Missing?
    && !row.netProfit.Missing? && !row.totalContracts.Missing?
  }

  /** `float(x[0]) if isinstance(x, list) and len(x) > 0 else None`, applied to the
      parsed list field: the first listed time, no time, or the ValueError of
      `float()` on a first piece that is not a number. */
  function FirstTime(c: Cell, parse: Parser): (r: Result<Option<real>, Error>)
    ensures r.Failure? <==> c.Text? && |Pieces(c.s)| > 0 && parse(Pieces(c.s)[0]).None?
    ensures r.Failure? ==> r.error == ValueError
    ensures r == Success(None) <==> !c.Text? || Pieces(c.s) == []
    ensures r.Success? && r.value.Some? ==> c.Text? && |Pieces(c.s)| > 0 && parse(Pieces(c.s)[0]) == Some(r.value.value)
  {
    match ParseListField(c, parse)
    case Unchanged(_) => Success(None)
    case Floats(xs) => if |xs| > 0 then Success(Some(xs[0])) else Success(None)
    case Strings(ss) =>
      if |ss| == 0 then Success(None)
      else match parse(ss[0])
        case Some(x) => Success(Some(x))
        case None => Failure(ValueError)
  }

  /** A row after cleaning, with the derived columns the matcher reads. */
  datatype Trade = Trade(
    tradehash: Present, direction: Present, asset: string,
    entryTime: Option<real>, closeTime: Option<real>,
    entryPrice: Option<real>, closePrice: Option<real>,
    netProfit: Present, userId: Present, accountId: Present, quantity: Present)

  /** A complete row whose symbol and first times convert without an exception. */
  predicate Convertible(row: Row, parse: Parser) {
    && Complete(row) && row.asset.Text?
    && FirstTime(row.entryDatetimes, parse).Success?
    && FirstTime(row.closeDatetimes, parse).Success?
  }

  function TradeOf(row: Row, parse: Parser): (t: Trade)
    requires Convertible(row, parse)
    ensures t.asset == NormalizeAssetName(row.asset.s)
    ensures t.tradehash == row.tradehash && t.direction == row.shortLong
    ensures t.userId == row.userId && t.accountId == row.accountId
    ensures t.netProfit == row.netProfit && t.quantity == row.totalContracts
    ensures t.entryTime == FirstTime(row.entryDatetimes, parse).value
    ensures t.closeTime == FirstTime(row.closeDatetimes, parse).value
    ensures t.entryPrice == ToNumeric(row.avgMarketEntry, parse)
    ensures t.closePrice == ToNumeric(row.avgMarketClose, parse)
  {
    Trade(row.tradehash, row.shortLong, NormalizeAssetName(row.asset.s),
          FirstTime(row.entryDatetimes, parse).value, FirstTime(row.closeDatetimes, parse).value,
          ToNumeric(row.avgMarketEntry, parse), ToNumeric(row.avgMarketClose, parse),
          row.netProfit, row.userId, row.accountId, row.totalContracts)
  }

  /** The exception the per-row conversions raise, if any. Each conversion runs
      over the whole column before the next starts, so a symbol that is not text
      in any row comes before an unconvertible time in any row, and entry times
      come before close times. */
  function ConversionError(rows: seq<Row>, parse: Parser): (r: Option<Error>)
    requires forall k :: 0 <= k < |rows| ==> Complete(rows[k])
    ensures r.None? <==> forall k :: 0 <= k < |rows| ==> Convertible(rows[k], parse)
    ensures r == Some(TypeError) <==> exists k :: 0 <= k < |rows| && !rows[k].asset.Text?
    ensures r.Some? ==> r.value == TypeError || r.value == ValueError
  {
    if exists k :: 0 <= k < |rows| && !rows[k].asset.Text? then Some(TypeError)
    else if exists k :: 0 <= k < |rows| && FirstTime(rows[k].entryDatetimes, parse).Failure? then Some(ValueError)
    else if exists k :: 0 <= k < |rows| && FirstTime(rows[k].closeDatetimes, parse).Failure? then Some(ValueError)
    else None
  }

  /** The preparation before grouping, with the exceptions in the order the code
      meets them: a missing required column (the first in list order), then a
      conversion error, then an absent average-price column. */
  function Prepare(t: Table, parse: Parser): (r: Result<seq<Trade>, Error>)
    ensures r.Failure? && r.error.MissingColumn? <==> exists c :: c in RequiredColumns && c !in t.columns
    ensures r.Failure? && r.error.MissingColumn? ==> r.error.column in RequiredColumns && r.error.column !in t.columns
    ensures r.Success? <==>
      && (forall c :: c in RequiredColumns ==> c in t.columns)
      && (forall k :: 0 <= k < |Filter(t.rows, Complete)| ==> Convertible(Filter(t.rows, Complete)[k], parse))
      && "avg_market_entry" in t.columns && "avg_market_close" in t.columns
    ensures r.Success? ==> |r.value| == |Filter(t.rows, Complete)|
    ensures r.Success? ==> forall k :: 0 <= k < |r.value| ==> r.value[k] == TradeOf(Filter(t.rows, Complete)[k], parse)
  {
    match FirstMissing(RequiredColumns, t.columns)
    case Some(c) => Failure(MissingColumn(c))
    case None =>
      var rows := Filter(t.rows, Complete);
      match ConversionError(rows, parse)
      case Some(e) => Failure(e)
      case None =>
        if "avg_market_entry" !in t.columns then Failure(KeyError("avg_market_entry"))
        else if "avg_market_close" !in t.columns then Failure(KeyError("avg_market_close"))
        else Success(seq(|rows|, k requires 0 <= k < |rows| => TradeOf(rows[k], parse)))
  }

  // ---------------------------------------------------------------------------
  // One pair

  datatype Params = Params(priceThreshold: real, confidenceThreshold: real, includeClosePrice: bool)

  /** `float()` on a non-blank cell. */
  function FloatOf(c: Present, parse: Parser): (r: Result<real, Error>)
    ensures c.Num? ==> r == Success(c.x)
    ensures c.Text? ==> (r.Success? <==> parse(c.s).Some?) && (r.Success? ==> parse(c.s) == Some(r.value))
    ensures r.Failure? ==> r.error == ValueError
  {
    match c
    case Num(x) => Success(x)
    case Text(s) => if parse(s).Some? then Success(parse(s).value) else Failure(ValueError)
  }

  /** `calculate_confidence_score`: the shared formula, reached through Python's
      exceptions (a zero threshold divides by zero first, a quantity that is not a
      number raises next) and NaN (a blank close price makes the score NaN). */
  function ConfidenceScore(t1: Trade, t2: Trade, priceDiff: real, threshold: real, includeClose: bool, parse: Parser): (r: Result<Score, Error>)
    ensures threshold == 0.0 ==> r == Failure(ZeroDivisionError)
    ensures threshold != 0.0 ==> (r.Failure? <==> FloatOf(t1.quantity, parse).Failure? || FloatOf(t2.quantity, parse).Failure?)
    ensures r.Failure? ==> r.error == ZeroDivisionError || r.error == ValueError
    ensures r.Success? ==> (r.value.NotANumber? <==> includeClose && (t1.closePrice.None? || t2.closePrice.None?))
    ensures r.Success? && r.value.Value? ==> 0.0 <= r.value.x <= 1.0
    ensures r.Success? && r.value.Value? ==>
              && threshold != 0.0
              && FloatOf(t1.quantity, parse).Success? && FloatOf(t2.quantity, parse).Success?
              && (includeClose ==> t1.closePrice.Some? && t2.closePrice.Some?)
              && r.value.x == ConfidenceFormula(priceDiff, threshold,
                                 if includeClose then Some(Abs(t1.closePrice.value - t2.closePrice.value)) else None,
                                 FloatOf(t1.quantity, parse).value == FloatOf(t2.quantity, parse).value)
  {
    if threshold == 0.0 then Failure(ZeroDivisionError)
    else
      match (FloatOf(t1.quantity, parse), FloatOf(t2.quantity, parse))
      case (Failure(e), _) => Failure(e)
      case (_, Failure(e)) => Failure(e)
      case (Success(q1), Success(q2)) =>
        if !includeClose then Success(Value(ConfidenceFormula(priceDiff, threshold, None, q1 == q2)))
        else if t1.closePrice.Some? && t2.closePrice.Some? then
          Success(Value(ConfidenceFormula(priceDiff, threshold, Some(Abs(t1.closePrice.value - t2.closePrice.value)), q1 == q2)))
        else Success(NotANumber)
  }

  predicate HasTimes(t: Trade) {
    t.entryTime.Some? && t.closeTime.Some?
  }

  /** `a != b and set([a, b]) == set(['LONG', 'SHORT'])`. */
  predicate Opposite(a: Cell, b: Cell) {
    a != b && {a, b} == {Text("LONG"), Text("SHORT")}
  }

  /** Exactly one of the two is LONG and the other SHORT. */
  lemma OppositeMeansLongAndShort(a: Cell, b: Cell)
    ensures Opposite(a, b) <==> (a == Text("LONG") && b == Text("SHORT")) || (a == Text("SHORT") && b == Text("LONG"))
  {
    if Opposite(a, b) {
      assert a in {Text("LONG"), Text("SHORT")} && b in {Text("LONG"), Text("SHORT")};
    }
  }

  /** One trade opens while the other is open (both ends inclusive). */
  predicate Overlaps(entry1: real, close1: real, entry2: real, close2: real) {
    (entry2 >= entry1 && entry2 <= close1) || (entry1 >= entry2 && entry1 <= close2)
  }

  lemma OverlapsSymmetric(e1: real, c1: real, e2: real, c2: real)
    ensures Overlaps(e1, c1, e2, c2) <==> Overlaps(e2, c2, e1, c1)
  {
  }

  /** The checks before scoring: both trades have times, their directions are
      opposite, their entry prices (not NaN) lie within the threshold, and their
      time spans overlap. */
  predicate Candidate(t1: Trade, t2: Trade, p: Params) {
    && HasTimes(t1) && HasTimes(t2)
    && Opposite(t1.direction, t2.direction)
    && t1.entryPrice.Some? && t2.entryPrice.Some?
    && Abs(t1.entryPrice.value - t2.entryPrice.value) <= p.priceThreshold
    && Overlaps(t1.entryTime.value, t1.closeTime.value, t2.entryTime.value, t2.closeTime.value)
  }

  /** A trade as the report shows it. Times are the raw epoch milliseconds. */
  datatype Leg = Leg(
    tradehash: Present, direction: Present, entryTime: real, closeTime: real,
    entryPrice: real, closePrice: Option<real>, netProfit: real,
    userId: Present, accountId: Present, quantity: real)

  datatype HedgeType = SelfHedge | InterUserHedge

  /** An accepted pair before numbering. */
  datatype Match = Match(kind: HedgeType, asset: string, trade1: Leg, trade2: Leg,
                         entryPriceDiff: real, confidence: real, netProfit: real)

  /** A reported pair: its 1-based number and the pair. */
  type HedgePair = Numbered<Match>

  datatype Verdict = Rejected | Accepted(m: Match)

  /** The leg of a trade whose times and entry price are known. */
  function LegOf(t: Trade, netProfit: real, quantity: real): Leg
    requires HasTimes(t) && t.entryPrice.Some?
  {
    Leg(t.tradehash, t.direction, t.entryTime.value, t.closeTime.value,
        t.entryPrice.value, t.closePrice, netProfit, t.userId, t.accountId, quantity)
  }

  /** `l` shows trade `t` field by field. */
  predicate Shows(l: Leg, t: Trade, parse: Parser) {
    && l.tradehash == t.tradehash && l.direction == t.direction
    && t.entryTime == Some(l.entryTime) && t.closeTime == Some(l.closeTime)
    && t.entryPrice == Some(l.entryPrice) && l.closePrice == t.closePrice
    && FloatOf(t.netProfit, parse) == Success(l.netProfit)
    && l.userId == t.userId && l.accountId == t.accountId
    && FloatOf(t.quantity, parse) == Success(l.quantity)
  }

  /** What every reported pair satisfies, read off the pair alone. */
  predicate WellFormed(m: Match, p: Params) {
    && 0.0 < p.priceThreshold
    && Opposite(m.trade1.direction, m.trade2.direction)
    && m.entryPriceDiff == Abs(m.trade1.entryPrice - m.trade2.entryPrice)
    && m.entryPriceDiff <= p.priceThreshold
    && Overlaps(m.trade1.entryTime, m.trade1.closeTime, m.trade2.entryTime, m.trade2.closeTime)
    && p.confidenceThreshold <= m.confidence && 0.0 <= m.confidence <= 1.0
    && (p.includeClosePrice ==> m.trade1.closePrice.Some? && m.trade2.closePrice.Some?)
    && (m.kind == SelfHedge <==> m.trade1.userId == m.trade2.userId)
    && m.netProfit == m.trade1.netProfit + m.trade2.netProfit
  }

  /** The decision on trades `t1` (earlier) and `t2` (later) of the group of
      `asset`: rejected, accepted with the pair to report, or an exception. */
  function Judge(asset: string, t1: Trade, t2: Trade, p: Params, parse: Parser): Result<Verdict, Error>
  {
    if !Candidate(t1, t2, p) then Success(Rejected)
    else
      var priceDiff := Abs(t1.entryPrice.value - t2.entryPrice.value);
      match ConfidenceScore(t1, t2, priceDiff, p.priceThreshold, p.includeClosePrice, parse)
      case Failure(e) => Failure(e)
      case Success(NotANumber) => Success(Rejected)
      case Success(Value(score)) =>
        if score < p.confidenceThreshold then Success(Rejected)
        else
          match (FloatOf(t1.netProfit, parse), FloatOf(t2.netProfit, parse))
          case (Failure(e), _) => Failure(e)
          case (_, Failure(e)) => Failure(e)
          case (Success(n1), Success(n2)) =>
            var leg1 := LegOf(t1, n1, FloatOf(t1.quantity, parse).value);
            var leg2 := LegOf(t2, n2, FloatOf(t2.quantity, parse).value);
            var kind := if t1.userId == t2.userId then SelfHedge else InterUserHedge;
            Success(Accepted(Match(kind, asset, leg1, leg2, priceDiff, score, n1 + n2)))
  }

  /** What the decision promises: anything but a candidate is rejected; an
      exception needs a candidate; a candidate is rejected exactly when its score
      is NaN or below the confidence threshold; an accepted pair is well formed,
      belongs to the group's symbol and shows the two trades it was made from. */
  lemma JudgeSpec(asset: string, t1: Trade, t2: Trade, p: Params, parse: Parser)
    ensures var r := Judge(asset, t1, t2, p, parse);
      && (!Candidate(t1, t2, p) ==> r == Success(Rejected))
      && (r.Failure? ==> Candidate(t1, t2, p) && (p.priceThreshold == 0.0 <==> r.error == ZeroDivisionError))
      && (r.Failure? ==> r.error == ZeroDivisionError || r.error == ValueError)
      && (Candidate(t1, t2, p) && r.Success? ==>
        var s := ConfidenceScore(t1, t2, Abs(t1.entryPrice.value - t2.entryPrice.value), p.priceThreshold, p.includeClosePrice, parse);
        s.Success? && (r.value.Rejected? <==> s.value.NotANumber? || s.value.x < p.confidenceThreshold))
      && (r.Success? && r.value.Accepted? ==>
        var m := r.value.m;
        && WellFormed(m, p) && m.asset == asset
        && Shows(m.trade1, t1, parse) && Shows(m.trade2, t2, parse))
  {
  }

  // ---------------------------------------------------------------------------
  // The loops, as prefix specifications

  /** The accepted pairs (i, j) with i < j < hi, in loop order. */
  function RowMatches(asset: string, g: seq<Trade>, i: nat, hi: nat, p: Params, parse: Parser): Result<seq<Match>, Error>
    requires i < |g| && hi <= |g|
    decreases hi
  {
    if hi <= i + 1 then Success([])
    else match RowMatches(asset, g, i, hi - 1, p, parse)
      case Failure(e) => Failure(e)
      case Success(ms) =>
        match Judge(asset, g[i], g[hi - 1], p, parse)
        case Failure(e) => Failure(e)
        case Success(Rejected) => Success(ms)
        case Success(Accepted(m)) => Success(ms + [m])
  }

  /** The accepted pairs whose first trade comes before `hi`; a first trade
      without times is skipped whole. */
  function GroupMatches(asset: string, g: seq<Trade>, hi: nat, p: Params, parse: Parser): Result<seq<Match>, Error>
    requires hi <= |g|
  {
    if hi == 0 then Success([])
    else match GroupMatches(asset, g, hi - 1, p, parse)
      case Failure(e) => Failure(e)
      case Success(ms) =>
        if !HasTimes(g[hi - 1]) then Success(ms)
        else match RowMatches(asset, g, hi - 1, |g|, p, parse)
          case Failure(e) => Failure(e)
          case Success(more) => Success(ms + more)
  }

  /** The accepted pairs of the groups before `hi`, group `a` holding the trades
      of symbol `keys[a]`. */
  function AllMatches(keys: seq<string>, groups: seq<seq<Trade>>, hi: nat, p: Params, parse: Parser): Result<seq<Match>, Error>
    requires |keys| == |groups| && hi <= |groups|
  {
    if hi == 0 then Success([])
    else match AllMatches(keys, groups, hi - 1, p, parse)
      case Failure(e) => Failure(e)
      case Success(ms) =>
        match GroupMatches(keys[hi - 1], groups[hi - 1], |groups[hi - 1]|, p, parse)
        case Failure(e) => Failure(e)
        case Success(more) => Success(ms + more)
  }

  /** Once an exception is raised, later iterations do not run. */
  lemma {:induction false} RowFailureSticks(asset: string, g: seq<Trade>, i: nat, lo: nat, hi: nat, p: Params, parse: Parser)
    requires i < |g| && lo <= hi <= |g|
    requires RowMatches(asset, g, i, lo, p, parse).Failure?
    ensures RowMatches(asset, g, i, hi, p, parse) == RowMatches(asset, g, i, lo, p, parse)
    decreases hi - lo
  {
    if lo < hi {
      RowFailureSticks(asset, g, i, lo + 1, hi, p, parse);
    }
  }

  lemma {:induction false} GroupFailureSticks(asset: string, g: seq<Trade>, lo: nat, hi: nat, p: Params, parse: Parser)
    requires lo <= hi <= |g|
    requires GroupMatches(asset, g, lo, p, parse).Failure?
    ensures GroupMatches(asset, g, hi, p, parse) == GroupMatches(asset, g, lo, p, parse)
    decreases hi - lo
  {
    if lo < hi {
      GroupFailureSticks(asset, g, lo + 1, hi, p, parse);
    }
  }

  lemma {:induction false} AllFailureSticks(keys: seq<string>, groups: seq<seq<Trade>>, lo: nat, hi: nat, p: Params, parse: Parser)
    requires |keys| == |groups| && lo <= hi <= |groups|
    requires AllMatches(keys, groups, lo, p, parse).Failure?
    ensures AllMatches(keys, groups, hi, p, parse) == AllMatches(keys, groups, lo, p, parse)
    decreases hi - lo
  {
    if lo < hi {
      AllFailureSticks(keys, groups, lo + 1, hi, p, parse);
    }
  }

  /** The three nested loops of `find_hedge_pairs` over the prepared groups, with
      the running `pair_id`. */
  method MatchGroups(keys: seq<string>, groups: seq<seq<Trade>>, p: Params, parse: Parser) returns (r: Result<seq<HedgePair>, Error>)
    requires |keys| == |groups|
    ensures AllMatches(keys, groups, |groups|, p, parse).Failure? ==> r == Failure(AllMatches(keys, groups, |groups|, p, parse).error)
    ensures AllMatches(keys, groups, |groups|, p, parse).Success? ==> r == Success(Number(AllMatches(keys, groups, |groups|, p, parse).value))
  {
    var pairs: seq<HedgePair> := [];
    var pairId := 1;
    ghost var done: seq<Match> := [];
    var a := 0;
    while a < |groups|
      invariant 0 <= a <= |groups|
      invariant AllMatches(keys, groups, a, p, parse) == Success(done)
      invariant pairs == Number(done) && pairId == |done| + 1
    {
      var gr;
      gr, pairId := MatchGroup(keys[a], groups[a], p, parse, done, pairs, pairId);
      if gr.Failure? {
        AllFailureSticks(keys, groups, a + 1, |groups|, p, parse);
        return Failure(gr.error);
      }
      pairs := gr.value;
      done := done + GroupMatches(keys[a], groups[a], |groups[a]|, p, parse).value;
      a := a + 1;
    }
    r := Success(pairs);
  }

  /** The two inner loops for the trades of one symbol, continuing the numbering
      of the pairs found so far. */
  method MatchGroup(asset: string, trades: seq<Trade>, p: Params, parse: Parser, ghost prior: seq<Match>, pairs0: seq<HedgePair>, pairId0: nat)
    returns (r: Result<seq<HedgePair>, Error>, pairId: nat)
    requires pairs0 == Number(prior) && pairId0 == |prior| + 1
    ensures var gm := GroupMatches(asset, trades, |trades|, p, parse);
            gm.Failure? ==> r == Failure(gm.error)
    ensures var gm := GroupMatches(asset, trades, |trades|, p, parse);
            gm.Success? ==> r == Success(Number(prior + gm.value)) && pairId == |prior + gm.value| + 1
  {
    var pairs := pairs0;
    pairId := pairId0;
    ghost var gdone: seq<Match> := [];
    var i := 0;
    while i < |trades|
      invariant 0 <= i <= |trades|
      invariant GroupMatches(asset, trades, i, p, parse) == Success(gdone)
      invariant pairs == Number(prior + gdone) && pairId == |prior + gdone| + 1
    {
      if HasTimes(trades[i]) {
        var rr;
        rr, pairId := MatchRow(asset, trades, i, p, parse, prior + gdone, pairs, pairId);
        if rr.Failure? {
          GroupFailureSticks(asset, trades, i + 1, |trades|, p, parse);
          return Failure(rr.error), pairId;
        }
        var more := RowMatches(asset, trades, i, |trades|, p, parse).value;
        ConcatAssoc(prior, gdone, more);
        pairs := rr.value;
        gdone := gdone + more;
      }
      i := i + 1;
    }
    r := Success(pairs);
  }

  /** The innermost loop: trade `i` against every later trade of its symbol. */
  method MatchRow(asset: string, trades: seq<Trade>, i: nat, p: Params, parse: Parser, ghost prior: seq<Match>, pairs0: seq<HedgePair>, pairId0: nat)
    returns (r: Result<seq<HedgePair>, Error>, pairId: nat)
    requires i < |trades|
    requires pairs0 == Number(prior) && pairId0 == |prior| + 1
    ensures var rm := RowMatches(asset, trades, i, |trades|, p, parse);
            rm.Failure? ==> r == Failure(rm.error)
    ensures var rm := RowMatches(asset, trades, i, |trades|, p, parse);
            rm.Success? ==> r == Success(Number(prior + rm.value)) && pairId == |prior + rm.value| + 1
  {
    var pairs := pairs0;
    pairId := pairId0;
    ghost var rdone: seq<Match> := [];
    var j := i + 1;
    while j < |trades|
      invariant i + 1 <= j <= |trades|
      invariant RowMatches(asset, trades, i, j, p, parse) == Success(rdone)
      invariant pairs == Number(prior + rdone) && pairId == |prior + rdone| + 1
    {
      var v := Judge(asset, trades[i], trades[j], p, parse);
      match v {
        case Failure(e) =>
          RowFailureSticks(asset, trades, i, j + 1, |trades|, p, parse);
          return Failure(e), pairId;
        case Success(Rejected) =>
        case Success(Accepted(m)) =>
          NumberSnoc(prior + rdone, m);
          ConcatAssoc(prior, rdone, [m]);
          pairs := pairs + [HedgePair(pairId, m)];
          pairId := pairId + 1;
          rdone := rdone + [m];
      }
      j := j + 1;
    }
    r := Success(pairs);
  }

  /** Every accepted ordered pair of a row, and nothing else, is in its result. */
  lemma {:induction false} RowMatchesMembers(asset: string, g: seq<Trade>, i: nat, hi: nat, p: Params, parse: Parser, m: Match)
    requires i < |g| && hi <= |g|
    requires RowMatches(asset, g, i, hi, p, parse).Success?
    ensures m in RowMatches(asset, g, i, hi, p, parse).value <==>
      exists j :: i < j < hi && Judge(asset, g[i], g[j], p, parse) == Success(Accepted(m))
    decreases hi
  {
    if hi > i + 1 {
      RowMatchesMembers(asset, g, i, hi - 1, p, parse, m);
    }
  }

  lemma {:induction false} GroupMatchesMembers(asset: string, g: seq<Trade>, hi: nat, p: Params, parse: Parser, m: Match)
    requires hi <= |g|
    requires GroupMatches(asset, g, hi, p, parse).Success?
    ensures m in GroupMatches(asset, g, hi, p, parse).value <==>
      exists i, j :: 0 <= i < hi && i < j < |g| && Judge(asset, g[i], g[j], p, parse) == Success(Accepted(m))
  {
    if hi > 0 {
      var i := hi - 1;
      GroupMatchesMembers(asset, g, i, p, parse, m);
      if HasTimes(g[i]) {
        RowMatchesMembers(asset, g, i, |g|, p, parse, m);
      } else {
        forall j | i < j < |g| ensures Judge(asset, g[i], g[j], p, parse) == Success(Rejected) {
          JudgeSpec(asset, g[i], g[j], p, parse);
        }
      }
    }
  }

  lemma {:induction false} AllMatchesMembers(keys: seq<string>, groups: seq<seq<Trade>>, hi: nat, p: Params, parse: Parser, m: Match)
    requires |keys| == |groups| && hi <= |groups|
    requires AllMatches(keys, groups, hi, p, parse).Success?
    ensures m in AllMatches(keys, groups, hi, p, parse).value <==>
      exists a, i, j :: 0 <= a < hi && 0 <= i < j < |groups[a]| && Judge(keys[a], groups[a][i], groups[a][j], p, parse) == Success(Accepted(m))
  {
    if hi > 0 {
      var a := hi - 1;
      AllMatchesMembers(keys, groups, a, p, parse, m);
      GroupMatchesMembers(keys[a], groups[a], |groups[a]|, p, parse, m);
    }
  }

  // ---------------------------------------------------------------------------
  // The whole matcher

  function AssetOf(t: Trade): string {
    t.asset
  }

  /** The normalized symbols in ascending order, each once: the groups
      `groupby` visits. */
  function AssetKeys(trades: seq<Trade>): (keys: seq<string>)
    ensures StrictlySorted(keys) && Distinct(keys)
    ensures forall t :: t in trades ==> t.asset in keys
    ensures forall k :: k in keys ==> exists t :: t in trades && t.asset == k
  {
    var assets := seq(|trades|, k requires 0 <= k < |trades| => trades[k].asset);
    var keys := SortedDistinct(assets);
    StrictlySortedIsDistinct(keys);
    assert forall t :: t in trades ==> t.asset in keys by {
      forall t | t in trades ensures t.asset in keys {
        var k :| 0 <= k < |trades| && trades[k] == t;
        assert assets[k] in Elems(assets);
      }
    }
    assert forall x :: x in keys ==> exists t :: t in trades && t.asset == x by {
      forall x | x in keys ensures exists t :: t in trades && t.asset == x {
        assert x in Elems(keys);
        var k :| 0 <= k < |assets| && assets[k] == x;
        assert trades[k] in trades;
      }
    }
    keys
  }

  /** What `find_hedge_pairs` returns or raises. */
  function Detect(t: Table, p: Params, parse: Parser): Result<seq<HedgePair>, Error> {
    match Prepare(t, parse)
    case Failure(e) => Failure(e)
    case Success(trades) =>
      var keys := AssetKeys(trades);
      var groups := GroupBy(trades, AssetOf, keys);
      match AllMatches(keys, groups, |groups|, p, parse)
      case Failure(e) => Failure(e)
      case Success(ms) => Success(Number(ms))
  }

  /** `find_hedge_pairs(df, price_threshold, confidence_threshold, include_close_price)`. */
  method FindHedgePairs(t: Table, p: Params, parse: Parser) returns (r: Result<seq<HedgePair>, Error>)
    ensures r == Detect(t, p, parse)
  {
    var missing := CheckColumns(RequiredColumns, t.columns);
    if missing.Some? {
      return Failure(MissingColumn(missing.value));
    }
    var prepared := Prepare(t, parse);
    if prepared.Failure? {
      return Failure(prepared.error);
    }
    var trades := prepared.value;
    var keys := AssetKeys(trades);
    var groups := GroupBy(trades, AssetOf, keys);
    r := MatchGroups(keys, groups, p, parse);
  }

  /** Every reported pair is numbered by its position from 1, is well formed, and
      shows two prepared trades of its own normalized symbol. */
  lemma DetectSound(t: Table, p: Params, parse: Parser)
    requires Detect(t, p, parse).Success?
    ensures Prepare(t, parse).Success?
    ensures var hs := Detect(t, p, parse).value;
      forall k :: 0 <= k < |hs| ==>
        && hs[k].id == k + 1 && WellFormed(hs[k].pair, p)
        && Reported(hs[k].pair, Prepare(t, parse).value, parse)
  {
    var trades := Prepare(t, parse).value;
    var keys := AssetKeys(trades);
    var groups := GroupBy(trades, AssetOf, keys);
    var ms := AllMatches(keys, groups, |groups|, p, parse).value;
    forall k | 0 <= k < |ms| ensures WellFormed(ms[k], p) && Reported(ms[k], trades, parse) {
      AcceptedIsReported(keys, trades, p, parse, ms[k]);
    }
  }

  lemma AcceptedIsReported(keys: seq<string>, trades: seq<Trade>, p: Params, parse: Parser, m: Match)
    requires AllMatches(keys, GroupBy(trades, AssetOf, keys), |keys|, p, parse).Success?
    requires m in AllMatches(keys, GroupBy(trades, AssetOf, keys), |keys|, p, parse).value
    ensures WellFormed(m, p) && Reported(m, trades, parse)
  {
    var groups := GroupBy(trades, AssetOf, keys);
    var a, t1, t2 := AcceptedWitness(keys, groups, p, parse, m);
    AcceptedShows(keys[a], t1, t2, p, parse, m);
    GroupMember(trades, AssetOf, keys, a, t1);
    GroupMember(trades, AssetOf, keys, a, t2);
    assert t1 in trades && t2 in trades && t1.asset == m.asset && t2.asset == m.asset;
    assert Shows(m.trade1, t1, parse) && Shows(m.trade2, t2, parse);
  }

  /** The group and the two trades an accepted pair was made from. */
  lemma AcceptedWitness(keys: seq<string>, groups: seq<seq<Trade>>, p: Params, parse: Parser, m: Match)
    returns (a: nat, t1: Trade, t2: Trade)
    requires |keys| == |groups|
    requires AllMatches(keys, groups, |groups|, p, parse).Success?
    requires m in AllMatches(keys, groups, |groups|, p, parse).value
    ensures a < |groups| && t1 in groups[a] && t2 in groups[a]
    ensures Judge(keys[a], t1, t2, p, parse) == Success(Accepted(m))
  {
    AllMatchesMembers(keys, groups, |groups|, p, parse, m);
    var a', i, j :| 0 <= a' < |groups| && 0 <= i < j < |groups[a']| && Judge(keys[a'], groups[a'][i], groups[a'][j], p, parse) == Success(Accepted(m));
    a, t1, t2 := a', groups[a'][i], groups[a'][j];
  }

  lemma AcceptedShows(asset: string, t1: Trade, t2: Trade, p: Params, parse: Parser, m: Match)
    requires Judge(asset, t1, t2, p, parse) == Success(Accepted(m))
    ensures WellFormed(m, p) && m.asset == asset && Shows(m.trade1, t1, parse) && Shows(m.trade2, t2, parse)
  {
    JudgeSpec(asset, t1, t2, p, parse);
  }

  /** `m` shows two trades of `trades`, both of the pair's symbol. */
  predicate Reported(m: Match, trades: seq<Trade>, parse: Parser) {
    exists t1, t2 :: t1 in trades && t2 in trades && t1.asset == m.asset && t2.asset == m.asset
      && Shows(m.trade1, t1, parse) && Shows(m.trade2, t2, parse)
  }
}
