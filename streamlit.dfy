/** The Streamlit front end (streamlit_app.py): drop rows whose open or close time
    does not parse, rewrite micro Nasdaq symbols ("MNQ...") to the mini root
    ("NQ..."), group by that symbol in sorted order, sort each group by open time,
    compare EVERY ordered pair of trades of a group (a trade with itself included),
    and report the share of users and accounts involved in a pair. Blank cells are
    pandas NaN, so `==` and `>` on them are false. */
module Streamlit {
  import opened Wrappers
  import opened Cells
  import opened Seqs

  /** The exceptions of this front end; the page shows each as an error message. */
  datatype Exception =
    | TypeError           // subtracting an entry price that is text
    | ZeroDivisionError   // a share over a population with no id at all

  /** One row of the uploaded table, one field per column this front end reads. */
  datatype Row = Row(
    asset: Cell, accountId: Cell, userId: Cell, shortLong: Cell,
    avgMarketEntry: Cell, marketProfit: Cell, openDatetime: Cell, closeDatetime: Cell)

  /** A row that kept both of its times, with the times `pd.to_datetime` gave it. */
  datatype Trade = Trade(row: Row, open: real, close: real)

  /** One reported pair: the symbol of the group, the trade of the outer loop
      (`*_1` columns) and the candidate of the inner loop (`*_2` columns). */
  datatype Record = Record(asset: string, trade: Trade, candidate: Trade)

  // ---------------------------------------------------------------------------
  // Symbols

  predicate StartsWith(s: string, prefix: string) {
    |prefix| <= |s| && s[..|prefix|] == prefix
  }

  /** `normalize_asset` on a text symbol. */
  function NormalizeText(s: string): (r: string)
    ensures StartsWith(s, "MNQ") ==> StartsWith(r, "NQ") && r[2..] == s[3..]
    ensures !StartsWith(s, "MNQ") ==> r == s
    ensures !StartsWith(r, "MNQ")
  {
    if StartsWith(s, "MNQ") then
      assert ("NQ" + s[3..])[0] == 'N';
      "NQ" + s[3..]
    else s
  }

  /** `normalize_asset`: only text can be rewritten; a number or a blank is
      returned as it is. */
  function NormalizeAsset(c: Cell): (r: Cell)
    ensures !c.Text? ==> r == c
    ensures c.Text? ==> r == Text(NormalizeText(c.s))
  {
    match c
    case Text(s) => Text(NormalizeText(s))
    case _ => c
  }

  /** A rewritten symbol starts with "NQ", never with "MNQ", so normalizing twice
      changes nothing more than normalizing once. */
  lemma NormalizeAssetIdempotent(c: Cell)
    ensures NormalizeAsset(NormalizeAsset(c)) == NormalizeAsset(c)
  {
    if c.Text? {
      var r := NormalizeText(c.s);
      assert !StartsWith(r, "MNQ");
    }
  }

  lemma NormalizeAssetExamples()
    ensures NormalizeAsset(Text("MNQH5")) == Text("NQH5")
    ensures NormalizeAsset(Text("NQH5")) == Text("NQH5")
    ensures NormalizeAsset(Text("ESH5")) == Text("ESH5")
    ensures NormalizeAsset(Num(5.0)) == Num(5.0)
  {
    assert "MNQH5"[..3] == "MNQ";
    assert "NQ" + "MNQH5"[3..] == "NQH5";
    assert "NQH5"[..3] != "MNQ" by { assert "NQH5"[0] != "MNQ"[0]; }
    assert "ESH5"[..3] != "MNQ" by { assert "ESH5"[0] != "MNQ"[0]; }
  }

  /** The group a trade falls in: its normalized text symbol. A blank symbol is
      in no group (`groupby` drops NaN keys). */
  function KeyOf(t: Trade): (k: Option<string>)
    ensures k.Some? <==> t.row.asset.Text?
  {
    match t.row.asset
    case Text(s) => Some(NormalizeText(s))
    case _ => None
  }

  // ---------------------------------------------------------------------------
  // Parsing the times

  /** `pd.to_datetime(..., errors='coerce')` gave neither time NaT. */
  predicate HasDates(r: Row, parseTime: Parser) {
    ToNumeric(r.openDatetime, parseTime).Some? && ToNumeric(r.closeDatetime, parseTime).Some?
  }

  function Rows(ts: seq<Trade>): seq<Row> {
    seq(|ts|, k requires 0 <= k < |ts| => ts[k].row)
  }

  /** The table after parsing both time columns and `dropna` on them. */
  function Dated(rows: seq<Row>, parseTime: Parser): (ts: seq<Trade>)
    ensures Rows(ts) == Filter(rows, r => HasDates(r, parseTime))
  {
    var kept := Filter(rows, r => HasDates(r, parseTime));
    seq(|kept|, k requires 0 <= k < |kept| =>
      Trade(kept[k], ToNumeric(kept[k].openDatetime, parseTime).value, ToNumeric(kept[k].closeDatetime, parseTime).value))
  }

  /** A trade survives exactly when its row is in the table and both of its times
      parse, and it carries the parsed times. */
  lemma DatedMembers(rows: seq<Row>, parseTime: Parser, t: Trade)
    ensures t in Dated(rows, parseTime) <==>
      && t.row in rows
      && ToNumeric(t.row.openDatetime, parseTime) == Some(t.open)
      && ToNumeric(t.row.closeDatetime, parseTime) == Some(t.close)
  {
    var kept := Filter(rows, r => HasDates(r, parseTime));
    var ts := Dated(rows, parseTime);
    FilterMembership(rows, r => HasDates(r, parseTime), t.row);
    if t in ts {
      var k :| 0 <= k < |ts| && ts[k] == t;
      assert kept[k] == t.row;
    }
    if t.row in rows && ToNumeric(t.row.openDatetime, parseTime) == Some(t.open) && ToNumeric(t.row.closeDatetime, parseTime) == Some(t.close) {
      var k :| 0 <= k < |kept| && kept[k] == t.row;
      assert ts[k] == t;
    }
  }

  /** The surviving rows keep their order in the table. */
  lemma DatedKeepsOrder(rows: seq<Row>, parseTime: Parser)
    ensures Subsequence(Rows(Dated(rows, parseTime)), rows)
  {
    FilterIsSubsequence(rows, r => HasDates(r, parseTime));
  }

  // ---------------------------------------------------------------------------
  // Groups

  /** The normalized symbols of the trades, in table order, with repetitions. */
  function TextKeys(ts: seq<Trade>): seq<string> {
    if ts == [] then []
    else (if KeyOf(ts[0]).Some? then [KeyOf(ts[0]).value] else []) + TextKeys(ts[1..])
  }

  lemma {:induction false} TextKeysMembers(ts: seq<Trade>, k: string)
    ensures k in TextKeys(ts) <==> exists t :: t in ts && KeyOf(t) == Some(k)
  {
    if ts != [] {
      TextKeysMembers(ts[1..], k);
      assert ts == [ts[0]] + ts[1..];
      if exists t :: t in ts && KeyOf(t) == Some(k) {
        var t :| t in ts && KeyOf(t) == Some(k);
        if t != ts[0] { assert t in ts[1..]; }
      }
    }
  }

  /** The keys `groupby` visits: each normalized symbol once, ascending. */
  function GroupKeys(ts: seq<Trade>): (keys: seq<string>)
    ensures StrictlySorted(keys)
  {
    SortedDistinct(TextKeys(ts))
  }

  lemma GroupKeysMembers(ts: seq<Trade>, k: string)
    ensures k in GroupKeys(ts) <==> exists t :: t in ts && KeyOf(t) == Some(k)
  {
    TextKeysMembers(ts, k);
    assert k in GroupKeys(ts) <==> k in Elems(GroupKeys(ts));
    assert k in TextKeys(ts) <==> k in Elems(TextKeys(ts));
  }

  /** Insert `t` before the first trade that opens no earlier: later trades with
      the same open time stay behind it. */
  function InsertByOpen(t: Trade, s: seq<Trade>): seq<Trade> {
    if s == [] || t.open <= s[0].open then [t] + s
    else [s[0]] + InsertByOpen(t, s[1..])
  }

  /** `sort_values('open_datetime')`. */
  function SortByOpen(g: seq<Trade>): seq<Trade> {
    if g == [] then [] else InsertByOpen(g[0], SortByOpen(g[1..]))
  }

  predicate SortedByOpen(s: seq<Trade>) {
    forall i, j :: 0 <= i < j < |s| ==> s[i].open <= s[j].open
  }

  lemma {:induction false} InsertByOpenSpec(t: Trade, s: seq<Trade>)
    requires SortedByOpen(s)
    ensures multiset(InsertByOpen(t, s)) == multiset(s) + multiset{t}
    ensures SortedByOpen(InsertByOpen(t, s))
  {
    if s == [] || t.open <= s[0].open {
      forall y | y in s ensures t.open <= y.open {
        var j :| 0 <= j < |s| && s[j] == y;
      }
      SortedCons(t, s);
    } else {
      var rest := InsertByOpen(t, s[1..]);
      InsertByOpenSpec(t, s[1..]);
      assert s == [s[0]] + s[1..];
      forall x | x in rest ensures s[0].open <= x.open {
        AddedMember(rest, s[1..], t, x);
        if x != t {
          var j :| 0 <= j < |s[1..]| && s[1..][j] == x;
          assert s[j + 1] == x;
        }
      }
      SortedCons(s[0], rest);
    }
  }

  lemma SortedCons(x: Trade, s: seq<Trade>)
    requires SortedByOpen(s)
    requires forall y | y in s :: x.open <= y.open
    ensures SortedByOpen([x] + s)
  {
    forall i, j | 0 <= i < j < |[x] + s| ensures ([x] + s)[i].open <= ([x] + s)[j].open {
      assert ([x] + s)[j] == s[j - 1];
      if i > 0 { assert ([x] + s)[i] == s[i - 1]; }
    }
  }

  /** Sorting keeps every trade of the group, as often as it occurs, and puts them
      in ascending order of open time. */
  lemma {:induction false} SortByOpenSpec(g: seq<Trade>)
    ensures multiset(SortByOpen(g)) == multiset(g)
    ensures SortedByOpen(SortByOpen(g))
  {
    if g != [] {
      SortByOpenSpec(g[1..]);
      InsertByOpenSpec(g[0], SortByOpen(g[1..]));
      assert g == [g[0]] + g[1..];
    }
  }

  /** Group `a` holds the trades of symbol `keys[a]`, sorted by open time. */
  function Groups(ts: seq<Trade>, keys: seq<string>): (groups: seq<seq<Trade>>)
    ensures |groups| == |keys|
  {
    seq(|keys|, a requires 0 <= a < |keys| => SortByOpen(Filter(ts, t => KeyOf(t) == Some(keys[a]))))
  }

  lemma GroupMembers(ts: seq<Trade>, keys: seq<string>, a: nat, t: Trade)
    requires a < |keys|
    ensures t in Groups(ts, keys)[a] <==> t in ts && KeyOf(t) == Some(keys[a])
  {
    var f := Filter(ts, t => KeyOf(t) == Some(keys[a]));
    SortByOpenSpec(f);
    FilterMembership(ts, t => KeyOf(t) == Some(keys[a]), t);
    assert t in SortByOpen(f) <==> t in multiset(SortByOpen(f));
    assert t in f <==> t in multiset(f);
  }

  // ---------------------------------------------------------------------------
  // One comparison

  /** `abs(entry_1 - entry_2)`: a number, NaN (`None`) when either is blank, or a
      TypeError when either is text. */
  function EntryGap(a: Cell, b: Cell): (r: Result<Option<real>, Exception>)
    ensures r.Failure? <==> a.Text? || b.Text?
    ensures r.Success? && r.value.Some? <==> a.Num? && b.Num?
  {
    if a.Text? || b.Text? then Failure(TypeError)
    else if a.Num? && b.Num? then Success(Some(Abs(a.x - b.x)))
    else Success(None)
  }

  /** The five `continue` tests of the inner loop, in order: `true` when the pair
      is recorded. */
  function Judge(t1: Trade, t2: Trade): Result<bool, Exception> {
    if PyEq(t1.row.accountId, t2.row.accountId) then Success(false)
    else match EntryGap(t1.row.avgMarketEntry, t2.row.avgMarketEntry)
      case Failure(e) => Failure(e)
      case Success(gap) =>
        if gap.Some? && gap.value > 5.0 then Success(false)
        else if PyEq(t1.row.shortLong, t2.row.shortLong) then Success(false)
        else if t2.open > t1.close then Success(false)
        else if t2.close < t1.open then Success(false)
        else Success(true)
  }

  /** What a recorded pair is: the accounts are not equal (to Python), the entry
      prices are at most 5 apart where both are numbers, the directions are not
      equal, and the candidate's holding period overlaps the trade's. */
  predicate Hedged(t1: Trade, t2: Trade) {
    && !PyEq(t1.row.accountId, t2.row.accountId)
    && (t1.row.avgMarketEntry.Num? && t2.row.avgMarketEntry.Num? ==>
          Abs(t1.row.avgMarketEntry.x - t2.row.avgMarketEntry.x) <= 5.0)
    && !PyEq(t1.row.shortLong, t2.row.shortLong)
    && t2.open <= t1.close && t2.close >= t1.open
  }

  /** A pair is recorded exactly when it is hedged; an exception is raised only
      past the account test, and only for an entry price that is text. */
  lemma JudgeSpec(t1: Trade, t2: Trade)
    ensures Judge(t1, t2).Success? ==> (Judge(t1, t2).value <==> Hedged(t1, t2))
    ensures Judge(t1, t2).Failure? <==>
      !PyEq(t1.row.accountId, t2.row.accountId) && (t1.row.avgMarketEntry.Text? || t2.row.avgMarketEntry.Text?)
    ensures Judge(t1, t2).Failure? ==> Judge(t1, t2).error == TypeError
  {
  }

  /** Every test reads the two trades the same way round: the overlap test
      `open_2 <= close_1 && close_2 >= open_1` is the overlap test swapped. */
  lemma JudgeSymmetric(t1: Trade, t2: Trade)
    ensures Judge(t1, t2) == Judge(t2, t1)
  {
    JudgeSpec(t1, t2);
    JudgeSpec(t2, t1);
  }

  /** A trade is compared with itself too, and passes when both its account and its
      direction are blank (NaN differs from itself) and it closes no earlier than
      it opens. */
  lemma SelfPairNeedsBlanks(t: Trade)
    ensures Judge(t, t) == Success(true) <==>
      && t.row.accountId.Missing? && t.row.shortLong.Missing? && !t.row.avgMarketEntry.Text?
      && t.open <= t.close
  {
    JudgeSpec(t, t);
  }

  // ---------------------------------------------------------------------------
  // The loops, as prefix specifications

  /** The records of trade `i` against candidates `j < hi`, in loop order. */
  function RowHedges(asset: string, g: seq<Trade>, i: nat, hi: nat): Result<seq<Record>, Exception>
    requires i < |g| && hi <= |g|
  {
    if hi == 0 then Success([])
    else match RowHedges(asset, g, i, hi - 1)
      case Failure(e) => Failure(e)
      case Success(rs) =>
        match Judge(g[i], g[hi - 1])
        case Failure(e) => Failure(e)
        case Success(b) => Success(if b then rs + [Record(asset, g[i], g[hi - 1])] else rs)
  }

  /** The records whose trade comes before `hi` in the group. */
  function GroupHedges(asset: string, g: seq<Trade>, hi: nat): Result<seq<Record>, Exception>
    requires hi <= |g|
  {
    if hi == 0 then Success([])
    else match GroupHedges(asset, g, hi - 1)
      case Failure(e) => Failure(e)
      case Success(rs) =>
        match RowHedges(asset, g, hi - 1, |g|)
        case Failure(e) => Failure(e)
        case Success(more) => Success(rs + more)
  }

  /** The records of the groups before `hi`. */
  function AllHedges(keys: seq<string>, groups: seq<seq<Trade>>, hi: nat): Result<seq<Record>, Exception>
    requires |keys| == |groups| && hi <= |groups|
  {
    if hi == 0 then Success([])
    else match AllHedges(keys, groups, hi - 1)
      case Failure(e) => Failure(e)
      case Success(rs) =>
        match GroupHedges(keys[hi - 1], groups[hi - 1], |groups[hi - 1]|)
        case Failure(e) => Failure(e)
        case Success(more) => Success(rs + more)
  }

  /** The list `hedges` the page builds, or the exception that stops it. */
  function Hedges(rows: seq<Row>, parseTime: Parser): Result<seq<Record>, Exception> {
    var ts := Dated(rows, parseTime);
    var keys := GroupKeys(ts);
    AllHedges(keys, Groups(ts, keys), |keys|)
  }

  /** Once an exception is raised, later iterations do not run. */
  lemma {:induction false} RowFailureSticks(asset: string, g: seq<Trade>, i: nat, lo: nat, hi: nat)
    requires i < |g| && lo <= hi <= |g|
    requires RowHedges(asset, g, i, lo).Failure?
    ensures RowHedges(asset, g, i, hi) == RowHedges(asset, g, i, lo)
    decreases hi - lo
  {
    if lo < hi {
      RowFailureSticks(asset, g, i, lo + 1, hi);
    }
  }

  lemma {:induction false} GroupFailureSticks(asset: string, g: seq<Trade>, lo: nat, hi: nat)
    requires lo <= hi <= |g|
    requires GroupHedges(asset, g, lo).Failure?
    ensures GroupHedges(asset, g, hi) == GroupHedges(asset, g, lo)
    decreases hi - lo
  {
    if lo < hi {
      GroupFailureSticks(asset, g, lo + 1, hi);
    }
  }

  lemma {:induction false} AllFailureSticks(keys: seq<string>, groups: seq<seq<Trade>>, lo: nat, hi: nat)
    requires |keys| == |groups| && lo <= hi <= |groups|
    requires AllHedges(keys, groups, lo).Failure?
    ensures AllHedges(keys, groups, hi) == AllHedges(keys, groups, lo)
    decreases hi - lo
  {
    if lo < hi {
      AllFailureSticks(keys, groups, lo + 1, hi);
    }
  }

  // ---------------------------------------------------------------------------
  // The loops

  /** Lines 20-68: parse the times, drop the rows without them, then the three
      nested loops. */
  method FindHedges(rows: seq<Row>, parseTime: Parser) returns (r: Result<seq<Record>, Exception>)
    ensures r == Hedges(rows, parseTime)
  {
    var ts := Dated(rows, parseTime);
    var keys := GroupKeys(ts);
    r := HedgeGroups(keys, Groups(ts, keys));
  }

  /** `for asset, group in grouped`. */
  method HedgeGroups(keys: seq<string>, groups: seq<seq<Trade>>) returns (r: Result<seq<Record>, Exception>)
    requires |keys| == |groups|
    ensures r == AllHedges(keys, groups, |groups|)
  {
    var hedges: seq<Record> := [];
    var a := 0;
    while a < |groups|
      invariant 0 <= a <= |groups|
      invariant AllHedges(keys, groups, a) == Success(hedges)
    {
      var gr := HedgeGroup(keys[a], groups[a], hedges);
      if gr.Failure? {
        AllFailureSticks(keys, groups, a + 1, |groups|);
        return Failure(gr.error);
      }
      hedges := gr.value;
      a := a + 1;
    }
    r := Success(hedges);
  }

  /** `for i, trade in group.iterrows()`, appending to the records found so far. */
  method HedgeGroup(asset: string, g: seq<Trade>, hedges0: seq<Record>) returns (r: Result<seq<Record>, Exception>)
    ensures var gh := GroupHedges(asset, g, |g|);
            gh.Failure? ==> r == Failure(gh.error)
    ensures var gh := GroupHedges(asset, g, |g|);
            gh.Success? ==> r == Success(hedges0 + gh.value)
  {
    var hedges := hedges0;
    ghost var gdone: seq<Record> := [];
    var i := 0;
    while i < |g|
      invariant 0 <= i <= |g|
      invariant GroupHedges(asset, g, i) == Success(gdone)
      invariant hedges == hedges0 + gdone
    {
      var rr := HedgeRow(asset, g, i, hedges);
      if rr.Failure? {
        GroupFailureSticks(asset, g, i + 1, |g|);
        return Failure(rr.error);
      }
      var more := RowHedges(asset, g, i, |g|).value;
      ConcatAssoc(hedges0, gdone, more);
      hedges := rr.value;
      gdone := gdone + more;
      i := i + 1;
    }
    r := Success(hedges);
  }

  /** `for j, candidate in group.iterrows()`: trade `i` against every trade of its
      group, itself included. */
  method HedgeRow(asset: string, g: seq<Trade>, i: nat, hedges0: seq<Record>) returns (r: Result<seq<Record>, Exception>)
    requires i < |g|
    ensures var rh := RowHedges(asset, g, i, |g|);
            rh.Failure? ==> r == Failure(rh.error)
    ensures var rh := RowHedges(asset, g, i, |g|);
            rh.Success? ==> r == Success(hedges0 + rh.value)
  {
    var hedges := hedges0;
    ghost var rdone: seq<Record> := [];
    var j := 0;
    while j < |g|
      invariant 0 <= j <= |g|
      invariant RowHedges(asset, g, i, j) == Success(rdone)
      invariant hedges == hedges0 + rdone
    {
      var v := Judge(g[i], g[j]);
      match v {
        case Failure(e) =>
          RowFailureSticks(asset, g, i, j + 1, |g|);
          return Failure(e);
        case Success(b) =>
          if b {
            var rec := Record(asset, g[i], g[j]);
            ConcatAssoc(hedges0, rdone, [rec]);
            hedges := hedges + [rec];
            rdone := rdone + [rec];
          }
      }
      j := j + 1;
    }
    r := Success(hedges);
  }

  // ---------------------------------------------------------------------------
  // What the loops record

  /** A row that raised nothing compared trade `i` with every candidate before
      `hi`, and recorded exactly the accepted ones. */
  lemma {:induction false} RowHedgesMembers(asset: string, g: seq<Trade>, i: nat, hi: nat, rec: Record)
    requires i < |g| && hi <= |g|
    requires RowHedges(asset, g, i, hi).Success?
    ensures forall j :: 0 <= j < hi ==> Judge(g[i], g[j]).Success?
    ensures rec in RowHedges(asset, g, i, hi).value <==>
      exists j :: 0 <= j < hi && Judge(g[i], g[j]) == Success(true) && rec == Record(asset, g[i], g[j])
    decreases hi
  {
    if hi > 0 {
      RowHedgesMembers(asset, g, i, hi - 1, rec);
    }
  }

  lemma {:induction false} GroupHedgesMembers(asset: string, g: seq<Trade>, hi: nat, rec: Record)
    requires hi <= |g|
    requires GroupHedges(asset, g, hi).Success?
    ensures forall i, j :: 0 <= i < hi && 0 <= j < |g| ==> Judge(g[i], g[j]).Success?
    ensures rec in GroupHedges(asset, g, hi).value <==>
      exists i, j :: 0 <= i < hi && 0 <= j < |g| && Judge(g[i], g[j]) == Success(true) && rec == Record(asset, g[i], g[j])
  {
    if hi > 0 {
      GroupHedgesMembers(asset, g, hi - 1, rec);
      RowHedgesMembers(asset, g, hi - 1, |g|, rec);
    }
  }

  lemma {:induction false} AllHedgesMembers(keys: seq<string>, groups: seq<seq<Trade>>, hi: nat, rec: Record)
    requires |keys| == |groups| && hi <= |groups|
    requires AllHedges(keys, groups, hi).Success?
    ensures forall a, i, j :: 0 <= a < hi && 0 <= i < |groups[a]| && 0 <= j < |groups[a]| ==> Judge(groups[a][i], groups[a][j]).Success?
    ensures rec in AllHedges(keys, groups, hi).value <==>
      exists a, i, j :: 0 <= a < hi && 0 <= i < |groups[a]| && 0 <= j < |groups[a]|
        && Judge(groups[a][i], groups[a][j]) == Success(true) && rec == Record(keys[a], groups[a][i], groups[a][j])
  {
    if hi > 0 {
      AllHedgesMembers(keys, groups, hi - 1, rec);
      GroupHedgesMembers(keys[hi - 1], groups[hi - 1], |groups[hi - 1]|, rec);
    }
  }

  /** Every record shows two trades that kept their times, both of the record's
      symbol, and the pair is hedged. */
  lemma HedgesSound(rows: seq<Row>, parseTime: Parser, rec: Record)
    requires Hedges(rows, parseTime).Success? && rec in Hedges(rows, parseTime).value
    ensures rec.trade in Dated(rows, parseTime) && rec.candidate in Dated(rows, parseTime)
    ensures KeyOf(rec.trade) == Some(rec.asset) && KeyOf(rec.candidate) == Some(rec.asset)
    ensures Hedged(rec.trade, rec.candidate)
  {
    var ts := Dated(rows, parseTime);
    var keys := GroupKeys(ts);
    var groups := Groups(ts, keys);
    AllHedgesMembers(keys, groups, |keys|, rec);
    var a, i, j :| 0 <= a < |keys| && 0 <= i < |groups[a]| && 0 <= j < |groups[a]|
      && Judge(groups[a][i], groups[a][j]) == Success(true) && rec == Record(keys[a], groups[a][i], groups[a][j]);
    GroupMembers(ts, keys, a, groups[a][i]);
    GroupMembers(ts, keys, a, groups[a][j]);
    JudgeSpec(groups[a][i], groups[a][j]);
  }

  /** Conversely, every hedged ordered pair of surviving trades of one symbol is
      recorded, a trade with itself included. */
  lemma HedgesComplete(rows: seq<Row>, parseTime: Parser, t1: Trade, t2: Trade)
    requires Hedges(rows, parseTime).Success?
    requires t1 in Dated(rows, parseTime) && t2 in Dated(rows, parseTime)
    requires KeyOf(t1).Some? && KeyOf(t2) == KeyOf(t1)
    requires Hedged(t1, t2)
    ensures Record(KeyOf(t1).value, t1, t2) in Hedges(rows, parseTime).value
  {
    var ts := Dated(rows, parseTime);
    var keys := GroupKeys(ts);
    var groups := Groups(ts, keys);
    var k := KeyOf(t1).value;
    GroupKeysMembers(ts, k);
    var a :| 0 <= a < |keys| && keys[a] == k;
    GroupMembers(ts, keys, a, t1);
    GroupMembers(ts, keys, a, t2);
    var i :| 0 <= i < |groups[a]| && groups[a][i] == t1;
    var j :| 0 <= j < |groups[a]| && groups[a][j] == t2;
    var rec := Record(k, t1, t2);
    AllHedgesMembers(keys, groups, |keys|, rec);
    JudgeSpec(t1, t2);
    assert Judge(groups[a][i], groups[a][j]) == Success(true);
  }

  function Swap(rec: Record): Record {
    Record(rec.asset, rec.candidate, rec.trade)
  }

  /** The loops cover every ordered pair and every test is symmetric, so each
      record comes with its mirror image. */
  lemma HedgesSymmetric(rows: seq<Row>, parseTime: Parser, rec: Record)
    requires Hedges(rows, parseTime).Success? && rec in Hedges(rows, parseTime).value
    ensures Swap(rec) in Hedges(rows, parseTime).value
  {
    var ts := Dated(rows, parseTime);
    var keys := GroupKeys(ts);
    var groups := Groups(ts, keys);
    AllHedgesMembers(keys, groups, |keys|, rec);
    var a, i, j :| 0 <= a < |keys| && 0 <= i < |groups[a]| && 0 <= j < |groups[a]|
      && Judge(groups[a][i], groups[a][j]) == Success(true) && rec == Record(keys[a], groups[a][i], groups[a][j]);
    JudgeSymmetric(groups[a][i], groups[a][j]);
    AllHedgesMembers(keys, groups, |keys|, Swap(rec));
    assert Swap(rec) == Record(keys[a], groups[a][j], groups[a][i]);
  }

  /** Two trades of the same non-blank account are never paired; a trade is paired
      with itself only when its account and its direction are both blank. */
  lemma HedgesNoSameAccount(rows: seq<Row>, parseTime: Parser, rec: Record)
    requires Hedges(rows, parseTime).Success? && rec in Hedges(rows, parseTime).value
    ensures rec.trade.row.accountId == rec.candidate.row.accountId ==> rec.trade.row.accountId.Missing?
    ensures rec.trade == rec.candidate ==> rec.trade.row.accountId.Missing? && rec.trade.row.shortLong.Missing?
  {
    HedgesSound(rows, parseTime, rec);
  }

  // ---------------------------------------------------------------------------
  // Involvement

  datatype Column = UserId | AccountId

  function ValueIn(r: Row, col: Column): Cell {
    match col
    case UserId => r.userId
    case AccountId => r.accountId
  }

  /** `df[col].nunique()`: the distinct non-blank ids of the surviving rows. */
  function Population(ts: seq<Trade>, col: Column): set<Cell> {
    set t | t in ts && !ValueIn(t.row, col).Missing? :: ValueIn(t.row, col)
  }

  /** The distinct non-blank ids on either side of a record. */
  function Involved(hs: seq<Record>, col: Column): set<Cell> {
    (set rec | rec in hs && !ValueIn(rec.trade.row, col).Missing? :: ValueIn(rec.trade.row, col))
    + (set rec | rec in hs && !ValueIn(rec.candidate.row, col).Missing? :: ValueIn(rec.candidate.row, col))
  }

  /** `len(involved) / nunique * 100`, which raises when no row has an id. */
  function Share(hs: seq<Record>, ts: seq<Trade>, col: Column): (r: Result<real, Exception>)
    ensures r.Failure? <==> Population(ts, col) == {}
  {
    var pop := Population(ts, col);
    if |pop| == 0 then Failure(ZeroDivisionError)
    else Success(|Involved(hs, col)| as real / |pop| as real * 100.0)
  }

  datatype Shares = Shares(users: real, accounts: real)

  /** Lines 77 and 87-89: no shares when nothing was found; otherwise the user
      share, then the account share. */
  function Summary(rows: seq<Row>, parseTime: Parser): Result<Option<Shares>, Exception> {
    match Hedges(rows, parseTime)
    case Failure(e) => Failure(e)
    case Success(hs) =>
      if hs == [] then Success(None)
      else
        var ts := Dated(rows, parseTime);
        match Share(hs, ts, UserId)
        case Failure(e) => Failure(e)
        case Success(u) =>
          match Share(hs, ts, AccountId)
          case Failure(e) => Failure(e)
          case Success(a) => Success(Some(Shares(u, a)))
  }

  /** The ids in the records are ids of surviving rows. */
  lemma InvolvedWithinPopulation(rows: seq<Row>, parseTime: Parser, col: Column)
    requires Hedges(rows, parseTime).Success?
    ensures Involved(Hedges(rows, parseTime).value, col) <= Population(Dated(rows, parseTime), col)
  {
    var hs := Hedges(rows, parseTime).value;
    forall rec | rec in hs ensures rec.trade in Dated(rows, parseTime) && rec.candidate in Dated(rows, parseTime) {
      HedgesSound(rows, parseTime, rec);
    }
  }

  lemma RatioBetween(x: nat, y: nat)
    requires 0 < x <= y
    ensures 0.0 < x as real / y as real * 100.0 <= 100.0
  {
    var q := x as real / y as real;
    assert q * y as real == x as real;
    assert 0.0 < q <= 1.0;
  }

  /** With a pair found and an id on the first record, both shares are defined and
      lie in (0, 100]: the involved ids are a non-empty part of the population. */
  lemma SummaryShares(rows: seq<Row>, parseTime: Parser)
    requires Hedges(rows, parseTime).Success? && Hedges(rows, parseTime).value != []
    requires var rec := Hedges(rows, parseTime).value[0];
      !rec.trade.row.userId.Missing? && !rec.trade.row.accountId.Missing?
    ensures Summary(rows, parseTime).Success? && Summary(rows, parseTime).value.Some?
    ensures var s := Summary(rows, parseTime).value.value;
      0.0 < s.users <= 100.0 && 0.0 < s.accounts <= 100.0
  {
    var hs := Hedges(rows, parseTime).value;
    var ts := Dated(rows, parseTime);
    var rec := hs[0];
    assert ValueIn(rec.trade.row, UserId) in Involved(hs, UserId);
    assert ValueIn(rec.trade.row, AccountId) in Involved(hs, AccountId);
    InvolvedWithinPopulation(rows, parseTime, UserId);
    InvolvedWithinPopulation(rows, parseTime, AccountId);
    SubsetCardinality(Involved(hs, UserId), Population(ts, UserId));
    SubsetCardinality(Involved(hs, AccountId), Population(ts, AccountId));
    RatioBetween(|Involved(hs, UserId)|, |Population(ts, UserId)|);
    RatioBetween(|Involved(hs, AccountId)|, |Population(ts, AccountId)|);
  }

  /** Pairs can exist without any user id (two trades with blank users), and then
      the user share divides by zero. */
  lemma SummaryWithoutUsers(rows: seq<Row>, parseTime: Parser)
    requires Hedges(rows, parseTime).Success? && Hedges(rows, parseTime).value != []
    requires forall t :: t in Dated(rows, parseTime) ==> t.row.userId.Missing?
    ensures Summary(rows, parseTime) == Failure(ZeroDivisionError)
  {
    assert Population(Dated(rows, parseTime), UserId) == {};
  }
}
