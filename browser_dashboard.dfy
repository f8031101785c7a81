/** The browser dashboard's state (script.js): the global list of detected
    pairs and the current results page, the `processData` loops that fill the
    list, the result filter, pagination, the confidence histogram and the
    counts behind the notable-patterns panel. */
module BrowserDashboard {
  import opened Wrappers
  import opened Cells
  import opened Seqs
  import opened Tally
  import opened BrowserMatcher
  import AppMatcher

  // ---------------------------------------------------------------------------
  // Grouping by normalised symbol

  /** A key that is no row's key has an empty group. */
  lemma EmptyGroup(rows: seq<Row>, key: string)
    requires key !in Elems(Firsts(Keys(rows)))
    ensures Filter(rows, HasKey(key)) == []
  {
    FirstsSpec(Keys(rows));
    var f := Filter(rows, HasKey(key));
    if f != [] {
      FilterMembership(rows, HasKey(key), f[0]);
    }
  }

  lemma KeysSnoc(rows: seq<Row>, row: Row)
    ensures Keys(rows + [row]) == Keys(rows) + [KeyOf(row)]
  {
  }

  /** Appending a row extends the group of its own key and no other. */
  lemma GroupSnoc(rows: seq<Row>, row: Row, k: string)
    ensures Filter(rows + [row], HasKey(k)) == Filter(rows, HasKey(k)) + (if KeyOf(row) == k then [row] else [])
  {
    FilterConcat(rows, [row], HasKey(k));
    FilterSingleton(row, HasKey(k));
  }

  /** One more row: its key joins the order if it is new. */
  lemma OrderStep(rows: seq<Row>, row: Row, order: seq<string>)
    requires order == Firsts(Keys(rows))
    ensures (if KeyOf(row) in order then order else order + [KeyOf(row)]) == Firsts(Keys(rows + [row]))
  {
    KeysSnoc(rows, row);
    FirstsSnoc(Keys(rows), KeyOf(row));
  }

  /** Each key's group holds the rows of that key, in input order. */
  ghost predicate GroupsOf(rows: seq<Row>, groups: map<string, seq<Row>>) {
    forall k :: k in groups ==> groups[k] == Filter(rows, HasKey(k))
  }

  lemma GroupStep(rows: seq<Row>, row: Row, order: seq<string>, groups: map<string, seq<Row>>)
    requires order == Firsts(Keys(rows)) && groups.Keys == Elems(order)
    requires GroupsOf(rows, groups)
    ensures var key := KeyOf(row);
      GroupsOf(rows + [row], groups[key := (if key in groups then groups[key] else []) + [row]])
  {
    var key := KeyOf(row);
    var groups' := groups[key := (if key in groups then groups[key] else []) + [row]];
    forall k | k in groups' ensures groups'[k] == Filter(rows + [row], HasKey(k)) {
      GroupSnoc(rows, row, k);
      if k == key && key !in groups {
        EmptyGroup(rows, key);
      }
    }
  }

  /** The `assetGroups` object after the rows `rows`, each pushed onto its key's group. */
  function GroupMap(rows: seq<Row>): map<string, seq<Row>> {
    if rows == [] then map[]
    else
      var groups, row := GroupMap(rows[..|rows| - 1]), rows[|rows| - 1];
      var key := KeyOf(row);
      groups[key := (if key in groups then groups[key] else []) + [row]]
  }

  /** The keys of the object after the rows `rows`, in insertion order. */
  function KeyOrder(rows: seq<Row>): seq<string> {
    if rows == [] then []
    else
      var order, key := KeyOrder(rows[..|rows| - 1]), KeyOf(rows[|rows| - 1]);
      if key in order then order else order + [key]
  }

  /** The insertion order is the order of first appearance of the keys. */
  lemma {:induction false} KeyOrderIsGroupKeys(rows: seq<Row>)
    ensures KeyOrder(rows) == GroupKeys(rows)
  {
    if rows != [] {
      var init, row := rows[..|rows| - 1], rows[|rows| - 1];
      assert rows == init + [row];
      KeyOrderIsGroupKeys(init);
      OrderStep(init, row, GroupKeys(init));
    }
  }

  /** A key is in the object exactly when it is in the insertion order. */
  lemma {:induction false} KeyOrderIsDomain(rows: seq<Row>, k: string)
    ensures k in GroupMap(rows) <==> k in KeyOrder(rows)
  {
    if rows != [] {
      KeyOrderIsDomain(rows[..|rows| - 1], k);
    }
  }

  /** Pushing `s[n]` onto the object for `s[..n]`. */
  lemma GroupMapStepAt(s: seq<Row>, n: nat)
    requires n < |s|
    ensures var groups, order, key := GroupMap(s[..n]), KeyOrder(s[..n]), KeyOf(s[n]);
      && GroupMap(s[..n + 1]) == groups[key := (if key in groups then groups[key] else []) + [s[n]]]
      && KeyOrder(s[..n + 1]) == (if key in order then order else order + [key])
      && (key in groups <==> key in order)
  {
    assert s[..n + 1][..n] == s[..n];
    KeyOrderIsDomain(s[..n], KeyOf(s[n]));
  }

  /** The object has one entry per key. */
  lemma {:induction false} GroupMapKeys(rows: seq<Row>)
    ensures GroupMap(rows).Keys == Elems(Firsts(Keys(rows)))
  {
    if rows != [] {
      var init, row := rows[..|rows| - 1], rows[|rows| - 1];
      assert rows == init + [row];
      GroupMapKeys(init);
      OrderStep(init, row, Firsts(Keys(init)));
      assert Elems(Firsts(Keys(rows))) == Elems(Firsts(Keys(init))) + {KeyOf(row)};
    }
  }

  /** Each entry holds its key's rows in input order. */
  lemma {:induction false} GroupMapHoldsGroups(rows: seq<Row>)
    ensures GroupsOf(rows, GroupMap(rows))
  {
    if rows != [] {
      var init, row := rows[..|rows| - 1], rows[|rows| - 1];
      assert rows == init + [row];
      GroupMapHoldsGroups(init);
      GroupMapKeys(init);
      GroupStep(init, row, Firsts(Keys(init)), GroupMap(init));
    }
  }

  /** The grouping pass of `processData`: the keys of `assetGroups` in
      insertion order and the object itself; a symbol that is not a string
      makes `includes` throw. */
  method GroupByAsset(clean: seq<Row>) returns (r: Result<(seq<string>, map<string, seq<Row>>), JsError>)
    ensures r.Success? <==> AllTextAssets(clean)
    ensures r.Success? ==> r.value.0 == GroupKeys(clean) && r.value.1 == GroupMap(clean)
  {
    var order: seq<string> := [];
    var groups: map<string, seq<Row>> := map[];
    var n := 0;
    while n < |clean|
      invariant 0 <= n <= |clean|
      invariant forall m :: 0 <= m < n ==> clean[m].asset.Text?
      invariant order == KeyOrder(clean[..n])
      invariant groups == GroupMap(clean[..n])
    {
      var row := clean[n];
      if !row.asset.Text? {
        return Failure(TypeError);
      }
      var key := NormalizeAssetName(row.asset.s);
      assert KeyOf(row) == key;
      GroupMapStepAt(clean, n);
      var group := if key in groups then groups[key] else [];
      if key !in groups {
        order := order + [key];
      }
      groups := groups[key := group + [row]];
      n := n + 1;
    }
    assert clean[..n] == clean;
    KeyOrderIsGroupKeys(clean);
    return Success((order, groups));
  }

  // ---------------------------------------------------------------------------
  // The result filter

  /** The `type` string of a pair. */
  function TypeName(kind: AppMatcher.HedgeType): string {
    match kind
    case SelfHedge => "self_hedge"
    case InterUserHedge => "inter_user_hedge"
  }

  /** The test `getFilteredHedgePairs` applies; a confidence filter that parses
      to NaN (`None`) rejects nothing, since `x < NaN` is false. */
  function Keeps(typeFilter: string, confidenceFilter: Option<real>): HedgePair -> bool {
    (h: HedgePair) => (typeFilter == "all" || TypeName(h.pair.kind) == typeFilter)
      && !(confidenceFilter.Some? && h.pair.confidence < confidenceFilter.value)
  }

  /** The filter keeps the passing pairs, all of them, in list order. */
  lemma FilterFacts(hs: seq<HedgePair>, typeFilter: string, confidenceFilter: Option<real>)
    ensures var r := Filter(hs, Keeps(typeFilter, confidenceFilter));
      && Subsequence(r, hs)
      && (forall h :: h in hs && Keeps(typeFilter, confidenceFilter)(h) ==> h in r)
      && (typeFilter == "all" && confidenceFilter.None? ==> r == hs)
  {
    var r := Filter(hs, Keeps(typeFilter, confidenceFilter));
    FilterIsSubsequence(hs, Keeps(typeFilter, confidenceFilter));
    forall h | h in hs && Keeps(typeFilter, confidenceFilter)(h) ensures h in r {
      FilterMembership(hs, Keeps(typeFilter, confidenceFilter), h);
    }
    if typeFilter == "all" && confidenceFilter.None? {
      FilterKeepsAll(hs, Keeps(typeFilter, confidenceFilter));
    }
  }

  // ---------------------------------------------------------------------------
  // Pagination

  const PageSize: nat := 10

  /** `Math.ceil(n / pageSize)`. */
  function TotalPages(n: nat): (t: nat)
    ensures (t - 1) * PageSize < n <= t * PageSize || (n == 0 && t == 0)
  {
    (n + PageSize - 1) / PageSize
  }

  /** `totalPages || 1`: the last page, with one (empty) page for no pairs. */
  function LastPage(n: nat): (t: nat)
    ensures t >= 1 && (n > 0 ==> t == TotalPages(n))
  {
    if TotalPages(n) == 0 then 1 else TotalPages(n)
  }

  /** `sorted.slice(startIndex, startIndex + pageSize)` for page `page`: the
      pairs of that page, nothing past the end of the list. */
  function PageOf(sorted: seq<HedgePair>, page: nat): (r: seq<HedgePair>)
    requires page >= 1
    ensures |r| <= PageSize
  {
    var start := (page - 1) * PageSize;
    if start >= |sorted| then []
    else sorted[start..if start + PageSize < |sorted| then start + PageSize else |sorted|]
  }

  // ---------------------------------------------------------------------------
  // The confidence histogram

  /** The bin edges of the confidence chart. */
  const Bins: seq<real> := [0.0, 0.2, 0.4, 0.6, 0.8, 1.0]

  /** The half-open bin `[Bins[b], Bins[b + 1])` holding `c`, if any. */
  function BinOf(c: real): (b: Option<nat>)
    ensures b.Some? ==> b.value < 5 && Bins[b.value] <= c < Bins[b.value + 1]
    ensures b.None? ==> forall k :: 0 <= k < 5 ==> !(Bins[k] <= c < Bins[k + 1])
  {
    if 0.0 <= c < 0.2 then Some(0)
    else if 0.2 <= c < 0.4 then Some(1)
    else if 0.4 <= c < 0.6 then Some(2)
    else if 0.6 <= c < 0.8 then Some(3)
    else if 0.8 <= c < 1.0 then Some(4)
    else None
  }

  /** Whether bin `b` of the chart counts confidence `c`: its half-open range,
      and for the last bin also a confidence of exactly 1. */
  function InBin(b: nat): real -> bool {
    (c: real) => (b < 5 && Bins[b] <= c < Bins[b + 1]) || (b == 4 && c == 1.0)
  }

  predicate InUnit(c: real) {
    0.0 <= c <= 1.0
  }

  /** The counts after one more pair of confidence `c`. */
  function Bump(counts: seq<int>, c: real): (r: seq<int>)
    requires |counts| == 5
    ensures |r| == 5
  {
    var binned := if BinOf(c).Some? then counts[BinOf(c).value := counts[BinOf(c).value] + 1] else counts;
    if c == 1.0 then binned[4 := binned[4] + 1] else binned
  }

  /** The five bar heights of the chart for the confidences `cs`. */
  function Histogram(cs: seq<real>): (h: seq<int>)
    ensures |h| == 5
  {
    if cs == [] then [0, 0, 0, 0, 0]
    else Bump(Histogram(cs[..|cs| - 1]), cs[|cs| - 1])
  }

  function Total(h: seq<int>): int
    requires |h| == 5
  {
    h[0] + h[1] + h[2] + h[3] + h[4]
  }

  function Confidences(hs: seq<HedgePair>): (cs: seq<real>)
    ensures |cs| == |hs| && forall k :: 0 <= k < |hs| ==> cs[k] == hs[k].pair.confidence
  {
    seq(|hs|, k requires 0 <= k < |hs| => hs[k].pair.confidence)
  }

  /** The body of the chart's `forEach`: the bin loop with its `break`, then the
      extra count of a confidence of exactly 1 in the last bar. */
  method CountConfidence(counts: array<int>, c: real)
    requires counts.Length == 5
    modifies counts
    ensures counts[..] == Bump(old(counts[..]), c)
  {
    ghost var before := counts[..];
    var i := 0;
    while i < |Bins| - 1
      invariant 0 <= i <= 5 && counts[..] == before
      invariant forall b :: 0 <= b < i ==> !(Bins[b] <= c < Bins[b + 1])
    {
      if Bins[i] <= c && c < Bins[i + 1] {
        assert BinOf(c) == Some(i);
        counts[i] := counts[i] + 1;
        break;
      }
      i := i + 1;
    }
    assert counts[..] == if BinOf(c).Some? then before[BinOf(c).value := before[BinOf(c).value] + 1] else before;
    if c == 1.0 {
      counts[4] := counts[4] + 1;
    }
  }

  /** One more confidence raises exactly the bars whose bin holds it. */
  lemma BumpBin(counts: seq<int>, c: real, b: nat)
    requires |counts| == 5 && b < 5
    ensures Bump(counts, c)[b] == counts[b] + if InBin(b)(c) then 1 else 0
  {
    if BinOf(c).Some? && BinOf(c).value != b {
      assert !(Bins[b] <= c < Bins[b + 1]);
    }
  }

  /** One more confidence adds one to the bars' total exactly when it lies in [0, 1]. */
  lemma BumpTotal(counts: seq<int>, c: real)
    requires |counts| == 5
    ensures Total(Bump(counts, c)) == Total(counts) + if InUnit(c) then 1 else 0
  {
    forall b | 0 <= b < 5 ensures Bump(counts, c)[b] == counts[b] + if InBin(b)(c) then 1 else 0 {
      BumpBin(counts, c, b);
    }
  }

  /** Each bar counts exactly the confidences of its bin, and the bars together
      count every confidence in [0, 1] once. */
  lemma {:induction false} HistogramCounts(cs: seq<real>)
    ensures forall b :: 0 <= b < 5 ==> Histogram(cs)[b] == |Filter(cs, InBin(b))|
    ensures Total(Histogram(cs)) == |Filter(cs, InUnit)|
  {
    if cs != [] {
      var init, c := cs[..|cs| - 1], cs[|cs| - 1];
      assert cs == init + [c];
      HistogramCounts(init);
      forall b | 0 <= b < 5 ensures Histogram(cs)[b] == |Filter(cs, InBin(b))| {
        BumpBin(Histogram(init), c, b);
        FilterConcat(init, [c], InBin(b));
        FilterSingleton(c, InBin(b));
      }
      BumpTotal(Histogram(init), c);
      FilterConcat(init, [c], InUnit);
      FilterSingleton(c, InUnit);
    }
  }

  /** With every confidence in [0, 1], as for the pairs `processData` pushes,
      the chart's bars add up to the number of pairs. */
  lemma HistogramCoversAll(cs: seq<real>)
    requires forall k :: 0 <= k < |cs| ==> InUnit(cs[k])
    ensures Total(Histogram(cs)) == |cs|
  {
    HistogramCounts(cs);
    FilterKeepsAll(cs, InUnit);
  }

  // ---------------------------------------------------------------------------
  // The notable-patterns panel

  /** The three lists behind the panel: users with at least three pairs, the
      peak hours and the pair count of every symbol. */
  datatype JsPatterns = JsPatterns(
    frequentUsers: seq<Entry<Cell>>, peakHours: seq<Entry<Option<int>>>, assets: seq<Entry<string>>)

  /** The two leg owners of each pair, in order. */
  function UserPairs(hs: seq<HedgePair>): (r: seq<(Cell, Cell)>)
    ensures |r| == |hs|
    ensures forall k :: 0 <= k < |hs| ==> r[k] == (hs[k].pair.trade1.userId, hs[k].pair.trade2.userId)
  {
    seq(|hs|, k requires 0 <= k < |hs| => (hs[k].pair.trade1.userId, hs[k].pair.trade2.userId))
  }

  /** The hour of the first leg's entry: `hourOf` stands for
      `new Date(parseInt(...)).getHours()` in the browser's time zone, `None`
      for an invalid date. A pair pushed by `processData` always has a text time. */
  function HourKey(h: HedgePair, hourOf: string -> Option<int>): Option<int> {
    match h.pair.trade1.entryDatetimes
    case Text(s) => hourOf(StripBrackets(s))
    case _ => None
  }

  function HourKeys(hs: seq<HedgePair>, hourOf: string -> Option<int>): (r: seq<Option<int>>)
    ensures |r| == |hs| && forall k :: 0 <= k < |hs| ==> r[k] == HourKey(hs[k], hourOf)
  {
    seq(|hs|, k requires 0 <= k < |hs| => HourKey(hs[k], hourOf))
  }

  function AssetKeys(hs: seq<HedgePair>): (r: seq<string>)
    ensures |r| == |hs| && forall k :: 0 <= k < |hs| ==> r[k] == hs[k].pair.asset
  {
    seq(|hs|, k requires 0 <= k < |hs| => hs[k].pair.asset)
  }

  // ---------------------------------------------------------------------------
  // The page state

  class Dashboard {
    /** The global `hedgePairs` list. */
    var hedgePairs: seq<HedgePair>
    /** The global `currentPage`, counted from 1. */
    var currentPage: int

    ghost predicate Valid()
      reads this
    {
      currentPage >= 1
    }

    /** The globals as the page loads. */
    constructor ()
      ensures Valid() && hedgePairs == [] && currentPage == 1
    {
      hedgePairs := [];
      currentPage := 1;
    }

    /** `processData`: clear the list, drop rows missing a required field,
        group the rest by normalised symbol and push every opposite-direction
        pair of a group that passes the checks, numbered from 1. An exception
        ends the run and leaves the pairs pushed before it in the list. */
    method ProcessData(data: seq<Row>, p: AppMatcher.Params, parse: Parser) returns (thrown: bool)
      requires Valid()
      modifies this
      ensures Valid() && currentPage == old(currentPage)
      ensures thrown == Process(data, p, parse).thrown
      ensures hedgePairs == Number(Process(data, p, parse).found)
    {
      hedgePairs := [];
      var clean := Filter(data, Clean);
      var grouped := GroupByAsset(clean);
      if grouped.Failure? {
        return true;
      }
      var order, assetGroups := grouped.value.0, grouped.value.1;
      GroupMapKeys(clean);
      GroupMapHoldsGroups(clean);
      ghost var groups := Groups(clean, order);
      ghost var ds := Decisions(order, groups, p, parse);
      var pairId := 1;
      ghost var done: seq<Match> := [];
      var a := 0;
      while a < |order|
        invariant 0 <= a <= |order|
        invariant AllRun(ds, groups, a) == Run(done, false)
        invariant hedgePairs == Number(done) && pairId == |done| + 1
        invariant currentPage == old(currentPage)
      {
        var asset := order[a];
        assert asset in Elems(order);
        var trades := assetGroups[asset];
        assert trades == groups[a];
        ghost var run := GroupRun(ds[a], trades, |trades|);
        var groupThrown;
        ConcatAssoc(done, [], run.found);
        pairId, groupThrown := PairGroup(Decide(asset, trades, p, parse), trades, done, pairId);
        if groupThrown {
          AllThrownSticks(ds, groups, a + 1, |groups|);
          return true;
        }
        done := done + run.found;
        a := a + 1;
      }
      return false;
    }

    /** The closure run for one symbol: each trade of the group against every
        later one, with `d` the comparison of two positions of the group
        (`Decide`). Reading a trade's times throws for a time that is not a string. */
    method PairGroup(d: Decision, trades: seq<Row>, ghost prior: seq<Match>, pairId: nat)
      returns (nextId: nat, thrown: bool)
      requires hedgePairs == Number(prior) && pairId == |prior| + 1
      modifies this
      ensures var run := GroupRun(d, trades, |trades|);
        && hedgePairs == Number(prior + run.found) && nextId == |prior + run.found| + 1
        && thrown == run.thrown
      ensures currentPage == old(currentPage)
    {
      ghost var gdone: seq<Match> := [];
      nextId := pairId;
      var i := 0;
      while i < |trades|
        invariant 0 <= i <= |trades|
        invariant GroupRun(d, trades, i) == Run(gdone, false)
        invariant hedgePairs == Number(prior + gdone) && nextId == |prior + gdone| + 1
        invariant currentPage == old(currentPage)
      {
        if !TextTimes(trades[i]) {
          GroupThrownSticks(d, trades, i + 1, |trades|);
          return nextId, true;
        }
        ghost var run := RowRun(d, i, |trades|);
        var rowThrown;
        ConcatAssoc(prior, gdone, run.found);
        nextId, rowThrown := PairTrade(d, i, |trades|, prior + gdone, nextId);
        if rowThrown {
          GroupThrownSticks(d, trades, i + 1, |trades|);
          return nextId, true;
        }
        gdone := gdone + run.found;
        i := i + 1;
      }
      return nextId, false;
    }

    /** The closure run for the trade at position `i` of a group of `n`: judge
        it against every later trade, pushing each match with the next id. */
    method PairTrade(d: Decision, i: nat, n: nat, ghost prior: seq<Match>, pairId: nat)
      returns (nextId: nat, thrown: bool)
      requires i < n && hedgePairs == Number(prior) && pairId == |prior| + 1
      modifies this
      ensures var run := RowRun(d, i, n);
        && hedgePairs == Number(prior + run.found) && nextId == |prior + run.found| + 1
        && thrown == run.thrown
      ensures currentPage == old(currentPage)
    {
      ghost var rdone: seq<Match> := [];
      nextId := pairId;
      var j := i + 1;
      while j < n
        invariant i + 1 <= j <= n
        invariant RowRun(d, i, j) == Run(rdone, false)
        invariant hedgePairs == Number(prior + rdone) && nextId == |prior + rdone| + 1
        invariant currentPage == old(currentPage)
      {
        match d(i, j) {
          case Failure(_) =>
            RowThrownSticks(d, i, j + 1, n);
            return nextId, true;
          case Success(None) =>
          case Success(Some(m)) =>
            NumberSnoc(prior + rdone, m);
            hedgePairs := hedgePairs + [HedgePair(nextId, m)];
            nextId := nextId + 1;
            ConcatAssoc(prior, rdone, [m]);
            rdone := rdone + [m];
        }
        j := j + 1;
      }
      return nextId, false;
    }

    /** `getFilteredHedgePairs`: the pairs of the chosen type (or of any type
        for `'all'`) whose confidence is not below the chosen minimum, in list order. */
    function FilteredHedgePairs(typeFilter: string, confidenceFilter: Option<real>): (r: seq<HedgePair>)
      reads this
      ensures Subsequence(r, hedgePairs)
      ensures forall k :: 0 <= k < |r| ==>
        && (typeFilter == "all" || TypeName(r[k].pair.kind) == typeFilter)
        && (confidenceFilter.Some? ==> r[k].pair.confidence >= confidenceFilter.value)
      ensures forall h | h in hedgePairs ::
        (typeFilter == "all" || TypeName(h.pair.kind) == typeFilter)
        && (confidenceFilter.Some? ==> h.pair.confidence >= confidenceFilter.value)
        ==> h in r
      ensures typeFilter == "all" && confidenceFilter.None? ==> r == hedgePairs
    {
      FilterFacts(hedgePairs, typeFilter, confidenceFilter);
      Filter(hedgePairs, Keeps(typeFilter, confidenceFilter))
    }

    /** The page part of `updateResults`: clamp the current page to the pages
        that exist (one, when nothing is left) and show that page of `sorted`,
        which is the filtered list in the chosen sort order. */
    method UpdateResults(typeFilter: string, confidenceFilter: Option<real>, sorted: seq<HedgePair>)
      returns (shown: seq<HedgePair>)
      requires Valid() && multiset(sorted) == multiset(FilteredHedgePairs(typeFilter, confidenceFilter))
      modifies this
      ensures Valid() && hedgePairs == old(hedgePairs)
      ensures currentPage == if old(currentPage) < LastPage(|sorted|) then old(currentPage) else LastPage(|sorted|)
      ensures |shown| <= PageSize && (sorted != [] <==> shown != [])
      ensures (currentPage - 1) * PageSize + |shown| <= |sorted|
      ensures forall k :: 0 <= k < |shown| ==> shown[k] == sorted[(currentPage - 1) * PageSize + k]
      ensures |shown| == PageSize || (currentPage - 1) * PageSize + |shown| == |sorted|
      ensures shown == PageOf(sorted, currentPage)
    {
      var lastPage := LastPage(|sorted|);
      currentPage := if currentPage < lastPage then currentPage else lastPage;
      var startIndex := (currentPage - 1) * PageSize;
      var endIndex := if startIndex + PageSize < |sorted| then startIndex + PageSize else |sorted|;
      shown := sorted[startIndex..endIndex];
    }

    /** The previous-page button: move back one page, if not on the first. */
    method PrevPage(typeFilter: string, confidenceFilter: Option<real>, sorted: seq<HedgePair>)
      returns (shown: Option<seq<HedgePair>>)
      requires Valid() && multiset(sorted) == multiset(FilteredHedgePairs(typeFilter, confidenceFilter))
      modifies this
      ensures Valid() && hedgePairs == old(hedgePairs)
      ensures old(currentPage) == 1 ==> currentPage == 1 && shown.None?
      ensures old(currentPage) > 1 ==>
        && currentPage == (if old(currentPage) - 1 < LastPage(|sorted|) then old(currentPage) - 1 else LastPage(|sorted|))
        && shown == Some(PageOf(sorted, currentPage))
    {
      if currentPage > 1 {
        currentPage := currentPage - 1;
        var page := UpdateResults(typeFilter, confidenceFilter, sorted);
        shown := Some(page);
      } else {
        shown := None;
      }
    }

    /** The next-page button: move on one page, if there is a later one. */
    method NextPage(typeFilter: string, confidenceFilter: Option<real>, sorted: seq<HedgePair>)
      returns (shown: Option<seq<HedgePair>>)
      requires Valid() && multiset(sorted) == multiset(FilteredHedgePairs(typeFilter, confidenceFilter))
      modifies this
      ensures Valid() && hedgePairs == old(hedgePairs)
      ensures old(currentPage) < TotalPages(|sorted|) ==>
        currentPage == old(currentPage) + 1 && shown == Some(PageOf(sorted, currentPage))
      ensures old(currentPage) >= TotalPages(|sorted|) ==> currentPage == old(currentPage) && shown.None?
    {
      assert |sorted| == |FilteredHedgePairs(typeFilter, confidenceFilter)| by {
        assert |multiset(sorted)| == |multiset(FilteredHedgePairs(typeFilter, confidenceFilter))|;
      }
      var totalPages := TotalPages(|FilteredHedgePairs(typeFilter, confidenceFilter)|);
      if currentPage < totalPages {
        currentPage := currentPage + 1;
        var page := UpdateResults(typeFilter, confidenceFilter, sorted);
        shown := Some(page);
      } else {
        shown := None;
      }
    }

    /** The bin loop of `createCharts`, over a fresh `Array(5).fill(0)`. */
    method ConfidenceCounts() returns (counts: array<int>)
      ensures fresh(counts) && counts.Length == 5
      ensures counts[..] == Histogram(Confidences(hedgePairs))
    {
      counts := new int[5](_ => 0);
      assert counts[..] == [0, 0, 0, 0, 0];
      var n := 0;
      while n < |hedgePairs|
        invariant 0 <= n <= |hedgePairs|
        invariant counts[..] == Histogram(Confidences(hedgePairs[..n]))
      {
        var c := hedgePairs[n].pair.confidence;
        assert Confidences(hedgePairs[..n + 1]) == Confidences(hedgePairs[..n]) + [c];
        CountConfidence(counts, c);
        n := n + 1;
      }
      assert hedgePairs[..n] == hedgePairs;
    }

    /** The counts of `findNotablePatterns`; nothing when the list is empty. */
    method NotablePatterns(hourOf: string -> Option<int>) returns (r: Option<JsPatterns>)
      ensures hedgePairs == [] <==> r.None?
      ensures r.Some? ==>
        && FrequentOwners(UserPairs(hedgePairs), r.value.frequentUsers)
        && Peak(HourKeys(hedgePairs, hourOf), r.value.peakHours)
        && Ranking(AssetKeys(hedgePairs), r.value.assets)
        && r.value.peakHours != []
        && Sum(r.value.assets) == |hedgePairs|
    {
      if |hedgePairs| == 0 {
        return None;
      }
      var frequent := FrequentOwnerKeys(UserPairs(hedgePairs));
      var peak := PeakKeys(HourKeys(hedgePairs, hourOf));
      var assets := RankKeys(AssetKeys(hedgePairs));
      return Some(JsPatterns(frequent, peak, assets));
    }
  }
}
