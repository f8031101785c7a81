/** The matcher of the browser front end (script.js), as specifications: the
    truthiness filter, the symbol classifier, the grouping in order of first
    appearance, the per-pair decision with JavaScript's NaN comparisons and
    thrown TypeErrors, and the nested loops of `processData` as prefix runs.
    The dashboard's `ProcessData` is proved against `Process`. */
module BrowserMatcher {
  import opened Wrappers
  import opened Cells
  import opened Seqs
  import opened Strings
  import opened Scoring
  import opened Tally
  import AppFields
  import AppMatcher

  /** The only exception the matcher can throw: a string method called on a
      value Papa Parse decoded as a number. */
  datatype JsError = TypeError

  // ---------------------------------------------------------------------------
  // Rows and symbols

  /** JavaScript truthiness of a decoded cell: null, "" and 0 are falsy. */
  predicate Truthy(c: Cell) {
    match c
    case Missing => false
    case Text(s) => s != ""
    case Num(x) => x != 0.0
  }

  /** The row filter of `processData`: the nine listed fields are all truthy. */
  predicate Clean(r: Row) {
    && Truthy(r.tradehash) && Truthy(r.shortLong) && Truthy(r.asset)
    && Truthy(r.entryDatetimes) && Truthy(r.marketEntries)
    && Truthy(r.closeDatetimes) && Truthy(r.marketCloses)
    && Truthy(r.accountId) && Truthy(r.userId)
  }

  /** `s.includes('NQ')`, scanning from the left. */
  predicate IncludesNq(s: string)
    decreases |s|
  {
    |s| >= 2 && ((s[0] == 'N' && s[1] == 'Q') || IncludesNq(s[1..]))
  }

  lemma {:induction false} IncludesNqIsContains(s: string)
    ensures IncludesNq(s) <==> Contains(s, "NQ")
    decreases |s|
  {
    if |s| >= 2 {
      IncludesNqIsContains(s[1..]);
      assert OccursAt(s, "NQ", 0) <==> s[0] == 'N' && s[1] == 'Q' by {
        assert s[0..2] == [s[0], s[1]];
      }
      if Contains(s[1..], "NQ") {
        var k :| 0 <= k <= |s[1..]| && OccursAt(s[1..], "NQ", k);
        assert s[k + 1..k + 3] == s[1..][k..k + 2];
        assert OccursAt(s, "NQ", k + 1);
      }
      if Contains(s, "NQ") && !OccursAt(s, "NQ", 0) {
        var k :| 0 <= k <= |s| && OccursAt(s, "NQ", k);
        assert s[k..k + 2] == s[1..][k - 1..k + 1];
        assert OccursAt(s[1..], "NQ", k - 1);
      }
    }
  }

  /** `normalizeAssetName`: any symbol containing "NQ" is NQ; no cleaning, no
      case folding, no other roots. */
  function NormalizeAssetName(asset: string): string {
    if IncludesNq(asset) then "NQ" else asset
  }

  /** A symbol maps to NQ exactly when "NQ" occurs in it, and is kept as it is otherwise. */
  lemma NormalizeAssetNameMeaning(asset: string)
    ensures NormalizeAssetName(asset) == "NQ" <==> Contains(asset, "NQ")
    ensures !Contains(asset, "NQ") ==> NormalizeAssetName(asset) == asset
  {
    IncludesNqIsContains(asset);
    if asset == "NQ" {
      assert OccursAt(asset, "NQ", 0);
    }
  }

  /** Wherever the browser maps a symbol to NQ, the Flask back end does too. */
  lemma NqAgreesWithBackEnd(asset: string)
    requires NormalizeAssetName(asset) == "NQ"
    ensures AppFields.NormalizeAssetName(asset) == "NQ"
  {
    NormalizeAssetNameMeaning(asset);
    AppFields.RootsAreUpper();
    ContainsSurvivesCleaning(asset, "NQ");
  }

  /** The converse fails: the back end cleans and upper-cases first, the
      browser does not, so a micro contract written in lower case is grouped
      differently. */
  lemma LowerCaseSymbolsDiffer()
    ensures NormalizeAssetName("mnq") == "mnq"
    ensures AppFields.NormalizeAssetName("mnq") == "NQ"
  {
    NormalizeAssetNameMeaning("mnq");
    assert !Contains("mnq", "NQ") by {
      forall k | 0 <= k <= 3 ensures !OccursAt("mnq", "NQ", k) {
        if 0 <= k <= 1 { assert "mnq"[k..k + 2] != "NQ" by { assert "mnq"[k] != 'N'; } }
      }
    }
    assert AsciiUpper(KeepAlnum("mnq")) == "MNQ";
    assert OccursAt("MNQ", "NQ", 1);
    AppFields.RootsAreDistinct();
  }

  /** A row's group key; `asset.includes` throws for a symbol that is not a string. */
  predicate TextAsset(r: Row) {
    r.asset.Text?
  }

  /** The key of a row with a text symbol (the empty string stands in for the others). */
  function KeyOf(r: Row): string {
    if r.asset.Text? then NormalizeAssetName(r.asset.s) else ""
  }

  function HasKey(k: string): Row -> bool {
    r => KeyOf(r) == k
  }

  function Keys(rows: seq<Row>): (ks: seq<string>)
    ensures |ks| == |rows| && forall n :: 0 <= n < |rows| ==> ks[n] == KeyOf(rows[n])
  {
    seq(|rows|, n requires 0 <= n < |rows| => KeyOf(rows[n]))
  }

  /** The keys of `assetGroups` in insertion order. */
  function GroupKeys(rows: seq<Row>): seq<string> {
    Firsts(Keys(rows))
  }

  /** The group of each key, in the order of `keys`. */
  function Groups(rows: seq<Row>, keys: seq<string>): (gs: seq<seq<Row>>)
    ensures |gs| == |keys| && forall g :: 0 <= g < |keys| ==> gs[g] == Filter(rows, HasKey(keys[g]))
  {
    seq(|keys|, g requires 0 <= g < |keys| => Filter(rows, HasKey(keys[g])))
  }

  /** Every clean row lands in exactly one group, the one of its own key; no
      other row lands in any. */
  lemma GroupsPartition(data: seq<Row>, r: Row)
    requires r in data && Clean(r)
    ensures var clean := Filter(data, Clean); var keys := GroupKeys(clean);
      && (exists g :: 0 <= g < |keys| && keys[g] == KeyOf(r) && r in Groups(clean, keys)[g])
      && (forall g :: 0 <= g < |keys| && r in Groups(clean, keys)[g] ==> keys[g] == KeyOf(r))
  {
    var clean := Filter(data, Clean);
    var keys := GroupKeys(clean);
    FilterMembership(data, Clean, r);
    var n :| 0 <= n < |clean| && clean[n] == r;
    FirstsSpec(Keys(clean));
    assert Keys(clean)[n] in Elems(Keys(clean));
    var g :| 0 <= g < |keys| && keys[g] == KeyOf(r);
    FilterMembership(clean, HasKey(keys[g]), r);
    forall h | 0 <= h < |keys| && r in Groups(clean, keys)[h] ensures keys[h] == KeyOf(r) {
      FilterMembership(clean, HasKey(keys[h]), r);
    }
  }

  lemma NoGroupForUncleanRows(data: seq<Row>, r: Row, g: int)
    requires !Clean(r)
    requires 0 <= g < |GroupKeys(Filter(data, Clean))|
    ensures r !in Groups(Filter(data, Clean), GroupKeys(Filter(data, Clean)))[g]
  {
    var clean := Filter(data, Clean);
    FilterMembership(data, Clean, r);
    FilterMembership(clean, HasKey(GroupKeys(clean)[g]), r);
  }

  // ---------------------------------------------------------------------------
  // Times, prices and the score

  /** `s.indexOf(c)` for a character that occurs. */
  function IndexOf(s: string, c: char): (k: nat)
    requires c in s
    ensures k < |s| && s[k] == c && c !in s[..k]
  {
    if s[0] == c then 0
    else
      assert c in s[1..] by { assert s == [s[0]] + s[1..]; }
      var k := IndexOf(s[1..], c);
      assert s[..k + 1] == [s[0]] + s[1..][..k];
      k + 1
  }

  /** `s.replace(c, '')` with a string pattern: only the first occurrence goes. */
  function RemoveFirst(s: string, c: char): string {
    if c in s then s[..IndexOf(s, c)] + s[IndexOf(s, c) + 1..] else s
  }

  /** `.replace('[', '').replace(']', '')`. */
  function StripBrackets(s: string): string {
    RemoveFirst(RemoveFirst(s, '['), ']')
  }

  /** A one-element list "[x]" loses exactly its brackets. */
  lemma StripBracketsOfList(x: string)
    requires '[' !in x && ']' !in x
    ensures StripBrackets("[" + x + "]") == x
  {
    var s := "[" + x + "]";
    assert s[0] == '[';
    var t := RemoveFirst(s, '[');
    assert t == x + "]" by { assert IndexOf(s, '[') == 0; assert s[1..] == x + "]"; }
    assert t[|x|] == ']';
    assert forall n :: 0 <= n < |x| ==> t[n] != ']' by {
      forall n | 0 <= n < |x| ensures t[n] != ']' { assert t[n] == x[n]; }
    }
    assert IndexOf(t, ']') == |x|;
    assert t[..|x|] == x;
  }

  /** A field without brackets is parsed as it stands. */
  lemma StripBracketsOfPlain(s: string)
    requires '[' !in s && ']' !in s
    ensures StripBrackets(s) == s
  {
  }

  /** `parseFloat(field.replace(...))`: a NaN time is `None`; `replace` on a
      number (a cell Papa Parse decoded without brackets) throws. */
  function TimeOf(c: Cell, parse: Parser): Result<Option<real>, JsError> {
    match c
    case Text(s) => Success(parse(StripBrackets(s)))
    case _ => Failure(TypeError)
  }

  predicate TextTimes(t: Row) {
    t.entryDatetimes.Text? && t.closeDatetimes.Text?
  }

  /** `a >= b` in JavaScript: false when either side is NaN. */
  predicate AtLeast(a: Option<real>, b: Option<real>) {
    a.Some? && b.Some? && a.value >= b.value
  }

  /** `(entry2 >= entry1 && entry2 <= close1) || (entry1 >= entry2 && entry1 <= close2)`. */
  predicate TimesOverlap(e1: Option<real>, c1: Option<real>, e2: Option<real>, c2: Option<real>) {
    (AtLeast(e2, e1) && AtLeast(c1, e2)) || (AtLeast(e1, e2) && AtLeast(c2, e1))
  }

  /** With all four times known the test is the back end's closed-interval
      overlap; one missing close time does not yet rule a pair out. */
  lemma TimesOverlapMeaning(e1: Option<real>, c1: Option<real>, e2: Option<real>, c2: Option<real>)
    ensures TimesOverlap(e1, c1, e2, c2) ==> e1.Some? && e2.Some?
    ensures TimesOverlap(e1, c1, e2, c2) <==> TimesOverlap(e2, c2, e1, c1)
    ensures e1.Some? && c1.Some? && e2.Some? && c2.Some? ==>
      (TimesOverlap(e1, c1, e2, c2) <==> AppMatcher.Overlaps(e1.value, c1.value, e2.value, c2.value))
    ensures e1.Some? && e2.Some? && c2.Some? && c1.None? ==>
      (TimesOverlap(e1, c1, e2, c2) <==> e2.value <= e1.value <= c2.value)
  {
  }

  /** `Math.abs(parseFloat(p1) - parseFloat(p2))`, NaN (`None`) when either is. */
  function PriceDiff(t1: Row, t2: Row, parse: Parser): (d: Option<real>)
    ensures d.Some? <==> ToNumeric(t1.avgMarketEntry, parse).Some? && ToNumeric(t2.avgMarketEntry, parse).Some?
    ensures d.Some? ==> d.value >= 0.0
  {
    match (ToNumeric(t1.avgMarketEntry, parse), ToNumeric(t2.avgMarketEntry, parse))
    case (Some(p1), Some(p2)) => Some(Abs(p1 - p2))
    case _ => None
  }

  /** `qty1 === qty2` on two `parseFloat` results: NaN equals nothing. */
  predicate SameQuantity(t1: Row, t2: Row, parse: Parser) {
    ToNumeric(t1.totalContracts, parse).Some? && ToNumeric(t1.totalContracts, parse) == ToNumeric(t2.totalContracts, parse)
  }

  /** The close-price difference when close prices are compared; NaN (`None`
      inside `Some`) when one of them is not a number. */
  function CloseDiff(t1: Row, t2: Row, parse: Parser): Option<real> {
    match (ToNumeric(t1.avgMarketClose, parse), ToNumeric(t2.avgMarketClose, parse))
    case (Some(c1), Some(c2)) => Some(Abs(c1 - c2))
    case _ => None
  }

  /** `calculateConfidenceScore` as the matcher calls it, after `priceDiff <=
      priceThreshold`: the shared formula, or NaN. A zero threshold gives
      `0 / 0`, and a close price that is not a number poisons the close term;
      NaN survives `Math.max` and `Math.min`. */
  function ConfidenceScore(t1: Row, t2: Row, priceDiff: real, threshold: real, includeClose: bool, parse: Parser): (r: Score)
    requires 0.0 <= priceDiff <= threshold
    ensures r.NotANumber? <==> threshold == 0.0 || (includeClose && CloseDiff(t1, t2, parse).None?)
    ensures r.Value? ==> 0.0 <= r.x <= 1.0
    ensures r.Value? ==> r.x == ConfidenceFormula(priceDiff, threshold,
      if includeClose then CloseDiff(t1, t2, parse) else None, SameQuantity(t1, t2, parse))
  {
    if threshold == 0.0 then NotANumber
    else if includeClose && CloseDiff(t1, t2, parse).None? then NotANumber
    else
      var closeDiff := if includeClose then CloseDiff(t1, t2, parse) else None;
      Value(ConfidenceFormula(priceDiff, threshold, closeDiff, SameQuantity(t1, t2, parse)))
  }

  /** Equal quantities earn the bonus: a pair that differs only in having equal
      quantities never scores lower. */
  lemma EqualQuantitiesNeverScoreLower(priceDiff: real, threshold: real, closeDiff: Option<real>)
    requires 0.0 < threshold
    ensures ConfidenceFormula(priceDiff, threshold, closeDiff, true) >= ConfidenceFormula(priceDiff, threshold, closeDiff, false)
  {
    QuantityBonusNeverLowers(priceDiff, threshold, closeDiff);
  }

  // ---------------------------------------------------------------------------
  // One pair

  /** The pair object `processData` pushes, before its `id`. The legs are the
      rows themselves. */
  datatype Match = Match(
    kind: AppMatcher.HedgeType, asset: string, trade1: Row, trade2: Row,
    entryTimeDiff: real, entryPriceDiff: real, confidence: real, netProfit: Option<real>)

  /** The pair with its `id`. */
  type HedgePair = Numbered<Match>

  /** `parseFloat(a) + parseFloat(b)`: NaN when either is. */
  function SumOf(a: Option<real>, b: Option<real>): Option<real> {
    if a.Some? && b.Some? then Some(a.value + b.value) else None
  }

  /** The decision on `t1` (whose times are `e1`, `c1`) and a later `t2` of the
      same group: skipped, pushed, or a TypeError from parsing `t2`'s times. */
  function Judge(asset: string, t1: Row, e1: Option<real>, c1: Option<real>, t2: Row, p: AppMatcher.Params, parse: Parser): Result<Option<Match>, JsError> {
    if t1.shortLong == t2.shortLong then Success(None)
    else match (TimeOf(t2.entryDatetimes, parse), TimeOf(t2.closeDatetimes, parse))
      case (Failure(e), _) => Failure(e)
      case (_, Failure(e)) => Failure(e)
      case (Success(e2), Success(c2)) =>
        match PriceDiff(t1, t2, parse)
        case None => Success(None)
        case Some(d) =>
          if d > p.priceThreshold || !TimesOverlap(e1, c1, e2, c2) then Success(None)
          else match ConfidenceScore(t1, t2, d, p.priceThreshold, p.includeClosePrice, parse)
            case NotANumber => Success(None)
            case Value(score) =>
              if score < p.confidenceThreshold then Success(None)
              else
                var kind := if t1.userId == t2.userId then AppMatcher.SelfHedge else AppMatcher.InterUserHedge;
                var profit := SumOf(ToNumeric(t1.netProfit, parse), ToNumeric(t2.netProfit, parse));
                Success(Some(Match(kind, asset, t1, t2, Abs(e1.value - e2.value), d, score, profit)))
  }

  /** The decision on positions `i` and `j` of a group, parsing `g[i]`'s times first. */
  function JudgeAt(asset: string, g: seq<Row>, i: nat, j: nat, p: AppMatcher.Params, parse: Parser): Result<Option<Match>, JsError>
    requires i < |g| && j < |g|
  {
    match (TimeOf(g[i].entryDatetimes, parse), TimeOf(g[i].closeDatetimes, parse))
    case (Success(e1), Success(c1)) => Judge(asset, g[i], e1, c1, g[j], p, parse)
    case _ => Failure(TypeError)
  }

  /** What every pushed pair satisfies, read off the pair and its two rows. */
  predicate WellFormed(m: Match, p: AppMatcher.Params, parse: Parser) {
    && 0.0 < p.priceThreshold
    && m.trade1.shortLong != m.trade2.shortLong
    && PriceDiff(m.trade1, m.trade2, parse) == Some(m.entryPriceDiff) && m.entryPriceDiff <= p.priceThreshold
    && TextTimes(m.trade1) && TextTimes(m.trade2)
    && (var e1, c1 := TimeOf(m.trade1.entryDatetimes, parse).value, TimeOf(m.trade1.closeDatetimes, parse).value;
        var e2, c2 := TimeOf(m.trade2.entryDatetimes, parse).value, TimeOf(m.trade2.closeDatetimes, parse).value;
        && TimesOverlap(e1, c1, e2, c2) && e1.Some? && e2.Some?
        && m.entryTimeDiff == Abs(e1.value - e2.value))
    && p.confidenceThreshold <= m.confidence && 0.0 <= m.confidence <= 1.0
    && (p.includeClosePrice ==> CloseDiff(m.trade1, m.trade2, parse).Some?)
    && (m.kind == AppMatcher.SelfHedge <==> m.trade1.userId == m.trade2.userId)
    && (m.netProfit.Some? <==> ToNumeric(m.trade1.netProfit, parse).Some? && ToNumeric(m.trade2.netProfit, parse).Some?)
    && (m.netProfit.Some? ==> m.netProfit.value == ToNumeric(m.trade1.netProfit, parse).value + ToNumeric(m.trade2.netProfit, parse).value)
  }

  /** A pushed pair is well formed and made of the two judged rows; a
      TypeError comes from a time field that is not a string, and same-direction
      pairs are skipped before `t2`'s times are read. */
  lemma JudgeAtSpec(asset: string, g: seq<Row>, i: nat, j: nat, p: AppMatcher.Params, parse: Parser)
    requires i < |g| && j < |g|
    ensures var r := JudgeAt(asset, g, i, j, p, parse);
      && (r.Failure? <==> !TextTimes(g[i]) || (g[i].shortLong != g[j].shortLong && !TextTimes(g[j])))
      && (g[i].shortLong == g[j].shortLong && TextTimes(g[i]) ==> r == Success(None))
      && (r.Success? && r.value.Some? ==>
        && WellFormed(r.value.value, p, parse) && r.value.value.asset == asset
        && r.value.value.trade1 == g[i] && r.value.value.trade2 == g[j])
  {
    var r := JudgeAt(asset, g, i, j, p, parse);
    if r.Success? && r.value.Some? {
      var m := r.value.value;
      var e1, c1 := TimeOf(g[i].entryDatetimes, parse).value, TimeOf(g[i].closeDatetimes, parse).value;
      var e2, c2 := TimeOf(g[j].entryDatetimes, parse).value, TimeOf(g[j].closeDatetimes, parse).value;
      TimesOverlapMeaning(e1, c1, e2, c2);
      assert m.trade1 == g[i] && m.trade2 == g[j];
    }
  }

  // ---------------------------------------------------------------------------
  // The loops, as prefix runs

  /** The pairs pushed so far, and whether an exception ended the run. The
      pushes before the exception stay in the global list. */
  datatype Run = Run(found: seq<Match>, thrown: bool)

  /** A decision on the pair at positions `(i, j)` of one group. */
  type Decision = (nat, nat) -> Result<Option<Match>, JsError>

  /** The decisions of the group `g` of `asset`. */
  function Decide(asset: string, g: seq<Row>, p: AppMatcher.Params, parse: Parser): Decision {
    (i: nat, j: nat) => if i < |g| && j < |g| then JudgeAt(asset, g, i, j, p, parse) else Success(None)
  }

  /** The inner loop over `j` in `(i, hi)`, once the first trade's times were read. */
  function RowRun(d: Decision, i: nat, hi: nat): Run
    decreases hi
  {
    if hi <= i + 1 then Run([], false)
    else
      var r := RowRun(d, i, hi - 1);
      if r.thrown then r
      else match d(i, hi - 1)
        case Failure(_) => Run(r.found, true)
        case Success(None) => r
        case Success(Some(m)) => Run(r.found + [m], false)
  }

  /** The middle loop over `i < hi`; reading `g[i]`'s times may throw even
      when no later trade is left. */
  function GroupRun(d: Decision, g: seq<Row>, hi: nat): Run
    requires hi <= |g|
  {
    if hi == 0 then Run([], false)
    else
      var r := GroupRun(d, g, hi - 1);
      if r.thrown then r
      else if !TextTimes(g[hi - 1]) then Run(r.found, true)
      else
        var rest := RowRun(d, hi - 1, |g|);
        Run(r.found + rest.found, rest.thrown)
  }

  /** The decisions of every group. */
  function Decisions(keys: seq<string>, groups: seq<seq<Row>>, p: AppMatcher.Params, parse: Parser): (ds: seq<Decision>)
    requires |keys| == |groups|
    ensures |ds| == |groups| && forall a :: 0 <= a < |groups| ==> ds[a] == Decide(keys[a], groups[a], p, parse)
  {
    seq(|groups|, a requires 0 <= a < |groups| => Decide(keys[a], groups[a], p, parse))
  }

  /** The outer loop over the groups before `hi`. */
  function AllRun(ds: seq<Decision>, groups: seq<seq<Row>>, hi: nat): Run
    requires |ds| == |groups| && hi <= |groups|
  {
    if hi == 0 then Run([], false)
    else
      var r := AllRun(ds, groups, hi - 1);
      if r.thrown then r
      else
        var rest := GroupRun(ds[hi - 1], groups[hi - 1], |groups[hi - 1]|);
        Run(r.found + rest.found, rest.thrown)
  }

  /** Every row's symbol is a string, so grouping does not throw. */
  predicate AllTextAssets(rows: seq<Row>) {
    forall n :: 0 <= n < |rows| ==> rows[n].asset.Text?
  }

  /** What `processData` leaves in `hedgePairs` (before numbering), and whether it threw. */
  function Process(data: seq<Row>, p: AppMatcher.Params, parse: Parser): Run {
    var clean := Filter(data, Clean);
    if !AllTextAssets(clean) then Run([], true)
    else
      var keys := GroupKeys(clean);
      var groups := Groups(clean, keys);
      AllRun(Decisions(keys, groups, p, parse), groups, |groups|)
  }

  /** Once an exception is thrown, later iterations do not run. */
  lemma {:induction false} RowThrownSticks(d: Decision, i: nat, lo: nat, hi: nat)
    requires lo <= hi
    requires RowRun(d, i, lo).thrown
    ensures RowRun(d, i, hi) == RowRun(d, i, lo)
    decreases hi - lo
  {
    if lo < hi {
      RowThrownSticks(d, i, lo + 1, hi);
    }
  }

  lemma {:induction false} GroupThrownSticks(d: Decision, g: seq<Row>, lo: nat, hi: nat)
    requires lo <= hi <= |g|
    requires GroupRun(d, g, lo).thrown
    ensures GroupRun(d, g, hi) == GroupRun(d, g, lo)
    decreases hi - lo
  {
    if lo < hi {
      GroupThrownSticks(d, g, lo + 1, hi);
    }
  }

  lemma {:induction false} AllThrownSticks(ds: seq<Decision>, groups: seq<seq<Row>>, lo: nat, hi: nat)
    requires |ds| == |groups| && lo <= hi <= |groups|
    requires AllRun(ds, groups, lo).thrown
    ensures AllRun(ds, groups, hi) == AllRun(ds, groups, lo)
    decreases hi - lo
  {
    if lo < hi {
      AllThrownSticks(ds, groups, lo + 1, hi);
    }
  }

  /** A pushed pair comes from a pushing decision at `(i, j)`; without an
      exception every pushing decision is pushed. */
  lemma {:induction false} RowRunMembers(d: Decision, i: nat, hi: nat, m: Match)
    ensures var r := RowRun(d, i, hi);
      && (m in r.found ==> exists j :: i < j < hi && d(i, j) == Success(Some(m)))
      && (!r.thrown && (exists j :: i < j < hi && d(i, j) == Success(Some(m))) ==> m in r.found)
    decreases hi
  {
    if hi > i + 1 {
      RowRunMembers(d, i, hi - 1, m);
    }
  }

  lemma {:induction false} GroupRunMembers(d: Decision, g: seq<Row>, hi: nat, m: Match)
    requires hi <= |g|
    ensures var r := GroupRun(d, g, hi);
      && (m in r.found ==> exists i, j :: 0 <= i < hi && i < j < |g| && d(i, j) == Success(Some(m)))
      && (!r.thrown && (exists i, j :: 0 <= i < hi && i < j < |g| && d(i, j) == Success(Some(m))) ==> m in r.found)
  {
    if hi > 0 {
      var i := hi - 1;
      GroupRunMembers(d, g, i, m);
      if TextTimes(g[i]) {
        RowRunMembers(d, i, |g|, m);
      }
    }
  }

  lemma {:induction false} AllRunMembers(ds: seq<Decision>, groups: seq<seq<Row>>, hi: nat, m: Match)
    requires |ds| == |groups| && hi <= |groups|
    ensures var r := AllRun(ds, groups, hi);
      && (m in r.found ==> exists a, i, j :: 0 <= a < hi && 0 <= i < j < |groups[a]| && ds[a](i, j) == Success(Some(m)))
      && (!r.thrown && (exists a, i, j :: 0 <= a < hi && 0 <= i < j < |groups[a]| && ds[a](i, j) == Success(Some(m))) ==> m in r.found)
  {
    if hi > 0 {
      var a := hi - 1;
      AllRunMembers(ds, groups, a, m);
      GroupRunMembers(ds[a], groups[a], |groups[a]|, m);
    }
  }

  /** A pushed pair joins a clean row to a later clean row of the same group
      (both carrying the pair's key), and is well formed. */
  predicate FromGroup(m: Match, data: seq<Row>) {
    var group := Filter(Filter(data, Clean), HasKey(m.asset));
    exists i, j :: 0 <= i < j < |group| && group[i] == m.trade1 && group[j] == m.trade2
  }

  /** The group and positions of the decision that pushed `m`. */
  lemma PushedAt(data: seq<Row>, p: AppMatcher.Params, parse: Parser, m: Match) returns (a: nat, i: nat, j: nat)
    requires m in Process(data, p, parse).found
    ensures var keys := GroupKeys(Filter(data, Clean)); var groups := Groups(Filter(data, Clean), keys);
      a < |groups| && i < j < |groups[a]| && JudgeAt(keys[a], groups[a], i, j, p, parse) == Success(Some(m))
  {
    var clean := Filter(data, Clean);
    var keys := GroupKeys(clean);
    var groups := Groups(clean, keys);
    var ds := Decisions(keys, groups, p, parse);
    AllRunMembers(ds, groups, |groups|, m);
    var a', i', j' :| 0 <= a' < |groups| && 0 <= i' < j' < |groups[a']| && ds[a'](i', j') == Success(Some(m));
    a, i, j := a', i', j';
    assert ds[a](i, j) == Decide(keys[a], groups[a], p, parse)(i, j);
  }

  /** Every pair `processData` pushes, even before an exception, is well formed
      and joins two rows of its own group in group order; both rows are clean
      rows of the upload with the pair's key. */
  lemma ProcessSound(data: seq<Row>, p: AppMatcher.Params, parse: Parser, m: Match)
    requires m in Process(data, p, parse).found
    ensures WellFormed(m, p, parse) && FromGroup(m, data)
    ensures m.trade1 in data && m.trade2 in data && Clean(m.trade1) && Clean(m.trade2)
    ensures KeyOf(m.trade1) == m.asset && KeyOf(m.trade2) == m.asset
  {
    var clean := Filter(data, Clean);
    var keys := GroupKeys(clean);
    var groups := Groups(clean, keys);
    var a, i, j := PushedAt(data, p, parse, m);
    JudgeAtSpec(keys[a], groups[a], i, j, p, parse);
    var group := groups[a];
    assert group == Filter(clean, HasKey(m.asset));
    assert group[i] in group && group[j] in group;
    FilterMembership(clean, HasKey(m.asset), m.trade1);
    FilterMembership(clean, HasKey(m.asset), m.trade2);
    FilterMembership(data, Clean, m.trade1);
    FilterMembership(data, Clean, m.trade2);
  }

  /** Without an exception, every pushing decision on two rows of a group is
      in the result. */
  lemma ProcessComplete(data: seq<Row>, p: AppMatcher.Params, parse: Parser, a: nat, i: nat, j: nat, m: Match)
    requires !Process(data, p, parse).thrown
    requires var keys := GroupKeys(Filter(data, Clean));
      a < |keys| && i < j < |Groups(Filter(data, Clean), keys)[a]|
      && JudgeAt(keys[a], Groups(Filter(data, Clean), keys)[a], i, j, p, parse) == Success(Some(m))
    ensures m in Process(data, p, parse).found
  {
    var clean := Filter(data, Clean);
    var keys := GroupKeys(clean);
    var groups := Groups(clean, keys);
    var ds := Decisions(keys, groups, p, parse);
    assert ds[a](i, j) == Success(Some(m));
    AllRunMembers(ds, groups, |groups|, m);
  }
}
