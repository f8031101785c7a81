/** The two reports the Flask back end derives from the detected pairs:
    `generate_summary_stats` and `find_notable_patterns` (app.py). */
module AppReports {
  import opened Cells
  import opened Seqs
  import opened Tally
  import opened AppMatcher
  import Scoring

  // ---------------------------------------------------------------------------
  // Summary statistics

  datatype SummaryStats = SummaryStats(
    totalHedges: nat, selfHedges: nat, interUserHedges: nat, avgConfidence: real,
    usersInvolved: nat, accountsInvolved: nat, usersPercentage: real, accountsPercentage: real)

  /** The statistics of an empty result. */
  const NoStats: SummaryStats := SummaryStats(0, 0, 0, 0.0, 0, 0, 0.0, 0.0)

  /** How many pairs are self hedges. */
  function SelfCount(hs: seq<HedgePair>): (n: nat)
    ensures n <= |hs|
  {
    if hs == [] then 0 else (if hs[0].pair.kind == SelfHedge then 1 else 0) + SelfCount(hs[1..])
  }

  function ConfidenceSum(hs: seq<HedgePair>): real {
    if hs == [] then 0.0 else hs[0].pair.confidence + ConfidenceSum(hs[1..])
  }

  /** The user ids of both legs of every pair. */
  function UsersOf(hs: seq<HedgePair>): set<Cell> {
    if hs == [] then {}
    else UsersOf(hs[..|hs| - 1]) + {hs[|hs| - 1].pair.trade1.userId, hs[|hs| - 1].pair.trade2.userId}
  }

  /** The account ids of both legs of every pair. */
  function AccountsOf(hs: seq<HedgePair>): set<Cell> {
    if hs == [] then {}
    else AccountsOf(hs[..|hs| - 1]) + {hs[|hs| - 1].pair.trade1.accountId, hs[|hs| - 1].pair.trade2.accountId}
  }

  /** `df['user_id'].nunique()` counts the distinct non-blank user ids. */
  function UserPopulation(rows: seq<Row>): set<Cell> {
    set r | r in rows && !r.userId.Missing? :: r.userId
  }

  function AccountPopulation(rows: seq<Row>): set<Cell> {
    set r | r in rows && !r.accountId.Missing? :: r.accountId
  }

  /** `n / total * 100 if total > 0 else 0`. */
  function Percentage(n: nat, total: nat): real {
    if total > 0 then n as real / total as real * 100.0 else 0.0
  }

  /** `generate_summary_stats(hedge_pairs, df)`; `rows` is the uploaded table. */
  method GenerateSummaryStats(hs: seq<HedgePair>, rows: seq<Row>) returns (s: SummaryStats)
    ensures hs == [] ==> s == NoStats
    ensures s.totalHedges == |hs| && s.selfHedges + s.interUserHedges == |hs|
    ensures s.selfHedges == SelfCount(hs)
    ensures hs != [] ==> s.avgConfidence == ConfidenceSum(hs) / |hs| as real
    ensures hs != [] ==> s.usersInvolved == |UsersOf(hs)| && s.accountsInvolved == |AccountsOf(hs)|
    ensures hs != [] ==> s.usersPercentage == Percentage(|UsersOf(hs)|, |UserPopulation(rows)|)
    ensures hs != [] ==> s.accountsPercentage == Percentage(|AccountsOf(hs)|, |AccountPopulation(rows)|)
  {
    if hs == [] {
      return NoStats;
    }
    var selfHedges := SelfCount(hs);
    var avgConfidence := ConfidenceSum(hs) / |hs| as real;
    var users: set<Cell> := {};
    var accounts: set<Cell> := {};
    var i := 0;
    while i < |hs|
      invariant 0 <= i <= |hs|
      invariant users == UsersOf(hs[..i]) && accounts == AccountsOf(hs[..i])
    {
      assert hs[..i + 1][..i] == hs[..i];
      users := users + {hs[i].pair.trade1.userId, hs[i].pair.trade2.userId};
      accounts := accounts + {hs[i].pair.trade1.accountId, hs[i].pair.trade2.accountId};
      i := i + 1;
    }
    assert hs[..|hs|] == hs;
    var totalUsers := |UserPopulation(rows)|;
    var totalAccounts := |AccountPopulation(rows)|;
    s := SummaryStats(|hs|, selfHedges, |hs| - selfHedges, avgConfidence,
                      |users|, |accounts|, Percentage(|users|, totalUsers), Percentage(|accounts|, totalAccounts));
  }

  /** A user is involved exactly when it owns a leg of some pair. */
  lemma {:induction false} UsersOfMembers(hs: seq<HedgePair>, u: Cell)
    ensures u in UsersOf(hs) <==> exists k :: 0 <= k < |hs| && (hs[k].pair.trade1.userId == u || hs[k].pair.trade2.userId == u)
  {
    if hs != [] {
      var init := hs[..|hs| - 1];
      UsersOfMembers(init, u);
      assert forall k :: 0 <= k < |init| ==> init[k] == hs[k];
    }
  }

  lemma {:induction false} AccountsOfMembers(hs: seq<HedgePair>, a: Cell)
    ensures a in AccountsOf(hs) <==> exists k :: 0 <= k < |hs| && (hs[k].pair.trade1.accountId == a || hs[k].pair.trade2.accountId == a)
  {
    if hs != [] {
      var init := hs[..|hs| - 1];
      AccountsOfMembers(init, a);
      assert forall k :: 0 <= k < |init| ==> init[k] == hs[k];
    }
  }

  /** The average confidence of reported pairs lies between the confidence
      threshold and 1. */
  lemma AverageConfidenceBounds(hs: seq<HedgePair>, p: Params)
    requires hs != []
    requires forall k :: 0 <= k < |hs| ==> WellFormed(hs[k].pair, p)
    ensures 0.0 <= ConfidenceSum(hs) / |hs| as real <= 1.0
    ensures p.confidenceThreshold <= ConfidenceSum(hs) / |hs| as real
  {
    var lo := if p.confidenceThreshold < 0.0 then 0.0 else p.confidenceThreshold;
    forall k | 0 <= k < |hs| ensures lo <= hs[k].pair.confidence <= 1.0 {
      ConfidenceOfWellFormed(hs[k].pair, p);
    }
    AverageBetween(hs, lo);
  }

  /** Confidences between `lo` and 1 average to a value between `lo` and 1. */
  lemma AverageBetween(hs: seq<HedgePair>, lo: real)
    requires hs != []
    requires forall k :: 0 <= k < |hs| ==> lo <= hs[k].pair.confidence <= 1.0
    ensures lo <= ConfidenceSum(hs) / |hs| as real <= 1.0
  {
    ConfidenceSumBounds(hs, lo);
    QuotientBetween(ConfidenceSum(hs), |hs| as real, lo);
  }

  lemma ConfidenceOfWellFormed(m: Match, p: Params)
    requires WellFormed(m, p)
    ensures p.confidenceThreshold <= m.confidence && 0.0 <= m.confidence <= 1.0
  {
  }

  lemma QuotientBetween(a: real, n: real, lo: real)
    requires 0.0 < n && lo * n <= a <= n
    ensures lo <= a / n <= 1.0
  {
    var q := a / n;
    assert q * n == a;
    assert (q - 1.0) * n <= 0.0;
    assert (q - lo) * n >= 0.0;
  }

  lemma {:induction false} ConfidenceSumBounds(hs: seq<HedgePair>, lo: real)
    requires forall k :: 0 <= k < |hs| ==> lo <= hs[k].pair.confidence <= 1.0
    ensures lo * |hs| as real <= ConfidenceSum(hs) <= |hs| as real
  {
    if hs != [] {
      assert lo <= hs[0].pair.confidence <= 1.0;
      ConfidenceSumBounds(hs[1..], lo);
      assert lo * |hs| as real == lo * |hs[1..]| as real + lo;
    }
  }

  /** Every involved user and account belongs to the uploaded table, so when the
      detector reported at least one pair both populations are non-empty and
      both percentages lie in (0, 100]. */
  lemma InvolvementWithinPopulation(t: Table, p: Params, parse: Parser)
    requires Detect(t, p, parse).Success? && Detect(t, p, parse).value != []
    ensures var hs := Detect(t, p, parse).value;
      && UsersOf(hs) <= UserPopulation(t.rows) && AccountsOf(hs) <= AccountPopulation(t.rows)
      && 0.0 < Percentage(|UsersOf(hs)|, |UserPopulation(t.rows)|) <= 100.0
      && 0.0 < Percentage(|AccountsOf(hs)|, |AccountPopulation(t.rows)|) <= 100.0
  {
    var hs := Detect(t, p, parse).value;
    var trades := Prepare(t, parse).value;
    DetectSound(t, p, parse);
    forall tr | tr in trades
      ensures tr.userId in UserPopulation(t.rows) && tr.accountId in AccountPopulation(t.rows)
    {
      TradesComeFromRows(t, parse, tr);
    }
    forall u | u in UsersOf(hs) ensures u in UserPopulation(t.rows) {
      UsersOfMembers(hs, u);
      var k :| 0 <= k < |hs| && (hs[k].pair.trade1.userId == u || hs[k].pair.trade2.userId == u);
      assert Reported(hs[k].pair, trades, parse);
    }
    forall a | a in AccountsOf(hs) ensures a in AccountPopulation(t.rows) {
      AccountsOfMembers(hs, a);
      var k :| 0 <= k < |hs| && (hs[k].pair.trade1.accountId == a || hs[k].pair.trade2.accountId == a);
      assert Reported(hs[k].pair, trades, parse);
    }
    UsersOfMembers(hs, hs[0].pair.trade1.userId);
    AccountsOfMembers(hs, hs[0].pair.trade1.accountId);
    SubsetCardinality(UsersOf(hs), UserPopulation(t.rows));
    SubsetCardinality(AccountsOf(hs), AccountPopulation(t.rows));
    PercentageBounds(|UsersOf(hs)|, |UserPopulation(t.rows)|);
    PercentageBounds(|AccountsOf(hs)|, |AccountPopulation(t.rows)|);
  }

  /** Every prepared trade carries the user and account ids of a table row. */
  lemma TradesComeFromRows(t: Table, parse: Parser, tr: Trade)
    requires Prepare(t, parse).Success? && tr in Prepare(t, parse).value
    ensures tr.userId in UserPopulation(t.rows) && tr.accountId in AccountPopulation(t.rows)
  {
    var trades := Prepare(t, parse).value;
    var rows := Filter(t.rows, Complete);
    var k :| 0 <= k < |trades| && trades[k] == tr;
    FilterMembership(t.rows, Complete, rows[k]);
  }

  lemma PercentageBounds(n: nat, total: nat)
    requires 0 < n <= total
    ensures 0.0 < Percentage(n, total) <= 100.0
  {
    Scoring.DivisionBetweenZeroAndOne(n as real, total as real);
  }

  // ---------------------------------------------------------------------------
  // Notable patterns

  /** An item of a report list with its share of all pairs. */
  datatype Share<K> = Share(key: K, count: nat, percentage: real)

  datatype Patterns = Patterns(
    frequentUsers: seq<Entry<Cell>>, peakHours: seq<Share<int>>, assetDistribution: seq<Share<string>>)

  /** `{'...': key, 'count': count, 'percentage': count / total * 100}` for each item. */
  function WithShares<K>(es: seq<Entry<K>>, total: nat): (ss: seq<Share<K>>)
    ensures |ss| == |es|
    ensures forall i :: 0 <= i < |ss| ==> ss[i] == Share(es[i].key, es[i].count, Percentage(es[i].count, total))
  {
    seq(|es|, i requires 0 <= i < |es| => Share(es[i].key, es[i].count, Percentage(es[i].count, total)))
  }

  /** The items of a share list without their percentages. */
  function Entries<K>(ss: seq<Share<K>>): (es: seq<Entry<K>>)
    ensures |es| == |ss|
    ensures forall i :: 0 <= i < |es| ==> es[i] == Entry(ss[i].key, ss[i].count)
  {
    seq(|ss|, i requires 0 <= i < |ss| => Entry(ss[i].key, ss[i].count))
  }

  /** The two leg owners of each pair, in order. */
  function UserPairs(hs: seq<HedgePair>): (r: seq<(Cell, Cell)>)
    ensures |r| == |hs|
    ensures forall k :: 0 <= k < |hs| ==> r[k] == (hs[k].pair.trade1.userId, hs[k].pair.trade2.userId)
  {
    seq(|hs|, k requires 0 <= k < |hs| => (hs[k].pair.trade1.userId, hs[k].pair.trade2.userId))
  }

  /** The hour of day of each pair's first entry time. */
  function Hours(hs: seq<HedgePair>, hourOf: real -> int): (r: seq<int>)
    ensures |r| == |hs|
    ensures forall k :: 0 <= k < |hs| ==> r[k] == hourOf(hs[k].pair.trade1.entryTime)
  {
    seq(|hs|, k requires 0 <= k < |hs| => hourOf(hs[k].pair.trade1.entryTime))
  }

  function PairAssets(hs: seq<HedgePair>): (r: seq<string>)
    ensures |r| == |hs|
    ensures forall k :: 0 <= k < |hs| ==> r[k] == hs[k].pair.asset
  {
    seq(|hs|, k requires 0 <= k < |hs| => hs[k].pair.asset)
  }

  /** Peak hours: the hours of the pairs' first entry times that reach 80% of
      the busiest hour's count, as `Tally.Peak` states, each with its share of
      all pairs. */
  ghost predicate PeakHours(hs: seq<HedgePair>, hourOf: real -> int, ph: seq<Share<int>>) {
    && Peak(Hours(hs, hourOf), Entries(ph))
    && forall i :: 0 <= i < |ph| ==> ph[i].percentage == Percentage(ph[i].count, |hs|)
  }

  /** Asset distribution: every symbol of the pairs with its number of pairs, as
      `Tally.Ranking` states, each with its share of all pairs. */
  ghost predicate AssetDistribution(hs: seq<HedgePair>, ad: seq<Share<string>>) {
    && Ranking(PairAssets(hs), Entries(ad))
    && forall i :: 0 <= i < |ad| ==> ad[i].percentage == Percentage(ad[i].count, |hs|)
  }

  /** `find_notable_patterns(hedge_pairs, df)`; `hourOf` stands for the local
      hour of day of an epoch-millisecond timestamp. */
  method FindNotablePatterns(hs: seq<HedgePair>, hourOf: real -> int) returns (r: Patterns)
    ensures hs == [] ==> r == Patterns([], [], [])
    ensures FrequentOwners(UserPairs(hs), r.frequentUsers)
    ensures PeakHours(hs, hourOf, r.peakHours)
    ensures AssetDistribution(hs, r.assetDistribution)
    ensures Sum(Entries(r.assetDistribution)) == |hs|
  {
    if hs == [] {
      return Patterns([], [], []);
    }
    var frequent := FrequentOwnerKeys(UserPairs(hs));
    var peak := PeakKeys(Hours(hs, hourOf));
    var assets := RankKeys(PairAssets(hs));
    SharesKeepEntries(peak, |hs|);
    SharesKeepEntries(assets, |hs|);
    r := Patterns(frequent, WithShares(peak, |hs|), WithShares(assets, |hs|));
  }

  lemma SharesKeepEntries<K>(es: seq<Entry<K>>, n: nat)
    ensures Entries(WithShares(es, n)) == es
  {
  }

}
