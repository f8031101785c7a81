# Hedge-pair detector — a Dafny model

The repository finds "hedge pairs" in a table of futures trades. A hedge pair is
two trades with these properties:
- the instrument is the same once its symbol is normalized;
- the directions are opposite;
- the entry prices are close;
- the holding periods overlap.

Three front ends implement this:
- **Flask back end** (`app.py`). `find_hedge_pairs` scores each candidate with
  `calculate_confidence_score`. The reports `generate_summary_stats` and
  `find_notable_patterns` are derived from the pairs it finds.
- **Browser dashboard** (`script.js`). It repeats the matcher in JavaScript and
  keeps the pairs in a global list. It filters and paginates that list,
  counts confidences into five bins, and counts users, hours and symbols for
  its "notable findings" panel.
- **Streamlit page** (`streamlit_app.py`). It uses a simpler matcher: a fixed
  5-point entry-price window, and every ordered pair of a group is compared.
  It reports the share of users and accounts involved.

The model covers each of these cores in Dafny:

| module | file | what it holds |
|---|---|---|
| `Cells` | cells.dfy | table cells (`Missing` = pandas NaN, `Text`, `Num`), Python `==` on them, `pd.to_numeric` |
| `Strings`, `Seqs`, `Wrappers` | strings.dfy, seqs.dfy, wrappers.dfy | `re.sub`, `str.strip`, `str.split`, order-preserving filters, `groupby` and its sorted key order, the pair numbering both matchers share |
| `AppFields` | app_fields.dfy | `normalize_asset_name`, `parse_list_field` |
| `Scoring` | scoring.dfy | the confidence formula shared by both `calculate_confidence_score`s |
| `AppMatcher` | app_matcher.dfy | `find_hedge_pairs`, with each exception it raises as a `Result` failure |
| `Tally` | tally.dfy | insertion-ordered counting (`d.get(k, 0) + 1`), the sort by count, and the per-user pair count both reports share |
| `AppReports` | app_reports.dfy | `generate_summary_stats`, `find_notable_patterns` |
| `BrowserMatcher` | browser_matcher.dfy | `processData`'s filter, grouping and per-pair decision; `normalizeAssetName`, `calculateConfidenceScore` |
| `BrowserDashboard` | browser_dashboard.dfy | the dashboard's global state as a class (`hedgePairs`, `currentPage`), its loops, the filter, pagination, the histogram, the notable-patterns counts |
| `Streamlit` | streamlit.dfy | the whole Streamlit pipeline |

**How the model is built**
- Number and time parsing (`float`, `parseFloat`, `pd.to_numeric`,
  `pd.to_datetime`) is a parameter of type `string -> Option<real>`. The model
  never fixes a particular parser.
- Hour extraction is also a parameter.
- Every loop the model covers is a `method`: the required-column check, the
  matcher loops of all three front ends, the counting loops of the reports,
  and the dashboard's grouping and histogram loops. Each method is proved
  equal to a specification function that builds the same result prefix by
  prefix.
- The properties are lemmas about those functions: soundness, completeness,
  symmetry, bounds and round trips.

For entry prices 2 apart, a threshold of 5 and no close prices, the formula in
`app.py:217-243` and `script.js:302-331` computes `0.4 × (1 − 2/5) + 0.3 + 0.15`,
which is 0.69, or 0.79 with equal quantities. `Scoring.WorkedScenario` proves
those two values.

## Model

| member | source | states |
|---|---|---|
| AppFields.NormalizeAssetName | app.py:66-79 | the result is alphanumeric; it is "NQ" iff the cleaned, upper-cased symbol contains "NQ"; "ES" iff it contains "ES" and not "NQ"; "CL" likewise after both; otherwise the cleaned symbol itself |
| AppFields.NormalizeAssetNameIdempotent | app.py:66-79 | normalizing a normalized symbol changes nothing |
| AppFields.NormalizeAssetNameNqExamples | app.py:67-73 | "NQM5" and "MNQM5" both map to "NQ" |
| AppFields.NormalizeAssetNameOwnRoot | app.py:79 | a symbol with no known root ("XYZ123") is returned as it is |
| AppFields.Pieces | app.py:85-90 | every piece of a list field is trimmed and non-empty |
| AppFields.PiecesSpec | app.py:85-90 | pieces are trimmed and comma-free; their number is the number of comma-separated fields minus the blank ones |
| AppFields.TrimNonBlankSpec | app.py:88-90 | the comprehension `[x.strip() for x in xs if x.strip()]` is the stripped pieces, in order, less the empty ones; they hold no comma, and their number is the pieces minus the blank ones |
| AppFields.ParseAll | app.py:88 | all pieces convert iff the result is present; it then holds each piece's number in order |
| AppFields.ParseListField | app.py:81-91 | non-text is returned unchanged; text becomes all numbers iff every piece converts, otherwise all the trimmed strings |
| AppFields.ParseListFieldAllNumbers | app.py:85-88 | `"[x,y,z]"` with three numbers parses to the list of the three numbers |
| AppFields.ParseListFieldFallback | app.py:89-90 | when the first piece does not convert, `"[x,y,z]"` yields the three strings |
| Scoring.Clamp | app.py:243 | the result is in [0, 1], equal to the input inside that range, 0 below it and 1 above it |
| Scoring.ConfidenceFormula | app.py:217-243 | every score is in [0, 1] |
| Scoring.RawScoreRange | app.py:222-241 | for prices within the threshold: price term in [0, 0.4], close term in [0, 0.3], raw sum in [0.3, 1.1] (at least 0.45 without close prices) |
| Scoring.ScoreMonotoneInPrice | app.py:222 | a larger entry-price difference never raises the score |
| Scoring.QuantityBonusNeverLowers | app.py:240-241 | equal quantities never score lower than unequal ones |
| Scoring.PriceTermNegativeBeyondThreshold | app.py:222 | beyond the threshold the price term is negative |
| Scoring.WorkedScenario | app.py:217-243 | prices 2 apart with threshold 5 and no close prices score 0.69, or 0.79 with equal quantities |
| AppMatcher.CheckColumns | app.py:100-102 | the required-column loop returns the first absent column, `FirstMissing` |
| AppMatcher.FirstMissing | app.py:96-102 | the first required column absent from the header, in list order, or none iff all are present |
| AppMatcher.FirstTime | app.py:117-118 | `float(x[0])` of a parsed list: a ValueError iff the first piece does not convert; None iff the field is not text or has no pieces; otherwise the first piece's number |
| AppMatcher.TradeOf | app.py:107-122 | a prepared trade carries the normalized symbol, the row's ids and fields, the first entry and close times, and the coerced entry and close prices |
| AppMatcher.ConversionError | app.py:108-118 | no error iff every complete row converts; TypeError iff some row's symbol is not text; otherwise ValueError |
| AppMatcher.Prepare | app.py:95-122 | a missing-column failure iff a required column is absent, naming one; success iff all columns are present, every complete row converts, and both price columns exist; then exactly one trade per complete row, in order |
| AppMatcher.FloatOf | app.py:190 | `float()` of a number is that number; of text, it is the parser's value or a ValueError |
| AppMatcher.ConfidenceScore | app.py:217-243 | ZeroDivisionError iff the threshold is 0; ValueError iff a quantity does not convert; NaN iff close prices are included and one is NaN; otherwise the shared formula `ConfidenceFormula` of the price difference, the close difference (when included) and the equality of the two converted quantities, a value in [0, 1] |
| AppMatcher.OppositeMeansLongAndShort | app.py:147-149 | two directions pass both tests iff one is "LONG" and the other "SHORT" |
| AppMatcher.OverlapsSymmetric | app.py:155-158 | the overlap test is symmetric in the two trades |
| AppMatcher.JudgeSpec | app.py:143-213 | non-candidates are rejected; exceptions need a candidate; a candidate is rejected iff its score is NaN or below the threshold; an accepted pair is well formed and shows its two trades field by field |
| Seqs.Number | app.py:126 | pair ids run 1, 2, … in order, as `pair_id` and `pairId++` (script.js:219, 265) give them |
| AppMatcher.MatchGroups | app.py:125-213 | the loops return the numbered prefix-specified pairs, or the first exception raised |
| AppMatcher.MatchGroup | app.py:132-137 | one group's loop continues the numbering of the pairs found so far, or stops with the exception |
| AppMatcher.MatchRow | app.py:139-213 | one trade against every later trade of its group, continuing the numbering |
| AppMatcher.RowMatchesMembers | app.py:139-212 | a row's pairs are exactly the accepted decisions against later trades |
| AppMatcher.GroupMatchesMembers | app.py:132-212 | a group's pairs are exactly the accepted decisions on pairs (i, j), i < j |
| AppMatcher.AllMatchesMembers | app.py:129-213 | all pairs are exactly the accepted decisions on index pairs i < j of some group |
| AppMatcher.AssetKeys | app.py:129 | groups are visited in strictly ascending symbol order, one per symbol present |
| AppMatcher.FindHedgePairs | app.py:93-215 | the function returns exactly what the specification `Detect` gives |
| AppMatcher.DetectSound | app.py:93-215 | every reported pair is numbered by its position, is well formed, and shows two prepared trades of its own symbol |
| Tally.Count | app.py:304-311 | after the counting loop, the keys appear in first-appearance order, each once; every count is the key's number of occurrences; the counts sum to the number of keys |
| Tally.FirstsSpec | app.py:309 | the insertion order is duplicate-free and holds exactly the keys seen |
| Tally.SortByCount | app.py:319 | `sort(key=count, reverse=True)` gives the same entries in non-increasing count order with the same total |
| Tally.InsertByCount | app.py:319 | inserting keeps the order, adds exactly the new entry, and adds its count to the total |
| Tally.KeepCounts | app.py:314-318 | the comprehension keeps only entries that pass, and every entry that passes |
| Tally.MaxCount | app.py:331 | `max(values)` bounds every count and is reached (0 for none) |
| Tally.FrequentKeys | app.py:303-319 | each listed key occurs at least three times and is listed with its count; every such key is listed, once, from the highest count down |
| Tally.PeakKeys | app.py:330-337 | the listed keys are exactly those reaching 80% of the maximum count, each with its count, in descending order |
| Tally.PeakStartsAtMax | app.py:330-337 | for a non-empty input the peak list is non-empty and starts at the maximum count |
| Tally.RankKeys | app.py:339-349 | every key appears once with its count, in descending count order |
| AppReports.SelfCount | app.py:260 | self hedges never outnumber the pairs |
| AppReports.GenerateSummaryStats | app.py:245-292 | the all-zero record for no pairs; otherwise the totals, self and inter-user counts summing to the total, the mean confidence, distinct involved users and accounts, and their guarded percentages |
| AppReports.UsersOfMembers | app.py:267-274 | a user is counted iff it owns a leg of some pair |
| AppReports.AccountsOfMembers | app.py:267-274 | an account is counted iff it owns a leg of some pair |
| AppReports.AverageConfidenceBounds | app.py:264 | the mean confidence of reported pairs lies in [confidence threshold, 1] and in [0, 1] |
| AppReports.InvolvementWithinPopulation | app.py:277-281 | the involved users and accounts are among the table's, so both percentages lie in (0, 100] |
| AppReports.FindNotablePatterns | app.py:294-355 | empty lists for no pairs; otherwise frequent users, peak hours and the asset distribution as the `Tally` predicates state, the distribution summing to the number of pairs |
| AppReports.SharesKeepEntries | app.py:345-348 | adding percentages leaves the (key, count) entries unchanged |
| Tally.OwnerKeysCountMentions | app.py:304-311 | a user's count is the number of pairs it has a leg in, once per pair even when both legs are its own (script.js:580-589 counts the same way with `!==`) |
| Tally.FrequentOwnersHold | app.py:314-319 | the frequent keys among the user keys are exactly the users with at least three pairs, each with its pair count, once, in descending order |
| Tally.FrequentOwnerKeys | script.js:580-594 | the frequent-user count of both reports meets that promise |
| BrowserMatcher.IncludesNqIsContains | script.js:295 | `includes('NQ')` holds iff "NQ" occurs at some position |
| BrowserMatcher.NormalizeAssetNameMeaning | script.js:293-299 | "NQ" iff the symbol contains "NQ", case-sensitively; otherwise the symbol unchanged |
| BrowserMatcher.NqAgreesWithBackEnd | script.js:293-299 | a symbol the browser calls "NQ" is "NQ" for the back end too |
| BrowserMatcher.LowerCaseSymbolsDiffer | script.js:295 | "mnq" stays "mnq" in the browser but is "NQ" in the back end |
| BrowserMatcher.GroupsPartition | script.js:199-216 | every clean row lands in exactly one group, that of its normalized symbol |
| BrowserMatcher.NoGroupForUncleanRows | script.js:199-204 | a row with a falsy listed field is in no group |
| BrowserMatcher.IndexOf | script.js:227 | the first position of a character |
| BrowserMatcher.StripBracketsOfList | script.js:227-228 | removing the first "[" and the first "]" from `"[x]"` gives `x` |
| BrowserMatcher.StripBracketsOfPlain | script.js:227-228 | text without brackets is unchanged |
| BrowserMatcher.TimesOverlapMeaning | script.js:247-248 | the overlap needs both entry times; it is symmetric; with all four times it is the back end's test; with one close time NaN only the other containment counts |
| BrowserMatcher.PriceDiff | script.js:240-244 | the difference is a number iff both prices parse; it is never negative |
| BrowserMatcher.ConfidenceScore | script.js:302-331 | NaN iff the threshold is 0 or an included close difference is NaN; otherwise the shared formula, in [0, 1] |
| BrowserMatcher.EqualQuantitiesNeverScoreLower | script.js:325-329 | the quantity bonus never lowers a score |
| BrowserMatcher.JudgeAtSpec | script.js:224-277 | a TypeError iff trade i's times are not text, or the directions differ and trade j's are not text; equal directions are skipped; a pushed pair is well formed and holds rows i and j |
| BrowserMatcher.RowRunMembers | script.js:230-281 | a row's run finds only accepted decisions, and all of them when nothing is thrown |
| BrowserMatcher.GroupRunMembers | script.js:223-282 | likewise for a group's index pairs i < j |
| BrowserMatcher.AllRunMembers | script.js:220-283 | likewise for all groups |
| BrowserMatcher.ProcessSound | script.js:194-283 | every pushed pair is well formed and holds two clean rows of the data from its own group |
| BrowserMatcher.ProcessComplete | script.js:194-283 | without an exception, every accepted index pair is pushed |
| BrowserDashboard.GroupByAsset | script.js:207-216 | the grouping loop throws iff some clean row's symbol is not text; otherwise it gives the first-appearance key order and the group map |
| BrowserDashboard.GroupMapKeys | script.js:207-216 | the map has one key per normalized symbol seen |
| BrowserDashboard.GroupMapHoldsGroups | script.js:207-216 | each key's group is the rows of that symbol, in order |
| BrowserDashboard.KeyOrderIsGroupKeys | script.js:220 | `Object.keys` visits the groups in first-appearance order |
| BrowserDashboard.Dashboard.constructor | script.js:3-5 | the global state starts with no pairs on page 1 |
| BrowserDashboard.Dashboard.ProcessData | script.js:194-283 | it replaces the list with the numbered pairs of the specification, reports whether it threw, and keeps the page |
| BrowserDashboard.Dashboard.PairGroup | script.js:221-229 | one group's loop appends its numbered pairs to the list |
| BrowserDashboard.Dashboard.PairTrade | script.js:230-281 | one trade's inner loop appends its numbered pairs to the list |
| BrowserDashboard.Dashboard.FilteredHedgePairs | script.js:335-351 | an order-preserving subsequence of the list; it keeps exactly the pairs matching the type filter (unless "all") and reaching the confidence filter; everything when no filter applies |
| BrowserDashboard.FilterFacts | script.js:339-351 | the filter keeps order, keeps every passing pair, and keeps all with no filter |
| BrowserDashboard.TotalPages | script.js:382 | `Math.ceil(n / 10)`: the fewest pages of 10 holding n pairs |
| BrowserDashboard.LastPage | script.js:383 | `totalPages` or else 1: at least 1, and the page count when there are pairs |
| BrowserDashboard.Dashboard.UpdateResults | script.js:377-387 | the page is clamped to `[1, max(totalPages, 1)]`; the shown slice is the contiguous run of at most 10 starting at `(page − 1) · 10`, full unless it reaches the end; it is `PageOf(sorted, page)` |
| BrowserDashboard.Dashboard.PrevPage | script.js:160-165 | on page 1 nothing happens; otherwise the page becomes the smaller of one less and the last page, and that page of `sorted` is shown |
| BrowserDashboard.Dashboard.NextPage | script.js:167-173 | below the last page the page goes up by one and that page of `sorted` is shown; otherwise nothing happens |
| BrowserDashboard.BinOf | script.js:489-494 | a confidence falls in the one bin whose half-open range holds it, or in none |
| BrowserDashboard.BumpBin | script.js:488-498 | one pair adds 1 to the bin holding its confidence and nothing to the others |
| BrowserDashboard.BumpTotal | script.js:488-498 | one pair adds 1 to the total exactly when its confidence is in [0, 1] (1.0 via the extra increment) |
| BrowserDashboard.CountConfidence | script.js:489-498 | the in-place update of the count array for one pair is `Bump` |
| BrowserDashboard.Dashboard.ConfidenceCounts | script.js:485-499 | the five counters are the histogram of the pairs' confidences |
| BrowserDashboard.HistogramCounts | script.js:485-499 | each bin counts exactly the confidences in its range, and the bins sum to the confidences in [0, 1] |
| BrowserDashboard.HistogramCoversAll | script.js:485-499 | when every confidence is in [0, 1] the bins sum to the number of pairs |
| BrowserDashboard.Dashboard.NotablePatterns | script.js:580-643 | nothing for no pairs; otherwise frequent users, the peak hours (non-empty) and the asset ranking summing to the number of pairs |
| Streamlit.NormalizeText | streamlit_app.py:28-29 | a symbol starting with "MNQ" becomes "NQ" followed by the same remainder; any other symbol is unchanged; no result starts with "MNQ" |
| Streamlit.NormalizeAsset | streamlit_app.py:27-30 | numbers and blanks are returned unchanged; text is normalized |
| Streamlit.NormalizeAssetIdempotent | streamlit_app.py:27-30 | normalizing twice gives the same as once |
| Streamlit.NormalizeAssetExamples | streamlit_app.py:26-30 | "MNQH5" becomes "NQH5"; "NQH5", "ESH5" and the number 5 are unchanged |
| Streamlit.KeyOf | streamlit_app.py:32-36 | a trade has a group key iff its symbol is text (NaN keys are dropped) |
| Streamlit.Dated | streamlit_app.py:20-24 | the surviving rows are the rows whose two times parse, in order |
| Streamlit.DatedMembers | streamlit_app.py:20-24 | a trade survives iff its row is in the table and both its times parse to the values it carries |
| Streamlit.DatedKeepsOrder | streamlit_app.py:24 | the surviving rows keep their order |
| Streamlit.GroupKeys | streamlit_app.py:36-38 | the groups are visited in strictly ascending symbol order |
| Streamlit.GroupKeysMembers | streamlit_app.py:36-38 | there is a group for a symbol iff some surviving trade has it |
| Streamlit.SortByOpenSpec | streamlit_app.py:39 | sorting keeps every trade of the group, as often as it occurs, in ascending open time |
| Streamlit.GroupMembers | streamlit_app.py:36-39 | a trade is in a group iff it survived and has that group's symbol |
| Streamlit.EntryGap | streamlit_app.py:44 | `abs(entry_1 - entry_2)` raises iff either price is text, and is a number iff both are numbers (NaN otherwise) |
| Streamlit.JudgeSpec | streamlit_app.py:42-51 | a pair is recorded iff it is hedged; an exception arises iff the accounts are not equal and a price is text |
| Streamlit.JudgeSymmetric | streamlit_app.py:42-51 | the decision on (a, b) equals the decision on (b, a) |
| Streamlit.SelfPairNeedsBlanks | streamlit_app.py:41-51 | a trade is recorded with itself iff its account and direction are both blank, its price is not text, and it closes no earlier than it opens |
| Streamlit.FindHedges | streamlit_app.py:20-68 | the page's loops give exactly the specification `Hedges` |
| Streamlit.HedgeGroups | streamlit_app.py:38-68 | the group loop gives all groups' records in order, or the first exception |
| Streamlit.HedgeGroup | streamlit_app.py:40-68 | the outer loop of a group appends its records, or stops with the exception |
| Streamlit.HedgeRow | streamlit_app.py:41-68 | the inner loop compares trade i with every trade of its group, itself included |
| Streamlit.RowHedgesMembers | streamlit_app.py:41-68 | with no exception, every comparison succeeded and the records are exactly the accepted ones |
| Streamlit.GroupHedgesMembers | streamlit_app.py:40-68 | likewise over all ordered index pairs of a group |
| Streamlit.AllHedgesMembers | streamlit_app.py:38-68 | likewise over all groups |
| Streamlit.HedgesSound | streamlit_app.py:38-68 | every record holds two surviving trades of its symbol whose accounts are not equal, whose numeric prices are at most 5 apart, whose directions are not equal, and with `open_2 <= close_1` and `close_2 >= open_1` |
| Streamlit.HedgesComplete | streamlit_app.py:38-68 | every hedged ordered pair of surviving trades of one symbol is recorded |
| Streamlit.HedgesSymmetric | streamlit_app.py:40-51 | every record comes with its mirror image |
| Streamlit.HedgesNoSameAccount | streamlit_app.py:42-43 | trades of the same non-blank account are never paired; a trade is paired with itself only when its account and direction are blank |
| Streamlit.Share | streamlit_app.py:88-89 | a share raises ZeroDivisionError iff no surviving row has an id in that column |
| Streamlit.InvolvedWithinPopulation | streamlit_app.py:87-89 | the ids in the records are ids of surviving rows |
| Streamlit.SummaryShares | streamlit_app.py:77-89 | with a pair found whose first trade has a user and an account, both shares are defined and lie in (0, 100] |
| Streamlit.SummaryWithoutUsers | streamlit_app.py:77-88 | pairs whose table has no user id at all make the user share divide by zero |

## Left out

- HTTP plumbing: Flask routing, file checks, form parsing and JSON responses.
  The handler's `except` that turns an exception into a 500 reply is the
  `Failure` side of each `Result`.
- UI and browser I/O: DOM wiring, drag and drop, `Papa.parse`, `setTimeout`,
  Chart.js, the modal, CSV/JSON/PDF export, Streamlit widgets, `pd.read_csv`
  and the `st.*` calls.
- Display refresh: `processData`'s closing calls (script.js:285-289) are not
  modelled. `ProcessData` leaves the page number as it was.
- Column headers: the Streamlit page strips and lower-cases them
  (streamlit_app.py:17). The model does not check or rename columns, so a
  missing Streamlit column, which would raise a KeyError, is not modelled.
- Time formatting: `datetime.fromtimestamp`, `strftime`, `strptime`,
  `new Date(...).getHours()` and `toLocaleString()`. They depend on the local
  timezone. Hours are a parameter (`hourOf`), and times are raw epoch numbers.
- Parsing itself: `float()`, `parseFloat`, `parseInt`, `pd.to_numeric` and
  `pd.to_datetime` are the abstract parser parameter.
- IEEE-754 floats: numbers are exact reals. NaN is modelled only where it
  arises from a blank or unparsable cell. Rounding and `toFixed` are not modelled.
- Papa.parse typing of booleans and numbers: browser cells are text or numbers
  as given.
- Truthiness of values other than blank text, 0 and NaN.
- JavaScript object key order: `Object.keys`/`Object.entries` put integer-like
  keys first. The model keeps first-appearance order for every key.
- Prototype keys such as `"__proto__"`.
- `String(user_id)`: JavaScript object keys are strings, so `1` and `"1"` merge
  into one user. The model keeps them apart.
- `getSortedHedgePairs` (script.js:355-374): its result enters
  `Dashboard.UpdateResults`, `Dashboard.PrevPage` and `Dashboard.NextPage` as a
  parameter `sorted` that has the same elements as the filtered list. Its
  comparators are not modelled.
- Dashboard.UpdateResults, Dashboard.PrevPage, Dashboard.NextPage: the
  enabling and disabling of the page buttons and the page label are not
  modelled.
- Tally.SortByCount: Python's and JavaScript's sorts are stable. The model
  proves the order by count and the permutation, not the order among equal
  counts.
- Streamlit.SortByOpenSpec: pandas' default `sort_values` is not stable. The
  model uses a stable insertion sort and proves sortedness and permutation
  only. This affects only the order of records with equal open times.
- Streamlit.KeyOf: an all-numeric asset column would be read as numbers, and
  pandas would group them by value. The model keeps only text symbols as group
  keys, so such rows are in no group.
- Streamlit.Share: `set(...)` of a column holding NaN may count NaN entries
  once or several times, depending on object identity. The model counts only
  non-blank ids, in the records and in the population.
- The user-pair and account-pair counts (streamlit_app.py:78-79) are only
  displayed, so they are not modelled.
- Error messages: exceptions are modelled by kind, and their text is not.
- `market_entries` and `market_closes`: they are required columns and are
  parsed (app.py:113-114), but nothing reads the parsed values. The model keeps
  only the required-column and non-blank checks on them.
