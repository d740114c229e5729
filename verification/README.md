# Brolga, modelled in Dafny

Brolga collects threat intelligence from feeds, judges what it has already seen, and builds bounded,
explained summaries from it. Around a lot of plumbing sit a few small algorithms that carry its
guarantees. This project models those algorithms and proves what they guarantee, and where a guarantee
does not hold it proves exactly when it does.

`dafny verify dfyconfig.toml` checks everything.

| file | what it models |
|---|---|
| `Machine.dfy` | optional and fallible results, 64-bit saturating arithmetic, white space |
| `Feed.dfy` | stored cursors, the store a run writes through, and what an honest server answers |
| `Taxii.dfy` | `sync_collection`: one TAXII collection across finished, failed, cancelled, bounded and killed processes |
| `Tags.dfy` | when a TAXII run answered with a 304 can be believed |
| `OpenCti.dfy` | `sync_opencti`, the same for an OpenCTI instance |
| `Rows.dfy` | what one process of either loop leaves behind, however it ends, told from the answers it got |
| `Skips.dfy` | what a complete run leaves out, for both loops and any server that honours the mark it is sent |
| `Relative.dfy` | the same for a server that counts its tokens from the mark it is sent |
| `Budget.dfy` | `fit`: required items first, sections that close at their first overflow, a deadline |
| `Places.dfy` | places of a list, and what is read off there |
| `Ranking.dfy` | that `fit` keeps the ranking, and what its failures say |
| `Dedup.dfy` | `Deduplicator`: which observation of a record is new, a copy, an update or corroboration |
| `Histories.dfy` | decisions, corroborators and versions in the order they happened |
| `Confidence.dfy` | decay, the weighted mean and `assess`, on top of the corroboration counted in `Dedup` |
| `Figures.dfy` | the figures of `Confidence` said from the inputs: the mean, the penalties, a record's standing |
| `EditDistance.dfy` | the two-row Levenshtein distance against edit scripts, and suggestions made from it |
| `Layers.dfy` | layered configuration: in-place merging, attribution, and `explain` |
| `Profiles.dfy` | profile inheritance: the walk, the fold and the checks |
| `Query.dfy` | compiling a search expression to a typed filter |
| `Escaping.dfy` | the Markdown and STIX pattern escapers, the oracle they must satisfy, and the STIX pattern reader |
| `Grammar.dfy` | which patterns the reader takes, and as what |
| `Patterns.dfy` | patterns with alternatives read back, and the escapers in literal characters |
| `Urls.dfy` | splitting a URL and resolving a redirect against it |
| `Redirects.dfy` | what a redirect keeps of the text it was given, and how an authority is read |

The loops that carry an algorithm are methods with invariants, proved equal to a function of its inputs or of
the state before it; what the source promises is then proved of that function for every input or every history.
Short scans and iterator chains, and the pattern reader, are functions.
Automatic induction is off in every lemma, so each proof rests on its written steps alone.

## How the sync protocol is modelled

A process is a script of ticks, one for each turn of the loop. A tick says whether the run is cancelled,
what the server answers, whether the ingest transaction and the cursor transaction commit, and whether the
process is killed between the two. A script that runs out kills the process at a loop head, which also
covers a kill before ingesting. A history is any sequence of such processes over one database. The server
may answer anything at all in the lemmas about a single report and in `CursorNeverAhead`; the completeness
lemmas assume one that sends its entries in strictly increasing stamp order, page by page, with an honest
`more`, and that may grow between any two requests.

## Where the code and its documentation differ

- `crates/brolga-connectors/src/sync.rs:5` and `crates/brolga-storage/src/cursor.rs:8-10` say a page's records
  and its cursor are committed together. The code ingests at line 289 and persists at line 322, in two
  transactions. The gap costs a repeated page and loses no record: `Taxii.CursorNeverAhead`. The next process asks for
  the same window, but sends the stored tag, which the broken one had sent with its first request only
  (`Taxii.BrokenAsksAgain`); what that can cost is the next point.
- A partial page's entity tag is stored (line 311) and sent by the next process (lines 193-197), so an honest 304
  can end a run that never fetched the rest and still reports itself complete. `Tags.CompleteIsTrustworthy` says of
  every row an honest history from an empty database can leave exactly whether a complete report started from it can
  be trusted: when no tag will be sent, when the row's last run finished, or when the row holds no mark yet.
  `Tags.EveryOtherStatusLoses` gives a losing history for each other status.
- Both loops move the high-water mark and the page token together (lines 219-226 and 427-432), and the comment at
  lines 412-416 explains why a token from one result set must not be used with another. Within one run that
  is what happens. For any database, and any server that answers in order and honours the mark,
  `Skips.TaxiiCoversExactly` and `Skips.OpenCtiCoversExactly` say exactly which complete runs left everything stored: those
  each of whose requests began past nothing that was still missing. `Relative.TaxiiCoversExactly` and
  `Relative.OpenCtiCoversExactly` are the case of tokens counted from the mark, and `Relative.TaxiiFreshCoversExactly` and
  `Relative.OpenCtiFreshCoversExactly` that of a store holding nothing past the mark yet, where it comes down to the
  tokens the accepted pages carried. The other completeness lemmas assume absolute tokens.
- `added_after` is exclusive, so when a page ends between two entries with one stamp and carries no token, the second
  is never asked for: `Skips.TiesAreSkipped`. The lemmas in `Skips` allow equal stamps; the others do not.
- `crates/brolga-graph/src/dedup.rs:436` promises that arrival order does not change what is decided.
  `Dedup.OrderFreeExactly` gives the condition under which corroboration is free of order, and shows it fails otherwise.
- An update is measured against the first version a publisher sent (`crates/brolga-graph/src/dedup.rs:342-361`), so sending
  the latest version again can be recorded as one more update. `Dedup.VersionsRepeatExactly` says for which histories
  no version is recorded twice; `Dedup.RestatingAnUpdateCountsAgain` is the shortest where one is.
- `Contradictory` (`crates/brolga-config/src/profile.rs:591-603`) is never returned: `Profiles.NeverContradictory`.
- `and` between two values of one field compiles to their union, though the expression says nothing can match:
  `Query.FilterAgreesExactly`.
- `resolve_relative` writes a host back without the brackets `split_url` removed: `Urls.PathStaysOnHost`, `Urls.BracketsAreLost`.
  A root-relative location that happens to hold `://` is taken for a whole URL: `Urls.PathTakenForUrl`.
- Attribution entries can outlive the setting they name: `Layers.EntryIsCurrentExactly` says exactly which are current,
  and `Layers.AttributionCanBeStale` gives one stack for each way to lose one.

## Model

| member | source | states |
|---|---|---|
| Feed.Store.Ingest | crates/brolga-connectors/src/sync.rs:289-302 | one batch transaction: all of the records or none, and the cursor untouched |
| Feed.Store.Persist | crates/brolga-connectors/src/sync.rs:338-349 | one cursor transaction: the row is replaced or kept, and the records are untouched |
| Feed.SoundGrows | crates/brolga-connectors/src/sync.rs:16-20 | a position borne out by a server stays so while the server grows |
| Feed.SoundStep | crates/brolga-connectors/src/sync.rs:265-310 | ingesting an honest page and moving the mark to its newest stamp leaves nothing behind the mark unstored |
| Feed.SoundEnd | crates/brolga-connectors/src/sync.rs:253-263 | an honest empty page means everything past the start is stored |
| Feed.SoundPage | crates/brolga-connectors/src/sync.rs:219-334 | any honest page, asked for from a sound position with its token, keeps the stored row sound and gives the run its next sound position or its end |
| Taxii.SyncCollection | crates/brolga-connectors/src/sync.rs:160-335 | the loop writes exactly the records and cursor rows the turn-by-turn specification gives, and ends as it does, under every script of cancels, answers, failed transactions and kills |
| Taxii.LoopHeads | crates/brolga-connectors/src/sync.rs:192-199 | at every loop head the local token is the cursor's, and only the first request carries the stored tag |
| Taxii.ReportMeans | crates/brolga-connectors/src/sync.rs:115-124 | whatever the server does: pages within the bound, `records_seen` grown by exactly the objects reported, the reported cursor stored, and complete exactly when the last turn got an empty page, a last page or a 304 |
| Taxii.BrokenAsksAgain | crates/brolga-connectors/src/sync.rs:16-20 | a process that fails or is killed anywhere leaves the stored position at its last loop head, so the next process asks for the same window; it sends the stored tag, which the broken one sent with its first request only |
| Taxii.CursorNeverAhead | crates/brolga-connectors/src/sync.rs:3-14 | after any processes against any server no record is lost, and the stored mark is the first one or the newest stamp of a page whose records are all stored |
| Taxii.NothingSkipped | crates/brolga-connectors/src/sync.rs:3-14 | after any history against an honest growing server, every entry between the first mark and the stored one is stored |
| Taxii.CompleteMeansEverything | crates/brolga-connectors/src/sync.rs:115-124 | after any such history, a process that reports itself complete leaves every entry the server then held stored, unless it sent a tag and was answered with a 304 |
| Taxii.FreshIsSound | crates/brolga-storage/src/cursor.rs:107-118 | an empty database and a starting cursor meet the hypothesis of the completeness lemmas, counting from the beginning |
| Taxii.UndisturbedFinishes | crates/brolga-connectors/src/sync.rs:199-335 | a process nothing disturbs, with enough pages allowed, reports itself complete |
| Rows.StartsBlank | crates/brolga-storage/src/cursor.rs:107-118 | a feed nothing was fetched from starts with no mark, tag or token, a count of zero and the status complete; otherwise the stored row is the start |
| Rows.TaxiiHeads | crates/brolga-connectors/src/sync.rs:199-335 | at the n-th loop head, whatever the server says: n pages counted, their objects counted, the records those on the pages and the old ones, the mark and the tag the last ones said, the token that of the last page, and the row stored as partial |
| Rows.TaxiiFinishes | crates/brolga-connectors/src/sync.rs:200-334 | of any finished process: which of the three statuses it reports and when, that its figures, mark and tag tell of every page it got, and that the token stored is the one it would have sent next unless it is complete |
| Rows.TaxiiStoppedAsksOn | crates/brolga-connectors/src/sync.rs:200-247 | a process cancelled, bounded or answered with a 304 leaves its last loop head's mark and token, so the next process asks for the window this one would have |
| Rows.TaxiiBreaks | crates/brolga-connectors/src/sync.rs:229-302 | of any process that does not finish: the records are those of every page ingested, the row that of its last loop head, marked failed with the time exactly when a failed fetch or ingest could be written down, and only a kill goes unreported |
| Tags.FitsThroughout | crates/brolga-connectors/src/sync.rs:199-335 | over a whole run whose tags name contents: `records_seen` counts exactly what lies behind the mark, a stored tag stands for part of what the server holds, and for nothing unfetched when the row is settled |
| Tags.SettledRowsAreTrustworthy | crates/brolga-connectors/src/sync.rs:229-239 | after any honest history from an empty database, a complete report of a process that sends no tag, or starts from a row whose last run finished or that holds no mark, leaves nothing missing, a 304 included |
| Tags.CompleteIsTrustworthy | crates/brolga-connectors/src/sync.rs:193-197 | for every row such a history can leave, a complete report can be trusted if and only if no tag will be sent (or no page may be asked for), or the last run finished, or there is no mark yet |
| Tags.ReachableRowsCount | crates/brolga-connectors/src/sync.rs:307-322 | a row an honest history leaves counts in `records_seen`, and names in its token, how many entries lie behind its mark |
| Tags.UnchangedHidesEntry | crates/brolga-connectors/src/sync.rs:229-239 | for every other such row there is an honest history that leaves it and an honest 304 that then ends a complete run with an entry missing |
| Tags.EveryOtherStatusLoses | crates/brolga-connectors/src/sync.rs:200-247 | partial, failed and not-modified rows all occur among them |
| Tags.PartialTagLosesTheRest | crates/brolga-connectors/src/sync.rs:311-322 | the shortest: two processes, from an empty database, lose the second of two entries |
| Skips.TaxiiLostForGood | crates/brolga-connectors/src/sync.rs:219-334 | an unstored entry a request begins past is never stored by that run, however long it goes on |
| Skips.TaxiiCoversExactly | crates/brolga-connectors/src/sync.rs:199-335 | from any database, against any server that answers in order, honours the mark and holds still, equal stamps included, a complete run without a 304 leaves everything past its first mark stored if and only if everything each of its requests began past was stored by then |
| Skips.TiesAreSkipped | crates/brolga-connectors/src/sync.rs:307-329 | two entries with one stamp, split across a page without a token: the run reports complete and the second is missing |
| Relative.TaxiiCoversExactly | crates/brolga-connectors/src/sync.rs:219-226 | the case of a server that counts tokens from the mark, from any database: everything is stored if and only if at every loop head everything between the mark and where the request begins was stored |
| Relative.TaxiiFreshCoversExactly | crates/brolga-connectors/src/sync.rs:219-226 | with nothing past the mark stored: if and only if no accepted page both claimed more and carried a token, and the row carried none past something unfetched |
| Relative.RelativeTokensSkip | crates/brolga-connectors/src/sync.rs:219-226 | such a run: one of three entries skipped, and complete |
| OpenCti.SyncOpenCti | crates/brolga-connectors/src/sync.rs:382-525 | the loop writes exactly the records and rows the turn-by-turn specification gives, the stuck-cursor ending included |
| OpenCti.EndingMeans | crates/brolga-connectors/src/sync.rs:418-524 | whatever the server does: pages within the bound, `records_seen` grown by exactly the objects reported, and complete exactly after an empty page or a last page, never after a stuck cursor |
| OpenCti.CursorNeverAhead | crates/brolga-connectors/src/sync.rs:496-509 | the stored mark is the first one or the newest stamp of a page whose renderable records are all stored |
| OpenCti.CompleteMeansEverything | crates/brolga-connectors/src/sync.rs:374-381 | after any history against an honest server, everything up to the mark is stored or unrenderable, and after a complete report everything is |
| OpenCti.UndisturbedFinishes | crates/brolga-connectors/src/sync.rs:418-524 | an undisturbed process, against an honest server that says where each next page begins, reports itself complete and is never stopped as stuck |
| Rows.OpenCtiHeads | crates/brolga-connectors/src/sync.rs:418-524 | the same for OpenCTI: only what can be rendered is stored, the page cursor is the last page's and never the one before it, and the token and tag in the row stay as found |
| Rows.OpenCtiFinishes | crates/brolga-connectors/src/sync.rs:418-524 | complete exactly after a last or an empty page; partial otherwise, after a page only when it gave no cursor or the one it was asked with; figures and mark tell of every page |
| Rows.OpenCtiStoppedAsksOn | crates/brolga-connectors/src/sync.rs:418-432 | cancelled or bounded, it leaves its last loop head's mark, and the next process asks from there without a page cursor |
| Rows.OpenCtiBreaks | crates/brolga-connectors/src/sync.rs:434-524 | what a broken process leaves: its last loop head's row, marked failed where that could be written, or the row of a stored page whose stuck cursor could not be noted |
| Skips.OpenCtiLostForGood | crates/brolga-connectors/src/sync.rs:418-524 | an unstored entry a request begins past is never stored by that run |
| Skips.OpenCtiCoversExactly | crates/brolga-connectors/src/sync.rs:418-524 | the same equivalence for OpenCTI, from any database, with whatever cannot be rendered counted as dealt with |
| Relative.OpenCtiCoversExactly | crates/brolga-connectors/src/sync.rs:427-432 | the case of page cursors counted within the `since` sent, from any database and for any unrenderable objects |
| Relative.OpenCtiFreshCoversExactly | crates/brolga-connectors/src/sync.rs:427-432 | with nothing past the mark stored: everything renderable past the mark if no accepted page both claimed more and carried a cursor, and an entry left unstored otherwise |
| Relative.RelativeCursorsSkip | crates/brolga-connectors/src/sync.rs:427-432 | such a run: one of three entries skipped, and complete |
| Budget.Fit | crates/brolga-graph/src/budget.rs:378-511 | the loop keeps, drops, counts and fails exactly as the item-by-item verdicts say, and a dimension is binding exactly when some drop names it |
| Budget.ExceedsMeans | crates/brolga-graph/src/budget.rs:514-556 | within the limits, an item is refused exactly when some dimension overflows, and what it needs is more than is reported available |
| Budget.NothingLostOrInvented | crates/brolga-graph/src/budget.rs:311-330 | kept and dropped together are exactly the items, with multiplicity |
| Budget.KeepsRequiredWithin | crates/brolga-graph/src/budget.rs:393-458 | on success every required item is kept and the counters are within every limit |
| Budget.FitStaysWithin | crates/brolga-graph/src/budget.rs:452-503 | the reported estimate is the exact total of what was kept, clamped, and no more than the limit |
| Budget.SectionsClose | crates/brolga-graph/src/budget.rs:402-450 | under a nondecreasing clock the items dropped are exactly the optional ones past the deadline or at or after their section's first overflow, and that first item still overflows what was finally kept in the dimension it names |
| Budget.DropIsEarned | crates/brolga-graph/src/budget.rs:408-450 | every drop is past the deadline, or carries the cause of the first overflow of its section |
| Budget.NeverSkipsAhead | crates/brolga-graph/src/budget.rs:402-450 | nothing optional is kept after something dropped from the same section |
| Budget.DropsNameSetLimits | crates/brolga-graph/src/budget.rs:327-336 | a drop only ever names a limit the caller set, so only those can be binding |
| Budget.FitSucceedsExactly | crates/brolga-graph/src/budget.rs:378-450 | success exactly when every required item is considered in time and the clamped required totals fit; a refusal always needed more than was available |
| Budget.TotalIgnoresOrder | crates/brolga-graph/src/budget.rs:378-395 | what items cost in a dimension does not depend on their order |
| Budget.SuccessIsAboutRequired | crates/brolga-graph/src/budget.rs:378-450 | with no deadline neither the order of the required items nor any optional item decides success |
| Budget.FittedMeans | crates/brolga-graph/src/budget.rs:311-340 | of the value handed back: every identifier once, kept or dropped, every required one kept, each limited figure the clamped exact total within what was requested, and a dimension binding exactly when a drop names it |
| Ranking.ArrangedIsStable | crates/brolga-graph/src/budget.rs:393-400 | every item is considered once: required ones before optional ones, and each kind in the order it was ranked, in places of the list handed in |
| Ranking.FittedInOrder | crates/brolga-graph/src/budget.rs:393-458 | kept and dropped identifiers are read off places of that list in the order considered, every place in exactly one of the two; under a nondecreasing clock, once an optional item is dropped every optional item ranked later in its section is |
| Ranking.FailureMeans | crates/brolga-graph/src/budget.rs:408-450 | a failure names the first required item, in rank order, that is considered too late or does not fit what the required ones before it left, with the deadline or the dimension, need and remainder |
| Ranking.LateMeans | crates/brolga-graph/src/budget.rs:408-419 | the deadline falls when the whole milliseconds elapsed reach the limit |
| Ranking.TimeIsReported | crates/brolga-graph/src/budget.rs:494-502 | the time reported is the last reading in whole milliseconds, beside the deadline asked for |
| Ranking.FirstIsNamed | crates/brolga-graph/src/budget.rs:514-556 | of several dimensions an item overflows, the first of tokens, bytes, objects and relationships is named |
| Dedup.Deduplicator.constructor | crates/brolga-graph/src/dedup.rs:226-231 | a deduplicator that has seen nothing |
| Dedup.Deduplicator.Observe | crates/brolga-graph/src/dedup.rs:238-269 | the decision is the judgement against the earlier observations of that record, and the two maps stay in step with the whole history |
| Dedup.Deduplicator.LineageFor | crates/brolga-graph/src/dedup.rs:273-275 | a record's lineage is a function of the observations of that record alone |
| Dedup.VerdictMeans | crates/brolga-graph/src/dedup.rs:297-370 | corroboration exactly when both bytes and publisher are new for the record; a duplicate or copy exactly when the bytes were seen |
| Dedup.EarliestDecides | crates/brolga-graph/src/dedup.rs:233-238 | the comparison is with the earliest match: whose bytes came first tells duplicate from copy, and the publisher's first version tells update from restatement |
| Dedup.LineageCounts | crates/brolga-graph/src/dedup.rs:256-264 | corroboration counts the novel observations once each, with no publisher listed twice, so the membership check never fires |
| Dedup.CorroborationIsBounded | crates/brolga-graph/src/dedup.rs:197-204 | at most the distinct publishers and at most the distinct byte strings, and at least one once anything was seen |
| Dedup.ReplaysAddNothing | crates/brolga-graph/src/dedup.rs:317-340 | bytes already seen, in any order, number and from anyone, are duplicates or copies and change neither corroborators nor versions |
| Dedup.VersionsAre | crates/brolga-graph/src/dedup.rs:248-254 | the versions kept are exactly what the first observation and the updates say, read off the observations |
| Dedup.VersionsRepeatExactly | crates/brolga-graph/src/dedup.rs:248-254 | for every history, no version is kept twice if and only if no observation that adds one says what an earlier such observation said |
| Dedup.RestatingAnUpdateCountsAgain | crates/brolga-graph/src/dedup.rs:342-361 | three observations by which one publisher's latest version is recorded twice |
| Dedup.OrderFreeExactly | crates/brolga-graph/src/dedup.rs:436-452 | corroboration is the same in every arrival order if and only if every observation's bytes have one publisher or its publisher one byte string |
| Dedup.OneSidedCountsGroups | crates/brolga-graph/src/dedup.rs:436-452 | under that condition any order counts the groups |
| Dedup.ChainOrderMatters | crates/brolga-graph/src/dedup.rs:436-452 | a chain of three linked observations counts one or two by whether its middle comes first |
| Dedup.OneOfferEach | crates/brolga-graph/src/dedup.rs:297-370 | when each publisher offers one byte string the count is the number of byte strings |
| Dedup.OnePublisherEach | crates/brolga-graph/src/dedup.rs:297-370 | when each byte string has one publisher the count is the number of publishers |
| Histories.DecisionNames | crates/brolga-graph/src/dedup.rs:297-370 | a decision names the record and the observation it is about, and is compared with nothing only when nothing came before |
| Histories.DecisionsInOrder | crates/brolga-graph/src/dedup.rs:238-269 | every observation has its decision, in the order offered, made against exactly those before it |
| Histories.OfInOrder | crates/brolga-graph/src/dedup.rs:238-275 | a record's observations are those of the whole history that name it, in its order |
| Histories.CorroboratorsInOrder | crates/brolga-graph/src/dedup.rs:256-264 | the corroborators are the publishers of the novel observations, in the order they came |
| Histories.VersionsInOrder | crates/brolga-graph/src/dedup.rs:248-254 | the versions are what the observations that add one say, oldest first |
| Confidence.OlderStandsNoHigher | crates/brolga-graph/src/decay.rs:338-360 | a record's standing never rises with age, stays at or above its floor and within 100 |
| Confidence.WeightedMean | crates/brolga-graph/src/confidence.rs:797-808 | the saturating loop computes the exact floor-divided mean, or none without weight |
| Confidence.SumsAreBounded | crates/brolga-graph/src/confidence.rs:797-806 | below some 42.9 million components, neither 64-bit sum can saturate |
| Confidence.MeanBetween | crates/brolga-graph/src/confidence.rs:792-808 | the mean lies between any bounds on the positively weighted scores |
| Confidence.MeanMonotone | crates/brolga-graph/src/confidence.rs:792-808 | raising scores never lowers the mean |
| Confidence.AddingMovesTowards | crates/brolga-graph/src/confidence.rs:792-808 | one more component moves the mean to between its old value and that component's score |
| Confidence.Gather | crates/brolga-graph/src/confidence.rs:636-716 | the known components, in order, with the scores the policy gives them |
| Confidence.Penalise | crates/brolga-graph/src/confidence.rs:729-751 | the penalties that apply and their saturating sum |
| Confidence.Assess | crates/brolga-graph/src/confidence.rs:635-789 | the derived figure from the components less the penalties, the penalties by the statuses that carry them, and the reported one with an operator's figure in its place when there is one |
| Confidence.OneMoreObservation | crates/brolga-graph/src/confidence.rs:300-309 | an observation adds one independent party when novel, and one discounted observation otherwise |
| Confidence.EveryObservationIsCounted | crates/brolga-graph/src/confidence.rs:300-309 | independent parties and discounted observations add up to the decisions |
| Confidence.FigureFollowsParties | crates/brolga-graph/src/confidence.rs:219-225 | the figure depends on a count only through independent parties, and not downwards on a ladder that never goes down |
| Confidence.CopiesDoNotRaiseConfidence | crates/brolga-graph/src/confidence.rs:286-299 | a non-independent observation leaves the derived breakdown unchanged; any observation leaves the figure no lower on a ladder that never goes down |
| Confidence.AgeNeverRaisesConfidence | crates/brolga-graph/src/confidence.rs:233-237 | the same evidence looked at later never reads more confident |
| Confidence.FigureMeans | crates/brolga-graph/src/confidence.rs:749-774 | a figure is asserted exactly when a known component carries weight; penalties only lower it and an operator's figure leaves the derived one alone |
| Figures.PlainFigureIs | crates/brolga-graph/src/confidence.rs:635-765 | a current, undisputed claim reads the weighted mean of the known figures, rounded down, from the inputs and the policy alone, and nothing when none of them has weight |
| Figures.PenaltiesAreDeducted | crates/brolga-graph/src/confidence.rs:729-765 | for any inputs: a contradiction takes its points off that figure, a revoked, superseded or expired status its own, both their sum or 255 if less, never below zero, and nothing else of the breakdown changes |
| Figures.BreakdownShows | crates/brolga-graph/src/confidence.rs:752-774 | beside a derived figure stand the scores of four components as the inputs give them |
| Figures.ComponentsAre | crates/brolga-graph/src/confidence.rs:636-716 | a component is reported exactly when its input is known, with the score the policy gives it and its own weight |
| Figures.StandingIs | crates/brolga-graph/src/decay.rs:338-360 | after k half-lives and r days: a hundred over two to the k, less its lost half in proportion to r, rounded down, and never below the floor |
| Figures.NeverStandsWhole | crates/brolga-graph/src/decay.rs:338-360 | a profile that never decays stands at 100 whatever the age |
| EditDistance.NextRow | crates/brolga-config/src/load.rs:281-303 | the inner loop fills the next row from the one before, with every read in bounds |
| EditDistance.Distance | crates/brolga-config/src/load.rs:266-308 | the two swapped rows compute the Levenshtein distance |
| EditDistance.LevAtMost | crates/brolga-config/src/load.rs:266-308 | the distance is at most the longer length, so no addition saturates |
| EditDistance.SomeScriptIsThatShort | crates/brolga-config/src/load.rs:265-308 | some script of insertions, deletions and substitutions has exactly that many edits |
| EditDistance.NoScriptIsShorter | crates/brolga-config/src/load.rs:265-308 | no script that reaches the other text has fewer |
| EditDistance.Compose | crates/brolga-config/src/load.rs:265-308 | two scripts in turn are one script with no more edits |
| EditDistance.Invert | crates/brolga-config/src/load.rs:265-308 | a script can be undone with as many edits |
| EditDistance.LevIsMetric | crates/brolga-config/src/load.rs:265-308 | zero exactly on equal texts, symmetric, and no longer than any detour |
| EditDistance.ClosestMeans | crates/brolga-config/src/load.rs:228-263 | a suggestion is made exactly when a plausible name is known, is plausible, and no plausible name is nearer, or as near and earlier |
| EditDistance.ClosestIgnoresOrder | crates/brolga-config/src/load.rs:249-250 | the order in which names are listed does not matter |
| EditDistance.PlausibleMeans | crates/brolga-config/src/load.rs:243-263 | a name is plausible within one edit up to four bytes, two up to eight and three beyond, and is neither empty nor the field itself |
| EditDistance.BeforeMeans | crates/brolga-config/src/load.rs:249-251 | among equally near names the one that sorts first by its first different character wins, and a name before those it begins |
| Layers.DottedExactly | crates/brolga-config/src/error.rs:41-52 | any two paths share a name if and only if they have the same pieces once leading empty keys are dropped and keys are cut at their dots, or one is the root and the other the one key that spells its name |
| Layers.DottedIsInjective | crates/brolga-config/src/error.rs:41-52 | paths of non-empty, dot-free keys are told apart once written, the root included, but for the one key that spells its name |
| Layers.ValidatedIsSafe | crates/brolga-config/src/model.rs:351-364 | keys that validation lets through are never written alike, so no two settings of an accepted configuration share a name |
| Layers.UsableMeans | crates/brolga-config/src/model.rs:351-364 | what validation accepts in a key: letters, digits, underscores and hyphens, by code point, and at least one |
| Layers.DotsCollide | crates/brolga-config/src/error.rs:41-48 | every key holding a dot, unless that dot begins the path, is written like two keys, whatever lies above and below it |
| Layers.EmptyKeysCollide | crates/brolga-config/src/error.rs:41-48 | an empty key at the top is not written, so every path shares its name with another |
| Layers.Attribution.Record | crates/brolga-config/src/layer.rs:114-116 | one entry set, all others kept |
| Layers.Attribution.SourceOf | crates/brolga-config/src/layer.rs:93-95 | among safe paths the dotted lookup is exactly the lookup by path |
| Layers.AttributeSubtree | crates/brolga-config/src/layer.rs:173-190 | exactly the leaves of the value are recorded for the layer, everything else kept |
| Layers.MergeValue | crates/brolga-config/src/layer.rs:142-170 | the merged tree, and exactly the paths the overlay wrote recorded for its layer |
| Layers.MergeObjects | crates/brolga-config/src/layer.rs:150-163 | the same for an object merged into an object, key after key |
| Layers.MergeKey | crates/brolga-config/src/layer.rs:153-161 | one overlay key: merged into what is under it, or put in as it is, with exactly what that wrote recorded |
| Layers.MergeLayers | crates/brolga-config/src/layer.rs:125-140 | the layers merged in order, and for every path the last layer that wrote it |
| Layers.LeafComesFrom | crates/brolga-config/src/layer.rs:142-170 | a leaf of a merge was written by the overlay just so, or was there before and left alone |
| Layers.EveryLeafIsAttributed | crates/brolga-config/src/layer.rs:119-140 | every leaf but the root is attributed to a layer holding exactly that value there, and for a leaf that is no object no later layer defines the path |
| Layers.EntryIsCurrentExactly | crates/brolga-config/src/layer.rs:149-170 | an attributed path was last written by the layer it names, and is still a leaf of the merged document if and only if no later layer replaces an object it lies in or puts a non-empty object in its place |
| Layers.AttributionCanBeStale | crates/brolga-config/src/layer.rs:149-170 | one stack for each way: an object replaced by a scalar, and an empty object that gains a key |
| Layers.CollectLeaves | crates/brolga-config/src/service.rs:259-268 | every leaf once, with its value |
| Layers.Explain | crates/brolga-config/src/service.rs:195-231 | one setting for each leaf of the configuration as it is encoded, with its value; for keys that can be told apart it names the layer that last wrote the path or falls back to the defaults, and for no leaf of the merged document does it fall back |
| Layers.MergeSelf | crates/brolga-config/src/layer.rs:142-170 | a document merged into itself is unchanged |
| Layers.MergeTwice | crates/brolga-config/src/layer.rs:142-170 | merging an overlay twice is merging it once |
| Layers.AssociatesExactly | crates/brolga-config/src/layer.rs:142-170 | for all three trees, merging associates if and only if a condition read off the trees holds |
| Layers.SameShapesAssociate | crates/brolga-config/src/layer.rs:142-170 | trees that agree on which common paths are objects associate |
| Layers.GroupingCanMatter | crates/brolga-config/src/layer.rs:142-170 | the smallest three trees that do not |
| Profiles.Walk | crates/brolga-config/src/profile.rs:541-574 | always ends; a chain exactly when following parents ends, a cycle with its trail when it comes back, an unknown parent with the profile that names it when it leaves the set |
| Profiles.Fold | crates/brolga-config/src/profile.rs:576-589 | the chain applied from its far end |
| Profiles.Resolve | crates/brolga-config/src/profile.rs:541-607 | a cycle reported, with its trail, exactly when the chain revisits a name, an unknown parent, with its heir, exactly when it leaves the set, never a contradiction, and otherwise the folded chain checked |
| Profiles.NeverContradictory | crates/brolga-config/src/profile.rs:591-606 | the contradiction check never fires |
| Profiles.OneChain | crates/brolga-config/src/profile.rs:541-574 | the chain of a profile is unique, so resolving has one answer |
| Profiles.NearestWins | crates/brolga-config/src/profile.rs:577-589 | each section, weight and allocation is that of the nearest profile stating one |
| Profiles.EnvironmentsAddUp | crates/brolga-config/src/profile.rs:580-588 | environments are the union along the chain, the description the nearest one written, or none |
| Profiles.ValidateMeans | crates/brolga-config/src/profile.rs:359-382 | a profile passes exactly when named, excluding nothing below the floor, and its twelve shares add up to at most 100, so any different sections do |
| Profiles.AllocatedIsSum | crates/brolga-config/src/profile.rs:373-379 | the total checked is the twelve sections' shares added up |
| Profiles.AllocatingAdds | crates/brolga-config/src/profile.rs:373-379 | nothing allocated totals zero, and a section that had no share raises the total by exactly what it gets |
| Profiles.SomeAtMostAll | crates/brolga-config/src/profile.rs:373-379 | any different sections together are allocated no more than the total |
| Profiles.RefusedFor | crates/brolga-config/src/profile.rs:359-382 | which error comes back and what it carries: no name; else the first section of the floor excluded; else the sum of the shares, over 100 |
| Profiles.BlankMeans | crates/brolga-config/src/profile.rs:359-362 | a name is missing when each of its characters is one of the code points Unicode calls white space |
| Profiles.ResolvedSays | crates/brolga-config/src/profile.rs:541-607 | a chain that ends resolves exactly when it is named, excludes nothing below the floor by its nearest rule and its twelve shares add up to at most 100; the result then has the nearest weight, 50 where there is none, the nearest allocation, and may drop exactly the sections above the floor that the nearest rule does not require |
| Query.CompiledNames | crates/brolga-query/src/compile.rs:22-88 | compiling succeeds exactly on `=`, `and` and groups over known names, and gives exactly the values named |
| Query.RefusedForFirst | crates/brolga-query/src/compile.rs:22-68 | an expression compiles exactly when every part joined by `and` does; otherwise the first part with something wrong decides the error |
| Query.NamesAreRead | crates/brolga-query/src/lib.rs:10-17 | the documented example compiles to that one kind and that one status |
| Query.SaysMeans | crates/brolga-cli/src/cli.rs:508-524 | a supported expression holds of an entity exactly when every value it names is the entity's own |
| Query.FilterNeverLoses | crates/brolga-query/src/compile.rs:22-88 | every entity an expression selects is admitted by its filter |
| Query.FilterAgreesExactly | crates/brolga-query/src/compile.rs:77-88 | filter and expression agree on every entity if and only if each field names at most one value |
| Escaping.HasUnescaped | fuzz/src/lib.rs:377-390 | the counting loop decides the oracle |
| Escaping.OracleMeans | fuzz/src/lib.rs:372-376 | the oracle finds a needle with an even run of backslashes directly before it |
| Escaping.Escape | crates/brolga-export/src/markdown.rs:666-683 | the loop computes the character-by-character escape |
| Escaping.MarkdownIsInert | crates/brolga-export/src/markdown.rs:648-683 | no active character is left unescaped, whatever follows; no line break is left; and unescaping gives the text back with its line breaks as spaces |
| Patterns.NineAreEscaped | crates/brolga-export/src/markdown.rs:648-683 | the nine characters Markdown reads in any column each get a backslash |
| Patterns.PlainStaysPlain | crates/brolga-export/src/markdown.rs:648-683 | text without them and without line breaks is left as it is |
| Patterns.BreaksAreSpaces | crates/brolga-export/src/markdown.rs:666-683 | a line feed and a carriage return each become a space |
| Escaping.TwoPassesAreOne | crates/brolga-export/src/stix.rs:359-361 | the two replacement passes are one pass |
| Escaping.LiteralReadsBack | crates/brolga-export/src/stix.rs:353-361 | no quote is left unescaped, and a reader at the opening quote gets the value and stops at the closing one |
| Escaping.TokenizesWord | crates/brolga-ingest/src/formats/stix_pattern.rs:252-270 | an object path is read as one word |
| Escaping.PatternReadsBack | crates/brolga-export/src/stix.rs:345-351 | for every value, Brolga's own reader takes the exported pattern as exactly one comparison with that path and that value |
| Patterns.OtherEscapesStay | crates/brolga-ingest/src/formats/stix_pattern.rs:218-230 | an escape other than of a quote or a backslash is kept as written |
| Patterns.AlternativesReadBack | crates/brolga-ingest/src/formats/stix_pattern.rs:281-367 | alternatives joined by `OR` are read as those alternatives, in order, whatever they quote, up to 64; one more refuses the whole |
| Patterns.ConjunctionsAreRefused | crates/brolga-ingest/src/formats/stix_pattern.rs:281-367 | a conjunction is refused whole |
| Grammar.ReadAsSpelled | crates/brolga-ingest/src/formats/stix_pattern.rs:170-278 | texts set apart by spaces are read as the tokens they spell: the sixteen reserved words in any case, other words as they stand, a literal as its value |
| Grammar.SaidIsRead | crates/brolga-ingest/src/formats/stix_pattern.rs:281-437 | comparisons with `OR` between them, in one pair of brackets, are read as their paths, quoted keys in quotes, and values, in order |
| Grammar.ReadExactly | crates/brolga-ingest/src/formats/stix_pattern.rs:281-437 | a pattern is read if and only if its tokens are one to 64 such comparisons and nothing else |
| Urls.PortReadsBack | crates/brolga-connectors/src/transport.rs:577-590 | a port printed in decimal is read back as itself |
| Urls.AcceptedMeans | crates/brolga-connectors/src/transport.rs:538-597 | what an accepted host never holds, and that its scheme is lower-case |
| Urls.AuthorityReadsBack | crates/brolga-connectors/src/transport.rs:634-639 | host and port written back are read as themselves if and only if the host has no leading bracket and no colon where the port is left out |
| Urls.PathStaysOnHost | crates/brolga-connectors/src/transport.rs:630-651 | a redirect to a path alone keeps scheme, host and port under exactly that condition |
| Urls.HostIsCutShort | crates/brolga-connectors/src/transport.rs:634-639 | what comes back instead: the part before the last colon, with the rest as its port |
| Urls.BracketsAreLost | crates/brolga-connectors/src/transport.rs:572-579 | every bracketed address whose last group reads as a port number is such a host |
| Urls.PathTakenForUrl | crates/brolga-connectors/src/transport.rs:630-633 | a rooted location holding `://` is returned as it is, whatever the base, and its scheme begins with a slash |
| Urls.HostNamedKeepsScheme | crates/brolga-connectors/src/transport.rs:641-643 | a location naming its own host keeps the base's scheme, or is not a URL |
| Urls.RedirectEndsUp | crates/brolga-connectors/src/transport.rs:630-651 | for every base and location: exactly which redirects are refused and for what, that a whole URL stands for itself, that a named host keeps the scheme, and that a rooted path stays on its host if and only if it holds no `://` and the host survives (for a base whose scheme does not begin with a slash) |
| Redirects.PathIsKept | crates/brolga-connectors/src/transport.rs:644-646 | what follows the authority of a rooted redirect's result is exactly the location, for every base that is a URL and every rooted location without `://` |
| Redirects.HostNamedIsKept | crates/brolga-connectors/src/transport.rs:641-643 | what follows `://` in the result is exactly the location after its two slashes |
| Redirects.RedirectIsTheOne | crates/brolga-connectors/src/transport.rs:630-651 | a URL is the result of a rooted redirect if and only if its scheme and authority are written as the base's are and the location follows |
| Redirects.AnotherSpelling | crates/brolga-connectors/src/transport.rs:577-590 | why the writing has to be fixed: for every such redirect another URL has the same scheme, host, port and remainder, with a zero before its port |
| Redirects.OnlyTheAuthorityCounts | crates/brolga-connectors/src/transport.rs:551-556 | a slash, a question mark or a number sign ends the authority, and nothing after it matters |
| Redirects.SchemeIsLower | crates/brolga-connectors/src/transport.rs:538-545 | the scheme is reported with its letters A to Z in lower case |
| Redirects.UsualPort | crates/brolga-connectors/src/transport.rs:560-570 | without a port `http` means 80 and everything else 443 |
| Redirects.AfterBrackets | crates/brolga-connectors/src/transport.rs:572-583 | after a bracketed address only a colon begins a port |
| Redirects.PortMeans | crates/brolga-connectors/src/transport.rs:577-590 | a port is read exactly from an optional plus sign and at least one digit, worth less than 65536 |
| Redirects.RefusedFor | crates/brolga-connectors/src/transport.rs:538-597 | what a URL is refused for, in the order it is read |

## Left out

Sync:
- HTTP, TAXII and GraphQL wire parsing, and storage internals. A server is what it holds and what it answers; ingest is an atomic transaction into a set, so a record quarantined inside an accepted page counts as stored.
- The `inserted` and `quarantined` counters of a report, failure to read the stored cursor at the start of a run, and construction errors for the media type and the publisher name.
- More than one feed: connector and feed keys are not modelled. Stamps are integers, and tokens and tags are numbers.
- `bounded_publisher`: a truncation to a byte limit, with no property that spans operations.

Budget:
- Token estimation, `variance`, and the depth limit, which `fit` does not enforce. Clock readings are a sequence given to `Fit`, in nanoseconds.

Dedup and confidence:
- Digests are opaque numbers; reason strings and algorithm labels are left out.
- Contradictions found between claims, evidence text, `needs_recalculation` and the policy digest; `assess` is given whether a contradiction stands, the age in days and the stance score.
- The decay policy's choice of profile by kind, the anchors it dates a record from, and the ledger of state changes.

Configuration:
- Parsing YAML and JSON, depth and anchor checks, typed deserialisation and validation of the merged document.
- Explain: takes the encoded configuration as it comes, whatever it holds; how serde derives it from the merged document is not modelled, nor is the rendering of values to text.
- ClosestMeans: takes the candidate names and their byte lengths, where the source picks them out of an error message.
- Key order: maps are walked in any order, and the results do not depend on it.

Profiles:
- The fingerprint, the plan listing and `validate_all`. The allocation sum is unbounded where the source adds in 32 bits. `Walk` requires profiles stored under their own names, as `insert` does.

Query:
- Lexing, parsing and their limits; the remaining fields of an entity. Which of two last-seen bounds a merge keeps is not stated: no expression sets one.

Escaping:
- The rest of the exporters. The pattern reader is modelled as functions, without its 4096-byte limit and without canonicalising the value it reads; refusals carry no text. `HasUnescaped` counts without a bound, where the source saturates.

URLs:
- `fetch` and its redirect loop, the network policy and name resolution.
