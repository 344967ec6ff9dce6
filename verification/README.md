# A verified model of the correlation and profiling core

The system collects log records from the layers a web request passes (edge, bot management, application
firewall, origin), joins the records of one request into a flow, and learns from finished flows what the
endpoints of a site normally look like. This project models that core in Dafny and proves what it keeps, over
every input and every run:

- **Correlation.** A record carries several identifiers. Records are grouped by shared identifiers, transitively,
  in one batch with a union-find (`Grouping`, `UnionFind`) and online with an identifier index over open windows
  (`Correlation`, `Pipelining`, `Windowing`). `OnlineBatch` shows the two agree, `WindowKeys` which windows have the
  name the batch would give them, `Conservation` that no event is lost or filed twice, `Deadline` and `Arrivals` that
  every window is taken in time and none too early. Records without identifiers are joined by attributes and time
  (`Heuristics`).
- **Materialization.** The events of a window become one flow: causal order and clock skew (`Ordering`), outcome,
  coverage and completeness (`Materializing`, `Closing`; `FlowLaws` says what each field means), and the merge of a
  late flow with the stored one (`LateCorrection`).
- **Profiling.** An engine learns path templates in place and re-keys what it knows when a position collapses
  (`Templating`, `Collapsing`, `Deciding`, `Evidences`). The aggregator folds observations into endpoint profiles
  and moves profiles when their template changes (`Aggregating`, with its books as values in `Accounting`, `Remaking`
  and `Ledger`; `Profiles`, `Parameters`). `Histories` says of every run that each profile is exactly that of the
  flows it was told (`Summaries`, `Tallies`), `EvidenceLaws` what a position decides on the values it saw,
  `MergeOrder` when merging two profiles has one result, `Truncation` that a profile cut short says so, `Presence`
  what a parameter's counters count. The worker acknowledges messages when the store covers them (`Profilerd`).
  `Forgetting` and `Returning` are runs that show where this fails.
- **Two small algorithms** of the surrounding services: the sliding-window rate limiter (`RateLimiting`) and the
  batch splitter (`SplitBatch`).

Objects the program updates in place are classes with the same fields; each of their methods is tied to a function
or a relation on values, and the laws are proved about those. Times are integers in nanoseconds with 0 for the
zero time. Methods that only put other methods together hide all function bodies (`hide *`), which keeps their
proofs small.

## Model

| member | source | states |
|---|---|---|
| UnionFind.Forest.Climb | backend/internal/correlate/group/unionfind.go:25-30 | climbing parents from an identifier reaches the one representative its class has, in at most log2 of the number of identifiers steps |
| UnionFind.Forest.Compress | backend/internal/correlate/group/unionfind.go:31-35 | points every identifier on the climb straight at its root and changes no other parent; the same identifiers keep the same representatives and the forest stays well formed |
| UnionFind.Forest.Find | backend/internal/correlate/group/unionfind.go:24-37 | returns the class's representative and changes no class; an unknown identifier becomes a class of its own |
| UnionFind.Forest.Link | backend/internal/correlate/group/unionfind.go:39-52 | after linking, two identifiers share a representative exactly when a chain of all links made so far connects them; ranks stay small enough for the climbing bound |
| Chains.Equivalence | backend/internal/correlate/group/bridge.go:36-49 | being connected by shared identifiers is an equivalence |
| Chains.OrderIrrelevant | backend/internal/correlate/group/bridge.go:49-62 | connection depends only on which identifier groups there are, not on their order |
| Identifiers.StringThenParse | backend/internal/correlate/group/bridge.go:131-141 | parsing a rendered identifier gives it back if and only if its namespace holds no colon |
| Identifiers.ParseThenString | backend/internal/biz/flow/pipeline.go:451-456 | rendering a parsed identifier gives the text back, or the text with a colon before it when it has none |
| Identifiers.Canonical | backend/internal/correlate/keys/identifiers.go:87-97 | the canonical id exists exactly for a non-empty set and is its least member, bytewise |
| Grouping.Exact | backend/internal/correlate/group/bridge.go:46-129 | the components are exactly one per class of connected identifiers: its events sorted, its providers, its least identifier as key, bridged when it spans providers and some record has several identifiers; sorted by key |
| Grouping.SharesComponent | backend/internal/correlate/group/bridge.go:36-62 | every record with an identifier is in a component, and two records are in the same one if and only if their identifiers are connected transitively |
| Grouping.PermutationInvariant | backend/internal/correlate/group/bridge.go:124-129 | reordering the records does not change the result |
| Grouping.EventsConserved | backend/internal/correlate/group/bridge.go:72-91 | the components together hold each record with an identifier exactly as often as it was given |
| Grouping.ComponentIs | backend/internal/correlate/group/bridge.go:72-121 | a component names the events and the providers of exactly its records, in order, each provider once, and is bridged if and only if it spans providers and some record of it carries several identifiers |
| Grouping.ComponentNamed | backend/internal/correlate/group/bridge.go:100-121 | its key is the least identifier its records carry |
| Correlation.AcceptKeeps | backend/internal/biz/flow/pipeline.go:204-219 | accepting an event keeps the pipeline's invariant: window keys are their own identifiers, every indexed identifier is carried by its window, every filed event's identifiers are owned by its one window, marks and pending records are consistent |
| Correlation.FileFirstKeeps | backend/internal/biz/flow/pipeline.go:226-285 | filing one record keeps it, also when the record bridges several windows |
| Correlation.FlushKeeps | backend/internal/biz/flow/pipeline.go:323-357 | closing every due window keeps it |
| Pipelining.Pipeline.Accumulate | backend/internal/biz/flow/pipeline.go:203-219 | the in-place state becomes the accepted state; a redelivered event changes nothing |
| Pipelining.Existing | backend/internal/biz/flow/pipeline.go:239-245 | exactly the open windows that own some identifier of the record |
| Pipelining.ChooseWindow | backend/internal/biz/flow/pipeline.go:247-272 | the record's key is its own least identifier, or the least of the windows it touches, into which all of those have been folded |
| Pipelining.MergeAll | backend/internal/biz/flow/pipeline.go:264-271 | folding the windows in any order leaves their union under the key, with all their identifiers and marks |
| Pipelining.MergeKeyState | backend/internal/biz/flow/pipeline.go:301-315 | the index and its reverse stay inverse, the source's identifiers and mark go to the destination |
| Pipelining.CanonicalOf | backend/internal/biz/flow/pipeline.go:289-299 | the least key, whatever the order of the set |
| Pipelining.Own | backend/internal/biz/flow/pipeline.go:278-284 | hands the record's identifiers to its window; the index and its reverse stay inverse |
| Pipelining.Pipeline.FileRecord | backend/internal/biz/flow/pipeline.go:226-285 | the in-place steps for one record are one filing step of the value specification |
| Pipelining.Pipeline.Correlate | backend/internal/biz/flow/pipeline.go:222-287 | files every pending record in order: the index, its reverse, the marks, the windows and the events are what the value specification says |
| Pipelining.Pipeline.Flush | backend/internal/biz/flow/pipeline.go:323-357 | takes out exactly the due windows with their identifiers, marks and events, and returns for each, in key order, the flow its events make |
| Flushing.FlushedFlow | backend/internal/biz/flow/pipeline.go:328-343 | a flushed flow holds its window's events, each once, under the window's name; it is of the exact tier unless the name marks a heuristic join, bridged if and only if one of the events carries several identifiers, and closed now |
| Flushing.ExactUnlessHeuristic | backend/internal/biz/flow/pipeline.go:434-441 | a window name is of the heuristic tier if and only if its namespace is the one heuristic keys have |
| Windowing.Window.Add | backend/internal/correlate/window/window.go:62-83 | adds the event to its window, new or not; an event id it holds already changes nothing |
| Windowing.Window.Merge | backend/internal/correlate/window/window.go:180-220 | unites two windows by event id, with the earlier arrival, and removes the source |
| Windowing.Window.Ready | backend/internal/correlate/window/window.go:85-119 | removes exactly the due windows and returns them closed, in key order |
| Windowing.DueForgetsOrder | backend/internal/correlate/window/window.go:98-113 | whether a window is due depends only on which events it holds, not on their order |
| OnlineBatch.OnlineIsBatch | backend/internal/biz/flow/pipeline.go:93-98 | over any run of arrivals and correlations, two records are in the same open window if and only if batch grouping puts them in the same component |
| OnlineBatch.BridgedExactly | backend/internal/biz/flow/pipeline.go:274-276 | after any run a window is marked bridged if and only if it is open and holds an event with several identifiers |
| OnlineBatch.WindowsDisjoint | backend/internal/biz/flow/pipeline.go:93-99 | two open windows never share an identifier |
| OnlineBatch.UnknownOpensFresh | backend/internal/biz/flow/pipeline.go:249-255 | a record with only unknown identifiers opens a window of its own and changes no other |
| WindowKeys.FilingKeepsLeastExactly | backend/internal/biz/flow/pipeline.go:247-272 | while every window is named by the least identifier it owns, filing a record keeps that if and only if the record opens a window or none of its identifiers sorts before the least window it touches |
| WindowKeys.KeepsFirstName | backend/internal/biz/flow/pipeline.go:256-259 | a window opened under ray:b keeps that name when a record with ray:a and ray:b joins it |
| Conservation.EventsConserved | backend/internal/biz/flow/pipeline.go:204-357 | over any run, each accepted event with identifiers is pending, in an open window, or taken by a flush, as often as it was accepted |
| Conservation.ExactlyOnePlace | backend/internal/biz/flow/pipeline.go:83-100 | each remembered event with identifiers is pending or in a window, never both, and never in two |
| Conservation.FiledExactly | backend/internal/biz/flow/pipeline.go:226-230 | after a correlation a remembered event is in a window if and only if it has identifiers |
| Conservation.UnnamedForEver | backend/internal/biz/flow/pipeline.go:226-230 | an event without identifiers, once accepted, is remembered through every run: no flush takes it |
| Deadline.TakenByDeadline | backend/internal/correlate/window/window.go:106-110 | a pending event is taken by a flush no later than the first one that runs the late-arrival bound after its correlation, whatever merges happen in between |
| Deadline.WaitsUntilTaken | backend/internal/correlate/window/window.go:186-213 | merging never pushes a window's deadline back: a filed event waits in a window that is due by then until a flush takes it |
| Deadline.FlushTakesExactly | backend/internal/correlate/window/window.go:98-167 | a flush takes a window if and only if its records name enough layers, or a known layer stopped the request, no other that did is above it, and every layer down to it has a record, or the late-arrival bound has run; the others stay as they are |
| Deadline.TakenExactly | backend/internal/biz/flow/pipeline.go:323-357 | an event is taken by a flush if and only if its window is one of those |
| Arrivals.WindowsArrive | backend/internal/correlate/window/window.go:62-83 | over every run whose clock does not run backwards, a window arrived when the first of its events was filed and was last added to when the last was |
| Arrivals.TakenForAgeExactly | backend/internal/correlate/window/window.go:106-110 | so a window that is not complete is taken if and only if one of its events was filed the late-arrival bound ago or longer |
| Ordering.OrderForgetsArrival | backend/internal/correlate/order.go:23-50 | with distinct event ids the causal order depends only on which events there are |
| Ordering.DetectSkew | backend/internal/correlate/order.go:52-80 | reports skew exactly when an adjacent pair of different known layers runs backwards in time, and the widest such gap |
| Ordering.SkewIsDisorder | backend/internal/correlate/order.go:52-80 | looking only at neighbours is enough: in causal order, skew is reported if and only if the known-layer events are out of time order anywhere |
| FlowLaws.EventsInOrder | backend/internal/correlate/order.go:11-50 | a flow holds its events as often as given: known layers first, by their place on the request path, within a layer by time and then by id |
| Materializing.Materialize | backend/internal/biz/flow/materialize.go:46-90 | the flow is the function of the ordered events that the other rows describe; no events give no flow |
| Materializing.MaterializeForgetsArrival | backend/internal/biz/flow/materialize.go:41-45 | reprocessing the same events in another order yields an identical flow |
| Materializing.ResolveOutcome | backend/internal/biz/flow/materialize.go:177-193 | the first terminating event in causal order decides, otherwise the last event does |
| FlowLaws.FirstStopDecides | backend/internal/biz/flow/materialize.go:177-193 | the outcome and the terminating layer are those of the terminating event that no other comes before |
| FlowLaws.LastDecides | backend/internal/biz/flow/materialize.go:177-193 | when no event terminates, the outcome is that of the event that comes after all others, and no layer is named |
| Materializing.CompletenessBoundary | backend/internal/biz/flow/materialize.go:105-124 | the deepest of: the deepest known layer seen, the stop, and the origin when nothing stopped the request or served it from cache |
| Materializing.LayerCoverage | backend/internal/biz/flow/materialize.go:162-175 | splits the expected layers, in their order, into those with a record and those without |
| FlowLaws.LayersSplit | backend/internal/biz/flow/materialize.go:145-175 | of the expected layers the known ones down to the flow's reach are split, in their order, by whether an event reports them |
| FlowLaws.SeenSpan | backend/internal/biz/flow/materialize.go:301-316 | first and last seen are the extreme times of the events that have one |
| FlowLaws.TimeAttributed | backend/internal/biz/flow/materialize.go:195-208 | a layer's time is the sum of its records' positive durations, and only layers with one have a time |
| FlowLaws.FirstAttributeWins | backend/internal/biz/flow/materialize.go:210-243 | each attribute of client and request is the first in causal order that is not empty |
| FlowLaws.Labels | backend/internal/biz/flow/materialize.go:46-62 | key, tenant, tier and mark are the caller's, a closed flow says when, and a new flow is not amended |
| FlowLaws.FlowIDsDiffer | backend/internal/biz/flow/materialize.go:318-321 | different keys have different flow ids |
| FlowLaws.FlagsCarried | backend/internal/biz/flow/materialize.go:281-299 | a flow carries, each once, the flags of its events, skew if and only if two events of known layers are out of time order, and how it was joined |
| FlowLaws.Trusted | backend/internal/biz/flow/materialize.go:245-279 | a flow is ambiguous if and only if it has no join, partial if and only if it is closed with a layer missing, and its score is its tier's |
| FlowLaws.CacheStatuses | backend/internal/biz/flow/materialize.go:126-142 | which statuses of the edge's cache, in any case, mean that it answered |
| Materializing.PropagateFlags | backend/internal/biz/flow/materialize.go:281-299 | the loops collect the flags the two next rows describe |
| Materializing.EventFlagsOnce | backend/internal/biz/flow/materialize.go:284-289 | the flags collected are exactly those of the events, each once |
| Materializing.FlowFlagsOnce | backend/internal/biz/flow/materialize.go:284-299 | a flow carries each flag of its events once, and skew, heuristic and bridged exactly as they apply |
| Materializing.ConfidenceExactly | backend/internal/biz/flow/materialize.go:79-88 | the score is that of a flow without flags; it is the one its flags call for if and only if the join is not heuristic or no skew was seen or reported |
| Materializing.SkewedButTrusted | backend/internal/biz/flow/materialize.go:263-279 | a heuristic flow of an edge record and an earlier origin record carries the skew flag and the confidence of one without it |
| Closing.IsTerminallyComplete | backend/internal/correlate/window/window.go:143-167 | one pass over the unsorted events decides whether the shallowest stop and every layer above it have reported |
| Closing.HasEveryLayer | backend/internal/correlate/window/window.go:121-128 | counts the distinct layers of the events |
| Closing.TerminationAgrees | backend/internal/correlate/window/window.go:139-156 | the shallowest stop the window computes is the terminating layer the flow reports |
| Closing.StoppedFlowComplete | backend/internal/correlate/window/window.go:130-142 | a flow closed by a stop is Complete if and only if no expected layer down to its deepest record is missing |
| Closing.NothingDeeperIsComplete | backend/internal/correlate/window/window.go:130-142 | with nothing below the stop it is always Complete |
| Closing.DeeperRecordLeavesGap | backend/internal/biz/flow/materialize.go:92-104 | an edge block with an origin record closes the window and is Partial |
| Closing.GapIsPartial | backend/internal/biz/flow/materialize.go:245-258 | a missing expected layer at or above the deepest record always makes a closed flow Partial |
| Closing.StoppedIsNamed | backend/internal/biz/flow/materialize.go:105-124 | a flow names a terminating layer if and only if the event that terminates first, by layer, time and id, carries one |
| Closing.AnyStopIsNamed | backend/internal/biz/flow/materialize.go:177-193 | when every event carries a layer, there is such a stop if and only if some event terminates |
| Closing.ClosedFlowComplete | backend/internal/biz/flow/materialize.go:64-80 | however its window closed, a joined flow is Complete if and only if every expected known layer down to its reach has reported; the reach is read off the events |
| Closing.ReachExactly | backend/internal/biz/flow/materialize.go:92-142 | with named layers the reach is the deepest known layer with a record when some event terminates or the edge answered from its cache, and the origin otherwise |
| Closing.CountedAreReported | backend/internal/correlate/window/window.go:121-128 | four distinct layers, all known, are the four layers of the request path |
| Closing.CountedLayersComplete | backend/internal/biz/flow/pipeline.go:40-43 | a window closed by its layer count gives a Complete flow when all its layers are known, whatever layers the flow expects |
| Closing.PathFlowComplete | backend/internal/biz/flow/materialize.go:64-80 | where the whole path is monitored, a closed flow is Complete if and only if every layer down to its reach has reported |
| Closing.UnknownLayerCounts | backend/internal/correlate/window/window.go:121-128 | the count does not look at which layers it counts: a record of an unknown layer, which no parser makes, could stand in for a missing known one |
| LateCorrection.MergeWithStored | backend/internal/biz/flow/pipeline.go:571-610 | the stored flow's events with the late ones it lacks, materialized again and marked amended; the stored flow itself when there is nothing new |
| LateCorrection.GrowthIsMarked | backend/internal/biz/flow/pipeline.go:571-610 | a stored flow that gains events keeps its tier, is marked amended, closed now, bridged if either part was, and holds the events of both; one that gains none stays as it is |
| LateCorrection.NeverSplit | backend/internal/biz/flow/pipeline.go:63-69 | a request closed in two parts and merged has the same essence as if all its events had closed together |
| LateCorrection.MergeTwice | backend/internal/biz/flow/pipeline.go:592-594 | merging the same late flow again changes nothing |
| LateCorrection.MergedIDs | backend/internal/biz/flow/pipeline.go:576-591 | the merged flow holds each event id of either flow exactly once |
| Heuristics.Heuristic | backend/internal/correlate/group/heuristic.go:43-97 | the result is, for the keys in order, each key's records cut into runs and each run dropped, joined or reported ambiguous, with a non-positive window meaning five seconds |
| Heuristics.RunsJudged | backend/internal/correlate/group/heuristic.go:73-97 | there is a component for every run of two or more records with one provider each, and for no other; an id is ambiguous if and only if it is in a run of two or more with a provider twice |
| Heuristics.NamedExactly | backend/internal/correlate/group/heuristic.go:73-97 | with distinct ids a record of a run of two or more is named once, joined or ambiguous, and any other not at all |
| Heuristics.ComponentIs | backend/internal/correlate/group/heuristic.go:128-152 | a component has the ids of its run in order, the first of them in its key, the heuristic tier, and the providers of the run, each once |
| Heuristics.OrderedIs | backend/internal/correlate/group/heuristic.go:59-72 | the records of one key, as often as given, in order of time and then of id |
| Heuristics.KeyedExactly | backend/internal/correlate/group/heuristic.go:156-163 | a record is keyed if and only if it has client, host, path, method and time; the method counts in any case |
| Heuristics.ClustersPartition | backend/internal/correlate/group/heuristic.go:99-113 | the runs in order are the bucket; gaps inside a run are at most the window, gaps between runs larger |
| Heuristics.ClusterByTime | backend/internal/correlate/group/heuristic.go:101-113 | computes those runs in one pass |
| Heuristics.HasDuplicateProvider | backend/internal/correlate/group/heuristic.go:115-126 | true exactly when two records of the run have one provider |
| Heuristics.JoinsAlike | backend/internal/correlate/group/heuristic.go:31-42 | every component joins records of the input with one key text, each within the window of the one before, no two of one provider |
| Heuristics.SameKeySameRequest | backend/internal/correlate/group/heuristic.go:157-162 | of records without a bar in client, host and path, two have one key text if and only if they agree on client, host, path and upper-cased method |
| Heuristics.JoinsOneRequest | backend/internal/correlate/group/heuristic.go:31-32 | so such records that a component joins share client, host, path and method |
| Heuristics.BarsConfuse | backend/internal/correlate/group/heuristic.go:157-162 | with a bar in the host or the path two different requests can have one key text |
| Heuristics.OneRecordPerProvider | backend/internal/correlate/group/heuristic.go:38-40 | every component has as many providers as events, and at least two |
| Heuristics.JoinedOnce | backend/internal/correlate/group/heuristic.go:74-89 | with distinct event ids no id is in two components, twice in one, or both joined and ambiguous |
| Heuristics.InputOrderIrrelevant | backend/internal/correlate/group/heuristic.go:59-72 | with distinct event ids the result does not depend on the order of the records |
| ValueTypes.JoinIsLeast | backend/internal/profile/types.go:130-159 | Join is the least upper bound of the widening order on types |
| ValueTypes.JoinAssociates | backend/internal/profile/types.go:136-159 | Join is associative, so a learned type does not depend on grouping |
| ValueTypes.MatchesExactly | backend/internal/profile/types.go:185-194 | a value belongs under {var}, and under another type if and only if its own may be widened to it |
| ValueTypes.TokenThenParse | backend/internal/profile/types.go:173-183 | a rendered token parses back to the type's name and holds no slash |
| ValueTypes.TokensDiffer | backend/internal/profile/types.go:173-174 | different types have different tokens |
| Paths.SplitPath | backend/internal/profile/template.go:89-100 | the non-empty segments of a path |
| Paths.JoinThenSplit | backend/internal/profile/template.go:91-108 | rendering segments and splitting them again loses nothing |
| Paths.SplitThenJoin | backend/internal/profile/template.go:89-108 | paths that differ only in extra slashes have the same segments |
| Paths.KeyBelow | backend/internal/profile/template.go:309-319 | the program's textual prefix test on keys is the prefix test on segments, and what it cuts off is the rest |
| Evidences.Decide | backend/internal/profile/template.go:235-259 | what a position's evidence decides: a dominant promotable type, the first by name; else {var} past the cap with enough, mostly single values; else nothing |
| Evidences.DominantType | backend/internal/profile/template.go:280-299 | a promotable type covering its share, the first by name, or none exactly when there is none |
| Evidences.VariableEnough | backend/internal/profile/template.go:261-278 | whether at least the given share of the kept values was seen once |
| Evidences.SeenSane | backend/internal/profile/template.go:221-233 | one more value keeps a position sane: its type counts add up to its count, and overflow is set exactly when some value was not kept |
| Evidences.MergesSane | backend/internal/profile/template.go:377-395 | so does merging two positions |
| EvidenceLaws.ValuesKept | backend/internal/profile/template.go:221-233 | of the values seen at a position those kept are counted exactly; all are kept until there is one more than the cap allows, and overflow says when that was |
| EvidenceLaws.TypesCounted | backend/internal/profile/template.go:221-222 | its count and its type counts are the numbers of the values seen |
| EvidenceLaws.DecidesOnValues | backend/internal/profile/template.go:235-299 | what it decides, said of the values seen: nothing before enough; then the first type by name among those covering their share, given enough different values; otherwise {var} if there are too many different ones, enough visits, and mostly single values |
| EvidenceLaws.VocabularyStays | backend/internal/profile/template.go:261-266 | a position where every value was seen again and no type covers its share decides nothing, however many values there are |
| Collapsing.CollapseKeepsEvidence | backend/internal/profile/template.go:301-351 | a collapse keeps the counts of all positions but the collapsed one, in all and per type |
| Collapsing.MoveOne | backend/internal/profile/template.go:341-351 | moving one position's evidence to its new key keeps the account exact |
| Collapsing.TemplatedExactly | backend/internal/profile/template.go:143-170 | each segment of a path becomes the parameter decided below the template so far if its type may be widened to that, and stays what it is otherwise |
| Collapsing.RenormalizedExactly | backend/internal/profile/template.go:172-192 | a template's segments do the same, and its tokens stay |
| Collapsing.EvidenceFollowsTemplate | backend/internal/profile/template.go:307-332 | the key evidence below a collapsed position moves to is the one renormalizing under that decision gives |
| Collapsing.RenormalizeTwice | backend/internal/profile/template.go:172-192 | renormalizing a template twice is renormalizing it once |
| Collapsing.NormalizedIsFixed | backend/internal/profile/template.go:143-192 | the template a path is mapped to is a fixed point of renormalizing |
| Collapsing.RevertsExactly | backend/internal/profile/template.go:304-306 | deciding a position anew makes a retired literal a literal again if and only if its type widens to the first decision and not to the second |
| Deciding.MoveDecisions | backend/internal/profile/template.go:357-374 | collects the decisions the new parameter takes over, sorts them by old key and moves them in that order |
| Deciding.HeldIsLub | backend/internal/profile/template.go:367-374 | after the moves every decision is the least upper bound of those it stands for |
| Deciding.RedecidedExactly | backend/internal/profile/template.go:353-374 | each decision is joined with all others sent to its key if and only if every decision moved onto a self-moving key before it widens to what that key keeps |
| Deciding.DecisionsLostExactly | backend/internal/profile/template.go:366-374 | the same in terms of the decisions alone: one is lost exactly when it sorts before a key that moves onto itself, moves onto it, and does not widen to that key's type joined with those arriving later |
| Deciding.DecidedSegments | backend/internal/profile/template.go:309-332 | re-keying keeps every key a list of segments, which the condition above compares by their text |
| Deciding.LastKeepsItsOwn | backend/internal/profile/template.go:367-374 | when none arrives later, what such a key keeps is its own type |
| Deciding.UnclaimedRedecides | backend/internal/profile/template.go:353-374 | with no key that moves onto itself nothing is lost |
| Templating.SegStat.Add | backend/internal/profile/template.go:221-233 | one more value, counted under its type, kept while there is room or it is known |
| Templating.SegStat.Absorb | backend/internal/profile/template.go:383-394 | adds the other position's counts exactly; which new values a full position keeps is left open |
| Templating.Engine.Observe | backend/internal/profile/template.go:213-259 | the position's evidence grows by the value; if that decides it, the decision stands, the evidence below moves to its new keys and the decisions below follow |
| Templating.Engine.Collapse | backend/internal/profile/template.go:301-375 | the decision at the prefix, the evidence below it re-keyed with nothing lost, the decisions below it moved |
| Templating.Engine.Normalize | backend/internal/profile/template.go:143-170 | the result is what the decisions left behind say of the path, also when several positions collapsed on the way; what the engine knows goes through one step per segment, which changes nothing where the position takes the segment over and records it elsewhere, and a collapse is reported if and only if some step decided its position |
| Templating.Engine.Renormalize | backend/internal/profile/template.go:172-192 | maps a template through the decisions, tokens unchanged, and records nothing |
| Forgetting.ForgettingRun | backend/internal/profile/template.go:366-374 | a new engine, shown four short paths, reaches decisions of which a collapse loses one |
| Forgetting.RevertingRun | backend/internal/profile/template.go:61-67 | a new engine decides "/7" to be "/{int}" and, after the path of a UUID, to be a literal again |
| Scopes.Registry.Normalize | backend/internal/profile/aggregator.go:132-139 | shows the path to its scope's engine, made on first use, and maps it; no other scope's decisions and evidence change |
| Parameters.ParamProfile.Observe | backend/internal/profile/aggregator.go:349-381 | the in-place update of one parameter is the observing function on values |
| Parameters.ParamProfile.MergeWith | backend/internal/profile/profile.go:196-230 | merging in place, whatever the order of the other's values, is the merging function on values |
| Parameters.ProfileIsHomomorphism | backend/internal/profile/profile.go:121-124 | profiling two stretches of requests one after the other is profiling each and merging |
| Parameters.MergeCommutes | backend/internal/profile/profile.go:121-124 | merging parameters is commutative |
| Parameters.MergeAssociates | backend/internal/profile/profile.go:121-124 | and associative |
| Parameters.EstimateIsExact | backend/internal/profile/profile.go:43-47 | the enumeration overflows if and only if there are more distinct plain values than the cap; until then it lists exactly those and the estimate is their number, afterwards it is less |
| Summaries.ObservedSummary | backend/internal/profile/aggregator.go:349-381 | a parameter's baseline says exactly of its values: how many, the least type they all widen to, the shortest and the longest, the first and the last time, and the values that are no secret with how often each was seen, unless there are more than the cap; observing keeps that |
| Summaries.MergedSummary | backend/internal/profile/profile.go:196-230 | so does merging |
| Summaries.SummaryIsUnique | backend/internal/profile/profile.go:121-124 | two baselines of the same values differ at most in how many requests they counted |
| Profiles.EndpointProfile.Observe | backend/internal/profile/aggregator.go:211-324 | folding a request into an endpoint in place is the observing function on values, and its enumerations stay consistent |
| Profiles.EndpointProfile.MergeWith | backend/internal/profile/profile.go:125-194 | the merged endpoint holds both sides' evidence but for what a full cap refuses; of the cookie names those visited before the set was full, marked truncated if and only if others were cut off; its enumerations stay consistent |
| Tallies.CeilingsHighest | backend/internal/profile/profile.go:111-119 | a ceiling is at least each measurement of its kind and one of them |
| Tallies.TouchedTallied | backend/internal/profile/aggregator.go:211-324 | an endpoint's profile says exactly of its flows: how many, the first and the last time, the largest measurements, the providers, how often each status was seen, the names, and for each parameter its values; once marked truncated, no more than they had; one more flow keeps that |
| Tallies.MergedTallied | backend/internal/profile/profile.go:125-194 | so does merging two endpoints |
| Tallies.SameFlowsSameProfile | backend/internal/profile/profile.go:121-124 | two profiles of the same flows, neither marked truncated, differ at most in how many requests their parameters counted: in nothing else does the order of flows and merges show |
| Presence.TouchedCounters | backend/internal/profile/aggregator.go:274-323 | what one request does to the two counters of a parameter: each value counts in both, a request without it in one, and none before it was first seen |
| Presence.RequestsCountedExactly | backend/internal/profile/profile.go:45-49 | over all requests to an endpoint, the counters are the numbers of requests since the parameter was first seen and of those that carried it if and only if no request carried it twice |
| Presence.CountedTwice | backend/internal/profile/aggregator.go:304-309 | a single request that carries a parameter twice counts as two |
| Presence.ObservationsMergeExactly | backend/internal/profile/profile.go:121-194 | observing a request and then merging, or merging first, gives a parameter one number of observations if and only if the other endpoint has it after the request: where nothing is refused, if and only if it had it or the request carries it |
| Presence.MissedBySplit | backend/internal/profile/aggregator.go:317-323 | a request to an endpoint that never saw a parameter is not counted for it when that endpoint is merged into one that did |
| Profiles.TouchedSound | backend/internal/profile/aggregator.go:328-382 | observing a request keeps every parameter's enumeration one that merging may rely on |
| Profiles.MergedSound | backend/internal/profile/profile.go:177-194 | so does merging two endpoints |
| Profiles.BelowCapsExact | backend/internal/profile/profile.go:121-125 | while no cap is reached a merge loses nothing, so its result is determined |
| Profiles.CombinedCommutes | backend/internal/profile/profile.go:123-124 | below the caps the order of merging does not matter |
| Profiles.CombinedAssociates | backend/internal/profile/profile.go:123-124 | nor does its grouping |
| MergeOrder.MergeCommutesExactly | backend/internal/profile/profile.go:121-194 | merging either profile into the other gives one result, whatever the order maps are ranged over, if and only if cookie names, statuses and parameters each fit together or are the same on both sides, and the cookie cap is not reached at a shared name, or a side is marked already |
| MergeOrder.EitherName | backend/internal/profile/profile.go:151-160 | with room for one cookie name and two coming, which one is kept is open |
| Truncation.TouchedHolds | backend/internal/profile/aggregator.go:236-257 | observing a request keeps an endpoint within its caps, and unless it marks it truncated every cookie name, status and parameter of the request is held |
| Truncation.MergedHolds | backend/internal/profile/profile.go:151-194 | so does merging two endpoints |
| Truncation.TouchedMarks | backend/internal/profile/aggregator.go:236-257 | a request marks an endpoint if and only if the endpoint afterwards lacks one of its cookie names, its status or one of its parameters |
| Ledger.CountGone | backend/internal/profile/aggregator.go:417-419 | the per-tenant and per-host counters stay the numbers of live endpoints when one is merged away, and they are positive before |
| Ledger.RetemplatedIsFixed | backend/internal/profile/aggregator.go:398-402 | the id an endpoint moves to is a fixed point of what its scope has decided |
| Ledger.OtherScopesFixed | backend/internal/profile/aggregator.go:384-393 | what one scope decides leaves the other scopes' templates fixed points, so one pass over that scope suffices |
| Accounting.PassStep | backend/internal/profile/aggregator.go:393-422 | looking at one more id of the scope keeps the pass: it is a fixed point, or its profile moves to one and is merged into what is there, it is retired, and what was dirty follows |
| Remaking.RemadeMove | backend/internal/profile/aggregator.go:393-422 | after each move every profile is the merge, one after the other, of exactly those whose templates have become its own |
| Remaking.RemadeKeys | backend/internal/profile/aggregator.go:393-422 | after the pass an id is live if and only if some live id has become it |
| Aggregating.Aggregator.constructor | backend/internal/profile/aggregator.go:90-111 | an empty, valid aggregator with empty books; zero caps and zero template options mean the defaults |
| Aggregating.Aggregator.Observe | backend/internal/profile/aggregator.go:141-209 | a flow id seen before changes nothing but a counter; otherwise the path is shown to its scope's engine alone, each profile becomes the merge of those whose templates became its own, the flow goes to the endpoint its path is mapped to, which is told its path parameters first, if it is live or fewer endpoints are live than either cap allows; the whole new state of the books is stated, they balance, every live template is a fixed point, and no id a collapse retired is live |
| Histories.ProfilesAreTheirHistories | backend/internal/profile/aggregator.go:141-423 | over every run of the aggregator each live endpoint's profile is that of exactly the flows told to it, to it directly or to the endpoints merged into it, and every flow that was new and found room was told to exactly one live endpoint |
| Histories.NeverCrossesScopes | backend/internal/profile/aggregator.go:132-139 | over every run no endpoint learns from a flow of another tenant, host or method |
| Histories.NeverReadsComplete | backend/internal/profile/profile.go:9-10 | over every run no live endpoint holds more than its caps allow, and one that is not marked truncated holds every cookie name, status and parameter told to it or to the endpoints merged into it |
| Accounting.DestinedExactly | backend/internal/profile/aggregator.go:168-185 | the endpoint a flow goes to and what it is told: when, the flow's facts, its path's parameters by position, then those of its query and body as given |
| Accounting.RefusedExactly | backend/internal/profile/aggregator.go:185-191 | a new flow is refused if and only if its endpoint is not live and its tenant or its host has as many live endpoints as its cap allows |
| Aggregating.Aggregator.RenormalizeScope | backend/internal/profile/aggregator.go:384-423 | after the pass every live template is a fixed point again and holds the merge of exactly the profiles whose templates became it; the retired ids are exactly those that changed and none of them is live; no observation is lost, counters and index agree with what is live, and what was dirty follows |
| Aggregating.Aggregator.Place | backend/internal/profile/aggregator.go:185-206 | gives a request to its endpoint, new exactly when it was not live and fewer endpoints are live than either cap allows, or counts it as refused |
| Aggregating.Aggregator.Retire | backend/internal/profile/aggregator.go:404-421 | moves a profile, or merges it into the one there, with counters, index, dirty and retired sets; no other profile changes |
| Aggregating.Aggregator.LiveAreSound | backend/internal/profile/profile.go:217-229 | every live parameter's enumeration is consistent, which merging two of them needs |
| Aggregating.Aggregator.PruneSeen | backend/internal/profile/aggregator.go:476-486 | a quarter of the time to live after it last looked, and not before, forgets exactly the flow ids older than the time to live |
| Accounting.RememberedKeeps | backend/internal/profile/aggregator.go:151-158 | no flow id younger than the time to live is forgotten, and only the one at hand is added |
| Accounting.RememberedForgets | backend/internal/profile/aggregator.go:476-486 | with a clock that does not run backwards no remembered flow id is older than the time to live and a quarter |
| Aggregating.PathParams | backend/internal/profile/aggregator.go:274-285 | the loop finds the parameters the next row describes |
| Accounting.PathFoundExactly | backend/internal/profile/aggregator.go:276-285 | one parameter, with the value it had, for each position whose template segment is spelled like a token, also where the path itself spells it that way, and for no other |
| Aggregating.Aggregator.Collect | backend/internal/profile/aggregator.go:425-447 | hands over exactly the dirty profiles and the retired ids and clears both sets |
| Aggregating.Aggregator.Requeue | backend/internal/profile/aggregator.go:449-464 | marks again what is still live, and restores the retired ids |
| Profilerd.ObservingKeepsCover | backend/cmd/profilerd/main.go:225-303 | observing keeps the store covered: it differs from memory only in what is dirty or retired, and lacks the missing rows that are not dirty again |
| Profilerd.UpsertFailedCovers | backend/cmd/profilerd/main.go:314-317 | a failed write, whatever part of it was applied, loses nothing once its work is requeued |
| Profilerd.DeletingCovers | backend/cmd/profilerd/main.go:318-321 | after a delete, complete or failed part way, the missing rows are those missing before and those deleted of live ids |
| Profilerd.FlushedExactly | backend/cmd/profilerd/main.go:308-322 | a full flush leaves what is live but for the rows missing before and those of deleted ids that are live: exactly what is live if and only if there are none of either |
| Profilerd.Worker.Observe | backend/cmd/profilerd/main.go:225-303 | an unwanted message is done with at once; a wanted one is folded in as the aggregator says and pending, and every message folded in is acknowledged or pending, in order |
| Profilerd.Worker.Flush | backend/cmd/profilerd/main.go:305-344 | acknowledges all pending messages when there was nothing to store or both store calls succeeded, else none, and requeues what failed; acknowledged means the store holds what is live but for the missing rows, to which this flush adds exactly the deleted ids that are live |
| Returning.ReturningRun | backend/cmd/profilerd/main.go:308-322 | from a new worker: five flows leave an endpoint live that is still to be deleted, and the flush after them acknowledges all five and leaves the store without that endpoint |
| RateLimiting.RateLimiter.Allow | backend/internal/server/authz_middleware.go:117-134 | admits a call if and only if fewer than the limit of the key's admitted calls lie inside the window before it, compacting the list in place, and no other key's list changes; no interval of the window's length ever holds more than the limit |
| RateLimiting.RecentExactly | backend/internal/server/authz_middleware.go:119-128 | the calls counted are exactly those admitted less than a window ago |
| RateLimiting.IntervalBound | backend/internal/server/authz_middleware.go:99-100 | over any run, no interval of the window's length holds more than the limit of a key's admitted calls |
| SplitBatch.Split | backend/internal/data/jetstream/buffer.go:130-167 | the chunks concatenate to the batch, each fits the limit or is a single record, and no chunk could have taken the first record of the next |
| SplitBatch.SplitIsUnique | backend/internal/data/jetstream/buffer.go:130-167 | that description has only one solution, so a retried publish makes the same chunks |
| SplitBatch.EstimateBounds | backend/internal/data/jetstream/buffer.go:139-141 | the size estimate of a record is its base64 length (section 4 of RFC 4648) with the quotes and the comma around it, and at most five bytes more |
| SplitBatch.SizeBounds | backend/internal/data/jetstream/buffer.go:139-165 | a chunk's size is the envelope and its encoded records, and at most five bytes a record more |

## Findings

Each is proved of the code as it is, at an input or by a run that shows it, with the condition under which the code
does what is wanted: an if-and-only-if in all but the last, where the condition is sufficient.

- A window can close early and its flow still be Partial. A stop closes the window when everything above it has
  reported, but a record below the stop extends what the flow is judged on; `StoppedFlowComplete` gives the exact
  condition and `DeeperRecordLeavesGap` an instance. A window closed by its layer count is safe from this, because
  every parser sets one of the four known layers (`CountedLayersComplete`).
- A collapse can lose a decision made below it. Decisions are moved in key order with the types collected
  beforehand; a key that moves onto itself, because a path held the new token literally, is reset to its own type
  and forgets what was moved there before. `DecisionsLostExactly` gives the exact condition and `ForgettingRun`
  reaches such a state from a new engine.
- Positions do not collapse monotonically. A decided position goes on collecting the values its type does not
  match, and a second decision replaces the first instead of being joined with it, so a literal that had become a
  parameter can become a literal again: `RevertsExactly` says when, `RevertingRun` reaches it.
- It follows that a retired id can be live again before it was deleted. A flush writes first and deletes second,
  so it deletes the row of that live endpoint while acknowledging its messages. `FlushedExactly` gives the exact
  condition and `ReturningRun` reaches it from a new worker with five flows.
- Merging profiles is not commutative in general. Which names, statuses and parameters a full cap refuses depends on
  the iteration order of a map, and the cookie cap marks a profile truncated even when the name at hand is one it
  already has. `MergeCommutesExactly` gives the exact condition on the two profiles, `EitherName` an instance.
- The key of an online window need not be the least of its identifiers, because a record that touches one window keeps
  that window's key. `FilingKeepsLeastExactly` says which records break this and `KeepsFirstName` is a run;
  `OnlineIsBatch` therefore speaks of the partition, not of the keys.
- Clock skew never lowers a heuristic flow's confidence: the score is computed before the flags it looks at are set.
  `ConfidenceExactly` says which flows have the score their flags call for, `SkewedButTrusted` shows one that has not.
- An event without identifiers is remembered but never filed, so no flush takes it and it is remembered for ever:
  `FiledExactly` and `UnnamedForEver`. `EventsConserved` and `ExactlyOnePlace` speak of the events with identifiers.
- A parameter's two counters are documented as the requests since it was first seen and those that carried it. They
  count values: a request that repeats the parameter counts once for each. `RequestsCountedExactly` says that the
  counters are those numbers exactly when no request does, `CountedTwice` is an instance.
- Merging two endpoints is not the same as one endpoint having seen both: requests to the one that never saw a
  parameter of the other are not counted for it. `ObservationsMergeExactly` gives the exact condition,
  `MissedBySplit` is an instance; `SameFlowsSameProfile` shows that nothing else depends on when endpoints are merged.
- The attribute key of the heuristic join is one text, its parts joined by bars, so a bar in a host or a path can make
  two different requests alike: `SameKeySameRequest` and `JoinsOneRequest` hold without such bars, `BarsConfuse` is
  an instance with one.

The runs choose small template thresholds to be short (`EAGER` in `Forgetting`, `BRISK` in `Returning`); the profiler
itself runs with the default ones (backend/cmd/profilerd/main.go:76).

## Left out

- One tenant. Correlation is modelled for a single tenant; window keys carry no tenant in the program either.
- Persistence across restarts: snapshots and restores of windows and indices, loading stored profiles, and learning
  decisions back from stored templates.
- Parsing of raw records, ingest filters, masking, dead letters, raw storage and the bulk writing of flows.
- Which closing flows are looked up in the store (the hour-long memory of recent keys) and the lookup itself: the
  stored flow is a parameter of the merge.
- The amender that adds single events to stored flows; the pipeline's merge covers the same ground.
- The choice of identifiers and their validation at extraction; records arrive with their identifiers.
- Classification of values and detection of secrets are functions given as parameters, so every theorem holds for
  all of them.
- Query and body parsing, parameter-name folding, host canonicalization, removal of NUL bytes and method upper-casing
  in the aggregator: samples arrive parsed.
- Endpoint ids are the tuples the content hash is taken of, that is, the hash is taken to be injective.
- Library sorts are one stable sort function; where the program sorts only to fix an order and the result is proved
  not to depend on it, the model takes any order.
- Floating-point numbers are reals. Upper and lower case are ASCII.
- Maps the program updates entry by entry are computed in local variables and stored at the end of the step
  (`MergeKeyState`, `Own`, `MergeParams`, `MergeProfiles`), so states inside such a step are not modelled; an
  endpoint's parameters are values, and the class for one parameter is proved against the same functions.
- Finding the due windows and closing them are two passes instead of one.
- The mutexes: each operation is one step. A flush of the worker is one step too, since it runs in the consuming
  loop.
- Undecodable messages, which are terminated, and the delivery protocol of the message queue.
- Display sorting and export of flows, detections, and the service layers around the core.
- Templating.SegStat.Absorb: leaves open which new values a full position keeps, because the program ranges over a
  map there.
- Profiles.EndpointProfile.MergeWith: leaves open which names and parameters a full cap refuses, for the same
  reason.
- Aggregating.Aggregator.Collect: does not promise the order of the two results, which nothing modelled depends on.
- Aggregating.Aggregator.Retire: does not state the counter of merged ids; the counters of withheld secrets and of
  invalid query strings are not modelled.
