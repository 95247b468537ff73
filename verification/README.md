# Verified model of the toolkit's algorithmic core

This project models the parts of the Go toolkit (and of the Python package that shares its
journal and report formats) whose correctness is not visible from reading one function, and
proves what they promise. `dafny verify dfyconfig.toml` checks all of it.

| module | what it models |
|---|---|
| `CodeGraph`, `RouteQuery` | the source graph with its two adjacency indexes, and the reverse path search in three evidence tiers with a lazily pruned queue |
| `NamespaceQueue`, `MergeSteps` | the namespace merge queue with generation stamps, against an exhaustive rescan |
| `Decimal`, `DiffText`, `DiffEdits` | unified diffs: parser, printer, carried file header, and the multiset check of edits |
| `Owners`, `SplitChange` | the declarations that own changed lines, and the cutting of a diff into owned fragments |
| `SourceWorkset` | bounded exploration of source files: re-relaxed depths, a submission window, a file budget, repeated calls on one builder |
| `Identifiers`, `Capacity`, `Grouping`, `UnitReasons`, `UnitFormation` | greedy forming of units under a capacity limit, and the reasons that hold a unit together |
| `PythonPaths`, `PythonContext`, `PythonSoundness` | the runs a Python module may have, the analysis of `sys.path`, and its soundness |
| `PythonCertain`, `PythonRoots`, `PythonLimits` | programs that it follows exactly, what it keeps besides, and the modules that mislead it |
| `ReleaseJournal` | the crash-tolerant deletion protocol of dependency environments, as steps |
| `SnapshotDigest`, `WorkingCapture` | the identity of a snapshot, and its capture by a pool of workers that share a byte budget |
| `SourceCatalog`, `PrunedWalk` | the directory index of a catalog, and the level-by-level walk that selects graph sources |
| `WorkspaceGlob` | workspace globs and the climb to an installation root |
| `PlanMerge`, `ValidationPlan`, `PlanMeaning`, `ValidationReport` | merging validation requests, planning, what a plan says, formatting and executing, and the Python reader of the report |

Code that works by changing things step by step is modelled by classes and methods with
loops (`Graph`, `Builder`, `Context`, `Analysis`, `SourceTree`, `Plan`, and the methods named
below); each is proved against a specification function or predicate about which the lemmas
are stated. The release protocol and the worker pool are state machines over their steps,
since what matters there is every interleaving.

## Where the code does not do what it promises

Six promises hold only under a condition. Each condition is stated in the contract, and
lemmas or methods give the inputs that show it is needed.

- A route ends at the first relation whose target is the empty id, because the zero relation
  marks the end of a route. Over all queries of a graph, every route is complete if and only
  if no relation of an allowed kind targets the empty id (`RouteQuery.RoutesCompleteExactly`).
  Where the empty id is itself a declaration, containment relations of its own file only count
  when a best walk to another seed leads on through it (`RouteQuery.RoutesThroughEmpty`).
  `RouteQuery.EmptyTargetHidesRelation` builds the smallest graph that hides a relation.
- A diff without any hunk marker is carried over whole as a file header. If it does not end
  with a newline, hunks printed after it lose their first hunk. Parsing undoes printing
  exactly when there is nothing to print, or the header is empty or ends with its line and
  the numbers of the hunks fit Go's `int` (`DiffText.RoundTripExactly`,
  `DiffText.OpenLosesFirst`). A diff that has hunks always has a closed header
  (`DiffText.HunksCloseHeader`), so the splitter is not affected by the first part.
- Parts of a change are collected in one fragment when their owners have the same key, and the
  fragment lists the owners of its first part. A key joins identities by a NUL and a bar, which
  names may hold as well, so different owners can have one key (`Owners.KeysCollide`). Without
  any condition the owners of each part have the key of its fragment; they are the owners it
  lists where owners can be told from their key (`Owners.KeysTell`,
  `SplitChange.KeyedAttributes`): no path holds a bar, no identity a NUL or a bar before the
  path of an element, and none is the identity of no element.
- A call of `Builder.Add` that is cancelled has already recorded its roots, and a later call
  does not queue a root again that is recorded at depth 0. Repeating a call, however the first
  one ended, succeeds and changes nothing (`SourceWorkset.Retry`), so whatever a cancelled call
  left unsettled stays so. For a call cancelled at once this leaves a settled builder settled
  if and only if each of its files was recorded at depth 0 before, or is not to be expanded
  there, or what stands against expanding it is reported
  (`SourceWorkset.RetryAfterCancel`); success of all calls always does
  (`SourceWorkset.AddAll`).
- Deferred Python code (loops over unknown sequences, `while`, `try`, `with`) is analysed once,
  with the values known before it. The variables it sets are in doubt, in it and after it,
  until they are assigned again; so are copies of them. The definite prefix begins the path of
  every completed run when no value in doubt decides where a root is inserted, or a branch or
  loop that changes the path and leaves some of it definite
  (`PythonSoundness.PrefixIsDefinite`; `PythonLimits.FallbackIsUndoubted` for a module that
  sets a flag in a `try` and branches on it). `PythonSoundness.CalmPrefixIsDefinite` states
  the same from a condition read off the program text. A value in doubt that does decide so
  misleads the analysis, whatever the names, values and directories: one that deferred code
  sets away and back, and that is then used as a condition, a root, a place or a list of roots
  (`PythonLimits.ResettingMisleads`), one that decides a branch before deferred code sets it
  (`PythonLimits.TestingMisleads`), one whose assignment an exception passes over
  (`PythonLimits.DecidingMisleads`), and one that decides the `else` of a loop that had no
  round (`PythonLimits.EndingMisleads`). Whether such a value differs in some run of an
  arbitrary module is not decided.
- Merging focused and unavailable requests of one executor and check depends on their order
  unless a full request is among them (`PlanMerge.MixedOrderMatters`,
  `PlanMerge.OrderDoesNotMatter`). The planner never mixes them (`ValidationPlan.NeverMixed`).

## Model

| member | source | states |
|---|---|---|
| CodeGraph.Graph.AddRelation | toolkit/go/internal/codegraph/graph.go:93-104 | a self-relation or a repeated key changes nothing; otherwise the fact is appended to both indexes, its endpoints exist, and no node that was there changes |
| CodeGraph.Graph.EnsureEndpoint | toolkit/go/internal/codegraph/graph.go:133-163 | an unknown endpoint becomes the file, binding or module its id stands for; a known one is left alone |
| CodeGraph.SymbolEndpoint | toolkit/go/internal/codegraph/graph.go:133-163 | an unknown symbol id becomes a binding: its file is what stands before the first mark, its name what stands behind |
| CodeGraph.OtherEndpoint | toolkit/go/internal/codegraph/graph.go:133-163 | the ids of packages, of tests and of any symbol become modules named by the rest; any other id becomes a file |
| CodeGraph.KeyTells | toolkit/go/internal/codegraph/graph.go:93-104 | relations have one key exactly when they differ in their evidence at most |
| CodeGraph.Graph.IndexesAgree | toolkit/go/internal/codegraph/graph.go:93-107 | the two indexes are transposes of each other: each fact stands exactly once in each, and nothing else does |
| RouteQuery.Settle | toolkit/go/internal/codegraph/query.go:115-122 | popping a least queue entry keeps the search invariant when the entry is stale, and otherwise makes its node's step final |
| RouteQuery.Explore | toolkit/go/internal/codegraph/query.go:100-144 | the run with lazy deletion ends in the fixpoint of (distance, steps): recorded steps are chains of admissible relations to a seed and no relation improves one |
| RouteQuery.RecordedIsCheapest | toolkit/go/internal/codegraph/query.go:115-143 | no walk within the tier is shorter than the recorded step, by distance and then by number of relations |
| RouteQuery.TierFindsBest | toolkit/go/internal/codegraph/query.go:100-159 | a tier reaches exactly what some walk of its rank reaches, and what no earlier tier reached it reaches by a best walk |
| RouteQuery.Rebuild | toolkit/go/internal/codegraph/query.go:160-178 | the route loop ends and renders the recorded chain, with its confidence tier |
| RouteQuery.ShownWhole | toolkit/go/internal/codegraph/query.go:161-178 | a chain is rendered completely if and only if none of its relations targets the empty id |
| RouteQuery.AddTier | toolkit/go/internal/codegraph/query.go:145-180 | filling in one tier's targets keeps every earlier answer and answers exactly the wanted targets reachable so far |
| RouteQuery.Query | toolkit/go/internal/codegraph/query.go:88-183 | over nodes and relations alone: exactly the wanted ids with a chain of followed relations to a seed are answered; a relation is followed when its kind is asked for and it is not the containment of a seed symbol or binding by its own file; the route shows a chain to which no other is preferable, by its weakest confidence, then the number of relations other than containment, membership and re-export, then the number of all |
| RouteQuery.AnswersMean | toolkit/go/internal/codegraph/query.go:88-183 | answers stated by the searched problem are answers in that sense, so neither the protected files, nor the step lengths, nor the tiers can be others |
| RouteQuery.AnswersEveryReachable | toolkit/go/internal/codegraph/query.go:145-159 | a target has a route if and only if it is wanted and some admissible path joins it to a seed |
| RouteQuery.RoutesAreBest | toolkit/go/internal/codegraph/query.go:50-60 | with nonempty ids, a route is itself such a path, its distance and confidence are those of its relations, and no admissible path compares better on the first three keys |
| RouteQuery.RoutesCompleteExactly | toolkit/go/internal/codegraph/query.go:161-178 | over all seeds and targets, every route of a graph shows its whole path if and only if no relation of an allowed kind targets the empty id, when that id is no declaration |
| RouteQuery.RoutesThroughEmpty | toolkit/go/internal/codegraph/query.go:161-178 | where the empty id is a declaration: every route is complete if and only if only containment relations of its own file target it and no best walk to another seed enters it; so it is when no allowed relation leaves it |
| RouteQuery.EmptyTargetHidesRelation | toolkit/go/internal/codegraph/query.go:166-169 | builds a graph of one relation into the empty id and queries it: the route has the distance of that relation and shows none |
| NamespaceQueue.MeetIsUnion | toolkit/go/internal/units/namespace_queue.go:57-65 | intersecting the depths of two groups gives the depths computed from their union |
| NamespaceQueue.FindShared | toolkit/go/internal/units/namespace_queue.go:96-109 | the key loop finds the best shared namespace in whatever order the map is visited |
| NamespaceQueue.ScanFinds | toolkit/go/internal/units/namespace_queue.go:26-39 | the reference: scanning all pairs finds the earliest eligible one by height, depth, left and right |
| NamespaceQueue.Prepare | toolkit/go/internal/units/namespace_queue.go:70-126 | the initial queue holds an entry for every eligible pair, and every current entry is the one its pair deserves |
| NamespaceQueue.PopIsEarliest | toolkit/go/internal/units/namespace_queue.go:133-137 | a least entry that is current names the pair an exhaustive rescan of the live groups would choose |
| NamespaceQueue.StaleDropped | toolkit/go/internal/units/namespace_queue.go:135-137 | dropping an entry with an old generation loses no eligible pair |
| NamespaceQueue.MergeKeeps | toolkit/go/internal/units/namespace_queue.go:145-150 | a merge keeps the entries of all other live pairs valid and makes those of the two slots stale |
| NamespaceQueue.PushPairs | toolkit/go/internal/units/namespace_queue.go:154-164 | re-scoring the merged slot alone makes the queue complete again |
| NamespaceQueue.EmptyMeansNone | toolkit/go/internal/units/namespace_queue.go:129 | an empty complete queue means no live pair is eligible |
| NamespaceQueue.MergeNamespaceGroups | toolkit/go/internal/units/namespace_queue.go:69-173 | the same groups and the same merges as rescanning all live pairs in each round; over scopes and heights alone, each merge joins, among the groups it finds, two whose union fits and whose members all lie in its namespace, so that no pair has a higher one in common, or an equally high one at a lesser greatest depth, or that at an earlier place or by a lesser key; it ends when few enough groups are left or no pair has a namespace in common |
| NamespaceQueue.RescanChooses | toolkit/go/internal/units/namespace_queue.go:25-55 | the reference itself makes those choices |
| NamespaceQueue.RescanExhausts | toolkit/go/internal/units/namespace_queue.go:129 | at exit the limit is met or no eligible pair remains |
| DiffText.MatchHeaderExact | toolkit/go/internal/units/hunk.go:33 | the header scanner accepts exactly the lines of the header form, with its numerals |
| DiffText.MissingNewlineIsSkipped | toolkit/go/internal/units/hunk.go:71-74 | the line on a missing newline changes no hunk and no coordinate, wherever it stands |
| DiffText.OtherFileEnds | toolkit/go/internal/units/hunk.go:75-78 | behind the mark of another file nothing is read, once a hunk has begun |
| DiffText.PreambleIsSkipped | toolkit/go/internal/units/hunk.go:67-69 | lines before the first header are not read |
| DiffText.LineIsRead | toolkit/go/internal/units/hunk.go:67-101 | behind a header each line that is not empty adds one line to the last hunk, by its first character |
| DiffText.HeaderIsRead | toolkit/go/internal/units/hunk.go:43-65 | a header begins a hunk with its numbers, cut off at the greatest `int`; a count left out is 1 |
| DiffText.HeaderIsFront | toolkit/go/internal/units/render.go:22-30 | the carried header is all that stands before the first line that begins with a hunk marker |
| DiffText.ParseHunks | toolkit/go/internal/units/hunk.go:37-110 | the line loop computes the specified reading of a diff |
| DiffText.RenderHunks | toolkit/go/internal/units/render.go:32-48 | the printing loop computes the specified text of hunks |
| DiffText.PrintedReadsBack | toolkit/go/internal/units/render.go:32-48 | reading printed hunks after anything adds exactly those hunks, if and only if their numbers fit an `int` |
| DiffText.ClosedRoundTrip | toolkit/go/internal/units/render.go:22-30 | a closed carried header followed by printed hunks reads back as those hunks, if and only if their numbers fit an `int` |
| DiffText.OpenLosesFirst | toolkit/go/internal/units/render.go:29 | an open carried header loses exactly the first hunk |
| DiffText.RoundTripExactly | toolkit/go/internal/units/hunk.go:37-110 | parsing undoes printing behind a carried header if and only if there are no hunks, or the header is closed and the numbers fit an `int` |
| DiffText.HunksCloseHeader | toolkit/go/internal/units/render.go:22-30 | a diff that has hunks has a closed header |
| DiffEdits.CountEdits | toolkit/go/internal/units/model.go:208-226 | the counting closure tallies each edit of the diff, by sign, line number and content |
| DiffEdits.KeysDecide | toolkit/go/internal/units/model.go:212-218 | counting the printed keys decides equality of the multisets of edits, so no two edits share a key |
| DiffEdits.ValidateEdits | toolkit/go/internal/units/model.go:207-242 | accepts if and only if the fragments make exactly the edits of the change, each as often and at the same coordinates |
| DiffEdits.ChangedLines | toolkit/go/internal/units/model.go:185-205 | the changed lines of a side are the coordinates of its edits, in order |
| DiffEdits.SameEditsSameLines | toolkit/go/internal/units/model.go:185-205 | texts that make the same edits change the same lines, each as often |
| Owners.IdentityShows | toolkit/go/internal/units/element.go:45-47 | where paths and kinds hold no colon, equal identities mean the same path, bytes, kind and name |
| Owners.KeysTell | toolkit/go/internal/units/split.go:77-100 | owners on both sides can be told from the key of a fragment, under the condition named above |
| Owners.KeysCollide | toolkit/go/internal/units/split.go:77-100 | for any two elements, one owner and two owners with the same key |
| SplitChange.TakeRun | toolkit/go/internal/units/split.go:28-60 | a part is a whole replacement block, or the longest run of a pure addition or removal with one owner, and lists every owner of its lines |
| SplitChange.PartKeepsEdits | toolkit/go/internal/units/split.go:61-74 | the recomputed header and up to three context lines on each side leave the edits of a part and their coordinates as they were |
| SplitChange.Surround | toolkit/go/internal/units/split.go:63-74 | the context taken is the unchanged neighbourhood of the part, and the counts match it |
| SplitChange.KeyedAttributes | toolkit/go/internal/units/split.go:77-100 | where owners can be told from their key, the hunks collected under one key have exactly the owners the fragment lists |
| SplitChange.SplitChange | toolkit/go/internal/units/split.go:11-115 | the re-parsed fragments make every edit exactly once, behind the header of the change; path, status and gaps are those of the change, and symbols the names of the declarations listed after it; every listed declaration is the first around a line of the fragment's re-read diff, removed lines against those before, added ones against those after, and none is listed twice; the owners of each of its hunks have its key, and where owners can be told from their key all are listed on their side, and a pure addition or removal with owners has one; fragments with known owners never share their owners; counts describe the lines |
| SplitChange.Split | toolkit/go/internal/units/model.go:160-169 | the check of its own fragments never fails, changed lines are conserved on both sides, and the fragments say of the change and their owners what those of `SplitChange` do |
| SourceWorkset.SubmitQueued | toolkit/go/internal/codegraph/build.go:189-218 | after a scan every queued file that may be expanded is submitted unless workset and submissions fill the budget |
| SourceWorkset.WindowCovers | toolkit/go/internal/codegraph/build.go:276-279 | an admissible file is consumed only when it has been submitted, so the error is unreachable while the budget lasts |
| SourceWorkset.ExpandWorks | toolkit/go/internal/codegraph/build.go:168-185 | after expanding a file, now or again, every dependency is recorded at most one step deeper or waits in the queue |
| SourceWorkset.RunEnds | toolkit/go/internal/codegraph/build.go:224-259 | a run that has consumed its queue has settled every recorded file |
| SourceWorkset.Builder.Consume | toolkit/go/internal/codegraph/build.go:231-299 | one queue entry is passed on, skipped, reported or expanded within the budget; the call stops exactly when the file it has just expanded is refused; the run's invariant and its falling measure are kept |
| SourceWorkset.Builder.Expand | toolkit/go/internal/codegraph/build.go:262-300 | the file is visited, it stops exactly when that file is refused, and otherwise every file it names is recorded one step deeper at most, or no deeper within its package |
| SourceWorkset.Builder.Add | toolkit/go/internal/codegraph/build.go:149-259 | for any dependency function it terminates and never reports a file as not submitted; it is rejected exactly when a newly visited file is refused, and cancelled only if asked to be, so without either it succeeds; every file recorded is reached by a chain of calls from a root no longer than its depth; it keeps the builder sound, never raises a depth, registers every root, on success settles the graph if it was settled before, and when cancelled at once has registered exactly its roots |
| SourceWorkset.AddAll | toolkit/go/internal/codegraph/build.go:147-149 | a run of calls on one builder succeeds exactly when no visited file is refused, and then leaves every file settled: the files named by a visited one are its recorded dependencies, dependencies are at most one deeper, admissible files visited or reported with what stands against them |
| SourceWorkset.CallsAreFollowed | toolkit/go/internal/codegraph/build.go:168-185 | in a settled builder a file named by a visited one is recorded at most one step deeper, and is visited, reported, or beyond the limits |
| SourceWorkset.CancelledRootIsLost | toolkit/go/internal/codegraph/build.go:172-177 | on a new builder, a cancelled call followed by a successful one for the same root leaves that root unexplored and unreported |
| SourceWorkset.RetryAfterCancel | toolkit/go/internal/codegraph/build.go:172-177 | repeating a call that was cancelled at once on a settled builder leaves it settled if and only if each file was at depth 0 before, or is not to be expanded there, or what stands against that is reported |
| SourceWorkset.Retry | toolkit/go/internal/codegraph/build.go:172-177 | repeating a call, however the first one ended, succeeds and leaves the builder as the first call left it |
| Capacity.CheckFits | toolkit/go/internal/units/group.go:80-95 | the early exits do not change the answer: the number of different paths, the changed lines and the length of the joined patches, each behind a line with its path when there are several, are all within limits |
| Capacity.FitsDownwardClosed | toolkit/go/internal/units/group.go:64-95 | the default capacity is downward closed: members of a group that fits form groups that fit |
| Grouping.FindPair | toolkit/go/internal/units/merge.go:43-52 | the first pair in scan order that the relation joins and that fits, or none at all |
| Grouping.MergeEdges | toolkit/go/internal/units/merge.go:30-71 | only first fitting pairs of accepted relations are merged, and for a downward closed capacity no accepted relation still joins groups whose union fits |
| Grouping.MergeOwners | toolkit/go/internal/units/owners.go:12-82 | only groups that edit one declaration are merged, and for a downward closed capacity no declaration is edited from two groups that fit together |
| Grouping.DistanceMeaning | toolkit/go/internal/units/file.go:48-74 | groups have a distance if and only if they share a file, and it is the least one between spans of one file and side, or the farthest when none can be compared |
| Grouping.WithinMeans | toolkit/go/internal/units/file.go:48-74 | the distance is at most a number exactly when spans of one file and side lie that many lines apart, or the number is the greatest |
| Grouping.CoalesceFiles | toolkit/go/internal/units/file.go:11-46 | always a fitting pair of one file is merged that is as near, in lines between spans of one side, as every other such pair, the first of those equally near, until no two groups of one file fit together |
| UnitFormation.AttachImport | toolkit/go/internal/units/local.go:55-72 | exactly the groups with a relation to the import that still fit take it in |
| UnitReasons.ReplayWhole | toolkit/go/internal/units/group.go:96-151 | merges that each have a reason keep units that cannot be cut without cutting one |
| UnitReasons.SpacesWhole | toolkit/go/internal/units/group.go:143-150 | so does the namespace pass, where a namespace in common is a reason |
| UnitFormation.LocalGroups | toolkit/go/internal/units/local.go:28-88 | the units of a file hold every fragment, other than imports exactly once, exceed the capacity only as single fragments or leftover buckets, and cannot be cut without cutting a reason; for a downward closed capacity no declaration and no accepted relation inside the file still joins two of them that fit together, and no import could join another group that uses it |
| UnitFormation.StaysExhausted | toolkit/go/internal/units/group.go:125-151 | what a pass exhausted stays exhausted through later merges and reorderings |
| UnitFormation.RescanReplays | toolkit/go/internal/units/group.go:143-150 | the namespace pass, too, only makes merges that fit |
| UnitFormation.NothingIsLeft | toolkit/go/internal/units/group.go:96-142 | what the passes exhaust, fragment by fragment: no two units that fit together hold fragments that both edit one declaration of a file, that a relation joins which is structural or does not concern imports (across files or between declarations), or, with a target number, that are of one file |
| UnitFormation.Group | toolkit/go/internal/units/group.go:96-176 | for any capacity: repeated fragments are refused; every fragment is in a unit, other than imports in exactly one; units are nonempty, duplicate-free, in canonical order and bounded outside `FileOnly`; under `FileOnly` they are the files; otherwise no unit, apart from imports its members carry, can be cut in two without cutting a reason: a declaration of one file that both edit, one leftover bucket, an accepted relation between them or imports they carry, a file when there is a target number, a namespace when more groups than the target are left, which then never leads below it; for a downward closed capacity no two units that fit together have such a declaration, relation or file between them, and no unit could take in another import that it uses; with a target number, it is met or no two units that fit together lie in one namespace |
| UnitFormation.GroupByLength | toolkit/go/internal/units/group.go:17-176 | with the default size of a diff: refuses exactly negative limits and repeated fragments, applies the default limits, holds units together by the same reasons, and exhausts declarations, relations, files and namespaces without any condition on the capacity |
| PythonContext.Context.InsertRoot | toolkit/go/internal/codegraph/python_values.go:183-212 | the in-place insertion computes the specified state, for known and unknown places and roots, however the code came to know them |
| PythonContext.Context.Merge | toolkit/go/internal/codegraph/python_context.go:263-289 | the in-place merge computes the specified join, also when a side is the receiver's own copy |
| PythonContext.Analysis.Statements | toolkit/go/internal/codegraph/python_context.go:73-196 | the recursive walk with its clones computes the specified analysis and its remaining steps, and reports exhaustion exactly when they run out |
| PythonPaths.AbruptMeans | toolkit/go/internal/codegraph/python_context.go:291-304 | a body is abrupt exactly when some statement nested in it breaks, continues, returns or raises |
| PythonSoundness.BlockKeeps | toolkit/go/internal/codegraph/python_context.go:73-196 | no block forgets a noted change, and only the variables assigned in it may change their values or become known |
| PythonSoundness.RepeatRuns | toolkit/go/internal/codegraph/python_context.go:162-192 | one analysis of a deferred block, with the variables it sets in doubt, covers any number of complete or interrupted rounds: what was certain before still is, and the path changes only if a change was noted |
| PythonSoundness.LoopRuns | toolkit/go/internal/codegraph/python_context.go:136-157 | the same for a loop over an unknown sequence of any length and its `else` |
| PythonSoundness.BlockRuns | toolkit/go/internal/codegraph/python_context.go:73-196 | where nothing in doubt decides what matters to the path, every run of a block leaves the path alone unless a change was noted, and one that ends normally ends in a world the analysis describes |
| PythonSoundness.CalmGuards | toolkit/go/internal/codegraph/python_context.go:113-192 | a condition on the program text is enough for that, along the analysis of the block |
| PythonSoundness.PrefixIsDefinite | toolkit/go/internal/codegraph/python_context.go:34-42 | the definite prefix begins the path of every completed run of a module, while steps last, when no value in doubt decides a definite insertion, or a branch or loop that changes the path and leaves some of it definite |
| PythonSoundness.CalmPrefixIsDefinite | toolkit/go/internal/codegraph/python_context.go:34-42 | the same from the program text alone |
| PythonSoundness.HarmlessRuns | toolkit/go/internal/codegraph/python_context.go:113-157 | a branch or loop that leaves the path alone, or nothing of it definite, may be decided by anything |
| PythonSoundness.InsertFits | toolkit/go/internal/codegraph/python_values.go:202-205 | an insertion within the definite prefix is one at the same place of the real path |
| PythonCertain.CertainRunIsExact | toolkit/go/internal/codegraph/python_context.go:73-157 | where every value is known, paths are inserted within the known path and no code is deferred, the analysis ends in the state of the direct run while steps last: the definite prefix is the whole known path, and every variable has its value; known flags take one branch, known lists one round for each item |
| PythonCertain.CertainRunHappens | toolkit/go/internal/codegraph/python_context.go:73-157 | that direct run is one Python can have, on any path that begins with the known one |
| PythonRoots.JoinIsLeast | toolkit/go/internal/codegraph/python_context.go:279-288 | a join keeps exactly the roots of both sides, and as certain exactly their longest shared prefix |
| PythonRoots.BlockKeepsRoots | toolkit/go/internal/codegraph/python_context.go:60-63 | no program and no step limit loses a root that was known |
| PythonRoots.BlockUnmoved | toolkit/go/internal/codegraph/python_context.go:169-171 | a block in which no change was noted leaves every root as certain as it was |
| PythonRoots.InsertionsAreCertain | toolkit/go/internal/codegraph/python_values.go:202-205 | literal insertions of captured roots within the prefix are all certain, in Python's order |
| PythonRoots.AddedIsKnown | toolkit/go/internal/codegraph/python_values.go:183-212 | a captured root that a straight, looped or deferred statement appends or inserts by its literal is among the known roots afterwards, and a change is noted |
| PythonRoots.StraightSteps | toolkit/go/internal/codegraph/python_context.go:44-54 | straight code that the budget is enough for spends one step for each node looked at, lists of more than 32 items counting as one |
| PythonRoots.ExhaustedKeepsPath | toolkit/go/internal/codegraph/python_context.go:44-54 | without steps left no statement changes what is known of the path |
| PythonLimits.ResettingMisleads | toolkit/go/internal/codegraph/python_context.go:180-191 | for any variable and any two values between which a condition, a root, a place or a list of roots can tell, deferred code that sets it away from its known value and back misleads when it is then used so |
| PythonLimits.TestingMisleads | toolkit/go/internal/codegraph/python_context.go:180-191 | deferred code that decides on a known flag and then sets it otherwise lets a second round insert before the definite prefix |
| PythonLimits.DecidingMisleads | toolkit/go/internal/codegraph/python_context.go:180-191 | deferred code that decides on a flag it has just set misleads when an exception passes over the assignment |
| PythonLimits.EndingMisleads | toolkit/go/internal/codegraph/python_context.go:145-157 | the `else` of a loop that decides on a flag set in its body misleads when the loop has no round |
| PythonLimits.FallbackIsUndoubted | toolkit/go/internal/codegraph/python_context.go:180-191 | a module that sets a flag to false, to true in deferred code, branches on it and inserts a directory meets the condition of the theorem, and the directory is certain |
| ReleaseJournal.PartialDeletionIsJournaled | toolkit/go/worktree/environment.go:90-116 | over every run with crashes and outside replacement, a partly deleted environment has a journal entry with its own identity |
| ReleaseJournal.DeletionIsOwned | toolkit/go/worktree/environment.go:90-141 | over every run, a deletion step works only inside the directory whose identity is recorded |
| ReleaseJournal.PreparationAvoidsPartial | toolkit/python/repokit/dependencies.py:286-297 | over every run, preparation is never admitted to a partly deleted environment |
| ReleaseJournal.NoFalseAlarm | toolkit/python/repokit/worktrees.py:188-220 | over every run without outside interference, the identity-changed error is never reported |
| ReleaseJournal.ChecksReport | toolkit/python/repokit/worktrees.py:188-220 | reading the journal reports a changed identity exactly when the directory of some entry has another one by now, and then changes, deletes and installs nothing |
| ReleaseJournal.ChecksKeep | toolkit/python/repokit/worktrees.py:188-237 | otherwise recovery and preparation keep exactly the entries whose directory exists, a release goes on exactly if its directory does, and preparation if no entry is left for it |
| ReleaseJournal.DamageIsDeletion | toolkit/go/worktree/environment.go:90-141 | over every run, an environment is damaged exactly when a release has deleted in it since it was put there |
| ReleaseJournal.UnretiredEntryContradicts | toolkit/python/repokit/dependencies.py:286-297 | from every state of the protocol, a crash after the deletion lets a preparation begin with the entry still there; installing under another identity at once would contradict the journal, and after the check of preparation it contradicts nothing |
| ReleaseJournal.ReleaseResumes | toolkit/python/repokit/worktrees.py:232-242 | whatever crashed before, releasing again deletes the environment, retires its entry and touches no other |
| SnapshotDigest.DecodeEncode | toolkit/go/internal/git/comparison.go:71-101 | a decoder recovers the records from the hashed bytes |
| SnapshotDigest.DigestIdentifies | toolkit/go/internal/git/comparison.go:69-103 | the hashed bytes of two snapshots are equal if and only if files, links, modules, opaque entries and the multiset of issues are |
| SnapshotDigest.DigestBytes | toolkit/go/internal/git/comparison.go:69-103 | the sorted loops write the encoding of the snapshot's canonical records |
| WorkingCapture.MergeResults | toolkit/go/internal/git/repository.go:455-480 | the merge loop computes the specified outcome of the workers' results |
| WorkingCapture.ScheduleIndependent | toolkit/go/internal/git/repository.go:364-480 | on an unchanging tree every complete interleaving of workers has the outcome of the serial read: the same snapshot, or a refusal |
| WorkingCapture.CanFinish | toolkit/go/internal/git/repository.go:440-455 | from any state of the pool some steps finish every file |
| WorkingCapture.SerialSucceeds | toolkit/go/internal/git/repository.go:365-480 | the serial read succeeds if and only if everything is readable and the bytes are within the limit |
| WorkingCapture.CapturedIsTree | toolkit/go/internal/git/repository.go:463-479 | a captured snapshot records every file, link and large file under its name in its kind, every other entry as an issue in its turn, and nothing else |
| WorkingCapture.MarkIsRefused | toolkit/go/internal/git/repository.go:460-462 | an over-budget mark never yields a truncated snapshot, whether or not the tree kept still |
| SourceCatalog.SourceTree.Ensure | toolkit/go/internal/analysis/graph_source_tree.go:25-35 | a directory and its missing ancestors are added, each listed once by its parent, and no document moves |
| SourceCatalog.NewSourceTree | toolkit/go/internal/analysis/graph_source_tree.go:23-53 | refuses exactly the catalogs with an empty path or with a segment that is empty, a dot, two dots or holds a slash; otherwise holds exactly the needed directories, each listing its children once and its files as often as the catalog |
| PrunedWalk.IgnoredSame | toolkit/go/internal/analysis/graph_walk.go:118-152 | the rules loaded so far decide a path as all rules of the catalog would |
| PrunedWalk.LoadRule | toolkit/go/internal/analysis/graph_walk.go:118-137 | an ignore file is loaded exactly when something below may need it, and refused exactly when it cannot be read or exceeds a limit |
| PrunedWalk.Visit | toolkit/go/internal/analysis/graph_walk.go:84-145 | a level yields each open child and each admitted document of its directories, as often as listed |
| PrunedWalk.Walk | toolkit/go/internal/analysis/graph_walk.go:20-155 | selects every file as often as the catalog if it lies under a scope, is wanted and not excluded or ignored under all rules, and no directory above it is excluded or ignored, and no other; reads exactly the ignore files on open ways that have a chosen document or a leading directory beside them; on success scopes are well-formed and these files were within the limits, and on well-formed scopes with true sizes it succeeds exactly when they are |
| PrunedWalk.AdmittedMeans | toolkit/go/internal/analysis/graph_walk.go:38-152 | the conditions tested level by level on the way down leave out no file that the selection over the whole catalog keeps |
| WorkspaceGlob.WorkspaceMatch | toolkit/go/internal/project/depot.go:169-186 | the row-by-row table agrees with the recursive meaning of a glob, in which `**` spans any number of segments |
| WorkspaceGlob.SegmentParts | toolkit/go/internal/project/depot.go:169-186 | a segment pattern matches by its parts: the beginning matches one part of the name and the rest the other |
| WorkspaceGlob.SegmentUnits | toolkit/go/internal/project/depot.go:169-186 | a star matches any name, another character itself, and nothing the empty name |
| WorkspaceGlob.InstallationRoot | toolkit/go/internal/project/depot.go:58-90 | fails exactly when some ancestor's patterns cannot be read; otherwise follows nearest claims to a directory that no ancestor claims |
| WorkspaceGlob.RootIsUnique | toolkit/go/internal/project/depot.go:58-90 | a component has only one such directory |
| PlanMerge.FoldIsSummary | toolkit/go/internal/validation/entrypoint.go:51-74 | merging requests one after another comes to one summary of them all, with the command that belongs to its files |
| PlanMerge.SummaryMeans | toolkit/go/internal/validation/entrypoint.go:37 | full if one is full, else focused on the union of files if one is focused, skipped if all are; requesters are united |
| PlanMerge.OrderDoesNotMatter | toolkit/go/internal/validation/entrypoint.go:51-74 | requests that are not mixed come to the same check in any order and number |
| PlanMerge.MixedOrderMatters | toolkit/go/internal/validation/entrypoint.go:55-74 | mixed requests always have two orders that come to different checks |
| ValidationPlan.Plan.Append | toolkit/go/internal/validation/entrypoint.go:40-81 | the in-place update merges into the first group and check that match and adds them otherwise, and keeps groups and checks distinct |
| ValidationPlan.AddedFinds | toolkit/go/internal/validation/entrypoint.go:40-81 | only the executor and check of the request change, to the merged spec |
| ValidationPlan.FallsBackOnlyToRoot | toolkit/go/internal/validation/validation.go:288-324 | a missing target falls back only to the root, never for formatting and never behind a broken or missing contract; a check is unavailable exactly when neither has a target it may use; focused files are those selected |
| ValidationPlan.NeverMixed | toolkit/go/internal/validation/validation.go:256-350 | the requests of one executor and check are never mixed |
| ValidationPlan.PlanMeans | toolkit/go/internal/validation/validation.go:248-355 | what a planned spec says, component by component: who asks, in which scope, on which files, with which command |
| ValidationPlan.EachRequestOnce | toolkit/go/internal/validation/validation.go:248-350 | each selected component and check is among the requesters of exactly one executor's spec |
| ValidationPlan.PlanIsOrderFree | toolkit/go/internal/validation/validation.go:361-365 | the published plan is the same for every order of the components |
| ValidationPlan.PlanValidation | toolkit/go/internal/validation/validation.go:134-365 | among the modelled inputs, refuses exactly unknown checks and unknown components; otherwise publishes the plan of the selected components |
| PlanMeaning.DecidesSo | toolkit/go/internal/validation/validation.go:288-324 | where a component's check is planned, in which scope and on which files, read off its Makefile, the root's and the selection |
| PlanMeaning.PlanSays | toolkit/go/internal/validation/validation.go:248-365 | a published plan, read off components and Makefiles alone: each spec names exactly the components whose check is placed there, has the widest scope one of them wants, the files of the focused ones, and runs the declared target with them; every component's check is in the spec of its place, and executors and checks are sorted without repetition |
| PlanMeaning.ChosenAre | toolkit/go/internal/validation/validation.go:134-180 | the selected components are those a request names, or all |
| ValidationReport.Execute | toolkit/go/internal/validation/validation.go:426-509 | refuses exactly formatting plans; otherwise every planned check has one result: skipped or unavailable as its scope says, else as its run ended; the report is complete when none was cancelled or is uncertain, and passed when each passed or was skipped and the inputs kept still; stale inputs give an empty report |
| ValidationReport.Format | toolkit/go/internal/validation/prepare.go:24-67 | formatting goes on until a check does not finish, and claims completeness and success exactly as its results say |
| ValidationReport.FormattingClaims | toolkit/go/internal/validation/prepare.go:24-67 | a formatting stage is complete when the contents settled and no check was cancelled or is uncertain, and passed when none failed or was unavailable either |
| ValidationReport.Decode | toolkit/python/repokit/validation/report.py:44-151 | the reading loops accept exactly the reports that meet the rules of coverage, formatting and outcome, and an accepted report claims completeness and success only as its results allow |
| ValidationReport.ReportAccepted | toolkit/python/repokit/validation/report.py:44-151 | whatever the checks return, the report of a planned execution is accepted for the planned checks |
| ValidationReport.Validate | toolkit/go/internal/validation/validation.go:521-562 | refused only for an unsupported check, for formatting under a given impact, or for a component that is not there; for any other request, any trees before and after formatting and any results, the published report is accepted by the reader; checks follow formatting exactly when the contents settled, no result failed, was cancelled or is uncertain, and there are checks left; they are those planned for the tree that formatting left, and stale inputs answer none of them |
| ValidationReport.FormattedAccepted | toolkit/go/internal/validation/validation.go:537-556 | a formatting stage that stopped, failed or was all there was is accepted on its own |

## Left out

- SplitChange.SplitChange: conservation is stated for diffs whose line counters stay within Go's 64-bit `int`. The counters of the model do not wrap; beyond that range printed numbers no longer read back, as `DiffText.RoundTripExactly` shows.
- SplitChange.Split: states that it never fails, and what its fragments list, under the same condition; the owners listed are complete where they can be told from their key, as described above; for other names their keys agree, and nothing more is claimed.
- PythonSoundness.PrefixIsDefinite: claims nothing once the step budget is used up, when the code keeps what it has; that the condition is needed is shown for the families of `PythonLimits`, not for every module that fails it.
- SourceWorkset.CallsAreFollowed: speaks of files with a name; the empty name stands for the absent parent of a root, and no dependencies are recorded for it.
- ValidationPlan.PlanValidation: file selection, inputs, witnesses, seals and the report of the impact are parameters or absent, and so are the refusals for the environment, the concurrency, the retention, an incomplete capture or impact, and unreadable contracts; checks, components, contracts and selected files remain.
- ValidationReport.Decode: starts from a report of the right form; the checks of JSON types, of schema, checkout and snapshot, and of paths that leave the checkout are left out.
- ValidationReport.Validate: captures that fail or change between planning and formatting end in an error and are left out.
- WorkingCapture.ScheduleIndependent: any number of workers may run, where the code starts at most sixteen; which of several errors is returned is not modelled.
- PrunedWalk.Walk: the ignore matcher is any function that depends only on ignore files above a path; the order of the selected files is not modelled, nor are invalid children of other directory sources.
- SourceWorkset.Builder.Add: exact minimal depths are not claimed, since a revisit charges one more step to members of a Go package.
- `container/heap` is modelled by its contract: a pop removes a least element of a set.
- The order in which relations, owner keys and map keys are visited, and the fourth key of `ComparePaths`: nothing promised depends on them, so any order is allowed.
- The order of directory listings, and stable sorting of owners within a fragment.
- Counts of blocked merges, decision logs and proof paths of merges, unit identifiers and labels, rendered reasons and log output.
- Cancellation and timeouts, except in `Builder.Add`, where they change what later calls do; a cancellation while waiting for an extraction is modelled like a file whose extraction fails.
- The libraries behind extraction, resolved imports, outlines, namespaces and heights: their results are arbitrary finite functions.
- Strings held in variables and joined to paths, `is_dir` tests, and indexes not written in decimal: the model takes their values as not known.
- Python function and class bodies, aliasing and mutation of lists, and variables changed by `exec`; the steps spent on the parts of a call's callee and of a path expression.
- Recorded search paths at each import: the theorem is about the state after any block, which is the state an import statement behind it sees.
- Path normalisation: paths below the repository are sequences of segments, and ids are plain strings.
- SHA-256, the file system, Git processes, and decoding of JSON, YAML and TOML.
- History and reuse of earlier results, and the snapshot checks around an execution, which are parameters.
- Counters other than diff line numbers and decimal numerals are unbounded.
