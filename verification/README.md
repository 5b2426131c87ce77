# eCho memory console: verified model

This project models the parts of the eCho memory console (`mem_console`) where a mistake would be hard to see: how the
graph view is loaded and arranged, how background refreshes are exchanged with the worker, how saved preferences are
brought up to date, the kind filters, and the text algorithms. Each operation of the program that changes state in place
is a method on a class or an array and is proved against a specification function or predicate; the theorems are about
those.

`dafny verify dfyconfig.toml` checks everything.

## How the files fit together

| file | models |
|---|---|
| `Limits`, `Walks`, `KeyOrder` | limits and clamps; walks and exact distances; sort keys, permutations, the insertion step |
| `KindFilters` | link-kind and item-kind masks, override flags, and the kind text pushed into queries |
| `GraphState` | node and edge buffers |
| `Distances`, `NodeSort`, `Rollup`, `EdgePriority`, `Compaction` | the breadth-first search and the four passes over the buffers |
| `GraphPipeline`, `CanonicalOrder`, `CanonicalEdges`, `RepeatedLinks` | what survives all four passes; that the nodes, and when and how far the edges, depend on the graph alone |
| `ViewOrder`, `KindSelection`, `ShownGraph` | the same in the user's terms: the order of the view, which kinds clicks let through, which rows are listed and what of them is shown |
| `AsciiText`, `Database`, `GraphLoad`, `RollupModes` | text normalisation, the tables and the rows of each query, the two ways of loading the graph and where they differ |
| `Intents`, `RefreshProtocol`, `RefreshRuntime` | query intents, the refresh state machine, the objects that implement it |
| `Prefs`, `PrefsState`, `HiddenAnchors` | payload versions 1 to 11, the loader, the list of hidden anchors |
| `SavedSettings` | which settings come back from saving, and what each version loads |
| `LoadedConsole`, `ConsoleEdits`, `ConsoleRuns` | the console after loading, what the user can do to it, whole runs of user and protocol |
| `PollTiming`, `AppliedRefresh` | when a refresh is asked for, and what it changes on the screen |
| `CatchingUp`, `HeldUpEdits` | how soon a console left alone is up to date; edits during a refresh: submitted, held up, overwritten |
| `TextWrap`, `Paragraphs`, `EditBuffer` | the two word wrappers, paragraph by paragraph, and the edit buffer |

## What is assumed

- The database engine is the rows its queries describe. `Database.FocusRows` and `Database.ScopeRows` are the link
  queries; the recursive walk is `Walks.Within` over `Database.WalkPairs`. Link keys increase in key order.
- Every task the worker pool accepts yields exactly one completion, possibly an empty one. Submitting a task and recording
  it as in flight is one step: the program reads the submitted work after handing it over
  (`src/runtime/mem_console_runtime_refresh.c:636-641`) although the worker frees it (`:589`), so the recorded intent is
  only right if the worker has not got there first.
- Request ids and counters do not wrap. Stored floats are real numbers or not finite; rounding is not modelled.
- A shorter preferences chunk is read over zeros, as the zero-initialised struct it is read into makes it.
- Which theme and font presets exist is a parameter.
- C strings hold no embedded NUL, and text columns are cut to their buffer before anything else happens to them.

## Findings

Where the code does not do what one would expect, the model follows the code and a theorem says exactly when.

- **After loading certain preferences, edits made during a refresh are held up.** Payloads of version 5 to 7 select the
  stored kind and set the stored override independently (`src/runtime/mem_console_prefs_versions.c:351-357`), so one that
  names a known kind and sets the override leaves the override over a partial mask. The check before a remembered intent is
  submitted then compares a full mask with a partial one and forgets the intent; the edit stays in the console and is not
  submitted before the next due poll. `LoadedConsole.LoadOverrideFullIff` gives the condition for every chunk,
  `HeldUpEdits.LoadedEditIsSubmittedIff` what it means for the user, `HeldUpEdits.SearchIsHeldUpAfterLoading` one payload and
  run, and `HeldUpEdits.HeldUpSearchLands` that the edit gets through in the end. The console does not write such payloads
  itself (`LoadedConsole.WrittenPayloadsAreHarmless`), and nothing the user does leads there (`ConsoleRuns.RunsKeep`). A
  payload that changes something repairs it; one that is counted as applied but changes nothing does not
  (`HeldUpEdits.DrainRepairsIff`). The setter behind it behaves the same over any partial mask
  (`Intents.SingleKindBreaksTheCheck`), but only the loader calls it, on a console just seeded with a full mask.
- **A refresh overwrites an edge limit that is being typed.** Scheduling and draining look at title, body and search only,
  and applying a payload rewrites the limit input. `RefreshProtocol.TickKeepsTypedLimit` says exactly when what is typed
  survives, `HeldUpEdits.TypedLimitIsLost` gives a run in which it does not.
- **Version 2 pane flags are lost.** The loader reads the collapse flags where the newest layout has them, which is behind
  the end of a version 2 chunk, so collapsed panes come back open (`Prefs.V2CollapseFlagsAreLost`).
- **Full-scope loading fails on an archived centre,** where focus loading falls back to the selection
  (`GraphLoad.LoadFullScopeGraph`, `GraphLoad.ChooseRoot`). `GraphLoad.OnlyFullScopeFailsIff` says when the modes differ,
  `GraphLoad.ArchivedCenterSplitsTheModes` gives two items.
- **The two loaders store kinds differently.** Focus mode stores the link kind as read, full scope stores it normalised,
  so "summarizes " with a trailing space makes a rollup in one mode and not in the other
  (`RollupModes.TrailingSpaceSplitsTheModes`). `RollupModes.StoredAlikeIffClean` and `RollupModes.ModesAgreeOnSources` say
  exactly when kinds and rollups agree.
- **The kind text is lossy for unclean kinds.** Filtering by the text first drops exactly the links whose stored kind
  merely normalises to the text (`Database.PushDownIsLossless`), such as "supports " with a trailing space
  (`Database.TrailingSpaceIsFilteredOut`); for all others it can only find more under the row limit
  (`Database.PushDownFindsMore`).
- **A word that exactly fills a line is moved to the next line** if there is an earlier space and a space follows: both
  wrappers look for a break whenever a line is full. At width 18, "aaaaaaaaaaa bbbbbb cc" breaks after the first word
  (`TextWrap.LastWordMovesAtEighteen`). `TextWrap.LastWordMovesIffFilled` gives the exact condition, and
  `TextWrap.LinesAreLongestUnlessFilled` says that it is the only one for all lines of both wrappers.
- **A project named like the filler is always selected.** Unused slots of the project filter are bound to the name
  `__mem_console_unused_filter__` (`src/db/mem_console_db_filters.c:9`), so with fewer than sixteen projects selected the
  items of a project with that name are in scope as well. `ShownGraph.InScopeIff` says exactly when.
- **The hidden-anchor toggle reports "hidden" for an anchor it could not add** to a full list
  (`HiddenAnchors.ToggleReport`).

## Model

The methods of `RefreshRuntime.RuntimeState` and `PrefsState.SettingsState` that have no row are single steps of those that
have one, each proved against the function of the same step. So are `SelectAllEdgeKinds`, `SelectAllNodeKinds` and
`ToggleNodeOverride` of `KindFilters.FilterControls`: each is one step of `KindFilters.EdgeStep` or `KindFilters.NodeStep`,
which the lemmas about runs are about. `RefreshRuntime.RuntimeState.NoteLocalWrite` is the step `LocalWrite` of the protocol.

| member | source | states |
|---|---|---|
| `Distances.ComputeNodeDistances` | src/db/mem_console_db_graph_sort.c:45-94 | for any edges and seed, the array ends up holding the length of a shortest undirected path over in-range edges, or the sentinel when there is none |
| `Distances.ScanNeighbors` | src/db/mem_console_db_graph_sort.c:69-92 | one round of the search over the real queue keeps the search invariant, and the queue index never passes the node count, so the guard at line 89 never drops a node |
| `Distances.ReachNeighbor` | src/db/mem_console_db_graph_sort.c:84-91 | a neighbour with a larger distance is one that was never queued, there is room for it, and queueing it keeps the queue duplicate-free and ordered by distance |
| `Distances.SettledIsExact` | src/db/mem_console_db_graph_sort.c:69-93 | when the queue is exhausted every distance is exact |
| `Walks.LevelBoundsWalk` | src/db/mem_console_db_graph_sort.c:69-93 | a labelling that grows by at most one per step is a lower bound for every walk |
| `Walks.ExactDistanceRename` | src/db/mem_console_db_graph_sort.c:45-94 | renumbering the nodes one-to-one keeps exact distances |
| `GraphState.DistanceBetweenItems` | src/db/mem_console_db_graph_sort.c:272-289 | distances between buffer positions are distances between the item ids stored there, whatever the numbering |
| `GraphState.GraphView.FindNodeIndex` | src/db/mem_console_db_graph_sort.c:26-39 | finds the item if it is shown, and -1 means it is not; id zero is never found |
| `NodeSort.ShouldSwapIsKeyOrder` | src/db/mem_console_db_graph_sort.c:160-223 | the branching comparator is a strict lexicographic order on (primary depth, secondary depth, anchor time, anchor id, item id), the last three reversed in recent-first mode |
| `NodeSort.SortOrder` | src/db/mem_console_db_graph_sort.c:291-310 | the insertion sort leaves a permutation in strictly increasing key order |
| `NodeSort.InsertNext` | src/db/mem_console_db_graph_sort.c:295-310 | one round, over the real node comparisons, extends the strictly sorted prefix by the next node |
| `NodeSort.FindSeeds` | src/db/mem_console_db_graph_sort.c:272-279 | the primary seed is the selection if shown, else the centre; the secondary is the centre unless it is the primary already |
| `NodeSort.RankNodes` | src/db/mem_console_db_graph_sort.c:272-310 | the order is sorted by keys that depend on item ids and links only, not on positions |
| `NodeSort.MoveNodes` | src/db/mem_console_db_graph_sort.c:327-333 | every node goes to its place, and `old_to_new` is the inverse permutation |
| `NodeSort.RewriteEdges` | src/db/mem_console_db_graph_sort.c:335-344 | each endpoint inside the buffer follows its node, each other endpoint and every kind stays |
| `NodeSort.Renumber` | src/db/mem_console_db_graph_sort.c:327-344 | nodes and edges together are renumbered by one permutation |
| `NodeSort.ApplyNodeSort` | src/db/mem_console_db_graph_sort.c:225-351 | the node buffer becomes the strictly sorted arrangement of the same nodes and the edges follow, also on the early exits |
| `NodeSort.RenumberingIsIsomorphism` | src/db/mem_console_db_graph_sort.c:327-344 | sorting is a graph isomorphism: same nodes, and every edge keeps (from item, to item, kind) |
| `KeyOrder.InsertKeepsOrder` | src/db/mem_console_db_graph_sort.c:295-310 | inserting where the shifting loop stops keeps a permutation and extends the sorted prefix by one |
| `KeyOrder.ShiftingEnds` | src/db/mem_console_db_graph_sort.c:298-309 | what the shifting loop leaves behind, with the key put into the gap, is a permutation with a longer sorted prefix |
| `KeyOrder.SortedListingUnique` | src/db/mem_console_db_graph_sort.c:295-310 | a set has at most one strictly sorted listing |
| `Rollup.AnnotateRollupRenderAnchors` | src/db/mem_console_db_graph_sort.c:96-158 | every node that summarizes something is anchored at its highest-id source and that source's time, every other node at itself; nothing else changes |
| `Rollup.ReanchorKeeps` | src/db/mem_console_db_graph_sort.c:146-156 | one more source keeps the anchor the maximum of the sources seen, in whatever order they come |
| `RollupModes.StoredAlikeIffClean` | src/db/mem_console_db_graph_load.c:588-599 | the raw and the normalised form of a stored kind agree if and only if it is clean as read |
| `RollupModes.SourcesAreRowSources` | src/db/mem_console_db_graph_sort.c:126-157 | the sources annotation sees through the edges are those of the link rows behind them, in either mode |
| `RollupModes.ModesAgreeOnSources` | src/db/mem_console_db_graph_load.c:878-882 | drawing the same links, focus mode never sees more sources of an item than full scope, and sees the same ones if and only if none of its links only normalises to "summarizes" with no other link that reads so between the same items |
| `RollupModes.SameSourcesSameAnchor` | src/db/mem_console_db_graph_sort.c:120-157 | an item with the same sources is annotated the same in both modes |
| `RollupModes.TrailingSpaceSplitsTheModes` | src/db/mem_console_db_graph_load.c:878-882 | the kind "summarizes " with a trailing space is a rollup in full scope and none in focus mode |
| `CanonicalOrder.ArrangementIsCanonical` | src/db/mem_console_db_graph_sort.c:96-351 | annotating and sorting two numberings of the same graph gives identical node buffers and the same edges |
| `CanonicalOrder.SortIsIdempotent` | src/db/mem_console_db_graph_sort.c:225-351 | sorting again moves no node and no edge endpoint |
| `CanonicalOrder.CompactionSameGraph` | src/db/mem_console_db_graph_sort.c:592-687 | compaction of two numberings of one graph gives two numberings of one graph |
| `CanonicalOrder.CompactionByItems` | src/db/mem_console_db_graph_sort.c:639-673 | compaction keeps exactly the items of enabled kinds and exactly the links between two of them |
| `CanonicalOrder.PipelineIsCanonical` | src/db/mem_console_db_graph_load.c:683-686 | after all four passes the node buffer is a function of the graph, not of the order in which it was loaded |
| `ViewOrder.NodesInOrder` | src/db/mem_console_db_graph_sort.c:6-24 | the order of the view in plain words: nearer to the selection (or the centre in its place) first, then nearer to the centre, then by the anchor, which is the highest-id item a node summarizes or the node itself: newest anchor first or oldest first as the mode says, ties by anchor id and then by item id |
| `ViewOrder.AnchorsAreShown` | src/db/mem_console_db_graph_sort.c:96-158 | every anchor in the arranged view is a node of it, with the creation time of that node, and a node is a rollup if and only if it summarizes something |
| `ViewOrder.ViewIsArranged` | src/db/mem_console_db_graph_load.c:886-889 | the view a load ends with is the arrangement of what compaction keeps, so these orders hold in it |
| `CanonicalEdges.EdgesCanonicalWithinLimit` | src/db/mem_console_db_graph_load.c:683-686 | while neither of two loads of one graph reaches the limit, both end with the same set of edges |
| `CanonicalEdges.EdgesCanonical` | src/db/mem_console_db_graph_sort.c:387-590 | if no two links join the same two items, both end with the same set of edges in any case, and with the same list when more links survive compaction than the limit allows |
| `CanonicalEdges.TopEdgesUnique` | src/db/mem_console_db_graph_sort.c:579-584 | the list of best edges of a set is determined by a position-free rank |
| `CanonicalEdges.CutIsTop` | src/db/mem_console_db_graph_sort.c:464-584 | cut to the limit, edges that join different items are the best of their set by that rank |
| `RepeatedLinks.PairsCanonical` | src/db/mem_console_db_graph_sort.c:387-590 | if two loads hold each link equally often, both end with the same edges equally often within the limit, and over it with edges that join the same two positions place by place |
| `RepeatedLinks.CutsAgree` | src/db/mem_console_db_graph_sort.c:464-584 | cut to the limit, two listings of the same edges agree pair by pair |
| `RepeatedLinks.CompactionDraws` | src/db/mem_console_db_graph_sort.c:652-673 | compaction draws a link as often as before if both its items are enabled, and not at all otherwise |
| `EdgePriority.TouchesAreDepths` | src/db/mem_console_db_graph_sort.c:426-458 | touching the selection is primary depth zero, touching the centre is secondary depth zero or the same as touching the selection, in every case of selected, centred or absent |
| `EdgePriority.EightLevelsAreLexicographic` | src/db/mem_console_db_graph_sort.c:524-568 | the eight-level comparison is the lexicographic order on (primary min, secondary min, primary max, low, high, index) |
| `EdgePriority.SortEdgeOrder` | src/db/mem_console_db_graph_sort.c:464-577 | the in-place insertion sort leaves a permutation in strictly increasing priority order |
| `EdgePriority.InsertNext` | src/db/mem_console_db_graph_sort.c:464-577 | one round, over the eight-level comparison, extends the strictly sorted prefix by the next edge |
| `EdgePriority.RankEdges` | src/db/mem_console_db_graph_sort.c:426-577 | the edges are ranked by true path distances from selection and centre |
| `EdgePriority.ApplyEdgePriority` | src/db/mem_console_db_graph_sort.c:387-590 | over the limit, exactly the best `edge_limit` edges are kept in rank order and each outranks each dropped one; within the limit nothing moves |
| `EdgePriority.TopPositionsUnique` | src/db/mem_console_db_graph_sort.c:579-584 | there is only one such list, so the cut is determined |
| `ViewOrder.OutranksIffFirst` | src/db/mem_console_db_graph_sort.c:353-590 | the rank the edge cut goes by, in distances between items: the first of six criteria that differs decides, from the nearer end to the selection down to the place of the edge |
| `Compaction.TakeNodes` | src/db/mem_console_db_graph_sort.c:639-650 | collects exactly the enabled nodes in order, and `old_to_new` inverts that or holds -1 |
| `Compaction.TakeEdges` | src/db/mem_console_db_graph_sort.c:652-673 | collects exactly the edges with two kept ends, in order, relocated to their nodes' new positions |
| `Compaction.CompactByNodeKind` | src/db/mem_console_db_graph_sort.c:592-687 | both buffers are compacted in place, ids stay distinct, all remaining edges lie inside the buffer |
| `KindSelection.ItemKindOverride` | src/runtime/mem_console_state_graph_filters.c:368-385 | with the override every item kind is enabled, without it never an unknown one |
| `KindSelection.FullAndEmptyItemMask` | src/runtime/mem_console_state_graph_filters.c:344-385 | the full mask enables exactly the seven known kinds, the empty one none |
| `KindSelection.ItemToggleFlipsOne` | src/runtime/mem_console_state_graph_filters.c:387-406 | a click on a known kind changes the answer for that kind and for no other; a click on an unknown one changes nothing |
| `KindSelection.ItemKindsAfterClicks` | src/runtime/mem_console_state_graph_filters.c:387-414 | after selecting everything and any sequence of clicks on known kinds, a kind is shown if and only if it is known and was clicked an even number of times |
| `KindSelection.ItemOverrideShowsAll` | src/runtime/mem_console_state_graph_filters.c:408-428 | the override shows every item kind, and switched off again it shows exactly the known ones |
| `GraphPipeline.ArrangeGraph` | src/db/mem_console_db_graph_load.c:886-889 | the four passes together: items and links of the result come one-to-one from those loaded, all nodes enabled, ids distinct, edges within the clamped limit |
| `GraphPipeline.PassesCompose` | src/db/mem_console_db_graph_load.c:683-686 | the guarantees of the single passes add up to a subgraph of what was loaded |
| `GraphPipeline.SubgraphTrans` | src/db/mem_console_db_graph_load.c:683-686 | being a subgraph, with no link drawn twice, is preserved from pass to pass |
| `KindFilters.FilterControls.SyncTextFilter` | src/runtime/mem_console_state_graph_filters.c:214-246 | the text names the selected kind if there is exactly one and no override, and is empty otherwise |
| `KindFilters.SelectedKind` | src/runtime/mem_console_state_graph_filters.c:234-245 | counting bits in the loop finds the one kind whose bit is the whole mask |
| `KindFilters.OnlyKindIsItsBit` | src/runtime/mem_console_state_graph_filters.c:234-245 | exactly one kind is selected if and only if the mask is that kind's bit |
| `KindFilters.FilterControls.ToggleEdgeKind` | src/runtime/mem_console_state_graph_filters.c:270-293 | flips one known kind, ends the override, and reports a change exactly if there was one |
| `KindFilters.FilterControls.ToggleEdgeOverride` | src/runtime/mem_console_state_graph_filters.c:304-317 | switching the override on fills the mask; switching it off keeps the mask and recomputes the text |
| `KindFilters.FilterControls.SetSingleEdgeKind` | src/runtime/mem_console_state_graph_filters.c:319-342 | a known kind becomes the whole mask; an empty or unknown one only sets the override |
| `KindFilters.FilterControls.ToggleNodeKind` | src/runtime/mem_console_state_graph_filters.c:387-406 | flips one known item kind and ends the override; reports mask changes only |
| `KindFilters.TextIsTheEnabledKind` | src/runtime/mem_console_state_graph_filters.c:214-268 | when text and mask are in step and the text is not empty, a kind is enabled if and only if it equals the text |
| `KindSelection.LinkKindOverride` | src/runtime/mem_console_state_graph_filters.c:248-268 | with the override every link kind is enabled; without it an unknown kind is enabled if and only if all eight known ones are |
| `KindSelection.FullAndEmptyLinkMask` | src/runtime/mem_console_state_graph_filters.c:190-268 | the full mask enables every kind, the empty one none |
| `KindSelection.LinkToggleFlipsOne` | src/runtime/mem_console_state_graph_filters.c:270-293 | a click on a link kind changes the answer for that kind and for no other known one |
| `KindSelection.LinkKindsAfterClicks` | src/runtime/mem_console_state_graph_filters.c:270-302 | after selecting everything and any sequence of clicks that begins with a known kind, a known kind is shown if and only if it was clicked an even number of times, and an unknown one if and only if all known ones are shown |
| `KindSelection.SingleKindShows` | src/runtime/mem_console_state_graph_filters.c:319-342 | selecting a known kind shows that kind alone, selecting anything else shows everything |
| `KindSelection.OverrideShowsAll` | src/runtime/mem_console_state_graph_filters.c:304-317 | switching the override on shows everything, and so does switching it off again |
| `KindSelection.TextNamesTheOnlyKind` | src/runtime/mem_console_state_graph_filters.c:214-268 | while the override is off, the text is a kind if and only if that kind is enabled and no other known one is |
| `KindFilters.RunsStayInSync` | src/runtime/mem_console_state_graph_filters.c:270-342 | text and mask stay in step over every run of filter operations |
| `KindFilters.OverrideStaysFull` | src/runtime/mem_console_state_graph_filters.c:319-342 | every operation keeps "override on means mask full" except selecting an unknown kind over a partial mask |
| `KindFilters.OverrideStaysFullOverRuns` | src/runtime/mem_console_state_graph_filters.c:270-342 | over every run without selecting an unknown kind an override stands over a full mask |
| `KindFilters.NodeRunsStayNormal` | src/runtime/mem_console_state_graph_filters.c:387-428 | over every run of item-kind operations the mask holds known bits only and an override stands over the full mask |
| `AsciiText.NormalizeInPlace` | src/db/mem_console_db_graph_load.c:10-45 | the in-place rewrite of a C string yields its normal form, NUL-terminated |
| `AsciiText.NormalFormsAreClean` | src/db/mem_console_db_graph_load.c:10-45 | the texts left alone are exactly the printable, single-spaced ones with no space at the end; normalising twice changes nothing |
| `AsciiText.JunkGoes` | src/db/mem_console_db_graph_load.c:22-35 | dropping every unprintable character that is not blank beforehand changes nothing |
| `AsciiText.BlanksAreSpaces` | src/db/mem_console_db_graph_load.c:22-35 | tabs and line ends count as spaces |
| `AsciiText.SpacesMerge` | src/db/mem_console_db_graph_load.c:25-44 | several spaces are as good as one |
| `AsciiText.SanitizeText` | src/ui/mem_console_ui_hud.c:66-125 | the bounded scan with its escape and space flags writes the sanitised text |
| `AsciiText.SanitizeIsClean` | src/ui/mem_console_ui_hud.c:66-125 | with a capacity of at least two the result is non-empty, fits, is printable and has no double or trailing space |
| `AsciiText.SanitizeFixedPoints` | src/ui/mem_console_ui_hud.c:66-125 | the fixed points are exactly the non-empty clean texts that fit, so sanitising is idempotent |
| `AsciiText.SanitizeIsNormalForm` | src/ui/mem_console_ui_hud.c:66-125 | text without escapes that fits comes out in the normal form the loader gives it, and a text with nothing to show as a dash |
| `AsciiText.EscapesLeaveNoTrace` | src/ui/mem_console_ui_hud.c:83-99 | the first escape sequence of a text, up to its first letter, leaves no trace, and so do all in turn |
| `AsciiText.ScanIsFold` | src/ui/mem_console_ui_hud.c:78-115 | without escape sequences and with room to spare the HUD scan and the loader's normaliser fold text alike |
| `Database.PushDownIsLossless` | src/db/mem_console_db_graph_load.c:535-592 | filtering rows by the pushed-down text and then by the mask equals filtering by the mask alone, if and only if no stored kind merely normalises to the text |
| `Database.TrailingSpaceIsFilteredOut` | src/db/mem_console_db_graph_load.c:535-592 | a link stored as "supports " passes the mask but not the text "supports" before it |
| `Database.PushDownFindsMore` | src/db/mem_console_db_graph_load.c:744-759 | under a row limit, while no stored kind merely normalises to the text, what the mask leaves of the first rows comes first in what it leaves of the first rows with that text |
| `Database.CleanKindsLoadUnchanged` | src/db/mem_console_db_graph_load.c:588-589 | a clean kind shorter than 32 bytes is read back as it is |
| `Database.ListedRows` | src/db/mem_console_db_graph_load.c:744-759 | a query's answer respects its limit, repeats no link and lists only links that satisfy it |
| `ShownGraph.InScopeIff` | src/db/mem_console_db_filters.c:5-49 | an item is in scope if and only if no project is selected or its project is among the first sixteen selected ones that are not blank; only a project with the name that fills unused slots slips through |
| `ShownGraph.LinkOpenIff` | src/db/mem_console_db_graph_load.c:735-742 | a query uses a link if and only if both its items are there, unarchived and in scope and its kind is the text, if one is asked for |
| `ShownGraph.WalksAlongLinks` | src/db/mem_console_db_graph_load.c:731-745 | the walk steps along such links, in both directions |
| `ShownGraph.ScopeRowsAreTop` | src/db/mem_console_db_graph_load.c:505-547 | the full-scope query answers with the first or last such links by key, as many as the limit allows, in that order |
| `ShownGraph.FocusRowsAreTop` | src/db/mem_console_db_graph_load.c:728-805 | the focus query likewise, of the links with both ends within the hops of the root |
| `GraphLoad.EnsureGraphNode` | src/db/mem_console_db_graph_load.c:192-223 | succeeds exactly for a non-zero id that is shown, or is active while there is room; adds at most that node; ids stay distinct |
| `GraphLoad.LoadEnds` | src/db/mem_console_db_graph_load.c:859-872 | loads both ends of a row or hits the limit, adding no other node |
| `GraphLoad.LoadFocusRows` | src/db/mem_console_db_graph_load.c:821-884 | the edges are exactly, in order, the rows of enabled kinds whose ends are enabled and in the buffer; no end is missing unless the buffer is full |
| `GraphLoad.PrepareLoad` | src/db/mem_console_db_graph_load.c:632-652 | limits are clamped and written back, the row limit is three times the edge limit within the buffer, the buffers are empty |
| `GraphLoad.ChooseRoot` | src/db/mem_console_db_graph_load.c:703-725 | an active centre is the root; with no centre, or one that is not active, an active selection is; otherwise there is none; and a root becomes the centre |
| `GraphLoad.LoadFocusGraph` | src/db/mem_console_db_graph_load.c:703-891 | end to end: the root chosen as above and made the centre, distinct active items of enabled kinds within the hop limit of it, at most the clamped number of edges, each showing its own link row of an enabled kind between those items |
| `GraphLoad.ArrangingKeepsSound` | src/db/mem_console_db_graph_load.c:886-889 | arranging keeps every edge backed by its own link row and every node by its item |
| `GraphLoad.ArrangingKeepsNear` | src/db/mem_console_db_graph_load.c:886-889 | arranging keeps every node within the hop limit |
| `GraphLoad.LoadPriorityNodes` | src/db/mem_console_db_graph_load.c:241-387 | root first, then nearest first: an enabled item near the root is left out only if the buffer is full of items at least as near |
| `GraphLoad.LoadListedNodes` | src/db/mem_console_db_graph_load.c:441-481 | adds exactly the enabled items of a list prefix, and stops short of the end only when the buffer is full |
| `GraphLoad.LoadScopeEdges` | src/db/mem_console_db_graph_load.c:549-601 | the edges are exactly, in order, the rows of enabled kinds whose ends are both loaded |
| `GraphLoad.LoadFullScopeNodes` | src/db/mem_console_db_graph_load.c:655-666 | if the scope pass adds any node, every enabled item within the reserved hops of the root is already there |
| `GraphLoad.KeepCenterShown` | src/db/mem_console_db_graph_load.c:688-698 | the centre stays if shown, else becomes the selection, else the first node, else none |
| `GraphLoad.LoadFullScopeGraph` | src/db/mem_console_db_graph_load.c:654-701 | end to end: reservation kept, scope complete unless the buffer is full, result sound; fails exactly when a root is wanted that is not an active item (no item has id zero) |
| `GraphLoad.RootReserved` | src/db/mem_console_db_graph_load.c:655-666 | a root that is wanted is in the buffer before the scope pass begins |
| `ShownGraph.NearOnesComeFirst` | src/db/mem_console_db_graph_load.c:241-387 | of the items within the reserved hops only such are left out as are no nearer to the root than any in the buffer, and then the scope pass adds nothing |
| `ShownGraph.ScopeIsComplete` | src/db/mem_console_db_graph_load.c:389-481 | while there is room full scope loads every unarchived item in scope of an enabled kind, and adds no other to the reserved ones |
| `ShownGraph.NodeShowsItem` | src/db/mem_console_db_graph_load.c:63-190 | a node carries its item's columns, normalised and within their buffers, its own id and time as its anchor, and a title even if the item has none |
| `ShownGraph.TextIsShown` | src/db/mem_console_db_graph_load.c:10-45 | a column that is clean and fits is shown as it is; one that is clean and does not fit is cut at the end of the buffer, less a space the cut would end with |
| `ShownGraph.NodesAreReal` | src/db/mem_console_db_graph_load.c:192-223 | every node of a sound view shows an unarchived item of an enabled kind |
| `ShownGraph.EdgesAreReal` | src/db/mem_console_db_graph_load.c:859-884 | every edge of it shows a link of its own between the two items at its ends, both eligible, of an enabled kind and the text asked for |
| `ShownGraph.FocusEdgesAre` | src/db/mem_console_db_graph_load.c:821-884 | in focus mode exactly those listed links become edges whose kind is enabled and whose items are active, of enabled kinds and in the buffer |
| `ShownGraph.ScopeEdgesAre` | src/db/mem_console_db_graph_load.c:549-601 | in full scope exactly those whose kind is enabled and whose items are in the buffer |
| `ShownGraph.FocusLoadsEnds` | src/db/mem_console_db_graph_load.c:859-872 | while there is room both ends of every listed link of an enabled kind are loaded, and no other item but the root |
| `GraphLoad.OnlyFullScopeFailsIff` | src/db/mem_console_db_graph_load.c:655-725 | full scope fails where focus mode has something to show if and only if the centre is no active item and the selection is one |
| `GraphLoad.ArchivedCenterSplitsTheModes` | src/db/mem_console_db_graph_load.c:655-725 | with the item in the centre archived and another one selected, full scope fails and focus mode shows the selection |
| `Intents.CaptureTwice` | src/runtime/mem_console_runtime_refresh.c:342-409 | capturing is a normaliser and storing a captured intent loses nothing |
| `Intents.CapturedIffProper` | src/runtime/mem_console_runtime_refresh.c:342-409 | capturing leaves exactly those requests as they are whose flags, indices, limits, modes, slots and masks are in range, with the mask full under an override |
| `Intents.CaptureAsksForTheSame` | src/runtime/mem_console_runtime_refresh.c:342-409 | a captured request asks for what the settings ask for: the same search, items, projects, kinds and flags, and numbers as near as the range allows |
| `Intents.RestoredIsSame` | src/runtime/mem_console_runtime_refresh.c:291-340 | writing a proper request back into a console restores it |
| `Intents.MatchIsEquality` | src/runtime/mem_console_runtime_refresh.c:411-475 | between captured intents the field-by-field comparison is equality |
| `Intents.ProjectsAgree` | src/runtime/mem_console_runtime_refresh.c:184-239 | comparing the selected keys only is comparing normalised copies, for counts in range |
| `Intents.GuardIsCurrentIntent` | src/runtime/mem_console_runtime.c:459-495 | the completion guard passes if and only if the completion's intent is what a capture would give now and the raw limits are in range |
| `Intents.PassedCheckIsCurrent` | src/runtime/mem_console_runtime.c:544-588 | if the check on the remembered intent passes, what is submitted is the current intent, from any state |
| `Intents.CheckPassesIffRecheckable` | src/runtime/mem_console_runtime.c:544-586 | the check accepts the current intent if and only if limits are in range, overrides stand over full masks, the text follows the mask and no id is negative |
| `Intents.SingleKindBreaksTheCheck` | src/runtime/mem_console_state_graph_filters.c:319-342 | selecting an empty or unknown kind keeps the check working if and only if the mask was full |
| `RefreshProtocol.InitialInv` | src/runtime/mem_console_runtime.c:181-190 | the initial runtime satisfies the protocol invariant |
| `PollTiming.FirstPoll` | src/runtime/mem_console_runtime.c:181-190 | the first poll is due 900 ms after the start |
| `PollTiming.IdleTickPolls` | src/runtime/mem_console_runtime.c:426-442 | with nothing in flight or remembered a tick asks for a refresh if and only if the poll is due, the user is neither editing nor typing, and the pool accepts; the next poll is an interval later either way |
| `PollTiming.BusyTickAsksNothing` | src/runtime/mem_console_runtime.c:320-442 | while the user is editing or typing no tick asks for anything |
| `PollTiming.WriteIsPolledAtOnce` | src/runtime/mem_console_runtime.c:245-253 | after a write of the user's own the next tick that can asks for a refresh, at the shortest interval again |
| `PollTiming.CompletionIsJudged` | src/runtime/mem_console_runtime.c:444-539 | a refresh that comes back is dropped if its intent is no longer the current one, or else if the user is editing or typing; only then does it matter whether it failed, and whether it brings anything new |
| `PollTiming.OutcomesSetTimers` | src/runtime/mem_console_runtime.c:444-539 | what each outcome of a refresh does to the timers, outcome by outcome |
| `PollTiming.ChangesAreCoalesced` | src/runtime/mem_console_runtime.c:324-425 | settings that differ from those in flight and those remembered are remembered and counted, each change once |
| `PollTiming.RefusedStaysRemembered` | src/runtime/mem_console_runtime.c:544-596 | a remembered intent whose submission fails stays remembered, and nothing else changes but the interval and, if the pool refused it, the request id |
| `PollTiming.RememberedIsTriedAgain` | src/runtime/mem_console_runtime.c:544-596 | and a later tick submits it although no poll is due |
| `RefreshProtocol.ScheduleKeepsInv` | src/runtime/mem_console_runtime_refresh.c:593-643 | scheduling for the current settings, accepted or refused, keeps the invariant |
| `RefreshProtocol.DrainKeepsInv` | src/runtime/mem_console_runtime.c:444-539 | the one completion that can be drained is the one in flight, so it is never stale, and it is applied only under its own intent |
| `RefreshProtocol.TickKeepsInv` | src/runtime/mem_console_runtime.c:255-606 | a whole tick keeps the invariant, whatever the clock, the pool and the worker do |
| `RefreshProtocol.RunsKeepInv` | src/runtime/mem_console_runtime.c:255-606 | over every run: tasks and undrained completions number one if a refresh is in flight and none otherwise; submissions = applied + drops + errors + empty completions + in flight; ids increase; every submission and application was for the intent then current; the poll interval is 900, 2000 or 5000 |
| `RefreshProtocol.TicksRespectEditing` | src/runtime/mem_console_runtime.c:496-524 | no tick touches a title or body that is being edited, nor the edit modes, and while either is being edited, or a search typed, a tick changes nothing in the console |
| `RefreshProtocol.TickKeepsTypedLimit` | src/runtime/mem_console_runtime_refresh.c:241-288 | what is typed into the edge-limit input survives a tick if and only if the tick applies no payload or the typed text is the limit of that payload, which for a payload of the worker is the limit in force |
| `RefreshProtocol.LatestIntentWins` | src/runtime/mem_console_runtime.c:324-596 | a tick that drains an outdated refresh ends with exactly the current intent in flight and nothing remembered if and only if the state is recheckable; otherwise the intent is forgotten and nothing is submitted |
| `RefreshProtocol.FlightsLand` | src/runtime/mem_console_runtime.c:444-596 | once the worker is done, the next tick drains the refresh whatever else happens, and what is in flight then is younger |
| `RefreshProtocol.ApplyReachesFixpoint` | src/runtime/mem_console_runtime_refresh.c:116-182 | after a payload is applied both comparisons are quiet, if and only if its normalised fields were normal and its item-kind filter agrees |
| `RefreshProtocol.WorkerPayloadSettles` | src/runtime/mem_console_runtime_refresh.c:528-576 | what the worker produces for an intent that passes the guard does settle in, given a normal item-kind filter |
| `RefreshProtocol.RepeatOnlyBacksOff` | src/runtime/mem_console_runtime.c:515-537 | the same payload arriving again changes nothing and only lengthens the poll interval |
| `AppliedRefresh.RefreshIsShown` | src/runtime/mem_console_runtime_refresh.c:241-288 | after a tick that applies a payload, list, selection and graph are those of the payload, and title and body buffers hold its title and body |
| `AppliedRefresh.RefreshTakesLinkKinds` | src/runtime/mem_console_runtime_refresh.c:278-284 | a link kind is enabled afterwards if and only if the payload enables it |
| `AppliedRefresh.RefreshKeepsSettings` | src/runtime/mem_console_runtime_refresh.c:241-288 | a payload of the worker for the settings on screen leaves them asking for the same as before, apart from selection, centre and projects, which are the payload's |
| `AppliedRefresh.RefreshKeepsInputs` | src/runtime/mem_console_state_db_picker.c:178-203 | the other inputs keep their text, a cursor or selection inside it stays where it was, and the limit input reads as the limit in force |
| `RefreshRuntime.ConsoleState.ApplyRefreshedState` | src/runtime/mem_console_runtime_refresh.c:241-288 | field-by-field copying gives the refreshed console with its edge limit shown in the input; search text, list offset, layout, sort, item-kind filter and the other inputs stay |
| `RefreshRuntime.ConsoleState.SyncEditBuffersFromSelection` | src/runtime/mem_console_state_db_picker.c:178-203 | a title or body not being edited becomes the selected text; every other cursor, and the selection in the path, ends up inside its text |
| `RefreshRuntime.RuntimeState.ScheduleRefresh` | src/runtime/mem_console_runtime_refresh.c:593-643 | with a refresh in flight a call succeeds and does nothing; otherwise it is the protocol's scheduling step in its three outcomes |
| `RefreshRuntime.RuntimeState.HandleCompletion` | src/runtime/mem_console_runtime.c:444-539 | is the drain step, branch by branch |
| `RefreshRuntime.RuntimeState.DrainQueue` | src/runtime/mem_console_runtime.c:444-539 | the pop loop drains the whole queue, and its two flags say exactly whether a payload, and whether one with a different graph, was applied |
| `RefreshRuntime.RuntimeState.TickOnce` | src/runtime/mem_console_runtime.c:255-606 | the imperative tick refines the protocol's tick, and reports exactly whether content, and whether the graph, changed |
| `RefreshRuntime.ReportIsRight` | src/runtime/mem_console_runtime.c:444-539 | from every reachable state that report says content changed if and only if a payload is applied, the graph if and only if it brings another one, and without either nothing on the screen changes |
| `Prefs.DedupFacts` | src/runtime/mem_console_prefs_versions.c:153-197 | deduplication yields distinct positive ids and leaves exactly such lists as they are |
| `Prefs.FirstAppearances` | src/runtime/mem_console_prefs_versions.c:165-197 | of hidden ids that appear more than once the first appearance counts |
| `Prefs.NonEmptyOfParts` | src/runtime/mem_console_prefs_versions.c:89-125 | of the selected projects exactly the non-empty ones stay, in their order |
| `Prefs.CompactTwice` | src/runtime/mem_console_prefs_versions.c:63-125 | compacting the project slots is idempotent |
| `Prefs.RoundTripFields` | src/runtime/mem_console_prefs_versions.c:199-468 | building, applying into any state and building again gives the payload back but for eight named fields, and says what those become |
| `Prefs.SaveLoadIsStableIff` | src/runtime/mem_console_prefs_versions.c:199-468 | the payload comes back unchanged if and only if presets exist, the selection is not negative, the graph is on, the text follows the mask, hidden ids are positive and distinct, the panel ratio is proper and the zoom step is in range |
| `Prefs.SeededIsSettled` | src/runtime/mem_console_state_core.c:294-399 | a fresh console is in a state that survives saving and loading |
| `SavedSettings.FreshConsoleShowsAll` | src/runtime/mem_console_state_core.c:294-399 | a fresh console is in normal form, shows every kind and has nothing selected or hidden |
| `Prefs.LoadsStaySettled` | src/runtime/mem_console_prefs.c:74-149 | loading a chunk of any version with arbitrary field values leads to such a state again |
| `Prefs.LoadThenSaveIsStable` | src/runtime/mem_console_prefs.c:74-195 | after any load into a fresh console, saving and loading into any state never changes the payload, hence the signature |
| `Prefs.V2CollapseFlagsAreLost` | src/runtime/mem_console_prefs.c:81-92 | version 2 collapse flags survive loading if and only if they were off |
| `SavedSettings.SettingsComeBackIff` | src/runtime/mem_console_prefs_versions.c:199-468 | settings come back exactly as they were, whatever they are loaded over, if and only if they are in normal form, given field by field, and their presets exist |
| `SavedSettings.SavedFormsTellApart` | src/runtime/mem_console_prefs_versions.c:199-331 | two settings in normal form with the same saved form are equal |
| `SavedSettings.SavedAsTheyAre` | src/runtime/mem_console_prefs_versions.c:199-331 | each setting in normal form is saved as it is, in its own place |
| `SavedSettings.SavingLosesNothing` | src/runtime/mem_console_prefs_versions.c:199-468 | saving any settings, normal or not, and loading them gives what loading them just as they are would have given |
| `SavedSettings.NumbersLoad` | src/runtime/mem_console_prefs_versions.c:333-468 | what the newest version loads for any stored number: the nearest in range, nothing for a negative id or offset, the default for a ratio or zoom that makes no sense, the preset in place for one that does not exist |
| `SavedSettings.FlagsLoad` | src/runtime/mem_console_prefs_versions.c:333-468 | any flag but zero is set, a mode that is not the second one is the first, and the graph is on |
| `SavedSettings.KindsLoad` | src/runtime/mem_console_prefs_versions.c:375-428 | the kinds shown after loading are exactly those the stored masks and overrides ask for |
| `SavedSettings.ListsLoad` | src/runtime/mem_console_prefs_versions.c:63-197 | a project is selected after loading if and only if a slot in use names it, and an anchor hidden if and only if one of those does |
| `SavedSettings.LoadsAreNormal` | src/runtime/mem_console_prefs.c:74-149 | whatever a chunk of any version holds, loading leaves settings in normal form, except that the link kinds are normal if and only if an override stands over the full mask |
| `SavedSettings.OlderVersionsLoad` | src/runtime/mem_console_prefs_versions.c:333-468 | versions 4 to 10 load as the next one does, with what only that one stores left alone or at its default |
| `SavedSettings.OlderLinkKinds` | src/runtime/mem_console_prefs_versions.c:351-357 | which link kinds are shown after loading a version 5 to 7 payload |
| `SavedSettings.V3LoadsAsV4` | src/runtime/mem_console_prefs_versions.c:470-531 | version 3 loads as version 4 with the same fields would, but leaves view, order and item kinds alone, and shows a known kind alone or everything |
| `SavedSettings.FirstVersionsLoad` | src/runtime/mem_console_prefs.c:81-110 | versions 1 and 2 load presets that exist and proper pane ratios, and nothing else |
| `SavedSettings.OtherwiseIgnored` | src/runtime/mem_console_prefs.c:74-149 | any other version, and any chunk that is not recognized, changes nothing |
| `Prefs.LegacyLoadOverride` | src/runtime/mem_console_prefs_versions.c:351-357 | exactly when a version 5, 6 or 7 payload leaves the override on over a partial mask |
| `LoadedConsole.LoadOverrideFullIff` | src/runtime/mem_console_prefs.c:74-149 | for every chunk of every version and every state it is loaded into, exactly when the override ends up off or over a full mask |
| `LoadedConsole.LoadKeepsOtherwise` | src/runtime/mem_console_prefs_versions.c:333-531 | loading normalises limits, modes, item-kind filter, project count and selection, whatever the chunk says |
| `LoadedConsole.StartIsLoaded` | src/runtime/mem_console_prefs_versions.c:333-468 | a console that starts from loaded preferences has their search, kinds, limits and view, and no browse filter |
| `LoadedConsole.WrittenPayloadsAreHarmless` | src/runtime/mem_console_prefs_versions.c:199-331 | the console never writes such a payload itself while its kind text follows its mask |
| `LoadedConsole.LoadedIsRecheckableIff` | src/runtime/mem_console_prefs.c:74-149 | a console that starts from loaded preferences, once read from the database, is recheckable if and only if they are not of version 5 to 7 naming a known kind under an override; its item-kind filter is normal in any case |
| `LoadedConsole.FilterStepStaysSoundIff` | src/runtime/mem_console_state_graph_filters.c:270-428 | a filter click keeps the console recheckable if and only if it does not select an unknown kind over a partial mask |
| `LoadedConsole.LoadedStaysSound` | src/runtime/mem_console_state_graph_filters.c:270-428 | from that start on, over every run of filter clicks the user interface offers, the console stays recheckable with a normal item-kind filter |
| `ConsoleEdits.UserStepKeepsRange` | src/runtime/mem_console_state_graph_filters.c:270-591 | every setting the user can change, and every re-reading of the database, keeps limits, modes and project count in range |
| `ConsoleEdits.UserStepStaysSound` | src/runtime/mem_console_state.c:81-240 | and, unless it selects an unknown kind, keeps a recheckable console with a normal item-kind filter in that state |
| `ConsoleEdits.ViewIsSet` | src/runtime/mem_console_state_graph_filters.c:98-181 | after setting a view that view is read back, and only scope and layout may have changed |
| `ConsoleEdits.ToggleProjectFlips` | src/runtime/mem_console_state_project_filters.c:34-64 | toggling flips the selection of one project, unless sixteen are selected already, and never selects one twice |
| `ConsoleEdits.OthersStay` | src/runtime/mem_console_state_project_filters.c:41-54 | a project is taken out leaving the others in order |
| `ConsoleEdits.AddedLast` | src/runtime/mem_console_state_project_filters.c:56-64 | a project is added behind the others, if there is a slot for it |
| `ConsoleEdits.LongKeyIsCut` | src/runtime/mem_console_state_project_filters.c:59-63 | a key too long for its slot is cut there, and so is not found again |
| `ConsoleEdits.PrunedKeepsOptions` | src/runtime/mem_console_state_project_filters.c:66-104 | pruning keeps exactly the selected projects that are still an option |
| `ConsoleEdits.PrunedKeepsOrder` | src/runtime/mem_console_state_project_filters.c:66-104 | and in their order |
| `ConsoleEdits.OperationsSetTheirField` | src/runtime/mem_console_state_graph_filters.c:430-591 | each operation sets the setting it is for to the value asked for and leaves the others alone |
| `ConsoleEdits.RereadSelects` | src/db/mem_console_db.c:25-94 | reading the database keeps the selection, or selects the first row if there was none, and nothing if nothing matches |
| `ConsoleEdits.RereadStarts` | src/db/mem_console_db.c:25-94 | loading the preferences and then reading the database once gives a console the runs below start from |
| `ConsoleRuns.PlayIsRun` | src/runtime/mem_console_runtime.c:255-606 | what user and protocol do in turn is a run of the protocol |
| `ConsoleRuns.RunsKeep` | src/runtime/mem_console_runtime.c:255-606 | over every run of user operations and protocol steps the limits stay in range, and a recheckable console with a normal item-kind filter stays in that state: neither a refresh nor anything the user interface offers takes it out of it |
| `ConsoleRuns.LatestIntentWinsInEveryRun` | src/runtime/mem_console_runtime.c:324-596 | at any point of such a run, a tick that drains an outdated refresh ends with the current intent in flight |
| `ConsoleRuns.RepeatsAreQuietInEveryRun` | src/runtime/mem_console_runtime.c:515-537 | at any point of such a run, a payload of the worker that arrives again after being applied only slows the polling down |
| `ConsoleRuns.EveryRunCatchesUp` | src/runtime/mem_console_runtime.c:255-606 | from loading any preferences on, at any point of any run: once the user stops, the pool accepts and the worker finishes, a few ticks after the poll is due land a refresh for the settings on screen, four after preferences that name a kind under an override, three after all others |
| `CatchingUp.ConsoleCatchesUp` | src/runtime/mem_console_runtime.c:255-606 | the same from every reachable state with limits in range: at most four ticks, and at most three if the settings are recheckable |
| `CatchingUp.RoundBringsNearer` | src/runtime/mem_console_runtime.c:426-596 | every round lands such a refresh or brings it one tick nearer |
| `CatchingUp.CatchesUpIffInRange` | src/runtime/mem_console_runtime.c:469-495 | with four ticks after the poll is due the console catches up if and only if its limits are in range; otherwise every refresh for them is dropped |
| `HeldUpEdits.EditedDuringRefreshIsRun` | src/runtime/mem_console_runtime.c:255-606 | starting, editing while the first refresh is in flight and draining it is a run of the protocol |
| `HeldUpEdits.EditIsSubmittedIff` | src/runtime/mem_console_runtime.c:324-596 | settings changed while the first refresh is in flight are submitted when it comes back if and only if they are recheckable |
| `HeldUpEdits.HeldUpUntilPoll` | src/runtime/mem_console_runtime.c:426-442 | otherwise they stay in the console, no tick submits them before the poll is due, and the first tick after that does |
| `HeldUpEdits.LoadedEditIsSubmittedIff` | src/runtime/mem_console_runtime.c:544-595 | for a console that starts from any loaded chunk, a search typed while the first refresh is in flight is submitted when that comes back if and only if the chunk does not name a known kind under an override |
| `HeldUpEdits.SearchIsHeldUpAfterLoading` | src/runtime/mem_console_runtime.c:544-595 | a version 7 payload with the kind "supports" and the override set: the typed search is not submitted before the next due poll |
| `HeldUpEdits.HeldUpSearchLands` | src/runtime/mem_console_runtime.c:426-596 | whatever was loaded, two ticks after the poll is due a refresh with that search has landed |
| `HeldUpEdits.AppliedPayloadRepairs` | src/runtime/mem_console_runtime_refresh.c:278-284 | copying a payload leaves the override off or over a full mask, with the text following the mask |
| `HeldUpEdits.DrainRepairsIff` | src/runtime/mem_console_runtime_refresh.c:116-182 | a completion of the worker that is not dropped repairs a console with an override over a partial mask if and only if it shows something new or a flag of the console is raw |
| `HeldUpEdits.NewsIsChange` | src/runtime/mem_console_runtime_refresh.c:116-182 | what the worker brings for the settings on screen is copied if and only if list, selection, graph or projects differ from what is shown, or a flag or mask of the console is raw |
| `HeldUpEdits.TypedLimitIsLost` | src/runtime/mem_console_state_graph_filters.c:580-591 | "7" typed over the limit 128 while a refresh is in flight is replaced by "128" when the refresh brings a new listing |
| `HeldUpEdits.NewGraphIsGraphChange` | src/runtime/mem_console_runtime_refresh.c:116-182 | what the worker brings for the settings on screen is reported as a graph change if and only if the graph differs or a flag or mask of the console is raw |
| `PrefsState.SettingsState.CopyProjectFilters` | src/runtime/mem_console_prefs_versions.c:89-125 | the in-place loop leaves the non-empty keys in order in the leading slots |
| `PrefsState.SettingsState.CopyHiddenAnchors` | src/runtime/mem_console_prefs_versions.c:153-197 | the nested loops leave the positive ids in order of first appearance, each once |
| `PrefsState.SettingsState.LoadChunk` | src/runtime/mem_console_prefs.c:74-149 | dispatches on version and size; anything loaded turns the graph on |
| `HiddenAnchors.AnchorList.IsHidden` | src/runtime/mem_console_state_graph_filters.c:466-487 | membership among the live slots, never for an id that is not positive |
| `HiddenAnchors.AnchorList.SetHidden` | src/runtime/mem_console_state_graph_filters.c:489-537 | appends, or closes the gap in place, and reports a change exactly if the list changed |
| `HiddenAnchors.AnchorList.ToggleHidden` | src/runtime/mem_console_state_graph_filters.c:539-555 | toggles membership; the reported state is the intended one |
| `HiddenAnchors.RunsAreSavedUnchanged` | src/runtime/mem_console_state_graph_filters.c:489-555 | every list reachable by setting and toggling comes back unchanged from saving and loading |
| `HiddenAnchors.ToggleTwice` | src/runtime/mem_console_state_graph_filters.c:539-555 | toggling twice gives the same set, and the same order exactly if the id was absent or last |
| `HiddenAnchors.HidingIsExact` | src/runtime/mem_console_state_graph_filters.c:489-537 | hiding adds the anchor at the end if there is room, showing takes it out, and every other anchor stays as it is |
| `HiddenAnchors.ToggleReport` | src/runtime/mem_console_state_graph_filters.c:548-553 | the report is right unless the list was full and the id not in it |
| `TextWrap.WrapDetailLines` | src/runtime/mem_console_state_roles.c:371-446 | the nested loops store exactly the lines the specification describes, for the clamped width, and touch nothing beyond them |
| `TextWrap.WrapHudLines` | src/ui/mem_console_ui_hud.c:127-195 | likewise for the HUD, where a newline makes no line of its own |
| `TextWrap.ScanLine` | src/runtime/mem_console_state_roles.c:404-416 | scans at most a line's width and falls back to the last space when cut inside the text |
| `TextWrap.WrapConservesContent` | src/runtime/mem_console_state_roles.c:371-446 | the lines hold, in order, a prefix of the text's characters other than spaces and newlines, and all of them if a line was left over |
| `TextWrap.WrapMakesGoodLines` | src/runtime/mem_console_state_roles.c:371-446 | lines do not overlap, are no longer than the width, hold no newline, start with no space, and end inside a word only if they are a full width of that one word |
| `Paragraphs.ParagraphsWrapAlone` | src/runtime/mem_console_state_roles.c:371-446 | each paragraph is wrapped as if it stood alone, and one with nothing but spaces makes a blank line where blank lines are kept |
| `Paragraphs.RoomIsCut` | src/runtime/mem_console_state_roles.c:371-446 | fewer line slots only cut the list of lines short |
| `TextWrap.LastWordMovesIffFilled` | src/runtime/mem_console_state_roles.c:404-416 | some longer stretch ending at a word end would have fitted the line if and only if the text fills the width exactly up to a word end and has an earlier space to break at |
| `TextWrap.LinesAreLongestUnlessFilled` | src/runtime/mem_console_state_roles.c:371-446 | the same for every line of either wrapper: it is as long as it could be except in that case |
| `TextWrap.LastWordMovesAtEighteen` | src/runtime/mem_console_state_roles.c:404-416 | "aaaaaaaaaaa bbbbbb cc" breaks at 11 at width 18, although 18 characters fit |
| `TextWrap.WrappersAgree` | src/ui/mem_console_ui_hud.c:127-195 | on text without newlines the two wrappers give the same lines at equal width and capacity |
| `TextWrap.HudDropsBlanks` | src/ui/mem_console_ui_hud.c:127-195 | on any text, given room, the HUD's lines are the detail panel's without the blank ones |
| `TextWrap.SanitizedRowsWrapAlike` | src/ui/mem_console_ui_hud.c:66-195 | sanitised HUD rows wrap alike in both places for widths 18 to 120 |
| `EditBuffer.InputField.AppendText` | src/runtime/mem_console_state_db_picker.c:520-565 | the buffer shifts and copies come to inserting as much of the text as fits at the cursor, after dropping a selection |
| `EditBuffer.InputField.EraseChar` | src/runtime/mem_console_state_db_picker.c:567-604 | removes the selection, or the character before the cursor |
| `EditBuffer.InputField.DeleteChar` | src/runtime/mem_console_state_db_picker.c:606-642 | removes the selection, or the character after the cursor |
| `EditBuffer.InputField.DeleteSelection` | src/runtime/mem_console_state_db_picker.c:124-141 | closes the gap in the buffer and puts the cursor there; an empty selection is only clamped |
| `EditBuffer.InputField.NormalizeSelection` | src/runtime/mem_console_state_db_picker.c:96-113 | clamps the selection to the text and orders its ends |
| `EditBuffer.InputField.MoveCursor` | src/runtime/mem_console_state_db_picker.c:644-662 | moves by any amount, stopping at the ends, and clears the selection |
| `EditBuffer.InputField.MoveHome` | src/runtime/mem_console_state_db_picker.c:664-680 | cursor to the start, nothing selected, text unchanged |
| `EditBuffer.InputField.MoveEnd` | src/runtime/mem_console_state_db_picker.c:682-698 | cursor to the end of the text, nothing selected, text unchanged |
| `EditBuffer.InputField.Select` | src/runtime/mem_console_state_db_picker.c:475-483 | everything selected, cursor at the end |
| `EditBuffer.InputField.BeginSelect` | src/runtime/mem_console_state_db_picker.c:485-494 | an empty selection anchored at the clamped position |
| `EditBuffer.InputField.UpdateSelect` | src/runtime/mem_console_state_db_picker.c:496-504 | selects from the anchor to the cursor, in order |
| `EditBuffer.RunsKeepFit` | src/runtime/mem_console_state_db_picker.c:520-698 | over every run of edits the text fits its buffer, holds no NUL, and cursor and selection stay inside it |
| `EditBuffer.RunIsZipperRun` | src/runtime/mem_console_state_db_picker.c:520-698 | over every run of edits with nothing selected the buffer behaves as two stacks, one on each side of the cursor, edited a character at a time |
| `EditBuffer.EditIsZipperStep` | src/runtime/mem_console_state_db_picker.c:520-698 | one edit is one step of the two stacks and leaves nothing selected |
| `EditBuffer.InsertThenErase` | src/runtime/mem_console_state_db_picker.c:520-604 | with no selection, erasing as many characters as were taken in restores text and cursor, also when the buffer cut the insertion |
| `EditBuffer.TypingInPieces` | src/runtime/mem_console_state_db_picker.c:520-565 | typing in two pieces equals typing at once, from any state, even across the end of the buffer |
| `EditBuffer.SelectionIsReplaced` | src/runtime/mem_console_state_db_picker.c:533-535 | typing over a selection replaces exactly the selected text; erasing and deleting remove exactly that |
| `EditBuffer.AllIsReplaced` | src/runtime/mem_console_state_db_picker.c:475-483 | after selecting everything, typing replaces the whole text, and erasing or deleting empties it |
| `EditBuffer.DragSelects` | src/runtime/mem_console_state_db_picker.c:485-504 | what lies between where a drag began and where it is now is selected, in either direction, and is what typing replaces and erasing removes |
| `EditBuffer.MovesKeepText` | src/runtime/mem_console_state_db_picker.c:644-698 | moving the cursor keeps the text and leaves nothing selected |
| `EditBuffer.GapOpens` | src/runtime/mem_console_state_db_picker.c:555-559 | the overlapping move and the copy insert the text and carry the terminator along |
| `EditBuffer.GapCloses` | src/runtime/mem_console_state_db_picker.c:134-140 | the overlapping move removes the stretch and carries the terminator along |

## Left out

- SQLite, statement plumbing and the fallback statements for older schemas: the queries are lists of rows.
- GraphLoad.LoadPriorityNodes: items equally near may come in any order; the program takes them by time of update.
- GraphLoad.LoadListedNodes: takes the list of items in scope as given; the program lists them by time of update.
- SDL, drawing, HUD placement, panes, the authoring host, path policy and directory creation.
- Allocation failure inside the graph passes, where a pass returns without doing its work.
- Database.PushDownIsLossless: compares unlimited lists; `Database.PushDownFindsMore` is the statement under a row limit.
- Nodes and edges left behind in the buffers beyond their counts. The graph comparison of the refresh is on whole buffers and the model keeps those, but the passes say nothing about stale entries.
- RefreshRuntime.RuntimeState.HandleCompletion: does not record the error text and the status line of a failed refresh.
- CanonicalEdges.EdgesCanonical: is about links between separate pairs of items; `RepeatedLinks.PairsCanonical` says how far the
  edges agree with several links between the same items.
- ConsoleEdits.ToggleProjectFlips: selecting, clearing and pruning projects is modelled on values, not in place.
- RefreshRuntime.RuntimeState.TickOnce: does not model metrics publication, wake signals, status lines and error texts, nor
  the early exit of a runtime whose queue or workers were never set up.
- EditBuffer.InputField.BeginSelect: does not model the drag flag, which only tells the mouse handling to go on.
- Results arriving after a switch to another database: completions do not carry a database path.
- The contents of a refreshed state beyond `RefreshProtocol.FromWorker`: reading the database may move selection, centre and list offset and may prune the selected projects.
- Writing and reading the preferences file, its container format, and hash collisions of the signature.
- The visual review mode of the command line, which sets selection, view and limit between loading and the first read.
- What else a view-mode switch does to the viewport, and the parsing of the edge-limit input.
- The database picker's directory listing and file-name handling.
- Editing through the newer text-edit component, which keeps its own cursor.
- EditBuffer.InputField.MoveCursor: does not model overflow of the cursor plus the delta, which takes a delta no key produces.
- Prefs.SaveLoadIsStableIff: is about real-valued ratios, so it says nothing about values that differ only below float precision.
