/** What a background refresh is asked for: the nineteen query settings of the console, how they are captured, and the
    three places that compare them. */
module Intents {
  import opened Limits
  import opened KindFilters

  /** Selected projects: a count and the key slots. */
  datatype Projects = Projects(count: int, keys: seq<string>)

  /** Query settings. Raw in the console state, where C flags and masks may hold anything; normalised once captured. */
  datatype Intent = Intent(search: string, selected: int, center: int, offset: int,
                           pinnedOnly: int, canonicalOnly: int, kindIndex: int, projects: Projects,
                           kind: EdgeFilter, edgeLimit: int, hops: int, layout: int, sort: int, fullScope: int,
                           node: NodeFilter)

  const BROWSE_KIND_COUNT := 8

  function Flag(x: int): int { if x != 0 then 1 else 0 }

  function ClampKindIndex(index: int): int {
    if index < 0 || index >= BROWSE_KIND_COUNT then 0 else index
  }

  /** Layout and sort modes: one of two values, the second only if asked for exactly. */
  function ClampMode(mode: int): int { if mode != 1 then 0 else 1 }

  function IdOrNone(id: int): int { if id > 0 then id else 0 }

  function KeyAt(p: Projects, i: nat): string {
    if i < |p.keys| then p.keys[i] else ""
  }

  function CopiedProjects(p: Projects): Projects {
    var count := Clamp(p.count, 0, SCOPE_FILTER_LIMIT);
    Projects(count, seq(SCOPE_FILTER_LIMIT, i => if 0 <= i < count then KeyAt(p, i) else ""))
  }

  predicate ProjectsMatch(a: Projects, b: Projects) {
    && a.count == b.count && 0 <= a.count <= SCOPE_FILTER_LIMIT
    && forall i :: 0 <= i < a.count ==> KeyAt(a, i) == KeyAt(b, i)
  }

  function EdgeMask(f: EdgeFilter): bv32 {
    if f.allOverride != 0 then EDGE_MASK_ALL else f.mask & EDGE_MASK_ALL
  }

  function NormalNode(f: NodeFilter): NodeFilter {
    NodeFilter(if f.allOverride != 0 then NODE_MASK_ALL else f.mask & NODE_MASK_ALL, Flag(f.allOverride))
  }

  /** The intent of the current console state. */
  function Capture(q: Intent): Intent {
    q.(pinnedOnly := Flag(q.pinnedOnly), canonicalOnly := Flag(q.canonicalOnly),
       kindIndex := ClampKindIndex(q.kindIndex),
       projects := CopiedProjects(q.projects),
       kind := EdgeFilter(EdgeMask(q.kind), Flag(q.kind.allOverride), q.kind.text),
       edgeLimit := ClampEdgeLimit(q.edgeLimit), hops := ClampHops(q.hops),
       layout := ClampMode(q.layout), sort := ClampMode(q.sort), fullScope := Flag(q.fullScope),
       node := NormalNode(q.node))
  }

  /** Storing an intent in the pending or in-flight slot. */
  function Stored(i: Intent): Intent {
    i.(pinnedOnly := Flag(i.pinnedOnly), canonicalOnly := Flag(i.canonicalOnly),
       kindIndex := ClampKindIndex(i.kindIndex),
       projects := CopiedProjects(i.projects), kind := i.kind.(allOverride := Flag(i.kind.allOverride)),
       fullScope := Flag(i.fullScope), node := i.node.(allOverride := Flag(i.node.allOverride)))
  }

  /** The query settings a console state gets when an intent is written back into it: everything is normalised and the
      kind text is recomputed from the mask. */
  function Restored(i: Intent): Intent {
    Intent(i.search, IdOrNone(i.selected), IdOrNone(i.center), i.offset, Flag(i.pinnedOnly), Flag(i.canonicalOnly),
           ClampKindIndex(i.kindIndex), CopiedProjects(i.projects),
           Synced(EdgeFilter(EdgeMask(i.kind), Flag(i.kind.allOverride), i.kind.text)),
           ClampEdgeLimit(i.edgeLimit), ClampHops(i.hops), ClampMode(i.layout), ClampMode(i.sort), Flag(i.fullScope),
           NormalNode(i.node))
  }

  /** The comparison used to detect a changed intent. */
  predicate IntentMatches(a: Intent, b: Intent) {
    && a.search == b.search && a.selected == b.selected && a.center == b.center && a.offset == b.offset
    && Flag(a.pinnedOnly) == Flag(b.pinnedOnly) && Flag(a.canonicalOnly) == Flag(b.canonicalOnly)
    && ClampKindIndex(a.kindIndex) == ClampKindIndex(b.kindIndex)
    && a.kind == b.kind && a.edgeLimit == b.edgeLimit && a.hops == b.hops && a.layout == b.layout && a.sort == b.sort
    && a.fullScope == b.fullScope && a.node == b.node && ProjectsMatch(a.projects, b.projects)
  }

  /** The console state as the pending check presents it: masks cut to their bits, flags normalised, nothing clamped and
      the override not expanded. */
  function Presented(q: Intent): Intent {
    q.(kind := EdgeFilter(q.kind.mask & EDGE_MASK_ALL, Flag(q.kind.allOverride), q.kind.text),
       fullScope := Flag(q.fullScope),
       node := NodeFilter(q.node.mask & NODE_MASK_ALL, Flag(q.node.allOverride)))
  }

  /** The guard a finished refresh must pass: its intent against the raw console state. */
  predicate MatchesState(c: Intent, q: Intent) {
    && c.selected == q.selected && c.center == q.center && c.offset == q.offset
    && c.pinnedOnly == Flag(q.pinnedOnly) && c.canonicalOnly == Flag(q.canonicalOnly)
    && c.kindIndex == ClampKindIndex(q.kindIndex) && c.search == q.search
    && c.kind == EdgeFilter(EdgeMask(q.kind), Flag(q.kind.allOverride), q.kind.text)
    && c.edgeLimit == q.edgeLimit && c.hops == q.hops && c.layout == q.layout && c.sort == q.sort
    && c.fullScope == Flag(q.fullScope) && c.node == NormalNode(q.node)
    && ProjectsMatch(c.projects, q.projects)
  }

  ghost predicate Captured(i: Intent) {
    Capture(i) == i
  }

  /** The settings the comparisons read without clamping are in range. */
  ghost predicate LimitsInRange(q: Intent) {
    && q.edgeLimit == ClampEdgeLimit(q.edgeLimit) && q.hops == ClampHops(q.hops)
    && q.layout == ClampMode(q.layout) && q.sort == ClampMode(q.sort) && 0 <= q.projects.count <= SCOPE_FILTER_LIMIT
  }

  /** With an override on, its mask is full in the known bits. */
  ghost predicate OverridesFull(q: Intent) {
    && (q.kind.allOverride != 0 ==> q.kind.mask & EDGE_MASK_ALL == EDGE_MASK_ALL)
    && (q.node.allOverride != 0 ==> q.node.mask & NODE_MASK_ALL == NODE_MASK_ALL)
  }

  ghost predicate TextFollowsMask(q: Intent) {
    TextFollows(q.kind)
  }

  /** The states in which the pending check works: what the setters of the console keep, apart from selecting an
      unknown kind. */
  ghost predicate Recheckable(q: Intent) {
    LimitsInRange(q) && OverridesFull(q) && TextFollowsMask(q) && q.selected >= 0 && q.center >= 0
  }

  /** Everything already normalised. */
  ghost predicate Normal(q: Intent) {
    Captured(q) && Recheckable(q)
  }

  /** Capturing is a normaliser, and storing a captured intent keeps it. */
  lemma CaptureTwice(q: Intent)
    ensures Captured(Capture(q)) && Stored(Capture(q)) == Capture(q)
  {
  }

  predicate IsFlag(x: int) {
    x == 0 || x == 1
  }

  /** A request as it may be sent: flags, indices, limits and modes in range, unused project slots blank, and with an
      override the mask full. */
  ghost predicate ProperRequest(q: Intent) {
    && IsFlag(q.pinnedOnly) && IsFlag(q.canonicalOnly) && 0 <= q.kindIndex < 8
    && 0 <= q.projects.count <= 16 && |q.projects.keys| == 16
    && (forall i :: q.projects.count <= i < 16 ==> q.projects.keys[i] == "")
    && (if q.kind.allOverride == 0 then q.kind.mask & 0xff == q.kind.mask
        else q.kind.allOverride == 1 && q.kind.mask == 0xff)
    && 4 <= q.edgeLimit <= 1024 && 1 <= q.hops <= 10
    && IsFlag(q.layout) && IsFlag(q.sort) && IsFlag(q.fullScope)
    && (if q.node.allOverride == 0 then q.node.mask & 0x7f == q.node.mask
        else q.node.allOverride == 1 && q.node.mask == 0x7f)
  }

  /** Capturing leaves exactly the proper requests as they are. */
  lemma CapturedIffProper(q: Intent)
    ensures Captured(q) <==> ProperRequest(q)
  {
    hide CopiedProjects, EdgeMask, NormalNode;
    ProjectsProper(q.projects);
    FiltersProper(q.kind, q.node);
  }

  lemma ProjectsProper(p: Projects)
    ensures CopiedProjects(p) == p <==>
            0 <= p.count <= 16 && |p.keys| == 16 && forall i :: p.count <= i < 16 ==> p.keys[i] == ""
  {
    var c := CopiedProjects(p);
    if 0 <= p.count <= 16 && |p.keys| == 16 && forall i :: p.count <= i < 16 ==> p.keys[i] == "" {
      assert c.keys == p.keys;
    }
  }

  lemma FiltersProper(f: EdgeFilter, g: NodeFilter)
    ensures EdgeFilter(EdgeMask(f), Flag(f.allOverride), f.text) == f <==>
            if f.allOverride == 0 then f.mask & 0xff == f.mask else f.allOverride == 1 && f.mask == 0xff
    ensures NormalNode(g) == g <==>
            if g.allOverride == 0 then g.mask & 0x7f == g.mask else g.allOverride == 1 && g.mask == 0x7f
  {
  }

  function Away(a: int, b: int): nat {
    if a < b then b - a else a - b
  }

  /** And of any settings it makes the request that asks for the same: the same search, items, kinds and projects,
      numbers as near as they can be, and a mode that is not the second one is the first. */
  lemma CaptureAsksForTheSame(q: Intent, linkKind: string, itemKind: string, x: int)
    ensures var c := Capture(q);
      && c.search == q.search && c.selected == q.selected && c.center == q.center && c.offset == q.offset
      && (c.pinnedOnly != 0 <==> q.pinnedOnly != 0) && (c.canonicalOnly != 0 <==> q.canonicalOnly != 0)
      && (c.fullScope != 0 <==> q.fullScope != 0)
      && (c.layout == 1 <==> q.layout == 1) && (c.sort == 1 <==> q.sort == 1)
      && c.kindIndex == (if 0 <= q.kindIndex < 8 then q.kindIndex else 0)
      && (4 <= x <= 1024 ==> Away(c.edgeLimit, q.edgeLimit) <= Away(x, q.edgeLimit))
      && (1 <= x <= 10 ==> Away(c.hops, q.hops) <= Away(x, q.hops))
      && (0 <= x <= 16 ==> Away(c.projects.count, q.projects.count) <= Away(x, q.projects.count))
      && (0 <= x < c.projects.count ==> KeyAt(c.projects, x) == KeyAt(q.projects, x))
      && c.kind.text == q.kind.text
      && (EdgeKindEnabled(c.kind, linkKind) <==> EdgeKindEnabled(q.kind, linkKind))
      && (NodeKindEnabled(c.node, itemKind) <==> NodeKindEnabled(q.node, itemKind))
  {
    hide EdgeKindEnabled, NodeKindEnabled;
    FiltersAskForTheSame(q.kind, q.node, linkKind, itemKind);
  }

  lemma FiltersAskForTheSame(f: EdgeFilter, g: NodeFilter, linkKind: string, itemKind: string)
    ensures EdgeKindEnabled(EdgeFilter(EdgeMask(f), Flag(f.allOverride), f.text), linkKind) <==>
            EdgeKindEnabled(f, linkKind)
    ensures NodeKindEnabled(NormalNode(g), itemKind) <==> NodeKindEnabled(g, itemKind)
  {
    assert EdgeKindBit(linkKind) & 0xff == EdgeKindBit(linkKind);
    hide EdgeKindBit, NodeKindBit;
  }

  /** Writing a proper request back into a console restores it. */
  lemma RestoredIsSame(i: Intent)
    requires ProperRequest(i) && TextFollows(i.kind) && i.selected >= 0 && i.center >= 0
    ensures Restored(i) == i && Stored(i) == i
  {
    hide CopiedProjects, NormalNode, SingleKind;
    ProjectsProper(i.projects);
    FiltersProper(i.kind, i.node);
  }

  /** Copies agree exactly when the originals match on the selected keys. */
  lemma ProjectsAgree(a: Projects, b: Projects)
    requires CopiedProjects(a) == a
    ensures ProjectsMatch(a, b) <==> a == CopiedProjects(b) && 0 <= b.count <= SCOPE_FILTER_LIMIT
  {
  }

  /** Between captured intents the comparison is equality. */
  lemma MatchIsEquality(a: Intent, b: Intent)
    requires Captured(a) && Captured(b)
    ensures IntentMatches(a, b) <==> a == b
  {
  }

  /** The completion guard accepts exactly the intent a capture would produce now, provided the raw limits are in
      range. */
  lemma GuardIsCurrentIntent(c: Intent, q: Intent)
    requires Captured(c)
    ensures MatchesState(c, q) <==> c == Capture(q) && LimitsInRange(q)
  {
  }

  /** If the pending check passes, what it submits is the current intent. No normal form is needed for this. */
  lemma PassedCheckIsCurrent(p: Intent, q: Intent)
    requires IntentMatches(Restored(p), Presented(q))
    ensures Capture(Restored(p)) == Capture(q)
  {
  }

  /** The pending check recognises the current intent exactly in recheckable states. */
  lemma CheckPassesIffRecheckable(q: Intent)
    ensures IntentMatches(Restored(Capture(q)), Presented(q)) <==> Recheckable(q)
  {
  }

  /** Selecting no kind at all, from any state with a proper selection of kinds, leaves the console in a state the
      pending check does not recognise. */
  lemma SingleKindBreaksTheCheck(q: Intent, kind: string)
    requires Normal(q) && EdgeKindBit(kind) == 0
    ensures Recheckable(q.(kind := SingleSelected(q.kind, kind))) <==> q.kind.mask == EDGE_MASK_ALL
  {
  }
}
