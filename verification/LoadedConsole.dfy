/** The console as loading its preferences leaves it, and as the user's filter clicks and the refreshes keep it: where
    the pending check of the refresh protocol works, and the one way into a state where it does not. */
module LoadedConsole {
  import opened Limits
  import opened KindFilters
  import opened Intents
  import opened Prefs
  import opened RefreshProtocol

  /** The query settings of a console with these preferences; the other four are not saved. */
  function IntentOf(s: Settings, center: int, pinnedOnly: int, canonicalOnly: int, kindIndex: int): Intent {
    Intent(s.search, s.selected, center, s.offset, pinnedOnly, canonicalOnly, kindIndex, s.projects, s.kind,
           s.edgeLimit, s.hops, s.layout, s.sort, s.fullScope, s.node)
  }

  /** Right after loading: the settings that are not saved are as seeded. */
  function FreshIntent(s: Settings): Intent {
    IntentOf(s, 0, 0, 0, 0)
  }

  /** When the main loop begins: between loading the preferences and the first tick the console is read from the
      database once, which may select the first row, centre the graph, move the list offset and prune the projects. */
  ghost predicate StartsFrom(q: Intent, s: Settings) {
    && q == FreshIntent(s).(selected := q.selected, center := q.center, offset := q.offset, projects := q.projects)
    && q.selected >= 0 && q.center >= 0 && 0 <= q.projects.count <= SCOPE_FILTER_LIMIT
  }

  /** It starts with what was loaded, and with no browse filter. */
  lemma StartIsLoaded(q: Intent, s: Settings)
    requires StartsFrom(q, s)
    ensures q.search == s.search && q.kind == s.kind && q.node == s.node && q.edgeLimit == s.edgeLimit
    ensures q.hops == s.hops && q.layout == s.layout && q.sort == s.sort && q.fullScope == s.fullScope
    ensures q.pinnedOnly == 0 && q.canonicalOnly == 0 && q.kindIndex == 0
  {
  }

  ghost predicate MaskFull(f: EdgeFilter) {
    f.mask & EDGE_MASK_ALL == EDGE_MASK_ALL
  }

  // ----- what loading does to the link-kind filter

  /** Versions 5 to 7 select the stored kind and set the stored override independently of each other; version 3 may set
      the override over the mask it finds; versions 4 and 8 to 11 do neither, and the rest leave the filter alone. */
  ghost predicate KeepsOverrideFull(s: Settings, c: Chunk) {
    match c
    case V3(p3) => EdgeKindBit(p3.kindText) == 0 ==> MaskFull(s.kind)
    case Layered(version, p) =>
      if 5 <= version <= 7 then p.kindOverride != 0 ==> EdgeKindBit(p.kindText) == 0 && MaskFull(s.kind)
      else if 4 <= version <= PREFS_VERSION then true
      else OverrideIsFull(s.kind)
    case _ => OverrideIsFull(s.kind)
  }

  /** Loading any chunk of any version leaves the override off or over a full mask exactly under that condition. */
  lemma LoadOverrideFullIff(s: Settings, presets: Presets, c: Chunk)
    ensures OverrideIsFull(Load(s, presets, c).kind) <==> KeepsOverrideFull(s, c)
  {
    hide CompactProjects, RatioOrDefault, ZoomOrDefault, PanOrDefault, HiddenIds, IdSlots, Dedup, NormalNode;
    hide ApplyLayered, SingleKind, OverrideIsFull;
    match c {
      case V3(p3) => TextSelection(s.kind, p3.kindText, 0);
      case Layered(version, p) => LayeredOverrideFullIff(s, presets, version, p);
      case _ =>
    }
  }

  lemma LayeredOverrideFullIff(s: Settings, presets: Presets, version: int, p: Payload)
    ensures OverrideIsFull(ApplyLayered(s, presets, version, p).kind) <==> KeepsOverrideFull(s, Layered(version, p))
  {
    hide OverrideIsFull, MaskFull, ApplyV5, ApplyV6, ApplyV7, ApplyV8, ApplyV9, ApplyV10, ApplyV11;
    KindOfVersion(s, presets, p);
    KindOfVersion(s, presets, p.(kindOverride := 0));
    TextSelection(s.kind, p.kindText, p.kindOverride);
    TextSelection(s.kind, p.kindText, 0);
    MaskLoaded(p);
  }

  /** The link-kind filter after each layer. */
  lemma KindOfVersion(s: Settings, presets: Presets, p: Payload)
    ensures ApplyV5(s, presets, p).kind == ApplyV6(s, presets, p).kind == ApplyV7(s, presets, p).kind ==
            Synced(KindFromText(s.kind, p.kindText).(allOverride := Flag(p.kindOverride)))
    ensures ApplyV8(s, presets, p).kind == ApplyV9(s, presets, p).kind == ApplyV10(s, presets, p).kind ==
            ApplyV11(s, presets, p).kind == LoadedMask(p)
  {
    hide Synced, KindFromText, SetPresets, CompactProjects, HiddenIds, IdSlots, Dedup, NormalNode, EdgeMask;
    SyncedIgnoresText(EdgeMask(EdgeFilter(p.kindMask, p.kindOverride, "")), Flag(p.kindOverride), "",
                      ApplyV7(s, presets, p).kind.text);
    EdgeMaskIgnoresText(p.kindMask, p.kindOverride, ApplyV7(s, presets, p).kind.text);
  }

  function LoadedMask(p: Payload): EdgeFilter {
    Synced(EdgeFilter(EdgeMask(EdgeFilter(p.kindMask, p.kindOverride, "")), Flag(p.kindOverride), ""))
  }

  lemma SyncedIgnoresText(mask: bv32, allOverride: int, a: string, b: string)
    ensures Synced(EdgeFilter(mask, allOverride, a)) == Synced(EdgeFilter(mask, allOverride, b))
  {
  }

  lemma EdgeMaskIgnoresText(mask: bv32, allOverride: int, text: string)
    ensures EdgeMask(EdgeFilter(mask, allOverride, text)) == EdgeMask(EdgeFilter(mask, allOverride, ""))
  {
  }

  lemma MaskLoaded(p: Payload)
    ensures OverrideIsFull(LoadedMask(p))
  {
    hide SingleKind;
  }

  lemma TextSelection(f: EdgeFilter, text: string, override: int)
    ensures OverrideIsFull(KindFromText(f, text)) <==> (EdgeKindBit(text) == 0 ==> MaskFull(f))
    ensures OverrideIsFull(Synced(KindFromText(f, text).(allOverride := Flag(override)))) <==>
            (override != 0 ==> EdgeKindBit(text) == 0 && MaskFull(f))
  {
    hide SingleKind;
  }

  /** The one way for a console to come out of loading with an override over a partial mask: a payload of version 5 to 7
      that names a known kind and sets the override all the same. */
  ghost predicate KindUnderOverride(c: Chunk) {
    c.Layered? && 5 <= c.version <= 7 && c.p.kindOverride != 0 && EdgeKindBit(c.p.kindText) != 0
  }

  // ----- a loaded console and the pending check

  /** Everything the pending check wants except full masks under overrides. */
  ghost predicate OtherwiseRecheckable(q: Intent) {
    LimitsInRange(q) && NodeFilterNormal(q.node) && TextFollowsMask(q) && q.selected >= 0 && q.center >= 0
  }

  lemma NormalNodeFilters(f: NodeFilter)
    ensures NodeFilterNormal(f) <==> f == NormalNode(f)
    ensures NodeFilterNormal(NormalNode(f))
    ensures NodeFilterNormal(f) ==> (f.allOverride != 0 ==> f.mask & NODE_MASK_ALL == NODE_MASK_ALL)
  {
  }

  lemma SeededIsRecheckable(theme: int, font: int)
    ensures OtherwiseRecheckable(FreshIntent(Seeded(theme, font))) && OverrideIsFull(Seeded(theme, font).kind)
  {
  }

  /** Loading normalises the limits, the modes, the item-kind filter and the selection, whatever the chunk says. */
  lemma LoadKeepsOtherwise(s: Settings, presets: Presets, c: Chunk)
    requires OtherwiseRecheckable(FreshIntent(s))
    ensures OtherwiseRecheckable(FreshIntent(Load(s, presets, c)))
  {
    hide CompactProjects, RatioOrDefault, ZoomOrDefault, PanOrDefault, HiddenIds, IdSlots, Dedup;
    hide ApplyLayered, SingleKind, KindFromText, Synced, NodeFilterNormal, NormalNode;
    match c {
      case V3(p3) =>
        CompactCount(p3.projects);
        KindFromTextInSync(s.kind, p3.kindText, 0);
      case Layered(version, p) => LayeredKeepsOtherwise(s, presets, version, p);
      case _ =>
    }
  }

  lemma CompactCount(p: Projects)
    ensures 0 <= CompactProjects(p).count <= SCOPE_FILTER_LIMIT
  {
    NonEmptyFacts(SelectedKeys(p));
  }

  lemma LayeredKeepsOtherwise(s: Settings, presets: Presets, version: int, p: Payload)
    requires OtherwiseRecheckable(FreshIntent(s))
    ensures OtherwiseRecheckable(FreshIntent(ApplyLayered(s, presets, version, p)))
  {
    hide OtherwiseRecheckable, ApplyV5, ApplyV6, ApplyV7, ApplyV8, ApplyV9, ApplyV10, ApplyV11;
    V5IsOtherwise(s, presets, p);
    V5IsOtherwise(s, presets, p.(kindOverride := 0));
    V7IsOtherwise(s, presets, p);
    V11IsOtherwise(s, presets, p);
  }

  lemma V5IsOtherwise(s: Settings, presets: Presets, p: Payload)
    ensures OtherwiseRecheckable(FreshIntent(ApplyV5(s, presets, p)))
  {
    hide CompactProjects, RatioOrDefault, ZoomOrDefault, PanOrDefault, SingleKind, KindFromText;
    CompactCount(p.projects);
    KindFromTextInSync(s.kind, p.kindText, Flag(p.kindOverride));
  }

  lemma V7IsOtherwise(s: Settings, presets: Presets, p: Payload)
    ensures OtherwiseRecheckable(FreshIntent(ApplyV6(s, presets, p)))
    ensures OtherwiseRecheckable(FreshIntent(ApplyV7(s, presets, p)))
  {
    hide ApplyV5, SingleKind, NormalNode;
    V5IsOtherwise(s, presets, p);
    NormalNodeFilters(NodeFilter(p.nodeMask, p.nodeOverride));
  }

  lemma V11IsOtherwise(s: Settings, presets: Presets, p: Payload)
    ensures OtherwiseRecheckable(FreshIntent(ApplyV8(s, presets, p)))
    ensures OtherwiseRecheckable(FreshIntent(ApplyV9(s, presets, p)))
    ensures OtherwiseRecheckable(FreshIntent(ApplyV10(s, presets, p)))
    ensures OtherwiseRecheckable(FreshIntent(ApplyV11(s, presets, p)))
  {
    hide ApplyV7, SingleKind, NormalNode, EdgeMask, HiddenIds, IdSlots, Dedup, NodeFilterNormal;
    V7IsOtherwise(s, presets, p);
  }

  /** A console that starts from loaded preferences is recheckable unless they name a kind under an override. */
  lemma LoadedIsRecheckableIff(theme: int, font: int, presets: Presets, c: Chunk, q: Intent)
    requires StartsFrom(q, Load(Seeded(theme, font), presets, c))
    ensures NodeFilterNormal(q.node) && (Recheckable(q) <==> !KindUnderOverride(c))
  {
    hide Load, Seeded, NodeFilterNormal, NormalNode, KeepsOverrideFull, EdgeKindBit;
    var s := Seeded(theme, font);
    SeededIsRecheckable(theme, font);
    LoadKeepsOtherwise(s, presets, c);
    LoadOverrideFullIff(s, presets, c);
    NormalNodeFilters(Load(s, presets, c).node);
    LoadedKindInMask(theme, font, presets, c);
    SeededKeepsOverride(theme, font, c);
  }

  lemma StartsInRange(theme: int, font: int, presets: Presets, chunk: Chunk, q: Intent)
    requires StartsFrom(q, Load(Seeded(theme, font), presets, chunk))
    ensures LimitsInRange(q)
  {
    hide Load, Seeded, NodeFilterNormal, TextFollows;
    SeededIsRecheckable(theme, font);
    LoadKeepsOtherwise(Seeded(theme, font), presets, chunk);
  }

  lemma SeededKeepsOverride(theme: int, font: int, c: Chunk)
    ensures KeepsOverrideFull(Seeded(theme, font), c) <==> !KindUnderOverride(c)
  {
    hide EdgeKindBit;
  }

  /** A loaded mask holds known bits only, so being full is being the whole mask. */
  lemma LoadedKindInMask(theme: int, font: int, presets: Presets, c: Chunk)
    ensures var f := Load(Seeded(theme, font), presets, c).kind; f.mask & EDGE_MASK_ALL == f.mask
  {
    hide EdgeKindBit, SingleKind, CompactProjects, HiddenIds, IdSlots, Dedup, NormalNode, KindFromText;
    hide ApplyLayered, RatioOrDefault;
    var s := Seeded(theme, font);
    match c {
      case V3(p3) => TextMask(s.kind, p3.kindText);
      case Layered(version, p) => LayeredKindInMask(s, presets, version, p);
      case _ =>
    }
  }

  lemma TextMask(f: EdgeFilter, text: string)
    ensures KindFromText(f, text).mask & EDGE_MASK_ALL == KindFromText(f, text).mask
  {
    hide EdgeKindBit, SingleKind;
  }

  lemma LayeredKindInMask(s: Settings, presets: Presets, version: int, p: Payload)
    requires s.kind.mask & EDGE_MASK_ALL == s.kind.mask
    ensures var f := ApplyLayered(s, presets, version, p).kind; f.mask & EDGE_MASK_ALL == f.mask
  {
    hide ApplyV5, ApplyV6, ApplyV7, ApplyV8, ApplyV9, ApplyV10, ApplyV11, KindFromText, EdgeMask, Synced;
    KindOfVersion(s, presets, p);
    KindOfVersion(s, presets, p.(kindOverride := 0));
    SyncedMask(KindFromText(s.kind, p.kindText).(allOverride := Flag(p.kindOverride)));
    SyncedMask(KindFromText(s.kind, p.kindText).(allOverride := 0));
    SyncedMask(EdgeFilter(EdgeMask(EdgeFilter(p.kindMask, p.kindOverride, "")), Flag(p.kindOverride), ""));
  }

  lemma SyncedMask(f: EdgeFilter)
    ensures Synced(f).mask & EDGE_MASK_ALL == Synced(f).mask
  {
    hide SingleKind;
  }

  /** The console never writes such a payload itself while its kind text follows its mask, which every setter sees to.
      */
  lemma WrittenPayloadsAreHarmless(s: Settings, version: int)
    requires TextFollowsMask(FreshIntent(s))
    ensures !KindUnderOverride(Layered(version, BuildV5(s))) && !KindUnderOverride(Layered(version, BuildV6(s)))
    ensures !KindUnderOverride(Layered(version, BuildV7(s))) && !KindUnderOverride(Layered(version, BuildV11(s)))
  {
    hide CompactProjects, RatioOrDefault, ZoomOrDefault, PanOrDefault, HiddenIds, IdSlots, NormalNode, EdgeMask;
  }

  // ----- filter clicks

  datatype FilterOp = OnEdges(edgeOp: EdgeOp) | OnNodes(nodeOp: NodeOp)

  function FilterStep(q: Intent, op: FilterOp): Intent {
    match op
    case OnEdges(e) => q.(kind := EdgeStep(q.kind, e))
    case OnNodes(n) => q.(node := NodeStep(q.node, n))
  }

  function FilterRun(q: Intent, ops: seq<FilterOp>): Intent
    decreases |ops|
  {
    if ops == [] then q else FilterRun(FilterStep(q, ops[0]), ops[1..])
  }

  ghost predicate UnknownSingle(op: FilterOp) {
    op.OnEdges? && op.edgeOp.SetSingle? && EdgeKindBit(op.edgeOp.kind) == 0
  }

  /** The states the user's clicks keep. */
  ghost predicate Sound(q: Intent) {
    Recheckable(q) && NodeFilterNormal(q.node)
  }

  /** A click on a filter keeps the console recheckable, unless it selects an unknown kind over a partial mask. */
  lemma FilterStepStaysSoundIff(q: Intent, op: FilterOp)
    requires Sound(q)
    ensures NodeFilterNormal(FilterStep(q, op).node)
    ensures Recheckable(FilterStep(q, op)) <==> !(UnknownSingle(op) && !MaskFull(q.kind))
  {
    hide SingleKind, EdgeStep;
    if op.OnNodes? {
      hide NodeStep, NodeFilterNormal;
      NodeStepStaysNormal(q.node, op.nodeOp);
      NormalNodeFilters(NodeStep(q.node, op.nodeOp));
    } else {
      hide NodeFilterNormal;
      EdgeStepSoundIff(q.kind, op.edgeOp);
    }
  }

  lemma EdgeStepSoundIff(f: EdgeFilter, op: EdgeOp)
    requires (f.allOverride != 0 ==> MaskFull(f)) && TextFollows(f)
    ensures var g := EdgeStep(f, op);
            TextFollows(g) && ((g.allOverride != 0 ==> MaskFull(g)) <==>
                               !(op.SetSingle? && EdgeKindBit(op.kind) == 0 && !MaskFull(f)))
  {
    hide EdgeKindBit, Synced, TextFollows, MaskFull;
    AllSelectedFollows();
    SetOverride(f);
    match op {
      case ToggleKind(kind) =>
        var g := EdgeFilter((f.mask ^ EdgeKindBit(kind)) & EDGE_MASK_ALL, 0, f.text);
        SyncedFollows(g);
      case SelectAll =>
      case ToggleOverride => SyncedFollows(f.(allOverride := 0));
      case SetSingle(kind) =>
        SyncedFollows(f.(allOverride := 1));
        SyncedFollows(f.(mask := EdgeKindBit(kind), allOverride := 0));
    }
  }

  lemma AllSelectedFollows()
    ensures var f := EdgeFilter(EDGE_MASK_ALL, 1, ""); TextFollows(f) && MaskFull(f)
  {
  }

  lemma SetOverride(f: EdgeFilter)
    ensures MaskFull(f.(allOverride := 1)) <==> MaskFull(f)
  {
  }

  lemma SyncedFollows(f: EdgeFilter)
    ensures var g := Synced(f); g.allOverride == f.allOverride && (MaskFull(g) <==> MaskFull(f)) && TextFollows(g)
  {
    hide SingleKind;
  }

  lemma {:induction false} FilterRunsStaySound(q: Intent, ops: seq<FilterOp>)
    requires Sound(q) && forall i :: 0 <= i < |ops| ==> !UnknownSingle(ops[i])
    ensures Sound(FilterRun(q, ops))
    decreases |ops|
  {
    hide Recheckable, NodeFilterNormal, FilterStep, UnknownSingle;
    if ops != [] {
      FilterStepStaysSoundIff(q, ops[0]);
      FilterRunsStaySound(FilterStep(q, ops[0]), ops[1..]);
    }
  }

  /** So a console stays recheckable from its start on, over every run of clicks the user interface offers. */
  lemma LoadedStaysSound(theme: int, font: int, presets: Presets, c: Chunk, q: Intent, ops: seq<FilterOp>)
    requires StartsFrom(q, Load(Seeded(theme, font), presets, c))
    requires !KindUnderOverride(c) && forall i :: 0 <= i < |ops| ==> !UnknownSingle(ops[i])
    ensures Sound(FilterRun(q, ops))
  {
    hide Load, Seeded, StartsFrom, Recheckable, NodeFilterNormal, KindUnderOverride, UnknownSingle, FilterRun;
    LoadedIsRecheckableIff(theme, font, presets, c, q);
    FilterRunsStaySound(q, ops);
  }
}
