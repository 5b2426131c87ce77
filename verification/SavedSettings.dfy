/** Saving and loading told by the settings themselves: which of them come back as they were, and what older versions of
    the payload leave as it is. */
module SavedSettings {
  import opened Limits
  import opened KindFilters
  import opened Intents
  import opened KindSelection
  import opened Prefs

  // ----- the normal form, field by field

  /** A pane ratio: not set, or strictly inside the window. */
  predicate PaneRatio(r: Num) {
    r.Finite? && (r.value == 0.0 || 0.01 < r.value < 0.99)
  }

  ghost predicate PlainProjects(p: Projects) {
    && 0 <= p.count <= 16 && |p.keys| == 16
    && forall i :: 0 <= i < 16 ==> (p.keys[i] != "" <==> i < p.count)
  }

  ghost predicate PlainHidden(h: Hidden) {
    && 0 <= h.count <= 128 && |h.ids| == 128
    && (forall i :: 0 <= i < 128 ==> if i < h.count then h.ids[i] > 0 else h.ids[i] == 0)
    && (forall i, j :: 0 <= i < j < h.count ==> h.ids[i] != h.ids[j])
  }

  ghost predicate PlainLinkKinds(f: EdgeFilter) {
    && (if f.allOverride == 0 then f.mask & 0xff == f.mask else f.allOverride == 1 && f.mask == 0xff)
    && TextFollows(f)
  }

  predicate PlainItemKinds(f: NodeFilter) {
    if f.allOverride == 0 then f.mask & 0x7f == f.mask else f.allOverride == 1 && f.mask == 0x7f
  }

  predicate PlainPanes(s: Settings) {
    && PaneRatio(s.paneLeft) && PaneRatio(s.paneRight) && PaneRatio(s.paneDetail) && PaneRatio(s.paneDetailTop)
    && PaneRatio(s.leftTop) && s.leftTop.value != 0.0
    && IsFlag(s.leftCollapsed) && IsFlag(s.rightCollapsed)
  }

  predicate PlainView(s: Settings) {
    && s.panX.Finite? && s.panY.Finite? && s.zoom.Finite? && 0.1 <= s.zoom.value <= 8.0
    && s.graphMode == 1 && IsFlag(s.layout) && IsFlag(s.sort) && IsFlag(s.fullScope) && IsFlag(s.funnel)
    && IsFlag(s.labels) && 4 <= s.edgeLimit <= 1024 && 1 <= s.hops <= 10 && -4 <= s.textZoom <= 5
  }

  /** Everything but the presets and the link kinds. */
  ghost predicate PlainOtherwise(s: Settings) {
    && PlainPanes(s) && PlainView(s) && PlainProjects(s.projects) && PlainHidden(s.hidden)
    && PlainItemKinds(s.node) && s.selected >= 0 && s.offset >= 0
  }

  ghost predicate NormalSettings(s: Settings) {
    PlainOtherwise(s) && PlainLinkKinds(s.kind)
  }

  // ----- what comes back of each field

  lemma RatioBack(r: Num)
    ensures RatioOrDefault(RatioOrDefault(r)) == r <==> PaneRatio(r)
    ensures PaneRatio(RatioOrDefault(r)) && RatioOrDefault(RatioOrDefault(r)) == RatioOrDefault(r)
  {
  }

  lemma TopBack(r: Num)
    ensures var ratio := RatioOrDefault(RatioOrDefault(r));
            (if ratio.value <= 0.0 then Finite(0.58) else ratio) == r <==> PaneRatio(r) && r.value != 0.0
  {
  }

  lemma ViewBack(x: Num, z: Num)
    ensures PanOrDefault(PanOrDefault(x)) == x <==> x.Finite?
    ensures ZoomOrDefault(ZoomOrDefault(z)) == z <==> z.Finite? && 0.1 <= z.value <= 8.0
  {
  }

  lemma ProjectsBack(p: Projects)
    ensures CompactProjects(CompactProjects(p)) == p <==> PlainProjects(p)
  {
    CompactTwice(p);
    CompactIsPlain(p);
    if PlainProjects(p) {
      PlainIsCompact(p);
    }
  }

  lemma CompactIsPlain(p: Projects)
    ensures PlainProjects(CompactProjects(p))
  {
    var keys := NonEmpty(SelectedKeys(p));
    NonEmptyFacts(SelectedKeys(p));
    SelectedCount(p);
    assert forall i :: 0 <= i < |keys| ==> keys[i] in keys;
  }

  lemma PlainIsCompact(p: Projects)
    requires PlainProjects(p)
    ensures CompactProjects(p) == p
  {
    var keys := SelectedKeys(p);
    assert forall i :: 0 <= i < |keys| ==> keys[i] != "";
    NonEmptyFacts(keys);
    assert Slots(keys).keys == p.keys;
  }

  lemma HiddenBack(h: Hidden)
    ensures IdSlots(Dedup(HiddenIds(IdSlots(HiddenIds(h))))) == h <==> PlainHidden(h)
  {
    HiddenLength(h);
    HiddenOfSlots(HiddenIds(h));
    DedupFacts(HiddenIds(h));
    if PlainHidden(h) {
      PlainIsSlots(h);
    } else {
      SlotsArePlain(Dedup(HiddenIds(h)));
    }
  }

  lemma PlainIsSlots(h: Hidden)
    requires PlainHidden(h)
    ensures PositiveAndDistinct(HiddenIds(h)) && IdSlots(HiddenIds(h)) == h
  {
    assert IdSlots(HiddenIds(h)).ids == h.ids;
  }

  lemma SlotsArePlain(ids: seq<int>)
    requires PositiveAndDistinct(ids) && |ids| <= NODE_LIMIT
    ensures PlainHidden(IdSlots(ids))
  {
  }

  lemma LinkKindsBack(f: EdgeFilter, text: string)
    ensures var saved := EdgeFilter(EdgeMask(f), Flag(f.allOverride), text);
            Synced(EdgeFilter(EdgeMask(saved), Flag(saved.allOverride), text)) == f <==> PlainLinkKinds(f)
  {
  }

  lemma ItemKindsBack(f: NodeFilter)
    ensures NormalNode(NodeFilter(NormalNode(f).mask, NormalNode(f).allOverride)) == f <==> PlainItemKinds(f)
  {
  }

  /** The link-kind filter the newest version loads. */
  lemma LinkKindsLoaded(t: Settings, presets: Presets, p: Payload)
    ensures ApplyV11(t, presets, p).kind ==
            Synced(EdgeFilter(EdgeMask(EdgeFilter(p.kindMask, p.kindOverride, "")), Flag(p.kindOverride), ""))
  {
    hide SingleKind, CompactProjects, HiddenIds, IdSlots, Dedup, NormalNode, KindFromText;
  }

  lemma LinkKindsSaved(s: Settings)
    ensures BuildV11(s).kindMask == EdgeMask(s.kind) && BuildV11(s).kindOverride == Flag(s.kind.allOverride)
  {
    hide CompactProjects, HiddenIds, IdSlots, NormalNode, EdgeMask;
  }

  /** Settings come back as they were, whatever they are loaded over, if and only if they are in normal form and their
      presets exist (or are those they are loaded over). */
  lemma SettingsComeBackIff(s: Settings, t: Settings, presets: Presets)
    ensures Load(t, presets, Layered(11, BuildV11(s))) == s <==>
            NormalSettings(s) && (s.theme in presets.themes || t.theme == s.theme) &&
            (s.font in presets.fonts || t.font == s.font)
  {
    hide CompactProjects, HiddenIds, IdSlots, Dedup, NormalNode, EdgeMask, Synced, KindFromText, RatioOrDefault,
         PanOrDefault, ZoomOrDefault, PlainProjects, PlainHidden, PlainLinkKinds, PlainItemKinds, PaneRatio,
         TextFollows;
    RatioBack(s.paneLeft);
    RatioBack(s.paneRight);
    RatioBack(s.paneDetail);
    RatioBack(s.paneDetailTop);
    TopBack(s.leftTop);
    ViewBack(s.panX, s.zoom);
    ViewBack(s.panY, s.zoom);
    ProjectsBack(s.projects);
    HiddenBack(s.hidden);
    LinkKindsBack(s.kind, "");
    LinkKindsLoaded(t, presets, BuildV11(s));
    LinkKindsSaved(s);
    ItemKindsBack(s.node);
  }

  /** So what is saved tells any two normal settings apart. */
  lemma SavedFormsTellApart(a: Settings, b: Settings)
    requires NormalSettings(a) && NormalSettings(b) && BuildV11(a) == BuildV11(b)
    ensures a == b
  {
    hide NormalSettings, BuildV11, Load;
    var presets := Presets({a.theme, b.theme}, {a.font, b.font});
    SettingsComeBackIff(a, a, presets);
    SettingsComeBackIff(b, a, presets);
  }

  /** The settings in a payload just as they are. */
  function AsStored(s: Settings): Payload {
    Payload(11, s.theme, s.font, s.paneLeft, s.paneRight, s.paneDetail, s.paneDetailTop, s.leftCollapsed,
            s.rightCollapsed, s.selected, s.offset, s.projects, s.kind.text, s.edgeLimit, s.hops, s.graphMode,
            s.panX, s.panY, s.zoom, s.search, s.kind.allOverride, s.layout, s.sort, s.node.mask,
            s.node.allOverride, s.fullScope, s.kind.mask, s.funnel, s.labels, s.hidden, s.leftTop, s.textZoom)
  }

  /** And each setting is saved in its own place. */
  lemma SavedAsTheyAre(s: Settings)
    requires NormalSettings(s)
    ensures BuildV11(s) == AsStored(s)
  {
    hide CompactProjects, HiddenIds, IdSlots, PlainProjects, PlainHidden, TextFollows;
    PlainIsCompact(s.projects);
    PlainIsSlots(s.hidden);
  }

  /** Saving any settings, normal or not, loses nothing that loading them just as they are would have kept. */
  lemma SavingLosesNothing(s: Settings, t: Settings, presets: Presets)
    ensures Load(t, presets, Layered(11, BuildV11(s))) == Load(t, presets, Layered(11, AsStored(s)))
  {
    hide CompactProjects, HiddenIds, IdSlots, Dedup, NormalNode, EdgeMask, Synced, KindFromText, RatioOrDefault,
         ZoomOrDefault, PanOrDefault;
    var p, raw := BuildV11(s), AsStored(s);
    RatioBack(s.paneLeft);
    RatioBack(s.paneRight);
    RatioBack(s.paneDetail);
    RatioBack(s.paneDetailTop);
    RatioBack(s.leftTop);
    ViewBack(s.panX, s.zoom);
    ViewBack(s.panY, s.zoom);
    CompactTwice(s.projects);
    HiddenLength(s.hidden);
    HiddenOfSlots(HiddenIds(s.hidden));
    LinkKindsLoaded(t, presets, p);
    LinkKindsLoaded(t, presets, raw);
    LinkKindsSaved(s);
    MaskSaved(s.kind);
    ItemKindsSaved(s.node);
  }

  lemma MaskSaved(f: EdgeFilter)
    ensures EdgeMask(EdgeFilter(EdgeMask(f), Flag(f.allOverride), "")) ==
            EdgeMask(EdgeFilter(f.mask, f.allOverride, ""))
  {
  }

  lemma ItemKindsSaved(f: NodeFilter)
    ensures NormalNode(NodeFilter(NormalNode(f).mask, NormalNode(f).allOverride)) ==
            NormalNode(NodeFilter(f.mask, f.allOverride))
  {
  }

  // ----- what the newest version loads, whatever the payload holds

  /** Numbers out of range become the nearest in range, ids and offsets below zero none, ratios and zooms that make no
      sense the default. */
  lemma NumbersLoad(t: Settings, presets: Presets, p: Payload)
    ensures var s := Load(t, presets, Layered(11, p));
      && s.theme == (if p.theme in presets.themes then p.theme else t.theme)
      && s.font == (if p.font in presets.fonts then p.font else t.font)
      && s.paneLeft == (if PaneRatio(p.paneLeft) then p.paneLeft else Finite(0.0))
      && s.paneRight == (if PaneRatio(p.paneRight) then p.paneRight else Finite(0.0))
      && s.paneDetail == (if PaneRatio(p.paneDetail) then p.paneDetail else Finite(0.0))
      && s.paneDetailTop == (if PaneRatio(p.paneDetailTop) then p.paneDetailTop else Finite(0.0))
      && s.leftTop == (if PaneRatio(p.leftTop) && p.leftTop.value != 0.0 then p.leftTop else Finite(0.58))
      && s.selected == (if p.selected < 0 then 0 else p.selected)
      && s.offset == (if p.offset < 0 then 0 else p.offset)
      && s.edgeLimit == (if p.edgeLimit < 4 then 4 else if p.edgeLimit > 1024 then 1024 else p.edgeLimit)
      && s.hops == (if p.hops < 1 then 1 else if p.hops > 10 then 10 else p.hops)
      && s.textZoom == (if p.textZoom < -4 then -4 else if p.textZoom > 5 then 5 else p.textZoom)
      && s.panX == (if p.panX.Finite? then p.panX else Finite(0.0))
      && s.panY == (if p.panY.Finite? then p.panY else Finite(0.0))
      && s.zoom == (if p.zoom.NonFinite? || p.zoom.value <= 0.0 then Finite(1.0)
                    else if p.zoom.value < 0.1 then Finite(0.1)
                    else if p.zoom.value > 8.0 then Finite(8.0) else p.zoom)
  {
    hide CompactProjects, HiddenIds, IdSlots, Dedup, NormalNode, EdgeMask, Synced, KindFromText;
  }

  /** Any flag but zero is set, a mode that is not the second one is the first, and the graph is on. */
  lemma FlagsLoad(t: Settings, presets: Presets, p: Payload)
    ensures var s := Load(t, presets, Layered(11, p));
      && s.search == p.search && s.graphMode == 1
      && s.leftCollapsed == (if p.leftCollapsed == 0 then 0 else 1)
      && s.rightCollapsed == (if p.rightCollapsed == 0 then 0 else 1)
      && s.fullScope == (if p.fullScope == 0 then 0 else 1) && s.funnel == (if p.funnel == 0 then 0 else 1)
      && s.labels == (if p.labels == 0 then 0 else 1)
      && s.layout == (if p.layout == 1 then 1 else 0) && s.sort == (if p.sort == 1 then 1 else 0)
  {
    hide CompactProjects, HiddenIds, IdSlots, Dedup, NormalNode, EdgeMask, Synced, KindFromText, RatioOrDefault,
         ZoomOrDefault, PanOrDefault;
  }

  /** The kinds shown are those the stored masks and overrides ask for. */
  lemma KindsLoad(t: Settings, presets: Presets, p: Payload, linkKind: string, itemKind: string)
    ensures var s := Load(t, presets, Layered(11, p));
      && (EdgeKindEnabled(s.kind, linkKind) <==>
          EdgeKindEnabled(EdgeFilter(p.kindMask, p.kindOverride, ""), linkKind))
      && (NodeKindEnabled(s.node, itemKind) <==> NodeKindEnabled(NodeFilter(p.nodeMask, p.nodeOverride), itemKind))
      && TextFollows(s.kind)
  {
    hide CompactProjects, HiddenIds, IdSlots, Dedup, KindFromText, RatioOrDefault, ZoomOrDefault, PanOrDefault,
         EdgeKindEnabled, NodeKindEnabled, Synced, EdgeMask, NormalNode, TextFollows;
    LinkKindsLoaded(t, presets, p);
    StoredKinds(EdgeFilter(p.kindMask, p.kindOverride, ""), NodeFilter(p.nodeMask, p.nodeOverride), linkKind, itemKind);
  }

  lemma StoredKinds(f: EdgeFilter, g: NodeFilter, linkKind: string, itemKind: string)
    ensures var loaded := Synced(EdgeFilter(EdgeMask(f), Flag(f.allOverride), ""));
            TextFollows(loaded) && (EdgeKindEnabled(loaded, linkKind) <==> EdgeKindEnabled(f, linkKind))
    ensures NodeKindEnabled(NormalNode(g), itemKind) <==> NodeKindEnabled(g, itemKind)
  {
    hide EdgeKindEnabled, NodeKindEnabled, SingleKind;
    SyncedEnables(EdgeFilter(EdgeMask(f), Flag(f.allOverride), f.text), linkKind);
    FiltersAskForTheSame(f, g, linkKind, itemKind);
  }

  lemma SyncedEnables(f: EdgeFilter, kind: string)
    ensures EdgeKindEnabled(Synced(f.(text := "")), kind) <==> EdgeKindEnabled(f, kind)
  {
    hide SingleKind, EdgeKindEnabled;
    var g := Synced(f.(text := ""));
    OverrideEnables(f, kind);
    OverrideEnables(g, kind);
    CutMaskEnables(g.(allOverride := 0), f, kind);
  }

  /** The selected projects are the keys that are not blank, the hidden anchors the ids that are positive, of the slots
      in use. */
  lemma ListsLoad(t: Settings, presets: Presets, p: Payload, key: string, id: int)
    requires key != "" && id > 0
    ensures var s := Load(t, presets, Layered(11, p));
      && PlainProjects(s.projects) && PlainHidden(s.hidden)
      && ((exists i :: 0 <= i < s.projects.count && s.projects.keys[i] == key) <==>
          exists i :: 0 <= i < p.projects.count && i < 16 && i < |p.projects.keys| && p.projects.keys[i] == key)
      && ((exists i :: 0 <= i < s.hidden.count && s.hidden.ids[i] == id) <==>
          exists i :: 0 <= i < p.hidden.count && i < 128 && i < |p.hidden.ids| && p.hidden.ids[i] == id)
  {
    hide NormalNode, EdgeMask, Synced, KindFromText, RatioOrDefault, ZoomOrDefault, PanOrDefault, CompactProjects,
         HiddenIds, IdSlots, Dedup, PlainProjects, PlainHidden;
    CompactIsPlain(p.projects);
    DedupIsPlain(p.hidden);
    KeysLoad(p.projects, key);
    IdsLoad(p.hidden, id);
  }

  lemma KeysLoad(p: Projects, key: string)
    requires key != ""
    ensures var c := CompactProjects(p);
      && 0 <= c.count <= |c.keys|
      && ((exists i :: 0 <= i < c.count && c.keys[i] == key) <==>
          exists i :: 0 <= i < p.count && i < 16 && i < |p.keys| && p.keys[i] == key)
  {
    CompactIsPlain(p);
    var all, keys := SelectedKeys(p), NonEmpty(SelectedKeys(p));
    NonEmptyKeeps(all, key);
    assert forall i :: 0 <= i < |keys| ==> CompactProjects(p).keys[i] == keys[i];
    hide CompactProjects, NonEmpty;
    assert key in keys <==> exists i :: 0 <= i < |keys| && keys[i] == key;
    forall i | 0 <= i < p.count && i < 16 && i < |p.keys| && p.keys[i] == key
      ensures key in all
    {
      assert all[i] == key;
    }
  }

  lemma {:induction false} NonEmptyKeeps(keys: seq<string>, key: string)
    requires key != ""
    ensures key in NonEmpty(keys) <==> key in keys
  {
    if keys != [] {
      NonEmptyKeeps(keys[..|keys| - 1], key);
      assert keys == keys[..|keys| - 1] + [keys[|keys| - 1]];
    }
  }

  lemma IdsLoad(h: Hidden, id: int)
    requires id > 0
    ensures var s := IdSlots(Dedup(HiddenIds(h)));
      && 0 <= s.count <= |s.ids|
      && ((exists i :: 0 <= i < s.count && s.ids[i] == id) <==>
          exists i :: 0 <= i < h.count && i < 128 && i < |h.ids| && h.ids[i] == id)
  {
    var all, ids := HiddenIds(h), Dedup(HiddenIds(h));
    HiddenLength(h);
    DedupFacts(all);
    assert forall i :: 0 <= i < |ids| ==> IdSlots(ids).ids[i] == ids[i];
    hide Dedup, IdSlots;
    assert id in ids <==> exists i :: 0 <= i < |ids| && ids[i] == id;
    forall i | 0 <= i < h.count && i < 128 && i < |h.ids| && h.ids[i] == id
      ensures id in all
    {
      assert all[i] == id;
    }
  }

  // ----- loading normalises, whatever the version

  lemma RatioIsProper(r: Num)
    ensures PaneRatio(RatioOrDefault(r))
    ensures var ratio := RatioOrDefault(r);
            var top := if ratio.value <= 0.0 then Finite(0.58) else ratio;
            PaneRatio(top) && top.value != 0.0
  {
  }

  lemma DedupIsPlain(h: Hidden)
    ensures PlainHidden(IdSlots(Dedup(HiddenIds(h))))
  {
    HiddenLength(h);
    DedupFacts(HiddenIds(h));
    SlotsArePlain(Dedup(HiddenIds(h)));
  }

  lemma ItemKindsArePlain(f: NodeFilter)
    ensures PlainItemKinds(NormalNode(f)) && PlainItemKinds(NodeFilter(NODE_MASK_ALL, 1))
  {
  }

  lemma V5IsPlain(t: Settings, presets: Presets, p: Payload)
    requires PlainOtherwise(t)
    ensures PlainOtherwise(ApplyV5(t, presets, p))
  {
    hide CompactProjects, PlainProjects, PlainHidden, PaneRatio, RatioOrDefault, KindFromText, Synced, PlainItemKinds;
    CompactIsPlain(p.projects);
    RatioIsProper(p.paneLeft);
    RatioIsProper(p.paneRight);
    RatioIsProper(p.paneDetail);
    RatioIsProper(p.paneDetailTop);
    ItemKindsArePlain(NodeFilter(0, 0));
  }

  lemma V11IsPlain(t: Settings, presets: Presets, p: Payload)
    requires PlainOtherwise(t)
    ensures PlainOtherwise(ApplyV6(t, presets, p)) && PlainOtherwise(ApplyV7(t, presets, p))
    ensures PlainOtherwise(ApplyV8(t, presets, p)) && PlainOtherwise(ApplyV9(t, presets, p))
    ensures PlainOtherwise(ApplyV10(t, presets, p)) && PlainOtherwise(ApplyV11(t, presets, p))
  {
    hide ApplyV5, PlainProjects, PlainHidden, PaneRatio, RatioOrDefault, NormalNode, EdgeMask, Synced, PlainItemKinds,
         HiddenIds, IdSlots, Dedup;
    V5IsPlain(t, presets, p);
    ItemKindsArePlain(NodeFilter(p.nodeMask, p.nodeOverride));
    DedupIsPlain(p.hidden);
    RatioIsProper(p.leftTop);
  }

  lemma LayeredIsPlain(t: Settings, presets: Presets, version: int, p: Payload)
    requires PlainOtherwise(t)
    ensures PlainOtherwise(ApplyLayered(t, presets, version, p))
  {
    hide PlainOtherwise, ApplyV5, ApplyV6, ApplyV7, ApplyV8, ApplyV9, ApplyV10, ApplyV11;
    V5IsPlain(t, presets, p);
    V5IsPlain(t, presets, p.(kindOverride := 0));
    V11IsPlain(t, presets, p);
  }

  /** Whatever a chunk of any version holds, what it leaves in the console is in normal form, but for the link kinds:
      those are normal exactly if an override stands over the full mask. */
  lemma LoadsAreNormal(t: Settings, presets: Presets, c: Chunk)
    requires NormalSettings(t)
    ensures PlainOtherwise(Load(t, presets, c))
    ensures NormalSettings(Load(t, presets, c)) <==> OverrideIsFull(Load(t, presets, c).kind)
  {
    hide ApplyLayered, CompactProjects, PlainProjects, PlainHidden, PaneRatio, RatioOrDefault, KindFromText,
         PlainItemKinds, PlainLinkKinds;
    match c {
      case V2(_, _, paneLeft, paneRight, _, _) =>
        RatioIsProper(paneLeft);
        RatioIsProper(paneRight);
      case V3(p3) =>
        CompactIsPlain(p3.projects);
        RatioIsProper(p3.paneLeft);
        RatioIsProper(p3.paneRight);
        RatioIsProper(Finite(0.0));
        V3Details();
      case Layered(version, p) => LayeredIsPlain(t, presets, version, p);
      case _ =>
    }
    LoadedLinkKinds(t, presets, c);
  }

  lemma V3Details()
    ensures PaneRatio(Finite(0.0))
  {
  }

  lemma LoadedLinkKinds(t: Settings, presets: Presets, c: Chunk)
    requires PlainLinkKinds(t.kind)
    ensures var f := Load(t, presets, c).kind; PlainLinkKinds(f) <==> OverrideIsFull(f)
  {
    hide ApplyLayered, CompactProjects, RatioOrDefault, KindFromText, PlainLinkKinds;
    match c {
      case V3(p3) => FromTextIsPlain(t.kind, p3.kindText, 0);
      case Layered(version, p) => LayeredLinkKinds(t, presets, version, p);
      case _ => PlainIsFull(t.kind);
    }
  }

  lemma PlainIsFull(f: EdgeFilter)
    requires PlainLinkKinds(f)
    ensures OverrideIsFull(f)
  {
  }

  lemma FromTextIsPlain(f: EdgeFilter, text: string, override: int)
    requires PlainLinkKinds(f)
    ensures var g := KindFromText(f, text); PlainLinkKinds(g) <==> OverrideIsFull(g)
    ensures var g := Synced(KindFromText(f, text).(allOverride := Flag(override)));
            PlainLinkKinds(g) <==> OverrideIsFull(g)
  {
    hide SingleKind;
  }

  lemma LayeredLinkKinds(t: Settings, presets: Presets, version: int, p: Payload)
    requires PlainLinkKinds(t.kind)
    ensures var f := ApplyLayered(t, presets, version, p).kind; PlainLinkKinds(f) <==> OverrideIsFull(f)
  {
    hide ApplyV5, ApplyV6, ApplyV7, ApplyV8, ApplyV9, ApplyV10, ApplyV11, PlainLinkKinds;
    FilterOfVersion(t, presets, p);
    FilterOfVersion(t, presets, p.(kindOverride := 0));
    FromTextIsPlain(t.kind, p.kindText, p.kindOverride);
    FromTextIsPlain(t.kind, p.kindText, 0);
    MaskIsPlain(t, presets, p);
    PlainIsFull(ApplyV11(t, presets, p).kind);
    PlainIsFull(t.kind);
  }

  lemma FilterOfVersion(t: Settings, presets: Presets, p: Payload)
    ensures ApplyV5(t, presets, p).kind == ApplyV6(t, presets, p).kind == ApplyV7(t, presets, p).kind ==
            Synced(KindFromText(t.kind, p.kindText).(allOverride := Flag(p.kindOverride)))
    ensures ApplyV8(t, presets, p).kind == ApplyV9(t, presets, p).kind == ApplyV10(t, presets, p).kind ==
            ApplyV11(t, presets, p).kind
  {
    hide Synced, KindFromText, SetPresets, CompactProjects, HiddenIds, IdSlots, Dedup, NormalNode, EdgeMask;
  }

  lemma MaskIsPlain(t: Settings, presets: Presets, p: Payload)
    ensures PlainLinkKinds(ApplyV11(t, presets, p).kind)
  {
    hide ApplyV11, PlainLinkKinds, Synced, EdgeMask;
    LinkKindsLoaded(t, presets, p);
    SyncedMaskIsPlain(EdgeFilter(p.kindMask, p.kindOverride, ""));
  }

  lemma SyncedMaskIsPlain(f: EdgeFilter)
    ensures PlainLinkKinds(Synced(EdgeFilter(EdgeMask(f), Flag(f.allOverride), f.text)))
  {
    hide SingleKind;
  }

  // ----- older versions

  /** Each version leaves what only later ones store as it is, or at its default. */
  lemma OlderVersionsLoad(t: Settings, presets: Presets, p: Payload)
    ensures var v := (version: int) => Load(t, presets, Layered(version, p));
      && v(10) == v(11).(textZoom := t.textZoom)
      && v(9) == v(10).(leftTop := t.leftTop)
      && v(8) == v(9).(hidden := t.hidden)
      && v(7) == v(8).(funnel := t.funnel, labels := t.labels, kind := v(7).kind)
      && v(6) == v(7).(fullScope := 0)
      && v(5) == v(6).(layout := 0, sort := 0, node := NodeFilter(0x7f, 1), fullScope := t.fullScope)
      && v(4) == Load(t, presets, Layered(5, p.(kindOverride := 0)))
  {
    hide CompactProjects, HiddenIds, IdSlots, Dedup, NormalNode, EdgeMask, Synced, KindFromText, RatioOrDefault,
         ZoomOrDefault;
  }

  /** Versions 5 to 7 store one kind and an override: everything with the override, else the kind if it is known, else
      what the mask held before. */
  lemma OlderLinkKinds(t: Settings, presets: Presets, p: Payload, kind: string)
    ensures EdgeKindEnabled(Load(t, presets, Layered(7, p)).kind, kind) <==>
            (p.kindOverride != 0 ||
             (if KnownLinkKind(p.kindText) then kind == p.kindText
              else EdgeKindEnabled(t.kind.(allOverride := 0), kind)))
  {
    hide SetPresets, CompactProjects, NormalNode, RatioOrDefault, ZoomOrDefault, Synced, KindFromText, EdgeKindEnabled,
         KnownLinkKind;
    FromTextEnables(t.kind, p.kindText, p.kindOverride, kind);
  }

  lemma FromTextEnables(f: EdgeFilter, text: string, override: int, kind: string)
    ensures EdgeKindEnabled(Synced(KindFromText(f, text).(allOverride := Flag(override))), kind) <==>
            (override != 0 ||
             (if KnownLinkKind(text) then kind == text else EdgeKindEnabled(f.(allOverride := 0), kind)))
    ensures EdgeKindEnabled(KindFromText(f, text), kind) <==> !KnownLinkKind(text) || kind == text
  {
    hide EdgeKindBit, KnownLinkKind, SingleBit, KindFromText, Synced;
    LinkBits(text, kind);
    FromTextFilter(f, text, override);
    var alone, loaded := KindFromText(f, text), Synced(KindFromText(f, text).(allOverride := Flag(override)));
    hide EdgeKindEnabled, SingleBit;
    if KnownLinkKind(text) {
      OneKindEnables(alone, text, kind);
      OneKindEnables(loaded.(allOverride := 0), text, kind);
    } else {
      CutMaskEnables(loaded.(allOverride := 0), f, kind);
    }
    OverrideEnables(alone, kind);
    OverrideEnables(loaded, kind);
  }

  lemma OverrideEnables(f: EdgeFilter, kind: string)
    ensures EdgeKindEnabled(f, kind) <==> f.allOverride != 0 || EdgeKindEnabled(f.(allOverride := 0), kind)
  {
  }

  lemma OneKindEnables(f: EdgeFilter, text: string, kind: string)
    requires f.allOverride == 0 && KnownLinkKind(text) && f.mask == EdgeKindBit(text) & 0xff
    ensures EdgeKindEnabled(f, kind) <==> kind == text
  {
    hide EdgeKindBit, KnownLinkKind, SingleBit;
    LinkBits(text, kind);
    LinkBits(kind, text);
    BitAlone(EdgeKindBit(text), EdgeKindBit(kind));
    if KnownLinkKind(kind) {
      BitAlone(EdgeKindBit(kind), EdgeKindBit(kind));
    }
  }

  lemma CutMaskEnables(g: EdgeFilter, f: EdgeFilter, kind: string)
    requires g.allOverride == 0 && g.mask == f.mask & 0xff
    ensures EdgeKindEnabled(g, kind) <==> EdgeKindEnabled(f.(allOverride := 0), kind)
  {
    hide EdgeKindBit, KnownLinkKind, SingleBit;
    LinkBits(kind, kind);
    if KnownLinkKind(kind) {
      BitAlone(EdgeKindBit(kind), EdgeKindBit(kind));
      MaskCutTwice(f.mask, EdgeKindBit(kind));
    }
  }

  lemma FromTextFilter(f: EdgeFilter, text: string, override: int)
    ensures var g := KindFromText(f, text);
      && (EdgeKindBit(text) == 0 ==> g.allOverride == 1)
      && (EdgeKindBit(text) != 0 ==> g.allOverride == 0 && g.mask == EdgeKindBit(text) & 0xff)
    ensures var g := Synced(KindFromText(f, text).(allOverride := Flag(override)));
      && (g.allOverride != 0 <==> override != 0)
      && g.mask == (if EdgeKindBit(text) == 0 then f.mask else EdgeKindBit(text)) & 0xff
  {
    hide EdgeKindBit, SingleKind;
  }

  lemma BitAlone(b: bv32, c: bv32)
    requires SingleBit(b)
    ensures b & 0xff == b && b & 0xff != 0xff && b != 0 && b != 0xff
    ensures SingleBit(c) ==> ((b & 0xff) & c != 0 <==> b == c)
  {
  }

  lemma MaskCutTwice(m: bv32, b: bv32)
    ensures (m & 0xff) & 0xff == m & 0xff
    ensures b & 0xff == b ==> (m & 0xff) & b == m & b
  {
  }

  /** Version 3 stores what version 4 does, but for the detail ratios, and leaves view, order and item kinds alone. A
      known kind is shown alone, any other text shows everything. */
  lemma V3LoadsAsV4(t: Settings, presets: Presets, p3: PayloadV3, p: Payload)
    requires p.theme == p3.theme && p.font == p3.font && p.paneLeft == p3.paneLeft && p.paneRight == p3.paneRight
    requires p.paneDetail == p.paneDetailTop == Finite(0.0)
    requires p.leftCollapsed == p3.leftCollapsed && p.rightCollapsed == p3.rightCollapsed
    requires p.selected == p3.selected && p.offset == p3.offset && p.projects == p3.projects
    requires p.kindText == p3.kindText && p.edgeLimit == p3.edgeLimit && p.hops == p3.hops
    requires p.panX == p3.panX && p.panY == p3.panY && p.zoom == p3.zoom && p.search == p3.search
    ensures var v3 := Load(t, presets, V3(p3));
      && v3 == Load(t, presets, Layered(4, p)).(layout := t.layout, sort := t.sort, node := t.node, kind := v3.kind)
      && forall kind :: EdgeKindEnabled(v3.kind, kind) <==> !KnownLinkKind(p3.kindText) || kind == p3.kindText
  {
    hide CompactProjects, Synced, KindFromText, ZoomOrDefault, EdgeKindEnabled, KnownLinkKind;
    forall kind
      ensures EdgeKindEnabled(KindFromText(t.kind, p3.kindText), kind) <==>
              !KnownLinkKind(p3.kindText) || kind == p3.kindText
    {
      FromTextEnables(t.kind, p3.kindText, 0, kind);
    }
  }

  /** Versions 1 and 2 store presets and pane ratios only. */
  lemma FirstVersionsLoad(t: Settings, presets: Presets, c: Chunk)
    requires c.V1? || c.V2?
    ensures var s := Load(t, presets, c);
      && s.theme == (if c.theme in presets.themes then c.theme else t.theme)
      && s.font == (if c.font in presets.fonts then c.font else t.font)
      && (c.V1? ==> s == t.(theme := s.theme, font := s.font, graphMode := s.graphMode))
      && (c.V1? ==> s.graphMode == if c.theme in presets.themes || c.font in presets.fonts then 1 else t.graphMode)
      && (c.V2? ==> s == t.(theme := s.theme, font := s.font, paneLeft := s.paneLeft, paneRight := s.paneRight,
                            leftCollapsed := 0, rightCollapsed := 0, graphMode := 1))
      && (c.V2? && PaneRatio(c.paneLeft) ==> s.paneLeft == c.paneLeft)
      && (c.V2? && !PaneRatio(c.paneLeft) ==> s.paneLeft == Finite(0.0))
      && (c.V2? && PaneRatio(c.paneRight) ==> s.paneRight == c.paneRight)
      && (c.V2? && !PaneRatio(c.paneRight) ==> s.paneRight == Finite(0.0))
  {
  }

  /** Anything else is ignored. */
  lemma OtherwiseIgnored(t: Settings, presets: Presets, version: int, p: Payload)
    requires version < 4 || version > 11
    ensures Load(t, presets, Layered(version, p)) == Load(t, presets, Unrecognized) == t
  {
  }

  /** A console nothing was loaded into shows everything. */
  lemma FreshConsoleShowsAll(theme: int, font: int, linkKind: string, itemKind: string)
    ensures var s := Seeded(theme, font);
      && NormalSettings(s) && s.theme == theme && s.font == font
      && EdgeKindEnabled(s.kind, linkKind) && NodeKindEnabled(s.node, itemKind)
      && s.search == "" && s.projects.count == 0 && s.hidden.count == 0 && s.selected == 0 && s.offset == 0
      && s.fullScope == 0 && s.layout == 0 && s.sort == 0 && s.hops == 1 && s.edgeLimit == 128
      && s.leftCollapsed == s.rightCollapsed == 0 && s.labels == 1 && s.funnel == 0 && s.textZoom == 0
      && s.panX == s.panY == Finite(0.0) && s.zoom == Finite(1.0) && s.leftTop == Finite(0.58)
  {
    hide EdgeKindBit, NodeKindBit;
  }
}
