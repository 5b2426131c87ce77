/** Saved preferences: eleven payload versions, each layered on the one before, and the settings they load into. */
module Prefs {
  import opened Limits
  import opened KindFilters
  import opened Intents

  /** A stored float: a real number, or an infinity or NaN. Rounding is not modelled. */
  datatype Num = Finite(value: real) | NonFinite

  const PREFS_VERSION := 11
  const TEXT_ZOOM_MIN := -4
  const TEXT_ZOOM_MAX := 5

  /** Hidden anchors: a count and the id slots. */
  datatype Hidden = Hidden(count: int, ids: seq<int>)

  /** The console settings that are saved. */
  datatype Settings = Settings(
    theme: int, font: int, paneLeft: Num, paneRight: Num, paneDetail: Num, paneDetailTop: Num,
    leftCollapsed: int, rightCollapsed: int, selected: int, offset: int, projects: Projects, kind: EdgeFilter,
    edgeLimit: int, hops: int, graphMode: int, panX: Num, panY: Num, zoom: Num, search: string,
    layout: int, sort: int, node: NodeFilter, fullScope: int, funnel: int, labels: int,
    hidden: Hidden, leftTop: Num, textZoom: int)

  /** The newest payload. Versions 4 to 10 are its leading fields; a shorter chunk is read over zeros. */
  datatype Payload = Payload(
    version: int, theme: int, font: int, paneLeft: Num, paneRight: Num, paneDetail: Num, paneDetailTop: Num,
    leftCollapsed: int, rightCollapsed: int, selected: int, offset: int, projects: Projects, kindText: string,
    edgeLimit: int, hops: int, graphMode: int, panX: Num, panY: Num, zoom: Num, search: string,
    kindOverride: int, layout: int, sort: int, nodeMask: bv32, nodeOverride: int, fullScope: int,
    kindMask: bv32, funnel: int, labels: int, hidden: Hidden, leftTop: Num, textZoom: int)

  /** Version 3 has the same fields in another layout, without the two detail ratios. */
  datatype PayloadV3 = PayloadV3(
    theme: int, font: int, paneLeft: Num, paneRight: Num, leftCollapsed: int, rightCollapsed: int,
    selected: int, offset: int, projects: Projects, kindText: string, edgeLimit: int, hops: int, panX: Num, panY: Num,
    zoom: Num, search: string)

  /** A preferences chunk. Layered holds versions 4 to 11. */
  datatype Chunk =
    | V1(theme: int, font: int)
    | V2(theme: int, font: int, paneLeft: Num, paneRight: Num, leftCollapsed: int, rightCollapsed: int)
    | V3(p3: PayloadV3)
    | Layered(version: int, p: Payload)
    | Unrecognized

  /** The preset tables, which belong to a library. */
  datatype Presets = Presets(themes: set<int>, fonts: set<int>)

  function RatioOrDefault(r: Num): (ratio: Num)
    ensures ratio.Finite? && (r.Finite? && 0.01 < r.value < 0.99 ==> ratio == r)
    ensures ratio != r ==> ratio == Finite(0.0)
    ensures ratio.value == 0.0 || 0.01 < ratio.value < 0.99
  {
    if r.NonFinite? || r.value <= 0.01 || r.value >= 0.99 then Finite(0.0) else r
  }

  function PanOrDefault(x: Num): (pan: Num)
    ensures pan.Finite? && (pan == x || (x.NonFinite? && pan.value == 0.0))
  {
    if x.NonFinite? then Finite(0.0) else x
  }

  /** The nearest zoom in range, or the neutral one if it makes no sense. */
  function ZoomOrDefault(z: Num): (zoom: Num)
    ensures zoom.Finite? && 0.1 <= zoom.value <= 8.0
    ensures z.Finite? && 0.1 <= z.value <= 8.0 ==> zoom == z
    ensures z.NonFinite? || z.value <= 0.0 ==> zoom == Finite(1.0)
    ensures z.Finite? && 0.0 < z.value < 0.1 ==> zoom.value == 0.1
    ensures z.Finite? && z.value > 8.0 ==> zoom.value == 8.0
  {
    if z.NonFinite? || z.value <= 0.0 then Finite(1.0)
    else if z.value < 0.1 then Finite(0.1)
    else if z.value > 8.0 then Finite(8.0)
    else z
  }

  function AtLeastZero(x: int): int { if x > 0 then x else 0 }

  // ----- project filters and hidden anchors

  function SelectedKeys(p: Projects): seq<string> {
    seq(Clamp(p.count, 0, SCOPE_FILTER_LIMIT), i requires 0 <= i => KeyAt(p, i))
  }

  function NonEmpty(keys: seq<string>): seq<string> {
    if keys == [] then [] else NonEmpty(keys[..|keys| - 1]) + if keys[|keys| - 1] == "" then [] else [keys[|keys| - 1]]
  }

  /** Keys in their slots, the rest blank. */
  function Slots(keys: seq<string>): Projects {
    Projects(|keys|, seq(SCOPE_FILTER_LIMIT, i => if 0 <= i < |keys| then keys[i] else ""))
  }

  function CompactProjects(p: Projects): Projects {
    Slots(NonEmpty(SelectedKeys(p)))
  }

  function IdAt(h: Hidden, i: nat): int {
    if i < |h.ids| then h.ids[i] else 0
  }

  function HiddenIds(h: Hidden): seq<int> {
    seq(Clamp(h.count, 0, NODE_LIMIT), i requires 0 <= i => IdAt(h, i))
  }

  function IdSlots(ids: seq<int>): Hidden {
    Hidden(|ids|, seq(NODE_LIMIT, i => if 0 <= i < |ids| then ids[i] else 0))
  }

  /** Positive ids, each once, in order of first appearance. */
  function Dedup(ids: seq<int>): seq<int> {
    if ids == [] then []
    else
      var kept, last := Dedup(ids[..|ids| - 1]), ids[|ids| - 1];
      if last <= 0 || last in kept then kept else kept + [last]
  }

  ghost predicate PositiveAndDistinct(ids: seq<int>) {
    (forall i :: 0 <= i < |ids| ==> ids[i] > 0) && forall i, j :: 0 <= i < j < |ids| ==> ids[i] != ids[j]
  }

  lemma {:induction false} NonEmptyFacts(keys: seq<string>)
    ensures |NonEmpty(keys)| <= |keys| && forall k :: k in NonEmpty(keys) ==> k != ""
    ensures (forall i :: 0 <= i < |keys| ==> keys[i] != "") ==> NonEmpty(keys) == keys
  {
    if keys != [] {
      NonEmptyFacts(keys[..|keys| - 1]);
    }
  }

  /** Deduplication yields distinct positive ids, and leaves exactly such lists as they are. */
  lemma {:induction false} DedupFacts(ids: seq<int>)
    ensures |Dedup(ids)| <= |ids| && PositiveAndDistinct(Dedup(ids))
    ensures forall x :: x in Dedup(ids) <==> x in ids && x > 0
    ensures Dedup(ids) == ids <==> PositiveAndDistinct(ids)
  {
    if ids != [] {
      var front := ids[..|ids| - 1];
      DedupFacts(front);
      assert ids == front + [ids[|ids| - 1]];
      if PositiveAndDistinct(ids) {
        assert ids[|ids| - 1] !in front;
      } else if Dedup(ids) == ids {
        assert Dedup(front) == front;
      }
    }
  }

  /** The non-empty keys stay, in their order, and nothing else does. */
  lemma {:induction false} NonEmptyOfParts(a: seq<string>, key: string, b: seq<string>)
    ensures NonEmpty(a + [key] + b) == NonEmpty(a) + (if key == "" then [] else [key]) + NonEmpty(b)
  {
    if b == [] {
      var all := a + [key] + b;
      assert all[..|all| - 1] == a && all[|all| - 1] == key;
      assert NonEmpty(all) == NonEmpty(a) + (if key == "" then [] else [key]) + NonEmpty(b);
    } else {
      var all, last, front := a + [key] + b, b[|b| - 1], b[..|b| - 1];
      assert all[..|all| - 1] == a + [key] + front && all[|all| - 1] == last;
      NonEmptyOfParts(a, key, front);
    }
  }

  /** The positive ids stay, each where it appears first. */
  lemma {:induction false} FirstAppearances(ids: seq<int>, i: int, j: int, p: int, q: int)
    requires 0 <= i < j < |Dedup(ids)| && 0 <= p < |ids| && 0 <= q < |ids|
    requires ids[p] == Dedup(ids)[i] && ids[p] !in ids[..p] && ids[q] == Dedup(ids)[j] && ids[q] !in ids[..q]
    ensures p < q
  {
    var front, last := ids[..|ids| - 1], ids[|ids| - 1];
    DedupFacts(front);
    assert Dedup(front)[i] in Dedup(front);
    assert ids == front + [last];
    if j < |Dedup(front)| {
      assert Dedup(front)[j] in Dedup(front);
      assert front[..p] == ids[..p] && front[..q] == ids[..q];
      FirstAppearances(front, i, j, p, q);
    }
  }

  lemma CompactTwice(p: Projects)
    ensures CompactProjects(CompactProjects(p)) == CompactProjects(p)
  {
    hide SelectedKeys, Slots;
    var keys := NonEmpty(SelectedKeys(p));
    NonEmptyFacts(SelectedKeys(p));
    SelectedCount(p);
    SelectedOfSlots(keys);
    assert forall i :: 0 <= i < |keys| ==> keys[i] in keys;
    NonEmptyFacts(keys);
  }

  lemma SelectedCount(p: Projects)
    ensures |SelectedKeys(p)| <= SCOPE_FILTER_LIMIT
  {
  }

  lemma SelectedOfSlots(keys: seq<string>)
    requires |keys| <= SCOPE_FILTER_LIMIT
    ensures SelectedKeys(Slots(keys)) == keys
  {
  }

  lemma HiddenOfSlots(ids: seq<int>)
    requires |ids| <= NODE_LIMIT
    ensures HiddenIds(IdSlots(ids)) == ids
  {
  }

  // ----- saving

  function BuildV5(s: Settings): Payload {
    Payload(PREFS_VERSION, s.theme, s.font, RatioOrDefault(s.paneLeft), RatioOrDefault(s.paneRight),
            RatioOrDefault(s.paneDetail), RatioOrDefault(s.paneDetailTop),
            Flag(s.leftCollapsed), Flag(s.rightCollapsed), s.selected, AtLeastZero(s.offset),
            CompactProjects(s.projects), s.kind.text,
            ClampEdgeLimit(s.edgeLimit), ClampHops(s.hops), Flag(s.graphMode),
            PanOrDefault(s.panX), PanOrDefault(s.panY), ZoomOrDefault(s.zoom), s.search,
            Flag(s.kind.allOverride), 0, 0, 0, 0, 0, 0, 0, 0, Hidden(0, []), Finite(0.0), 0)
  }

  function BuildV6(s: Settings): Payload {
    BuildV5(s).(layout := ClampMode(s.layout), sort := ClampMode(s.sort),
                nodeMask := NormalNode(s.node).mask, nodeOverride := NormalNode(s.node).allOverride)
  }

  function BuildV7(s: Settings): Payload {
    BuildV6(s).(fullScope := Flag(s.fullScope))
  }

  function BuildV8(s: Settings): Payload {
    BuildV7(s).(kindOverride := Flag(s.kind.allOverride), kindMask := EdgeMask(s.kind), funnel := Flag(s.funnel),
                labels := Flag(s.labels))
  }

  function BuildV9(s: Settings): Payload {
    BuildV8(s).(hidden := IdSlots(HiddenIds(s.hidden)))
  }

  function BuildV10(s: Settings): Payload {
    BuildV9(s).(leftTop := RatioOrDefault(s.leftTop))
  }

  /** What is saved, and what the signature of a state is a hash of. */
  function BuildV11(s: Settings): Payload {
    BuildV10(s).(textZoom := s.textZoom)
  }

  // ----- loading

  function SetPresets(s: Settings, presets: Presets, theme: int, font: int): Settings {
    s.(theme := if theme in presets.themes then theme else s.theme,
       font := if font in presets.fonts then font else s.font)
  }

  /** The single-kind selection a stored kind text makes. */
  function KindFromText(f: EdgeFilter, text: string): EdgeFilter {
    SingleSelected(f.(text := text), text)
  }

  function ApplyV3(s: Settings, presets: Presets, p: PayloadV3): Settings {
    SetPresets(s, presets, p.theme, p.font).(
      paneLeft := RatioOrDefault(p.paneLeft), paneRight := RatioOrDefault(p.paneRight),
      paneDetail := Finite(0.0), paneDetailTop := Finite(0.0),
      leftCollapsed := Flag(p.leftCollapsed), rightCollapsed := Flag(p.rightCollapsed),
      selected := IdOrNone(p.selected), offset := AtLeastZero(p.offset), projects := CompactProjects(p.projects),
      kind := KindFromText(s.kind, p.kindText),
      edgeLimit := ClampEdgeLimit(p.edgeLimit), hops := ClampHops(p.hops), graphMode := 1,
      panX := PanOrDefault(p.panX), panY := PanOrDefault(p.panY), zoom := ZoomOrDefault(p.zoom), search := p.search)
  }

  function ApplyV5(s: Settings, presets: Presets, p: Payload): Settings {
    SetPresets(s, presets, p.theme, p.font).(
      paneLeft := RatioOrDefault(p.paneLeft), paneRight := RatioOrDefault(p.paneRight),
      paneDetail := RatioOrDefault(p.paneDetail), paneDetailTop := RatioOrDefault(p.paneDetailTop),
      leftCollapsed := Flag(p.leftCollapsed), rightCollapsed := Flag(p.rightCollapsed),
      selected := IdOrNone(p.selected), offset := AtLeastZero(p.offset), projects := CompactProjects(p.projects),
      kind := Synced(KindFromText(s.kind, p.kindText).(allOverride := Flag(p.kindOverride))),
      edgeLimit := ClampEdgeLimit(p.edgeLimit), hops := ClampHops(p.hops), graphMode := 1,
      panX := PanOrDefault(p.panX), panY := PanOrDefault(p.panY), zoom := ZoomOrDefault(p.zoom), search := p.search,
      layout := 0, sort := 0, node := NodeFilter(NODE_MASK_ALL, 1))
  }

  function ApplyV6(s: Settings, presets: Presets, p: Payload): Settings {
    ApplyV5(s, presets, p).(layout := ClampMode(p.layout), sort := ClampMode(p.sort),
                            node := NormalNode(NodeFilter(p.nodeMask, p.nodeOverride)), fullScope := 0)
  }

  function ApplyV7(s: Settings, presets: Presets, p: Payload): Settings {
    ApplyV6(s, presets, p).(fullScope := Flag(p.fullScope))
  }

  function ApplyV8(s: Settings, presets: Presets, p: Payload): Settings {
    var t := ApplyV7(s, presets, p);
    var f := EdgeFilter(p.kindMask, p.kindOverride, t.kind.text);
    t.(kind := Synced(EdgeFilter(EdgeMask(f), Flag(p.kindOverride), t.kind.text)), funnel := Flag(p.funnel),
       labels := Flag(p.labels))
  }

  function ApplyV9(s: Settings, presets: Presets, p: Payload): Settings {
    ApplyV8(s, presets, p).(hidden := IdSlots(Dedup(HiddenIds(p.hidden))))
  }

  function ApplyV10(s: Settings, presets: Presets, p: Payload): Settings {
    var ratio := RatioOrDefault(p.leftTop);
    ApplyV9(s, presets, p).(leftTop := if ratio.value <= 0.0 then Finite(0.58) else ratio)
  }

  function ApplyV11(s: Settings, presets: Presets, p: Payload): Settings {
    ApplyV10(s, presets, p).(textZoom := Clamp(p.textZoom, TEXT_ZOOM_MIN, TEXT_ZOOM_MAX))
  }

  /** Version 2 has seven words; the loader reads the collapse flags at the places the newest layout gives them, the
      words seven and eight, which lie behind the end of the chunk and are zero. */
  function Word(words: seq<int>, at: nat): int {
    if at < |words| then words[at] else 0
  }

  const LEFT_COLLAPSED_WORD := 7
  const RIGHT_COLLAPSED_WORD := 8

  /** The collapse words of a version 2 chunk in their own places, the other words left blank. */
  function V2Words(leftCollapsed: int, rightCollapsed: int): seq<int> {
    [0, 0, 0, 0, 0, leftCollapsed, rightCollapsed]
  }

  function ApplyV2(s: Settings, presets: Presets, c: Chunk): Settings
    requires c.V2?
  {
    var words := V2Words(c.leftCollapsed, c.rightCollapsed);
    SetPresets(s, presets, c.theme, c.font).(
      paneLeft := RatioOrDefault(c.paneLeft), paneRight := RatioOrDefault(c.paneRight),
      leftCollapsed := Flag(Word(words, LEFT_COLLAPSED_WORD)),
      rightCollapsed := Flag(Word(words, RIGHT_COLLAPSED_WORD)))
  }

  function ApplyLayered(s: Settings, presets: Presets, version: int, p: Payload): Settings {
    if version == 4 then ApplyV5(s, presets, p.(kindOverride := 0))
    else if version == 5 then ApplyV5(s, presets, p)
    else if version == 6 then ApplyV6(s, presets, p)
    else if version == 7 then ApplyV7(s, presets, p)
    else if version == 8 then ApplyV8(s, presets, p)
    else if version == 9 then ApplyV9(s, presets, p)
    else if version == 10 then ApplyV10(s, presets, p)
    else if version == 11 then ApplyV11(s, presets, p)
    else s
  }

  predicate LoadsAnything(presets: Presets, c: Chunk) {
    match c
    case V1(theme, font) => theme in presets.themes || font in presets.fonts
    case V2(_, _, _, _, _, _) => true
    case V3(_) => true
    case Layered(version, _) => 4 <= version <= PREFS_VERSION
    case Unrecognized => false
  }

  /** Loading a chunk. Anything that was loaded also turns the graph on. */
  function Load(s: Settings, presets: Presets, c: Chunk): Settings {
    var t := match c
      case V1(theme, font) => SetPresets(s, presets, theme, font)
      case V2(_, _, _, _, _, _) => ApplyV2(s, presets, c)
      case V3(p3) => ApplyV3(s, presets, p3)
      case Layered(version, p) => ApplyLayered(s, presets, version, p)
      case Unrecognized => s;
    if LoadsAnything(presets, c) then t.(graphMode := 1) else t
  }

  // ----- saving and loading together

  /** What makes a state survive saving and loading into `t` without a change of its saved form. */
  ghost predicate Survives(s: Settings, t: Settings, presets: Presets) {
    && (s.theme in presets.themes || t.theme == s.theme) && (s.font in presets.fonts || t.font == s.font)
    && s.selected >= 0 && s.graphMode != 0
    && s.kind.text == (if s.kind.allOverride != 0 then "" else SingleKind(s.kind.mask & EDGE_MASK_ALL))
    && PositiveAndDistinct(HiddenIds(s.hidden))
    && RatioOrDefault(s.leftTop) != Finite(0.0)
    && TEXT_ZOOM_MIN <= s.textZoom <= TEXT_ZOOM_MAX
  }

  /** The kind filter through one save and load. */
  lemma KindRoundTrip(f: EdgeFilter, g: EdgeFilter, text: string)
    ensures var saved := EdgeFilter(EdgeMask(f), Flag(f.allOverride), text);
            var loaded := Synced(EdgeFilter(EdgeMask(saved), Flag(saved.allOverride), g.text));
            && EdgeMask(loaded) == EdgeMask(f) && Flag(loaded.allOverride) == Flag(f.allOverride)
            && loaded.text == if f.allOverride != 0 then "" else SingleKind(f.mask & EDGE_MASK_ALL)
  {
  }

  lemma NodeRoundTrip(f: NodeFilter)
    ensures NormalNode(NormalNode(NodeFilter(NormalNode(f).mask, NormalNode(f).allOverride))) == NormalNode(f)
  {
  }

  lemma HiddenRoundTrip(h: Hidden)
    ensures var saved := IdSlots(HiddenIds(h));
            var loaded := IdSlots(Dedup(HiddenIds(saved)));
            IdSlots(HiddenIds(loaded)) == saved <==> PositiveAndDistinct(HiddenIds(h))
  {
    var ids := HiddenIds(h);
    DedupFacts(ids);
    HiddenOfSlots(ids);
    HiddenOfSlots(Dedup(ids));
    if IdSlots(Dedup(ids)) == IdSlots(ids) {
      assert Dedup(ids) == HiddenIds(IdSlots(ids));
    }
  }

  lemma ScalarRoundTrip(s: Settings)
    ensures ZoomOrDefault(ZoomOrDefault(ZoomOrDefault(s.zoom))) == ZoomOrDefault(s.zoom)
    ensures var ratio := RatioOrDefault(RatioOrDefault(s.leftTop));
            RatioOrDefault(if ratio.value <= 0.0 then Finite(0.58) else ratio) == RatioOrDefault(s.leftTop)
            <==> RatioOrDefault(s.leftTop) != Finite(0.0)
  {
  }

  /** What comes back: the payload again, but for the fields whose round trip can fail. */
  function Returned(s: Settings, t: Settings, presets: Presets, p: Payload): Payload {
    var ratio := RatioOrDefault(RatioOrDefault(s.leftTop));
    p.(theme := if s.theme in presets.themes then s.theme else t.theme,
       font := if s.font in presets.fonts then s.font else t.font,
       selected := IdOrNone(s.selected), graphMode := 1,
       kindText := if s.kind.allOverride != 0 then "" else SingleKind(s.kind.mask & EDGE_MASK_ALL),
       hidden := IdSlots(HiddenIds(IdSlots(Dedup(HiddenIds(IdSlots(HiddenIds(s.hidden))))))),
       leftTop := RatioOrDefault(if ratio.value <= 0.0 then Finite(0.58) else ratio),
       textZoom := Clamp(s.textZoom, TEXT_ZOOM_MIN, TEXT_ZOOM_MAX))
  }

  lemma RoundTripFields(s: Settings, t: Settings, presets: Presets)
    ensures BuildV11(ApplyV11(t, presets, BuildV11(s))) == Returned(s, t, presets, BuildV11(s))
  {
    hide Synced, SingleKind, EdgeMask, NormalNode, CompactProjects, IdSlots, HiddenIds, Dedup, KindFromText,
         ZoomOrDefault;
    var mid := ApplyV7(t, presets, BuildV11(s));
    KindRoundTrip(s.kind, mid.kind, mid.kind.text);
    NodeRoundTrip(s.node);
    CompactTwice(s.projects);
    ScalarRoundTrip(s);
  }

  /** Saving, loading and saving again gives the same payload exactly for the states that survive. */
  lemma SaveLoadIsStableIff(s: Settings, t: Settings, presets: Presets)
    ensures BuildV11(ApplyV11(t, presets, BuildV11(s))) == BuildV11(s) <==> Survives(s, t, presets)
  {
    hide ApplyV11, SingleKind, IdSlots, HiddenIds, Dedup, PositiveAndDistinct, ZoomOrDefault, CompactProjects,
         NormalNode, EdgeMask;
    RoundTripFields(s, t, presets);
    HiddenRoundTrip(s.hidden);
    ScalarRoundTrip(s);
  }

  /** A state that survives being loaded into any other. */
  ghost predicate Settled(s: Settings, presets: Presets) {
    s.theme in presets.themes && s.font in presets.fonts && Survives(s, s, presets)
  }

  /** The state a console starts from. */
  function Seeded(theme: int, font: int): Settings {
    Settings(theme, font, Finite(0.0), Finite(0.0), Finite(0.0), Finite(0.0), 0, 0, 0, 0,
             Slots([]), EdgeFilter(EDGE_MASK_ALL, 1, ""), 128, HOPS_MIN, 1, Finite(0.0), Finite(0.0), Finite(1.0), "",
             0, 0, NodeFilter(NODE_MASK_ALL, 1), 0, 0, 1, IdSlots([]), Finite(0.58), 0)
  }

  lemma SeededIsSettled(theme: int, font: int, presets: Presets)
    requires theme in presets.themes && font in presets.fonts
    ensures Settled(Seeded(theme, font), presets)
  {
  }

  lemma KindFromTextInSync(f: EdgeFilter, text: string, override: int)
    ensures var g := KindFromText(f, text);
            g.text == if g.allOverride != 0 then "" else SingleKind(g.mask & EDGE_MASK_ALL)
    ensures var g := Synced(KindFromText(f, text).(allOverride := override));
            g.text == if g.allOverride != 0 then "" else SingleKind(g.mask & EDGE_MASK_ALL)
  {
  }

  lemma V5StaysSettled(s: Settings, presets: Presets, p: Payload)
    requires Settled(s, presets)
    ensures Settled(ApplyV5(s, presets, p), presets)
  {
  }

  /** Versions 6 and 7 change nothing a settled state depends on. */
  lemma V7StaysSettled(s: Settings, presets: Presets, p: Payload)
    requires Settled(s, presets)
    ensures Settled(ApplyV6(s, presets, p), presets) && Settled(ApplyV7(s, presets, p), presets)
  {
    hide ApplyV5, SingleKind, HiddenIds, PositiveAndDistinct, NormalNode;
    V5StaysSettled(s, presets, p);
  }

  lemma V8StaysSettled(s: Settings, presets: Presets, p: Payload)
    requires Settled(s, presets)
    ensures Settled(ApplyV8(s, presets, p), presets)
  {
  }

  lemma V9StaysSettled(s: Settings, presets: Presets, p: Payload)
    requires Settled(s, presets)
    ensures Settled(ApplyV9(s, presets, p), presets)
  {
    hide ApplyV8, SingleKind, IdSlots, HiddenIds, Dedup, PositiveAndDistinct;
    V8StaysSettled(s, presets, p);
    HiddenLength(p.hidden);
    DedupFacts(HiddenIds(p.hidden));
    HiddenOfSlots(Dedup(HiddenIds(p.hidden)));
  }

  lemma V11StaysSettled(s: Settings, presets: Presets, p: Payload)
    requires Settled(s, presets)
    ensures Settled(ApplyV10(s, presets, p), presets) && Settled(ApplyV11(s, presets, p), presets)
  {
    hide ApplyV9, SingleKind, HiddenIds, PositiveAndDistinct;
    V9StaysSettled(s, presets, p);
  }

  lemma LayeredStaysSettled(s: Settings, presets: Presets, version: int, p: Payload)
    requires Settled(s, presets)
    ensures Settled(ApplyLayered(s, presets, version, p).(graphMode := 1), presets)
  {
    hide ApplyV5, ApplyV6, ApplyV7, ApplyV8, ApplyV9, ApplyV10, ApplyV11, Settled;
    V5StaysSettled(s, presets, p.(kindOverride := 0));
    V5StaysSettled(s, presets, p);
    V7StaysSettled(s, presets, p);
    V8StaysSettled(s, presets, p);
    V9StaysSettled(s, presets, p);
    V11StaysSettled(s, presets, p);
    GraphOnStaysSettled(ApplyLayered(s, presets, version, p), presets);
  }

  lemma GraphOnStaysSettled(s: Settings, presets: Presets)
    requires Settled(s, presets)
    ensures Settled(s.(graphMode := 1), presets)
  {
  }

  lemma HiddenLength(h: Hidden)
    ensures |HiddenIds(h)| <= NODE_LIMIT
  {
  }

  /** Every load normalises: whatever the version and the field values of the chunk, the loaded state is settled. */
  lemma LoadsStaySettled(s: Settings, presets: Presets, c: Chunk)
    requires Settled(s, presets)
    ensures Settled(Load(s, presets, c), presets)
  {
    hide Synced, SingleKind, CompactProjects, IdSlots, HiddenIds, Dedup, PositiveAndDistinct, KindFromText,
         ApplyLayered, ZoomOrDefault;
    match c {
      case V3(p3) => KindFromTextInSync(s.kind, p3.kindText, 0);
      case Layered(version, p) =>
        LayeredStaysSettled(s, presets, version, p);
        if !LoadsAnything(presets, c) {
          UnknownVersionIgnored(s, presets, version, p);
        }
      case _ =>
    }
  }

  lemma UnknownVersionIgnored(s: Settings, presets: Presets, version: int, p: Payload)
    requires !(4 <= version <= PREFS_VERSION)
    ensures ApplyLayered(s, presets, version, p) == s
  {
  }

  /** So after any load into a fresh console, saving, loading anywhere and saving again never changes the saved form. */
  lemma LoadThenSaveIsStable(theme: int, font: int, presets: Presets, c: Chunk, t: Settings)
    requires theme in presets.themes && font in presets.fonts
    ensures var s := Load(Seeded(theme, font), presets, c);
            BuildV11(ApplyV11(t, presets, BuildV11(s))) == BuildV11(s)
  {
    hide Load, Seeded, BuildV11, ApplyV11;
    var s := Load(Seeded(theme, font), presets, c);
    SeededIsSettled(theme, font, presets);
    LoadsStaySettled(Seeded(theme, font), presets, c);
    SaveLoadIsStableIff(s, t, presets);
  }

  /** Collapsed panes saved by version 2 come back open: the flags survive loading only if they were off. */
  lemma V2CollapseFlagsAreLost(s: Settings, presets: Presets, c: Chunk)
    requires c.V2?
    ensures Load(s, presets, c).leftCollapsed == Flag(c.leftCollapsed) <==> c.leftCollapsed == 0
    ensures Load(s, presets, c).rightCollapsed == Flag(c.rightCollapsed) <==> c.rightCollapsed == 0
  {
  }

  /** A version 5 to 7 payload can leave the override on over a partial mask: exactly when its override is set and the
      mask that its kind text selected, or left, is not full. */
  lemma LegacyLoadOverride(s: Settings, presets: Presets, p: Payload)
    ensures ApplyLayered(s, presets, 5, p).kind == ApplyLayered(s, presets, 6, p).kind
            == ApplyLayered(s, presets, 7, p).kind
    ensures OverrideIsFull(ApplyLayered(s, presets, 5, p).kind) <==>
            (p.kindOverride != 0 ==>
              (if EdgeKindBit(p.kindText) == 0 then s.kind.mask else EdgeKindBit(p.kindText)) & EDGE_MASK_ALL
                == EDGE_MASK_ALL)
  {
  }
}
