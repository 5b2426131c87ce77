/** What the kind filters let through, told by the names of the kinds and by what the user clicked. */
module KindSelection {
  import opened KindFilters

  predicate KnownItemKind(kind: string) {
    kind in {"plan", "decision", "issue", "scope", "summary", "policy", "runtime"}
  }

  predicate KnownLinkKind(kind: string) {
    kind in {"supports", "depends_on", "references", "summarizes", "related", "implements", "blocks", "contradicts"}
  }

  // ----- item kinds

  /** With the override everything is enabled, without it never an unknown kind. */
  lemma ItemKindOverride(f: NodeFilter, kind: string)
    ensures f.allOverride != 0 ==> NodeKindEnabled(f, kind)
    ensures f.allOverride == 0 && !KnownItemKind(kind) ==> !NodeKindEnabled(f, kind)
  {
  }

  /** The full mask enables the seven known kinds, the empty one none. */
  lemma FullAndEmptyItemMask(kind: string)
    ensures NodeKindEnabled(NodeFilter(NODE_MASK_ALL, 0), kind) <==> KnownItemKind(kind)
    ensures !NodeKindEnabled(NodeFilter(0, 0), kind)
  {
  }

  predicate SingleBit(b: bv32) {
    b in {0x01, 0x02, 0x04, 0x08, 0x10, 0x20, 0x40, 0x80}
  }

  lemma BitFlip(m: bv32, b: bv32, c: bv32)
    requires SingleBit(b) && SingleBit(c)
    ensures ((m ^ b) & 0xff & 0xff) & c != 0 <==> if b == c then m & c == 0 else m & c != 0
    ensures b < 0x80 && c < 0x80 ==> (((m ^ b) & 0x7f) & c & 0x7f != 0 <==>
                                      if b == c then m & c & 0x7f == 0 else m & c & 0x7f != 0)
  {
  }

  lemma ItemBits(a: string, b: string)
    ensures KnownItemKind(a) ==> SingleBit(NodeKindBit(a)) && NodeKindBit(a) < 0x80
    ensures !KnownItemKind(a) ==> NodeKindBit(a) == 0
    ensures KnownItemKind(a) && KnownItemKind(b) ==> (NodeKindBit(a) == NodeKindBit(b) <==> a == b)
  {
  }

  lemma LinkBits(a: string, b: string)
    ensures KnownLinkKind(a) ==> SingleBit(EdgeKindBit(a)) && a != ""
    ensures !KnownLinkKind(a) ==> EdgeKindBit(a) == 0
    ensures KnownLinkKind(a) && KnownLinkKind(b) ==> (EdgeKindBit(a) == EdgeKindBit(b) <==> a == b)
  {
  }

  /** A click on a known kind changes the answer for that kind and for no other; a click on an unknown one does
      nothing. */
  lemma ItemToggleFlipsOne(f: NodeFilter, clicked: string, kind: string)
    requires f.allOverride == 0
    ensures var g := NodeStep(f, ToggleNode(clicked));
      && g.allOverride == 0
      && (NodeKindEnabled(g, kind) <==>
          if kind == clicked && KnownItemKind(kind) then !NodeKindEnabled(f, kind) else NodeKindEnabled(f, kind))
  {
    hide NodeKindBit, KnownItemKind;
    ItemBits(clicked, kind);
    ItemBits(kind, clicked);
    if KnownItemKind(clicked) && KnownItemKind(kind) {
      BitFlip(f.mask, NodeKindBit(clicked), NodeKindBit(kind));
    }
  }

  /** With everything selected, a click takes one kind away. */
  lemma ItemToggleFromAll(clicked: string)
    requires KnownItemKind(clicked)
    ensures NodeStep(NodeFilter(NODE_MASK_ALL, 1), ToggleNode(clicked)) ==
            NodeStep(NodeFilter(NODE_MASK_ALL, 0), ToggleNode(clicked))
  {
  }

  function ItemToggles(clicks: seq<string>): seq<NodeOp> {
    seq(|clicks|, i requires 0 <= i < |clicks| => ToggleNode(clicks[i]))
  }

  function Clicks(clicks: seq<string>, kind: string): nat {
    if clicks == [] then 0 else (if clicks[0] == kind then 1 else 0) + Clicks(clicks[1..], kind)
  }

  lemma {:induction false} ItemTogglesFlip(f: NodeFilter, clicks: seq<string>, kind: string)
    requires f.allOverride == 0 && forall i :: 0 <= i < |clicks| ==> KnownItemKind(clicks[i])
    ensures var g := NodeRun(f, ItemToggles(clicks));
      && g.allOverride == 0
      && (NodeKindEnabled(g, kind) <==> (NodeKindEnabled(f, kind) <==> Clicks(clicks, kind) % 2 == 0))
    decreases |clicks|
  {
    hide NodeStep, NodeKindEnabled, KnownItemKind;
    if clicks != [] {
      assert ItemToggles(clicks)[1..] == ItemToggles(clicks[1..]);
      ItemToggleFlipsOne(f, clicks[0], kind);
      assert KnownItemKind(clicks[0]);
      ItemTogglesFlip(NodeStep(f, ToggleNode(clicks[0])), clicks[1..], kind);
    }
  }

  /** After everything has been selected and some known kinds have been clicked, a kind is shown exactly if it is
      known and was clicked an even number of times. */
  lemma ItemKindsAfterClicks(f: NodeFilter, clicks: seq<string>, kind: string)
    requires clicks != [] && forall i :: 0 <= i < |clicks| ==> KnownItemKind(clicks[i])
    ensures NodeKindEnabled(NodeRun(f, [SelectAllNodes] + ItemToggles(clicks)), kind) <==>
            KnownItemKind(kind) && Clicks(clicks, kind) % 2 == 0
  {
    hide NodeKindEnabled, KnownItemKind, NodeKindBit;
    var all, full := NodeFilter(NODE_MASK_ALL, 1), NodeFilter(NODE_MASK_ALL, 0);
    assert ([SelectAllNodes] + ItemToggles(clicks))[1..] == ItemToggles(clicks);
    assert KnownItemKind(clicks[0]);
    ItemToggleFromAll(clicks[0]);
    assert NodeRun(all, ItemToggles(clicks)) == NodeRun(full, ItemToggles(clicks));
    ItemTogglesFlip(full, clicks, kind);
    FullAndEmptyItemMask(kind);
    if !KnownItemKind(kind) {
      ItemKindOverride(NodeRun(full, ItemToggles(clicks)), kind);
    }
  }

  // ----- link kinds

  /** Every known link kind is enabled. */
  ghost predicate AllLinkKinds(f: EdgeFilter) {
    forall kind :: KnownLinkKind(kind) ==> EdgeKindEnabled(f, kind)
  }

  /** With the override everything is enabled, without it an unknown kind only along with all known ones. */
  lemma LinkKindOverride(f: EdgeFilter, kind: string)
    ensures f.allOverride != 0 ==> EdgeKindEnabled(f, kind)
    ensures f.allOverride == 0 && !KnownLinkKind(kind) ==> (EdgeKindEnabled(f, kind) <==> AllLinkKinds(f))
  {
    if f.allOverride == 0 && AllLinkKinds(f) {
      EachKnown(f);
    }
  }

  lemma EachKnown(f: EdgeFilter)
    requires AllLinkKinds(f) && f.allOverride == 0
    ensures f.mask & EDGE_MASK_ALL == EDGE_MASK_ALL
  {
    assert EdgeKindEnabled(f, "supports") && EdgeKindEnabled(f, "depends_on") && EdgeKindEnabled(f, "references");
    assert EdgeKindEnabled(f, "summarizes") && EdgeKindEnabled(f, "related") && EdgeKindEnabled(f, "implements");
    assert EdgeKindEnabled(f, "blocks") && EdgeKindEnabled(f, "contradicts");
  }

  /** The full mask enables every kind, the empty one none. */
  lemma FullAndEmptyLinkMask(text: string, kind: string)
    ensures EdgeKindEnabled(EdgeFilter(EDGE_MASK_ALL, 0, text), kind)
    ensures !EdgeKindEnabled(EdgeFilter(0, 0, text), kind)
  {
  }

  /** A click on a known kind changes the answer for that kind and for no other known one. */
  lemma LinkToggleFlipsOne(f: EdgeFilter, clicked: string, kind: string)
    requires f.allOverride == 0 && KnownLinkKind(kind)
    ensures var g := EdgeStep(f, ToggleKind(clicked));
      && g.allOverride == 0
      && (EdgeKindEnabled(g, kind) <==> if kind == clicked then !EdgeKindEnabled(f, kind) else EdgeKindEnabled(f, kind))
  {
    LinkBits(clicked, kind);
    LinkBits(kind, clicked);
    hide EdgeKindBit, KnownLinkKind, EdgeKindEnabled, SingleBit, EdgeStep, Meets;
    ClickedBit(f, clicked, EdgeKindBit(kind));
    EnabledByBit(f, kind);
    EnabledByBit(EdgeStep(f, ToggleKind(clicked)), kind);
  }

  predicate Meets(mask: bv32, bit: bv32) {
    mask & bit != 0
  }

  lemma ClickedBit(f: EdgeFilter, clicked: string, bit: bv32)
    requires f.allOverride == 0 && SingleBit(bit)
    ensures var g := EdgeStep(f, ToggleKind(clicked));
      && g.allOverride == 0
      && (Meets(g.mask, bit) <==> if bit == EdgeKindBit(clicked) then !Meets(f.mask, bit) else Meets(f.mask, bit))
  {
    LinkBits(clicked, clicked);
    ClickedMask(f, clicked);
    NoBit(bit);
    hide EdgeKindBit, KnownLinkKind, EdgeStep, SingleBit, Meets, Flipped;
    if KnownLinkKind(clicked) {
      FlippedMeets(f.mask, EdgeKindBit(clicked), bit);
    }
  }

  function Flipped(mask: bv32, bit: bv32): bv32 {
    (mask ^ bit) & 0xff & 0xff
  }

  lemma FlippedMeets(m: bv32, b: bv32, c: bv32)
    requires SingleBit(b) && SingleBit(c)
    ensures b != 0 && (Meets(Flipped(m, b), c) <==> if b == c then !Meets(m, c) else Meets(m, c))
  {
    BitFlip(m, b, c);
  }

  lemma NoBit(bit: bv32)
    requires SingleBit(bit)
    ensures bit != 0
  {
  }

  lemma ClickedMask(f: EdgeFilter, clicked: string)
    requires f.allOverride == 0
    ensures var g := EdgeStep(f, ToggleKind(clicked));
      && g.allOverride == 0
      && (EdgeKindBit(clicked) == 0 ==> g.mask == f.mask)
      && (EdgeKindBit(clicked) != 0 ==> g.mask == Flipped(f.mask, EdgeKindBit(clicked)))
  {
    hide EdgeKindBit, SingleKind;
    ToggleKindIs(f, clicked);
  }

  lemma EnabledByBit(f: EdgeFilter, kind: string)
    requires KnownLinkKind(kind) && f.allOverride == 0
    ensures EdgeKindEnabled(f, kind) <==> Meets(f.mask, EdgeKindBit(kind))
  {
    hide EdgeKindBit, KnownLinkKind;
    LinkBits(kind, kind);
  }

  lemma LinkToggleFromAll(clicked: string)
    requires KnownLinkKind(clicked)
    ensures EdgeStep(EdgeFilter(EDGE_MASK_ALL, 1, ""), ToggleKind(clicked)) ==
            EdgeStep(EdgeFilter(EDGE_MASK_ALL, 0, ""), ToggleKind(clicked))
  {
    hide SingleKind;
  }

  function LinkToggles(clicks: seq<string>): seq<EdgeOp> {
    seq(|clicks|, i requires 0 <= i < |clicks| => ToggleKind(clicks[i]))
  }

  lemma {:induction false} LinkTogglesFlip(f: EdgeFilter, clicks: seq<string>, kind: string)
    requires f.allOverride == 0 && KnownLinkKind(kind)
    ensures var g := EdgeRun(f, LinkToggles(clicks));
      && g.allOverride == 0
      && (EdgeKindEnabled(g, kind) <==> (EdgeKindEnabled(f, kind) <==> Clicks(clicks, kind) % 2 == 0))
    decreases |clicks|
  {
    hide EdgeStep, EdgeKindEnabled, KnownLinkKind;
    if clicks != [] {
      assert LinkToggles(clicks)[1..] == LinkToggles(clicks[1..]);
      LinkToggleFlipsOne(f, clicks[0], kind);
      LinkTogglesFlip(EdgeStep(f, ToggleKind(clicks[0])), clicks[1..], kind);
    }
  }

  /** After everything has been selected and some known kinds have been clicked, a known kind is shown exactly if it was
      clicked an even number of times, and an unknown one exactly if all known ones are shown. */
  lemma LinkKindsAfterClicks(f: EdgeFilter, clicks: seq<string>, kind: string)
    requires clicks != [] && KnownLinkKind(clicks[0])
    ensures var g := EdgeRun(f, [SelectAll] + LinkToggles(clicks));
      EdgeKindEnabled(g, kind) <==> if KnownLinkKind(kind) then Clicks(clicks, kind) % 2 == 0 else AllLinkKinds(g)
  {
    hide EdgeKindEnabled, KnownLinkKind, EdgeKindBit, Synced;
    var all, full := EdgeFilter(EDGE_MASK_ALL, 1, ""), EdgeFilter(EDGE_MASK_ALL, 0, "");
    assert ([SelectAll] + LinkToggles(clicks))[1..] == LinkToggles(clicks);
    LinkToggleFromAll(clicks[0]);
    SupportsIsKnown();
    assert EdgeRun(all, LinkToggles(clicks)) == EdgeRun(full, LinkToggles(clicks));
    LinkTogglesFlip(full, clicks, "supports");
    if KnownLinkKind(kind) {
      LinkTogglesFlip(full, clicks, kind);
      FullAndEmptyLinkMask("", kind);
    } else {
      LinkKindOverride(EdgeRun(full, LinkToggles(clicks)), kind);
    }
  }

  lemma SupportsIsKnown()
    ensures KnownLinkKind("supports")
  {
  }

  /** Selecting one known kind shows that kind alone; selecting anything else shows everything. */
  lemma SingleKindShows(f: EdgeFilter, single: string, kind: string)
    ensures EdgeKindEnabled(EdgeStep(f, SetSingle(single)), kind) <==>
            if KnownLinkKind(single) then kind == single else true
  {
    hide SingleKind;
  }

  /** Switching the override on shows everything; so does switching it off again. */
  lemma OverrideShowsAll(f: EdgeFilter, kind: string)
    requires f.allOverride == 0
    ensures var on := EdgeStep(f, ToggleOverride);
      && EdgeKindEnabled(on, kind) && on.allOverride != 0
      && EdgeKindEnabled(EdgeStep(on, ToggleOverride), kind) && EdgeStep(on, ToggleOverride).allOverride == 0
  {
    hide SingleKind;
  }

  lemma ItemOverrideShowsAll(f: NodeFilter, kind: string)
    requires f.allOverride == 0
    ensures var on := NodeStep(f, ToggleNodeAll);
      && NodeKindEnabled(on, kind) && on.allOverride != 0
      && (NodeKindEnabled(NodeStep(on, ToggleNodeAll), kind) <==> KnownItemKind(kind))
      && NodeStep(on, ToggleNodeAll).allOverride == 0
  {
  }

  /** The text names a kind exactly if that is the only kind enabled. */
  lemma TextNamesTheOnlyKind(f: EdgeFilter, kind: string)
    requires InSync(f) && kind != ""
    ensures f.text == kind <==> f.allOverride == 0 && KnownLinkKind(kind) && EdgeKindEnabled(f, kind) &&
                                forall other :: KnownLinkKind(other) && EdgeKindEnabled(f, other) ==> other == kind
  {
    if f.text == kind {
      TextIsKnown(f);
      forall other | KnownLinkKind(other) && EdgeKindEnabled(f, other)
        ensures other == kind
      {
        TextIsTheEnabledKind(f, other);
      }
      TextIsTheEnabledKind(f, kind);
    } else if f.allOverride == 0 && KnownLinkKind(kind) && EdgeKindEnabled(f, kind)
              && forall other :: KnownLinkKind(other) && EdgeKindEnabled(f, other) ==> other == kind {
      OnlyOneEnabled(f, kind);
    }
  }

  lemma TextIsKnown(f: EdgeFilter)
    requires InSync(f) && f.text != ""
    ensures f.allOverride == 0 && KnownLinkKind(f.text)
  {
  }

  lemma OnlyOneEnabled(f: EdgeFilter, kind: string)
    requires InSync(f) && f.allOverride == 0 && KnownLinkKind(kind) && EdgeKindEnabled(f, kind)
    requires forall other :: KnownLinkKind(other) && EdgeKindEnabled(f, other) ==> other == kind
    ensures f.text == kind
  {
    hide Has, EdgeKindEnabled, SingleKind;
    var k := if kind == "supports" then 0 else if kind == "depends_on" then 1 else if kind == "references" then 2
             else if kind == "summarizes" then 3 else if kind == "related" then 4 else if kind == "implements" then 5
             else if kind == "blocks" then 6 else 7;
    assert kind == EDGE_KINDS[k];
    forall i | 0 <= i < 8
      ensures Has(f.mask, i) <==> i == k
    {
      KindHas(f, i);
      KindAt(i, k);
    }
    SelectedIsSingle(f.mask, k);
  }

  lemma KindHas(f: EdgeFilter, i: int)
    requires f.allOverride == 0 && 0 <= i < 8
    ensures KnownLinkKind(EDGE_KINDS[i]) && (EdgeKindEnabled(f, EDGE_KINDS[i]) <==> Has(f.mask, i))
  {
    hide EdgeKindBit, EdgeKindEnabled;
    KnownAt(i);
    EnabledByBit(f, EDGE_KINDS[i]);
  }

  lemma KnownAt(i: int)
    requires 0 <= i < 8
    ensures KnownLinkKind(EDGE_KINDS[i])
  {
  }

  lemma KindAt(i: int, k: int)
    requires 0 <= i < 8 && 0 <= k < 8
    ensures EDGE_KINDS[i] == EDGE_KINDS[k] <==> i == k
  {
    EdgeBits(i);
    EdgeBits(k);
  }
}
