/** The two kind filters of the graph view: a bit mask with an "all" override for link kinds,
    another for item kinds, and the text pushed down into the link queries. */
module KindFilters {
  /** Link-kind filter. `allOverride` is a C flag: any non-zero value counts as set. */
  datatype EdgeFilter = EdgeFilter(mask: bv32, allOverride: int, text: string)

  /** Item-kind filter. */
  datatype NodeFilter = NodeFilter(mask: bv32, allOverride: int)

  const EDGE_KINDS: seq<string> :=
    ["supports", "depends_on", "references", "summarizes", "related", "implements", "blocks", "contradicts"]
  const EDGE_MASK_ALL: bv32 := 0xff
  const NODE_MASK_ALL: bv32 := 0x7f

  function EdgeKindBit(kind: string): bv32 {
    if kind == "supports" then 0x01
    else if kind == "depends_on" then 0x02
    else if kind == "references" then 0x04
    else if kind == "summarizes" then 0x08
    else if kind == "related" then 0x10
    else if kind == "implements" then 0x20
    else if kind == "blocks" then 0x40
    else if kind == "contradicts" then 0x80
    else 0
  }

  function NodeKindBit(kind: string): bv32 {
    if kind == "plan" then 0x01
    else if kind == "decision" then 0x02
    else if kind == "issue" then 0x04
    else if kind == "scope" then 0x08
    else if kind == "summary" then 0x10
    else if kind == "policy" then 0x20
    else if kind == "runtime" then 0x40
    else 0
  }

  function EdgeMaskForKind(kind: string): bv32 {
    if kind == "" then EDGE_MASK_ALL else EdgeKindBit(kind)
  }

  predicate EdgeKindEnabled(f: EdgeFilter, kind: string) {
    if f.allOverride != 0 then true
    else
      var bit := EdgeMaskForKind(kind);
      if bit == 0 || bit == EDGE_MASK_ALL then f.mask & EDGE_MASK_ALL == EDGE_MASK_ALL
      else f.mask & bit != 0
  }

  predicate NodeKindEnabled(f: NodeFilter, kind: string) {
    if f.allOverride != 0 then true
    else
      var bit := NodeKindBit(kind);
      bit != 0 && f.mask & bit & NODE_MASK_ALL != 0
  }

  function EdgeBit(i: int): bv32
    requires 0 <= i < 8
  {
    EdgeKindBit(EDGE_KINDS[i])
  }

  predicate Has(mask: bv32, i: int)
    requires 0 <= i < 8
  {
    mask & EdgeBit(i) != 0
  }

  /** Exactly kind `k` is selected in the mask. */
  ghost predicate OnlyKind(mask: bv32, k: int) {
    0 <= k < 8 && forall i :: 0 <= i < 8 ==> (Has(mask, i) <==> i == k)
  }

  /** The kind whose bit is the whole mask, or "". */
  function SingleKind(mask: bv32): string {
    if mask == 0x01 then "supports"
    else if mask == 0x02 then "depends_on"
    else if mask == 0x04 then "references"
    else if mask == 0x08 then "summarizes"
    else if mask == 0x10 then "related"
    else if mask == 0x20 then "implements"
    else if mask == 0x40 then "blocks"
    else if mask == 0x80 then "contradicts"
    else ""
  }

  /** The filter after its text has been brought up to date with the mask. */
  function Synced(f: EdgeFilter): EdgeFilter {
    var mask := f.mask & EDGE_MASK_ALL;
    EdgeFilter(mask, f.allOverride, if f.allOverride != 0 then "" else SingleKind(mask))
  }

  /** Text, mask and override agree. Every mutator ends in this form. */
  ghost predicate InSync(f: EdgeFilter) {
    f == Synced(f)
  }

  /** The text is what the mask asks for, whatever else the mask holds. */
  ghost predicate TextFollows(f: EdgeFilter) {
    f.text == if f.allOverride != 0 then "" else SingleKind(f.mask & EDGE_MASK_ALL)
  }

  /** With the override on, the mask is full. `SetSingle` is the one mutator that does not give this. */
  ghost predicate OverrideIsFull(f: EdgeFilter) {
    f.allOverride != 0 ==> f.mask == EDGE_MASK_ALL
  }

  lemma EdgeBits(i: int)
    requires 0 <= i < 8
    ensures EdgeBit(i) == [0x01, 0x02, 0x04, 0x08, 0x10, 0x20, 0x40, 0x80][i]
    ensures SingleKind(EdgeBit(i)) == EDGE_KINDS[i] != ""
  {
  }

  lemma EightBits(m: bv32, b: bv32)
    requires m & 0xff == m
    requires b == 0x01 || b == 0x02 || b == 0x04 || b == 0x08 || b == 0x10 || b == 0x20 || b == 0x40 || b == 0x80
    requires (m & 0x01 != 0 <==> b == 0x01) && (m & 0x02 != 0 <==> b == 0x02)
    requires (m & 0x04 != 0 <==> b == 0x04) && (m & 0x08 != 0 <==> b == 0x08)
    requires (m & 0x10 != 0 <==> b == 0x10) && (m & 0x20 != 0 <==> b == 0x20)
    requires (m & 0x40 != 0 <==> b == 0x40) && (m & 0x80 != 0 <==> b == 0x80)
    ensures m == b
  {
  }

  lemma OnlyKindIsItsBit(mask: bv32, k: int)
    requires mask & EDGE_MASK_ALL == mask && 0 <= k < 8
    ensures OnlyKind(mask, k) <==> mask == EdgeBit(k)
  {
    hide EdgeBit;
    EdgeBits(0); EdgeBits(1); EdgeBits(2); EdgeBits(3); EdgeBits(4); EdgeBits(5); EdgeBits(6); EdgeBits(7);
    if OnlyKind(mask, k) {
      var h := [Has(mask, 0), Has(mask, 1), Has(mask, 2), Has(mask, 3), Has(mask, 4), Has(mask, 5), Has(mask, 6),
                Has(mask, 7)];
      EightBits(mask, EdgeBit(k));
    }
  }

  /** No kind selected, or two of them: no single-kind text. */
  lemma NoOnlyKind(mask: bv32, first: int, second: int)
    requires mask & EDGE_MASK_ALL == mask
    requires (forall j :: 0 <= j < 8 ==> !Has(mask, j))
      || (0 <= first < second < 8 && Has(mask, first) && Has(mask, second))
    ensures SingleKind(mask) == ""
  {
    hide EdgeBit;
    if SingleKind(mask) != "" {
      var k := if mask == 1 then 0 else if mask == 2 then 1 else if mask == 4 then 2 else if mask == 8 then 3
               else if mask == 16 then 4 else if mask == 32 then 5 else if mask == 64 then 6 else 7;
      EdgeBits(k);
      var selected := Has(mask, k);
      OnlyKindIsItsBit(mask, k);
    }
  }

  lemma SelectedIsSingle(mask: bv32, k: int)
    requires mask & EDGE_MASK_ALL == mask && 0 <= k < 8
    requires forall j :: 0 <= j < 8 ==> (Has(mask, j) <==> j == k)
    ensures SingleKind(mask) == EDGE_KINDS[k]
  {
    OnlyKindIsItsBit(mask, k);
    EdgeBits(k);
  }

  /** A pushed-down text names the one enabled kind. */
  lemma TextIsTheEnabledKind(f: EdgeFilter, kind: string)
    requires InSync(f) && f.text != ""
    ensures EdgeKindEnabled(f, kind) <==> kind == f.text
  {
    assert f.mask == 0x01 || f.mask == 0x02 || f.mask == 0x04 || f.mask == 0x08
        || f.mask == 0x10 || f.mask == 0x20 || f.mask == 0x40 || f.mask == 0x80;
  }

  /** The one selected kind, or "" for none or several. */
  method SelectedKind(mask: bv32) returns (kind: string)
    requires mask & EDGE_MASK_ALL == mask
    ensures kind == SingleKind(mask)
  {
    hide Has, SingleKind;
    var selectedCount, selectedKind := 0, "";
    ghost var first, second := -1, -1;
    for i := 0 to 8
      invariant selectedCount == 0 ==> forall j :: 0 <= j < i ==> !Has(mask, j)
      invariant selectedCount == 1 ==> 0 <= first < i && selectedKind == EDGE_KINDS[first]
      invariant selectedCount == 1 ==> forall j :: 0 <= j < i ==> (Has(mask, j) <==> j == first)
      invariant selectedCount >= 2 ==> 0 <= first < second < i && Has(mask, first) && Has(mask, second)
      invariant selectedCount >= 0
    {
      if mask & EdgeBit(i) != 0 {
        HasBit(mask, i);
        if selectedCount == 0 {
          first := i;
        } else if selectedCount == 1 {
          second := i;
        }
        selectedCount := selectedCount + 1;
        selectedKind := EDGE_KINDS[i];
      } else {
        HasBit(mask, i);
      }
    }
    if selectedCount == 1 {
      SelectedIsSingle(mask, first);
      kind := selectedKind;
    } else {
      NoOnlyKind(mask, first, second);
      kind := "";
    }
  }

  lemma HasBit(mask: bv32, i: int)
    requires 0 <= i < 8
    ensures Has(mask, i) <==> mask & EdgeBit(i) != 0
  {
  }

  lemma KindBitIsProper(kind: string)
    ensures EdgeKindBit("") == 0 && EdgeKindBit(kind) != EDGE_MASK_ALL
  {
  }

  /** The filter fields of the console state and the operations the user interface drives them with. */
  class FilterControls {
    var edge: EdgeFilter
    var node: NodeFilter

    /** Recomputes the pushed-down text: the selected kind if there is exactly one. */
    method SyncTextFilter()
      modifies this`edge
      ensures edge == Synced(old(edge))
    {
      var mask := edge.mask & EDGE_MASK_ALL;
      edge := edge.(mask := mask);
      if edge.allOverride != 0 {
        edge := edge.(text := "");
        return;
      }
      var kind := SelectedKind(mask);
      edge := edge.(text := kind);
    }

    method ToggleEdgeKind(kind: string) returns (changed: bool)
      modifies this`edge
      ensures EdgeKindBit(kind) == 0 ==> edge == old(edge) && !changed
      ensures EdgeKindBit(kind) != 0 ==>
        edge == Synced(EdgeFilter((old(edge).mask ^ EdgeKindBit(kind)) & EDGE_MASK_ALL, 0, old(edge).text))
      ensures edge == EdgeStep(old(edge), ToggleKind(kind))
      ensures changed <==> old(edge).mask != edge.mask || old(edge).allOverride != edge.allOverride
    {
      hide EdgeKindBit, EdgeStep, Synced;
      KindBitIsProper(kind);
      ToggleKindIs(edge, kind);
      if kind == "" {
        return false;
      }
      var bit := EdgeMaskForKind(kind);
      if bit == 0 || bit == EDGE_MASK_ALL {
        return false;
      }
      var before := edge;
      edge := EdgeFilter((edge.mask ^ bit) & EDGE_MASK_ALL, 0, edge.text);
      SyncTextFilter();
      changed := before.mask != edge.mask || before.allOverride != edge.allOverride;
    }

    method SelectAllEdgeKinds()
      modifies this`edge
      ensures edge == EdgeFilter(EDGE_MASK_ALL, 1, "") == EdgeStep(old(edge), SelectAll)
    {
      edge := edge.(allOverride := 1, mask := EDGE_MASK_ALL);
      SyncTextFilter();
    }

    method ToggleEdgeOverride() returns (changed: bool)
      modifies this`edge
      ensures old(edge).allOverride == 0 ==> edge == EdgeFilter(EDGE_MASK_ALL, 1, "")
      ensures old(edge).allOverride != 0 ==> edge == Synced(old(edge).(allOverride := 0))
      ensures edge == EdgeStep(old(edge), ToggleOverride)
      ensures changed
    {
      var before := edge.allOverride;
      edge := edge.(allOverride := if edge.allOverride != 0 then 0 else 1);
      if edge.allOverride != 0 {
        edge := edge.(mask := EDGE_MASK_ALL);
      }
      SyncTextFilter();
      changed := before != edge.allOverride;
    }

    /** One kind only. An empty or unknown kind turns the override on and leaves the mask alone. */
    method SetSingleEdgeKind(kind: string)
      modifies this`edge
      ensures edge == SingleSelected(old(edge), kind) == EdgeStep(old(edge), SetSingle(kind))
    {
      if kind == "" {
        edge := edge.(allOverride := 1);
        SyncTextFilter();
        return;
      }
      var bit := EdgeMaskForKind(kind);
      if bit == 0 || bit == EDGE_MASK_ALL {
        edge := edge.(allOverride := 1);
      } else {
        edge := edge.(mask := bit, allOverride := 0);
      }
      SyncTextFilter();
    }

    method ToggleNodeKind(kind: string) returns (changed: bool)
      modifies this`node
      ensures NodeKindBit(kind) == 0 ==> node == old(node)
      ensures NodeKindBit(kind) != 0 ==> node == NodeFilter((old(node).mask ^ NodeKindBit(kind)) & NODE_MASK_ALL, 0)
      ensures node == NodeStep(old(node), ToggleNode(kind))
      ensures changed <==> old(node).mask != node.mask
    {
      hide NodeKindBit, NodeStep;
      ToggleNodeIs(node, kind);
      var bit := NodeKindBit(kind);
      if bit == 0 {
        return false;
      }
      var beforeMask := node.mask;
      node := NodeFilter((node.mask ^ bit) & NODE_MASK_ALL, 0);
      changed := beforeMask != node.mask;
    }

    method SelectAllNodeKinds()
      modifies this`node
      ensures node == NodeFilter(NODE_MASK_ALL, 1) == NodeStep(old(node), SelectAllNodes)
    {
      node := NodeFilter(NODE_MASK_ALL, 1);
    }

    method ToggleNodeOverride() returns (changed: bool)
      modifies this`node
      ensures node == if old(node).allOverride == 0 then NodeFilter(NODE_MASK_ALL, 1) else old(node).(allOverride := 0)
      ensures node == NodeStep(old(node), ToggleNodeAll)
      ensures changed
    {
      var before := node.allOverride;
      node := node.(allOverride := if node.allOverride != 0 then 0 else 1);
      if node.allOverride != 0 {
        node := node.(mask := NODE_MASK_ALL);
      }
      changed := before != node.allOverride;
    }
  }

  function SingleSelected(f: EdgeFilter, kind: string): EdgeFilter {
    if EdgeKindBit(kind) == 0 then Synced(f.(allOverride := 1))
    else Synced(f.(mask := EdgeKindBit(kind), allOverride := 0))
  }

  /** The operations, as one step from one filter to the next. */
  datatype EdgeOp = ToggleKind(kind: string) | SelectAll | ToggleOverride | SetSingle(kind: string)

  function EdgeStep(f: EdgeFilter, op: EdgeOp): EdgeFilter {
    match op
    case ToggleKind(kind) =>
      if EdgeKindBit(kind) == 0 then f
      else Synced(EdgeFilter((f.mask ^ EdgeKindBit(kind)) & EDGE_MASK_ALL, 0, f.text))
    case SelectAll => EdgeFilter(EDGE_MASK_ALL, 1, "")
    case ToggleOverride =>
      if f.allOverride == 0 then EdgeFilter(EDGE_MASK_ALL, 1, "") else Synced(f.(allOverride := 0))
    case SetSingle(kind) => SingleSelected(f, kind)
  }

  function EdgeRun(f: EdgeFilter, ops: seq<EdgeOp>): EdgeFilter
    decreases |ops|
  {
    if ops == [] then f else EdgeRun(EdgeStep(f, ops[0]), ops[1..])
  }

  /** Over any run of filter operations the text stays in step, and a shown text names exactly the enabled kind. */
  lemma {:induction false} RunsStayInSync(f: EdgeFilter, ops: seq<EdgeOp>, kind: string)
    requires InSync(f)
    ensures InSync(EdgeRun(f, ops))
    ensures EdgeRun(f, ops).text != "" ==> (EdgeKindEnabled(EdgeRun(f, ops), kind) <==> kind == EdgeRun(f, ops).text)
    decreases |ops|
  {
    if ops == [] {
      if f.text != "" {
        TextIsTheEnabledKind(f, kind);
      }
    } else {
      StepStaysInSync(f, ops[0]);
      RunsStayInSync(EdgeStep(f, ops[0]), ops[1..], kind);
    }
  }

  lemma ToggleKindIs(f: EdgeFilter, kind: string)
    ensures EdgeStep(f, ToggleKind(kind)) ==
            if EdgeKindBit(kind) == 0 then f
            else Synced(EdgeFilter((f.mask ^ EdgeKindBit(kind)) & EDGE_MASK_ALL, 0, f.text))
  {
    hide EdgeKindBit, Synced;
  }

  lemma StepStaysInSync(f: EdgeFilter, op: EdgeOp)
    requires InSync(f)
    ensures InSync(EdgeStep(f, op))
  {
  }

  /** Every operation keeps "override on means mask full", except selecting an unknown or empty kind on a filter
      whose mask is not full already. */
  lemma OverrideStaysFull(f: EdgeFilter, op: EdgeOp)
    requires InSync(f) && OverrideIsFull(f)
    ensures OverrideIsFull(EdgeStep(f, op)) <==>
            !(op.SetSingle? && EdgeKindBit(op.kind) == 0 && f.mask != EDGE_MASK_ALL)
  {
  }

  /** Over any run without such a selection an override always stands over a full mask. */
  lemma {:induction false} OverrideStaysFullOverRuns(f: EdgeFilter, ops: seq<EdgeOp>)
    requires InSync(f) && OverrideIsFull(f)
    requires forall i :: 0 <= i < |ops| ==> !(ops[i].SetSingle? && EdgeKindBit(ops[i].kind) == 0)
    ensures InSync(EdgeRun(f, ops)) && OverrideIsFull(EdgeRun(f, ops))
    decreases |ops|
  {
    hide InSync, OverrideIsFull, EdgeStep;
    if ops != [] {
      StepStaysInSync(f, ops[0]);
      OverrideStaysFull(f, ops[0]);
      OverrideStaysFullOverRuns(EdgeStep(f, ops[0]), ops[1..]);
    }
  }

  /** The item-kind operations, as one step from one filter to the next. */
  datatype NodeOp = ToggleNode(kind: string) | SelectAllNodes | ToggleNodeAll

  function NodeStep(f: NodeFilter, op: NodeOp): NodeFilter {
    match op
    case ToggleNode(kind) =>
      if NodeKindBit(kind) == 0 then f else NodeFilter((f.mask ^ NodeKindBit(kind)) & NODE_MASK_ALL, 0)
    case SelectAllNodes => NodeFilter(NODE_MASK_ALL, 1)
    case ToggleNodeAll => if f.allOverride == 0 then NodeFilter(NODE_MASK_ALL, 1) else f.(allOverride := 0)
  }

  lemma ToggleNodeIs(f: NodeFilter, kind: string)
    ensures NodeStep(f, ToggleNode(kind)) ==
            if NodeKindBit(kind) == 0 then f else NodeFilter((f.mask ^ NodeKindBit(kind)) & NODE_MASK_ALL, 0)
  {
    hide NodeKindBit;
  }

  function NodeRun(f: NodeFilter, ops: seq<NodeOp>): NodeFilter
    decreases |ops|
  {
    if ops == [] then f else NodeRun(NodeStep(f, ops[0]), ops[1..])
  }

  /** Only known bits in the mask, the override a flag, and set only over the full mask. */
  ghost predicate NodeFilterNormal(f: NodeFilter) {
    && f.mask & NODE_MASK_ALL == f.mask && (f.allOverride == 0 || f.allOverride == 1)
    && (f.allOverride != 0 ==> f.mask == NODE_MASK_ALL)
  }

  lemma NodeStepStaysNormal(f: NodeFilter, op: NodeOp)
    requires NodeFilterNormal(f)
    ensures NodeFilterNormal(NodeStep(f, op))
  {
  }

  /** Every run of item-kind operations keeps the item-kind filter normal. */
  lemma {:induction false} NodeRunsStayNormal(f: NodeFilter, ops: seq<NodeOp>)
    requires NodeFilterNormal(f)
    ensures NodeFilterNormal(NodeRun(f, ops))
    decreases |ops|
  {
    hide NodeFilterNormal, NodeStep;
    if ops != [] {
      NodeStepStaysNormal(f, ops[0]);
      NodeRunsStayNormal(NodeStep(f, ops[0]), ops[1..]);
    }
  }
}
