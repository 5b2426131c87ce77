/** What the user can do to the query settings, one operation a step, and the re-reading of the database that follows
    most of them. All of it keeps the console in the states in which the pending check of the refresh protocol works.
    */
module ConsoleEdits {
  import opened Limits
  import opened KindFilters
  import opened Intents
  import opened Prefs
  import opened RefreshProtocol
  import opened LoadedConsole
  import Database

  // ----- selected projects

  /** First slot in use that holds the key, or -1. */
  function SlotOf(p: Projects, key: string, from: nat): (i: int)
    ensures i == -1 || from <= i < p.count
    ensures i >= 0 ==> KeyAt(p, i) == key
    ensures forall j :: from <= j < (if i < 0 then p.count else i) ==> KeyAt(p, j) != key
    decreases p.count - from
  {
    if from >= p.count then -1 else if KeyAt(p, from) == key then from else SlotOf(p, key, from + 1)
  }

  /** Selects the project, or closes the gap its key leaves; with all slots in use nothing is added. */
  function ToggleProject(p: Projects, key: string): Projects {
    var i := SlotOf(p, key, 0);
    if key == "" then p
    else if i >= 0 then
      Projects(p.count - 1, seq(SCOPE_FILTER_LIMIT, j requires j >= 0 =>
        if i <= j < p.count - 1 then KeyAt(p, j + 1) else if j == p.count - 1 then "" else KeyAt(p, j)))
    else if p.count >= SCOPE_FILTER_LIMIT then p
    else
      Projects(p.count + 1, seq(SCOPE_FILTER_LIMIT, j requires j >= 0 =>
        if j == p.count then Database.Truncated(key, 64) else KeyAt(p, j)))
  }

  function NoProjects(): Projects {
    Projects(0, seq(SCOPE_FILTER_LIMIT, _ => ""))
  }

  /** Of the first `n` selected keys, those that are still an option. */
  function KeptKeys(p: Projects, options: set<string>, n: nat): (kept: seq<string>)
    ensures |kept| <= n
    ensures forall key :: key in kept <==> key != "" && key in options && exists i :: 0 <= i < n && KeyAt(p, i) == key
  {
    if n == 0 then []
    else
      var rest, key := KeptKeys(p, options, n - 1), KeyAt(p, n - 1);
      if key != "" && key in options then rest + [key] else rest
  }

  /** Projects that are no option any more are dropped and the gaps closed. */
  function Pruned(p: Projects, options: set<string>): Projects {
    var kept := KeptKeys(p, options, if p.count < 0 then 0 else p.count);
    Projects(|kept|, seq(SCOPE_FILTER_LIMIT, j requires j >= 0 => if j < |kept| then kept[j] else ""))
  }

  ghost predicate CountInRange(p: Projects) {
    0 <= p.count <= SCOPE_FILTER_LIMIT
  }

  ghost predicate DistinctProjects(p: Projects) {
    forall i, j :: 0 <= i < j < p.count ==> KeyAt(p, i) != KeyAt(p, j)
  }

  ghost function Chosen(p: Projects): set<string> {
    set i | 0 <= i < p.count :: KeyAt(p, i)
  }

  /** Toggling flips the membership of one key, unless it would be one project too many, and never selects twice. */
  lemma ToggleProjectFlips(p: Projects, key: string)
    requires CountInRange(p) && DistinctProjects(p) && key != "" && |key| < 64
    ensures var t := ToggleProject(p, key);
      && CountInRange(t) && DistinctProjects(t)
      && Chosen(t) == if key in Chosen(p) then Chosen(p) - {key}
                      else if p.count == SCOPE_FILTER_LIMIT then Chosen(p) else Chosen(p) + {key}
  {
    var i := SlotOf(p, key, 0);
    if i >= 0 {
      KeyDropped(p, key, i);
    } else if p.count < SCOPE_FILTER_LIMIT {
      KeyAdded(p, key);
    }
  }

  /** A key too long for its slot is cut, so it is not found again and another toggle selects it once more. */
  lemma LongKeyIsCut(p: Projects, key: string)
    requires CountInRange(p) && p.count < SCOPE_FILTER_LIMIT && |key| >= 64
    requires forall i :: 0 <= i < p.count ==> |KeyAt(p, i)| < 64
    ensures var t := ToggleProject(p, key);
      && t.count == p.count + 1 && KeyAt(t, p.count) == key[..63]
      && (forall i :: 0 <= i < p.count ==> KeyAt(t, i) == KeyAt(p, i))
      && forall i :: 0 <= i < t.count ==> |KeyAt(t, i)| < 64
  {
    var t, i := ToggleProject(p, key), SlotOf(p, key, 0);
    assert i < 0;
    assert t.keys[p.count] == Database.Truncated(key, 64);
  }

  lemma KeyDropped(p: Projects, key: string, i: int)
    requires CountInRange(p) && DistinctProjects(p) && key != "" && SlotOf(p, key, 0) == i >= 0
    ensures var t := ToggleProject(p, key);
            CountInRange(t) && DistinctProjects(t) && key in Chosen(p) && Chosen(t) == Chosen(p) - {key}
  {
    var t := ToggleProject(p, key);
    SlotsDropped(p, key, i);
    hide ToggleProject, SlotOf;
    forall k | k in Chosen(p) - {key}
      ensures k in Chosen(t)
    {
      var j :| 0 <= j < p.count && KeyAt(p, j) == k;
      assert KeyAt(t, if j < i then j else j - 1) == k;
    }
  }

  lemma KeyAdded(p: Projects, key: string)
    requires CountInRange(p) && DistinctProjects(p) && p.count < SCOPE_FILTER_LIMIT
    requires key != "" && |key| < 64 && SlotOf(p, key, 0) < 0
    ensures var t := ToggleProject(p, key);
            CountInRange(t) && DistinctProjects(t) && key !in Chosen(p) && Chosen(t) == Chosen(p) + {key}
  {
    assert forall j :: 0 <= j < p.count ==> KeyAt(p, j) != key;
    SlotsAdded(p, key);
    hide ToggleProject, SlotOf, KeyAt;
    OneMoreChosen(p, ToggleProject(p, key), key);
  }

  lemma SlotsAdded(p: Projects, key: string)
    requires CountInRange(p) && p.count < SCOPE_FILTER_LIMIT
    requires key != "" && |key| < 64 && SlotOf(p, key, 0) < 0
    ensures var t := ToggleProject(p, key);
      && t.count == p.count + 1 && KeyAt(t, p.count) == key
      && forall j :: 0 <= j < p.count ==> KeyAt(t, j) == KeyAt(p, j)
  {
    var t, i := ToggleProject(p, key), p.count;
    assert t.keys[i] == Database.Truncated(key, 64);
  }

  lemma OneMoreChosen(p: Projects, t: Projects, key: string)
    requires 0 <= p.count && t.count == p.count + 1 && KeyAt(t, p.count) == key
    requires forall j :: 0 <= j < p.count ==> KeyAt(t, j) == KeyAt(p, j)
    ensures Chosen(t) == Chosen(p) + {key}
  {
    hide KeyAt;
    forall k | k in Chosen(p)
      ensures k in Chosen(t)
    {
      var j :| 0 <= j < p.count && KeyAt(p, j) == k;
      assert KeyAt(t, j) == k;
    }
    forall k | k in Chosen(t)
      ensures k in Chosen(p) + {key}
    {
      var j :| 0 <= j < t.count && KeyAt(t, j) == k;
      assert j < p.count ==> KeyAt(p, j) == k;
    }
  }

  /** Pruning keeps the selected projects that are still an option. */
  lemma PrunedKeepsOptions(p: Projects, options: set<string>)
    requires CountInRange(p)
    ensures CountInRange(Pruned(p, options)) && Chosen(Pruned(p, options)) == (Chosen(p) * options) - {""}
  {
    var t, kept := Pruned(p, options), KeptKeys(p, options, p.count);
    assert forall j :: 0 <= j < t.count ==> KeyAt(t, j) == kept[j] && kept[j] in kept;
    hide Pruned;
    forall key | key in (Chosen(p) * options) - {""}
      ensures key in Chosen(t)
    {
      assert key in kept;
      var j :| 0 <= j < |kept| && kept[j] == key;
      assert KeyAt(t, j) == key;
    }
  }

  // ----- the selected projects in order

  ghost function KeysOf(p: Projects): seq<string>
    requires p.count >= 0
  {
    seq(p.count, i requires 0 <= i => KeyAt(p, i))
  }

  /** Toggling a selected project takes it out and leaves the others in order, */
  lemma OthersStay(p: Projects, key: string, i: int)
    requires CountInRange(p) && DistinctProjects(p) && key != "" && 0 <= i < p.count && KeyAt(p, i) == key
    ensures var t := ToggleProject(p, key);
            t.count >= 0 && KeysOf(t) == KeysOf(p)[..i] + KeysOf(p)[i + 1..]
  {
    assert SlotOf(p, key, 0) == i;
    SlotsDropped(p, key, i);
    hide ToggleProject, SlotOf, KeyAt;
  }

  lemma SlotsDropped(p: Projects, key: string, i: int)
    requires CountInRange(p) && key != "" && SlotOf(p, key, 0) == i >= 0
    ensures var t := ToggleProject(p, key);
      && t.count == p.count - 1
      && forall j :: 0 <= j < t.count ==> KeyAt(t, j) == KeyAt(p, if j < i then j else j + 1)
  {
    var t := ToggleProject(p, key);
    assert forall j :: 0 <= j < t.count ==> t.keys[j] == KeyAt(p, if j < i then j else j + 1);
  }

  /** and toggling another one adds it behind them, if there is a slot for it. */
  lemma AddedLast(p: Projects, key: string)
    requires CountInRange(p) && key != "" && |key| < 64 && forall i :: 0 <= i < p.count ==> KeyAt(p, i) != key
    ensures var t := ToggleProject(p, key);
            t.count >= 0 && KeysOf(t) == if p.count == 16 then KeysOf(p) else KeysOf(p) + [key]
  {
    assert SlotOf(p, key, 0) < 0;
    if p.count < SCOPE_FILTER_LIMIT {
      SlotsAdded(p, key);
      hide ToggleProject, SlotOf, KeyAt;
    }
  }

  /** Pruning leaves the projects it keeps in order, each once. */
  lemma PrunedKeepsOrder(p: Projects, options: set<string>, i: int, j: int, a: int, b: int)
    requires CountInRange(p) && DistinctProjects(p)
    requires var t := Pruned(p, options);
      && 0 <= i < t.count && 0 <= j < t.count && 0 <= a < p.count && 0 <= b < p.count
      && KeyAt(t, i) == KeyAt(p, a) && KeyAt(t, j) == KeyAt(p, b)
    ensures i < j <==> a < b
  {
    var t, kept := Pruned(p, options), KeptKeys(p, options, p.count);
    assert KeyAt(t, i) == kept[i] && KeyAt(t, j) == kept[j];
    hide Pruned;
    if i < j {
      KeptInOrder(p, options, p.count, i, j, a, b);
    } else if j < i {
      KeptInOrder(p, options, p.count, j, i, b, a);
    }
  }

  lemma {:induction false} KeptInOrder(p: Projects, options: set<string>, n: nat, i: int, j: int, a: int, b: int)
    requires DistinctProjects(p) && n <= p.count && 0 <= i < j < |KeptKeys(p, options, n)|
    requires 0 <= a < p.count && 0 <= b < p.count
    requires KeptKeys(p, options, n)[i] == KeyAt(p, a) && KeptKeys(p, options, n)[j] == KeyAt(p, b)
    ensures a < b
  {
    var rest := KeptKeys(p, options, n - 1);
    assert rest[i] in rest;
    if j < |rest| {
      KeptInOrder(p, options, n - 1, i, j, a, b);
    }
  }

  // ----- the three views

  datatype View = Focus | Pods | Web

  function ViewOf(q: Intent): View {
    if q.fullScope == 0 then Focus else if q.layout == 1 then Pods else Web
  }

  function WithView(q: Intent, view: View): Intent {
    match view
    case Pods => q.(fullScope := if q.fullScope == 0 then 1 else q.fullScope, layout := 1)
    case Web => q.(fullScope := if q.fullScope == 0 then 1 else q.fullScope, layout := 0)
    case Focus => q.(fullScope := 0, layout := 0)
  }

  lemma ViewIsSet(q: Intent, view: View)
    ensures ViewOf(WithView(q, view)) == view
    ensures WithView(q, view) == q.(fullScope := WithView(q, view).fullScope, layout := WithView(q, view).layout)
    ensures WithView(q, view).layout == (if view == Pods then 1 else 0)
    ensures WithView(q, view).fullScope == 0 <==> view == Focus
    ensures q.fullScope != 0 && view != Focus ==> WithView(q, view).fullScope == q.fullScope
  {
  }

  // ----- reading the database again in the foreground

  /** What the database answers: the number of matches, the list offset in range, the ids of the visible rows, the
      project options, and the centre the graph ends with. */
  datatype Answer = Answer(matching: int, offset: int, visible: seq<int>, options: set<string>, center: int)

  function Reread(q: Intent, a: Answer): Intent {
    q.(selected := if a.matching == 0 then 0
                   else if q.selected == 0 && a.visible != [] then IdOrNone(a.visible[0])
                   else q.selected,
       center := IdOrNone(a.center), offset := if a.matching == 0 then 0 else a.offset,
       projects := Pruned(q.projects, a.options),
       edgeLimit := ClampEdgeLimit(q.edgeLimit), hops := ClampHops(q.hops))
  }

  /** Loading the preferences and then reading the database is a start. */
  lemma RereadStarts(theme: int, font: int, presets: Presets, c: Chunk, a: Answer)
    ensures var s := Load(Seeded(theme, font), presets, c); StartsFrom(Reread(FreshIntent(s), a), s)
  {
    hide Load, Seeded, NodeFilterNormal, TextFollows, Pruned;
    SeededIsRecheckable(theme, font);
    LoadKeepsOtherwise(Seeded(theme, font), presets, c);
    var s := Load(Seeded(theme, font), presets, c);
    PrunedKeepsOptions(s.projects, a.options);
  }

  // ----- all operations

  datatype UserOp =
    | OnFilters(filterOp: FilterOp)
    | SetHops(hops: int)
    | SetLimit(limit: int)
    | SetView(view: View)
    | SetSort(sort: int)
    | ToggleKey(key: string)
    | ClearProjects
    | Inspect(id: int)
    | Navigate(id: int)
    | SelectCreated(id: int)
    | TypeSearch(search: string)
    | TogglePinned
    | ToggleCanonical
    | CycleKind
    | ScrollTo(offset: int)
    | ReadAgain(answer: Answer)

  function UserStep(q: Intent, op: UserOp): Intent {
    match op
    case OnFilters(f) => FilterStep(q, f)
    case SetHops(hops) => q.(hops := ClampHops(hops))
    case SetLimit(limit) => q.(edgeLimit := ClampEdgeLimit(limit))
    case SetView(view) => WithView(q, view)
    case SetSort(sort) => q.(sort := ClampMode(sort))
    case ToggleKey(key) => q.(projects := ToggleProject(q.projects, key))
    case ClearProjects => q.(projects := NoProjects())
    case Inspect(id) => if id == 0 then q else q.(selected := IdOrNone(id))
    case Navigate(id) => if id == 0 then q else q.(selected := IdOrNone(id), center := IdOrNone(id))
    case SelectCreated(id) => q.(selected := IdOrNone(id))
    case TypeSearch(search) => q.(search := search, offset := 0)
    case TogglePinned => q.(pinnedOnly := if q.pinnedOnly != 0 then 0 else 1, offset := 0)
    case ToggleCanonical => q.(canonicalOnly := if q.canonicalOnly != 0 then 0 else 1, offset := 0)
    case CycleKind =>
      var next := ClampKindIndex(q.kindIndex + 1);
      q.(kindIndex := if next == q.kindIndex then 0 else next, offset := 0)
    case ScrollTo(offset) => q.(offset := if offset < 0 then 0 else offset)
    case ReadAgain(answer) => Reread(q, answer)
  }

  /** The loader's setter for a single kind is not among what the user can do, unless the kind is known. */
  ghost predicate Offered(op: UserOp) {
    !(op.OnFilters? && UnknownSingle(op.filterOp))
  }

  /** Every operation keeps the limits in range, */
  lemma UserStepKeepsRange(q: Intent, op: UserOp)
    requires LimitsInRange(q)
    ensures LimitsInRange(UserStep(q, op))
  {
    hide EdgeStep, NodeStep, Pruned, ToggleProject;
    match op {
      case ToggleKey(key) => ToggleKeepsCount(q.projects, key);
      case ReadAgain(answer) => PrunedKeepsOptions(q.projects, answer.options);
      case _ =>
    }
  }

  /** and every one that is offered keeps a sound console sound. */
  lemma UserStepStaysSound(q: Intent, op: UserOp)
    requires Sound(q) && Offered(op)
    ensures Sound(UserStep(q, op))
  {
    hide LimitsInRange, NodeFilterNormal, TextFollows, OverridesFull, FilterStep, Pruned, ToggleProject, UnknownSingle;
    UserStepKeepsRange(q, op);
    if op.OnFilters? {
      FilterStepStaysSoundIff(q, op.filterOp);
    } else {
      KeepsFilters(q, op);
      FiltersDecide(q, UserStep(q, op));
    }
  }

  lemma KeepsFilters(q: Intent, op: UserOp)
    requires !op.OnFilters? && q.selected >= 0 && q.center >= 0
    ensures var r := UserStep(q, op); r.kind == q.kind && r.node == q.node && r.selected >= 0 && r.center >= 0
  {
    hide Pruned, ToggleProject;
  }

  lemma FiltersDecide(q: Intent, r: Intent)
    requires Sound(q) && LimitsInRange(r) && r.kind == q.kind && r.node == q.node && r.selected >= 0 && r.center >= 0
    ensures Sound(r)
  {
    hide LimitsInRange, NodeFilterNormal, TextFollows;
  }

  lemma ToggleKeepsCount(p: Projects, key: string)
    requires CountInRange(p)
    ensures CountInRange(ToggleProject(p, key))
  {
  }

  /** Each operation sets what it says, to what it was given where that is in range, and leaves everything else. */
  lemma OperationsSetTheirField(q: Intent, op: UserOp)
    ensures match op
      case OnFilters(f) =>
        UserStep(q, op) == q.(kind := UserStep(q, op).kind, node := UserStep(q, op).node)
      case SetHops(hops) =>
        UserStep(q, op) == q.(hops := if hops < 1 then 1 else if hops > 10 then 10 else hops)
      case SetLimit(limit) =>
        UserStep(q, op) == q.(edgeLimit := if limit < 4 then 4 else if limit > 1024 then 1024 else limit)
      case SetView(view) =>
        ViewOf(UserStep(q, op)) == view &&
        UserStep(q, op) == q.(fullScope := UserStep(q, op).fullScope, layout := UserStep(q, op).layout)
      case SetSort(sort) => UserStep(q, op) == q.(sort := if sort == 1 then 1 else 0)
      case ToggleKey(key) => UserStep(q, op) == q.(projects := UserStep(q, op).projects)
      case ClearProjects =>
        UserStep(q, op) == q.(projects := UserStep(q, op).projects) && Chosen(UserStep(q, op).projects) == {}
      case Inspect(id) => id > 0 ==> UserStep(q, op) == q.(selected := id)
      case Navigate(id) => id > 0 ==> UserStep(q, op) == q.(selected := id, center := id)
      case SelectCreated(id) => id > 0 ==> UserStep(q, op) == q.(selected := id)
      case TypeSearch(search) => UserStep(q, op) == q.(search := search, offset := 0)
      case TogglePinned =>
        UserStep(q, op) == q.(pinnedOnly := UserStep(q, op).pinnedOnly, offset := 0) &&
        (UserStep(q, op).pinnedOnly == 0 <==> q.pinnedOnly != 0)
      case ToggleCanonical =>
        UserStep(q, op) == q.(canonicalOnly := UserStep(q, op).canonicalOnly, offset := 0) &&
        (UserStep(q, op).canonicalOnly == 0 <==> q.canonicalOnly != 0)
      case CycleKind => 0 <= q.kindIndex < 8 ==> UserStep(q, op) == q.(kindIndex := (q.kindIndex + 1) % 8, offset := 0)
      case ScrollTo(offset) => offset >= 0 ==> UserStep(q, op) == q.(offset := offset)
      case ReadAgain(a) =>
        UserStep(q, op) == q.(selected := UserStep(q, op).selected, center := UserStep(q, op).center,
                              offset := UserStep(q, op).offset, projects := UserStep(q, op).projects,
                              edgeLimit := ClampEdgeLimit(q.edgeLimit), hops := ClampHops(q.hops))
  {
    hide FilterStep, ToggleProject, Pruned;
    match op {
      case SetView(view) => ViewIsSet(q, view);
      case OnFilters(f) => FiltersOnly(q, f);
      case _ =>
    }
  }

  lemma FiltersOnly(q: Intent, f: FilterOp)
    ensures FilterStep(q, f) == q.(kind := FilterStep(q, f).kind, node := FilterStep(q, f).node)
    ensures f.OnEdges? ==> FilterStep(q, f).kind == EdgeStep(q.kind, f.edgeOp) && FilterStep(q, f).node == q.node
    ensures f.OnNodes? ==> FilterStep(q, f).node == NodeStep(q.node, f.nodeOp) && FilterStep(q, f).kind == q.kind
  {
    hide EdgeStep, NodeStep;
  }

  /** Reading the database again keeps a selection while anything matches, selects the first visible row if there was
      none, and selects nothing if nothing matches. */
  lemma RereadSelects(q: Intent, a: Answer)
    ensures a.matching == 0 ==> Reread(q, a).selected == 0 && Reread(q, a).offset == 0
    ensures a.matching != 0 && q.selected != 0 ==> Reread(q, a).selected == q.selected
    ensures a.matching != 0 ==> Reread(q, a).offset == a.offset
    ensures a.matching != 0 && q.selected == 0 && a.visible != [] && a.visible[0] > 0 ==>
            Reread(q, a).selected == a.visible[0]
    ensures a.center > 0 ==> Reread(q, a).center == a.center
  {
  }
}
