/** Text inputs: a fixed, NUL-terminated buffer with a cursor, and for the database path a selection. */
module EditBuffer {
  /** What an input holds. `selectable` is true of the database path input, the only one with a selection. */
  datatype Field = Field(text: string, cap: nat, cursor: int, selectable: bool, anchor: int, selStart: int, selEnd: int)

  datatype Op = Append(s: string) | Erase | Delete | Move(delta: int) | Home | End
              | SelectAll | BeginSelection(at: int) | UpdateSelection(to: int)

  const NUL := '\0'

  ghost predicate Fits(f: Field) {
    |f.text| < f.cap && NUL !in f.text
  }

  /** Cursor and selection lie within the text. */
  ghost predicate InRange(f: Field) {
    && 0 <= f.cursor <= |f.text|
    && (f.selectable ==> 0 <= f.anchor <= |f.text| && 0 <= f.selStart <= f.selEnd <= |f.text|)
  }

  function ClampedTo(t: string, c: int): nat {
    if c < 0 then 0 else if c > |t| then |t| else c
  }

  function Min(a: int, b: int): int {
    if a < b then a else b
  }

  function Splice(t: string, a: nat, b: nat, s: string): string
    requires a <= b <= |t|
  {
    t[..a] + s + t[b..]
  }

  function Normalized(f: Field): Field {
    var a, b := ClampedTo(f.text, f.selStart), ClampedTo(f.text, f.selEnd);
    if a > b then f.(selStart := b, selEnd := a) else f.(selStart := a, selEnd := b)
  }

  function Cleared(f: Field): Field {
    if f.selectable then f.(anchor := f.cursor, selStart := f.cursor, selEnd := f.cursor) else f
  }

  predicate HasSelection(f: Field) {
    f.selectable && f.selStart != f.selEnd
  }

  /** The selected text is gone; a selection that is empty once clamped to the text is only clamped. */
  function WithoutSelection(f: Field): Field {
    var g := Normalized(f);
    if g.selStart == g.selEnd then g
    else Cleared(g.(text := Splice(g.text, g.selStart, g.selEnd, ""), cursor := g.selStart))
  }

  function Dropped(f: Field): Field {
    if HasSelection(f) then WithoutSelection(f) else f
  }

  /** How much of `s` fits. */
  function Room(f: Field, s: string): nat
    requires |f.text| < f.cap
  {
    Min(|s|, f.cap - 1 - |f.text|)
  }

  /** As much of `s` as fits, put in at the cursor. */
  function Inserted(f: Field, s: string): Field
    requires |f.text| < f.cap
  {
    var n, c := Room(f, s), ClampedTo(f.text, f.cursor);
    Cleared(f.(text := Splice(f.text, c, c, s[..n]), cursor := c + n))
  }

  function Appended(f: Field, s: string): Field
    requires Fits(f)
  {
    DroppedFits(f);
    var g := Dropped(f);
    if Room(g, s) == 0 then g else Inserted(g, s)
  }

  function Erased(f: Field): Field {
    var c := ClampedTo(f.text, f.cursor);
    if HasSelection(f) then WithoutSelection(f)
    else if c == 0 then f
    else Cleared(f.(text := Splice(f.text, c - 1, c, ""), cursor := c - 1))
  }

  /** The character after the cursor goes; the cursor itself is left as it was. */
  function Deleted(f: Field): Field {
    var c := ClampedTo(f.text, f.cursor);
    if HasSelection(f) then WithoutSelection(f)
    else if c == |f.text| then f
    else Cleared(f.(text := Splice(f.text, c, c + 1, "")))
  }

  function MovedTo(f: Field, c: int): Field {
    Cleared(f.(cursor := ClampedTo(f.text, c)))
  }

  function AllSelected(f: Field): Field {
    f.(cursor := |f.text|, anchor := 0, selStart := 0, selEnd := |f.text|)
  }

  function SelectedTo(f: Field, c: int): Field {
    var at := ClampedTo(f.text, c);
    Normalized(f.(cursor := at, selStart := f.anchor, selEnd := at))
  }

  function Apply(f: Field, op: Op): Field
    requires Fits(f)
  {
    match op
    case Append(s) => Appended(f, s)
    case Erase => Erased(f)
    case Delete => Deleted(f)
    case Move(d) => MovedTo(f, f.cursor + d)
    case Home => MovedTo(f, 0)
    case End => MovedTo(f, |f.text|)
    case SelectAll => if f.selectable then AllSelected(f) else f
    case BeginSelection(at) => if f.selectable then MovedTo(f, at) else f
    case UpdateSelection(to) => if f.selectable then SelectedTo(f, to) else f
  }

  lemma DroppedFits(f: Field)
    requires Fits(f)
    ensures Fits(Dropped(f)) && !HasSelection(Dropped(f)) && Dropped(f).cap == f.cap &&
            Dropped(f).selectable == f.selectable
    ensures InRange(f) ==> InRange(Dropped(f))
  {
  }

  /** No operation overruns the buffer or, from a cursor in range, leaves it out of range. */
  lemma StepKeepsFit(f: Field, op: Op)
    requires Fits(f) && (op.Append? ==> NUL !in op.s)
    ensures Fits(Apply(f, op)) && Apply(f, op).cap == f.cap && Apply(f, op).selectable == f.selectable
    ensures InRange(f) ==> InRange(Apply(f, op))
  {
    hide WithoutSelection;
    DroppedFits(f);
    match op
    case Append(s) => hide Splice; InsertedFits(Dropped(f), s);
    case Erase =>
    case Delete =>
    case _ => MoveKeepsFit(f, op);
  }

  lemma MoveKeepsFit(f: Field, op: Op)
    requires Fits(f) && !op.Append? && !op.Erase? && !op.Delete?
    ensures Fits(Apply(f, op)) && Apply(f, op).cap == f.cap && Apply(f, op).selectable == f.selectable
    ensures InRange(f) ==> InRange(Apply(f, op))
  {
    hide Splice, Appended, Erased, Deleted, WithoutSelection;
  }

  lemma InsertedFits(f: Field, s: string)
    requires Fits(f) && NUL !in s
    ensures var g := Inserted(f, s); Fits(g) && InRange(g) && g.cap == f.cap && g.selectable == f.selectable
  {
  }

  ghost predicate Typed(ops: seq<Op>) {
    forall i :: 0 <= i < |ops| && ops[i].Append? ==> NUL !in ops[i].s
  }

  ghost function Run(f: Field, ops: seq<Op>): Field
    requires Fits(f) && Typed(ops)
    decreases ops
  {
    if ops == [] then f
    else
      StepKeepsFit(f, ops[0]);
      Run(Apply(f, ops[0]), ops[1..])
  }

  /** Over every run of edits the text fits its buffer, holds no NUL, and cursor and selection stay inside it. */
  lemma {:induction false} RunsKeepFit(f: Field, ops: seq<Op>)
    requires Fits(f) && InRange(f) && Typed(ops)
    ensures Fits(Run(f, ops)) && InRange(Run(f, ops)) && Run(f, ops).cap == f.cap
    decreases ops
  {
    if ops != [] {
      StepKeepsFit(f, ops[0]);
      RunsKeepFit(Apply(f, ops[0]), ops[1..]);
    }
  }

  /** Typing piece by piece is the same as typing it all at once, even where the buffer fills up on the way. */
  lemma TypingInPieces(f: Field, a: string, b: string)
    requires Fits(f) && NUL !in a && NUL !in b
    ensures Fits(Appended(f, a)) && Appended(Appended(f, a), b) == Appended(f, a + b)
  {
    hide Dropped, Inserted, Room, HasSelection;
    DroppedFits(f);
    StepKeepsFit(f, Append(a));
    var g := Dropped(f);
    if Room(g, a) == 0 {
      NoRoomForPrefix(g, a, b);
      Undropped(g);
    } else {
      InsertionInPieces(g, a, b);
      Undropped(Inserted(g, a));
    }
  }

  lemma NoRoomForPrefix(f: Field, a: string, b: string)
    requires |f.text| < f.cap && Room(f, a) == 0
    ensures a == "" ==> a + b == b
    ensures a != "" ==> Room(f, b) == Room(f, a + b) == 0
  {
  }

  lemma InsertionInPieces(f: Field, a: string, b: string)
    requires |f.text| < f.cap && !HasSelection(f) && Room(f, a) > 0
    ensures var g := Inserted(f, a);
            && |g.text| < g.cap && !HasSelection(g) && Room(f, a + b) > 0
            && (if Room(g, b) == 0 then g else Inserted(g, b)) == Inserted(f, a + b)
  {
    var n, c, k, g := Room(f, a), ClampedTo(f.text, f.cursor), Room(f, a + b), Inserted(f, a);
    assert k == n + Room(g, b);
    assert (a + b)[..k] == a[..n] + b[..k - n];
    SpliceTwice(f.text, c, a[..n], b[..k - n]);
    if k == n {
      assert b[..0] == "";
    }
  }

  lemma SpliceTwice(t: string, c: nat, a: string, b: string)
    requires c <= |t|
    ensures |Splice(t, c, c, a)| == |t| + |a|
    ensures Splice(Splice(t, c, c, a), c + |a|, c + |a|, b) == Splice(t, c, c, a + b)
    ensures Splice(t, c, c, a + "") == Splice(t, c, c, a)
  {
  }

  lemma Undropped(f: Field)
    requires !HasSelection(f)
    ensures Dropped(f) == f
  {
  }

  /** `n` erasures. */
  ghost function ErasedTimes(f: Field, n: nat): Field
    decreases n
  {
    if n == 0 then f else ErasedTimes(Erased(f), n - 1)
  }

  lemma {:induction false} EraseTakesBack(f: Field, left: string, mid: string, right: string)
    requires !HasSelection(f) && f.text == left + mid + right && f.cursor == |left| + |mid|
    ensures var g := ErasedTimes(f, |mid|); g.text == left + right && g.cursor == |left|
    decreases |mid|
  {
    if mid == "" {
      assert f.text == left + right;
    } else {
      var m := mid[..|mid| - 1];
      var g := Erased(f);
      assert g.text == left + m + right;
      EraseTakesBack(g, left, m, right);
    }
  }

  /** With no selection, erasing as many characters as were taken in restores text and cursor. */
  lemma InsertThenErase(f: Field, s: string)
    requires Fits(f) && InRange(f) && !HasSelection(f)
    ensures var g := ErasedTimes(Appended(f, s), Room(f, s)); g.text == f.text && g.cursor == f.cursor
  {
    var n, c := Room(f, s), f.cursor;
    assert f.text == f.text[..c] + f.text[c..];
    if n > 0 {
      EraseTakesBack(Appended(f, s), f.text[..c], s[..n], f.text[c..]);
    }
  }

  /** Typing over a selection replaces exactly the selected text; erasing or deleting removes exactly that. */
  lemma SelectionIsReplaced(f: Field, s: string)
    requires Fits(f) && InRange(f) && HasSelection(f)
    ensures var n := Min(|s|, f.cap - 1 - (|f.text| - (f.selEnd - f.selStart)));
            var g := Appended(f, s);
            && g.text == f.text[..f.selStart] + s[..n] + f.text[f.selEnd..] && g.cursor == f.selStart + n
            && !HasSelection(g)
    ensures Erased(f) == Deleted(f) == Appended(f, "")
  {
  }

  /** With everything selected, typing replaces the whole text, and erasing or deleting empties it. */
  lemma AllIsReplaced(f: Field, s: string)
    requires Fits(f) && f.selectable && NUL !in s
    ensures var g := Apply(f, SelectAll);
      && g.text == f.text && g.cursor == |f.text| && Fits(g) && InRange(g)
      && (var h := Appended(g, s);
          var n := Min(|s|, f.cap - 1);
          h.text == s[..n] && h.cursor == n && !HasSelection(h))
      && Erased(g).text == Deleted(g).text == ""
  {
    var g := Apply(f, SelectAll);
    if f.text != "" {
      SelectionIsReplaced(g, s);
      SelectionIsReplaced(g, "");
    }
  }

  /** What is between where a drag began and where it is now is selected, in either direction, within the text. */
  lemma DragSelects(f: Field, from: int, to: int, s: string)
    requires Fits(f) && f.selectable && NUL !in s
    ensures var began := Apply(f, BeginSelection(from));
      && Fits(began) && InRange(began) && !HasSelection(began)
      && (var g := Apply(began, UpdateSelection(to));
          var a, b := Inside(f.text, from), Inside(f.text, to);
          var low, high := if a < b then a else b, if a < b then b else a;
          && g.text == f.text && g.cursor == b && Fits(g) && InRange(g) && (HasSelection(g) <==> a != b)
          && (a != b ==> Erased(g).text == Deleted(g).text == f.text[..low] + f.text[high..])
          && (a != b ==> Appended(g, s).text ==
                         f.text[..low] + s[..Min(|s|, f.cap - 1 - (|f.text| - (high - low)))] + f.text[high..]))
  {
    DragIs(f, from, to);
    var g := Apply(Apply(f, BeginSelection(from)), UpdateSelection(to));
    hide Apply, Fits, InRange, Appended, Erased, Deleted;
    if g.selStart < g.selEnd {
      SelectedGoes(g, f.text, g.selStart, g.selEnd, s);
    }
  }

  lemma SelectedGoes(g: Field, t: string, low: int, high: int, s: string)
    requires Fits(g) && InRange(g) && g.selectable && g.text == t && g.selStart == low < high == g.selEnd
    ensures Erased(g).text == Deleted(g).text == t[..low] + t[high..]
    ensures Appended(g, s).text == t[..low] + s[..Min(|s|, g.cap - 1 - (|t| - (high - low)))] + t[high..]
  {
    hide Appended, Erased, Deleted;
    SelectionIsReplaced(g, s);
    SelectionIsReplaced(g, "");
    assert t[..low] + "" == t[..low];
  }

  lemma DragIs(f: Field, from: int, to: int)
    requires Fits(f) && f.selectable
    ensures var began := Apply(f, BeginSelection(from));
            Fits(began) && InRange(began) && !HasSelection(began)
    ensures var g := Apply(Apply(f, BeginSelection(from)), UpdateSelection(to));
            var a, b := Inside(f.text, from), Inside(f.text, to);
      && g.text == f.text && g.cap == f.cap && g.cursor == b && Fits(g) && InRange(g) && g.selectable
      && g.selStart == (if a < b then a else b) && g.selEnd == if a < b then b else a
  {
  }

  /** The place in the text nearest to `c`. */
  function Inside(t: string, c: int): (r: nat)
    ensures r <= |t| && (0 <= c <= |t| ==> r == c) && (c < 0 ==> r == 0) && (c > |t| ==> r == |t|)
  {
    if c <= 0 then 0 else if c <= |t| then c else |t|
  }

  /** Moving the cursor keeps the text and leaves nothing selected. */
  lemma MovesKeepText(f: Field, op: Op)
    requires Fits(f) && (op.Move? || op.Home? || op.End?)
    ensures var g := Apply(f, op);
      && g.text == f.text && g.cap == f.cap && !HasSelection(g)
      && g.cursor == if op.Home? then 0 else if op.End? then |f.text| else Inside(f.text, f.cursor + op.delta)
  {
  }

  /** The same input as two stacks: what is before the cursor and what is after it. */
  datatype Zipper = Zipper(left: string, right: string)

  function Split(f: Field): Zipper
    requires 0 <= f.cursor <= |f.text|
  {
    Zipper(f.text[..f.cursor], f.text[f.cursor..])
  }

  /** One character at a time across the cursor, as far as there are any. */
  function ShiftRight(z: Zipper, k: nat): Zipper
    decreases k
  {
    if k == 0 || z.right == "" then z else ShiftRight(Zipper(z.left + [z.right[0]], z.right[1..]), k - 1)
  }

  function ShiftLeft(z: Zipper, k: nat): Zipper
    decreases k
  {
    var n := |z.left|;
    if k == 0 || n == 0 then z else ShiftLeft(Zipper(z.left[..n - 1], [z.left[n - 1]] + z.right), k - 1)
  }

  function Push(z: Zipper, s: string, cap: nat): Zipper
    decreases s
  {
    if s != "" && |z.left| + |z.right| + 1 < cap then Push(Zipper(z.left + [s[0]], z.right), s[1..], cap) else z
  }

  function ZipperStep(z: Zipper, cap: nat, op: Op): Zipper {
    match op
    case Append(s) => Push(z, s, cap)
    case Erase => if z.left == "" then z else Zipper(z.left[..|z.left| - 1], z.right)
    case Delete => if z.right == "" then z else Zipper(z.left, z.right[1..])
    case Move(d) => if d >= 0 then ShiftRight(z, d) else ShiftLeft(z, -d)
    case Home => Zipper("", z.left + z.right)
    case End => Zipper(z.left + z.right, "")
    case _ => z
  }

  ghost function ZipperRun(z: Zipper, cap: nat, ops: seq<Op>): Zipper
    decreases ops
  {
    if ops == [] then z else ZipperRun(ZipperStep(z, cap, ops[0]), cap, ops[1..])
  }

  lemma {:induction false} ShiftRightStops(t: string, c: nat, k: nat)
    requires c <= |t|
    ensures var e := Min(c + k, |t|); ShiftRight(Zipper(t[..c], t[c..]), k) == Zipper(t[..e], t[e..])
    decreases k
  {
    if k > 0 && c < |t| {
      ShiftRightStops(t, c + 1, k - 1);
      Crosses(t, c);
      assert t[c..][1..] == t[c + 1..];
    }
  }

  lemma {:induction false} ShiftLeftStops(t: string, c: nat, k: nat)
    requires c <= |t|
    ensures var e := if k < c then c - k else 0; ShiftLeft(Zipper(t[..c], t[c..]), k) == Zipper(t[..e], t[e..])
    decreases k
  {
    if k > 0 && c > 0 {
      ShiftLeftStops(t, c - 1, k - 1);
      Crosses(t, c - 1);
      assert t[..c][..c - 1] == t[..c - 1];
    }
  }

  /** The character at `c` goes from one side of the cursor to the other. */
  lemma Crosses(t: string, c: nat)
    requires c < |t|
    ensures t[..c + 1] == t[..c] + [t[c]] && t[c..] == [t[c]] + t[c + 1..]
  {
  }

  lemma {:induction false} PushTakesWhatFits(z: Zipper, s: string, cap: nat)
    requires |z.left| + |z.right| < cap
    ensures Push(z, s, cap) == Zipper(z.left + s[..Min(|s|, cap - 1 - |z.left| - |z.right|)], z.right)
    decreases s
  {
    var n := Min(|s|, cap - 1 - |z.left| - |z.right|);
    if s != "" && n > 0 {
      PushTakesWhatFits(Zipper(z.left + [s[0]], z.right), s[1..], cap);
      assert z.left + [s[0]] + s[1..][..n - 1] == z.left + s[..n];
    } else {
      assert z.left + s[..n] == z.left;
    }
  }

  ghost predicate Selects(op: Op) {
    op.SelectAll? || op.BeginSelection? || op.UpdateSelection?
  }

  /** One edit of the buffer is one edit of the two stacks, and leaves nothing selected. */
  lemma EditIsZipperStep(f: Field, op: Op)
    requires Fits(f) && InRange(f) && !HasSelection(f) && !Selects(op) && (op.Append? ==> NUL !in op.s)
    ensures Fits(Apply(f, op)) && InRange(Apply(f, op)) && !HasSelection(Apply(f, op)) && Apply(f, op).cap == f.cap
    ensures Split(Apply(f, op)) == ZipperStep(Split(f), f.cap, op)
  {
    StepKeepsFit(f, op);
    StaysUnselected(f, op);
    hide Split, Splice, Appended, Erased, Deleted, InRange, Fits, HasSelection;
    match op
    case Append(s) => InsertIsPush(f, s);
    case Erase => EraseIsPop(f);
    case Delete => DeleteIsPop(f);
    case _ => MoveIsShift(f, op);
  }

  lemma StaysUnselected(f: Field, op: Op)
    requires Fits(f) && !HasSelection(f) && !Selects(op)
    ensures !HasSelection(Apply(f, op))
  {
  }

  lemma EraseIsPop(f: Field)
    requires Fits(f) && InRange(f) && !HasSelection(f)
    ensures 0 <= Erased(f).cursor <= |Erased(f).text| && Split(Erased(f)) == ZipperStep(Split(f), f.cap, Erase)
  {
  }

  lemma DeleteIsPop(f: Field)
    requires Fits(f) && InRange(f) && !HasSelection(f)
    ensures 0 <= Deleted(f).cursor <= |Deleted(f).text| && Split(Deleted(f)) == ZipperStep(Split(f), f.cap, Delete)
  {
  }

  lemma MoveIsShift(f: Field, op: Op)
    requires Fits(f) && InRange(f) && (op.Move? || op.Home? || op.End?)
    ensures var g := Apply(f, op); 0 <= g.cursor <= |g.text| && Split(g) == ZipperStep(Split(f), f.cap, op)
  {
    var t, c := f.text, f.cursor;
    assert t[..c] + t[c..] == t && t[..|t|] == t;
    if op.Move? {
      if op.delta >= 0 {
        ShiftRightStops(t, c, op.delta);
      } else {
        ShiftLeftStops(t, c, -op.delta);
      }
    }
  }

  lemma InsertIsPush(f: Field, s: string)
    requires Fits(f) && 0 <= f.cursor <= |f.text| && !HasSelection(f)
    ensures var g := Appended(f, s); 0 <= g.cursor <= |g.text| && Split(g) == Push(Split(f), s, f.cap)
  {
    var z, n, c, g := Split(f), Room(f, s), f.cursor, Appended(f, s);
    PushTakesWhatFits(z, s, f.cap);
    assert g.text[..c + n] == z.left + s[..n] && g.text[c + n..] == z.right;
  }

  /** Over every run of edits from an input with nothing selected, buffer and stacks stay in step. */
  lemma {:induction false} RunIsZipperRun(f: Field, ops: seq<Op>)
    requires Fits(f) && InRange(f) && !HasSelection(f) && Typed(ops)
    requires forall i :: 0 <= i < |ops| ==> !Selects(ops[i])
    ensures InRange(Run(f, ops)) && Split(Run(f, ops)) == ZipperRun(Split(f), f.cap, ops)
    decreases ops
  {
    if ops != [] {
      EditIsZipperStep(f, ops[0]);
      RunIsZipperRun(Apply(f, ops[0]), ops[1..]);
    }
  }

  ghost predicate Terminated(s: seq<char>) {
    NUL in s
  }

  function StrLen(s: seq<char>): (n: nat)
    ensures n <= |s| && NUL !in s[..n] && (n < |s| ==> s[n] == NUL)
  {
    if s == [] || s[0] == NUL then 0
    else
      var m := StrLen(s[1..]);
      assert s[..m + 1] == [s[0]] + s[1..][..m];
      m + 1
  }

  function TextOf(s: seq<char>): string {
    s[..StrLen(s)]
  }

  /** The text ends at the first NUL. */
  lemma TextEnds(s: seq<char>, t: string)
    requires |t| < |s| && s[..|t|] == t && s[|t|] == NUL && NUL !in t
    ensures Terminated(s) && TextOf(s) == t && StrLen(s) == |t|
  {
  }

  lemma TerminatedText(s: seq<char>)
    requires Terminated(s)
    ensures StrLen(s) < |s| && |TextOf(s)| == StrLen(s) && NUL !in TextOf(s)
  {
  }

  /** A block of `n` characters copied from one place to another, as if through a copy of its own. */
  function Moved(s: seq<char>, to: nat, from: nat, n: nat): (r: seq<char>)
    requires to + n <= |s| && from + n <= |s|
    ensures |r| == |s|
  {
    s[..to] + s[from..from + n] + s[to + n..]
  }

  /** Closing the gap [a, b) with the terminator in tow. */
  lemma GapCloses(s: seq<char>, a: nat, b: nat)
    requires Terminated(s) && a <= b <= StrLen(s) < |s|
    ensures var n := StrLen(s) - b + 1;
            && Terminated(Moved(s, a, b, n)) && TextOf(Moved(s, a, b, n)) == Splice(TextOf(s), a, b, "")
  {
    TerminatedText(s);
    var t, r := TextOf(s), Moved(s, a, b, StrLen(s) - b + 1);
    var want := Splice(t, a, b, "");
    assert r[..|want|] == want;
    TextEnds(r, want);
  }

  /** The buffer after a gap is opened at `c` and `ins` copied into it. */
  function Opened(s: seq<char>, c: nat, len: nat, ins: string): (r: seq<char>)
    requires c <= len < |s| && len + |ins| < |s|
    ensures |r| == |s|
  {
    var m := Moved(s, c + |ins|, c, len - c + 1);
    m[..c] + ins + m[c + |ins|..]
  }

  lemma OpenedIs(s: seq<char>, c: nat, len: nat, ins: string, m: seq<char>, r: seq<char>)
    requires c <= len < |s| && len + |ins| < |s| && m == Moved(s, c + |ins|, c, len - c + 1)
    requires r == m[..c] + ins + m[c + |ins|..]
    ensures r == Opened(s, c, len, ins)
  {
  }

  lemma OpenedPieces(a: string, b: string, tail: seq<char>, ins: string)
    requires |ins| <= |tail|
    ensures Opened(a + b + [NUL] + tail, |a|, |a| + |b|, ins) == (a + ins + b) + ([NUL] + tail[|ins|..])
  {
  }

  lemma SplitAtEnd(s: seq<char>, c: nat)
    requires Terminated(s) && c <= StrLen(s)
    ensures s == s[..c] + s[c..StrLen(s)] + [NUL] + s[StrLen(s) + 1..]
    ensures TextOf(s) == s[..c] + s[c..StrLen(s)]
  {
  }

  lemma SpliceBetween(a: string, b: string, ins: string)
    ensures Splice(a + b, |a|, |a|, ins) == a + ins + b
    ensures NUL !in a + b && NUL !in ins ==> NUL !in a + ins + b
  {
  }

  lemma EndsAfter(w: string, rest: seq<char>)
    requires NUL !in w
    ensures Terminated(w + ([NUL] + rest)) && TextOf(w + ([NUL] + rest)) == w
  {
    var s := w + ([NUL] + rest);
    assert s[..|w|] == w && s[|w|] == NUL;
    TextEnds(s, w);
  }

  lemma GapOpens(s: seq<char>, c: nat, ins: string)
    requires Terminated(s) && c <= StrLen(s) && StrLen(s) + |ins| < |s| && NUL !in ins
    ensures var r := Opened(s, c, StrLen(s), ins); Terminated(r) && TextOf(r) == Splice(TextOf(s), c, c, ins)
  {
    hide Opened, StrLen, Splice, TextOf, Terminated;
    TerminatedText(s);
    SplitAtEnd(s, c);
    var len := StrLen(s);
    var a, b, tail := s[..c], s[c..len], s[len + 1..];
    OpenedPieces(a, b, tail, ins);
    SpliceBetween(a, b, ins);
    EndsAfter(a + ins + b, tail[|ins|..]);
  }

  class InputField {
    const buf: array<char>
    const selectable: bool
    var cursor: int
    var anchor: int
    var selStart: int
    var selEnd: int

    ghost predicate Valid()
      reads this, buf
    {
      Terminated(buf[..])
    }

    ghost function View(): Field
      reads this, buf
    {
      Field(TextOf(buf[..]), buf.Length, cursor, selectable, anchor, selStart, selEnd)
    }

    constructor (cap: nat, selectable: bool)
      requires cap > 0
      ensures Valid() && fresh(buf)
      ensures View() == Field("", cap, 0, selectable, 0, 0, 0)
    {
      buf := new char[cap](_ => NUL);
      this.selectable := selectable;
      cursor, anchor, selStart, selEnd := 0, 0, 0, 0;
      new;
      TextEnds(buf[..], "");
    }

    /** The length of the text: a scan for the terminator. */
    method Length() returns (n: nat)
      requires Valid()
      ensures n == StrLen(buf[..]) < buf.Length
    {
      n := 0;
      while buf[n] != NUL
        invariant n < buf.Length && NUL in buf[n..]
        invariant NUL !in buf[..n]
        decreases buf.Length - n
      {
        assert buf[n..][0] == buf[n];
        assert buf[n..] == [buf[n]] + buf[n + 1..];
        assert buf[..n + 1] == buf[..n] + [buf[n]];
        n := n + 1;
      }
      TextEnds(buf[..], buf[..n]);
    }

    method ClampCursor(c: int) returns (r: nat)
      requires Valid()
      ensures r == ClampedTo(TextOf(buf[..]), c)
    {
      var len := Length();
      r := if c < 0 then 0 else if c > len then len else c;
    }

    /** Moves a block within the buffer; source and target may overlap. */
    method MoveBlock(to: nat, from: nat, n: nat)
      requires to + n <= buf.Length && from + n <= buf.Length
      modifies buf
      ensures buf[..] == Moved(old(buf[..]), to, from, n)
    {
      forall i | 0 <= i < n {
        buf[to + i] := buf[from + i];
      }
    }

    method CopyIn(at: nat, text: string)
      requires at + |text| <= buf.Length
      modifies buf
      ensures buf[..] == old(buf[..at]) + text + old(buf[at + |text|..])
    {
      forall i | 0 <= i < |text| {
        buf[at + i] := text[i];
      }
    }

    method NormalizeSelection()
      requires Valid()
      modifies this
      ensures Valid() && View() == Normalized(old(View()))
    {
      var start := ClampCursor(selStart);
      var end := ClampCursor(selEnd);
      if start > end {
        start, end := end, start;
      }
      selStart, selEnd := start, end;
    }

    method ClearSelection()
      modifies this
      ensures View() == old(View()).(anchor := cursor, selStart := cursor, selEnd := cursor)
    {
      anchor, selStart, selEnd := cursor, cursor, cursor;
    }

    method DeleteSelection()
      requires Valid() && selectable
      modifies this, buf
      ensures Valid() && View() == WithoutSelection(old(View()))
    {
      hide StrLen, TextOf, Moved, Splice;
      TerminatedText(buf[..]);
      NormalizeSelection();
      if selStart == selEnd {
        return;
      }
      var len := Length();
      GapCloses(buf[..], selStart, selEnd);
      MoveBlock(selStart, selEnd, len - selEnd + 1);
      cursor := selStart;
      ClearSelection();
    }

    method InsertAt(at: nat, text: string, len: nat)
      requires Valid() && NUL !in text && at <= len == StrLen(buf[..]) && len + |text| < buf.Length
      modifies buf
      ensures Valid() && TextOf(buf[..]) == Splice(old(TextOf(buf[..])), at, at, text)
    {
      hide StrLen, TextOf, Moved, Splice, Opened;
      ghost var s := buf[..];
      TerminatedText(s);
      GapOpens(s, at, text);
      MoveBlock(at + |text|, at, len - at + 1);
      ghost var m := buf[..];
      CopyIn(at, text);
      OpenedIs(s, at, len, text, m, buf[..]);
    }

    method AppendText(text: string)
      requires Valid() && NUL !in text
      modifies this, buf
      ensures Valid() && View() == Appended(old(View()), text)
    {
      hide StrLen, TextOf, Splice, WithoutSelection;
      TerminatedText(buf[..]);
      DroppedFits(View());
      if selectable && selStart != selEnd {
        DeleteSelection();
      }
      TerminatedText(buf[..]);
      var len := Length();
      if len >= buf.Length - 1 {
        return;
      }
      var at := ClampCursor(cursor);
      var n := |text|;
      if n > buf.Length - 1 - len {
        n := buf.Length - 1 - len;
      }
      if n == 0 {
        return;
      }
      InsertAt(at, text[..n], len);
      cursor := at + n;
      if selectable {
        ClearSelection();
      }
    }

    method EraseChar()
      requires Valid()
      modifies this, buf
      ensures Valid() && View() == Erased(old(View()))
    {
      hide StrLen, TextOf, Moved, Splice, WithoutSelection;
      TerminatedText(buf[..]);
      if selectable && selStart != selEnd {
        DeleteSelection();
        return;
      }
      var len := Length();
      if len == 0 {
        return;
      }
      var at := ClampCursor(cursor);
      if at <= 0 {
        return;
      }
      GapCloses(buf[..], at - 1, at);
      MoveBlock(at - 1, at, len - at + 1);
      cursor := at - 1;
      if selectable {
        ClearSelection();
      }
    }

    method DeleteChar()
      requires Valid()
      modifies this, buf
      ensures Valid() && View() == Deleted(old(View()))
    {
      hide StrLen, TextOf, Moved, Splice, WithoutSelection;
      TerminatedText(buf[..]);
      if selectable && selStart != selEnd {
        DeleteSelection();
        return;
      }
      var len := Length();
      if len == 0 {
        return;
      }
      var at := ClampCursor(cursor);
      if at >= len {
        return;
      }
      GapCloses(buf[..], at, at + 1);
      MoveBlock(at, at + 1, len - at);
      if selectable {
        ClearSelection();
      }
    }

    method MoveCursor(delta: int)
      requires Valid()
      modifies this
      ensures Valid() && View() == Apply(old(View()), Move(delta))
    {
      cursor := ClampCursor(cursor + delta);
      if selectable {
        ClearSelection();
      }
    }

    method MoveHome()
      requires Valid()
      modifies this
      ensures Valid() && View() == Apply(old(View()), Home)
    {
      cursor := 0;
      if selectable {
        ClearSelection();
      }
    }

    method MoveEnd()
      requires Valid()
      modifies this
      ensures Valid() && View() == Apply(old(View()), End)
    {
      cursor := Length();
      if selectable {
        ClearSelection();
      }
    }

    method Select()
      requires Valid() && selectable
      modifies this
      ensures Valid() && View() == Apply(old(View()), SelectAll)
    {
      cursor := Length();
      anchor, selStart, selEnd := 0, 0, cursor;
    }

    method BeginSelect(at: int)
      requires Valid() && selectable
      modifies this
      ensures Valid() && View() == Apply(old(View()), BeginSelection(at))
    {
      cursor := ClampCursor(at);
      ClearSelection();
    }

    method UpdateSelect(to: int)
      requires Valid() && selectable
      modifies this
      ensures Valid() && View() == Apply(old(View()), UpdateSelection(to))
    {
      cursor := ClampCursor(to);
      selStart, selEnd := anchor, cursor;
      NormalizeSelection();
    }
  }
}
