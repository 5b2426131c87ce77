/** Newlines and the wrappers: each paragraph is wrapped as if it stood alone. */
module Paragraphs {
  import opened TextWrap

  function FirstOf(ls: seq<Span>, n: nat): seq<Span> {
    if |ls| <= n then ls else ls[..n]
  }

  /** Less room only cuts the list of lines short. */
  lemma {:induction false} RoomIsCut(t: string, p: nat, max: nat, room: nat, more: nat, blanks: bool)
    requires p <= |t| && max > 0 && room <= more
    ensures Lines(t, p, max, room, blanks) == FirstOf(Lines(t, p, max, more, blanks), room)
    decreases |t| - p
  {
    hide LineEnd, AfterLine;
    var s := SkipSpaces(t, p);
    if s < |t| && room > 0 {
      if t[s] == '\n' {
        if blanks {
          RoomIsCut(t, s + 1, max, room - 1, more - 1, blanks);
        } else {
          RoomIsCut(t, s + 1, max, room, more, blanks);
        }
      } else {
        RoomIsCut(t, AfterLine(t, LineEnd(t, s, max)), max, room - 1, more - 1, blanks);
      }
    }
  }

  /** One line, and the lines after it. */
  lemma LinesStep(t: string, p: nat, s: nat, max: nat, room: nat, blanks: bool)
    requires p <= |t| && max > 0 && s == SkipSpaces(t, p)
    ensures s == |t| || room == 0 ==> Lines(t, p, max, room, blanks) == []
    ensures s < |t| && room > 0 && t[s] == '\n' ==>
            Lines(t, p, max, room, blanks) ==
            if blanks then [Span(s, s)] + Lines(t, s + 1, max, room - 1, blanks) else Lines(t, s + 1, max, room, blanks)
    ensures s < |t| && room > 0 && t[s] != '\n' ==>
            var e := LineEnd(t, s, max);
            Lines(t, p, max, room, blanks) == [Span(s, e)] + Lines(t, AfterLine(t, e), max, room - 1, blanks)
  {
    hide LineEnd, AfterLine;
  }

  function Shifted(ls: seq<Span>, offset: nat): seq<Span> {
    seq(|ls|, i requires 0 <= i < |ls| => Span(ls[i].start + offset, ls[i].end + offset))
  }

  lemma ShiftedStep(l: Span, rest: seq<Span>, offset: nat)
    ensures Shifted([l] + rest, offset) == [Span(l.start + offset, l.end + offset)] + Shifted(rest, offset)
    ensures Shifted([], offset) == []
  {
  }

  // ----- the same text behind another

  lemma {:induction false} SkipBehind(a: string, b: string, p: nat)
    requires p <= |b|
    ensures SkipSpaces(a + b, |a| + p) == |a| + SkipSpaces(b, p)
    decreases |b| - p
  {
    if p < |b| && b[p] == ' ' {
      SkipBehind(a, b, p + 1);
    }
  }

  lemma {:induction false} ScanBehind(a: string, b: string, s: nat, e: nat, max: nat)
    requires s <= e <= |b| && e - s <= max
    ensures ScanEnd(a + b, |a| + s, |a| + e, max) == |a| + ScanEnd(b, s, e, max)
    decreases |b| - e
  {
    if e < |b| && b[e] != '\n' && e - s < max {
      ScanBehind(a, b, s, e + 1, max);
    }
  }

  lemma {:induction false} LastBehind(a: string, b: string, s: nat, e: nat)
    requires s <= e <= |b|
    ensures LastSpace(a + b, |a| + s, |a| + e) == if LastSpace(b, s, e) < 0 then -1 else |a| + LastSpace(b, s, e)
    decreases e
  {
    if s < e && b[e - 1] != ' ' {
      LastBehind(a, b, s, e - 1);
    }
  }

  lemma LineBehind(a: string, b: string, s: nat, max: nat)
    requires s < |b| && b[s] != ' ' && b[s] != '\n' && max > 0
    ensures LineEnd(a + b, |a| + s, max) == |a| + LineEnd(b, s, max)
  {
    hide ScanEnd, LastSpace;
    ScanBehind(a, b, s, s, max);
    LastBehind(a, b, s, ScanEnd(b, s, s, max));
  }

  lemma AfterBehind(a: string, b: string, e: nat)
    requires e <= |b|
    ensures AfterLine(a + b, |a| + e) == |a| + AfterLine(b, e)
  {
    SkipBehind(a, b, e);
  }

  lemma {:induction false} LinesBehind(a: string, b: string, p: nat, max: nat, room: nat, blanks: bool)
    requires p <= |b| && max > 0
    ensures Lines(a + b, |a| + p, max, room, blanks) == Shifted(Lines(b, p, max, room, blanks), |a|)
    decreases |b| - p
  {
    hide LineEnd, AfterLine, SkipSpaces, Shifted, Lines;
    SkipBehind(a, b, p);
    var s := SkipSpaces(b, p);
    LinesStep(b, p, s, max, room, blanks);
    LinesStep(a + b, |a| + p, |a| + s, max, room, blanks);
    if s == |b| || room == 0 {
      ShiftedStep(Span(0, 0), [], |a|);
    } else if b[s] == '\n' {
      if blanks {
        LinesBehind(a, b, s + 1, max, room - 1, blanks);
        ShiftedStep(Span(s, s), Lines(b, s + 1, max, room - 1, blanks), |a|);
      } else {
        LinesBehind(a, b, s + 1, max, room, blanks);
      }
    } else {
      var e := LineEnd(b, s, max);
      LineBehind(a, b, s, max);
      AfterBehind(a, b, e);
      LinesBehind(a, b, AfterLine(b, e), max, room - 1, blanks);
      ShiftedStep(Span(s, e), Lines(b, AfterLine(b, e), max, room - 1, blanks), |a|);
    }
  }

  // ----- a paragraph before a newline

  lemma {:induction false} SkipBefore(a: string, b: string, p: nat)
    requires p <= |a|
    ensures var t := a + "\n" + b; SkipSpaces(t, p) == SkipSpaces(a, p)
    decreases |a| - p
  {
    if p < |a| && a[p] == ' ' {
      SkipBefore(a, b, p + 1);
    }
  }

  lemma {:induction false} ScanBefore(a: string, b: string, s: nat, e: nat, max: nat)
    requires s <= e <= |a| && e - s <= max
    ensures var t := a + "\n" + b; ScanEnd(t, s, e, max) == ScanEnd(a, s, e, max)
    decreases |a| - e
  {
    if e < |a| && a[e] != '\n' && e - s < max {
      ScanBefore(a, b, s, e + 1, max);
    }
  }

  lemma {:induction false} LastBefore(a: string, b: string, s: nat, e: nat)
    requires s <= e <= |a|
    ensures var t := a + "\n" + b; LastSpace(t, s, e) == LastSpace(a, s, e)
    decreases e
  {
    if s < e && a[e - 1] != ' ' {
      LastBefore(a, b, s, e - 1);
    }
  }

  lemma LineBefore(a: string, b: string, s: nat, max: nat)
    requires s < |a| && a[s] != ' ' && a[s] != '\n' && max > 0
    ensures var t := a + "\n" + b; LineEnd(t, s, max) == LineEnd(a, s, max) <= |a|
  {
    hide ScanEnd, LastSpace;
    ScanBefore(a, b, s, s, max);
    LastBefore(a, b, s, ScanEnd(a, s, s, max));
  }

  lemma AfterBefore(a: string, b: string, e: nat)
    requires '\n' !in a && e <= |a|
    ensures var t, n := a + "\n" + b, SkipSpaces(a, e);
            AfterLine(a, e) == n && AfterLine(t, e) == if n < |a| then n else |a| + 1
  {
    SkipBefore(a, b, e);
  }

  /** From the start of a line in `a` on. */
  lemma {:induction false} LinesBefore(a: string, b: string, p: nat, max: nat, room: nat, blanks: bool)
    requires '\n' !in a && p <= |a| && SkipSpaces(a, p) < |a| && max > 0
    ensures var t := a + "\n" + b;
            Lines(t, p, max, room, blanks) ==
            FirstOf(Lines(a, p, max, room, blanks) + Shifted(Lines(b, 0, max, room, blanks), |a| + 1), room)
    decreases |a| - p
  {
    hide LineEnd, AfterLine, Shifted, Lines, SkipSpaces, FirstOf;
    var t, s := a + "\n" + b, SkipSpaces(a, p);
    SkipBefore(a, b, p);
    InParagraph(a, b, s);
    LinesStep(t, p, s, max, room, blanks);
    LinesStep(a, p, s, max, room, blanks);
    if room == 0 {
      NoRoom(Lines(a, p, max, room, blanks) + Shifted(Lines(b, 0, max, room, blanks), |a| + 1));
    } else {
      var e := LineEnd(a, s, max);
      LineBefore(a, b, s, max);
      AfterBefore(a, b, e);
      RoomIsCut(b, 0, max, room - 1, room, blanks);
      var n, all := SkipSpaces(a, e), Lines(b, 0, max, room, blanks);
      if n < |a| {
        SkipAgain(a, e);
        LinesBefore(a, b, n, max, room - 1, blanks);
        FirstOfStep(Span(s, e), Lines(a, n, max, room - 1, blanks), all, |a| + 1, room);
      } else {
        BehindNewline(a, b, max, room - 1, blanks);
        NothingLeft(a, max, room - 1, blanks);
        JustRest(all, room - 1, |a| + 1);
        FirstOfStep(Span(s, e), [], all, |a| + 1, room);
      }
    }
  }

  lemma InParagraph(a: string, b: string, s: nat)
    requires '\n' !in a && s < |a|
    ensures var t := a + "\n" + b; |t| == |a| + 1 + |b| && t[s] == a[s] != '\n' && t[|a|] == '\n'
  {
  }

  lemma NoRoom(ls: seq<Span>)
    ensures FirstOf(ls, 0) == []
  {
  }

  lemma JustRest(ls: seq<Span>, n: nat, offset: nat)
    ensures FirstOf([] + Shifted(FirstOf(ls, n), offset), n) == Shifted(FirstOf(ls, n), offset)
  {
    hide Shifted;
    ShiftOfCut(ls, n, offset);
    assert [] + Shifted(FirstOf(ls, n), offset) == Shifted(FirstOf(ls, n), offset);
  }

  lemma {:induction false} SkipAgain(t: string, p: nat)
    requires p <= |t|
    ensures SkipSpaces(t, SkipSpaces(t, p)) == SkipSpaces(t, p)
  {
  }

  lemma NothingLeft(a: string, max: nat, room: nat, blanks: bool)
    requires max > 0
    ensures Lines(a, |a|, max, room, blanks) == []
  {
  }

  lemma BehindNewline(a: string, b: string, max: nat, room: nat, blanks: bool)
    requires max > 0
    ensures var t := a + "\n" + b;
            Lines(t, |a| + 1, max, room, blanks) == Shifted(Lines(b, 0, max, room, blanks), |a| + 1)
  {
    LinesBehind(a + "\n", b, 0, max, room, blanks);
  }

  lemma ShiftOfCut(ls: seq<Span>, n: nat, offset: nat)
    ensures Shifted(FirstOf(ls, n), offset) == FirstOf(Shifted(ls, offset), n)
  {
  }

  lemma FirstOfStep(l: Span, front: seq<Span>, rest: seq<Span>, offset: nat, room: nat)
    requires room > 0
    ensures FirstOf([l] + front + Shifted(rest, offset), room) ==
            [l] + FirstOf(front + Shifted(FirstOf(rest, room - 1), offset), room - 1)
  {
    hide Shifted;
    ShiftOfCut(rest, room - 1, offset);
    var more := Shifted(rest, offset);
    assert [l] + front + more == [l] + (front + more);
    CutTwice(front, more, room - 1);
  }

  lemma CutTwice(front: seq<Span>, more: seq<Span>, n: nat)
    ensures FirstOf(front + FirstOf(more, n), n) == FirstOf(front + more, n)
  {
  }

  ghost predicate OnlySpaces(a: string) {
    forall i :: 0 <= i < |a| ==> a[i] == ' '
  }

  lemma {:induction false} SpacesSkipped(a: string, p: nat)
    requires p <= |a|
    ensures SkipSpaces(a, p) == |a| <==> forall i :: p <= i < |a| ==> a[i] == ' '
    decreases |a| - p
  {
    if p < |a| && a[p] == ' ' {
      SpacesSkipped(a, p + 1);
    }
  }

  /** Each paragraph is wrapped as if it stood alone, and one with nothing but spaces makes a blank line where blank
      lines are kept: so the newlines, and nothing else, separate paragraphs. */
  lemma ParagraphsWrapAlone(a: string, b: string, max: nat, room: nat, blanks: bool)
    requires '\n' !in a && max > 0
    ensures Lines(a + "\n" + b, 0, max, room, blanks) ==
            FirstOf(Lines(a, 0, max, room, blanks) + (if blanks && OnlySpaces(a) then [Span(|a|, |a|)] else []) +
                    Shifted(Lines(b, 0, max, room, blanks), |a| + 1), room)
  {
    hide Shifted, LineEnd, AfterLine, Lines, FirstOf, SkipSpaces;
    SpacesSkipped(a, 0);
    var t, all := a + "\n" + b, Lines(b, 0, max, room, blanks);
    LinesStep(a, 0, SkipSpaces(a, 0), max, room, blanks);
    if SkipSpaces(a, 0) < |a| {
      LinesBefore(a, b, 0, max, room, blanks);
      assert Lines(a, 0, max, room, blanks) + [] == Lines(a, 0, max, room, blanks);
    } else {
      SkipBefore(a, b, 0);
      LinesStep(t, 0, |a|, max, room, blanks);
      assert t[|a|] == '\n' && [] + [Span(|a|, |a|)] == [Span(|a|, |a|)];
      assert ([] + []) + Shifted(all, |a| + 1) == Shifted(all, |a| + 1);
      if room == 0 {
        NoRoom((if blanks then [Span(|a|, |a|)] else []) + Shifted(all, |a| + 1));
      } else if blanks {
        BehindNewline(a, b, max, room - 1, blanks);
        RoomIsCut(b, 0, max, room - 1, room, blanks);
        JustRest(all, room - 1, |a| + 1);
        FirstOfStep(Span(|a|, |a|), [], all, |a| + 1, room);
        assert [Span(|a|, |a|)] + [] == [Span(|a|, |a|)];
      } else {
        BehindNewline(a, b, max, room, blanks);
        RoomIsCut(b, 0, max, room, room, blanks);
        ShiftOfCut(all, room, |a| + 1);
      }
    }
  }
}
