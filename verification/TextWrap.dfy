/** The two word wrappers: the detail panel's, which keeps blank lines, and the HUD's, which drops them. */
module TextWrap {
  import opened Limits
  import opened AsciiText

  /** A line is a stretch of the text. */
  datatype Span = Span(start: int, end: int)

  const LINE_CAP := 256

  function SkipSpaces(t: string, p: nat): (q: nat)
    requires p <= |t|
    ensures p <= q <= |t| && (q < |t| ==> t[q] != ' ')
    decreases |t| - p
  {
    if p < |t| && t[p] == ' ' then SkipSpaces(t, p + 1) else p
  }

  /** Where the scan of a line stops: at the end, at a newline, or after `max` characters. */
  function ScanEnd(t: string, s: nat, e: nat, max: nat): (q: nat)
    requires s <= e <= |t| && e - s <= max
    ensures e <= q <= |t| && q - s <= max
    decreases |t| - e
  {
    if e < |t| && t[e] != '\n' && e - s < max then ScanEnd(t, s, e + 1, max) else e
  }

  /** The last space in `t[s..e]`, or -1. */
  function LastSpace(t: string, s: nat, e: nat): (q: int)
    requires s <= e <= |t|
    ensures q == -1 || s <= q < e
  {
    if s == e then -1 else if t[e - 1] == ' ' then e - 1 else LastSpace(t, s, e - 1)
  }

  /** End of the line that starts at `s`: back at the last space if the scan was cut inside the text. */
  function LineEnd(t: string, s: nat, max: nat): (q: nat)
    requires s < |t| && t[s] != ' ' && t[s] != '\n' && max > 0
    ensures s < q <= |t| && q - s <= max
  {
    var e := ScanEnd(t, s, s, max);
    ScanMoves(t, s, max);
    var b := LastSpace(t, s, e);
    if e < |t| && t[e] != '\n' && b > s then b else e
  }

  lemma ScanMoves(t: string, s: nat, max: nat)
    requires s < |t| && t[s] != '\n' && max > 0
    ensures ScanEnd(t, s, s, max) > s
  {
  }

  /** Where the next line is looked for: past the spaces, and past one newline. */
  function AfterLine(t: string, e: nat): (q: nat)
    requires e <= |t|
    ensures e <= q <= |t|
  {
    var n := SkipSpaces(t, e);
    if n < |t| && t[n] == '\n' then n + 1 else n
  }

  /** The lines of `t[p..]`, at most `room` of them; `blanks` says whether an empty line counts as a line. */
  function Lines(t: string, p: nat, max: nat, room: nat, blanks: bool): seq<Span>
    requires p <= |t| && max > 0
    decreases |t| - p
  {
    var s := SkipSpaces(t, p);
    if s == |t| || room == 0 then []
    else if t[s] == '\n' then
      if blanks then [Span(s, s)] + Lines(t, s + 1, max, room - 1, blanks) else Lines(t, s + 1, max, room, blanks)
    else
      var e := LineEnd(t, s, max);
      [Span(s, e)] + Lines(t, AfterLine(t, e), max, room - 1, blanks)
  }

  ghost predicate InText(t: string, l: Span) {
    0 <= l.start <= l.end <= |t|
  }

  function LineText(t: string, l: Span): string {
    if 0 <= l.start <= l.end <= |t| then t[l.start..l.end] else ""
  }

  /** What must not get lost: everything but spaces and newlines. */
  function Solid(s: string): string {
    if s == [] then [] else (if s[0] == ' ' || s[0] == '\n' then [] else [s[0]]) + Solid(s[1..])
  }

  function Content(t: string, lines: seq<Span>): string {
    if lines == [] then [] else Solid(LineText(t, lines[0])) + Content(t, lines[1..])
  }

  lemma {:induction false} SolidConcat(a: string, b: string)
    ensures Solid(a + b) == Solid(a) + Solid(b)
  {
    if a == [] {
      assert a + b == b;
    } else {
      assert (a + b)[1..] == a[1..] + b;
      SolidConcat(a[1..], b);
    }
  }

  lemma {:induction false} SkippedIsBlank(t: string, p: nat)
    requires p <= |t|
    ensures Solid(t[p..SkipSpaces(t, p)]) == []
    decreases |t| - p
  {
    if p < |t| && t[p] == ' ' {
      SkippedIsBlank(t, p + 1);
      assert t[p..SkipSpaces(t, p)][1..] == t[p + 1..SkipSpaces(t, p)];
    }
  }

  lemma AfterLineIsBlank(t: string, e: nat)
    requires e <= |t|
    ensures Solid(t[e..AfterLine(t, e)]) == []
  {
    var n := SkipSpaces(t, e);
    SkippedIsBlank(t, e);
    if n < |t| && t[n] == '\n' {
      assert t[e..n + 1] == t[e..n] + [t[n]];
      SolidConcat(t[e..n], [t[n]]);
    }
  }

  lemma SolidSplit(t: string, a: nat, b: nat)
    requires a <= b <= |t|
    ensures Solid(t[a..]) == Solid(t[a..b]) + Solid(t[b..])
  {
    assert t[a..] == t[a..b] + t[b..];
    SolidConcat(t[a..b], t[b..]);
  }

  /** Wrapping conserves content: the lines hold a prefix of the solid characters, in order, and all of them if there
      was a line to spare. */
  lemma {:induction false} WrapConservesContent(t: string, p: nat, max: nat, room: nat, blanks: bool)
    requires p <= |t| && max > 0
    ensures Content(t, Lines(t, p, max, room, blanks)) <= Solid(t[p..])
    ensures |Lines(t, p, max, room, blanks)| <= room
    ensures |Lines(t, p, max, room, blanks)| < room ==> Content(t, Lines(t, p, max, room, blanks)) == Solid(t[p..])
    decreases |t| - p
  {
    hide Solid, Content, LineEnd, AfterLine, LineText;
    var s := SkipSpaces(t, p);
    NoContent(t);
    if s == |t| || room == 0 {
      SolidFrom(t, p, s, s, s);
    } else {
      var blank := t[s] == '\n';
      var e := if blank then s else LineEnd(t, s, max);
      var n := if blank then s + 1 else AfterLine(t, e);
      var left := if blank && !blanks then room else room - 1;
      if blank {
        NewlineIsBlank(t, s);
      } else {
        AfterLineIsBlank(t, e);
      }
      SolidFrom(t, p, s, e, n);
      WrapConservesContent(t, n, max, left, blanks);
      ContentStep(t, Span(s, e), Lines(t, n, max, left, blanks));
    }
  }

  /** What there is to conserve from `p` on, split at the line `t[s..e]` and the next place to look. */
  lemma SolidFrom(t: string, p: nat, s: nat, e: nat, n: nat)
    requires p <= s <= e <= n <= |t| && s == SkipSpaces(t, p) && Solid(t[e..n]) == []
    ensures Solid(t[p..]) == Solid(t[s..e]) + Solid(t[n..])
  {
    hide Solid;
    SkippedIsBlank(t, p);
    SolidSplit(t, p, s);
    SolidSplit(t, s, e);
    SolidSplit(t, e, n);
  }

  lemma NoContent(t: string)
    ensures Content(t, []) == [] && Solid([]) == [] && t[|t|..] == []
    ensures forall i :: 0 <= i <= |t| ==> t[i..i] == []
  {
  }

  lemma NewlineIsBlank(t: string, s: nat)
    requires s < |t| && t[s] == '\n'
    ensures Solid(t[s..s]) == [] && Solid(t[s..s + 1]) == []
  {
  }

  lemma ContentStep(t: string, l: Span, rest: seq<Span>)
    ensures Content(t, [l] + rest) == Solid(LineText(t, l)) + Content(t, rest)
    ensures InText(t, l) ==> LineText(t, l) == t[l.start..l.end]
  {
  }

  /** A proper line: not too long, no newline in it, no leading space, and cut inside a word only if the whole line is
      one stretch of `max` characters of that word. */
  ghost predicate GoodLine(t: string, max: nat, l: Span) {
    && InText(t, l) && l.end - l.start <= max
    && (forall i :: l.start <= i < l.end ==> t[i] != '\n')
    && (l.start < l.end ==> t[l.start] != ' ')
    && (l.start < l.end ==> EndsCleanly(t, max, l))
  }

  ghost predicate EndsCleanly(t: string, max: nat, l: Span)
    requires InText(t, l)
  {
    || l.end == |t| || t[l.end] == ' ' || t[l.end] == '\n'
    || (l.end - l.start == max && forall i :: l.start <= i < l.end ==> t[i] != ' ')
  }

  lemma {:induction false} ScanFacts(t: string, s: nat, e: nat, max: nat)
    requires s <= e <= |t| && e - s <= max
    requires forall i :: s <= i < e ==> t[i] != '\n'
    ensures var q := ScanEnd(t, s, e, max);
      && (forall i :: s <= i < q ==> t[i] != '\n')
      && (q == |t| || t[q] == '\n' || q - s == max)
    decreases |t| - e
  {
    if e < |t| && t[e] != '\n' && e - s < max {
      ScanFacts(t, s, e + 1, max);
    }
  }

  lemma {:induction false} LastSpaceFacts(t: string, s: nat, e: nat)
    requires s <= e <= |t|
    ensures var b := LastSpace(t, s, e);
      if b == -1 then forall i :: s <= i < e ==> t[i] != ' ' else t[b] == ' ' && forall i :: b < i < e ==> t[i] != ' '
    decreases e
  {
    if s < e && t[e - 1] != ' ' {
      LastSpaceFacts(t, s, e - 1);
    }
  }

  lemma LineIsGood(t: string, s: nat, max: nat)
    requires s < |t| && t[s] != ' ' && t[s] != '\n' && max > 0
    ensures GoodLine(t, max, Span(s, LineEnd(t, s, max)))
  {
    ScanFacts(t, s, s, max);
    LastSpaceFacts(t, s, ScanEnd(t, s, s, max));
  }

  ghost predicate OneLine(t: string, a: nat, b: nat)
    requires b <= |t|
  {
    forall i :: a <= i < b ==> t[i] != '\n'
  }

  /** `t[s..q]` ends where a word ends, within the width and on one line. */
  ghost predicate FitsToWordEnd(t: string, s: nat, max: nat, q: int) {
    && s < q <= |t| && q - s <= max && t[q - 1] != ' '
    && (q == |t| || t[q] == ' ' || t[q] == '\n')
    && OneLine(t, s, q)
  }

  /** The text fills the width exactly, up to the end of a word, and has an earlier space to break at. */
  ghost predicate FilledToTheEdge(t: string, s: nat, max: nat) {
    && max > 0 && s + max < |t| && t[s + max] == ' ' && t[s + max - 1] != ' '
    && (exists k :: s < k < s + max && t[k] == ' ')
    && OneLine(t, s, s + max)
  }

  /** A line is not the longest one possible exactly when its words fill the width to the edge: then the last of them,
      which would have fitted, is moved to the next line. */
  lemma LastWordMovesIffFilled(t: string, s: nat, max: nat)
    requires s < |t| && t[s] != ' ' && t[s] != '\n' && max > 0
    ensures (exists q :: FitsToWordEnd(t, s, max, q) && q > LineEnd(t, s, max)) <==> FilledToTheEdge(t, s, max)
  {
    var e, q := ScanEnd(t, s, s, max), LineEnd(t, s, max);
    ScanFacts(t, s, s, max);
    LastSpaceFacts(t, s, e);
    if FilledToTheEdge(t, s, max) {
      assert e == s + max;
      assert FitsToWordEnd(t, s, max, e) && e > q;
    }
    if q' :| FitsToWordEnd(t, s, max, q') && q' > q {
      assert q' <= e;
      assert q' == e;
    }
  }

  /** So every line of either wrapper is as long as it could be, except where its words fill the width to the edge. */
  lemma {:induction false} LinesAreLongestUnlessFilled(t: string, p: nat, max: nat, room: nat, blanks: bool, i: int)
    requires p <= |t| && max > 0
    requires 0 <= i < |Lines(t, p, max, room, blanks)|
    ensures var l := Lines(t, p, max, room, blanks)[i];
      && 0 <= l.start <= l.end <= |t|
      && (l.start < l.end ==>
            ((exists q :: FitsToWordEnd(t, l.start, max, q) && q > l.end) <==> FilledToTheEdge(t, l.start, max)))
    decreases |t| - p
  {
    hide LineEnd, AfterLine, FitsToWordEnd, FilledToTheEdge;
    var s := SkipSpaces(t, p);
    if t[s] == '\n' {
      if i > 0 || !blanks {
        LinesAreLongestUnlessFilled(t, s + 1, max, if blanks then room - 1 else room, blanks,
                                    if blanks then i - 1 else i);
      }
    } else if i > 0 {
      LinesAreLongestUnlessFilled(t, AfterLine(t, LineEnd(t, s, max)), max, room - 1, blanks, i - 1);
    } else {
      LastWordMovesIffFilled(t, s, max);
    }
  }

  /** At width 18 the words "aaaaaaaaaaa bbbbbb" fit, but the line breaks after the first. */
  lemma LastWordMovesAtEighteen()
    ensures var t := "aaaaaaaaaaa bbbbbb cc";
            LineEnd(t, 0, 18) == 11 && FitsToWordEnd(t, 0, 18, 18) && FilledToTheEdge(t, 0, 18)
  {
    var t := "aaaaaaaaaaa bbbbbb cc";
    assert t[11] == ' ' && t[18] == ' ';
    hide ScanEnd, LastSpace;
    ScanFacts(t, 0, 0, 18);
    LastSpaceFacts(t, 0, ScanEnd(t, 0, 0, 18));
  }

  /** Lines come in text order from `p` on, without overlapping, and each is proper. */
  ghost predicate GoodLines(t: string, max: nat, blanks: bool, p: nat, ls: seq<Span>) {
    && (forall i :: 0 <= i < |ls| ==> GoodLine(t, max, ls[i]) && p <= ls[i].start)
    && (forall i, j :: 0 <= i < j < |ls| ==> ls[i].end <= ls[j].start)
    && (!blanks ==> forall i :: 0 <= i < |ls| ==> ls[i].start < ls[i].end)
  }

  lemma {:induction false} WrapMakesGoodLines(t: string, p: nat, max: nat, room: nat, blanks: bool)
    requires p <= |t| && max > 0
    ensures GoodLines(t, max, blanks, p, Lines(t, p, max, room, blanks))
    decreases |t| - p
  {
    hide GoodLine, GoodLines, LineEnd, AfterLine;
    var s := SkipSpaces(t, p);
    NoLines(t, max, blanks, p);
    if s < |t| && room > 0 {
      var blank := t[s] == '\n';
      var e := if blank then s else LineEnd(t, s, max);
      var n := if blank then s + 1 else AfterLine(t, e);
      var left := if blank && !blanks then room else room - 1;
      WrapMakesGoodLines(t, n, max, left, blanks);
      if blank {
        BlankIsGood(t, max, s);
      } else {
        LineIsGood(t, s, max);
      }
      GoodLinesExtend(t, max, blanks, p, Span(s, e), n, Lines(t, n, max, left, blanks));
    }
  }

  lemma NoLines(t: string, max: nat, blanks: bool, p: nat)
    ensures GoodLines(t, max, blanks, p, [])
  {
  }

  lemma GoodLinesExtend(t: string, max: nat, blanks: bool, p: nat, l: Span, n: nat, rest: seq<Span>)
    requires GoodLine(t, max, l) && p <= l.start && l.end <= n && GoodLines(t, max, blanks, n, rest)
    ensures (blanks || l.start < l.end) ==> GoodLines(t, max, blanks, p, [l] + rest)
    ensures GoodLines(t, max, blanks, p, rest)
  {
  }

  lemma BlankIsGood(t: string, max: nat, s: nat)
    requires s <= |t|
    ensures GoodLine(t, max, Span(s, s))
  {
  }

  /** Without newlines in the text the two wrappers agree, line by line, at any capacity. */
  lemma {:induction false} WrappersAgree(t: string, p: nat, max: nat, room: nat)
    requires p <= |t| && max > 0
    requires '\n' !in t
    ensures Lines(t, p, max, room, true) == Lines(t, p, max, room, false)
    decreases |t| - p
  {
    var s := SkipSpaces(t, p);
    if s < |t| && room > 0 {
      SkippedIsBlank(t, p);
      assert t[s] in t;
      WrappersAgree(t, AfterLine(t, LineEnd(t, s, max)), max, room - 1);
    }
  }

  function WithoutBlanks(ls: seq<Span>): seq<Span> {
    if ls == [] then [] else (if ls[0].start == ls[0].end then [] else [ls[0]]) + WithoutBlanks(ls[1..])
  }

  /** On any text, given room for everything, the HUD shows the detail panel's lines without the blank ones. */
  lemma {:induction false} HudDropsBlanks(t: string, p: nat, max: nat, room: nat, hudRoom: nat)
    requires p <= |t| && max > 0 && room >= |t| - p && hudRoom >= |t| - p
    ensures Lines(t, p, max, hudRoom, false) == WithoutBlanks(Lines(t, p, max, room, true))
    decreases |t| - p
  {
    hide LineEnd, AfterLine, WithoutBlanks;
    var s := SkipSpaces(t, p);
    DropStep(Span(s, s), []);
    if s < |t| {
      if t[s] == '\n' {
        HudDropsBlanks(t, s + 1, max, room - 1, hudRoom);
        DropStep(Span(s, s), Lines(t, s + 1, max, room - 1, true));
      } else {
        var e := LineEnd(t, s, max);
        var n := AfterLine(t, e);
        HudDropsBlanks(t, n, max, room - 1, hudRoom - 1);
        DropStep(Span(s, e), Lines(t, n, max, room - 1, true));
      }
    }
  }

  lemma DropStep(l: Span, rest: seq<Span>)
    ensures WithoutBlanks([l] + rest) == (if l.start == l.end then [] else [l]) + WithoutBlanks(rest)
    ensures WithoutBlanks([]) == []
  {
  }

  /** So HUD rows, which are sanitised first, wrap the same in both places. */
  lemma SanitizedRowsWrapAlike(input: string, cap: nat, maxChars: int, room: nat)
    requires cap >= 2 && 18 <= maxChars <= 120
    ensures var t := Sanitize(input, cap);
            Lines(t, 0, Clamp(maxChars, 12, 120), room, false) == Lines(t, 0, Clamp(maxChars, 18, 120), room, true)
  {
    var t := Sanitize(input, cap);
    SanitizeIsClean(input, cap);
    assert '\n' !in t by {
      assert forall i :: 0 <= i < |t| ==> IsPrintable(t[i]);
    }
    WrappersAgree(t, 0, maxChars, room);
  }

  /** Cursor movement past the spaces. */
  method SkipSpacesFrom(text: string, from: nat) returns (cursor: nat)
    requires from <= |text|
    ensures cursor == SkipSpaces(text, from)
  {
    cursor := from;
    while cursor < |text| && text[cursor] == ' '
      invariant from <= cursor <= |text| && SkipSpaces(text, cursor) == SkipSpaces(text, from)
    {
      cursor := cursor + 1;
    }
  }

  /** Scans one line and decides where to break it. */
  method ScanLine(text: string, lineStart: nat, maxChars: nat) returns (cursor: nat, len: nat)
    requires lineStart < |text| && text[lineStart] != ' ' && text[lineStart] != '\n' && maxChars > 0
    ensures cursor == LineEnd(text, lineStart, maxChars) && len == cursor - lineStart
  {
    cursor, len := lineStart, 0;
    var breakAt := -1;
    while cursor < |text| && text[cursor] != '\n' && len < maxChars
      invariant lineStart <= cursor <= |text| && len == cursor - lineStart <= maxChars
      invariant ScanEnd(text, lineStart, cursor, maxChars) == ScanEnd(text, lineStart, lineStart, maxChars)
      invariant breakAt == LastSpace(text, lineStart, cursor)
    {
      if text[cursor] == ' ' {
        breakAt := cursor;
      }
      cursor := cursor + 1;
      len := len + 1;
    }
    if cursor < |text| && text[cursor] != '\n' && len >= maxChars && breakAt >= 0 && breakAt > lineStart {
      cursor := breakAt;
      len := breakAt - lineStart;
    }
  }

  /** Takes one line off the text: its length, and where to look for the next. */
  method TakeLine(text: string, lineStart: nat, maxChars: nat) returns (len: int, next: nat)
    requires lineStart < |text| && text[lineStart] != ' ' && text[lineStart] != '\n' && 0 < maxChars <= 120
    ensures lineStart + len == LineEnd(text, lineStart, maxChars) && next == AfterLine(text, lineStart + len)
    ensures lineStart < next
  {
    hide LineEnd, SkipSpaces;
    next, len := ScanLine(text, lineStart, maxChars);
    if len >= LINE_CAP {
      len := LINE_CAP - 1;
    }
    next := SkipSpacesFrom(text, next);
    if next < |text| && text[next] == '\n' {
      next := next + 1;
    }
  }

  ghost predicate Stored(t: string, ls: seq<Span>, storage: seq<string>, n: int) {
    0 <= n <= |ls| && n <= |storage| && forall i :: 0 <= i < n ==> storage[i] == LineText(t, ls[i])
  }

  /** A wrapper has stored the first `count` of the lines `ls` and has the text from `cursor` still to do. */
  ghost predicate Wrapping(t: string, max: nat, blanks: bool, ls: seq<Span>, cursor: int, count: int,
                           was: seq<string>, now: seq<string>) {
    && max > 0 && 0 <= cursor <= |t| && 0 <= count <= |was| == |now|
    && Stored(t, ls, now, count) && now[count..] == was[count..]
    && ls[count..] == Lines(t, cursor, max, |now| - count, blanks)
  }

  lemma WrapStarts(t: string, max: nat, blanks: bool, was: seq<string>)
    requires max > 0
    ensures Wrapping(t, max, blanks, Lines(t, 0, max, |was|, blanks), 0, 0, was, was)
  {
  }

  /** One round of either wrapper, by what it finds behind the spaces. */
  lemma WrapRound(t: string, max: nat, blanks: bool, ls: seq<Span>, cursor: int, count: int, was: seq<string>,
                  now: seq<string>, s: nat)
    requires Wrapping(t, max, blanks, ls, cursor, count, was, now) && count < |now| && s == SkipSpaces(t, cursor)
    ensures s == |t| ==> Wrapping(t, max, blanks, ls, s, count, was, now)
    ensures s < |t| && t[s] == '\n' && !blanks ==> Wrapping(t, max, blanks, ls, s + 1, count, was, now)
    ensures s < |t| && t[s] == '\n' && blanks ==> Wrapping(t, max, blanks, ls, s + 1, count + 1, was, now[count := ""])
    ensures s < |t| && t[s] != '\n' ==>
              Wrapping(t, max, blanks, ls, AfterLine(t, LineEnd(t, s, max)), count + 1, was,
                       now[count := t[s..LineEnd(t, s, max)]])
  {
    hide LineEnd, AfterLine, SkipSpaces;
    var left := |now| - count;
    if s < |t| {
      if t[s] != '\n' {
        WrapStores(t, max, blanks, ls, count, was, now, Span(s, LineEnd(t, s, max)), AfterLine(t, LineEnd(t, s, max)));
      } else if blanks {
        WrapStores(t, max, blanks, ls, count, was, now, Span(s, s), s + 1);
      }
    } else {
      LinesEnd(t, s, max, left, blanks);
    }
  }

  lemma WrapStores(t: string, max: nat, blanks: bool, ls: seq<Span>, count: int, was: seq<string>, now: seq<string>,
                   l: Span, next: nat)
    requires max > 0 && 0 <= count < |was| == |now| && next <= |t| && InText(t, l)
    requires Stored(t, ls, now, count) && now[count..] == was[count..]
    requires ls[count..] == [l] + Lines(t, next, max, |now| - count - 1, blanks)
    ensures Wrapping(t, max, blanks, ls, next, count + 1, was, now[count := t[l.start..l.end]])
  {
  }

  lemma LinesEnd(t: string, p: nat, max: nat, room: nat, blanks: bool)
    requires p <= |t| && max > 0 && (p == |t| || room == 0)
    ensures Lines(t, p, max, room, blanks) == []
  {
  }

  lemma WrapEnds(t: string, max: nat, blanks: bool, ls: seq<Span>, cursor: int, count: int, was: seq<string>,
                 now: seq<string>)
    requires Wrapping(t, max, blanks, ls, cursor, count, was, now) && (cursor == |t| || count == |now|)
    ensures count == |ls| && Stored(t, ls, now, count)
    ensures forall i :: count <= i < |now| ==> now[i] == was[i]
  {
  }

  lemma WrapBounds(t: string, max: nat, blanks: bool, ls: seq<Span>, cursor: int, count: int, was: seq<string>,
                   now: seq<string>)
    requires Wrapping(t, max, blanks, ls, cursor, count, was, now)
    ensures 0 <= cursor <= |t| && 0 <= count <= |was| == |now|
  {
  }

  /** The detail panel's wrapper: fills `storage` from the front and returns how many lines there are. */
  method WrapDetailLines(text: string, storage: array<string>, maxChars: int) returns (count: int)
    modifies storage
    ensures var ls := Lines(text, 0, Clamp(maxChars, 18, 120), storage.Length, true);
            count == |ls| && Stored(text, ls, storage[..], count)
    ensures forall i :: count <= i < storage.Length ==> storage[i] == old(storage[i])
  {
    hide Wrapping, Lines, LineEnd, AfterLine, SkipSpaces;
    count := 0;
    var max := Clamp(maxChars, 18, 120);
    ghost var ls := Lines(text, 0, max, storage.Length, true);
    if storage.Length <= 0 {
      LinesEnd(text, 0, max, 0, true);
      return;
    }
    ghost var was := storage[..];
    var cursor := 0;
    WrapStarts(text, max, true, was);
    while cursor < |text| && count < storage.Length
      invariant 0 <= cursor <= |text| && 0 <= count <= storage.Length
      invariant Wrapping(text, max, true, ls, cursor, count, was, storage[..])
      decreases |text| - cursor
    {
      ghost var now := storage[..];
      var lineStart := SkipSpacesFrom(text, cursor);
      WrapRound(text, max, true, ls, cursor, count, was, now, lineStart);
      cursor := lineStart;
      if cursor < |text| && text[cursor] == '\n' {
        storage[count] := "";
        assert storage[..] == now[count := ""];
        cursor := cursor + 1;
        count := count + 1;
        continue;
      }
      if cursor >= |text| {
        continue;
      }
      var len;
      len, cursor := TakeLine(text, lineStart, max);
      storage[count] := text[lineStart..lineStart + len];
      assert storage[..] == now[count := text[lineStart..lineStart + len]];
      WrapBounds(text, max, true, ls, cursor, count + 1, was, storage[..]);
      count := count + 1;
    }
    WrapEnds(text, max, true, ls, cursor, count, was, storage[..]);
  }

  /** The HUD's wrapper: a newline ends a line but makes none of its own. */
  method WrapHudLines(text: string, storage: array<string>, maxChars: int) returns (count: int)
    modifies storage
    ensures var ls := Lines(text, 0, Clamp(maxChars, 12, 120), storage.Length, false);
            count == |ls| && Stored(text, ls, storage[..], count)
    ensures forall i :: count <= i < storage.Length ==> storage[i] == old(storage[i])
  {
    hide Wrapping, Lines, LineEnd, AfterLine, SkipSpaces;
    count := 0;
    var max := Clamp(maxChars, 12, 120);
    ghost var ls := Lines(text, 0, max, storage.Length, false);
    if storage.Length <= 0 {
      LinesEnd(text, 0, max, 0, false);
      return;
    }
    ghost var was := storage[..];
    var cursor := 0;
    WrapStarts(text, max, false, was);
    while cursor < |text| && count < storage.Length
      invariant 0 <= cursor <= |text| && 0 <= count <= storage.Length
      invariant Wrapping(text, max, false, ls, cursor, count, was, storage[..])
      decreases |text| - cursor
    {
      ghost var now := storage[..];
      var lineStart := SkipSpacesFrom(text, cursor);
      WrapRound(text, max, false, ls, cursor, count, was, now, lineStart);
      cursor := lineStart;
      if cursor >= |text| {
        continue;
      }
      if text[cursor] == '\n' {
        cursor := cursor + 1;
        continue;
      }
      var len;
      len, cursor := TakeLine(text, lineStart, max);
      storage[count] := text[lineStart..lineStart + len];
      assert storage[..] == now[count := text[lineStart..lineStart + len]];
      WrapBounds(text, max, false, ls, cursor, count + 1, was, storage[..]);
      count := count + 1;
    }
    WrapEnds(text, max, false, ls, cursor, count, was, storage[..]);
  }
}
