/** Folding arbitrary text to single-spaced printable ASCII: the in-place normaliser of loaded rows and the
    bounded sanitiser of HUD rows. */
module AsciiText {
  const NUL: char := '\0'
  const ESCAPE: char := 27 as char

  predicate IsBlank(c: char) {
    c == '\n' || c == '\r' || c == '\t' || c == ' '
  }

  predicate IsPrintable(c: char) {
    32 <= c as int <= 126
  }

  predicate IsLetter(c: char) {
    'A' <= c <= 'Z' || 'a' <= c <= 'z'
  }

  /** A number in decimal digits. */
  function Decimal(n: nat): string {
    (if n < 10 then "" else Decimal(n / 10)) + ["0123456789"[n % 10]]
  }

  /** Printable, no two spaces in a row, no space at the end. A single leading space is allowed. */
  ghost predicate Clean(s: string) {
    && (forall i :: 0 <= i < |s| ==> ' ' <= s[i] <= '~')
    && (forall i :: 0 < i < |s| ==> !(s[i - 1] == ' ' && s[i] == ' '))
    && (s != [] ==> s[|s| - 1] != ' ')
  }

  /** Runs of blanks become one space, everything else that does not print is dropped. */
  function Fold(s: string, lastWasSpace: bool): string {
    if s == [] then []
    else if IsBlank(s[0]) then (if lastWasSpace then [] else " ") + Fold(s[1..], true)
    else if IsPrintable(s[0]) then [s[0]] + Fold(s[1..], false)
    else Fold(s[1..], lastWasSpace)
  }

  function TrimEnd(s: string): string {
    if s != [] && s[|s| - 1] == ' ' then TrimEnd(s[..|s| - 1]) else s
  }

  function NormalizeAscii(s: string): string {
    TrimEnd(Fold(s, false))
  }

  /** A C string: the characters before the first NUL. */
  ghost predicate Terminated(buffer: seq<char>, len: int) {
    0 <= len < |buffer| && buffer[len] == NUL && forall i :: 0 <= i < len ==> buffer[i] != NUL
  }

  ghost predicate SingleSpaced(s: string, lastWasSpace: bool) {
    && (forall i :: 0 <= i < |s| ==> IsPrintable(s[i]))
    && (forall i :: 0 < i < |s| ==> !(s[i - 1] == ' ' && s[i] == ' '))
    && (lastWasSpace && s != [] ==> s[0] != ' ')
  }

  lemma {:induction false} FoldIsSingleSpaced(s: string, lastWasSpace: bool)
    ensures SingleSpaced(Fold(s, lastWasSpace), lastWasSpace)
  {
    if s != [] {
      FoldIsSingleSpaced(s[1..], if IsBlank(s[0]) then true else if IsPrintable(s[0]) then false else lastWasSpace);
    }
  }

  lemma {:induction false} FoldKeepsSingleSpaced(s: string, lastWasSpace: bool)
    requires SingleSpaced(s, lastWasSpace)
    ensures Fold(s, lastWasSpace) == s
  {
    if s != [] {
      assert forall i :: 0 < i < |s[1..]| ==> s[1..][i - 1] == s[i] && s[1..][i] == s[i + 1];
      assert |s| > 1 ==> s[1..][0] == s[1] && !(s[0] == ' ' && s[1] == ' ');
      FoldKeepsSingleSpaced(s[1..], s[0] == ' ');
    }
  }

  lemma {:induction false} TrimEndIsPrefix(s: string)
    ensures TrimEnd(s) <= s
    ensures TrimEnd(s) != [] ==> TrimEnd(s)[|TrimEnd(s)| - 1] != ' '
    ensures forall i :: |TrimEnd(s)| <= i < |s| ==> s[i] == ' '
  {
    if s != [] && s[|s| - 1] == ' ' {
      TrimEndIsPrefix(s[..|s| - 1]);
    }
  }

  lemma NormalizeAsciiIsClean(s: string)
    ensures Clean(NormalizeAscii(s))
  {
    FoldIsSingleSpaced(s, false);
    TrimEndIsPrefix(Fold(s, false));
  }

  /** The normal forms are exactly the clean texts, so normalising twice changes nothing. */
  lemma NormalFormsAreClean(s: string)
    ensures NormalizeAscii(s) == s <==> Clean(s)
    ensures NormalizeAscii(NormalizeAscii(s)) == NormalizeAscii(s)
  {
    NormalizeAsciiIsClean(s);
    CleanIsFixed(NormalizeAscii(s));
    if Clean(s) {
      CleanIsFixed(s);
    }
  }

  lemma CleanIsFixed(s: string)
    requires Clean(s)
    ensures Fold(s, false) == s && TrimEnd(s) == s && NormalizeAscii(s) == s
  {
    FoldKeepsSingleSpaced(s, false);
  }

  /** A space behind a clean text is all that normalising takes off. */
  lemma TrailingSpaceGoes(s: string)
    requires Clean(s) && s != ""
    ensures NormalizeAscii(s + " ") == s
  {
    FoldKeepsSingleSpaced(s + " ", false);
    hide Fold;
    CleanIsFixed(s);
    assert (s + " ")[..|s|] == s;
  }

  /** Whether the fold of `s` leaves off right after a space. */
  function AfterFold(s: string, lastWasSpace: bool): bool {
    if s == [] then lastWasSpace
    else AfterFold(s[1..], if IsBlank(s[0]) then true else if IsPrintable(s[0]) then false else lastWasSpace)
  }

  lemma {:induction false} FoldAppend(a: string, b: string, lastWasSpace: bool)
    ensures Fold(a + b, lastWasSpace) == Fold(a, lastWasSpace) + Fold(b, AfterFold(a, lastWasSpace))
  {
    if a == [] {
      assert a + b == b;
    } else {
      assert (a + b)[1..] == a[1..] + b;
      FoldAppend(a[1..], b, if IsBlank(a[0]) then true else if IsPrintable(a[0]) then false else lastWasSpace);
    }
  }

  lemma FoldInside(a: string, mid: string, b: string)
    ensures Fold(a + mid + b, false) == Fold(a, false) + Fold(mid + b, AfterFold(a, false))
  {
    assert a + mid + b == a + (mid + b);
    FoldAppend(a, mid + b, false);
  }

  /** A character that neither prints nor separates goes without a trace. */
  lemma JunkGoes(a: string, c: char, b: string)
    requires (c < ' ' || c > '~') && c != '\n' && c != '\r' && c != '\t'
    ensures NormalizeAscii(a + [c] + b) == NormalizeAscii(a + b)
  {
    FoldInside(a, [c], b);
    FoldAppend(a, b, false);
    assert ([c] + b)[1..] == b;
  }

  /** Newline, return and tab are as good as a space, */
  lemma BlanksAreSpaces(a: string, c: char, b: string)
    requires c == '\n' || c == '\r' || c == '\t'
    ensures NormalizeAscii(a + [c] + b) == NormalizeAscii(a + " " + b)
  {
    FoldInside(a, [c], b);
    FoldInside(a, " ", b);
    assert ([c] + b)[1..] == b && (" " + b)[1..] == b;
  }

  /** and several spaces as good as one. */
  lemma SpacesMerge(a: string, b: string)
    ensures NormalizeAscii(a + "  " + b) == NormalizeAscii(a + " " + b)
  {
    FoldInside(a, "  ", b);
    FoldInside(a, " ", b);
    var spaced := AfterFold(a, false);
    assert "  " + b == " " + (" " + b) && (" " + (" " + b))[1..] == " " + b && (" " + b)[1..] == b;
    assert Fold("  " + b, spaced) == (if spaced then [] else " ") + Fold(" " + b, true);
    assert Fold(" " + b, true) == Fold(b, true);
  }

  // ----- numbers

  /** The number a row of digits stands for. */
  function ValueOf(digits: string): int {
    if digits == [] then 0
    else
      var last := |digits| - 1;
      10 * ValueOf(digits[..last]) + (digits[last] as int - '0' as int)
  }

  /** A number shows as its digits, without leading zeros. */
  lemma {:induction false} DecimalReads(n: nat)
    ensures ValueOf(Decimal(n)) == n && Decimal(n) != ""
    ensures forall i :: 0 <= i < |Decimal(n)| ==> '0' <= Decimal(n)[i] <= '9'
    ensures n > 0 ==> Decimal(n)[0] != '0'
  {
    var last := "0123456789"[n % 10];
    DigitIs(n % 10);
    var front := if n < 10 then "" else Decimal(n / 10);
    assert Decimal(n) == front + [last];
    assert (front + [last])[..|front|] == front;
    hide Decimal;
    if n >= 10 {
      DecimalReads(n / 10);
    }
    ValueStep(front, last);
  }

  lemma DigitIs(d: int)
    requires 0 <= d < 10
    ensures var c := "0123456789"[d]; '0' <= c <= '9' && c as int - '0' as int == d && (d > 0 ==> c != '0')
  {
    assert d == 0 || d == 1 || d == 2 || d == 3 || d == 4 || d == 5 || d == 6 || d == 7 || d == 8 || d == 9;
  }

  lemma ValueStep(front: string, last: char)
    ensures ValueOf(front + [last]) == 10 * ValueOf(front) + (last as int - '0' as int) && ValueOf([]) == 0
  {
    assert (front + [last])[..|front|] == front;
  }

  /** Cuts trailing spaces off `text[..w]`. */
  method TrimBuffer(text: array<char>, w: int) returns (end: int)
    requires 0 <= w <= text.Length
    ensures 0 <= end <= w && text[..end] == TrimEnd(text[..w])
  {
    end := w;
    while end > 0 && text[end - 1] == ' '
      invariant 0 <= end <= w && TrimEnd(text[..end]) == TrimEnd(text[..w])
    {
      assert text[..end][..end - 1] == text[..end - 1];
      end := end - 1;
    }
  }

  lemma FoldAt(s: string, done: string, r: int, lastWasSpace: bool)
    requires 0 <= r < |s|
    ensures done + Fold(s[r..], lastWasSpace) ==
      if IsBlank(s[r]) then (if lastWasSpace then done else done + " ") + Fold(s[r + 1..], true)
      else if IsPrintable(s[r]) then done + [s[r]] + Fold(s[r + 1..], false)
      else done + Fold(s[r + 1..], lastWasSpace)
  {
  }

  /** Rewrites a C string in place: the write position never passes the read position. */
  method NormalizeInPlace(text: array<char>, ghost len: int) returns (ghost newLen: int)
    requires Terminated(text[..], len)
    modifies text
    ensures Terminated(text[..], newLen) && text[..newLen] == NormalizeAscii(old(text[..len]))
  {
    hide Fold, TrimEnd, NormalizeAscii;
    ghost var source := text[..len];
    var w := FoldInPlace(text, len);
    w := TrimBuffer(text, w);
    ghost var trimmed := text[..w];
    NormalizeAsciiDef(source);
    NormalizeAsciiIsClean(source);
    text[w] := NUL;
    newLen := w;
    assert text[..newLen] == trimmed;
  }

  lemma NormalizeAsciiDef(s: string)
    ensures NormalizeAscii(s) == TrimEnd(Fold(s, false))
  {
  }

  method FoldInPlace(text: array<char>, ghost len: int) returns (w: int)
    requires Terminated(text[..], len)
    modifies text
    ensures 0 <= w < text.Length && text[..w] == Fold(old(text[..len]), false)
  {
    hide Fold;
    ghost var source, done := text[..len], "";
    var r, lastWasSpace := 0, false;
    w := 0;
    while text[r] != NUL
      invariant 0 <= w <= r <= len < text.Length
      invariant text[len] == NUL && forall i :: r <= i < len ==> text[i] != NUL && text[i] == source[i]
      invariant text[..w] == done
      invariant Fold(source, false) == done + Fold(source[r..], lastWasSpace)
      decreases len - r
    {
      var c := text[r];
      FoldAt(source, done, r, lastWasSpace);
      if IsBlank(c) {
        if !lastWasSpace {
          text[w] := ' ';
          w := w + 1;
          done := done + " ";
          lastWasSpace := true;
        }
      } else if IsPrintable(c) {
        text[w] := c;
        w := w + 1;
        done := done + [c];
        lastWasSpace := false;
      }
      r := r + 1;
    }
    FoldEmpty(source[r..], lastWasSpace);
  }

  lemma FoldEmpty(s: string, lastWasSpace: bool)
    requires s == []
    ensures Fold(s, lastWasSpace) == []
  {
  }

  /** The HUD scan: escape sequences are skipped up to their final letter, and the scan stops when the output is full.
      */
  function Scan(s: string, room: nat, lastWasSpace: bool, inEscape: bool): string
    decreases s
  {
    if s == [] || room == 0 then []
    else if inEscape then Scan(s[1..], room, lastWasSpace, !IsLetter(s[0]))
    else if s[0] == ESCAPE then Scan(s[1..], room, lastWasSpace, true)
    else if IsBlank(s[0]) then
      if lastWasSpace then Scan(s[1..], room, true, false) else " " + Scan(s[1..], room - 1, true, false)
    else if IsPrintable(s[0]) then [s[0]] + Scan(s[1..], room - 1, false, false)
    else Scan(s[1..], room, lastWasSpace, false)
  }

  /** Text of a HUD row for an output buffer of `cap` bytes; a row with nothing to show becomes a dash. */
  function Sanitize(s: string, cap: nat): string
    requires cap > 0
  {
    var trimmed := TrimEnd(Scan(s, cap - 1, false, false));
    if trimmed == [] && cap >= 2 then "-" else trimmed
  }

  lemma {:induction false} ScanIsSingleSpaced(s: string, room: nat, lastWasSpace: bool, inEscape: bool)
    ensures SingleSpaced(Scan(s, room, lastWasSpace, inEscape), lastWasSpace)
    ensures |Scan(s, room, lastWasSpace, inEscape)| <= room
    decreases s
  {
    if s == [] || room == 0 {
    } else if inEscape {
      ScanIsSingleSpaced(s[1..], room, lastWasSpace, !IsLetter(s[0]));
    } else if s[0] == ESCAPE {
      ScanIsSingleSpaced(s[1..], room, lastWasSpace, true);
    } else if IsBlank(s[0]) {
      ScanIsSingleSpaced(s[1..], if lastWasSpace then room else room - 1, true, false);
    } else if IsPrintable(s[0]) {
      ScanIsSingleSpaced(s[1..], room - 1, false, false);
    } else {
      ScanIsSingleSpaced(s[1..], room, lastWasSpace, false);
    }
  }

  /** Without escape sequences and with room to spare, the scan is the plain fold. */
  lemma {:induction false} ScanIsFold(s: string, room: nat, lastWasSpace: bool)
    requires ESCAPE !in s && |s| <= room
    ensures Scan(s, room, lastWasSpace, false) == Fold(s, lastWasSpace)
    decreases s
  {
    if s != [] {
      if IsBlank(s[0]) {
        ScanIsFold(s[1..], if lastWasSpace then room else room - 1, true);
      } else if IsPrintable(s[0]) {
        ScanIsFold(s[1..], room - 1, false);
      } else {
        ScanIsFold(s[1..], room, lastWasSpace);
      }
    }
  }

  function Take(s: string, n: nat): string {
    if |s| <= n then s else s[..n]
  }

  /** Less room only cuts the scan short. */
  lemma {:induction false} ScanIsCut(s: string, room: nat, more: nat, lastWasSpace: bool, inEscape: bool)
    requires room <= more
    ensures Scan(s, room, lastWasSpace, inEscape) == Take(Scan(s, more, lastWasSpace, inEscape), room)
    decreases s
  {
    if s == [] || room == 0 {
    } else if inEscape {
      ScanIsCut(s[1..], room, more, lastWasSpace, !IsLetter(s[0]));
    } else if s[0] == ESCAPE {
      ScanIsCut(s[1..], room, more, lastWasSpace, true);
    } else if IsBlank(s[0]) {
      if lastWasSpace {
        ScanIsCut(s[1..], room, more, true, false);
      } else {
        ScanIsCut(s[1..], room - 1, more - 1, true, false);
      }
    } else if IsPrintable(s[0]) {
      ScanIsCut(s[1..], room - 1, more - 1, false, false);
    } else {
      ScanIsCut(s[1..], room, more, lastWasSpace, false);
    }
  }

  ghost predicate HasLetter(s: string) {
    exists i :: 0 <= i < |s| && ('A' <= s[i] <= 'Z' || 'a' <= s[i] <= 'z')
  }

  /** An escape sequence is over after its first letter. */
  lemma {:induction false} EscapeEnds(parameters: string, letter: char, b: string, room: nat, lastWasSpace: bool)
    requires !HasLetter(parameters) && HasLetter([letter])
    ensures Scan(parameters + [letter] + b, room, lastWasSpace, true) == Scan(b, room, lastWasSpace, false)
    decreases parameters
  {
    var s := parameters + [letter] + b;
    if parameters == [] {
      assert s[0] == [letter][0] && s[1..] == b;
    } else {
      assert s[0] == parameters[0] && s[1..] == parameters[1..] + [letter] + b;
      assert forall i :: 0 <= i < |parameters[1..]| ==> parameters[1..][i] == parameters[i + 1];
      EscapeEnds(parameters[1..], letter, b, room, lastWasSpace);
    }
  }

  lemma {:induction false} EscapesAreSkipped(a: string, parameters: string, letter: char, b: string, room: nat,
                                             lastWasSpace: bool)
    requires !HasLetter(parameters) && HasLetter([letter]) && (27 as char) !in a
    ensures Scan(a + ([27 as char] + (parameters + [letter] + b)), room, lastWasSpace, false) ==
            Scan(a + b, room, lastWasSpace, false)
    decreases a
  {
    var rest := parameters + [letter] + b;
    var x := a + ([27 as char] + rest);
    if a == [] {
      assert x[0] == 27 as char && x[1..] == rest && a + b == b;
      if room > 0 {
        EscapeEnds(parameters, letter, b, room, lastWasSpace);
      }
    } else {
      assert x[0] == a[0] && x[1..] == a[1..] + ([27 as char] + rest);
      assert (a + b)[0] == a[0] && (a + b)[1..] == a[1..] + b;
      hide HasLetter;
      EscapesAreSkipped(a[1..], parameters, letter, b, room, if IsBlank(a[0]) then true else lastWasSpace);
      if room > 0 {
        EscapesAreSkipped(a[1..], parameters, letter, b, room - 1, IsBlank(a[0]));
      }
    }
  }

  /** An escape sequence leaves no trace in a HUD row. */
  lemma EscapesLeaveNoTrace(a: string, parameters: string, letter: char, b: string, cap: nat)
    requires !HasLetter(parameters) && HasLetter([letter]) && (27 as char) !in a && cap > 0
    ensures Sanitize(a + ([27 as char] + (parameters + [letter] + b)), cap) == Sanitize(a + b, cap)
  {
    EscapesAreSkipped(a, parameters, letter, b, cap - 1, false);
  }

  /** Without escapes, and with room for it, a HUD row is the loader's normal form, or a dash if that is empty. */
  lemma SanitizeIsNormalForm(s: string, cap: nat)
    requires (27 as char) !in s && 2 <= cap && |Fold(s, false)| < cap
    ensures Sanitize(s, cap) == if NormalizeAscii(s) == "" then "-" else NormalizeAscii(s)
  {
    ScanIsFold(s, |s| + cap, false);
    ScanIsCut(s, cap - 1, |s| + cap, false, false);
  }

  lemma SanitizeIsClean(s: string, cap: nat)
    requires cap >= 2
    ensures Clean(Sanitize(s, cap)) && 0 < |Sanitize(s, cap)| < cap
  {
    ScanIsSingleSpaced(s, cap - 1, false, false);
    TrimEndIsPrefix(Scan(s, cap - 1, false, false));
  }

  /** The sanitiser's fixed points are the non-empty clean texts that fit, so sanitising twice changes nothing. */
  lemma SanitizeFixedPoints(s: string, cap: nat)
    requires cap >= 2
    ensures Sanitize(s, cap) == s <==> Clean(s) && 0 < |s| < cap
    ensures Sanitize(Sanitize(s, cap), cap) == Sanitize(s, cap)
  {
    SanitizeIsClean(s, cap);
    CleanFitsUnchanged(Sanitize(s, cap), cap);
    if Clean(s) && 0 < |s| < cap {
      CleanFitsUnchanged(s, cap);
    }
  }

  lemma CleanFitsUnchanged(s: string, cap: nat)
    requires Clean(s) && 0 < |s| < cap
    ensures Sanitize(s, cap) == s
  {
    ScanIsFold(s, cap - 1, false);
    CleanIsFixed(s);
  }

  lemma ScanAt(s: string, done: string, i: int, room: nat, lastWasSpace: bool, inEscape: bool)
    requires 0 <= i < |s| && room > 0
    ensures done + Scan(s[i..], room, lastWasSpace, inEscape) ==
      if inEscape then done + Scan(s[i + 1..], room, lastWasSpace, !IsLetter(s[i]))
      else if s[i] == ESCAPE then done + Scan(s[i + 1..], room, lastWasSpace, true)
      else if IsBlank(s[i]) then
        if lastWasSpace then done + Scan(s[i + 1..], room, true, false)
        else done + " " + Scan(s[i + 1..], room - 1, true, false)
      else if IsPrintable(s[i]) then done + [s[i]] + Scan(s[i + 1..], room - 1, false, false)
      else done + Scan(s[i + 1..], room, lastWasSpace, false)
  {
  }

  lemma ScanEnds(s: string, room: nat, lastWasSpace: bool, inEscape: bool)
    requires s == [] || room == 0
    ensures Scan(s, room, lastWasSpace, inEscape) == []
  {
  }

  method ScanText(input: string, output: array<char>) returns (w: int)
    requires output.Length > 0
    modifies output
    ensures 0 <= w < output.Length && output[..w] == Scan(input, output.Length - 1, false, false)
  {
    hide Scan;
    var cap, i, lastWasSpace, inEscape := output.Length, 0, false, false;
    ghost var done := "";
    w := 0;
    assert input[i..] == input;
    while i < |input| && w + 1 < cap
      invariant 0 <= i <= |input| && 0 <= w < cap
      invariant output[..w] == done
      invariant Scan(input, cap - 1, false, false) == done + Scan(input[i..], cap - 1 - w, lastWasSpace, inEscape)
    {
      var c := input[i];
      ScanAt(input, done, i, cap - 1 - w, lastWasSpace, inEscape);
      i := i + 1;
      if inEscape {
        if IsLetter(c) {
          inEscape := false;
        }
        continue;
      }
      if c == ESCAPE {
        inEscape := true;
        continue;
      }
      if !IsBlank(c) && !IsPrintable(c) {
        continue;
      }
      if IsBlank(c) {
        if !lastWasSpace {
          output[w] := ' ';
          w := w + 1;
          done := done + " ";
          lastWasSpace := true;
        }
      } else {
        output[w] := c;
        w := w + 1;
        done := done + [c];
        lastWasSpace := false;
      }
    }
    ScanEnds(input[i..], cap - 1 - w, lastWasSpace, inEscape);
  }

  /** Writes the sanitised text of `input` into `output`. */
  method SanitizeText(input: string, output: array<char>) returns (ghost len: int)
    requires NUL !in input
    modifies output
    ensures output.Length > 0 ==> Terminated(output[..], len) && output[..len] == Sanitize(input, output.Length)
  {
    hide Scan, TrimEnd;
    var cap := output.Length;
    len := 0;
    if cap == 0 {
      return;
    }
    var w := ScanText(input, output);
    w := TrimBuffer(output, w);
    ghost var trimmed := output[..w];
    ScanIsSingleSpaced(input, cap - 1, false, false);
    TrimEndIsPrefix(Scan(input, cap - 1, false, false));
    output[w] := NUL;
    len := w;
    assert output[..len] == trimmed;
    if output[0] == NUL && cap >= 2 {
      output[0] := '-';
      output[1] := NUL;
      len := 1;
    }
  }
}
