/**
 * Source text with everything that is not code blanked out (`blankNonCode` in scripts/lint.ts).
 *
 * Two projections come from one scan: the code projection blanks string contents, the text
 * projection keeps them. Rules report by position, so what matters is that positions survive.
 */
module BlankCode {
  import opened Strings
  import opened Lines

  datatype Mode = Code | LineComment | BlockComment | SingleQuoted | DoubleQuoted | Template | Regex

  /** The last character of code that is not white space. */
  datatype LastCode = NoCode | Was(c: char)

  /** The scanner between two characters. */
  datatype Scan = Scan(mode: Mode, lastCode: LastCode, inCharClass: bool)

  const START := Scan(Code, NoCode, false)

  /** The characters after which a slash starts a regular expression. */
  predicate OpensOperand(c: char) {
    || c == '(' || c == ',' || c == '=' || c == ':' || c == '[' || c == '!' || c == '&' || c == '|' || c == '?'
    || c == '{' || c == '}' || c == ';' || c == '+' || c == '-' || c == '*' || c == '%' || c == '~' || c == '^'
    || c == '<' || c == '>'
  }

  predicate StartsRegex(lastCode: LastCode) {
    lastCode.NoCode? || OpensOperand(lastCode.c)
  }

  predicate IsLiteral(mode: Mode) {
    mode.SingleQuoted? || mode.DoubleQuoted? || mode.Template?
  }

  predicate IsCloser(mode: Mode, c: char) {
    (mode.SingleQuoted? && c == '\'') || (mode.DoubleQuoted? && c == '"') || (mode.Template? && c == '`')
  }

  /** A backslash in a literal or a regular expression takes the next character with it. */
  predicate IsEscape(rest: string, s: Scan) {
    rest != "" && rest[0] == '\\' && (s.mode.Regex? || IsLiteral(s.mode))
  }

  /** How many characters the front of `rest` is scanned as, even past the end. */
  function Taken(rest: string, s: Scan): (n: nat)
    requires rest != ""
    ensures n == 1 || n == 2
  {
    if IsEscape(rest, s) then 2
    else if s.mode.Code? && |rest| > 1 && rest[0] == '/' && (rest[1] == '/' || rest[1] == '*') then 2
    else if s.mode.BlockComment? && |rest| > 1 && rest[0] == '*' && rest[1] == '/' then 2
    else 1
  }

  /** The scanner after the front of `rest`. */
  function Next(rest: string, s: Scan): Scan
    requires rest != ""
  {
    var c := rest[0];
    if IsEscape(rest, s) then s
    else match s.mode
      case Code =>
        if Taken(rest, s) == 2 then s.(mode := if rest[1] == '/' then LineComment else BlockComment)
        else if c == '/' && StartsRegex(s.lastCode) then s.(mode := Regex, inCharClass := false)
        else if c == '\'' then s.(mode := SingleQuoted)
        else if c == '"' then s.(mode := DoubleQuoted)
        else if c == '`' then s.(mode := Template)
        else if IsSpace(c) then s
        else s.(lastCode := Was(c))
      case Regex =>
        if c == '[' then s.(inCharClass := true)
        else if c == ']' then s.(inCharClass := false)
        else if c == '/' && !s.inCharClass then s.(mode := Code, lastCode := Was('/'))
        else if c == NL then s.(mode := Code)
        else s
      case LineComment => if c == NL then s.(mode := Code) else s
      case BlockComment => if Taken(rest, s) == 2 then s.(mode := Code) else s
      case _ => if IsCloser(s.mode, c) then s.(mode := Code) else s
  }

  predicate IsQuoteMark(c: char) {
    c == '\'' || c == '"' || c == '`'
  }

  /** What the front of `rest` is written as. */
  function Emit(rest: string, s: Scan, keepStrings: bool): string
    requires rest != ""
  {
    var c := rest[0];
    if IsEscape(rest, s) then
      (if keepStrings && IsLiteral(s.mode) then rest[..if |rest| > 1 then 2 else 1] else "  ")
    else if Taken(rest, s) == 2 then "  "
    else if s.mode.Code? then
      (if c == '/' && StartsRegex(s.lastCode) then " "
       else if IsQuoteMark(c) then (if keepStrings then [c] else " ")
       else [c])
    else if c == NL then "\n"
    else if IsLiteral(s.mode) && keepStrings then [c]
    else " "
  }

  /** One scanning step: how much is taken, what is written for it, and the scanner after it. */
  datatype Piece = Piece(taken: nat, emitted: string, next: Scan)

  type Scanner = (string, Scan) -> Piece

  function ScannerOf(keepStrings: bool): Scanner {
    (rest, s) => if rest == "" then Piece(1, "", s)
      else Piece(Taken(rest, s), Emit(rest, s, keepStrings), Next(rest, s))
  }

  function BlankWith(rest: string, s: Scan, step: Scanner): string
    decreases |rest|
  {
    if rest == "" || step(rest, s).taken == 0 then ""
    else step(rest, s).emitted + BlankWith(Drop(rest, step(rest, s).taken), step(rest, s).next, step)
  }

  function Blank(rest: string, s: Scan, keepStrings: bool): string {
    BlankWith(rest, s, ScannerOf(keepStrings))
  }

  /** The step of the loop at `i`, in code. */
  method StepInCode(source: string, i: nat, s: Scan, keepStrings: bool)
    returns (taken: nat, emitted: string, next: Scan)
    requires i < |source| && s.mode.Code?
    ensures taken == Taken(source[i..], s) && emitted == Emit(source[i..], s, keepStrings)
      && next == Next(source[i..], s)
  {
    var c := source[i];
    taken, emitted, next := 1, [c], s;
    if c == '/' && i + 1 < |source| && source[i + 1] == '/' {
      return 2, "  ", s.(mode := LineComment);
    }
    if c == '/' && i + 1 < |source| && source[i + 1] == '*' {
      return 2, "  ", s.(mode := BlockComment);
    }
    if c == '/' && StartsRegex(s.lastCode) {
      return 1, " ", s.(mode := Regex, inCharClass := false);
    }
    if c == '\'' || c == '"' || c == '`' {
      next := s.(mode := if c == '\'' then SingleQuoted else if c == '"' then DoubleQuoted else Template);
      emitted := if keepStrings then [c] else " ";
      return;
    }
    if !IsSpace(c) {
      next := s.(lastCode := Was(c));
    }
  }

  /** The step of the loop at `i`, in a comment, a literal or a regular expression. */
  method StepOutsideCode(source: string, i: nat, s: Scan, keepStrings: bool)
    returns (taken: nat, emitted: string, next: Scan)
    requires i < |source| && !s.mode.Code?
    ensures taken == Taken(source[i..], s) && emitted == Emit(source[i..], s, keepStrings)
      && next == Next(source[i..], s)
  {
    var c := source[i];
    taken, emitted, next := 1, if c == NL then "\n" else " ", s;
    if s.mode.Regex? {
      if c == '\\' {
        taken, emitted := 2, "  ";
      } else if c == '[' {
        next := s.(inCharClass := true);
      } else if c == ']' {
        next := s.(inCharClass := false);
      } else if c == '/' && !s.inCharClass {
        next := s.(mode := Code, lastCode := Was('/'));
      } else if c == NL {
        next := s.(mode := Code);
      }
    } else if s.mode.LineComment? {
      if c == NL {
        next := s.(mode := Code);
      }
    } else if s.mode.BlockComment? {
      if c == '*' && i + 1 < |source| && source[i + 1] == '/' {
        taken, emitted, next := 2, "  ", s.(mode := Code);
      }
    } else if c == '\\' {
      taken := 2;
      emitted := if keepStrings then source[i..if i + 2 <= |source| then i + 2 else |source|] else "  ";
    } else if IsCloser(s.mode, c) {
      emitted, next := if keepStrings then [c] else " ", s.(mode := Code);
    } else if c != NL && keepStrings {
      emitted := [c];
    }
  }

  method BlankNonCode(source: string, keepStrings: bool) returns (out: string)
    ensures out == Blank(source, START, keepStrings)
  {
    out := "";
    var i, s := 0, START;
    assert source[0..] == source;
    while i < |source|
      invariant 0 <= i <= |source| + 1
      invariant Blank(source, START, keepStrings) == out + Blank(Drop(source, i), s, keepStrings)
      decreases |source| - i
    {
      var taken, emitted, next;
      if s.mode.Code? {
        taken, emitted, next := StepInCode(source, i, s, keepStrings);
      } else {
        taken, emitted, next := StepOutsideCode(source, i, s, keepStrings);
      }
      OneStep(source, i, s, keepStrings, out, taken, emitted, next);
      out, s, i := out + emitted, next, i + taken;
    }
    assert out + "" == out;
  }

  lemma OneStep(source: string, i: nat, s: Scan, keepStrings: bool, before: string, taken: nat, emitted: string,
    next: Scan)
    requires i < |source| && taken == Taken(source[i..], s)
      && emitted == Emit(source[i..], s, keepStrings) && next == Next(source[i..], s)
    ensures before + Blank(Drop(source, i), s, keepStrings)
      == before + emitted + Blank(Drop(source, i + taken), next, keepStrings)
  {
    assert Drop(source[i..], taken) == Drop(source, i + taken);
    var more := Blank(Drop(source, i + taken), next, keepStrings);
    assert before + (emitted + more) == before + emitted + more;
  }

  // ---------------------------------------------------------------- positions survive

  /** The text ends right after a backslash in a literal or a regular expression; or just in the latter. */
  predicate EndsInEscape(rest: string, s: Scan, regexOnly: bool)
    decreases |rest|
  {
    rest != "" &&
    ((IsEscape(rest, s) && |rest| == 1 && (regexOnly ==> s.mode.Regex?))
     || EndsInEscape(Drop(rest, Taken(rest, s)), Next(rest, s), regexOnly))
  }

  /** Somewhere a backslash in a literal or a regular expression takes a newline; or just in the latter. */
  predicate EscapesNewline(rest: string, s: Scan, regexOnly: bool)
    decreases |rest|
  {
    rest != "" &&
    ((IsEscape(rest, s) && |rest| > 1 && rest[1] == NL && (regexOnly ==> s.mode.Regex?))
     || EscapesNewline(Drop(rest, Taken(rest, s)), Next(rest, s), regexOnly))
  }

  /**
   * The code projection is as long as the source exactly when the source does not end in an escape,
   * and one longer when it does. The text projection minds only escapes in regular expressions.
   */
  lemma {:induction false} LengthSurvives(rest: string, s: Scan, keepStrings: bool)
    ensures |Blank(rest, s, keepStrings)| == |rest| + if EndsInEscape(rest, s, keepStrings) then 1 else 0
    decreases |rest|
  {
    if rest != "" {
      LengthSurvives(Drop(rest, Taken(rest, s)), Next(rest, s), keepStrings);
    }
  }

  /** Position by position, a character is itself or blank. */
  ghost predicate Masks(out: string, source: string) {
    |out| >= |source| && forall k :: 0 <= k < |source| ==> out[k] == source[k] || out[k] == ' '
  }

  lemma MasksConcat(a: string, x: string, b: string, y: string)
    requires Masks(x, a) && Masks(y, b) && (|x| == |a| || b == "")
    ensures Masks(x + y, a + b)
  {
  }

  lemma FrontAndRest(rest: string, s: Scan)
    requires rest != ""
    ensures var n := Taken(rest, s);
      rest == (if n <= |rest| then rest[..n] else rest) + Drop(rest, n)
  {
  }

  lemma {:induction false} BlankMasks(rest: string, s: Scan, keepStrings: bool)
    ensures Masks(Blank(rest, s, keepStrings), rest)
    decreases |rest|
  {
    if rest != "" {
      var n := Taken(rest, s);
      BlankMasks(Drop(rest, n), Next(rest, s), keepStrings);
      FrontAndRest(rest, s);
      var front := if n <= |rest| then rest[..n] else rest;
      EmitMasks(rest, s, keepStrings);
      MasksConcat(front, Emit(rest, s, keepStrings), Drop(rest, n), Blank(Drop(rest, n), Next(rest, s), keepStrings));
    }
  }

  lemma EmitMasks(rest: string, s: Scan, keepStrings: bool)
    requires rest != ""
    ensures var n := Taken(rest, s);
      var front := if n <= |rest| then rest[..n] else rest;
      Masks(Emit(rest, s, keepStrings), front) && (n <= |rest| ==> |Emit(rest, s, keepStrings)| == n)
  {
  }

  ghost predicate KeepsNewlines(out: string, source: string)
    requires |out| >= |source|
  {
    forall k :: 0 <= k < |source| ==> (source[k] == NL <==> out[k] == NL)
  }

  lemma KeepsNewlinesConcat(a: string, x: string, b: string, y: string)
    requires |x| == |a| && |y| >= |b|
    ensures KeepsNewlines(x + y, a + b) <==> KeepsNewlines(x, a) && KeepsNewlines(y, b)
  {
    assert forall k :: 0 <= k < |b| ==> (a + b)[|a| + k] == b[k] && (x + y)[|x| + k] == y[k];
    assert forall k :: 0 <= k < |a| ==> (a + b)[k] == a[k] && (x + y)[k] == x[k];
    if KeepsNewlines(x + y, a + b) {
      forall k | 0 <= k < |b| ensures b[k] == NL <==> y[k] == NL {
        assert (a + b)[|a| + k] == NL <==> (x + y)[|a| + k] == NL;
      }
    }
  }

  lemma EmitKeepsNewlines(rest: string, s: Scan, keepStrings: bool)
    requires rest != "" && Taken(rest, s) <= |rest|
    ensures var n := Taken(rest, s);
      |Emit(rest, s, keepStrings)| == n &&
      (KeepsNewlines(Emit(rest, s, keepStrings), rest[..n]) <==>
        !(IsEscape(rest, s) && rest[1] == NL && (keepStrings ==> s.mode.Regex?)))
  {
    var n, out := Taken(rest, s), Emit(rest, s, keepStrings);
    if n == 2 {
      assert rest[..n] == [rest[0], rest[1]];
      assert KeepsNewlines(out, rest[..n]) <==> (rest[0] == NL <==> out[0] == NL) && (rest[1] == NL <==> out[1] == NL);
    }
  }

  /** One step keeps the newlines of what it takes unless it is an escape that takes one. */
  lemma StepKeepsNewlines(rest: string, s: Scan, keepStrings: bool, more: string)
    requires rest != "" && Taken(rest, s) <= |rest| && |more| >= |Drop(rest, Taken(rest, s))|
    ensures |Emit(rest, s, keepStrings) + more| >= |rest|
    ensures KeepsNewlines(Emit(rest, s, keepStrings) + more, rest) <==>
      KeepsNewlines(more, Drop(rest, Taken(rest, s)))
      && !(IsEscape(rest, s) && rest[1] == NL && (keepStrings ==> s.mode.Regex?))
  {
    var n := Taken(rest, s);
    EmitKeepsNewlines(rest, s, keepStrings);
    KeepsNewlinesConcat(rest[..n], Emit(rest, s, keepStrings), Drop(rest, n), more);
    assert rest == rest[..n] + Drop(rest, n);
  }

  lemma LoneBackslash(s: Scan, keepStrings: bool)
    requires IsEscape("\\", s)
    ensures |Blank("\\", s, keepStrings)| >= 1
    ensures KeepsNewlines(Blank("\\", s, keepStrings), "\\") && !EscapesNewline("\\", s, keepStrings)
  {
  }

  /**
   * Newlines stay where they are exactly when no escape takes one: in the text projection, when none
   * in a regular expression does.
   */
  lemma {:induction false} NewlinesSurvive(rest: string, s: Scan, keepStrings: bool)
    ensures |Blank(rest, s, keepStrings)| >= |rest|
    ensures KeepsNewlines(Blank(rest, s, keepStrings), rest) <==> !EscapesNewline(rest, s, keepStrings)
    decreases |rest|
  {
    if rest != "" {
      var n, next := Taken(rest, s), Next(rest, s);
      if n <= |rest| {
        NewlinesSurvive(Drop(rest, n), next, keepStrings);
        StepKeepsNewlines(rest, s, keepStrings, Blank(Drop(rest, n), next, keepStrings));
      } else {
        assert rest == "\\";
        LoneBackslash(s, keepStrings);
      }
    }
  }

  /** Where the code projection is not blank, the text projection shows the same character. */
  ghost predicate InLockstep(code: string, text: string, n: nat)
    requires n <= |code| && n <= |text|
  {
    forall k :: 0 <= k < n ==> code[k] != ' ' ==> text[k] == code[k]
  }

  lemma InLockstepConcat(a: string, b: string, x: string, y: string, m: nat, n: nat)
    requires |a| == |x| == m && n <= |b| && n <= |y|
    requires InLockstep(a, x, m) && InLockstep(b, y, n)
    ensures InLockstep(a + b, x + y, m + n)
  {
    forall k | 0 <= k < m + n && (a + b)[k] != ' ' ensures (x + y)[k] == (a + b)[k] {
      if k >= m {
        assert (a + b)[k] == b[k - m] && (x + y)[k] == y[k - m];
      }
    }
  }

  /** The two projections never disagree about code, so a position found in one can be read in the other. */
  lemma {:induction false} ProjectionsAgree(rest: string, s: Scan)
    ensures |Blank(rest, s, false)| >= |rest| && |Blank(rest, s, true)| >= |rest|
    ensures InLockstep(Blank(rest, s, false), Blank(rest, s, true), |rest|)
    decreases |rest|
  {
    LengthSurvives(rest, s, false);
    LengthSurvives(rest, s, true);
    if rest != "" {
      var n := Taken(rest, s);
      var tail, next := Drop(rest, n), Next(rest, s);
      ProjectionsAgree(tail, next);
      EmitsAgree(rest, s);
      if n <= |rest| {
        EmitMasks(rest, s, false);
        EmitMasks(rest, s, true);
        InLockstepConcat(
          Emit(rest, s, false), Blank(tail, next, false), Emit(rest, s, true), Blank(tail, next, true), n, |tail|);
      }
    }
  }

  lemma EmitsAgree(rest: string, s: Scan)
    requires rest != ""
    ensures var code, text := Emit(rest, s, false), Emit(rest, s, true);
      forall k :: 0 <= k < |code| && k < |text| && code[k] != ' ' ==> text[k] == code[k]
    ensures |Emit(rest, s, true)| > 0 && |Emit(rest, s, false)| > 0
  {
  }

  // ---------------------------------------------------------------- line numbers survive

  /** Two texts of one length with newlines in the same places have lines of the same lengths. */
  lemma {:induction false} SameLines(a: string, b: string)
    requires |a| == |b| && KeepsNewlines(b, a)
    ensures |Split(a)| == |Split(b)|
    ensures forall k :: 0 <= k < |Split(a)| ==> |Split(a)[k]| == |Split(b)[k]|
  {
    if a != "" {
      KeepsTail(a, b);
      SameLines(a[1..], b[1..]);
      SameFirst(a, b);
    }
  }

  lemma KeepsTail(a: string, b: string)
    requires |a| == |b| > 0 && KeepsNewlines(b, a)
    ensures KeepsNewlines(b[1..], a[1..])
  {
    assert forall k :: 0 <= k < |a[1..]| ==> a[1..][k] == a[k + 1] && b[1..][k] == b[k + 1];
  }

  predicate SameLengths(a: seq<string>, b: seq<string>) {
    |a| == |b| && forall k :: 0 <= k < |a| ==> |a[k]| == |b[k]|
  }

  lemma SameFirst(a: string, b: string)
    requires |a| == |b| > 0 && (a[0] == NL <==> b[0] == NL) && SameLengths(Split(a[1..]), Split(b[1..]))
    ensures SameLengths(Split(a), Split(b))
  {
  }

  /** A violation's line and column in a projection are its line and column in the source. */
  lemma LineNumbersSurvive(source: string, keepStrings: bool)
    requires !EndsInEscape(source, START, keepStrings) && !EscapesNewline(source, START, keepStrings)
    ensures var out := Blank(source, START, keepStrings);
      && |Split(out)| == |Split(source)|
      && forall k :: 0 <= k < |Split(source)| ==> |Split(out)[k]| == |Split(source)[k]|
  {
    LengthSurvives(source, START, keepStrings);
    NewlinesSurvive(source, START, keepStrings);
    SameLines(source, Blank(source, START, keepStrings));
  }

  /** No backslash stands directly before a newline or the end of the source. */
  predicate NoLineEndsInBackslash(source: string) {
    forall k :: 0 <= k < |source| && source[k] == '\\' ==> k + 1 < |source| && source[k + 1] != NL
  }

  lemma {:induction false} NoEscapeReachesALineEnd(rest: string, s: Scan, regexOnly: bool)
    requires NoLineEndsInBackslash(rest)
    ensures !EndsInEscape(rest, s, regexOnly) && !EscapesNewline(rest, s, regexOnly)
    decreases |rest|
  {
    if rest != "" {
      var n := Taken(rest, s);
      assert forall k :: 0 <= k < |Drop(rest, n)| ==> Drop(rest, n)[k] == rest[n + k];
      NoEscapeReachesALineEnd(Drop(rest, n), Next(rest, s), regexOnly);
    }
  }

  /** What can be seen without scanning: without such a backslash, no position moves in either projection. */
  lemma PositionsSurvive(source: string, keepStrings: bool)
    requires NoLineEndsInBackslash(source)
    ensures var out := Blank(source, START, keepStrings);
      && |out| == |source| && KeepsNewlines(out, source)
      && |Split(out)| == |Split(source)|
      && forall k :: 0 <= k < |Split(source)| ==> |Split(out)[k]| == |Split(source)[k]|
  {
    NoEscapeReachesALineEnd(source, START, keepStrings);
    LengthSurvives(source, START, keepStrings);
    NewlinesSurvive(source, START, keepStrings);
    LineNumbersSurvive(source, keepStrings);
  }

  // ---------------------------------------------------------------- what is kept and what is blanked

  predicate IsPlain(c: char) {
    c != '/' && !IsQuoteMark(c)
  }

  ghost predicate AllPlain(text: string) {
    forall k :: 0 <= k < |text| ==> IsPlain(text[k])
  }

  /** The last character of a text that is not white space, or `before` if there is none. */
  function LastSolid(text: string, before: LastCode): LastCode
    decreases |text|
  {
    if text == "" then before else LastSolid(text[1..], if IsSpace(text[0]) then before else Was(text[0]))
  }

  function Spaces(n: nat): (r: string)
    ensures |r| == n
  {
    if n == 0 then "" else " " + Spaces(n - 1)
  }

  /** One character scanned and written on its own. */
  lemma OneChar(c: char, rest: string, s: Scan, keepStrings: bool)
    requires Taken([c] + rest, s) == 1
    ensures Blank([c] + rest, s, keepStrings)
      == Emit([c] + rest, s, keepStrings) + Blank(rest, Next([c] + rest, s), keepStrings)
  {
    assert Drop([c] + rest, 1) == rest;
  }

  lemma SolidStep(c: char, more: string, before: LastCode)
    ensures LastSolid([c] + more, before) == LastSolid(more, LastSolid([c], before))
  {
    assert ([c] + more)[1..] == more && [c][1..] == "";
  }

  /** One plain character in code. */
  lemma PlainStep(c: char, rest: string, s: Scan, keepStrings: bool)
    requires s.mode.Code? && IsPlain(c)
    ensures Blank([c] + rest, s, keepStrings)
      == [c] + Blank(rest, s.(lastCode := LastSolid([c], s.lastCode)), keepStrings)
  {
    OneChar(c, rest, s, keepStrings);
    assert [c][1..] == "";
  }

  /** `step` keeps plain characters in code. */
  ghost predicate KeepsPlain(step: Scanner) {
    forall c, rest, s :: KeepsOne(step, c, rest, s)
  }

  ghost predicate KeepsOne(step: Scanner, c: char, rest: string, s: Scan) {
    s.mode.Code? && IsPlain(c) ==>
      BlankWith([c] + rest, s, step) == [c] + BlankWith(rest, s.(lastCode := LastSolid([c], s.lastCode)), step)
  }

  lemma {:induction false} PlainRun(code: string, rest: string, s: Scan, step: Scanner)
    requires KeepsPlain(step) && s.mode.Code? && AllPlain(code)
    ensures BlankWith(code + rest, s, step) == code + BlankWith(rest, s.(lastCode := LastSolid(code, s.lastCode)), step)
    decreases |code|
  {
    if code == "" {
      assert code + rest == rest;
    } else {
      var c, more := code[0], code[1..];
      var next := s.(lastCode := LastSolid([c], s.lastCode));
      assert code == [c] + more;
      Regroup([c], more, rest);
      assert KeepsOne(step, c, more + rest, s);
      PlainRun(more, rest, next, step);
      SolidStep(c, more, s.lastCode);
      Regroup([c], more, BlankWith(rest, s.(lastCode := LastSolid(code, s.lastCode)), step));
    }
  }

  /** Code without slashes or quotes is kept character for character, in both projections. */
  lemma PlainCodeIsKept(code: string, rest: string, s: Scan, keepStrings: bool)
    requires s.mode.Code? && AllPlain(code)
    ensures Blank(code + rest, s, keepStrings)
      == code + Blank(rest, s.(lastCode := LastSolid(code, s.lastCode)), keepStrings)
  {
    var step := ScannerOf(keepStrings);
    forall c, more, t
      ensures KeepsOne(step, c, more, t)
    {
      if t.mode.Code? && IsPlain(c) {
        PlainStep(c, more, t, keepStrings);
      }
    }
    PlainRun(code, rest, s, step);
  }

  /** Text that is kept, or blanked out. */
  function Kept(text: string, keep: bool): (r: string)
    ensures |r| == |text|
  {
    if keep then text else Spaces(|text|)
  }

  lemma KeptConcat(c: char, text: string, keep: bool, more: string)
    ensures Kept([c], keep) + (Kept(text, keep) + more) == Kept([c] + text, keep) + more
  {
    assert Spaces(1) == " " + Spaces(0);
    assert !keep ==> Kept([c] + text, keep) == " " + Spaces(|text|);
  }

  /** A stretch of text that is scanned character by character with no change of state. */
  lemma {:induction false} SteadyText(text: string, rest: string, s: Scan, step: Scanner, keep: bool)
    requires forall c, more :: c in text ==> step([c] + more, s) == Piece(1, Kept([c], keep), s)
    ensures BlankWith(text + rest, s, step) == Kept(text, keep) + BlankWith(rest, s, step)
    decreases |text|
  {
    if text == "" {
      assert text + rest == rest;
    } else {
      var c, more := text[0], text[1..] + rest;
      SteadyText(text[1..], rest, s, step, keep);
      assert text + rest == [c] + more && text == [c] + text[1..];
      assert step([c] + more, s) == Piece(1, Kept([c], keep), s);
      assert Drop([c] + more, 1) == more;
      KeptConcat(c, text[1..], keep, BlankWith(rest, s, step));
    }
  }

  lemma CommentTextIsBlanked(text: string, rest: string, s: Scan, keepStrings: bool)
    requires s.mode.LineComment? && NL !in text
    ensures Blank(text + rest, s, keepStrings) == Kept(text, false) + Blank(rest, s, keepStrings)
  {
    var step := ScannerOf(keepStrings);
    forall c, more | c in text ensures step([c] + more, s) == Piece(1, Kept([c], false), s) {
      assert Spaces(1) == " " + Spaces(0);
    }
    SteadyText(text, rest, s, step, false);
  }

  lemma CommentOpens(rest: string, s: Scan, keepStrings: bool)
    requires s.mode.Code?
    ensures Blank("//" + rest, s, keepStrings) == "  " + Blank(rest, s.(mode := LineComment), keepStrings)
  {
    assert Drop("//" + rest, 2) == rest;
  }

  lemma CommentCloses(rest: string, s: Scan, keepStrings: bool)
    requires s.mode.Code?
    ensures Blank([NL] + rest, s.(mode := LineComment), keepStrings) == [NL] + Blank(rest, s, keepStrings)
  {
    OneChar(NL, rest, s.(mode := LineComment), keepStrings);
    assert s.(mode := LineComment).(mode := Code) == s;
  }

  /** A line comment is blank to the end of its line, and code goes on as before it. */
  lemma LineCommentIsBlanked(text: string, rest: string, s: Scan, keepStrings: bool)
    requires s.mode.Code? && NL !in text
    ensures Blank("//" + (text + ([NL] + rest)), s, keepStrings)
      == "  " + (Spaces(|text|) + ([NL] + Blank(rest, s, keepStrings)))
  {
    CommentOpens(text + ([NL] + rest), s, keepStrings);
    CommentTextIsBlanked(text, [NL] + rest, s.(mode := LineComment), keepStrings);
    CommentCloses(rest, s, keepStrings);
  }

  function QuoteOf(mode: Mode): char
    requires IsLiteral(mode)
  {
    match mode
    case SingleQuoted => '\''
    case DoubleQuoted => '"'
    case Template => '`'
  }

  lemma OneStepOf(c: char, rest: string, s: Scan, step: Scanner, next: Scan, emitted: string)
    requires step([c] + rest, s) == Piece(1, emitted, next)
    ensures BlankWith([c] + rest, s, step) == emitted + BlankWith(rest, next, step)
  {
    assert Drop([c] + rest, 1) == rest;
  }

  lemma LiteralOpens(rest: string, s: Scan, mode: Mode, keepStrings: bool)
    requires s.mode.Code? && IsLiteral(mode)
    ensures Blank([QuoteOf(mode)] + rest, s, keepStrings)
      == Kept([QuoteOf(mode)], keepStrings) + Blank(rest, s.(mode := mode), keepStrings)
  {
    assert Spaces(1) == " " + Spaces(0);
    OneStepOf(QuoteOf(mode), rest, s, ScannerOf(keepStrings), s.(mode := mode), Kept([QuoteOf(mode)], keepStrings));
  }

  lemma LiteralCloses(rest: string, s: Scan, mode: Mode, keepStrings: bool)
    requires s.mode.Code? && IsLiteral(mode)
    ensures Blank([QuoteOf(mode)] + rest, s.(mode := mode), keepStrings)
      == Kept([QuoteOf(mode)], keepStrings) + Blank(rest, s, keepStrings)
  {
    assert Spaces(1) == " " + Spaces(0);
    assert s.(mode := mode).(mode := Code) == s;
    OneStepOf(QuoteOf(mode), rest, s.(mode := mode), ScannerOf(keepStrings), s, Kept([QuoteOf(mode)], keepStrings));
  }

  /** A blank for each character, and line breaks kept. */
  function Masked(text: string): (r: string)
    ensures |r| == |text|
  {
    if text == "" then "" else [if text[0] == NL then NL else ' '] + Masked(text[1..])
  }

  lemma TwoStepOf(c: char, d: char, rest: string, s: Scan, step: Scanner, next: Scan, emitted: string)
    requires step([c, d] + rest, s) == Piece(2, emitted, next)
    ensures BlankWith([c, d] + rest, s, step) == emitted + BlankWith(rest, next, step)
  {
    assert Drop([c, d] + rest, 2) == rest;
  }

  /** Where a slash cannot start an expression it is code, unless it opens a comment. */
  lemma DivisionIsKept(rest: string, s: Scan, keepStrings: bool)
    requires s.mode.Code? && !StartsRegex(s.lastCode) && (rest == "" || (rest[0] != '/' && rest[0] != '*'))
    ensures Blank("/" + rest, s, keepStrings) == "/" + Blank(rest, s.(lastCode := Was('/')), keepStrings)
  {
    assert rest != "" ==> (['/'] + rest)[1] == rest[0];
    OneStepOf('/', rest, s, ScannerOf(keepStrings), s.(lastCode := Was('/')), "/");
  }

  // ---------------------------------------------------------------- literals with escapes

  /** What may stand between two quotes: no bare quote, and every backslash with a character after it. */
  predicate IsLiteralBody(text: string, quote: char)
    decreases |text|
  {
    text == ""
    || (text[0] == '\\' && |text| >= 2 && IsLiteralBody(text[2..], quote))
    || (text[0] != '\\' && text[0] != quote && IsLiteralBody(text[1..], quote))
  }

  /** The body in a projection: kept as it is, or blanked; an escape is two blanks whatever it is of. */
  function BodyIn(text: string, keep: bool): string
    decreases |text|
  {
    if keep || text == "" then text
    else if text[0] == '\\' && |text| >= 2 then "  " + BodyIn(text[2..], keep)
    else [if text[0] == NL then NL else ' '] + BodyIn(text[1..], keep)
  }

  lemma LiteralEscape(d: char, rest: string, s: Scan, keepStrings: bool)
    requires IsLiteral(s.mode)
    ensures Blank(['\\', d] + rest, s, keepStrings)
      == (if keepStrings then ['\\', d] else "  ") + Blank(rest, s, keepStrings)
  {
    var front := ['\\', d] + rest;
    assert front[..2] == ['\\', d] && front[0] == '\\';
    TwoStepOf('\\', d, rest, s, ScannerOf(keepStrings), s, if keepStrings then ['\\', d] else "  ");
  }

  lemma LiteralChar(c: char, rest: string, s: Scan, keepStrings: bool)
    requires IsLiteral(s.mode) && c != '\\' && c != QuoteOf(s.mode)
    ensures Blank([c] + rest, s, keepStrings)
      == [if keepStrings || c == NL then c else ' '] + Blank(rest, s, keepStrings)
  {
    OneStepOf(c, rest, s, ScannerOf(keepStrings), s, [if keepStrings || c == NL then c else ' ']);
  }

  lemma {:induction false} LiteralText(text: string, rest: string, s: Scan, keepStrings: bool)
    requires IsLiteral(s.mode) && IsLiteralBody(text, QuoteOf(s.mode))
    ensures Blank(text + rest, s, keepStrings) == BodyIn(text, keepStrings) + Blank(rest, s, keepStrings)
    decreases |text|
  {
    if text == "" {
      assert text + rest == rest;
    } else {
      var n := if text[0] == '\\' then 2 else 1;
      var more, front := text[n..], text[..n];
      LiteralText(more, rest, s, keepStrings);
      assert text == front + more;
      Regroup(front, more, rest);
      if n == 2 {
        assert front == ['\\', text[1]];
        LiteralEscape(text[1], more + rest, s, keepStrings);
      } else {
        assert front == [text[0]];
        LiteralChar(text[0], more + rest, s, keepStrings);
      }
      BodyFront(text, n, keepStrings);
      Regroup(BodyIn(front, keepStrings), BodyIn(more, keepStrings), Blank(rest, s, keepStrings));
    }
  }

  lemma BodyFront(text: string, n: nat, keep: bool)
    requires text != "" && n == (if text[0] == '\\' then 2 else 1) && n <= |text|
    ensures BodyIn(text, keep) == BodyIn(text[..n], keep) + BodyIn(text[n..], keep)
    ensures BodyIn(text[..n], keep)
      == if keep then text[..n] else if n == 2 then "  " else [if text[0] == NL then NL else ' ']
  {
    var front := text[..n];
    assert text == front + text[n..] && front[n..] == "";
    assert n == 1 ==> front[1..] == "";
    assert n == 2 ==> front[2..] == "";
  }

  /** A string is blanked, quotes and all, in the code projection, and kept whole in the text one. */
  lemma LiteralIsBlankedOrKept(text: string, rest: string, s: Scan, mode: Mode, keepStrings: bool)
    requires s.mode.Code? && IsLiteral(mode) && IsLiteralBody(text, QuoteOf(mode))
    ensures var q := [QuoteOf(mode)];
      Blank(q + (text + (q + rest)), s, keepStrings)
        == Kept(q, keepStrings) + (BodyIn(text, keepStrings) + (Kept(q, keepStrings) + Blank(rest, s, keepStrings)))
  {
    var q := [QuoteOf(mode)];
    LiteralOpens(text + (q + rest), s, mode, keepStrings);
    LiteralText(text, q + rest, s.(mode := mode), keepStrings);
    LiteralCloses(rest, s, mode, keepStrings);
  }

  // ---------------------------------------------------------------- block comments

  /** The text does not close a block comment. */
  predicate KeepsOpen(text: string) {
    forall k :: 0 <= k < |text| - 1 ==> !(text[k] == '*' && text[k + 1] == '/')
  }

  lemma {:induction false} BlockText(text: string, rest: string, s: Scan, keepStrings: bool)
    requires s.mode.BlockComment? && KeepsOpen(text)
    ensures Blank(text + ("*/" + rest), s, keepStrings) == Masked(text) + Blank("*/" + rest, s, keepStrings)
    decreases |text|
  {
    var tail := "*/" + rest;
    if text == "" {
      assert text + tail == tail;
    } else {
      var c, more := text[0], text[1..];
      assert forall k :: 0 <= k < |more| ==> more[k] == text[k + 1];
      BlockText(more, rest, s, keepStrings);
      assert text == [c] + more;
      Regroup([c], more, tail);
      assert more != "" ==> text[1] == more[0] == (more + tail)[0];
      BlockChar(c, more + tail, s, keepStrings);
      Regroup([if c == NL then NL else ' '], Masked(more), Blank(tail, s, keepStrings));
    }
  }

  lemma BlockChar(c: char, rest: string, s: Scan, keepStrings: bool)
    requires s.mode.BlockComment? && !(c == '*' && rest != "" && rest[0] == '/')
    ensures Blank([c] + rest, s, keepStrings) == [if c == NL then NL else ' '] + Blank(rest, s, keepStrings)
  {
    assert rest != "" ==> ([c] + rest)[1] == rest[0];
    OneStepOf(c, rest, s, ScannerOf(keepStrings), s, [if c == NL then NL else ' ']);
  }

  lemma BlockEnds(rest: string, s: Scan, keepStrings: bool)
    requires s.mode.Code?
    ensures Blank("/*" + rest, s, keepStrings) == "  " + Blank(rest, s.(mode := BlockComment), keepStrings)
    ensures Blank("*/" + rest, s.(mode := BlockComment), keepStrings) == "  " + Blank(rest, s, keepStrings)
  {
    assert s.(mode := BlockComment).(mode := Code) == s;
    TwoStepOf('/', '*', rest, s, ScannerOf(keepStrings), s.(mode := BlockComment), "  ");
    TwoStepOf('*', '/', rest, s.(mode := BlockComment), ScannerOf(keepStrings), s, "  ");
    assert ['/', '*'] + rest == "/*" + rest && ['*', '/'] + rest == "*/" + rest;
  }

  /** A block comment is blank to its first closing mark, line breaks kept, and code goes on as before it. */
  lemma BlockCommentIsBlanked(text: string, rest: string, s: Scan, keepStrings: bool)
    requires s.mode.Code? && KeepsOpen(text)
    ensures Blank("/*" + (text + ("*/" + rest)), s, keepStrings)
      == "  " + (Masked(text) + ("  " + Blank(rest, s, keepStrings)))
  {
    BlockEnds(text + ("*/" + rest), s, keepStrings);
    BlockText(text, rest, s.(mode := BlockComment), keepStrings);
    BlockEnds(rest, s, keepStrings);
  }

  // ---------------------------------------------------------------- regular expressions

  /** Whether the pattern is inside a character class after `text`; nothing if it has ended, or breaks off, before. */
  function ClassAfter(text: string, inClass: bool): Option<bool>
    decreases |text|
  {
    if text == "" then Some(inClass)
    else if text[0] == '\\' then (if |text| >= 2 then ClassAfter(text[2..], inClass) else None)
    else if text[0] == NL || (text[0] == '/' && !inClass) then None
    else ClassAfter(text[1..], if text[0] == '[' then true else if text[0] == ']' then false else inClass)
  }

  function ClassNow(c: char, inClass: bool): bool {
    if c == '[' then true else if c == ']' then false else inClass
  }

  function InRegex(last: LastCode, inClass: bool): Scan {
    Scan(Regex, last, inClass)
  }

  lemma RegexEscape(d: char, rest: string, last: LastCode, inClass: bool, keepStrings: bool)
    ensures Blank(['\\', d] + rest, InRegex(last, inClass), keepStrings)
      == "  " + Blank(rest, InRegex(last, inClass), keepStrings)
  {
    var front := ['\\', d] + rest;
    assert front[0] == '\\';
    TwoStepOf('\\', d, rest, InRegex(last, inClass), ScannerOf(keepStrings), InRegex(last, inClass), "  ");
  }

  lemma RegexChar(c: char, rest: string, last: LastCode, inClass: bool, keepStrings: bool)
    requires c != '\\' && c != NL && (c == '/' ==> inClass)
    ensures Blank([c] + rest, InRegex(last, inClass), keepStrings)
      == " " + Blank(rest, InRegex(last, ClassNow(c, inClass)), keepStrings)
  {
    OneStepOf(c, rest, InRegex(last, inClass), ScannerOf(keepStrings), InRegex(last, ClassNow(c, inClass)), " ");
  }

  lemma MoreSpaces(n: nat, out: string)
    ensures " " + (Spaces(n) + out) == Spaces(n + 1) + out
    ensures "  " + (Spaces(n) + out) == Spaces(n + 2) + out
  {
    assert Spaces(n + 1) == " " + Spaces(n);
    assert Spaces(n + 2) == " " + Spaces(n + 1) == "  " + Spaces(n);
  }

  lemma {:induction false} RegexText(text: string, rest: string, last: LastCode, inClass: bool, end: bool,
    keepStrings: bool)
    requires ClassAfter(text, inClass) == Some(end)
    ensures Blank(text + rest, InRegex(last, inClass), keepStrings)
      == Spaces(|text|) + Blank(rest, InRegex(last, end), keepStrings)
    decreases |text|
  {
    if text == "" {
      assert text + rest == rest;
    } else {
      var n := if text[0] == '\\' then 2 else 1;
      var front, more := text[..n], text[n..];
      var now := if n == 2 then inClass else ClassNow(text[0], inClass);
      RegexText(more, rest, last, now, end, keepStrings);
      assert text == front + more;
      Regroup(front, more, rest);
      if n == 2 {
        assert front == ['\\', text[1]];
        RegexEscape(text[1], more + rest, last, inClass, keepStrings);
      } else {
        assert front == [text[0]];
        RegexChar(text[0], more + rest, last, inClass, keepStrings);
      }
      MoreSpaces(|more|, Blank(rest, InRegex(last, end), keepStrings));
    }
  }

  lemma RegexOpens(c: char, rest: string, s: Scan, keepStrings: bool)
    requires s.mode.Code? && StartsRegex(s.lastCode) && c != '/' && c != '*'
    ensures Blank("/" + ([c] + rest), s, keepStrings)
      == " " + Blank([c] + rest, InRegex(s.lastCode, false), keepStrings)
  {
    var more := [c] + rest;
    assert (['/'] + more)[1] == c;
    OneStepOf('/', more, s, ScannerOf(keepStrings), InRegex(s.lastCode, false), " ");
  }

  lemma RegexCloses(rest: string, last: LastCode, keepStrings: bool)
    ensures Blank("/" + rest, InRegex(last, false), keepStrings)
      == " " + Blank(rest, Scan(Code, Was('/'), false), keepStrings)
  {
    OneStepOf('/', rest, InRegex(last, false), ScannerOf(keepStrings), Scan(Code, Was('/'), false), " ");
  }

  /**
   * Where a slash can start an expression, everything to the slash that ends it is blanked, in both
   * projections; one in a character class or behind a backslash does not end it. Code goes on behind it.
   */
  lemma RegexIsBlanked(text: string, rest: string, s: Scan, keepStrings: bool)
    requires s.mode.Code? && StartsRegex(s.lastCode)
    requires text != "" && text[0] != '/' && text[0] != '*' && ClassAfter(text, false) == Some(false)
    ensures Blank("/" + (text + ("/" + rest)), s, keepStrings)
      == " " + (Spaces(|text|) + (" " + Blank(rest, Scan(Code, Was('/'), false), keepStrings)))
  {
    var tail := "/" + rest;
    assert text == [text[0]] + text[1..];
    Regroup([text[0]], text[1..], tail);
    RegexOpens(text[0], text[1..] + tail, s, keepStrings);
    RegexText(text, tail, s.lastCode, false, false, keepStrings);
    RegexCloses(rest, s.lastCode, keepStrings);
  }

  lemma RegexBreaksOff(rest: string, last: LastCode, inClass: bool, keepStrings: bool)
    ensures Blank([NL] + rest, InRegex(last, inClass), keepStrings)
      == [NL] + Blank(rest, Scan(Code, last, inClass), keepStrings)
  {
    OneStepOf(NL, rest, InRegex(last, inClass), ScannerOf(keepStrings), Scan(Code, last, inClass), [NL]);
  }

  /** One that does not end on its line was none: the line is blanked, and code goes on with the next. */
  lemma OpenRegexEndsWithItsLine(text: string, rest: string, s: Scan, end: bool, keepStrings: bool)
    requires s.mode.Code? && StartsRegex(s.lastCode)
    requires text != "" && text[0] != '/' && text[0] != '*' && ClassAfter(text, false) == Some(end)
    ensures Blank("/" + (text + ([NL] + rest)), s, keepStrings)
      == " " + (Spaces(|text|) + ([NL] + Blank(rest, Scan(Code, s.lastCode, end), keepStrings)))
  {
    var tail := [NL] + rest;
    assert text == [text[0]] + text[1..];
    Regroup([text[0]], text[1..], tail);
    RegexOpens(text[0], text[1..] + tail, s, keepStrings);
    RegexText(text, tail, s.lastCode, false, end, keepStrings);
    RegexBreaksOff(rest, s.lastCode, end, keepStrings);
  }
}
