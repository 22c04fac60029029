/**
 * The editor's lines, row and column refine one text with one cursor in it.
 *
 * `Flat` is the obvious buffer: what stands before the cursor and what stands after it. Every
 * editing and motion key is described there without lines, and `KeyRefinesFlat` shows that
 * `ApplyKey` on lines does the same thing.
 */
module FlatBuffer {
  import opened Strings
  import opened Lines
  import opened EditorState

  datatype Flat = Flat(before: string, after: string)

  // ---------------------------------------------------------------- abstraction

  function BeforeLines(s: State): (r: seq<string>)
    requires InText(s.lines, s.row, s.col)
    ensures r != []
  {
    s.lines[..s.row] + [LineOf(s)[..s.col]]
  }

  function AfterLines(s: State): (r: seq<string>)
    requires InText(s.lines, s.row, s.col)
    ensures r != []
  {
    [LineOf(s)[s.col..]] + s.lines[s.row + 1..]
  }

  function FlatOf(s: State): Flat
    requires InText(s.lines, s.row, s.col)
  {
    Flat(Join(BeforeLines(s)), Join(AfterLines(s)))
  }

  /** No newline inside a line, a kill or a candidate, now or in any snapshot. */
  ghost predicate CleanState(s: State) {
    && Clean(s.lines)
    && NL !in s.killRing
    && Clean(s.menu)
    && (forall k :: 0 <= k < |s.undo| ==> Clean(s.undo[k].lines))
    && (forall k :: 0 <= k < |s.redo| ==> Clean(s.redo[k].lines))
  }

  ghost predicate CleanHost(host: Host) {
    forall text :: Clean(host.complete(text))
  }

  // ---------------------------------------------------------------- joining at a seam

  lemma {:induction false} JoinConcat(xs: seq<string>, ys: seq<string>)
    requires xs != [] && ys != []
    ensures Join(xs + ys) == Join(xs) + [NL] + Join(ys)
  {
    if |xs| == 1 {
      assert (xs + ys)[1..] == ys;
    } else {
      assert (xs + ys)[1..] == xs[1..] + ys;
      JoinConcat(xs[1..], ys);
      assert xs[0] + [NL] + (Join(xs[1..]) + [NL] + Join(ys)) == xs[0] + [NL] + Join(xs[1..]) + [NL] + Join(ys);
    }
  }

  lemma JoinLongerLast(xs: seq<string>, a: string, b: string)
    ensures Join(xs + [a + b]) == Join(xs + [a]) + b
  {
    JoinGlue(xs + [a], [b]);
    assert Glue(xs + [a], [b]) == xs + [a + b];
  }

  lemma JoinLongerFirst(a: string, b: string, ys: seq<string>)
    ensures Join([a + b] + ys) == a + Join([b] + ys)
  {
    JoinGlue([a], [b] + ys);
    assert Glue([a], [b] + ys) == [a + b] + ys;
  }

  lemma JoinOpenLine(xs: seq<string>)
    requires xs != []
    ensures Join(xs + [""]) == Join(xs) + [NL]
  {
    JoinConcat(xs, [""]);
  }

  /** The abstraction loses nothing: both sides of the cursor give the text, and the lines back. */
  lemma FlatIsExact(s: State)
    requires InText(s.lines, s.row, s.col)
    ensures FlatOf(s).before + FlatOf(s).after == TextOf(s)
    ensures Clean(s.lines) ==> Split(FlatOf(s).before) == BeforeLines(s) && Split(FlatOf(s).after) == AfterLines(s)
  {
    var b, a := BeforeLines(s), AfterLines(s);
    JoinGlue(b, a);
    PartsGlue(s);
    if Clean(s.lines) {
      SplitJoin(b);
      SplitJoin(a);
    }
  }

  lemma PartsGlue(s: State)
    requires InText(s.lines, s.row, s.col)
    ensures Glue(BeforeLines(s), AfterLines(s)) == s.lines
  {
    var b, a := BeforeLines(s), AfterLines(s);
    assert Init(b) == s.lines[..s.row] && a[1..] == s.lines[s.row + 1..];
    assert Last(b) + a[0] == LineOf(s);
  }

  /** Lines, row and column read back from the flat view. */
  lemma SnapOfFlat(s: State)
    requires InText(s.lines, s.row, s.col) && Clean(s.lines)
    ensures var b, a := Split(FlatOf(s).before), Split(FlatOf(s).after);
      s.lines == Glue(b, a) && s.row == |b| - 1 && s.col == |Last(b)|
  {
    FlatIsExact(s);
    PartsGlue(s);
  }

  /** Two clean buffers with the same flat view are the same lines, row and column. */
  lemma FlatDetermines(s: State, t: State)
    requires InText(s.lines, s.row, s.col) && InText(t.lines, t.row, t.col)
    requires Clean(s.lines) && Clean(t.lines)
    requires FlatOf(s) == FlatOf(t)
    ensures Snap(s) == Snap(t)
  {
    SnapOfFlat(s);
    SnapOfFlat(t);
  }

  // ---------------------------------------------------------------- the flat operations

  /** The part of the cursor's line that is before the cursor. */
  function LineTail(f: Flat): (r: string)
    ensures |r| <= |f.before|
  {
    TailIsSuffix(f.before);
    Last(Split(f.before))
  }

  /** The part of the cursor's line that is after the cursor. */
  function LineHead(f: Flat): (r: string)
    ensures |r| <= |f.after|
  {
    HeadIsPrefix(f.after);
    Split(f.after)[0]
  }

  /** The line before the cursor is the longest newline-free end of the text before it. */
  lemma TailIsSuffix(text: string)
    ensures var r := Last(Split(text));
      && |r| <= |text| && NL !in r
      && text[|text| - |r|..] == r
      && (|r| == |text| || text[|text| - |r| - 1] == NL)
  {
    var lines := Split(text);
    JoinSplit(text);
    if |lines| > 1 {
      JoinConcat(Init(lines), [Last(lines)]);
      assert Init(lines) + [Last(lines)] == lines;
    }
  }

  /** The line after the cursor is the longest newline-free start of the text after it. */
  lemma HeadIsPrefix(text: string)
    ensures var r := Split(text)[0];
      && |r| <= |text| && NL !in r
      && text[..|r|] == r
      && (|r| == |text| || text[|r|] == NL)
  {
    JoinSplit(text);
  }

  /** The cursor moved `n` characters towards the start. */
  function MoveBack(f: Flat, n: nat): Flat
    requires n <= |f.before|
  {
    Flat(f.before[..|f.before| - n], f.before[|f.before| - n..] + f.after)
  }

  /** The cursor moved `n` characters towards the end. */
  function MoveOn(f: Flat, n: nat): Flat
    requires n <= |f.after|
  {
    Flat(f.before + f.after[..n], f.after[n..])
  }

  function CutBack(f: Flat, n: nat): Flat
    requires n <= |f.before|
  {
    f.(before := f.before[..|f.before| - n])
  }

  function CutOn(f: Flat, n: nat): Flat
    requires n <= |f.after|
  {
    f.(after := f.after[n..])
  }

  /** How far Ctrl-W and word-left reach back: never past the start of the line. */
  function WordBack(f: Flat): (n: nat)
    ensures n <= |LineTail(f)|
  {
    |LineTail(f)| - WordStart(LineTail(f), |LineTail(f)|)
  }

  /** How far word-right reaches: never past the end of the line. */
  function WordOn(f: Flat): (n: nat)
    ensures n <= |LineHead(f)|
  {
    WordEnd(LineHead(f), 0)
  }

  predicate IsFlatKey(key: Key) {
    || key.Text? || key.Newline? || key.Backspace? || key.Delete? || key.Left? || key.Right? || key.Home?
    || key.End? || key.WordLeft? || key.WordRight? || key.KillToEnd? || key.KillToStart? || key.KillWord? || key.Yank?
  }

  function FlatStep(f: Flat, key: Key, killRing: string): Flat
    requires IsFlatKey(key)
  {
    match key
    case Text(t) => f.(before := f.before + t)
    case Newline => f.(before := f.before + [NL])
    case Backspace => if f.before == "" then f else CutBack(f, 1)
    case Delete => if f.after == "" then f else CutOn(f, 1)
    case Left => if f.before == "" then f else MoveBack(f, 1)
    case Right => if f.after == "" then f else MoveOn(f, 1)
    case Home => MoveBack(f, |LineTail(f)|)
    case End => MoveOn(f, |LineHead(f)|)
    case WordLeft => MoveBack(f, WordBack(f))
    case WordRight => MoveOn(f, WordOn(f))
    case KillToEnd => CutOn(f, |LineHead(f)|)
    case KillToStart => CutBack(f, |LineTail(f)|)
    case KillWord => CutBack(f, WordBack(f))
    case Yank => f.(before := f.before + killRing)
  }

  /** What lands in the kill ring. */
  function FlatRing(f: Flat, key: Key, killRing: string): string {
    match key
    case KillToEnd => LineHead(f)
    case KillToStart => LineTail(f)
    case KillWord => f.before[|f.before| - WordBack(f)..]
    case _ => killRing
  }

  /** What the flat operations do to a cursor with `m` just before it, or just after. */
  lemma FlatMoves(p: string, a: string, m: string, z: string, q: string)
    ensures MoveBack(Flat(p + (a + m), z + q), |m|) == Flat(p + a, (m + z) + q)
    ensures MoveOn(Flat(p + a, (m + z) + q), |m|) == Flat(p + (a + m), z + q)
  {
    assert p + (a + m) == (p + a) + m;
    assert (m + z) + q == m + (z + q);
  }

  lemma FlatCuts(p: string, a: string, m: string, n: string, z: string, q: string)
    ensures CutBack(Flat(p + (a + m), (n + z) + q), |m|) == Flat(p + a, (n + z) + q)
    ensures CutOn(Flat(p + a, (n + z) + q), |n|) == Flat(p + a, z + q)
    ensures (p + (a + m))[|p + (a + m)| - |m|..] == m && ((n + z) + q)[..|n|] == n
  {
    assert p + (a + m) == (p + a) + m;
    assert (n + z) + q == n + (z + q);
  }

  // ---------------------------------------------------------------- the refinement, key by key

  lemma LinePartsOfFlat(s: State)
    requires InText(s.lines, s.row, s.col) && Clean(s.lines)
    ensures LineTail(FlatOf(s)) == LineOf(s)[..s.col]
    ensures LineHead(FlatOf(s)) == LineOf(s)[s.col..]
    ensures FlatOf(s).before == Join(s.lines[..s.row] + [""]) + LineOf(s)[..s.col]
    ensures FlatOf(s).after == LineOf(s)[s.col..] + Join([""] + s.lines[s.row + 1..])
  {
    FlatIsExact(s);
    assert Last(BeforeLines(s)) == LineOf(s)[..s.col];
    JoinLongerLast(s.lines[..s.row], "", LineOf(s)[..s.col]);
    assert "" + LineOf(s)[..s.col] == LineOf(s)[..s.col];
    JoinLongerFirst(LineOf(s)[s.col..], "", s.lines[s.row + 1..]);
    assert LineOf(s)[s.col..] + "" == LineOf(s)[s.col..];
  }

  /** The flat view of a state that differs from `s` only in the cursor's own line. */
  lemma FlatOfLine(s: State, t: State, left: string, right: string)
    requires InText(s.lines, s.row, s.col) && t.row == s.row
      && t.lines == s.lines[s.row := left + right] && t.col == |left|
    ensures FlatOf(t).before == Join(s.lines[..s.row] + [""]) + left
    ensures FlatOf(t).after == right + Join([""] + s.lines[s.row + 1..])
  {
    assert LineOf(t)[..t.col] == left == "" + left;
    assert BeforeLines(t) == s.lines[..s.row] + ["" + left];
    JoinLongerLast(s.lines[..s.row], "", left);
    assert LineOf(t)[t.col..] == right == right + "";
    assert AfterLines(t) == [right + ""] + s.lines[s.row + 1..];
    JoinLongerFirst(right, "", s.lines[s.row + 1..]);
  }

  lemma LineTextRefines(s: State, text: string)
    requires Valid(s) && |Split(text)| == 1
    ensures BeforeLines(ApplyText(s, text)) == Glue(BeforeLines(s), Split(text))
    ensures AfterLines(ApplyText(s, text)) == AfterLines(s)
  {
    var t, part := ApplyText(s, text), Split(text)[0];
    var head, tail := LineOf(s)[..s.col], LineOf(s)[s.col..];
    assert LineOf(t)[..t.col] == head + part && LineOf(t)[t.col..] == tail;
  }

  lemma LinesTextIs(s: State, text: string)
    requires Valid(s) && |Split(text)| > 1
    ensures var t, parts := ApplyText(s, text), Split(text);
      && LineOf(t)[..t.col] == Last(parts) && LineOf(t)[t.col..] == LineOf(s)[s.col..]
      && t.lines[..t.row] == s.lines[..s.row] + [LineOf(s)[..s.col] + parts[0]] + parts[1..|parts| - 1]
      && t.lines[t.row + 1..] == s.lines[s.row + 1..]
  {
    var t, parts := ApplyText(s, text), Split(text);
    var ins := Inserted(LineOf(s)[..s.col], parts, LineOf(s)[s.col..]);
    assert t.lines == s.lines[..s.row] + ins + s.lines[s.row + 1..];
    assert LineOf(t) == Last(parts) + LineOf(s)[s.col..];
    assert t.lines[..t.row] == s.lines[..s.row] + ins[..|parts| - 1];
  }

  lemma LinesTextRefines(s: State, text: string)
    requires Valid(s) && |Split(text)| > 1
    ensures BeforeLines(ApplyText(s, text)) == Glue(BeforeLines(s), Split(text))
    ensures AfterLines(ApplyText(s, text)) == AfterLines(s)
  {
    LinesTextIs(s, text);
  }

  lemma TextRefines(s: State, text: string)
    requires Valid(s)
    ensures FlatOf(ApplyText(s, text)) == Flat(FlatOf(s).before + text, FlatOf(s).after)
  {
    JoinSplit(text);
    JoinGlue(BeforeLines(s), Split(text));
    if |Split(text)| == 1 {
      LineTextRefines(s, text);
    } else {
      LinesTextRefines(s, text);
    }
  }

  lemma NewlineRefines(s: State)
    requires Valid(s)
    ensures FlatOf(ApplyNewline(s)) == Flat(FlatOf(s).before + [NL], FlatOf(s).after)
  {
    var t := ApplyNewline(s);
    assert LineOf(t)[..0] == "" && LineOf(t)[0..] == LineOf(s)[s.col..];
    assert BeforeLines(t) == BeforeLines(s) + [""];
    JoinOpenLine(BeforeLines(s));
    assert AfterLines(t) == AfterLines(s);
  }

  /** At the start of a line what precedes the cursor is the lines above and a newline. */
  lemma AtLineStart(s: State)
    requires InText(s.lines, s.row, s.col) && s.col == 0
    ensures s.row == 0 ==> FlatOf(s).before == ""
    ensures s.row > 0 ==> FlatOf(s).before == Join(s.lines[..s.row]) + [NL]
  {
    assert LineOf(s)[..0] == "";
    if s.row > 0 {
      JoinOpenLine(s.lines[..s.row]);
    }
  }

  lemma AtLineEnd(s: State)
    requires InText(s.lines, s.row, s.col) && s.col == |LineOf(s)|
    ensures s.row == |s.lines| - 1 ==> FlatOf(s).after == ""
    ensures s.row < |s.lines| - 1 ==> FlatOf(s).after == [NL] + Join(s.lines[s.row + 1..])
  {
    assert LineOf(s)[s.col..] == "";
    if s.row < |s.lines| - 1 {
      assert AfterLines(s)[1..] == s.lines[s.row + 1..];
    }
  }

  lemma BackspaceRefines(s: State)
    requires Valid(s) && Clean(s.lines)
    ensures FlatOf(ApplyBackspace(s)) == FlatStep(FlatOf(s), Backspace, s.killRing)
  {
    if s.col > 0 {
      BackspaceInLine(s);
    } else {
      AtLineStart(s);
      if s.row > 0 {
        BackspaceJoinsLines(s);
      }
    }
  }

  lemma BackspaceInLine(s: State)
    requires Valid(s) && Clean(s.lines) && s.col > 0
    ensures FlatOf(s).before != ""
    ensures FlatOf(ApplyBackspace(s)) == CutBack(FlatOf(s), 1)
  {
    CutRefines(s, ApplyBackspace(s), s.col - 1, s.col);
    assert CutOn(CutBack(FlatOf(s), 1), 0) == CutBack(FlatOf(s), 1);
  }

  lemma BackspaceJoinsLines(s: State)
    requires Valid(s) && s.col == 0 && s.row > 0
    ensures FlatOf(ApplyBackspace(s)) == Flat(Join(s.lines[..s.row]), FlatOf(s).after)
  {
    var t := ApplyBackspace(s);
    var previous := s.lines[s.row - 1];
    assert LineOf(t) == previous + LineOf(s);
    assert LineOf(t)[..t.col] == previous && LineOf(t)[t.col..] == LineOf(s);
    assert t.lines[..t.row] == s.lines[..t.row];
    assert BeforeLines(t) == s.lines[..s.row];
    assert LineOf(s)[0..] == LineOf(s);
    assert AfterLines(t) == AfterLines(s);
  }

  lemma DeleteRefines(s: State)
    requires Valid(s) && Clean(s.lines)
    ensures FlatOf(ApplyDelete(s)) == FlatStep(FlatOf(s), Delete, s.killRing)
  {
    if s.col < |LineOf(s)| {
      DeleteInLine(s);
    } else {
      AtLineEnd(s);
      if s.row < |s.lines| - 1 {
        DeleteJoinsLines(s);
      }
    }
  }

  lemma DeleteInLine(s: State)
    requires Valid(s) && Clean(s.lines) && s.col < |LineOf(s)|
    ensures FlatOf(s).after != ""
    ensures FlatOf(ApplyDelete(s)) == CutOn(FlatOf(s), 1)
  {
    CutRefines(s, ApplyDelete(s), s.col, s.col + 1);
    assert CutBack(FlatOf(s), 0) == FlatOf(s);
  }

  lemma DeleteJoinsLines(s: State)
    requires Valid(s) && s.col == |LineOf(s)| && s.row < |s.lines| - 1
    ensures FlatOf(ApplyDelete(s)) == Flat(FlatOf(s).before, Join(s.lines[s.row + 1..]))
  {
    var t := ApplyDelete(s);
    assert LineOf(t) == LineOf(s) + s.lines[s.row + 1];
    assert LineOf(t)[..t.col] == LineOf(s)[..s.col] && LineOf(t)[t.col..] == s.lines[s.row + 1];
    assert t.lines[..t.row] == s.lines[..s.row];
    assert BeforeLines(t) == BeforeLines(s);
    assert t.lines[t.row + 1..] == s.lines[s.row + 2..];
    assert AfterLines(t) == s.lines[s.row + 1..];
  }

  /** A move within the line. */
  lemma MoveBackRefines(s: State, t: State)
    requires InText(s.lines, s.row, s.col) && Clean(s.lines) && t.lines == s.lines && t.row == s.row && t.col <= s.col
    ensures s.col - t.col <= |FlatOf(s).before|
    ensures FlatOf(t) == MoveBack(FlatOf(s), s.col - t.col)
  {
    var line := LineOf(s);
    LinePartsOfFlat(s);
    LinePartsOfFlat(t);
    LineInThree(line, t.col, s.col);
    FlatMoves(Join(s.lines[..s.row] + [""]), line[..t.col], line[t.col..s.col], line[s.col..],
      Join([""] + s.lines[s.row + 1..]));
  }

  lemma LineInThree(line: string, m: nat, n: nat)
    requires m <= n <= |line|
    ensures line[..n] == line[..m] + line[m..n] && line[m..] == line[m..n] + line[n..]
  {
  }

  lemma MoveOnRefines(s: State, t: State)
    requires InText(s.lines, s.row, s.col) && Clean(s.lines) && t.lines == s.lines
      && t.row == s.row && s.col <= t.col <= |LineOf(s)|
    ensures t.col - s.col <= |FlatOf(s).after|
    ensures FlatOf(t) == MoveOn(FlatOf(s), t.col - s.col)
  {
    var line := LineOf(s);
    LinePartsOfFlat(s);
    LinePartsOfFlat(t);
    LineInThree(line, s.col, t.col);
    FlatMoves(Join(s.lines[..s.row] + [""]), line[..s.col], line[s.col..t.col], line[t.col..],
      Join([""] + s.lines[s.row + 1..]));
  }

  lemma LeftRefines(s: State)
    requires Valid(s) && Clean(s.lines)
    ensures FlatOf(ApplyLeft(s)) == FlatStep(FlatOf(s), Left, s.killRing)
  {
    var t := ApplyLeft(s);
    if s.col > 0 {
      MoveBackRefines(s, t);
    } else {
      AtLineStart(s);
      if s.row > 0 {
        LeftCrossesLine(s);
      }
    }
  }

  lemma LeftCrossesLine(s: State)
    requires Valid(s) && s.col == 0 && s.row > 0
    ensures FlatOf(ApplyLeft(s)) == Flat(Join(s.lines[..s.row]), [NL] + FlatOf(s).after)
  {
    var t := ApplyLeft(s);
    AtLineEnd(t);
    assert LineOf(t)[..t.col] == LineOf(t);
    assert BeforeLines(t) == s.lines[..s.row];
    assert LineOf(s)[0..] == LineOf(s);
    assert AfterLines(s) == s.lines[s.row..];
  }

  lemma RightRefines(s: State)
    requires Valid(s) && Clean(s.lines)
    ensures FlatOf(ApplyRight(s)) == FlatStep(FlatOf(s), Right, s.killRing)
  {
    var t := ApplyRight(s);
    if s.col < |LineOf(s)| {
      MoveOnRefines(s, t);
    } else {
      AtLineEnd(s);
      if s.row < |s.lines| - 1 {
        RightCrossesLine(s);
      }
    }
  }

  lemma RightCrossesLine(s: State)
    requires Valid(s) && s.col == |LineOf(s)| && s.row < |s.lines| - 1
    ensures FlatOf(ApplyRight(s)) == Flat(FlatOf(s).before + [NL], Join(s.lines[s.row + 1..]))
  {
    var t := ApplyRight(s);
    AtLineStart(t);
    assert LineOf(s)[..s.col] == LineOf(s);
    assert BeforeLines(s) == s.lines[..t.row];
    assert LineOf(t)[0..] == LineOf(t);
    assert AfterLines(t) == s.lines[t.row..];
  }

  /** Text between `from` and `to` around the cursor cut out of its line. */
  lemma CutRefines(s: State, t: State, from: nat, to: nat)
    requires InText(s.lines, s.row, s.col) && Clean(s.lines) && from <= s.col <= to <= |LineOf(s)|
    requires t.row == s.row && t.col == from && t.lines == s.lines[s.row := LineOf(s)[..from] + LineOf(s)[to..]]
    ensures to - s.col <= |FlatOf(s).after| && s.col - from <= |FlatOf(s).before|
    ensures FlatOf(t) == CutOn(CutBack(FlatOf(s), s.col - from), to - s.col)
  {
    var line := LineOf(s);
    LinePartsOfFlat(s);
    FlatOfLine(s, t, line[..from], line[to..]);
    CutLine(line, from, s.col, to, Join(s.lines[..s.row] + [""]), Join([""] + s.lines[s.row + 1..]));
  }

  lemma KillRefines(s: State, from: nat, to: nat)
    requires Valid(s) && Clean(s.lines) && from <= s.col <= to <= |LineOf(s)|
    ensures to - s.col <= |FlatOf(s).after| && s.col - from <= |FlatOf(s).before|
    ensures FlatOf(ApplyKill(s, from, to)) == CutOn(CutBack(FlatOf(s), s.col - from), to - s.col)
  {
    CutRefines(s, ApplyKill(s, from, to), from, to);
  }

  lemma CutLine(line: string, from: nat, at: nat, to: nat, p: string, q: string)
    requires from <= at <= to <= |line|
    ensures CutOn(CutBack(Flat(p + line[..at], line[at..] + q), at - from), to - at)
      == Flat(p + line[..from], line[to..] + q)
  {
    assert line[..at] == line[..from] + line[from..at];
    assert line[at..] == line[at..to] + line[to..];
    FlatCuts(p, line[..from], line[from..at], line[at..to], line[to..], q);
  }

  lemma YankOnLine(s: State)
    requires Valid(s) && s.killRing != ""
    ensures var line, r := LineOf(s), ApplyYank(s);
      && r.lines == s.lines[s.row := line[..s.col] + s.killRing + line[s.col..]]
      && r.row == s.row && r.col == |line[..s.col] + s.killRing|
  {
  }

  lemma YankRefines(s: State)
    requires Valid(s) && Clean(s.lines)
    ensures FlatOf(ApplyYank(s)) == FlatStep(FlatOf(s), Yank, s.killRing)
  {
    LinePartsOfFlat(s);
    if s.killRing != "" {
      YankOnLine(s);
      var line := LineOf(s);
      FlatOfLine(s, ApplyYank(s), line[..s.col] + s.killRing, line[s.col..]);
      Regroup(Join(s.lines[..s.row] + [""]), line[..s.col], s.killRing);
    }
  }

  /** Word motion sees only its side of the cursor. */
  lemma WordsOfFlat(s: State)
    requires InText(s.lines, s.row, s.col) && Clean(s.lines)
    ensures WordStart(LineOf(s), s.col) == s.col - WordBack(FlatOf(s))
    ensures WordEnd(LineOf(s), s.col) == s.col + WordOn(FlatOf(s))
  {
    var line := LineOf(s);
    LinePartsOfFlat(s);
    BackWhileLocal(line, line[..s.col], s.col, s.col, NonWordChars);
    BackWhileLocal(line, line[..s.col], s.col, BackWhile(line, s.col, NonWordChars), WordChars);
    ForwardWhileLocal(line, s.col, s.col, NonWordChars);
    ForwardWhileLocal(line, s.col, ForwardWhile(line, s.col, NonWordChars), WordChars);
  }

  lemma {:induction false} BackWhileLocal(line: string, part: string, col: nat, at: nat, run: CharClass)
    requires at <= col <= |line| && part == line[..col]
    ensures BackWhile(line, at, run) == BackWhile(part, at, run)
  {
    if at > 0 && InClass(line[at - 1], run) {
      BackWhileLocal(line, part, col, at - 1, run);
    }
  }

  lemma {:induction false} ForwardWhileLocal(line: string, col: nat, at: nat, run: CharClass)
    requires col <= at <= |line|
    ensures ForwardWhile(line, at, run) == col + ForwardWhile(line[col..], at - col, run)
    decreases |line| - at
  {
    if at < |line| && InClass(line[at], run) {
      ForwardWhileLocal(line, col, at + 1, run);
    }
  }

  lemma HomeRefines(s: State)
    requires Valid(s) && Clean(s.lines)
    ensures FlatOf(s.(col := 0)) == MoveBack(FlatOf(s), |LineTail(FlatOf(s))|)
  {
    LinePartsOfFlat(s);
    MoveBackRefines(s, s.(col := 0));
  }

  lemma EndRefines(s: State)
    requires Valid(s) && Clean(s.lines)
    ensures FlatOf(s.(col := |LineOf(s)|)) == MoveOn(FlatOf(s), |LineHead(FlatOf(s))|)
  {
    LinePartsOfFlat(s);
    MoveOnRefines(s, s.(col := |LineOf(s)|));
  }

  lemma WordLeftRefines(s: State)
    requires Valid(s) && Clean(s.lines)
    ensures FlatOf(s.(col := WordStart(LineOf(s), s.col))) == MoveBack(FlatOf(s), WordBack(FlatOf(s)))
  {
    var n := WordBack(FlatOf(s));
    assert WordStart(LineOf(s), s.col) == s.col - n by { WordsOfFlat(s); }
    MoveBackRefines(s, s.(col := s.col - n));
  }

  lemma WordRightRefines(s: State)
    requires Valid(s) && Clean(s.lines)
    ensures FlatOf(s.(col := WordEnd(LineOf(s), s.col))) == MoveOn(FlatOf(s), WordOn(FlatOf(s)))
  {
    var n := WordOn(FlatOf(s));
    assert WordEnd(LineOf(s), s.col) == s.col + n by { WordsOfFlat(s); }
    MoveOnRefines(s, s.(col := s.col + n));
  }

  lemma MotionRefines(s: State, key: Key, host: Host)
    requires Valid(s) && Clean(s.lines) && s.search.None?
    requires key.Home? || key.End? || key.WordLeft? || key.WordRight?
    ensures FlatOf(ApplyInBuffer(s, key, host)) == FlatStep(FlatOf(s), key, s.killRing)
  {
    if key.Home? {
      HomeRefines(s);
    } else if key.End? {
      EndRefines(s);
    } else if key.WordLeft? {
      WordLeftRefines(s);
    } else {
      WordRightRefines(s);
    }
  }

  lemma KillToEndRefines(s: State)
    requires Valid(s) && Clean(s.lines)
    ensures var r, f := ApplyKill(s, s.col, |LineOf(s)|), FlatOf(s);
      FlatOf(r) == FlatStep(f, KillToEnd, s.killRing) && r.killRing == FlatRing(f, KillToEnd, s.killRing)
  {
    LinePartsOfFlat(s);
    KillRefines(s, s.col, |LineOf(s)|);
    assert CutBack(FlatOf(s), 0) == FlatOf(s);
  }

  lemma TextBehindCursor(s: State, n: nat)
    requires InText(s.lines, s.row, s.col) && Clean(s.lines) && n <= s.col
    ensures n <= |FlatOf(s).before|
    ensures LineOf(s)[s.col - n..s.col] == FlatOf(s).before[|FlatOf(s).before| - n..]
  {
    LinePartsOfFlat(s);
    SuffixOfConcat(Join(s.lines[..s.row] + [""]), LineOf(s)[..s.col], n);
    assert LineOf(s)[..s.col][s.col - n..] == LineOf(s)[s.col - n..s.col];
  }

  lemma CutNothing(f: Flat)
    ensures CutOn(f, 0) == f && CutBack(f, 0) == f
  {
  }

  /** Ctrl-U and Ctrl-W: a cut of the `n` characters before the cursor. */
  lemma KillBackRefines(s: State, n: nat)
    requires Valid(s) && Clean(s.lines) && n <= s.col
    ensures n <= |FlatOf(s).before|
    ensures FlatOf(ApplyKill(s, s.col - n, s.col)) == CutBack(FlatOf(s), n)
    ensures ApplyKill(s, s.col - n, s.col).killRing == FlatOf(s).before[|FlatOf(s).before| - n..]
  {
    TextBehindCursor(s, n);
    KillRefines(s, s.col - n, s.col);
    CutNothing(CutBack(FlatOf(s), n));
  }

  lemma SuffixOfConcat(p: string, q: string, n: nat)
    requires n <= |q|
    ensures (p + q)[|p + q| - n..] == q[|q| - n..]
  {
  }

  lemma RingHoldsTheTail(f: Flat, killRing: string)
    ensures FlatRing(f, KillToStart, killRing) == f.before[|f.before| - |LineTail(f)|..]
  {
    TailIsSuffix(f.before);
    assert FlatRing(f, KillToStart, killRing) == LineTail(f);
  }

  lemma FlatKillToStart(f: Flat, killRing: string, n: nat)
    requires n == |LineTail(f)|
    ensures FlatStep(f, KillToStart, killRing) == CutBack(f, n)
    ensures FlatRing(f, KillToStart, killRing) == f.before[|f.before| - n..]
  {
    RingHoldsTheTail(f, killRing);
  }

  lemma KillToStartRefines(s: State)
    requires Valid(s) && Clean(s.lines)
    ensures var r, f := ApplyKill(s, 0, s.col), FlatOf(s);
      FlatOf(r) == FlatStep(f, KillToStart, s.killRing) && r.killRing == FlatRing(f, KillToStart, s.killRing)
  {
    LineTailIs(s);
    KillBackRefines(s, s.col);
    FlatKillToStart(FlatOf(s), s.killRing, s.col);
  }

  lemma LineTailIs(s: State)
    requires InText(s.lines, s.row, s.col) && Clean(s.lines)
    ensures |LineTail(FlatOf(s))| == s.col
  {
    LinePartsOfFlat(s);
  }

  lemma FlatKillWord(f: Flat, killRing: string, n: nat)
    requires n == WordBack(f)
    ensures FlatStep(f, KillWord, killRing) == CutBack(f, n)
    ensures FlatRing(f, KillWord, killRing) == f.before[|f.before| - n..]
  {
  }

  lemma WordStartIs(s: State, n: nat)
    requires InText(s.lines, s.row, s.col) && Clean(s.lines) && n == WordBack(FlatOf(s))
    ensures n <= s.col && WordStart(LineOf(s), s.col) == s.col - n
  {
    WordsOfFlat(s);
  }

  lemma KillWordRefines(s: State)
    requires Valid(s) && Clean(s.lines)
    ensures var r, f := ApplyKill(s, WordStart(LineOf(s), s.col), s.col), FlatOf(s);
      FlatOf(r) == FlatStep(f, KillWord, s.killRing) && r.killRing == FlatRing(f, KillWord, s.killRing)
  {
    var n := WordBack(FlatOf(s));
    WordStartIs(s, n);
    KillBackRefines(s, n);
    FlatKillWord(FlatOf(s), s.killRing, n);
  }

  lemma KillKeyRefines(s: State, key: Key, host: Host)
    requires Valid(s) && Clean(s.lines) && s.search.None?
    requires key.KillToEnd? || key.KillToStart? || key.KillWord?
    ensures FlatOf(ApplyInBuffer(s, key, host)) == FlatStep(FlatOf(s), key, s.killRing)
    ensures ApplyInBuffer(s, key, host).killRing == FlatRing(FlatOf(s), key, s.killRing)
  {
    if key == KillToEnd {
      KillToEndRefines(s);
    } else if key == KillToStart {
      KillToStartRefines(s);
    } else {
      KillWordRefines(s);
    }
  }

  lemma EditRefines(s: State, key: Key, host: Host)
    requires Valid(s) && Clean(s.lines) && s.search.None?
    requires key.Text? || key.Newline? || key.Backspace? || key.Delete? || key.Left? || key.Right? || key.Yank?
    ensures FlatOf(ApplyInBuffer(s, key, host)) == FlatStep(FlatOf(s), key, s.killRing)
  {
    if key.Text? {
      TextRefines(s, key.text);
    } else if key.Newline? {
      NewlineRefines(s);
    } else if key.Backspace? {
      BackspaceRefines(s);
    } else if key.Delete? {
      DeleteRefines(s);
    } else if key.Left? {
      LeftRefines(s);
    } else if key.Right? {
      RightRefines(s);
    } else {
      YankRefines(s);
    }
  }

  lemma FlatKeyIsTheBuffers(s: State, key: Key, host: Host)
    requires Valid(s) && s.search.None? && IsFlatKey(key)
    ensures ApplyKey(s, key, host) == ApplyInBuffer(s, key, host)
  {
    assert !MenuTakes(s, key);
  }

  /**
   * Main result: with no search open, each editing or motion key on lines, row and column is the
   * flat operation on the text around the cursor, kill ring included.
   */
  lemma KeyRefinesFlat(s: State, key: Key, host: Host)
    requires Valid(s) && Clean(s.lines) && s.search.None? && IsFlatKey(key)
    ensures FlatOf(ApplyKey(s, key, host)) == FlatStep(FlatOf(s), key, s.killRing)
    ensures ApplyKey(s, key, host).killRing == FlatRing(FlatOf(s), key, s.killRing)
  {
    FlatKeyIsTheBuffers(s, key, host);
    if key.KillToEnd? || key.KillToStart? || key.KillWord? {
      KillKeyRefines(s, key, host);
    } else if key.Home? || key.End? || key.WordLeft? || key.WordRight? {
      MotionRefines(s, key, host);
    } else {
      EditRefines(s, key, host);
    }
  }

  // ---------------------------------------------------------------- completion

  /** How many characters before the cursor belong to its token: the run of non-blanks it ends. */
  function TokenBack(f: Flat): (n: nat)
    ensures n <= |f.before|
  {
    |f.before| - TokenStart(f.before, |f.before|)
  }

  lemma {:induction false} NonSpacesLocal(p: string, line: string, at: nat)
    requires at <= |line| && (p == "" || IsSpace(p[|p| - 1]))
    ensures BackWhile(p + line, |p| + at, NonSpaces) == |p| + BackWhile(line, at, NonSpaces)
    decreases at
  {
    if at > 0 {
      assert (p + line)[|p| + at - 1] == line[at - 1];
      NonSpacesLocal(p, line, at - 1);
    } else if p != "" {
      assert (p + line)[|p| - 1] == p[|p| - 1];
    }
  }

  /** The token of the line is the token of the whole text: no token runs over a newline. */
  lemma TokenOfFlat(s: State)
    requires Valid(s) && Clean(s.lines)
    ensures TokenBack(FlatOf(s)) == s.col - TokenStart(LineOf(s), s.col)
  {
    var p, head := Join(s.lines[..s.row] + [""]), LineOf(s)[..s.col];
    LinePartsOfFlat(s);
    if s.row > 0 {
      JoinOpenLine(s.lines[..s.row]);
    }
    NonSpacesLocal(p, head, s.col);
    BackWhileLocal(LineOf(s), head, s.col, s.col, NonSpaces);
  }

  function WithToken(f: Flat, picked: string): Flat {
    Flat(f.before[..|f.before| - TokenBack(f)] + picked, f.after)
  }

  /** Choosing a candidate puts it in place of the token before the cursor and touches nothing else. */
  lemma CompletionReplacesTheToken(s: State, picked: string)
    requires Valid(s) && Clean(s.lines)
    ensures FlatOf(Complete(s, picked)) == WithToken(FlatOf(s), picked)
  {
    var line := LineOf(s);
    var start := TokenStart(line, s.col);
    var p := Join(s.lines[..s.row] + [""]);
    LinePartsOfFlat(s);
    TokenOfFlat(s);
    FlatOfLine(s, Complete(s, picked), line[..start] + picked, line[s.col..]);
    CutInWord(p, line[..s.col], start);
    assert line[..s.col][..start] == line[..start];
    Regroup(p, line[..start], picked);
  }

  lemma CutInWord(p: string, head: string, n: nat)
    requires n <= |head|
    ensures (p + head)[..|p| + n] == p + head[..n]
  {
  }

  lemma SameBuffer(s: State, t: State)
    requires InText(s.lines, s.row, s.col) && t.lines == s.lines && t.row == s.row && t.col == s.col
    ensures FlatOf(t) == FlatOf(s)
  {
  }

  /** Enter and Tab take the selected row of an open menu, and close it; Enter does not end the read. */
  lemma MenuKeyCompletes(s: State, key: Key, host: Host)
    requires Valid(s) && Clean(s.lines) && s.search.None? && s.menu != [] && (key.Enter? || key.Tab?)
    ensures var r := ApplyKey(s, key, host);
      FlatOf(r) == WithToken(FlatOf(s), s.menu[s.menuAt]) && r.menu == [] && r.done == s.done
  {
    CompletionReplacesTheToken(s, s.menu[s.menuAt]);
    SameBuffer(Complete(s, s.menu[s.menuAt]), ApplyKey(s, key, host));
  }

  /** Tab without a menu: one candidate is taken, several open the menu on the first, none does nothing. */
  lemma TabCompletes(s: State, host: Host)
    requires Valid(s) && Clean(s.lines) && s.search.None? && s.menu == []
    ensures var candidates, r := host.complete(TextOf(s)), ApplyKey(s, Tab, host);
      && (|candidates| == 0 ==> r == s)
      && (|candidates| == 1 ==> FlatOf(r) == WithToken(FlatOf(s), candidates[0]) && r.menu == [])
      && (|candidates| > 1 ==> FlatOf(r) == FlatOf(s) && r.menu == candidates && r.menuAt == 0)
  {
    var candidates := host.complete(TextOf(s));
    if |candidates| == 1 {
      CompletionReplacesTheToken(s, candidates[0]);
    } else if |candidates| > 1 {
      SameBuffer(s, ApplyKey(s, Tab, host));
    }
  }
}
