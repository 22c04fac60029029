/**
 * The framed box and its wrapping (`hardWrap`, `wrapRuns` and `box` in src/cli/render.ts).
 *
 * The lines carry no colour codes, and the colours of the frame, which take no column, are left out.
 */
module Box {
  import opened Strings
  import opened Layout

  // ---------------------------------------------------------------- a word too long for a row

  function HardWrapped(text: string, width: nat, w: Widths): seq<string> {
    if Width(text, w) <= width then [text] else Pieces("", text, width, w)
  }

  method HardWrap(text: string, width: nat, w: Widths) returns (parts: seq<string>)
    ensures parts == HardWrapped(text, width, w)
  {
    if Width(text, w) <= width {
      return [text];
    }
    parts := [];
    var line, used := "", 0;
    assert text[0..] == text;
    for i := 0 to |text|
      invariant used == Width(line, w) && (i > 0 ==> line != "")
      invariant HardWrapped(text, width, w) == parts + Pieces(line, text[i..], width, w)
    {
      var c := text[i];
      assert text[i..][0] == c && text[i..][1..] == text[i + 1..];
      if used + w(c) > width && line != "" {
        assert parts + ([line] + Pieces([c], text[i + 1..], width, w))
          == parts + [line] + Pieces([c], text[i + 1..], width, w);
        parts := parts + [line];
        line, used := "", 0;
        assert "" + [c] == [c];
      }
      WidthConcat(line, [c], w);
      assert Width([c], w) == w(c) by { assert [c][1..] == ""; }
      line, used := line + [c], used + w(c);
    }
    if line != "" {
      parts := parts + [line];
    }
  }

  /** The parts are the text, cut; each fits, and none could have taken the next one's first character. */
  lemma HardWrapIsExact(text: string, width: nat, w: Widths)
    ensures Flatten(HardWrapped(text, width, w)) == text
    ensures 2 <= width ==> Fits(HardWrapped(text, width, w), width, w)
    ensures Greedy(HardWrapped(text, width, w), width, w)
  {
    if Width(text, w) <= width {
      assert [text][1..] == [];
    } else {
      PiecesCover("", text, width, w);
      if 2 <= width {
        PiecesFit("", text, width, w);
      }
      PiecesGreedy("", text, width, w);
    }
  }

  // ---------------------------------------------------------------- white space

  /** How many characters of the text, from its start, are white space (or are not). */
  function Leading(s: string, space: bool): (n: nat)
    ensures n <= |s|
  {
    if s == "" || IsSpace(s[0]) != space then 0 else 1 + Leading(s[1..], space)
  }

  predicate AllSpace(s: string, space: bool) {
    Leading(s, space) == |s|
  }

  lemma {:induction false} LeadingConcat(a: string, b: string, space: bool)
    ensures Leading(a + b, space) == if AllSpace(a, space) then |a| + Leading(b, space) else Leading(a, space)
  {
    if a == "" {
      assert a + b == b;
    } else {
      assert (a + b)[1..] == a[1..] + b;
      LeadingConcat(a[1..], b, space);
    }
  }

  lemma {:induction false} LeadingIsAll(s: string, space: bool)
    ensures AllSpace(s[..Leading(s, space)], space)
    ensures Leading(s, space) < |s| ==> IsSpace(s[Leading(s, space)]) != space
  {
    if s != "" && IsSpace(s[0]) == space {
      LeadingIsAll(s[1..], space);
      assert s[..Leading(s, space)][1..] == s[1..][..Leading(s[1..], space)];
    }
  }

  function TrimStart(s: string): string {
    s[Leading(s, true)..]
  }

  /** `s.replace(/\s+$/, '')`. */
  function TrimEnd(s: string): (r: string)
    ensures r <= s
  {
    if s == "" then ""
    else if IsSpace(s[|s| - 1]) then TrimEnd(s[..|s| - 1])
    else s
  }

  lemma {:induction false} TrimEndDropsSpace(s: string, gap: string)
    requires AllSpace(gap, true)
    ensures TrimEnd(s + gap) == TrimEnd(s)
    decreases |gap|
  {
    if gap == "" {
      assert s + gap == s;
    } else {
      var most, last := gap[..|gap| - 1], gap[|gap| - 1..];
      assert gap == most + last;
      LeadingConcat(most, last, true);
      assert Leading(last, true) <= 1;
      assert (s + gap)[..|s + gap| - 1] == s + most;
      TrimEndDropsSpace(s, most);
    }
  }

  /** The characters that are not white space, in order. */
  function Ink(s: string): string {
    if s == "" then "" else (if IsSpace(s[0]) then "" else [s[0]]) + Ink(s[1..])
  }

  lemma {:induction false} InkConcat(a: string, b: string)
    ensures Ink(a + b) == Ink(a) + Ink(b)
  {
    if a == "" {
      assert a + b == b;
    } else {
      assert (a + b)[1..] == a[1..] + b;
      InkConcat(a[1..], b);
    }
  }

  lemma {:induction false} SpaceHasNoInk(s: string)
    requires AllSpace(s, true)
    ensures Ink(s) == ""
  {
    if s != "" {
      SpaceHasNoInk(s[1..]);
    }
  }

  // ---------------------------------------------------------------- wrapping between words

  /** `text.split(/(\s+)/)` without its empty parts: runs of white space and of other characters, in turn. */
  function Tokens(text: string): seq<string>
    decreases |text|
  {
    if text == "" then []
    else
      var n := Leading(text, IsSpace(text[0]));
      [text[..n]] + Tokens(text[n..])
  }

  predicate IsToken(token: string, space: bool) {
    token != "" && AllSpace(token, space)
  }

  /** The tokens alternate, the first of them white space just when `space`. */
  predicate Alternate(tokens: seq<string>, space: bool) {
    tokens == [] || (IsToken(tokens[0], space) && Alternate(tokens[1..], !space))
  }

  lemma {:induction false} TokensAlternate(text: string)
    ensures Flatten(Tokens(text)) == text
    ensures text != "" ==> Alternate(Tokens(text), IsSpace(text[0]))
    decreases |text|
  {
    if text != "" {
      var space := IsSpace(text[0]);
      var n := Leading(text, space);
      LeadingIsAll(text, space);
      TokensAlternate(text[n..]);
      assert Tokens(text)[1..] == Tokens(text[n..]);
    }
  }

  /** The rows still to come, the open one holding `line`. */
  function Rows(line: string, tokens: seq<string>, width: nat, w: Widths): seq<string>
    decreases |tokens|
  {
    if tokens == [] then (if line != "" then [TrimEnd(line)] else [])
    else
      var token, more := tokens[0], tokens[1..];
      if IsToken(token, true) then Rows(if line != "" then line + token else "", more, width, w)
      else if line == "" then Rows(token, more, width, w)
      else if Width(line, w) + Width(token, w) <= width then Rows(line + token, more, width, w)
      else [TrimEnd(line)] + Rows(token, more, width, w)
  }

  method WrapRuns(text: string, width: nat, w: Widths) returns (out: seq<string>)
    ensures out == Rows("", Tokens(text), width, w)
  {
    var tokens := Tokens(text);
    out := [];
    var line := "";
    assert tokens[0..] == tokens;
    ghost var all := Rows(line, tokens, width, w);
    assert out + all == all;
    for i := 0 to |tokens|
      invariant all == out + Rows(line, tokens[i..], width, w)
    {
      var token := tokens[i];
      assert tokens[i..][0] == token && tokens[i..][1..] == tokens[i + 1..];
      if IsToken(token, true) {
        if line != "" {
          line := line + token;
        }
        continue;
      }
      if line == "" {
        line := token;
        continue;
      }
      if Width(line, w) + Width(token, w) <= width {
        line := line + token;
        continue;
      }
      assert out + ([TrimEnd(line)] + Rows(token, tokens[i + 1..], width, w))
        == out + [TrimEnd(line)] + Rows(token, tokens[i + 1..], width, w);
      out := out + [TrimEnd(line)];
      line := token;
    }
    if line != "" {
      out := out + [TrimEnd(line)];
    }
  }

  /** A row starts and ends with a word, and is within the width unless it is one word. */
  predicate GoodRow(row: string, width: nat, w: Widths) {
    && row != "" && !IsSpace(row[0]) && !IsSpace(row[|row| - 1])
    && (Width(row, w) <= width || AllSpace(row, false))
  }

  /** The text through the first word after its first `n` characters. */
  function ThroughNextWord(text: string, n: nat): string
    requires n <= |text|
  {
    var gap := Leading(text[n..], true);
    text[..n + gap + Leading(text[n + gap..], false)]
  }

  /** The rows are the text, broken at white space and only where the next word does not fit. */
  predicate Wraps(rows: seq<string>, text: string, width: nat, w: Widths)
    decreases |rows|
  {
    var body := TrimStart(text);
    if rows == [] then body == ""
    else
      && GoodRow(rows[0], width, w) && rows[0] <= body
      && (|rows| > 1 ==>
            |rows[0]| < |body| && IsSpace(body[|rows[0]|]) && Width(ThroughNextWord(body, |rows[0]|), w) > width)
      && Wraps(rows[1..], body[|rows[0]|..], width, w)
  }

  function Gap(line: string): string {
    line[|TrimEnd(line)|..]
  }

  lemma {:induction false} TrimEndSplits(line: string)
    ensures line == TrimEnd(line) + Gap(line) && AllSpace(Gap(line), true)
    ensures TrimEnd(line) != "" ==> !IsSpace(TrimEnd(line)[|TrimEnd(line)| - 1])
    decreases |line|
  {
    if line != "" && IsSpace(line[|line| - 1]) {
      var most, last := line[..|line| - 1], line[|line| - 1..];
      TrimEndSplits(most);
      LeadingConcat(Gap(most), last, true);
      assert last[1..] == "" && Leading(last, true) == 1;
      assert line == most + last && TrimEnd(line) == TrimEnd(most);
      assert Gap(line) == Gap(most) + last;
    }
  }

  lemma TrimStartSkips(gap: string, rest: string)
    requires AllSpace(gap, true)
    ensures TrimStart(gap + rest) == TrimStart(rest)
  {
    LeadingConcat(gap, rest, true);
  }

  lemma WrapsTrimmed(rows: seq<string>, a: string, b: string, width: nat, w: Widths)
    requires TrimStart(a) == TrimStart(b)
    ensures Wraps(rows, a, width, w) <==> Wraps(rows, b, width, w)
  {
  }

  /** What the loop keeps: the open line starts with a word, and once trimmed is a good row; a token of the
      other kind comes next. */
  predicate LineOk(line: string, tokens: seq<string>, space: bool, width: nat, w: Widths) {
    && Alternate(tokens, space)
    && (line != "" ==> !IsSpace(line[0]) && GoodRow(TrimEnd(line), width, w))
    && (line != "" && tokens != [] ==> IsSpace(line[|line| - 1]) != space)
  }

  lemma LastOfToken(token: string, space: bool)
    requires IsToken(token, space)
    ensures IsSpace(token[0]) == space && IsSpace(token[|token| - 1]) == space
  {
    LeadingAt(token, space, |token| - 1);
  }

  lemma {:induction false} LeadingAt(s: string, space: bool, k: nat)
    requires k < Leading(s, space)
    ensures IsSpace(s[k]) == space
  {
    if k > 0 {
      LeadingAt(s[1..], space, k - 1);
    }
  }

  /** A word is kept whole when what follows it is nothing or white space. */
  lemma WordLeads(token: string, tokens: seq<string>)
    requires IsToken(token, false) && Alternate(tokens, true)
    ensures Leading(token + Flatten(tokens), false) == |token|
  {
    LeadingConcat(token, Flatten(tokens), false);
    if tokens != [] {
      LastOfToken(tokens[0], true);
    }
  }

  lemma WordOpensLine(token: string, tokens: seq<string>, width: nat, w: Widths)
    requires IsToken(token, false) && Alternate(tokens, true)
    ensures LineOk(token, tokens, true, width, w)
  {
    LastOfToken(token, false);
  }

  lemma WordJoinsLine(line: string, token: string, tokens: seq<string>, width: nat, w: Widths)
    requires IsToken(token, false) && Alternate(tokens, true)
    requires line != "" && !IsSpace(line[0]) && Width(line, w) + Width(token, w) <= width
    ensures LineOk(line + token, tokens, true, width, w)
  {
    LastOfToken(token, false);
    WidthConcat(line, token, w);
    var now := line + token;
    assert now[|now| - 1] == token[|token| - 1] && now[0] == line[0];
  }

  lemma SpaceKeepsLine(line: string, token: string, tokens: seq<string>, width: nat, w: Widths)
    requires IsToken(token, true) && Alternate(tokens, false) && line != ""
    requires LineOk(line, [token] + tokens, true, width, w)
    ensures LineOk(line + token, tokens, false, width, w)
  {
    LastOfToken(token, true);
    TrimEndDropsSpace(line, token);
  }

  lemma AfterTheRow(row: string, gap: string, rest: string)
    ensures (row + (gap + rest))[|row|..] == gap + rest && (row + (gap + rest))[|row| + |gap|..] == rest
  {
  }

  lemma ThroughIs(row: string, gap: string, token: string, rest: string)
    ensures (row + (gap + (token + rest)))[..|row| + |gap| + |token|] == row + gap + token
  {
  }

  /** After the row comes `gap` and then the word `token`. */
  lemma NextWordIs(row: string, gap: string, token: string, tokens: seq<string>)
    requires AllSpace(gap, true) && IsToken(token, false) && Alternate(tokens, true)
    ensures ThroughNextWord(row + (gap + (token + Flatten(tokens))), |row|) == row + gap + token
  {
    var rest := token + Flatten(tokens);
    AfterTheRow(row, gap, rest);
    LastOfToken(token, false);
    LeadingConcat(gap, rest, true);
    WordLeads(token, tokens);
    ThroughIs(row, gap, token, Flatten(tokens));
  }

  lemma WrapsOneMore(row: string, tail: string, rows: seq<string>, width: nat, w: Widths)
    requires GoodRow(row, width, w) && tail != "" && IsSpace(tail[0])
    requires Width(ThroughNextWord(row + tail, |row|), w) > width
    requires Wraps(rows, tail, width, w)
    ensures Wraps([row] + rows, row + tail, width, w)
  {
    assert TrimStart(row + tail) == row + tail;
    assert (row + tail)[|row|..] == tail;
    assert ([row] + rows)[1..] == rows;
  }

  /** A word that does not fit closes the line: what was on it is one row. */
  lemma RowThenWord(row: string, gap: string, token: string, tokens: seq<string>, rows: seq<string>, width: nat,
    w: Widths)
    requires IsToken(gap, true) && IsToken(token, false) && Alternate(tokens, true) && GoodRow(row, width, w)
    requires Width(row + gap, w) + Width(token, w) > width
    requires Wraps(rows, token + Flatten(tokens), width, w)
    ensures Wraps([row] + rows, row + (gap + (token + Flatten(tokens))), width, w)
  {
    var rest := token + Flatten(tokens);
    LastOfToken(gap, true);
    TrimStartSkips(gap, rest);
    WrapsTrimmed(rows, gap + rest, rest, width, w);
    NextWordIs(row, gap, token, tokens);
    WidthConcat(row + gap, token, w);
    WrapsOneMore(row, gap + rest, rows, width, w);
  }

  lemma RegroupFour(row: string, gap: string, token: string, rest: string)
    ensures row + gap + token + rest == row + (gap + (token + rest))
  {
    Regroup(gap, token, rest);
    Regroup(row, gap, token + rest);
  }

  lemma LastLine(line: string, width: nat, w: Widths)
    requires line != "" && !IsSpace(line[0]) && GoodRow(TrimEnd(line), width, w)
    ensures Wraps([TrimEnd(line)], line, width, w)
  {
    var rows := [TrimEnd(line)];
    TrimEndSplits(line);
    assert TrimStart(line) == line;
    assert rows[1..] == [];
    assert TrimStart(Gap(line)) == "";
  }

  /** Wrapping breaks the text only at white space, drops nothing else, and fills each row as far as it goes. */
  lemma {:induction false} RowsWrap(line: string, tokens: seq<string>, space: bool, width: nat, w: Widths)
    requires LineOk(line, tokens, space, width, w)
    ensures Wraps(Rows(line, tokens, width, w), line + Flatten(tokens), width, w)
    decreases |tokens|
  {
    var text := line + Flatten(tokens);
    if tokens == [] {
      assert text == line;
      if line != "" {
        LastLine(line, width, w);
      }
    } else {
      var token, more := tokens[0], tokens[1..];
      var rest := Flatten(more);
      assert tokens == [token] + more;
      assert text == line + (token + rest) == (line + token) + rest;
      LastOfToken(token, space);
      if space {
        if line == "" {
          RowsWrap("", more, false, width, w);
          assert "" + rest == rest && text == token + rest;
          TrimStartSkips(token, rest);
          WrapsTrimmed(Rows("", more, width, w), rest, text, width, w);
        } else {
          SpaceKeepsLine(line, token, more, width, w);
          RowsWrap(line + token, more, false, width, w);
        }
      } else if line == "" {
        WordOpensLine(token, more, width, w);
        RowsWrap(token, more, true, width, w);
        assert text == token + rest;
      } else if Width(line, w) + Width(token, w) <= width {
        WordJoinsLine(line, token, more, width, w);
        RowsWrap(line + token, more, true, width, w);
      } else {
        WordOpensLine(token, more, width, w);
        RowsWrap(token, more, true, width, w);
        TrimEndSplits(line);
        RegroupFour(TrimEnd(line), Gap(line), token, rest);
        RowThenWord(TrimEnd(line), Gap(line), token, more, Rows(token, more, width, w), width, w);
      }
    }
  }

  lemma WrapRunsWraps(text: string, width: nat, w: Widths)
    ensures Wraps(Rows("", Tokens(text), width, w), text, width, w)
  {
    TokensAlternate(text);
    var tokens := Tokens(text);
    RowsWrap("", tokens, text != "" && IsSpace(text[0]), width, w);
    assert "" + Flatten(tokens) == text;
  }

  /** Nothing but white space is dropped. */
  lemma {:induction false} WrapsKeepInk(rows: seq<string>, text: string, width: nat, w: Widths)
    requires Wraps(rows, text, width, w)
    ensures Ink(Flatten(rows)) == Ink(text)
    decreases |rows|
  {
    var lead, body := text[..Leading(text, true)], TrimStart(text);
    assert text == lead + body;
    LeadingIsAll(text, true);
    InkConcat(lead, body);
    SpaceHasNoInk(lead);
    if rows != [] {
      var rest := body[|rows[0]|..];
      assert body == rows[0] + rest;
      InkConcat(rows[0], rest);
      InkConcat(rows[0], Flatten(rows[1..]));
      WrapsKeepInk(rows[1..], rest, width, w);
    }
  }

  // ---------------------------------------------------------------- the box

  /** A space and each glyph take one column. */
  predicate OneColumn(g: Glyphs, w: Widths) {
    && w(' ') == w(g.topLeft) == w(g.topRight) == w(g.bottomLeft) == w(g.bottomRight) == 1
    && w(g.horizontal) == w(g.vertical) == 1
  }

  lemma {:induction false} RepeatWidth(c: char, n: nat, w: Widths)
    ensures Width(Repeat(c, n), w) == n * w(c)
  {
    if n > 0 {
      assert ([c] + Repeat(c, n - 1))[1..] == Repeat(c, n - 1);
      RepeatWidth(c, n - 1, w);
    }
  }

  function Widest(lines: seq<string>, w: Widths): (n: nat)
    ensures forall k :: 0 <= k < |lines| ==> Width(lines[k], w) <= n
  {
    if lines == [] then 0 else Max(Width(lines[0], w), Widest(lines[1..], w))
  }

  /** The columns between the two blanks inside the frame. */
  function Inner(lines: seq<string>, width: int, w: Widths): int {
    Min(Max(Widest(lines, w), 8), width - 4)
  }

  function Room(inner: int, indent: string): nat {
    Max(8, inner - |indent| - 2)
  }

  /** Every row after a line's first is set in by two more columns. */
  function SetIn(first: bool): string {
    Repeat(' ', if first then 0 else 2)
  }

  function Hang(indent: string, parts: seq<string>, first: bool): seq<string> {
    if parts == [] then [] else [indent + SetIn(first) + parts[0]] + Hang(indent, parts[1..], false)
  }

  function HardWrapAll(rows: seq<string>, room: nat, w: Widths): seq<string> {
    if rows == [] then [] else HardWrapped(rows[0], room, w) + HardWrapAll(rows[1..], room, w)
  }

  function IndentOf(line: string): string {
    line[..Leading(line, true)]
  }

  /** The rows of one line. */
  function Fitted(line: string, inner: int, w: Widths): seq<string> {
    if Width(line, w) <= inner then [line]
    else
      var indent := IndentOf(line);
      var room := Room(inner, indent);
      Hang(indent, HardWrapAll(Rows("", Tokens(line[|indent|..]), room, w), room, w), true)
  }

  function FittedAll(lines: seq<string>, inner: int, w: Widths): seq<string> {
    if lines == [] then [] else Fitted(lines[0], inner, w) + FittedAll(lines[1..], inner, w)
  }

  function Framed(row: string, g: Glyphs, inner: int, w: Widths): string {
    [g.vertical] + " " + row + Repeat(' ', Max(0, inner - Width(row, w))) + " " + [g.vertical]
  }

  function FramedAll(rows: seq<string>, g: Glyphs, inner: int, w: Widths): seq<string> {
    if rows == [] then [] else [Framed(rows[0], g, inner, w)] + FramedAll(rows[1..], g, inner, w)
  }

  /** The rows of the box; nothing when a bar of negative length is asked for, which throws. */
  function Boxed(lines: seq<string>, g: Glyphs, width: int, w: Widths): Option<seq<string>> {
    var inner := Inner(lines, width, w);
    if inner + 2 < 0 then None
    else
      var bar := Repeat(g.horizontal, inner + 2);
      Some([[g.topLeft] + bar + [g.topRight]]
        + FramedAll(FittedAll(lines, inner, w), g, inner, w)
        + [[g.bottomLeft] + bar + [g.bottomRight]])
  }

  method FitLine(line: string, inner: int, w: Widths) returns (rows: seq<string>)
    ensures rows == Fitted(line, inner, w)
  {
    if Width(line, w) <= inner {
      return [line];
    }
    var indent := IndentOf(line);
    var room := Room(inner, indent);
    var runs := WrapRuns(line[|indent|..], room, w);
    var wrapped: seq<string> := [];
    for i := 0 to |runs|
      invariant HardWrapAll(runs, room, w) == wrapped + HardWrapAll(runs[i..], room, w)
    {
      var parts := HardWrap(runs[i], room, w);
      Regroup(wrapped, parts, HardWrapAll(runs[i + 1..], room, w));
      assert runs[i..][1..] == runs[i + 1..];
      wrapped := wrapped + parts;
    }
    AppendNothing(wrapped, HardWrapAll(runs[|runs|..], room, w));
    rows := [];
    for i := 0 to |wrapped|
      invariant Hang(indent, wrapped, true) == rows + Hang(indent, wrapped[i..], i == 0)
    {
      var row := indent + SetIn(i == 0) + wrapped[i];
      Regroup(rows, [row], Hang(indent, wrapped[i + 1..], false));
      assert wrapped[i..][1..] == wrapped[i + 1..];
      rows := rows + [row];
    }
    AppendNothing(rows, Hang(indent, wrapped[|wrapped|..], |wrapped| == 0));
  }

  lemma AppendNothing<T>(a: seq<T>, b: seq<T>)
    requires |b| == 0
    ensures a + b == a
  {
  }

  method FitLines(lines: seq<string>, inner: int, w: Widths) returns (fitted: seq<string>)
    ensures fitted == FittedAll(lines, inner, w)
  {
    fitted := [];
    assert lines[0..] == lines;
    ghost var all := FittedAll(lines, inner, w);
    for i := 0 to |lines|
      invariant all == fitted + FittedAll(lines[i..], inner, w)
    {
      var rows := FitLine(lines[i], inner, w);
      Regroup(fitted, rows, FittedAll(lines[i + 1..], inner, w));
      assert lines[i..][1..] == lines[i + 1..];
      fitted := fitted + rows;
    }
    AppendNothing(fitted, FittedAll(lines[|lines|..], inner, w));
  }

  method FrameRows(fitted: seq<string>, g: Glyphs, inner: int, w: Widths) returns (framed: seq<string>)
    ensures framed == FramedAll(fitted, g, inner, w)
  {
    framed := [];
    assert fitted[0..] == fitted;
    ghost var all := FramedAll(fitted, g, inner, w);
    for i := 0 to |fitted|
      invariant all == framed + FramedAll(fitted[i..], g, inner, w)
    {
      var row := Framed(fitted[i], g, inner, w);
      Regroup(framed, [row], FramedAll(fitted[i + 1..], g, inner, w));
      assert fitted[i..][1..] == fitted[i + 1..];
      framed := framed + [row];
    }
    AppendNothing(framed, FramedAll(fitted[|fitted|..], g, inner, w));
  }

  method Box(lines: seq<string>, g: Glyphs, width: int, w: Widths) returns (out: Option<seq<string>>)
    ensures out == Boxed(lines, g, width, w)
  {
    var inner := Inner(lines, width, w);
    var fitted := FitLines(lines, inner, w);
    if inner + 2 < 0 {
      return None;
    }
    var bar := Repeat(g.horizontal, inner + 2);
    var framed := FrameRows(fitted, g, inner, w);
    out := Some([[g.topLeft] + bar + [g.topRight]] + framed + [[g.bottomLeft] + bar + [g.bottomRight]]);
  }

  // ---------------------------------------------------------------- never ragged

  /** The line fits, or its indent leaves room for the rows it is wrapped into. */
  predicate HasRoom(line: string, inner: int, w: Widths) {
    Width(line, w) <= inner || IndentHasRoom(IndentOf(line), inner, w)
  }

  predicate IndentHasRoom(indent: string, inner: int, w: Widths) {
    Width(indent, w) + 2 + Room(inner, indent) <= inner
  }

  predicate NoneWider(rows: seq<string>, inner: int, w: Widths) {
    forall k :: 0 <= k < |rows| ==> Width(rows[k], w) <= inner
  }

  lemma {:induction false} HardWrapAllFits(rows: seq<string>, room: nat, w: Widths)
    requires 2 <= room
    ensures NoneWider(HardWrapAll(rows, room, w), room, w)
  {
    if rows != [] {
      HardWrapIsExact(rows[0], room, w);
      HardWrapAllFits(rows[1..], room, w);
    }
  }

  lemma RowWidth(indent: string, first: bool, part: string, w: Widths)
    requires w(' ') == 1
    ensures Width(indent + SetIn(first) + part, w) == Width(indent, w) + (if first then 0 else 2) + Width(part, w)
  {
    RepeatWidth(' ', if first then 0 else 2, w);
    WidthConcat(indent, SetIn(first), w);
    WidthConcat(indent + SetIn(first), part, w);
  }

  lemma {:induction false} HangFits(indent: string, parts: seq<string>, first: bool, room: nat, inner: int, w: Widths)
    requires w(' ') == 1 && NoneWider(parts, room, w) && Width(indent, w) + 2 + room <= inner
    ensures NoneWider(Hang(indent, parts, first), inner, w)
    decreases |parts|
  {
    if parts != [] {
      RowWidth(indent, first, parts[0], w);
      HangFits(indent, parts[1..], false, room, inner, w);
    }
  }

  lemma FittedFits(line: string, inner: int, w: Widths)
    requires w(' ') == 1 && HasRoom(line, inner, w)
    ensures NoneWider(Fitted(line, inner, w), inner, w)
  {
    if Width(line, w) > inner {
      var indent := IndentOf(line);
      var room := Room(inner, indent);
      var rows := Rows("", Tokens(line[|indent|..]), room, w);
      HardWrapAllFits(rows, room, w);
      HangFits(indent, HardWrapAll(rows, room, w), true, room, inner, w);
    }
  }

  lemma {:induction false} FittedAllFits(lines: seq<string>, inner: int, w: Widths)
    requires w(' ') == 1 && forall k :: 0 <= k < |lines| ==> HasRoom(lines[k], inner, w)
    ensures NoneWider(FittedAll(lines, inner, w), inner, w)
    decreases |lines|
  {
    if lines != [] {
      FittedFits(lines[0], inner, w);
      FittedAllFits(lines[1..], inner, w);
    }
  }

  lemma OneWide(c: char, w: Widths)
    ensures Width([c], w) == w(c)
  {
    assert [c][1..] == "";
  }

  lemma FramedWidth(row: string, g: Glyphs, inner: int, w: Widths)
    requires OneColumn(g, w)
    ensures Width(Framed(row, g, inner, w), w) == Max(inner, Width(row, w)) + 4
  {
    var pad := Repeat(' ', Max(0, inner - Width(row, w)));
    RepeatWidth(' ', Max(0, inner - Width(row, w)), w);
    OneWide(g.vertical, w);
    OneWide(' ', w);
    WidthConcat([g.vertical], " ", w);
    WidthConcat([g.vertical] + " ", row, w);
    WidthConcat([g.vertical] + " " + row, pad, w);
    WidthConcat([g.vertical] + " " + row + pad, " ", w);
    WidthConcat([g.vertical] + " " + row + pad + " ", [g.vertical], w);
  }

  lemma BarWidth(left: char, right: char, across: char, inner: int, w: Widths)
    requires 0 <= inner + 2 && w(left) == w(right) == w(across) == 1
    ensures Width([left] + Repeat(across, inner + 2) + [right], w) == inner + 4
  {
    RepeatWidth(across, inner + 2, w);
    OneWide(left, w);
    OneWide(right, w);
    WidthConcat([left], Repeat(across, inner + 2), w);
    WidthConcat([left] + Repeat(across, inner + 2), [right], w);
  }

  predicate AllWide(rows: seq<string>, width: int, w: Widths) {
    forall k :: 0 <= k < |rows| ==> Width(rows[k], w) == width
  }

  lemma {:induction false} FramedAllWidth(rows: seq<string>, g: Glyphs, inner: int, w: Widths)
    requires OneColumn(g, w)
    ensures AllWide(FramedAll(rows, g, inner, w), inner + 4, w) <==> NoneWider(rows, inner, w)
  {
    if rows != [] {
      var first, more := Framed(rows[0], g, inner, w), FramedAll(rows[1..], g, inner, w);
      FramedWidth(rows[0], g, inner, w);
      FramedAllWidth(rows[1..], g, inner, w);
      AllWideSplits([first], more, inner + 4, w);
      NoneWiderSplits(rows[0], rows[1..], inner, w);
      assert rows == [rows[0]] + rows[1..] && [first][0] == first;
    }
  }

  lemma AllWideSplits(a: seq<string>, b: seq<string>, width: int, w: Widths)
    ensures AllWide(a + b, width, w) <==> AllWide(a, width, w) && AllWide(b, width, w)
  {
    if AllWide(a + b, width, w) {
      assert forall k :: 0 <= k < |a| ==> (a + b)[k] == a[k];
      assert forall k :: 0 <= k < |b| ==> (a + b)[|a| + k] == b[k];
    }
  }

  lemma NoneWiderSplits(first: string, more: seq<string>, inner: int, w: Widths)
    ensures NoneWider([first] + more, inner, w) <==> Width(first, w) <= inner && NoneWider(more, inner, w)
  {
    var all := [first] + more;
    if NoneWider(all, inner, w) {
      assert all[0] == first;
      assert forall k :: 0 <= k < |more| ==> all[k + 1] == more[k];
    }
  }

  lemma BarsAround(top: string, rows: seq<string>, bottom: string, width: int, w: Widths)
    requires Width(top, w) == width && Width(bottom, w) == width
    ensures AllWide([top] + rows + [bottom], width, w) <==> AllWide(rows, width, w)
  {
    AllWideSplits([top] + rows, [bottom], width, w);
    AllWideSplits([top], rows, width, w);
  }

  lemma BoxedIs(lines: seq<string>, g: Glyphs, width: int, inner: int, w: Widths)
    requires inner == Inner(lines, width, w) && Boxed(lines, g, width, w).Some?
    ensures 0 <= inner + 2
    ensures var bar := Repeat(g.horizontal, inner + 2);
      Boxed(lines, g, width, w).value
      == [[g.topLeft] + bar + [g.topRight]] + FramedAll(FittedAll(lines, inner, w), g, inner, w)
        + [[g.bottomLeft] + bar + [g.bottomRight]]
  {
  }

  lemma {:induction false} WidestIs(lines: seq<string>, w: Widths)
    ensures forall k :: 0 <= k < |lines| ==> Width(lines[k], w) <= Widest(lines, w)
    ensures lines != [] ==> exists k :: 0 <= k < |lines| && Width(lines[k], w) == Widest(lines, w)
  {
    if lines != [] {
      WidestIs(lines[1..], w);
      if |lines| == 1 || Width(lines[0], w) >= Widest(lines[1..], w) {
        assert Width(lines[0], w) == Widest(lines, w);
      } else {
        var k :| 0 <= k < |lines| - 1 && Width(lines[1..][k], w) == Widest(lines[1..], w);
        assert lines[k + 1] == lines[1..][k];
      }
    }
  }

  /** A box is as wide as asked, or else as its widest line needs, or has eight columns when all are narrower. */
  lemma BoxIsTight(lines: seq<string>, width: int, w: Widths)
    ensures var inner := Inner(lines, width, w);
      && inner <= width - 4
      && (inner < width - 4 ==>
            && (forall k :: 0 <= k < |lines| ==> Width(lines[k], w) <= inner)
            && (inner == 8 || exists k :: 0 <= k < |lines| && Width(lines[k], w) == inner))
  {
    WidestIs(lines, w);
  }

  /** The rows of a box, top and bottom included, have one width exactly when no fitted row is too wide. */
  lemma BoxIsEvenExactly(lines: seq<string>, g: Glyphs, width: int, w: Widths)
    requires OneColumn(g, w) && Boxed(lines, g, width, w).Some?
    ensures var inner := Inner(lines, width, w);
      AllWide(Boxed(lines, g, width, w).value, inner + 4, w) <==> NoneWider(FittedAll(lines, inner, w), inner, w)
  {
    var inner := Inner(lines, width, w);
    BoxedIs(lines, g, width, inner, w);
    var bar, rows := Repeat(g.horizontal, inner + 2), FramedAll(FittedAll(lines, inner, w), g, inner, w);
    var top, bottom := [g.topLeft] + bar + [g.topRight], [g.bottomLeft] + bar + [g.bottomRight];
    BarWidth(g.topLeft, g.topRight, g.horizontal, inner, w);
    BarWidth(g.bottomLeft, g.bottomRight, g.horizontal, inner, w);
    FramedAllWidth(FittedAll(lines, inner, w), g, inner, w);
    BarsAround(top, rows, bottom, inner + 4, w);
  }

  /** The box is never ragged: when every line that has to be wrapped has room for its rows, all rows have
      one width, within the one asked for. */
  lemma BoxIsEven(lines: seq<string>, g: Glyphs, width: int, w: Widths)
    requires OneColumn(g, w) && 4 <= width
    requires forall k :: 0 <= k < |lines| ==> HasRoom(lines[k], Inner(lines, width, w), w)
    ensures var inner := Inner(lines, width, w);
      && inner + 4 <= width
      && Boxed(lines, g, width, w).Some?
      && AllWide(Boxed(lines, g, width, w).value, inner + 4, w)
  {
    FittedAllFits(lines, Inner(lines, width, w), w);
    BoxIsEvenExactly(lines, g, width, w);
  }

  /** Spaces that leave ten columns leave room. */
  lemma TenColumnsAreRoom(n: nat, inner: int, w: Widths)
    requires w(' ') == 1
    ensures IndentHasRoom(Repeat(' ', n), inner, w) <==> n + 10 <= inner
  {
    RepeatWidth(' ', n, w);
  }

  /** Two words as wide as the room, on a line of their own after an indent. */
  function TwoWords(word: string): string {
    word + (" " + word)
  }

  lemma TwoWordsAreThreeTokens(word: string)
    requires IsToken(word, false)
    ensures Tokens(TwoWords(word)) == [word, " ", word]
  {
    var tail := " " + word;
    LastOfToken(word, false);
    LeadingConcat(word, tail, false);
    assert TwoWords(word)[..|word|] == word && TwoWords(word)[|word|..] == tail;
    assert tail[1..] == word && tail[..1] == " ";
    assert Leading(tail, true) == 1 + Leading(word, true);
    assert word[..|word|] == word && word[|word|..] == "";
    assert Tokens(word) == [word] + Tokens("");
  }

  lemma TwoRows(word: string, room: nat, w: Widths)
    requires IsToken(word, false) && Width(word, w) == room && room > 0
    ensures Rows("", Tokens(TwoWords(word)), room, w) == [word, word]
  {
    TwoWordsAreThreeTokens(word);
    var tokens := Tokens(TwoWords(word));
    LastOfToken(word, false);
    assert tokens[1..] == [" ", word] && tokens[1..][1..] == [word];
    TrimEndDropsSpace(word, " ");
    WidthConcat(word, " ", w);
    var line := word + " ";
    assert Rows("", tokens, room, w) == Rows(word, tokens[1..], room, w);
    assert Rows(word, tokens[1..], room, w) == Rows(line, tokens[1..][1..], room, w);
    assert Rows(line, [word], room, w) == [TrimEnd(line)] + Rows(word, [word][1..], room, w);
    assert Rows(word, [], room, w) == [TrimEnd(word)];
  }

  lemma {:induction false} WordOf(c: char, n: nat)
    requires !IsSpace(c)
    ensures AllSpace(Repeat(c, n), false)
  {
    if n > 0 {
      WordOf(c, n - 1);
      assert ([c] + Repeat(c, n - 1))[1..] == Repeat(c, n - 1);
    }
  }

  lemma IndentIsFound(indent: string, word: string)
    requires AllSpace(indent, true) && IsToken(word, false)
    ensures var line := indent + TwoWords(word);
      IndentOf(line) == indent && line[|indent|..] == TwoWords(word)
  {
    LastOfToken(word, false);
    LeadingConcat(indent, TwoWords(word), true);
  }

  lemma HangTwo(indent: string, word: string, room: nat, w: Widths)
    requires Width(word, w) <= room
    ensures var hung := Hang(indent, HardWrapAll([word, word], room, w), true);
      |hung| == 2 && hung[1] == indent + SetIn(false) + word
  {
    var words := [word, word];
    assert words[1..] == [word] && words[1..][1..] == [];
    assert HardWrapAll(words[1..], room, w) == [word];
    assert HardWrapAll(words, room, w) == words;
    assert Hang(indent, words[1..], false) == [indent + SetIn(false) + word];
  }

  lemma LineWidth(indent: string, word: string, w: Widths)
    requires w(' ') == 1
    ensures Width(indent + TwoWords(word), w) == Width(indent, w) + 2 * Width(word, w) + 1
  {
    OneWide(' ', w);
    WidthConcat(" ", word, w);
    WidthConcat(word, " " + word, w);
    WidthConcat(indent, TwoWords(word), w);
  }

  /** An indent without room does spoil the box: some text behind it is wrapped into a row that is too wide. */
  lemma TightIndentOverflows(indent: string, inner: int, w: Widths)
    requires AllSpace(indent, true) && w(' ') == w('x') == 1 && !IndentHasRoom(indent, inner, w)
    ensures exists text :: IndentOf(indent + text) == indent && !NoneWider(Fitted(indent + text, inner, w), inner, w)
  {
    var room := Room(inner, indent);
    var word := Repeat('x', room);
    var line := indent + TwoWords(word);
    RepeatWidth('x', room, w);
    WordOf('x', room);
    IndentIsFound(indent, word);
    LineWidth(indent, word, w);
    TwoRows(word, room, w);
    HangTwo(indent, word, room, w);
    RowWidth(indent, false, word, w);
    assert Width(Fitted(line, inner, w)[1], w) > inner;
  }

  /** An indent is safe for every text exactly when it leaves room. */
  lemma IndentIsSafe(indent: string, inner: int, w: Widths)
    requires AllSpace(indent, true) && w(' ') == w('x') == 1
    ensures IndentHasRoom(indent, inner, w) <==>
      forall text :: IndentOf(indent + text) == indent ==> NoneWider(Fitted(indent + text, inner, w), inner, w)
  {
    if IndentHasRoom(indent, inner, w) {
      forall text | IndentOf(indent + text) == indent
        ensures NoneWider(Fitted(indent + text, inner, w), inner, w)
      {
        FittedFits(indent + text, inner, w);
      }
    } else {
      TightIndentOverflows(indent, inner, w);
    }
  }

  // ---------------------------------------------------------------- nothing dropped but white space

  lemma {:induction false} HardWrapAllKeeps(rows: seq<string>, room: nat, w: Widths)
    ensures Flatten(HardWrapAll(rows, room, w)) == Flatten(rows)
  {
    if rows != [] {
      HardWrapIsExact(rows[0], room, w);
      HardWrapAllKeeps(rows[1..], room, w);
      FlattenConcat(HardWrapped(rows[0], room, w), HardWrapAll(rows[1..], room, w));
    }
  }

  lemma {:induction false} BlanksAreSpace(n: nat)
    ensures AllSpace(Repeat(' ', n), true)
  {
    if n > 0 {
      BlanksAreSpace(n - 1);
      assert ([' '] + Repeat(' ', n - 1))[1..] == Repeat(' ', n - 1);
    }
  }

  lemma RowInk(indent: string, first: bool, part: string)
    requires AllSpace(indent, true)
    ensures Ink(indent + SetIn(first) + part) == Ink(part)
  {
    BlanksAreSpace(if first then 0 else 2);
    LeadingConcat(indent, SetIn(first), true);
    SpaceHasNoInk(indent + SetIn(first));
    InkConcat(indent + SetIn(first), part);
  }

  lemma {:induction false} HangKeepsInk(indent: string, parts: seq<string>, first: bool)
    requires AllSpace(indent, true)
    ensures Ink(Flatten(Hang(indent, parts, first))) == Ink(Flatten(parts))
    decreases |parts|
  {
    if parts != [] {
      var row, more := indent + SetIn(first) + parts[0], Hang(indent, parts[1..], false);
      RowInk(indent, first, parts[0]);
      HangKeepsInk(indent, parts[1..], false);
      assert ([row] + more)[1..] == more;
      InkConcat(row, Flatten(more));
      InkConcat(parts[0], Flatten(parts[1..]));
    }
  }

  lemma WrappedKeepsInk(text: string, room: nat, w: Widths)
    ensures Ink(Flatten(HardWrapAll(Rows("", Tokens(text), room, w), room, w))) == Ink(text)
  {
    var rows := Rows("", Tokens(text), room, w);
    WrapRunsWraps(text, room, w);
    WrapsKeepInk(rows, text, room, w);
    HardWrapAllKeeps(rows, room, w);
  }

  lemma IndentHasNoInk(line: string)
    ensures AllSpace(IndentOf(line), true) && Ink(line[|IndentOf(line)|..]) == Ink(line)
  {
    var indent := IndentOf(line);
    LeadingIsAll(line, true);
    assert line == indent + line[|indent|..];
    InkConcat(indent, line[|indent|..]);
    SpaceHasNoInk(indent);
  }

  lemma FlattenOne(line: string)
    ensures Flatten([line]) == line
  {
    assert [line][1..] == [];
  }

  lemma FittedKeepsInk(line: string, inner: int, w: Widths)
    ensures Ink(Flatten(Fitted(line, inner, w))) == Ink(line)
  {
    FlattenOne(line);
    if Width(line, w) > inner {
      var indent := IndentOf(line);
      var room, rest := Room(inner, indent), line[|indent|..];
      IndentHasNoInk(line);
      WrappedKeepsInk(rest, room, w);
      HangKeepsInk(indent, HardWrapAll(Rows("", Tokens(rest), room, w), room, w), true);
    }
  }

  /** The box says everything the lines say: read row by row inside the frame, the characters that are not
      white space are those of the lines, in order. */
  lemma {:induction false} BoxKeepsInk(lines: seq<string>, inner: int, w: Widths)
    ensures Ink(Flatten(FittedAll(lines, inner, w))) == Ink(Flatten(lines))
    decreases |lines|
  {
    if lines != [] {
      FittedKeepsInk(lines[0], inner, w);
      BoxKeepsInk(lines[1..], inner, w);
      FlattenConcat(Fitted(lines[0], inner, w), FittedAll(lines[1..], inner, w));
      InkConcat(Flatten(Fitted(lines[0], inner, w)), Flatten(FittedAll(lines[1..], inner, w)));
      InkConcat(lines[0], Flatten(lines[1..]));
    }
  }

  // ---------------------------------------------------------------- every row where it belongs

  lemma {:induction false} FramedAllAt(rows: seq<string>, g: Glyphs, inner: int, w: Widths, k: nat)
    requires k < |rows|
    ensures |FramedAll(rows, g, inner, w)| == |rows| && FramedAll(rows, g, inner, w)[k] == Framed(rows[k], g, inner, w)
  {
    if |rows| > 1 {
      FramedAllAt(rows[1..], g, inner, w, if k > 0 then k - 1 else 0);
    }
  }

  /** The text between the sides of a framed row, without the padding. */
  function Content(framed: string): string
    requires |framed| >= 4
  {
    TrimEnd(framed[2..|framed| - 1])
  }

  lemma FramedHolds(row: string, g: Glyphs, inner: int, w: Widths)
    ensures var framed := Framed(row, g, inner, w);
      && |framed| >= 4 && framed[0] == framed[|framed| - 1] == g.vertical
      && Content(framed) == TrimEnd(row)
  {
    var n := Max(0, inner - Width(row, w));
    var pad, framed := Repeat(' ', n), Framed(row, g, inner, w);
    BlanksAreSpace(n);
    BlanksAreSpace(1);
    assert Repeat(' ', 1) == " ";
    LeadingConcat(pad, " ", true);
    assert framed[2..|framed| - 1] == row + (pad + " ");
    TrimEndDropsSpace(row, pad + " ");
  }

  /** Between its two bars the box shows the fitted rows, one a row, in order. */
  lemma BoxShowsTheRows(lines: seq<string>, g: Glyphs, width: int, w: Widths, k: nat)
    requires Boxed(lines, g, width, w).Some? && k < |FittedAll(lines, Inner(lines, width, w), w)|
    ensures var box, rows := Boxed(lines, g, width, w).value, FittedAll(lines, Inner(lines, width, w), w);
      && |box| == |rows| + 2
      && |box[k + 1]| >= 4 && Content(box[k + 1]) == TrimEnd(rows[k])
  {
    var inner := Inner(lines, width, w);
    var rows := FittedAll(lines, inner, w);
    var bar := Repeat(g.horizontal, inner + 2);
    FramedAllAt(rows, g, inner, w, k);
    FramedHolds(rows[k], g, inner, w);
    var top, bottom := [g.topLeft] + bar + [g.topRight], [g.bottomLeft] + bar + [g.bottomRight];
    BetweenBars(top, FramedAll(rows, g, inner, w), bottom, k);
  }

  lemma BetweenBars(top: string, rows: seq<string>, bottom: string, k: nat)
    requires k < |rows|
    ensures ([top] + rows + [bottom])[k + 1] == rows[k]
  {
  }
}
