/**
 * Logical lines as the terminal lays them out (`chunkByColumns` and `layout` in
 * src/cli/editor.ts), and why the cursor it computes is where the text before it ends.
 */
module Layout {
  import opened Strings
  import opened Lines

  /** Columns one character takes: the range of `charWidth` in src/cli/render.ts. */
  type Cells = n: nat | n <= 2 witness 1

  type Widths = char -> Cells

  /** One character on screen, or a colour code the terminal consumes. */
  datatype Sym = Ch(c: char) | Sgr(code: string)

  type Styled = seq<Sym>

  function Plain(text: string): (s: Styled)
    ensures |s| == |text|
    ensures forall k :: 0 <= k < |s| ==> s[k] == Ch(text[k])
  {
    seq(|text|, k requires 0 <= k < |text| => Ch(text[k]))
  }

  /** The characters a frame is drawn with. */
  datatype Glyphs = Glyphs(topLeft: char, topRight: char, bottomLeft: char, bottomRight: char, horizontal: char,
    vertical: char)

  // ---------------------------------------------------------------- widths

  function Width(text: string, w: Widths): nat {
    if text == "" then 0 else w(text[0]) + Width(text[1..], w)
  }

  function SymWidth(sym: Sym, w: Widths): nat {
    match sym
    case Ch(c) => w(c)
    case Sgr(_) => 0
  }

  /** `visibleWidth`: colour codes take no column. */
  function VisibleWidth(s: Styled, w: Widths): nat {
    if s == [] then 0 else SymWidth(s[0], w) + VisibleWidth(s[1..], w)
  }

  lemma {:induction false} WidthConcat(a: string, b: string, w: Widths)
    ensures Width(a + b, w) == Width(a, w) + Width(b, w)
  {
    if a == "" {
      assert a + b == b;
    } else {
      assert (a + b)[1..] == a[1..] + b;
      WidthConcat(a[1..], b, w);
    }
  }

  lemma {:induction false} VisibleWidthConcat(a: Styled, b: Styled, w: Widths)
    ensures VisibleWidth(a + b, w) == VisibleWidth(a, w) + VisibleWidth(b, w)
  {
    if a == [] {
      assert a + b == b;
    } else {
      assert (a + b)[1..] == a[1..] + b;
      VisibleWidthConcat(a[1..], b, w);
    }
  }

  lemma {:induction false} PlainWidth(text: string, w: Widths)
    ensures VisibleWidth(Plain(text), w) == Width(text, w)
  {
    if text != "" {
      assert Plain(text)[1..] == Plain(text[1..]);
      PlainWidth(text[1..], w);
    }
  }

  // ---------------------------------------------------------------- chunking

  /** The pieces still to come, the open one holding `piece`. */
  function Pieces(piece: string, rest: string, budget: nat, w: Widths): (out: seq<string>)
    ensures out != []
    decreases |rest|
  {
    if rest == "" then [piece]
    else if Width(piece, w) + w(rest[0]) > budget && piece != "" then
      [piece] + Pieces([rest[0]], rest[1..], budget, w)
    else
      Pieces(piece + [rest[0]], rest[1..], budget, w)
  }

  function Chunks(text: string, width: int, w: Widths): (out: seq<string>)
    ensures out != []
  {
    var budget := Max(1, width);
    if Width(text, w) <= budget then [text] else Pieces("", text, budget, w)
  }

  method ChunkByColumns(text: string, width: int, w: Widths) returns (out: seq<string>)
    ensures out == Chunks(text, width, w)
  {
    var budget := Max(1, width);
    if Width(text, w) <= budget {
      return [text];
    }
    ghost var all := Pieces("", text, budget, w);
    out := [];
    var piece, used := "", 0;
    assert text[0..] == text;
    for i := 0 to |text|
      invariant used == Width(piece, w)
      invariant all == out + Pieces(piece, text[i..], budget, w)
    {
      var c := text[i];
      assert text[i..][0] == c && text[i..][1..] == text[i + 1..];
      if used + w(c) > budget && piece != "" {
        assert out + ([piece] + Pieces([c], text[i + 1..], budget, w))
          == out + [piece] + Pieces([c], text[i + 1..], budget, w);
        out := out + [piece];
        piece, used := "", 0;
        assert "" + [c] == [c];
      }
      WidthConcat(piece, [c], w);
      assert Width([c], w) == w(c) by { assert [c][1..] == ""; }
      piece, used := piece + [c], used + w(c);
    }
    out := out + [piece];
  }

  /** A piece is never empty unless there was nothing to cut, and never wider than the budget. */
  ghost predicate Fits(pieces: seq<string>, budget: nat, w: Widths) {
    forall k :: 0 <= k < |pieces| ==> Width(pieces[k], w) <= budget
  }

  ghost predicate NoneEmpty(pieces: seq<string>) {
    forall k :: 0 <= k < |pieces| ==> pieces[k] != ""
  }

  /** No piece could have taken the first character of the next. */
  ghost predicate Greedy(pieces: seq<string>, budget: nat, w: Widths) {
    forall k :: 0 < k < |pieces| ==> pieces[k] != "" && Width(pieces[k - 1], w) + w(pieces[k][0]) > budget
  }

  lemma {:induction false} PiecesCover(piece: string, rest: string, budget: nat, w: Widths)
    ensures Flatten(Pieces(piece, rest, budget, w)) == piece + rest
    ensures piece != "" || rest != "" ==> NoneEmpty(Pieces(piece, rest, budget, w))
    ensures piece != "" ==> Pieces(piece, rest, budget, w)[0] != "" && Pieces(piece, rest, budget, w)[0][0] == piece[0]
    decreases |rest|
  {
    if rest == "" {
      assert [piece][1..] == [];
    } else if Width(piece, w) + w(rest[0]) > budget && piece != "" {
      PiecesCover([rest[0]], rest[1..], budget, w);
      var more := Pieces([rest[0]], rest[1..], budget, w);
      assert ([piece] + more)[1..] == more;
      assert [rest[0]] + rest[1..] == rest;
    } else {
      PiecesCover(piece + [rest[0]], rest[1..], budget, w);
      assert piece + [rest[0]] + rest[1..] == piece + rest;
    }
  }

  lemma {:induction false} PiecesFit(piece: string, rest: string, budget: nat, w: Widths)
    requires Width(piece, w) <= budget && 2 <= budget
    ensures Fits(Pieces(piece, rest, budget, w), budget, w)
    decreases |rest|
  {
    if rest != "" {
      OneChar(rest[0], w);
      if Width(piece, w) + w(rest[0]) > budget && piece != "" {
        PiecesFit([rest[0]], rest[1..], budget, w);
      } else {
        WidthConcat(piece, [rest[0]], w);
        PiecesFit(piece + [rest[0]], rest[1..], budget, w);
      }
    }
  }

  lemma {:induction false} PiecesGreedy(piece: string, rest: string, budget: nat, w: Widths)
    ensures Greedy(Pieces(piece, rest, budget, w), budget, w)
    decreases |rest|
  {
    if rest != "" {
      if Width(piece, w) + w(rest[0]) > budget && piece != "" {
        PiecesGreedy([rest[0]], rest[1..], budget, w);
        PiecesCover([rest[0]], rest[1..], budget, w);
      } else {
        PiecesGreedy(piece + [rest[0]], rest[1..], budget, w);
      }
    }
  }

  lemma OneChar(c: char, w: Widths)
    ensures Width([c], w) == w(c)
  {
    assert [c][1..] == "";
  }

  /** Cutting loses nothing, cuts no character, overfills no row and leaves no row needlessly short. */
  lemma ChunksAreExact(text: string, width: int, w: Widths)
    ensures var out := Chunks(text, width, w);
      && Flatten(out) == text
      && (text != "" ==> NoneEmpty(out))
      && (2 <= width ==> Fits(out, width, w))
      && Greedy(out, Max(1, width), w)
  {
    var budget := Max(1, width);
    if Width(text, w) <= budget {
      assert [text][1..] == [];
    } else {
      PiecesCover("", text, budget, w);
      PiecesGreedy("", text, budget, w);
      assert "" + text == text;
      if 2 <= width {
        PiecesFit("", text, budget, w);
      }
    }
  }

  // ---------------------------------------------------------------- one logical line

  function NonEmpty(pieces: seq<string>): (r: seq<string>)
    ensures NoneEmpty(pieces) ==> r == pieces
  {
    if pieces == [] then []
    else if pieces[0] == "" then NonEmpty(pieces[1..])
    else [pieces[0]] + NonEmpty(pieces[1..])
  }

  /** What is before the text of row `k` of a logical line: the prompt, and only on the first. */
  function Margin(k: nat, prefixWidth: nat): nat {
    if k == 0 then prefixWidth else 0
  }

  function LastRowWidth(rows: seq<string>, prefixWidth: nat, w: Widths): nat
    requires rows != []
  {
    Margin(|rows| - 1, prefixWidth) + Width(Last(rows), w)
  }

  /** The text of each row of a logical line, before the empty row after a full one. */
  function FilledRows(line: string, prefixWidth: nat, columns: nat, w: Widths): (rows: seq<string>)
    ensures rows != []
  {
    var head := Chunks(line, Max(1, columns - prefixWidth), w)[0];
    if |head| <= |line| then [head] + NonEmpty(Chunks(line[|head|..], columns, w)) else [head]
  }

  function LineRows(line: string, prefixWidth: nat, columns: nat, w: Widths): (rows: seq<string>)
    ensures rows != []
  {
    var rows := FilledRows(line, prefixWidth, columns, w);
    if LastRowWidth(rows, prefixWidth, w) >= columns then rows + [""] else rows
  }

  /** The cursor's row and column within the rows of its logical line, as the source computes them. */
  function LineCursor(line: string, col: nat, prefixWidth: nat, columns: nat, w: Widths): (nat, nat)
    requires col <= |line| && columns > 0
  {
    var upto := Width(line[..col], w);
    if upto + prefixWidth < columns then (0, prefixWidth + upto)
    else
      var past := upto + prefixWidth - columns;
      (1 + past / columns, past % columns)
  }

  lemma HeadIsFirst(line: string, width: int, w: Widths)
    ensures var head := Chunks(line, width, w)[0];
      && |head| <= |line| && head == line[..|head|]
      && (line != "" ==> head != "")
      && (2 <= width ==> Width(head, w) <= width)
      && (|head| < |line| ==> Width(head, w) + w(line[|head|]) > Max(1, width))
  {
    var out := Chunks(line, width, w);
    ChunksAreExact(line, width, w);
    assert line == out[0] + Flatten(out[1..]);
    if |out[0]| < |line| {
      assert |out| > 1;
      assert out[1] != "";
      assert Flatten(out[1..]) == out[1] + Flatten(out[1..][1..]);
    }
  }

  lemma RestRows(line: string, prefixWidth: nat, columns: nat, w: Widths)
    ensures var head := Chunks(line, Max(1, columns - prefixWidth), w)[0];
      && |head| <= |line|
      && var rest := line[|head|..];
        FilledRows(line, prefixWidth, columns, w) == [head] + if rest == "" then [] else Chunks(rest, columns, w)
  {
    HeadIsFirst(line, Max(1, columns - prefixWidth), w);
    var head := Chunks(line, Max(1, columns - prefixWidth), w)[0];
    var rest := line[|head|..];
    ChunksAreExact(rest, columns, w);
    if rest == "" {
      assert Width("", w) == 0;
      assert Chunks(rest, columns, w) == [""];
      assert NonEmpty([""]) == NonEmpty([""][1..]) == [];
    }
  }

  /** The rows of a line hold its text and nothing else. */
  lemma RowsHoldTheLine(line: string, prefixWidth: nat, columns: nat, w: Widths)
    ensures Flatten(LineRows(line, prefixWidth, columns, w)) == line
  {
    var rows := FilledRows(line, prefixWidth, columns, w);
    var head := Chunks(line, Max(1, columns - prefixWidth), w)[0];
    RestRows(line, prefixWidth, columns, w);
    HeadIsFirst(line, Max(1, columns - prefixWidth), w);
    var rest := line[|head|..];
    ChunksAreExact(rest, columns, w);
    assert rows[1..] == if rest == "" then [] else Chunks(rest, columns, w);
    assert Flatten(rows) == head + rest == line;
    FlattenConcat(rows, [""]);
    assert [""][1..] == [] && Flatten([""]) == "";
  }

  ghost predicate RowsFit(rows: seq<string>, prefixWidth: nat, columns: nat, w: Widths) {
    forall k :: 0 <= k < |rows| ==> Margin(k, prefixWidth) + Width(rows[k], w) <= columns
  }

  lemma FilledRowsFit(line: string, prefixWidth: nat, columns: nat, w: Widths)
    requires prefixWidth + 2 <= columns
    ensures RowsFit(FilledRows(line, prefixWidth, columns, w), prefixWidth, columns, w)
  {
    var rows := FilledRows(line, prefixWidth, columns, w);
    var head := Chunks(line, columns - prefixWidth, w)[0];
    RestRows(line, prefixWidth, columns, w);
    HeadIsFirst(line, columns - prefixWidth, w);
    var rest := line[|head|..];
    ChunksAreExact(rest, columns, w);
    var out := if rest == "" then [] else Chunks(rest, columns, w);
    assert rows == [head] + out;
    forall k | 0 <= k < |rows| ensures Margin(k, prefixWidth) + Width(rows[k], w) <= columns {
      assert k > 0 ==> rows[k] == out[k - 1];
    }
  }

  /** With room for one character beside the prefix, every row fits and the last is never full. */
  lemma LineRowsFit(line: string, prefixWidth: nat, columns: nat, w: Widths)
    requires prefixWidth + 2 <= columns
    ensures RowsFit(LineRows(line, prefixWidth, columns, w), prefixWidth, columns, w)
    ensures LastRowWidth(LineRows(line, prefixWidth, columns, w), prefixWidth, w) < columns
  {
    FilledRowsFit(line, prefixWidth, columns, w);
    var filled, rows := FilledRows(line, prefixWidth, columns, w), LineRows(line, prefixWidth, columns, w);
    assert Width("", w) == 0;
    forall k | 0 <= k < |rows| ensures Margin(k, prefixWidth) + Width(rows[k], w) <= columns {
      assert k < |filled| ==> rows[k] == filled[k];
    }
  }

  /**
   * That room is exactly what the rows need: if some character is two columns wide, every line
   * fits the width exactly when two columns are left beside the prefix.
   */
  lemma RowsFitWhenRoom(prefixWidth: nat, columns: nat, wide: char, w: Widths)
    requires w(wide) == 2
    ensures prefixWidth + 2 <= columns
      <==> forall line :: RowsFit(LineRows(line, prefixWidth, columns, w), prefixWidth, columns, w)
  {
    if prefixWidth + 2 <= columns {
      forall line ensures RowsFit(LineRows(line, prefixWidth, columns, w), prefixWidth, columns, w) {
        LineRowsFit(line, prefixWidth, columns, w);
      }
    } else {
      var line := [wide];
      var width := Max(1, columns - prefixWidth);
      OneChar(wide, w);
      HeadIsFirst(line, width, w);
      var head := Chunks(line, width, w)[0];
      assert head == line;
      RestRows(line, prefixWidth, columns, w);
      var rows := LineRows(line, prefixWidth, columns, w);
      assert rows[0] == head;
      assert !RowsFit(rows, prefixWidth, columns, w);
    }
  }

  // ---------------------------------------------------------------- the cursor stays on a row

  /** The columns `n` rows hold. */
  function Area(n: nat, columns: nat): nat {
    if n == 0 then 0 else Area(n - 1, columns) + columns
  }

  lemma {:induction false} AreaIsProduct(n: nat, columns: nat)
    ensures Area(n, columns) == n * columns
  {
    if n > 0 {
      AreaIsProduct(n - 1, columns);
    }
  }

  lemma {:induction false} RowsBoundWidth(rows: seq<string>, columns: nat, w: Widths)
    requires Fits(rows, columns, w)
    ensures Width(Flatten(rows), w) <= Area(|rows|, columns)
  {
    if rows != [] {
      WidthConcat(rows[0], Flatten(rows[1..]), w);
      RowsBoundWidth(rows[1..], columns, w);
    }
  }

  /** The cell of column `x`, counting on through rows of `columns` each. */
  ghost predicate CellOf(cell: (nat, nat), x: nat, columns: nat) {
    Area(cell.0, columns) + cell.1 == x && cell.1 < columns
  }

  lemma {:induction false} CellIsUnique(p: (nat, nat), q: (nat, nat), x: nat, columns: nat)
    requires CellOf(p, x, columns) && CellOf(q, x, columns)
    ensures p == q
    decreases p.0
  {
    if p.0 > 0 && q.0 > 0 {
      CellIsUnique((p.0 - 1, p.1), (q.0 - 1, q.1), x - columns, columns);
    }
  }

  lemma {:induction false} CellIsAbove(cell: (nat, nat), x: nat, n: nat, columns: nat)
    requires CellOf(cell, x, columns) && x < Area(n, columns)
    ensures cell.0 < n
    decreases n
  {
    if cell.0 > 0 {
      CellIsAbove((cell.0 - 1, cell.1), x - columns, n - 1, columns);
    }
  }

  /** Both branches of the cursor arithmetic find the cell of the width before the cursor. */
  lemma CursorIsCell(line: string, col: nat, prefixWidth: nat, columns: nat, w: Widths)
    requires col <= |line| && columns > 0
    ensures CellOf(LineCursor(line, col, prefixWidth, columns, w), prefixWidth + Width(line[..col], w), columns)
  {
    var x := prefixWidth + Width(line[..col], w);
    if x >= columns {
      DivisionIsCell(x - columns, columns);
    }
  }

  lemma DivisionIsCell(y: nat, columns: nat)
    requires columns > 0
    ensures Area(y / columns, columns) + y % columns == y && y % columns < columns
  {
    AreaIsProduct(y / columns, columns);
  }

  /** The width of a line is less than its rows hold, so the cursor is on one of them. */
  lemma CursorOnARow(line: string, col: nat, prefixWidth: nat, columns: nat, w: Widths)
    requires col <= |line| && prefixWidth + 2 <= columns
    ensures LineCursor(line, col, prefixWidth, columns, w).0 < |LineRows(line, prefixWidth, columns, w)|
    ensures LineCursor(line, col, prefixWidth, columns, w).1 < columns
  {
    var rows := LineRows(line, prefixWidth, columns, w);
    LineRowsFit(line, prefixWidth, columns, w);
    RowsHoldTheLine(line, prefixWidth, columns, w);
    CursorIsCell(line, col, prefixWidth, columns, w);
    assert line == line[..col] + line[col..];
    WidthConcat(line[..col], line[col..], w);
    WidthBelowRows(rows, prefixWidth, columns, w);
    CellIsAbove(LineCursor(line, col, prefixWidth, columns, w), prefixWidth + Width(line[..col], w), |rows|, columns);
  }

  /** Rows after the first have no margin. */
  lemma LaterRowsFit(rows: seq<string>, prefixWidth: nat, columns: nat, w: Widths)
    requires rows != [] && RowsFit(rows, prefixWidth, columns, w)
    ensures Fits(rows[1..], columns, w)
  {
    forall k | 0 <= k < |rows[1..]| ensures Width(rows[1..][k], w) <= columns {
      assert rows[1..][k] == rows[k + 1] && Margin(k + 1, prefixWidth) == 0;
    }
  }

  lemma {:induction false} FlattenLast(rows: seq<string>, w: Widths)
    requires rows != []
    ensures Width(Flatten(rows), w) == Width(Flatten(Init(rows)), w) + Width(Last(rows), w)
  {
    assert rows == Init(rows) + [Last(rows)];
    FlattenConcat(Init(rows), [Last(rows)]);
    assert [Last(rows)][1..] == [];
    assert Flatten([Last(rows)]) == Last(rows);
    WidthConcat(Flatten(Init(rows)), Last(rows), w);
  }

  lemma WidthBelowRows(rows: seq<string>, prefixWidth: nat, columns: nat, w: Widths)
    requires rows != [] && RowsFit(rows, prefixWidth, columns, w) && LastRowWidth(rows, prefixWidth, w) < columns
    ensures prefixWidth + Width(Flatten(rows), w) < Area(|rows|, columns)
  {
    var body := Init(rows);
    FlattenLast(rows, w);
    if body == [] {
      assert Flatten(body) == "" && Width("", w) == 0;
    } else {
      assert body[0] == rows[0] && Margin(0, prefixWidth) == prefixWidth;
      WidthConcat(body[0], Flatten(body[1..]), w);
      LaterRowsFit(rows, prefixWidth, columns, w);
      assert body[1..] == rows[1..][..|body| - 1];
      RowsBoundWidth(body[1..], columns, w);
    }
  }

  // ---------------------------------------------------------------- the cursor cell

  /** Walking the rows: the row that holds offset `col` of the line, and the offset in that row. */
  function Locate(rows: seq<string>, col: nat): (at: (nat, nat))
    requires rows != [] && col <= |Flatten(rows)|
    ensures at.0 < |rows| && at.1 <= |rows[at.0]|
    ensures at.0 < |rows| - 1 ==> at.1 < |rows[at.0]|
  {
    if |rows| == 1 then
      assert Flatten(rows) == rows[0] + Flatten([]);
      (0, col)
    else if col < |rows[0]| then (0, col)
    else
      var at := Locate(rows[1..], col - |rows[0]|);
      (at.0 + 1, at.1)
  }

  /** The column that cell starts at. */
  function CellColumn(rows: seq<string>, at: (nat, nat), prefixWidth: nat, w: Widths): nat
    requires at.0 < |rows| && at.1 <= |rows[at.0]|
  {
    Margin(at.0, prefixWidth) + Width(rows[at.0][..at.1], w)
  }

  /** Columns left blank at the ends of the first `n` rows: each is one a wide character did not fit. */
  function Blank(rows: seq<string>, n: nat, prefixWidth: nat, columns: nat, w: Widths): nat
    requires n <= |rows| && RowsFit(rows, prefixWidth, columns, w)
  {
    if n == 0 then 0
    else Blank(rows, n - 1, prefixWidth, columns, w) + (columns - Margin(n - 1, prefixWidth) - Width(rows[n - 1], w))
  }

  /** The text up to the cell is the text up to the cursor. */
  lemma {:induction false} LocateCovers(rows: seq<string>, col: nat)
    requires rows != [] && col <= |Flatten(rows)|
    ensures var at := Locate(rows, col);
      Flatten(rows[..at.0]) + rows[at.0][..at.1] == Flatten(rows)[..col]
  {
    var at := Locate(rows, col);
    if |rows| == 1 {
      assert Flatten(rows) == rows[0] + Flatten([]) == rows[0];
    } else if col >= |rows[0]| {
      LocateCovers(rows[1..], col - |rows[0]|);
      assert rows[..at.0][0] == rows[0];
      assert rows[..at.0][1..] == rows[1..][..at.0 - 1];
    }
  }

  lemma {:induction false} RowsAndBlanks(rows: seq<string>, n: nat, prefixWidth: nat, columns: nat, w: Widths)
    requires n <= |rows| && RowsFit(rows, prefixWidth, columns, w)
    ensures n == 0 ==> Width(Flatten(rows[..n]), w) == 0
    ensures n > 0
      ==> prefixWidth + Width(Flatten(rows[..n]), w) + Blank(rows, n, prefixWidth, columns, w) == Area(n, columns)
  {
    if n > 0 {
      RowsAndBlanks(rows, n - 1, prefixWidth, columns, w);
      assert rows[..n] == rows[..n - 1] + [rows[n - 1]];
      FlattenConcat(rows[..n - 1], [rows[n - 1]]);
      assert [rows[n - 1]][1..] == [];
      assert Flatten([rows[n - 1]]) == rows[n - 1];
      WidthConcat(Flatten(rows[..n - 1]), rows[n - 1], w);
      assert rows[..0] == [];
      assert Width(Flatten([]), w) == 0;
    }
  }

  /** The cell where the text before the cursor ends, walking the rows as they are drawn. */
  function DrawnCell(line: string, col: nat, prefixWidth: nat, columns: nat, w: Widths): (nat, nat)
    requires col <= |line|
  {
    var rows := LineRows(line, prefixWidth, columns, w);
    RowsHoldTheLine(line, prefixWidth, columns, w);
    var at := Locate(rows, col);
    (at.0, CellColumn(rows, at, prefixWidth, w))
  }

  /** That cell, in columns from the start of the line's first row. */
  lemma CellIsLinear(line: string, col: nat, prefixWidth: nat, columns: nat, w: Widths)
    requires col <= |line| && prefixWidth + 2 <= columns
    ensures RowsFit(LineRows(line, prefixWidth, columns, w), prefixWidth, columns, w)
    ensures var cell := DrawnCell(line, col, prefixWidth, columns, w);
      cell.0 < |LineRows(line, prefixWidth, columns, w)| &&
      Area(cell.0, columns) + cell.1
        == prefixWidth + Width(line[..col], w)
          + Blank(LineRows(line, prefixWidth, columns, w), cell.0, prefixWidth, columns, w)
  {
    var rows := LineRows(line, prefixWidth, columns, w);
    RowsHoldTheLine(line, prefixWidth, columns, w);
    LineRowsFit(line, prefixWidth, columns, w);
    var at := Locate(rows, col);
    LocateCovers(rows, col);
    WidthConcat(Flatten(rows[..at.0]), rows[at.0][..at.1], w);
    RowsAndBlanks(rows, at.0, prefixWidth, columns, w);
  }

  /**
   * The computed cursor is the cell where the text before it ends exactly when no row above it was
   * left short and that cell is not past the last column.
   */
  lemma CursorCell(line: string, col: nat, prefixWidth: nat, columns: nat, w: Widths)
    requires col <= |line| && prefixWidth + 2 <= columns
    ensures RowsFit(LineRows(line, prefixWidth, columns, w), prefixWidth, columns, w)
    ensures var cell := DrawnCell(line, col, prefixWidth, columns, w);
      cell.0 < |LineRows(line, prefixWidth, columns, w)| &&
      (LineCursor(line, col, prefixWidth, columns, w) == cell) ==
        (Blank(LineRows(line, prefixWidth, columns, w), cell.0, prefixWidth, columns, w) == 0 && cell.1 < columns)
  {
    CellIsLinear(line, col, prefixWidth, columns, w);
    CursorIsCell(line, col, prefixWidth, columns, w);
    var cell := DrawnCell(line, col, prefixWidth, columns, w);
    var blank := Blank(LineRows(line, prefixWidth, columns, w), cell.0, prefixWidth, columns, w);
    SameCell(LineCursor(line, col, prefixWidth, columns, w), prefixWidth + Width(line[..col], w), cell, blank, columns);
  }

  lemma SameCell(cursor: (nat, nat), x: nat, cell: (nat, nat), blank: nat, columns: nat)
    requires CellOf(cursor, x, columns) && Area(cell.0, columns) + cell.1 == x + blank
    ensures (cursor == cell) == (blank == 0 && cell.1 < columns)
  {
    if blank == 0 && cell.1 < columns {
      CellIsUnique(cursor, cell, x, columns);
    }
  }

  ghost predicate Narrow(text: string, w: Widths) {
    forall k :: 0 <= k < |text| ==> w(text[k]) == 1
  }

  lemma {:induction false} NarrowWidth(text: string, w: Widths)
    requires Narrow(text, w)
    ensures Width(text, w) == |text|
  {
    if text != "" {
      NarrowWidth(text[1..], w);
    }
  }

  /** Width-1 text fills every row but the last. */
  lemma NarrowRowsAreFull(line: string, prefixWidth: nat, columns: nat, w: Widths, k: nat)
    requires prefixWidth + 2 <= columns && Narrow(line, w)
    requires k < |LineRows(line, prefixWidth, columns, w)| - 1
    ensures Margin(k, prefixWidth) + Width(LineRows(line, prefixWidth, columns, w)[k], w) == columns
  {
    var filled := FilledRows(line, prefixWidth, columns, w);
    FilledRowsFit(line, prefixWidth, columns, w);
    if k < |filled| - 1 {
      if k == 0 {
        NarrowHeadIsFull(line, prefixWidth, columns, w);
      } else {
        NarrowPieceIsFull(line, prefixWidth, columns, w, k);
      }
    }
  }

  lemma NarrowHeadIsFull(line: string, prefixWidth: nat, columns: nat, w: Widths)
    requires prefixWidth + 2 <= columns && Narrow(line, w)
    requires |FilledRows(line, prefixWidth, columns, w)| > 1
    ensures prefixWidth + Width(FilledRows(line, prefixWidth, columns, w)[0], w) >= columns
  {
    RestRows(line, prefixWidth, columns, w);
    HeadIsFirst(line, columns - prefixWidth, w);
  }

  lemma NarrowPieceIsFull(line: string, prefixWidth: nat, columns: nat, w: Widths, k: nat)
    requires prefixWidth + 2 <= columns && Narrow(line, w)
    requires 0 < k < |FilledRows(line, prefixWidth, columns, w)| - 1
    ensures Width(FilledRows(line, prefixWidth, columns, w)[k], w) >= columns
  {
    var filled := FilledRows(line, prefixWidth, columns, w);
    var head := Chunks(line, columns - prefixWidth, w)[0];
    RestRows(line, prefixWidth, columns, w);
    HeadIsFirst(line, columns - prefixWidth, w);
    var rest := line[|head|..];
    ChunksAreExact(rest, columns, w);
    var out := Chunks(rest, columns, w);
    assert filled[k] == out[k - 1] && filled[k + 1] == out[k];
    PieceIsNarrow(out, k, rest, w);
  }

  lemma {:induction false} PieceIsNarrow(pieces: seq<string>, k: nat, text: string, w: Widths)
    requires k < |pieces| && Flatten(pieces) == text && Narrow(text, w)
    ensures Narrow(pieces[k], w)
  {
    if k == 0 {
      assert text[..|pieces[0]|] == pieces[0];
    } else {
      assert text[|pieces[0]|..] == Flatten(pieces[1..]);
      PieceIsNarrow(pieces[1..], k - 1, Flatten(pieces[1..]), w);
    }
  }

  lemma {:induction false} FullRowsLeaveNoBlank(rows: seq<string>, n: nat, prefixWidth: nat, columns: nat, w: Widths)
    requires n <= |rows| && RowsFit(rows, prefixWidth, columns, w)
    requires forall k :: 0 <= k < n ==> Margin(k, prefixWidth) + Width(rows[k], w) == columns
    ensures Blank(rows, n, prefixWidth, columns, w) == 0
  {
    if n > 0 {
      FullRowsLeaveNoBlank(rows, n - 1, prefixWidth, columns, w);
    }
  }

  lemma NarrowLeavesNoBlank(line: string, n: nat, prefixWidth: nat, columns: nat, w: Widths)
    requires prefixWidth + 2 <= columns && Narrow(line, w)
    requires n < |LineRows(line, prefixWidth, columns, w)|
    ensures RowsFit(LineRows(line, prefixWidth, columns, w), prefixWidth, columns, w)
    ensures Blank(LineRows(line, prefixWidth, columns, w), n, prefixWidth, columns, w) == 0
  {
    var rows := LineRows(line, prefixWidth, columns, w);
    LineRowsFit(line, prefixWidth, columns, w);
    forall k | 0 <= k < n ensures Margin(k, prefixWidth) + Width(rows[k], w) == columns {
      NarrowRowsAreFull(line, prefixWidth, columns, w, k);
    }
    FullRowsLeaveNoBlank(rows, n, prefixWidth, columns, w);
  }

  lemma NarrowCellInRows(rows: seq<string>, col: nat, prefixWidth: nat, columns: nat, w: Widths)
    requires rows != [] && col <= |Flatten(rows)| && Narrow(Flatten(rows), w)
    requires RowsFit(rows, prefixWidth, columns, w) && LastRowWidth(rows, prefixWidth, w) < columns
    ensures CellColumn(rows, Locate(rows, col), prefixWidth, w) < columns
  {
    var at := Locate(rows, col);
    PieceIsNarrow(rows, at.0, Flatten(rows), w);
    NarrowColumn(rows[at.0], at.1, Margin(at.0, prefixWidth), columns, w);
  }

  lemma NarrowCellOnScreen(line: string, col: nat, prefixWidth: nat, columns: nat, w: Widths)
    requires col <= |line| && prefixWidth + 2 <= columns && Narrow(line, w)
    ensures DrawnCell(line, col, prefixWidth, columns, w).1 < columns
  {
    RowsHoldTheLine(line, prefixWidth, columns, w);
    LineRowsFit(line, prefixWidth, columns, w);
    NarrowCellInRows(LineRows(line, prefixWidth, columns, w), col, prefixWidth, columns, w);
  }

  /** For width-1 text the cursor is always exactly where the text before it ends. */
  lemma NarrowCursorIsExact(line: string, col: nat, prefixWidth: nat, columns: nat, w: Widths)
    requires col <= |line| && prefixWidth + 2 <= columns && Narrow(line, w)
    ensures LineCursor(line, col, prefixWidth, columns, w) == DrawnCell(line, col, prefixWidth, columns, w)
  {
    CursorCell(line, col, prefixWidth, columns, w);
    NarrowLeavesNoBlank(line, DrawnCell(line, col, prefixWidth, columns, w).0, prefixWidth, columns, w);
    NarrowCellOnScreen(line, col, prefixWidth, columns, w);
  }

  /** A cell before a character of a row, or at the end of a row with room left, is on screen. */
  lemma NarrowColumn(row: string, at: nat, margin: nat, columns: nat, w: Widths)
    requires Narrow(row, w) && at <= |row|
    requires margin + Width(row, w) <= columns && (at == |row| ==> margin + Width(row, w) < columns)
    ensures margin + Width(row[..at], w) < columns
  {
    NarrowWidth(row, w);
    NarrowWidth(row[..at], w);
  }
}
