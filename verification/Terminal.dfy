/**
 * A terminal small enough to reason about: rows, a cursor, and a window whose top only moves down.
 *
 * A row is a list of cells. A wide character takes two, the second empty; a zero-width character
 * joins the cell before it. A row filled to its last column stays one row until another character
 * arrives. Colour codes leave the cells alone. Tabs, carriage returns, backspaces and the other line
 * feeds move the cursor and write nothing; a character that starts an escape sequence is not read.
 */
module Terminal {
  import opened Strings
  import opened Lines
  import opened Layout

  type Row = seq<string>

  datatype Screen = Screen(rows: seq<Row>, top: nat, row: nat, col: nat)

  datatype Tty = Tty(columns: nat, height: nat, w: Widths)

  datatype Op =
    | Put(sym: Sym)
    | CarriageReturn
    | CursorUp(n: nat)
    | CursorRight(n: nat)
    | EraseBelow
    | EraseScreen
    | CursorHome

  /** The cursor is on a row of the window, and no row lies below the window. */
  ghost predicate ScreenOk(tty: Tty, scr: Screen) {
    && tty.columns >= 2 && tty.height >= 1
    && scr.row < |scr.rows|
    && scr.top <= scr.row
    && |scr.rows| <= scr.top + tty.height
    && scr.col <= tty.columns
  }

  // ---------------------------------------------------------------- one row

  /** `line` with something written from its end: what a symbol adds to a row. */
  function AddSym(line: Row, sym: Sym, w: Widths): (r: Row)
    ensures |r| == |line| + (if sym.Ch? then w(sym.c) else 0)
  {
    match sym
    case Sgr(_) => line
    case Ch(c) =>
      if w(c) == 2 then line + [[c], ""]
      else if w(c) == 1 then line + [[c]]
      else if line == [] then line
      else Init(line) + [Last(line) + [c]]
  }

  /** The cells a styled text shows. */
  function Shown(s: Styled, w: Widths): Row {
    if s == [] then [] else AddSym(Shown(Init(s), w), Last(s), w)
  }

  lemma {:induction false} ShownWidth(s: Styled, w: Widths)
    ensures |Shown(s, w)| == VisibleWidth(s, w)
  {
    if s != [] {
      ShownWidth(Init(s), w);
      assert s == Init(s) + [Last(s)];
      VisibleWidthConcat(Init(s), [Last(s)], w);
      assert [Last(s)][1..] == [];
      assert VisibleWidth([Last(s)], w) == SymWidth(Last(s), w) + VisibleWidth([], w);
    }
  }

  function Blanks(n: nat): (r: Row)
    ensures |r| == n
  {
    seq(n, _ => " ")
  }

  /** The row padded with blanks until it reaches column `n`. */
  function PadTo(line: Row, n: nat): (r: Row)
    ensures |r| >= n
  {
    if |line| >= n then line else line + Blanks(n - |line|)
  }

  /** A symbol written at column `col` over whatever is there. */
  function WriteAt(line: Row, col: nat, sym: Sym, w: Widths): Row {
    match sym
    case Sgr(_) => line
    case Ch(c) =>
      var padded := PadTo(line, col);
      var end := col + w(c);
      AddSym(padded[..col], sym, w) + (if end <= |padded| then padded[end..] else [])
  }

  lemma WriteAtEnd(line: Row, sym: Sym, w: Widths)
    ensures WriteAt(line, |line|, sym, w) == AddSym(line, sym, w)
  {
    assert line[..|line|] == line;
    assert line[|line|..] == [];
  }

  // ---------------------------------------------------------------- operations

  /** Down one row and to its start, scrolling when the window ends here. */
  function LineFeed(tty: Tty, scr: Screen): Screen {
    Screen(
      if scr.row + 1 < |scr.rows| then scr.rows else scr.rows + [[]],
      if scr.row + 1 < scr.top + tty.height then scr.top else scr.top + 1,
      scr.row + 1,
      0)
  }

  /** Eight columns on from the last stop, but not past the last column. */
  function TabStop(col: nat, columns: nat): nat
    requires columns > 0
  {
    Min(columns - 1, (col / 8 + 1) * 8)
  }

  /** What a control character does. Those of escape sequences are not read. */
  function Control(tty: Tty, scr: Screen, c: char): Screen
    requires scr.row < |scr.rows| && tty.columns > 0
  {
    if c == NL then LineFeed(tty, scr)
    else if c == '\U{0B}' || c == '\U{0C}' then LineFeed(tty, scr).(col := scr.col)
    else if c == '\r' then scr.(col := 0)
    else if c == '\t' then scr.(col := TabStop(scr.col, tty.columns))
    else if c == '\U{08}' then scr.(col := Max(0, scr.col - 1))
    else scr
  }

  function PutSym(tty: Tty, scr: Screen, sym: Sym): Screen
    requires scr.row < |scr.rows| && tty.columns > 0
  {
    if sym.Ch? && IsControl(sym.c) then Control(tty, scr, sym.c)
    else
      var width := SymWidth(sym, tty.w);
      var at := if scr.col + width > tty.columns then LineFeed(tty, scr) else scr;
      at.(rows := at.rows[at.row := WriteAt(at.rows[at.row], at.col, sym, tty.w)], col := at.col + width)
  }

  function Exec(tty: Tty, scr: Screen, op: Op): (r: Screen)
    requires ScreenOk(tty, scr)
    ensures ScreenOk(tty, r)
    ensures r.top >= scr.top
  {
    match op
    case Put(sym) => PutSym(tty, scr, sym)
    case CarriageReturn => scr.(col := 0)
    case CursorUp(n) => scr.(row := Max(scr.top, scr.row - n))
    case CursorRight(n) => scr.(col := Min(tty.columns - 1, scr.col + n))
    case EraseBelow =>
      var line := scr.rows[scr.row];
      scr.(rows := scr.rows[..scr.row] + [if scr.col < |line| then line[..scr.col] else line])
    case EraseScreen => scr.(rows := scr.rows[..scr.top] + seq(scr.row - scr.top + 1, _ => []))
    case CursorHome => scr.(row := scr.top, col := 0)
  }

  function ExecAll(tty: Tty, scr: Screen, ops: seq<Op>): (r: Screen)
    requires ScreenOk(tty, scr)
    ensures ScreenOk(tty, r)
    ensures r.top >= scr.top
    decreases |ops|
  {
    if ops == [] then scr else ExecAll(tty, Exec(tty, scr, ops[0]), ops[1..])
  }

  lemma {:induction false} ExecConcat(tty: Tty, scr: Screen, a: seq<Op>, b: seq<Op>)
    requires ScreenOk(tty, scr)
    ensures ExecAll(tty, scr, a + b) == ExecAll(tty, ExecAll(tty, scr, a), b)
    decreases |a|
  {
    if a == [] {
      assert a + b == b;
    } else {
      assert (a + b)[1..] == a[1..] + b;
      ExecConcat(tty, Exec(tty, scr, a[0]), a[1..], b);
    }
  }

  lemma ExecOne(tty: Tty, scr: Screen, op: Op)
    requires ScreenOk(tty, scr)
    ensures ExecAll(tty, scr, [op]) == Exec(tty, scr, op)
  {
    assert [op][1..] == [];
  }

  // ---------------------------------------------------------------- printing rows

  function Puts(s: Styled): (ops: seq<Op>)
    ensures |ops| == |s|
  {
    seq(|s|, k requires 0 <= k < |s| => Put(s[k]))
  }

  /** Rows with a newline between each two. */
  function PutRows(rows: seq<Styled>): seq<Op>
    requires rows != []
  {
    if |rows| == 1 then Puts(rows[0]) else PutRows(Init(rows)) + [Put(Ch(NL))] + Puts(Last(rows))
  }

  /** Nothing in the text moves the cursor but its width. */
  ghost predicate NoControl(s: Styled) {
    forall k :: 0 <= k < |s| && s[k].Ch? ==> !IsControl(s[k].c)
  }

  lemma NoControlConcat(a: Styled, b: Styled)
    ensures NoControl(a + b) <==> NoControl(a) && NoControl(b)
  {
    if NoControl(a + b) {
      assert forall k :: 0 <= k < |a| ==> (a + b)[k] == a[k];
      assert forall k :: 0 <= k < |b| ==> (a + b)[|a| + k] == b[k];
    }
  }

  ghost predicate OneRow(s: Styled, tty: Tty) {
    NoControl(s) && VisibleWidth(s, tty.w) <= tty.columns
  }

  ghost predicate AllOneRow(rows: seq<Styled>, tty: Tty) {
    forall k :: 0 <= k < |rows| ==> OneRow(rows[k], tty)
  }

  function ShownRows(rows: seq<Styled>, w: Widths): (r: seq<Row>)
    ensures |r| == |rows|
  {
    seq(|rows|, k requires 0 <= k < |rows| => Shown(rows[k], w))
  }

  /** The screen whose last row, below `above`, shows `s` and has the cursor at its end. */
  function ScreenEnding(above: seq<Row>, s: Styled, top: nat, w: Widths): Screen {
    Screen(above + [Shown(s, w)], top, |above|, VisibleWidth(s, w))
  }

  lemma {:induction false} PutsOnRow(tty: Tty, above: seq<Row>, s: Styled, top: nat)
    requires OneRow(s, tty)
    requires ScreenOk(tty, ScreenEnding(above, [], top, tty.w))
    ensures ExecAll(tty, ScreenEnding(above, [], top, tty.w), Puts(s)) == ScreenEnding(above, s, top, tty.w)
  {
    var scr := ScreenEnding(above, [], top, tty.w);
    if s != [] {
      var front, sym := Init(s), Last(s);
      assert s == front + [sym];
      FrontIsOneRow(front, sym, tty);
      PutsOnRow(tty, above, front, top);
      assert Puts(s) == Puts(front) + [Put(sym)];
      ExecConcat(tty, scr, Puts(front), [Put(sym)]);
      ExecOne(tty, ScreenEnding(above, front, top, tty.w), Put(sym));
      PutAtEnd(tty, above, front, sym, top);
    }
  }

  lemma FrontIsOneRow(front: Styled, sym: Sym, tty: Tty)
    requires OneRow(front + [sym], tty)
    ensures OneRow(front, tty) && (sym.Ch? ==> !IsControl(sym.c))
    ensures VisibleWidth(front + [sym], tty.w) == VisibleWidth(front, tty.w) + SymWidth(sym, tty.w) <= tty.columns
  {
    VisibleWidthConcat(front, [sym], tty.w);
    assert [sym][1..] == [];
    assert VisibleWidth([sym], tty.w) == SymWidth(sym, tty.w);
    assert (front + [sym])[|front|] == sym;
    assert forall k :: 0 <= k < |front| ==> (front + [sym])[k] == front[k];
  }

  lemma PutAtEnd(tty: Tty, above: seq<Row>, front: Styled, sym: Sym, top: nat)
    requires OneRow(front + [sym], tty)
    requires ScreenOk(tty, ScreenEnding(above, front, top, tty.w))
    ensures Exec(tty, ScreenEnding(above, front, top, tty.w), Put(sym))
      == ScreenEnding(above, front + [sym], top, tty.w)
  {
    var scr := ScreenEnding(above, front, top, tty.w);
    var written := AddSym(Shown(front, tty.w), sym, tty.w);
    FrontIsOneRow(front, sym, tty);
    ShownWidth(front, tty.w);
    WriteAtEnd(Shown(front, tty.w), sym, tty.w);
    ShownGrows(front, sym, tty.w);
    PutOnRow(tty, scr, sym);
    LastReplaced(above, Shown(front, tty.w), written);
  }

  lemma PutOnRow(tty: Tty, scr: Screen, sym: Sym)
    requires ScreenOk(tty, scr) && (sym.Ch? ==> !IsControl(sym.c)) && scr.col + SymWidth(sym, tty.w) <= tty.columns
    ensures Exec(tty, scr, Put(sym))
      == scr.(rows := scr.rows[scr.row := WriteAt(scr.rows[scr.row], scr.col, sym, tty.w)],
              col := scr.col + SymWidth(sym, tty.w))
  {
  }

  lemma LastReplaced<T>(above: seq<T>, last: T, now: T)
    ensures (above + [last])[|above| := now] == above + [now]
  {
  }

  lemma ShownGrows(front: Styled, sym: Sym, w: Widths)
    ensures Shown(front + [sym], w) == AddSym(Shown(front, w), sym, w)
  {
    assert Init(front + [sym]) == front;
  }

  /** Where the window's top is once a block of `n` rows has been written below `above` rows. */
  function TopAfter(tty: Tty, above: nat, n: nat, top: nat): nat {
    Max(top, above + n - tty.height)
  }

  /** Rows written from the start of an empty last row: each on a row of its own, and no more. */
  lemma {:induction false} PutRowsShows(tty: Tty, above: seq<Row>, rows: seq<Styled>, top: nat)
    requires rows != [] && AllOneRow(rows, tty)
    requires ScreenOk(tty, ScreenEnding(above, [], top, tty.w))
    ensures ExecAll(tty, ScreenEnding(above, [], top, tty.w), PutRows(rows))
         == ScreenEnding(above + ShownRows(Init(rows), tty.w), Last(rows), TopAfter(tty, |above|, |rows|, top), tty.w)
    decreases |rows|
  {
    var scr := ScreenEnding(above, [], top, tty.w);
    if |rows| == 1 {
      assert OneRow(rows[0], tty);
      PutsOnRow(tty, above, rows[0], top);
      assert above + ShownRows(Init(rows), tty.w) == above;
    } else {
      var front, last := Init(rows), Last(rows);
      assert AllOneRow(front, tty) && OneRow(last, tty) && front + [last] == rows;
      PutRowsShows(tty, above, front, top);
      PutLastRow(tty, above, front, last, top);
    }
  }

  lemma PutLastRow(tty: Tty, above: seq<Row>, front: seq<Styled>, last: Styled, top: nat)
    requires front != [] && OneRow(last, tty)
    requires ScreenOk(tty, ScreenEnding(above, [], top, tty.w))
    requires ExecAll(tty, ScreenEnding(above, [], top, tty.w), PutRows(front))
         == ScreenEnding(
           above + ShownRows(Init(front), tty.w), Last(front), TopAfter(tty, |above|, |front|, top), tty.w)
    ensures ExecAll(tty, ScreenEnding(above, [], top, tty.w), PutRows(front + [last]))
         == ScreenEnding(above + ShownRows(front, tty.w), last, TopAfter(tty, |above|, |front| + 1, top), tty.w)
  {
    var scr := ScreenEnding(above, [], top, tty.w);
    assert Init(front + [last]) == front;
    assert PutRows(front + [last]) == PutRows(front) + ([Put(Ch(NL))] + Puts(last));
    ExecConcat(tty, scr, PutRows(front), [Put(Ch(NL))] + Puts(last));
    var mid := ExecAll(tty, scr, PutRows(front));
    var shown := above + ShownRows(Init(front), tty.w);
    PutNextRow(tty, mid, shown, Last(front), last, TopAfter(tty, |above|, |front|, top));
    FrontShown(above, front, tty.w);
  }

  lemma FrontShown(above: seq<Row>, front: seq<Styled>, w: Widths)
    requires front != []
    ensures above + ShownRows(Init(front), w) + [Shown(Last(front), w)] == above + ShownRows(front, w)
  {
  }

  lemma PutNextRow(tty: Tty, scr: Screen, above: seq<Row>, s: Styled, next: Styled, top: nat)
    requires scr == ScreenEnding(above, s, top, tty.w) && ScreenOk(tty, scr) && OneRow(next, tty)
    ensures ExecAll(tty, scr, [Put(Ch(NL))] + Puts(next))
         == ScreenEnding(above + [Shown(s, tty.w)], next, Max(top, |above| + 2 - tty.height), tty.w)
  {
    var fed := LineFeed(tty, scr);
    var top' := Max(top, |above| + 2 - tty.height);
    assert fed == ScreenEnding(above + [Shown(s, tty.w)], [], top', tty.w);
    ExecConcat(tty, scr, [Put(Ch(NL))], Puts(next));
    ExecOne(tty, scr, Put(Ch(NL)));
    PutsOnRow(tty, above + [Shown(s, tty.w)], next, top');
  }
}
