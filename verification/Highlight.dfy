/**
 * Colour inside a fenced code block (`highlightLine` in src/cli/highlight.ts).
 *
 * A styled line is a list of pieces of text, each with the colour it is wrapped in. Stripping the
 * colours is concatenating the pieces.
 */
module Highlight {
  import opened Strings

  datatype Style = Plain | Dim | Green | Yellow | Blue | Cyan | Red

  datatype Segment = Segment(style: Style, text: string)

  datatype Block = Block(opener: string, closer: string)

  datatype Language = Language(
    keywords: set<string>,
    types: set<string>,
    lineComment: Option<string>,
    block: Option<Block>,
    strings: set<char>,
    byPrefix: bool
  )

  class BlockState {
    var inBlockComment: bool

    constructor ()
      ensures !inBlockComment
    {
      inBlockComment := false;
    }
  }

  // ---------------------------------------------------------------- characters and runs

  predicate IsDigit(c: char) {
    '0' <= c <= '9'
  }

  /** `/[\w$]/`. */
  predicate IsWordChar(c: char) {
    'a' <= c <= 'z' || 'A' <= c <= 'Z' || IsDigit(c) || c == '_' || c == '$'
  }

  /** `/[\w.]/`. */
  predicate IsNumberChar(c: char) {
    (IsWordChar(c) && c != '$') || c == '.'
  }

  datatype Run = Word | Number

  predicate InRun(c: char, run: Run) {
    if run.Word? then IsWordChar(c) else IsNumberChar(c)
  }

  /** How long a run of such characters the text starts with. */
  function RunLength(rest: string, run: Run): (n: nat)
    ensures n <= |rest|
    ensures rest != "" && InRun(rest[0], run) ==> n > 0
  {
    if rest != "" && InRun(rest[0], run) then 1 + RunLength(rest[1..], run) else 0
  }

  /** How much of what follows an opening quote belongs to the string, its closing quote included. */
  function StringBody(rest: string, quote: char): (n: nat)
    ensures n <= |rest|
    decreases |rest|
  {
    if rest == "" then 0
    else if rest[0] == '\\' then (if |rest| == 1 then 1 else 2 + StringBody(rest[2..], quote))
    else if rest[0] == quote then 1
    else 1 + StringBody(rest[1..], quote)
  }

  // ---------------------------------------------------------------- one line

  function StartsWith(rest: string, prefix: Option<string>): bool {
    prefix.Some? && prefix.value <= rest
  }

  function OpenerOf(language: Language): Option<string> {
    if language.block.Some? then Some(language.block.value.opener) else None
  }

  /** Openers, closers and comment marks are not empty, and none starts like a word or a number. */
  ghost predicate LanguageOk(language: Language) {
    && (language.block.Some? ==> Mark(language.block.value.opener) && language.block.value.closer != "")
    && (language.lineComment.Some? ==> Mark(language.lineComment.value))
    && (forall c :: c in language.strings ==> !IsWordChar(c) && c != '.')
  }

  predicate Mark(mark: string) {
    mark != "" && !IsWordChar(mark[0]) && mark[0] != '.'
  }

  /** The front of the rest of a line: its length and colour, and whether it ends the line in a comment. */
  datatype Piece = Piece(length: Positive, style: Style, open: bool)

  type Positive = n: nat | n > 0 witness 1

  function WordStyle(word: string, language: Language): Style {
    if word in language.keywords then Blue else if word in language.types then Cyan else Plain
  }

  function Front(rest: string, language: Language): (piece: Piece)
    requires rest != "" && (language.block.Some? ==> language.block.value.closer != "")
    requires language.block.Some? ==> language.block.value.opener != ""
    ensures 0 < piece.length <= |rest|
    ensures piece.open ==> piece.length == |rest|
  {
    var c := rest[0];
    if StartsWith(rest, OpenerOf(language)) then
      var block := language.block.value;
      (match Find(rest[|block.opener|..], block.closer)
       case None => Piece(|rest|, Dim, true)
       case Some(k) => Piece(|block.opener| + k + |block.closer|, Dim, false))
    else if StartsWith(rest, language.lineComment) then Piece(|rest|, Dim, false)
    else if c in language.strings then Piece(1 + StringBody(rest[1..], c), Green, false)
    else if IsDigit(c) then Piece(RunLength(rest, Number), Yellow, false)
    else if IsWordChar(c) then
      var n := RunLength(rest, Word);
      Piece(n, WordStyle(rest[..n], language), false)
    else Piece(1, Plain, false)
  }

  datatype Lexed = Lexed(segments: seq<Segment>, open: bool)

  /** What finds the piece at the front of a text. */
  type Fronter = string -> Piece

  /** The pieces of a text, one after another. */
  function LexWith(rest: string, front: Fronter): Lexed
    decreases |rest|
  {
    if rest == "" then Lexed([], false)
    else Prefixed(rest, front(rest), LexWith(Drop(rest, front(rest).length), front))
  }

  /** `piece`, which is the front of `rest`, then `more`. */
  function Prefixed(rest: string, piece: Piece, more: Lexed): Lexed {
    Lexed([Segment(piece.style, Take(rest, piece.length))] + more.segments, piece.open || more.open)
  }

  function FronterOf(language: Language): Fronter
    requires LanguageOk(language)
  {
    rest => if rest == "" then Piece(1, Plain, false) else Front(rest, language)
  }

  /** `front` finds the pieces of `language`. */
  ghost predicate Finds(front: Fronter, language: Language)
    requires LanguageOk(language)
  {
    forall s {:trigger Front(s, language)} | s != "" :: front(s) == Front(s, language)
  }

  function Lex(rest: string, language: Language): Lexed
    requires LanguageOk(language)
  {
    LexWith(rest, FronterOf(language))
  }

  /** A diff is read by its first column. */
  function ByPrefix(line: string): Segment {
    if "+++" <= line || "---" <= line then Segment(Dim, line)
    else if "@@" <= line then Segment(Cyan, line)
    else if "+" <= line then Segment(Green, line)
    else if "-" <= line then Segment(Red, line)
    else Segment(Plain, line)
  }

  function Highlighted(line: string, language: Option<Language>, inBlock: bool): Lexed
    requires language.Some? ==> LanguageOk(language.value)
  {
    if language.None? then Lexed([Segment(Plain, line)], inBlock)
    else if language.value.byPrefix then Lexed([ByPrefix(line)], inBlock)
    else LineWith(line, language.value.block, inBlock, FronterOf(language.value))
  }

  /** A line in a language that is lexed: what a carried comment takes of it, then its pieces. */
  function LineWith(line: string, block: Option<Block>, inBlock: bool, front: Fronter): Lexed
    requires block.Some? ==> block.value.closer != ""
  {
    if inBlock && block.Some? then
      var closer := block.value.closer;
      (match Find(line, closer)
       case None => Lexed([Segment(Dim, line)], true)
       case Some(k) => After([Segment(Dim, Take(line, k + |closer|))], false, LexWith(Drop(line, k + |closer|), front)))
    else After([], inBlock, LexWith(line, front))
  }

  /** `out` and `open`, then `more`. */
  function After(out: seq<Segment>, open: bool, more: Lexed): Lexed {
    Lexed(out + more.segments, open || more.open)
  }

  // ---------------------------------------------------------------- the loop

  method ScanString(line: string, i: nat) returns (j: nat)
    requires i < |line|
    ensures i < j <= |line| && j - i == 1 + StringBody(line[i + 1..], line[i])
  {
    var k := i + 1;
    ghost var body := StringBody(line[i + 1..], line[i]);
    while k < |line|
      invariant i < k <= |line| + 1
      invariant k <= |line| ==> k - (i + 1) + StringBody(line[k..], line[i]) == body
      invariant k == |line| + 1 ==> |line| == i + 1 + body
      decreases |line| - k
    {
      if line[k] == '\\' {
        assert k + 2 <= |line| ==> line[k..][2..] == line[k + 2..];
        k := k + 2;
        continue;
      }
      if line[k] == line[i] {
        return k + 1;
      }
      assert line[k..][1..] == line[k + 1..];
      k := k + 1;
    }
    j := if k <= |line| then k else |line|;
  }

  method ScanRun(line: string, i: nat, run: Run) returns (j: nat)
    requires i <= |line|
    ensures i <= j <= |line| && j - i == RunLength(line[i..], run)
  {
    j := i;
    while j < |line| && InRun(line[j], run)
      invariant i <= j <= |line|
      invariant j - i + RunLength(line[j..], run) == RunLength(line[i..], run)
    {
      assert line[j..][1..] == line[j + 1..];
      j := j + 1;
    }
  }

  /** The piece at `i`. */
  method PieceAt(line: string, i: nat, language: Language, ghost front: Fronter) returns (piece: Piece)
    requires i < |line| && LanguageOk(language) && Finds(front, language)
    ensures piece == front(Drop(line, i)) && i + piece.length <= |line|
  {
    assert front(line[i..]) == Front(line[i..], language);
    var c, rest := line[i], line[i..];
    if StartsWith(rest, OpenerOf(language)) {
      var block := language.block.value;
      var close := Find(rest[|block.opener|..], block.closer);
      piece := if close.None? then Piece(|rest|, Dim, true)
        else Piece(|block.opener| + close.value + |block.closer|, Dim, false);
    } else if StartsWith(rest, language.lineComment) {
      piece := Piece(|rest|, Dim, false);
    } else if c in language.strings {
      var j := ScanString(line, i);
      assert rest[1..] == line[i + 1..];
      piece := Piece(j - i, Green, false);
    } else if IsDigit(c) {
      var j := ScanRun(line, i, Number);
      piece := Piece(j - i, Yellow, false);
    } else if IsWordChar(c) {
      var j := ScanRun(line, i, Word);
      var word := line[i..j];
      assert word == rest[..j - i];
      piece := Piece(j - i, WordStyle(word, language), false);
    } else {
      piece := Piece(1, Plain, false);
    }
  }

  /** The pieces of `rest` after those of `out`. */
  ghost function LexOnto(out: seq<Segment>, open: bool, rest: string, front: Fronter): Lexed
    decreases |rest|
  {
    if rest == "" then Lexed(out, open)
    else
      var piece := front(rest);
      var segment := Segment(piece.style, Take(rest, piece.length));
      LexOnto(out + [segment], open || piece.open, Drop(rest, piece.length), front)
  }

  lemma {:induction false} LexOntoIsAfter(out: seq<Segment>, open: bool, rest: string, front: Fronter)
    ensures LexOnto(out, open, rest, front) == After(out, open, LexWith(rest, front))
    decreases |rest|
  {
    if rest == "" {
      assert out + [] == out;
    } else {
      var piece := front(rest);
      var segment, left := Segment(piece.style, Take(rest, piece.length)), Drop(rest, piece.length);
      LexOntoIsAfter(out + [segment], open || piece.open, left, front);
      assert out + ([segment] + LexWith(left, front).segments) == out + [segment] + LexWith(left, front).segments;
    }
  }

  /** One turn of the loop. */
  lemma LoopTurn(line: string, i: nat, front: Fronter, out: seq<Segment>, open: bool, piece: Piece)
    requires i < |line| && piece == front(Drop(line, i)) && i + piece.length <= |line|
    ensures LexOnto(out, open, Drop(line, i), front)
      == LexOnto(
        out + [Segment(piece.style, line[i..i + piece.length])], open || piece.open,
        Drop(line, i + piece.length), front)
  {
    assert line[i..][piece.length..] == line[i + piece.length..];
    assert line[i..][..piece.length] == line[i..i + piece.length];
  }

  /** The scan from `from` on: its pieces follow `before`, and `open` becomes true if one of them leaves a
      comment open. */
  method LexFrom(line: string, from: nat, language: Language, before: seq<Segment>, wasOpen: bool, ghost front: Fronter)
    returns (out: seq<Segment>, open: bool)
    requires from <= |line| && LanguageOk(language) && Finds(front, language)
    ensures Lexed(out, open) == After(before, wasOpen, LexWith(Drop(line, from), front))
  {
    out, open := before, wasOpen;
    LexOntoIsAfter(out, open, Drop(line, from), front);
    var i := from;
    ghost var all := LexOnto(out, open, Drop(line, from), front);
    while i < |line|
      invariant from <= i <= |line|
      invariant all == LexOnto(out, open, Drop(line, i), front)
    {
      var piece := PieceAt(line, i, language, front);
      LoopTurn(line, i, front, out, open, piece);
      out := out + [Segment(piece.style, line[i..i + piece.length])];
      open := open || piece.open;
      i := i + piece.length;
    }
  }

  /** A line in a language that is lexed. */
  method LexLine(line: string, language: Language, state: BlockState, ghost front: Fronter) returns (out: seq<Segment>)
    requires LanguageOk(language) && Finds(front, language)
    modifies state
    ensures Lexed(out, state.inBlockComment) == LineWith(line, language.block, old(state.inBlockComment), front)
  {
    var i := 0;
    out := [];
    if state.inBlockComment && language.block.Some? {
      var closer := language.block.value.closer;
      var close := Find(line, closer);
      if close.None? {
        return [Segment(Dim, line)];
      }
      i := close.value + |closer|;
      out := [Segment(Dim, line[..i])];
      state.inBlockComment := false;
    }
    assert line[0..] == line;
    var open;
    out, open := LexFrom(line, i, language, out, state.inBlockComment, front);
    state.inBlockComment := open;
  }

  method HighlightLine(line: string, language: Option<Language>, state: BlockState) returns (out: seq<Segment>)
    requires language.Some? ==> LanguageOk(language.value)
    modifies state
    ensures Lexed(out, state.inBlockComment) == Highlighted(line, language, old(state.inBlockComment))
  {
    if language.None? {
      return [Segment(Plain, line)];
    }
    if language.value.byPrefix {
      return [ByPrefix(line)];
    }
    out := LexLine(line, language.value, state, FronterOf(language.value));
  }

  // ---------------------------------------------------------------- nothing is lost

  /** What is left when the colours are stripped. */
  function Stripped(segments: seq<Segment>): string {
    if segments == [] then "" else segments[0].text + Stripped(segments[1..])
  }

  lemma TakeDrop(s: string, n: nat)
    requires n <= |s|
    ensures Take(s, n) + Drop(s, n) == s
  {
  }

  lemma LexKeepsOne(rest: string, front: Fronter)
    requires rest != "" && front(rest).length <= |rest|
    requires var left := Drop(rest, front(rest).length); Stripped(LexWith(left, front).segments) == left
    ensures Stripped(LexWith(rest, front).segments) == rest
  {
    var piece := front(rest);
    var left := Drop(rest, piece.length);
    StrippedFirst(Segment(piece.style, Take(rest, piece.length)), LexWith(left, front).segments);
    TakeDrop(rest, piece.length);
  }

  lemma {:induction false} LexKeepsText(rest: string, language: Language, front: Fronter)
    requires LanguageOk(language) && Finds(front, language)
    ensures Stripped(LexWith(rest, front).segments) == rest
    decreases |rest|
  {
    if rest != "" {
      var n := Front(rest, language).length;
      LexKeepsText(Drop(rest, n), language, front);
      LexKeepsOne(rest, front);
    }
  }

  lemma StrippedFirst(segment: Segment, more: seq<Segment>)
    ensures Stripped([segment] + more) == segment.text + Stripped(more)
  {
    assert ([segment] + more)[1..] == more;
  }

  /** A carried comment that ends in this line, and one that does not. */
  lemma ClosedLine(line: string, block: Block, k: nat, front: Fronter)
    requires block.closer != "" && Find(line, block.closer) == Some(k)
    ensures LineWith(line, Some(block), true, front)
      == After([Segment(Dim, line[..k + |block.closer|])], false, LexWith(line[k + |block.closer|..], front))
  {
  }

  lemma OpenLine(line: string, block: Block, front: Fronter)
    requires block.closer != "" && Find(line, block.closer).None?
    ensures LineWith(line, Some(block), true, front) == Lexed([Segment(Dim, line)], true)
  {
  }

  lemma ClosedKeepsText(line: string, block: Block, k: nat, front: Fronter)
    requires block.closer != "" && Find(line, block.closer) == Some(k)
    requires Stripped(LexWith(line[k + |block.closer|..], front).segments) == line[k + |block.closer|..]
    ensures Stripped(LineWith(line, Some(block), true, front).segments) == line
  {
    var end := k + |block.closer|;
    ClosedLine(line, block, k, front);
    StrippedFirst(Segment(Dim, line[..end]), LexWith(line[end..], front).segments);
    TakeDrop(line, end);
  }

  lemma LineKeepsText(line: string, language: Language, inBlock: bool, front: Fronter)
    requires LanguageOk(language) && Finds(front, language)
    ensures Stripped(LineWith(line, language.block, inBlock, front).segments) == line
  {
    if inBlock && language.block.Some? {
      var block := language.block.value;
      if Find(line, block.closer).Some? {
        var k := Find(line, block.closer).value;
        LexKeepsText(line[k + |block.closer|..], language, front);
        ClosedKeepsText(line, block, k, front);
      } else {
        OpenLine(line, block, front);
        StrippedFirst(Segment(Dim, line), []);
      }
    } else {
      LexKeepsText(line, language, front);
      assert [] + LexWith(line, front).segments == LexWith(line, front).segments;
    }
  }

  /** Stripping the colours gives the line back, for every language and whatever came before. */
  lemma HighlightingKeepsText(line: string, language: Option<Language>, inBlock: bool)
    requires language.Some? ==> LanguageOk(language.value)
    ensures Stripped(Highlighted(line, language, inBlock).segments) == line
  {
    if language.None? {
      StrippedFirst(Segment(Plain, line), []);
    } else if language.value.byPrefix {
      StrippedFirst(ByPrefix(line), []);
    } else {
      LineKeepsText(line, language.value, inBlock, FronterOf(language.value));
    }
  }

  // ---------------------------------------------------------------- the comment state is right

  /** A lexer that knows nothing but strings and comments, one character at a time. */
  datatype Mode = InCode | InString(quote: char) | InBlock

  function ModeAfter(rest: string, mode: Mode, language: Language): Mode
    requires LanguageOk(language) && (mode.InBlock? ==> language.block.Some?)
    decreases |rest|
  {
    if rest == "" then (if mode.InString? then InCode else mode)
    else match mode
      case InBlock =>
        var closer := language.block.value.closer;
        if closer <= rest then ModeAfter(rest[|closer|..], InCode, language)
          else ModeAfter(rest[1..], InBlock, language)
      case InString(quote) =>
        if rest[0] == '\\' then (if |rest| == 1 then InCode else ModeAfter(rest[2..], mode, language))
        else if rest[0] == quote then ModeAfter(rest[1..], InCode, language)
        else ModeAfter(rest[1..], mode, language)
      case InCode =>
        if StartsWith(rest, OpenerOf(language)) then ModeAfter(rest[|language.block.value.opener|..], InBlock, language)
        else if StartsWith(rest, language.lineComment) then InCode
        else if rest[0] in language.strings then ModeAfter(rest[1..], InString(rest[0]), language)
        else ModeAfter(rest[1..], InCode, language)
  }

  lemma {:induction false} BlockRunsToCloser(rest: string, language: Language)
    requires LanguageOk(language) && language.block.Some?
    ensures var closer := language.block.value.closer;
      ModeAfter(rest, InBlock, language) ==
        match Find(rest, closer)
        case None => InBlock
        case Some(k) => ModeAfter(rest[k + |closer|..], InCode, language)
    decreases |rest|
  {
    var closer := language.block.value.closer;
    if rest != "" && !(closer <= rest) {
      BlockRunsToCloser(rest[1..], language);
      LaterCloser(rest, closer);
    }
  }

  lemma LaterCloser(rest: string, closer: string)
    requires closer != "" && rest != "" && !(closer <= rest)
    ensures match Find(rest[1..], closer)
      case None => Find(rest, closer).None?
      case Some(k) => Find(rest, closer) == Some(k + 1) && rest[1..][k + |closer|..] == rest[k + 1 + |closer|..]
  {
    if Find(rest[1..], closer).Some? {
      LaterSuffix(rest, Find(rest[1..], closer).value + |closer|);
    }
  }

  lemma LaterSuffix(rest: string, n: nat)
    requires rest != "" && n < |rest|
    ensures rest[1..][n..] == rest[n + 1..]
  {
  }

  lemma {:induction false} StringRunsToQuote(rest: string, quote: char, language: Language)
    requires LanguageOk(language)
    ensures ModeAfter(rest, InString(quote), language) == ModeAfter(rest[StringBody(rest, quote)..], InCode, language)
    decreases |rest|
  {
    if rest != "" {
      if rest[0] == '\\' {
        if |rest| > 1 {
          StringRunsToQuote(rest[2..], quote, language);
          assert rest[2..][StringBody(rest[2..], quote)..] == rest[2 + StringBody(rest[2..], quote)..];
        }
      } else if rest[0] != quote {
        StringRunsToQuote(rest[1..], quote, language);
        assert rest[1..][StringBody(rest[1..], quote)..] == rest[1 + StringBody(rest[1..], quote)..];
      }
    }
  }

  lemma {:induction false} RunIsCode(rest: string, run: Run, language: Language)
    requires LanguageOk(language)
    ensures ModeAfter(rest, InCode, language) == ModeAfter(rest[RunLength(rest, run)..], InCode, language)
    decreases |rest|
  {
    if rest != "" && InRun(rest[0], run) {
      RunIsCode(rest[1..], run, language);
      assert rest[1..][RunLength(rest[1..], run)..] == rest[1 + RunLength(rest[1..], run)..];
    }
  }

  lemma OpenerIsRead(rest: string, language: Language)
    requires LanguageOk(language) && StartsWith(rest, OpenerOf(language))
    ensures ModeAfter(rest, InCode, language)
      == ModeAfter(rest[|language.block.value.opener|..], InBlock, language)
  {
  }

  lemma CommentIsFront(rest: string, block: Block, language: Language)
    requires LanguageOk(language) && StartsWith(rest, OpenerOf(language)) && language.block == Some(block)
    ensures Front(rest, language) ==
      match Find(rest[|block.opener|..], block.closer)
      case None => Piece(|rest|, Dim, true)
      case Some(k) => Piece(|block.opener| + (k + |block.closer|), Dim, false)
  {
  }

  lemma CommentAgrees(rest: string, language: Language)
    requires LanguageOk(language) && StartsWith(rest, OpenerOf(language))
    ensures PieceAgrees(rest, Front(rest, language), language)
  {
    var block := language.block.value;
    var tail := rest[|block.opener|..];
    OpenerIsRead(rest, language);
    CommentIsFront(rest, block, language);
    BlockRunsToCloser(tail, language);
    if Find(tail, block.closer).Some? {
      SuffixOfSuffix(rest, |block.opener|, Find(tail, block.closer).value + |block.closer|);
    }
  }

  lemma SuffixOfSuffix(rest: string, m: nat, n: nat)
    requires m + n <= |rest|
    ensures rest[m..][n..] == rest[m + n..]
  {
  }

  lemma StringAgrees(rest: string, language: Language)
    requires LanguageOk(language) && rest != "" && rest[0] in language.strings
    requires !StartsWith(rest, OpenerOf(language)) && !StartsWith(rest, language.lineComment)
    ensures PieceAgrees(rest, Front(rest, language), language)
  {
    StringRunsToQuote(rest[1..], rest[0], language);
    assert rest[1..][StringBody(rest[1..], rest[0])..] == rest[1 + StringBody(rest[1..], rest[0])..];
  }

  /** One piece moves the plain lexer over the same text, and leaves the line open just when it says so. */
  ghost predicate PieceAgrees(rest: string, piece: Piece, language: Language)
    requires LanguageOk(language) && piece.length <= |rest|
  {
    && (piece.open ==> ModeAfter(rest, InCode, language) == InBlock)
    && (!piece.open ==> ModeAfter(rest, InCode, language) == ModeAfter(rest[piece.length..], InCode, language))
  }

  lemma FrontAgrees(rest: string, language: Language)
    requires LanguageOk(language) && rest != ""
    ensures PieceAgrees(rest, Front(rest, language), language)
  {
    if StartsWith(rest, OpenerOf(language)) {
      CommentAgrees(rest, language);
    } else if StartsWith(rest, language.lineComment) {
    } else if rest[0] in language.strings {
      StringAgrees(rest, language);
    } else {
      RunIsCode(rest, if IsDigit(rest[0]) then Number else Word, language);
    }
  }

  lemma {:induction false} LexAgrees(rest: string, language: Language, front: Fronter)
    requires LanguageOk(language) && Finds(front, language)
    ensures LexWith(rest, front).open <==> ModeAfter(rest, InCode, language) == InBlock
    decreases |rest|
  {
    if rest != "" {
      var piece := Front(rest, language);
      FrontAgrees(rest, language);
      LexAgrees(rest[piece.length..], language, front);
    }
  }

  /** The mode a line starts in. */
  function ModeOf(inBlock: bool): Mode {
    if inBlock then InBlock else InCode
  }

  lemma ClosedState(line: string, block: Block, k: nat, rest: string, front: Fronter, inside: bool)
    requires block.closer != "" && Find(line, block.closer) == Some(k) && rest == line[k + |block.closer|..]
    requires LexWith(rest, front).open <==> inside
    ensures LineWith(line, Some(block), true, front).open <==> inside
  {
    ClosedLine(line, block, k, front);
  }

  /** Past the closer the plain lexer is in code. */
  lemma ModeWhenClosed(line: string, language: Language, k: nat) returns (inside: bool)
    requires LanguageOk(language) && language.block.Some? && Find(line, language.block.value.closer) == Some(k)
    ensures inside <==> ModeAfter(line[k + |language.block.value.closer|..], InCode, language) == InBlock
    ensures inside <==> ModeAfter(line, InBlock, language) == InBlock
  {
    BlockRunsToCloser(line, language);
    inside := ModeAfter(line, InBlock, language) == InBlock;
  }

  lemma ClosedAgrees(line: string, language: Language, k: nat, rest: string, front: Fronter) returns (inside: bool)
    requires LanguageOk(language) && language.block.Some? && Find(line, language.block.value.closer) == Some(k)
    requires Finds(front, language) && rest == line[k + |language.block.value.closer|..]
    ensures LexWith(rest, front).open <==> inside
    ensures inside <==> ModeAfter(line, InBlock, language) == InBlock
  {
    inside := ModeWhenClosed(line, language, k);
    LexAgrees(rest, language, front);
  }

  lemma OpenAgrees(line: string, language: Language)
    requires LanguageOk(language) && language.block.Some? && Find(line, language.block.value.closer).None?
    ensures ModeAfter(line, InBlock, language) == InBlock
  {
    BlockRunsToCloser(line, language);
  }

  lemma CarriedAndClosed(line: string, language: Language, k: nat, front: Fronter)
    requires LanguageOk(language) && language.block.Some? && Finds(front, language)
    requires Find(line, language.block.value.closer) == Some(k)
    ensures LineWith(line, language.block, true, front).open <==> ModeAfter(line, InBlock, language) == InBlock
  {
    var block := language.block.value;
    var rest := line[k + |block.closer|..];
    var inside := ClosedAgrees(line, language, k, rest, front);
    ClosedState(line, block, k, rest, front, inside);
  }

  lemma CarriedStateIsRight(line: string, language: Language, front: Fronter)
    requires LanguageOk(language) && language.block.Some? && Finds(front, language)
    ensures LineWith(line, language.block, true, front).open <==> ModeAfter(line, InBlock, language) == InBlock
  {
    var found := Find(line, language.block.value.closer);
    if found.Some? {
      CarriedAndClosed(line, language, found.value, front);
    } else {
      OpenAgrees(line, language);
      OpenLine(line, language.block.value, front);
    }
  }

  lemma LineAgrees(line: string, language: Language, inBlock: bool, front: Fronter)
    requires LanguageOk(language) && language.block.Some? && Finds(front, language)
    ensures LineWith(line, language.block, inBlock, front).open
      <==> ModeAfter(line, ModeOf(inBlock), language) == InBlock
  {
    if inBlock {
      CarriedStateIsRight(line, language, front);
    } else {
      LexAgrees(line, language, front);
    }
  }

  /** After a line the state says a comment is open exactly when the plain lexer is inside one. */
  lemma StateIsRight(line: string, language: Language, inBlock: bool)
    requires LanguageOk(language) && !language.byPrefix && language.block.Some?
    ensures Highlighted(line, Some(language), inBlock).open <==> ModeAfter(line, ModeOf(inBlock), language) == InBlock
  {
    LineAgrees(line, language, inBlock, FronterOf(language));
  }

  function StateAfter(lines: seq<string>, language: Language, inBlock: bool): bool
    requires LanguageOk(language)
    decreases |lines|
  {
    if lines == [] then inBlock
      else StateAfter(lines[1..], language, Highlighted(lines[0], Some(language), inBlock).open)
  }

  function ModeAfterLines(lines: seq<string>, language: Language, inBlock: bool): bool
    requires LanguageOk(language) && language.block.Some?
    decreases |lines|
  {
    if lines == [] then inBlock
      else ModeAfterLines(lines[1..], language, ModeAfter(lines[0], ModeOf(inBlock), language) == InBlock)
  }

  /** Over any number of lines: a comment is carried exactly while its opener, outside strings and
      line comments, has not been closed. */
  lemma {:induction false} CommentIsCarried(lines: seq<string>, language: Language, inBlock: bool)
    requires LanguageOk(language) && !language.byPrefix && language.block.Some?
    ensures StateAfter(lines, language, inBlock) == ModeAfterLines(lines, language, inBlock)
    decreases |lines|
  {
    if lines != [] {
      StateIsRight(lines[0], language, inBlock);
      CommentIsCarried(lines[1..], language, Highlighted(lines[0], Some(language), inBlock).open);
    }
  }

  // ---------------------------------------------------------------- colours mean what they say

  /** A coloured piece is of the kind its colour stands for. */
  predicate ColourFits(segment: Segment, language: Language) {
    match segment.style
    case Blue => segment.text in language.keywords
    case Cyan => segment.text in language.types
    case Yellow => segment.text != "" && IsDigit(segment.text[0])
    case Green => segment.text != "" && segment.text[0] in language.strings
    case Dim => StartsWith(segment.text, OpenerOf(language)) || StartsWith(segment.text, language.lineComment)
    case Plain => segment.text != ""
      && (IsWordChar(segment.text[0]) ==> segment.text !in language.keywords && segment.text !in language.types)
    case Red => false
  }

  lemma FrontFits(rest: string, language: Language)
    requires LanguageOk(language) && rest != ""
    ensures var piece := Front(rest, language); ColourFits(Segment(piece.style, rest[..piece.length]), language)
  {
  }

  /** Words and numbers are taken whole: the next character, if any, does not go on with them. */
  predicate IsWhole(text: string, more: string)
    requires text != ""
  {
    && (IsWordChar(text[0]) && !IsDigit(text[0]) ==>
          (forall k :: 0 <= k < |text| ==> IsWordChar(text[k])) && (more == "" || !IsWordChar(more[0])))
    && (IsDigit(text[0]) ==>
          (forall k :: 0 <= k < |text| ==> IsNumberChar(text[k])) && (more == "" || !IsNumberChar(more[0])))
  }

  lemma {:induction false} RunIsMaximal(rest: string, run: Run)
    ensures var n := RunLength(rest, run);
      (forall k :: 0 <= k < n ==> InRun(rest[k], run)) && (n == |rest| || !InRun(rest[n], run))
  {
    if rest != "" && InRun(rest[0], run) {
      RunIsMaximal(rest[1..], run);
      var n := RunLength(rest[1..], run);
      assert forall k :: 0 < k < 1 + n ==> rest[k] == rest[1..][k - 1];
    }
  }

  lemma FrontIsWhole(rest: string, language: Language)
    requires LanguageOk(language) && rest != ""
    ensures var n := Front(rest, language).length; IsWhole(rest[..n], rest[n..])
  {
    RunIsMaximal(rest, Word);
    RunIsMaximal(rest, Number);
  }

  /** What follows segment `k`. */
  function TextFrom(segments: seq<Segment>, k: nat): string
    requires k <= |segments|
  {
    Stripped(segments[k..])
  }

  lemma FrontThenRest(rest: string, n: nat, more: seq<Segment>, language: Language)
    requires LanguageOk(language) && rest != "" && n == Front(rest, language).length
    requires more == Lex(rest[n..], language).segments
    ensures rest[..n] != "" && IsWhole(rest[..n], Stripped(more))
  {
    FrontIsWhole(rest, language);
    LexKeepsText(rest[n..], language, FronterOf(language));
  }

  lemma {:induction false} WordsAreWhole(rest: string, language: Language, k: nat)
    requires LanguageOk(language) && k < |Lex(rest, language).segments|
    ensures var segments := Lex(rest, language).segments;
      segments[k].text != "" && IsWhole(segments[k].text, TextFrom(segments, k + 1))
    decreases |rest|
  {
    var n := Front(rest, language).length;
    var more := Lex(rest[n..], language).segments;
    var first := Segment(Front(rest, language).style, rest[..n]);
    assert Lex(rest, language).segments == [first] + more;
    assert ([first] + more)[k + 1..] == more[k..];
    if k == 0 {
      FrontThenRest(rest, n, more, language);
      assert more[0..] == more;
    } else {
      WordsAreWhole(rest[n..], language, k - 1);
    }
  }

  predicate AllFit(segments: seq<Segment>, language: Language) {
    forall s <- segments :: s.text != "" && ColourFits(s, language)
  }

  lemma {:induction false} ColoursFit(rest: string, language: Language)
    requires LanguageOk(language)
    ensures AllFit(Lex(rest, language).segments, language)
    decreases |rest|
  {
    if rest != "" {
      var piece := Front(rest, language);
      ColoursFit(rest[piece.length..], language);
      FrontFits(rest, language);
      var segment, more := Segment(piece.style, rest[..piece.length]), Lex(rest[piece.length..], language).segments;
      assert Lex(rest, language).segments == [segment] + more;
    }
  }

  /** A line of no known language is left as it is, and one of a diff is coloured by what it starts with. */
  lemma WholeLines(line: string, language: Option<Language>, inBlock: bool)
    requires language.None? || (LanguageOk(language.value) && language.value.byPrefix)
    ensures Highlighted(line, language, inBlock).open == inBlock
    ensures var segments := Highlighted(line, language, inBlock).segments;
      && |segments| == 1 && segments[0].text == line
      && (language.None? ==> segments[0].style == Plain)
      && (language.Some? ==>
            var header := "+++" <= line || "---" <= line;
            && (segments[0].style == Dim <==> header)
            && (segments[0].style == Cyan <==> "@@" <= line)
            && (segments[0].style == Green <==> "+" <= line && !header)
            && (segments[0].style == Red <==> "-" <= line && !header))
  {
    assert "+" <= line ==> line[0] == '+';
    assert "-" <= line ==> line[0] == '-';
    assert "@@" <= line ==> line[0] == "@@"[0];
    assert "+++" <= line ==> line[0] == "+++"[0];
    assert "---" <= line ==> line[0] == "---"[0];
    assert "+++" <= line ==> "+" <= line;
  }
}
