/** A typed command line split into arguments (src/cli/shell-parse.ts), and quoting as its inverse. */
module ShellParse {
  import opened Strings

  datatype Quote = Unquoted | Single | Double

  datatype Token = Token(value: string, bare: bool)

  datatype Tokens = Ok(tokens: seq<Token>) | Error(message: string)

  /** The tokenizer between two characters. */
  datatype Scan = Scan(current: string, bare: bool, started: bool, quote: Quote, tokens: seq<Token>)

  const START := Scan("", true, false, Unquoted, [])
  const DANGLING := "Command ends with a dangling backslash."

  function Push(s: Scan): Scan {
    if s.started then Scan("", true, false, s.quote, s.tokens + [Token(s.current, s.bare)]) else s
  }

  function Add(s: Scan, c: char): Scan {
    s.(current := s.current + [c], started := true)
  }

  /** The characters a backslash escapes inside double quotes. */
  predicate IsEscapable(c: char) {
    c == '"' || c == '\\' || c == '$' || c == '`'
  }

  /** How many characters the front of `rest` takes, and the state after them; none when it dangles. */
  function Advance(rest: string, s: Scan): (r: (nat, Scan))
    requires rest != ""
    ensures r.0 <= |rest| && (r.0 == 0 <==> s.quote.Unquoted? && rest == "\\")
  {
    var c := rest[0];
    match s.quote
    case Single => (1, if c == '\'' then s.(quote := Unquoted, started := true) else Add(s, c))
    case Double =>
      if c == '\\' && |rest| > 1 && IsEscapable(rest[1]) then (2, Add(s, rest[1]))
      else if c == '"' then (1, s.(quote := Unquoted, started := true))
      else (1, Add(s, c))
    case Unquoted =>
      if c == '\\' then (if |rest| > 1 then (2, Add(s, rest[1])) else (0, s))
      else if c == '\'' then (1, s.(quote := Single, bare := false, started := true))
      else if c == '"' then (1, s.(quote := Double, bare := false, started := true))
      else if IsSpace(c) then (1, Push(s))
      else (1, Add(s, c))
  }

  function Finish(s: Scan): Tokens {
    match s.quote
    case Single => Error("Unterminated single quote.")
    case Double => Error("Unterminated double quote.")
    case Unquoted => Ok(Push(s).tokens)
  }

  function Tokenize(rest: string, s: Scan): Tokens
    decreases |rest|
  {
    if rest == "" then Finish(s)
    else
      var step := Advance(rest, s);
      if step.0 == 0 then Error(DANGLING) else Tokenize(rest[step.0..], step.1)
  }

  method TokenizeShell(line: string) returns (r: Tokens)
    ensures r == Tokenize(line, START)
  {
    var tokens: seq<Token> := [];
    var current, bare, started, quote := "", true, false, Unquoted;
    var i := 0;
    assert line[0..] == line;
    while i < |line|
      invariant 0 <= i <= |line|
      invariant Tokenize(line, START) == Tokenize(line[i..], Scan(current, bare, started, quote, tokens))
      decreases |line| - i
    {
      ghost var rest, s := line[i..], Scan(current, bare, started, quote, tokens);
      var c := line[i];
      var taken := 1;
      if quote.Single? {
        if c == '\'' { quote := Unquoted; } else { current := current + [c]; }
        started := true;
      } else if quote.Double? {
        if c == '\\' && i + 1 < |line| && IsEscapable(line[i + 1]) {
          current := current + [line[i + 1]];
          taken := 2;
        } else if c == '"' {
          quote := Unquoted;
        } else {
          current := current + [c];
        }
        started := true;
      } else if c == '\\' {
        if i + 1 >= |line| {
          return Error(DANGLING);
        }
        current, started := current + [line[i + 1]], true;
        taken := 2;
      } else if c == '\'' || c == '"' {
        quote, bare, started := if c == '"' then Double else Single, false, true;
      } else if IsSpace(c) {
        if started {
          tokens := tokens + [Token(current, bare)];
          current, bare, started := "", true, false;
        }
      } else {
        current, started := current + [c], true;
      }
      assert Advance(rest, s) == (taken, Scan(current, bare, started, quote, tokens));
      assert rest[taken..] == line[i + taken..];
      i := i + taken;
    }
    r := Finish(Scan(current, bare, started, quote, tokens));
  }

  // ---------------------------------------------------------------- quoting

  datatype Style = SingleQuotes | DoubleQuotes | Backslashes

  /** Each quote inside single quotes closes them, stands escaped, and opens them again. */
  function InSingle(arg: string): string {
    if arg == "" then ""
    else (if arg[0] == '\'' then "'\\''" else [arg[0]]) + InSingle(arg[1..])
  }

  /** Inside double quotes a backslash goes before each character it can escape. */
  function InDouble(arg: string): string {
    if arg == "" then ""
    else (if IsEscapable(arg[0]) then ['\\', arg[0]] else [arg[0]]) + InDouble(arg[1..])
  }

  /** A character that stands for itself outside quotes. */
  predicate IsOrdinary(c: char) {
    c != '\\' && c != '\'' && c != '"' && !IsSpace(c)
  }

  /** Without quotes a backslash goes before every character that would not stand for itself. */
  function InBare(arg: string): string {
    if arg == "" then ""
    else (if IsOrdinary(arg[0]) then [arg[0]] else ['\\', arg[0]]) + InBare(arg[1..])
  }

  function Quoted(arg: string, style: Style): string {
    match style
    case Backslashes => InBare(arg)
    case SingleQuotes => "'" + (InSingle(arg) + "'")
    case DoubleQuotes => "\"" + (InDouble(arg) + "\"")
  }

  /** A piece of a word, in its style. */
  datatype Part = Part(value: string, style: Style)

  /** A word is a run of pieces with nothing between them, such as `"a"|sh`. */
  type Word = seq<Part>

  /** Every piece can be printed in its style: an empty one needs quotes. */
  predicate WordOk(word: Word) {
    word != [] && forall k :: 0 <= k < |word| ==> word[k].style.Backslashes? ==> word[k].value != ""
  }

  predicate Printable(words: seq<Word>) {
    forall k :: 0 <= k < |words| ==> WordOk(words[k])
  }

  function PrintedWord(word: Word): string {
    if word == [] then "" else Quoted(word[0].value, word[0].style) + PrintedWord(word[1..])
  }

  /** One blank or more. */
  type Gap = gap: string | gap != "" && AllBlank(gap) witness " "

  predicate AllBlank(text: string) {
    forall k :: 0 <= k < |text| ==> IsSpace(text[k])
  }

  /** What stands before the last so many words. */
  type Gaps = nat -> Gap

  /** Words printed, with blanks between them. */
  function Printed(words: seq<Word>, gaps: Gaps): string
    requires words != []
  {
    if |words| == 1 then PrintedWord(words[0])
    else PrintedWord(words[0]) + (gaps(|words| - 1) + Printed(words[1..], gaps))
  }

  function ValueOf(word: Word): string {
    if word == [] then "" else word[0].value + ValueOf(word[1..])
  }

  /** Only a word without any quoted piece may be an operator. */
  predicate IsBare(word: Word) {
    forall k :: 0 <= k < |word| ==> word[k].style.Backslashes?
  }

  function Values(words: seq<Word>): (r: seq<string>)
    ensures |r| == |words|
  {
    if words == [] then [] else [ValueOf(words[0])] + Values(words[1..])
  }

  /** The tokens they stand for. */
  function TokensOf(words: seq<Word>): seq<Token> {
    if words == [] then [] else [Token(ValueOf(words[0]), IsBare(words[0]))] + TokensOf(words[1..])
  }

  // ---------------------------------------------------------------- the round trip

  /** One character taken. */
  lemma TakeOne(c: char, rest: string, s: Scan)
    requires Advance([c] + rest, s).0 == 1
    ensures Tokenize([c] + rest, s) == Tokenize(rest, Advance([c] + rest, s).1)
  {
    assert ([c] + rest)[1..] == rest;
  }

  lemma TakeTwo(c: char, d: char, rest: string, s: Scan)
    requires Advance([c, d] + rest, s).0 == 2
    ensures Tokenize([c, d] + rest, s) == Tokenize(rest, Advance([c, d] + rest, s).1)
  {
    assert ([c, d] + rest)[2..] == rest;
  }

  function Inside(pre: string, quote: Quote, tokens: seq<Token>): Scan {
    Scan(pre, false, true, quote, tokens)
  }

  lemma EmbeddedQuote(pre: string, tokens: seq<Token>, rest: string)
    ensures Tokenize("'\\''" + rest, Inside(pre, Single, tokens)) == Tokenize(rest, Inside(pre + "'", Single, tokens))
  {
    var a, b, c := Inside(pre, Single, tokens), Inside(pre, Unquoted, tokens), Inside(pre + "'", Unquoted, tokens);
    assert "'\\''" + rest == ['\''] + (['\\', '\''] + (['\''] + rest));
    TakeOne('\'', ['\\', '\''] + (['\''] + rest), a);
    TakeTwo('\\', '\'', ['\''] + rest, b);
    TakeOne('\'', rest, c);
  }

  lemma InSingleStep(arg: string, rest: string)
    requires arg != ""
    ensures var more := InSingle(arg[1..]) + ("'" + rest);
      InSingle(arg) + ("'" + rest) == if arg[0] == '\'' then "'\\''" + more else [arg[0]] + more
  {
  }

  lemma {:induction false} SingleBody(arg: string, pre: string, tokens: seq<Token>, rest: string)
    ensures Tokenize(InSingle(arg) + ("'" + rest), Inside(pre, Single, tokens))
      == Tokenize(rest, Inside(pre + arg, Unquoted, tokens))
    decreases |arg|
  {
    if arg == "" {
      assert InSingle(arg) + ("'" + rest) == ['\''] + rest;
      TakeOne('\'', rest, Inside(pre, Single, tokens));
      assert pre + arg == pre;
    } else {
      var c, more := arg[0], InSingle(arg[1..]) + ("'" + rest);
      SingleBody(arg[1..], pre + [c], tokens, rest);
      assert pre + [c] + arg[1..] == pre + arg;
      InSingleStep(arg, rest);
      if c == '\'' {
        EmbeddedQuote(pre, tokens, more);
      } else {
        TakeOne(c, more, Inside(pre, Single, tokens));
      }
    }
  }

  /** One printed character inside double quotes. */
  lemma DoubleChar(c: char, pre: string, tokens: seq<Token>, more: string)
    ensures Tokenize((if IsEscapable(c) then ['\\', c] else [c]) + more, Inside(pre, Double, tokens))
         == Tokenize(more, Inside(pre + [c], Double, tokens))
  {
    if IsEscapable(c) {
      TakeTwo('\\', c, more, Inside(pre, Double, tokens));
    } else {
      TakeOne(c, more, Inside(pre, Double, tokens));
    }
  }

  lemma {:induction false} DoubleBody(arg: string, pre: string, tokens: seq<Token>, rest: string)
    ensures Tokenize(InDouble(arg) + ("\"" + rest), Inside(pre, Double, tokens))
      == Tokenize(rest, Inside(pre + arg, Unquoted, tokens))
    decreases |arg|
  {
    if arg == "" {
      assert InDouble(arg) + ("\"" + rest) == ['"'] + rest;
      TakeOne('"', rest, Inside(pre, Double, tokens));
      assert pre + arg == pre;
    } else {
      var c, more := arg[0], InDouble(arg[1..]) + ("\"" + rest);
      DoubleBody(arg[1..], pre + [c], tokens, rest);
      assert pre + [c] + arg[1..] == pre + arg;
      var front := if IsEscapable(c) then ['\\', c] else [c];
      assert InDouble(arg) == front + InDouble(arg[1..]);
      Regroup(front, InDouble(arg[1..]), "\"" + rest);
      DoubleChar(c, pre, tokens, more);
    }
  }

  /** The tokenizer outside quotes, with a word begun unless it has neither text nor a quoted piece. */
  function Holding(pre: string, bare: bool, tokens: seq<Token>): Scan {
    Scan(pre, bare, pre != "" || !bare, Unquoted, tokens)
  }

  /** One printed character outside quotes. */
  lemma BareChar(c: char, pre: string, bare: bool, tokens: seq<Token>, more: string)
    ensures Tokenize((if IsOrdinary(c) then [c] else ['\\', c]) + more, Holding(pre, bare, tokens))
         == Tokenize(more, Holding(pre + [c], bare, tokens))
  {
    if IsOrdinary(c) {
      TakeOne(c, more, Holding(pre, bare, tokens));
    } else {
      TakeTwo('\\', c, more, Holding(pre, bare, tokens));
    }
  }

  lemma {:induction false} BareBody(text: string, pre: string, bare: bool, tokens: seq<Token>, rest: string)
    ensures Tokenize(InBare(text) + rest, Holding(pre, bare, tokens))
         == Tokenize(rest, Holding(pre + text, bare, tokens))
    decreases |text|
  {
    if text == "" {
      assert InBare(text) + rest == rest;
      assert pre + text == pre;
    } else {
      var c, more := text[0], InBare(text[1..]) + rest;
      BareBody(text[1..], pre + [c], bare, tokens, rest);
      assert pre + [c] + text[1..] == pre + text;
      var front := if IsOrdinary(c) then [c] else ['\\', c];
      assert InBare(text) == front + InBare(text[1..]);
      Regroup(front, InBare(text[1..]), rest);
      BareChar(c, pre, bare, tokens, more);
    }
  }

  /** A piece adds its value to the word, and a quoted one makes the word quoted. */
  lemma PartBody(part: Part, pre: string, bare: bool, tokens: seq<Token>, rest: string)
    ensures Tokenize(Quoted(part.value, part.style) + rest, Holding(pre, bare, tokens))
         == Tokenize(rest, Holding(pre + part.value, bare && part.style.Backslashes?, tokens))
  {
    var s := Holding(pre, bare, tokens);
    if part.style.SingleQuotes? {
      var body := InSingle(part.value) + ("'" + rest);
      assert Quoted(part.value, part.style) + rest == ['\''] + body;
      TakeOne('\'', body, s);
      SingleBody(part.value, pre, tokens, rest);
    } else if part.style.DoubleQuotes? {
      var body := InDouble(part.value) + ("\"" + rest);
      assert Quoted(part.value, part.style) + rest == ['"'] + body;
      TakeOne('"', body, s);
      DoubleBody(part.value, pre, tokens, rest);
    } else {
      BareBody(part.value, pre, bare, tokens, rest);
    }
  }

  lemma RestIsBare(word: Word)
    requires word != []
    ensures IsBare(word) <==> word[0].style.Backslashes? && IsBare(word[1..])
    ensures WordOk(word) && |word| > 1 ==> WordOk(word[1..])
  {
    assert forall k :: 0 <= k < |word| - 1 ==> word[1..][k] == word[k + 1];
    if IsBare(word[1..]) && word[0].style.Backslashes? {
      forall k | 0 <= k < |word|
        ensures word[k].style.Backslashes?
      {
        assert k > 0 ==> word[k] == word[1..][k - 1];
      }
    }
  }

  lemma {:induction false} WordBody(word: Word, pre: string, bare: bool, tokens: seq<Token>, rest: string)
    ensures Tokenize(PrintedWord(word) + rest, Holding(pre, bare, tokens))
         == Tokenize(rest, Holding(pre + ValueOf(word), bare && IsBare(word), tokens))
    decreases |word|
  {
    if word == [] {
      assert PrintedWord(word) + rest == rest;
      assert pre + ValueOf(word) == pre;
    } else {
      var part, more := word[0], PrintedWord(word[1..]) + rest;
      Regroup(Quoted(part.value, part.style), PrintedWord(word[1..]), rest);
      PartBody(part, pre, bare, tokens, more);
      WordBody(word[1..], pre + part.value, bare && part.style.Backslashes?, tokens, rest);
      Regroup(pre, part.value, ValueOf(word[1..]));
      RestIsBare(word);
    }
  }

  lemma WordHasText(word: Word)
    requires WordOk(word)
    ensures ValueOf(word) != "" || !IsBare(word)
  {
    assert word[0].style.Backslashes? ==> word[0].value != "";
  }

  /** Blanks before a word are skipped. */
  lemma {:induction false} BlanksAreSkipped(gap: string, tokens: seq<Token>, more: string)
    requires AllBlank(gap)
    ensures Tokenize(gap + more, Holding("", true, tokens)) == Tokenize(more, Holding("", true, tokens))
  {
    if gap == "" {
      assert gap + more == more;
    } else {
      assert gap + more == [gap[0]] + (gap[1..] + more);
      TakeOne(gap[0], gap[1..] + more, Holding("", true, tokens));
      BlanksAreSkipped(gap[1..], tokens, more);
    }
  }

  lemma GapEndsToken(pre: string, bare: bool, tokens: seq<Token>, gap: Gap, more: string)
    requires pre != "" || !bare
    ensures Tokenize(gap + more, Holding(pre, bare, tokens))
      == Tokenize(more, Holding("", true, tokens + [Token(pre, bare)]))
  {
    assert gap + more == [gap[0]] + (gap[1..] + more);
    TakeOne(gap[0], gap[1..] + more, Holding(pre, bare, tokens));
    BlanksAreSkipped(gap[1..], tokens + [Token(pre, bare)], more);
  }

  /** A word and the blanks after it. */
  lemma WordThenGap(word: Word, tokens: seq<Token>, gap: Gap, more: string)
    requires WordOk(word)
    ensures Tokenize(PrintedWord(word) + (gap + more), Holding("", true, tokens))
      == Tokenize(more, Holding("", true, tokens + [Token(ValueOf(word), IsBare(word))]))
  {
    WordBody(word, "", true, tokens, gap + more);
    assert "" + ValueOf(word) == ValueOf(word);
    WordHasText(word);
    GapEndsToken(ValueOf(word), IsBare(word), tokens, gap, more);
  }

  lemma {:induction false} PrintedTokenizes(words: seq<Word>, gaps: Gaps, tokens: seq<Token>)
    requires words != [] && Printable(words)
    ensures Tokenize(Printed(words, gaps), Holding("", true, tokens)) == Ok(tokens + TokensOf(words))
    decreases |words|
  {
    var token := Token(ValueOf(words[0]), IsBare(words[0]));
    assert TokensOf(words) == [token] + TokensOf(words[1..]);
    assert WordOk(words[0]);
    if |words| == 1 {
      assert PrintedWord(words[0]) + "" == Printed(words, gaps);
      WordBody(words[0], "", true, tokens, "");
      assert "" + ValueOf(words[0]) == ValueOf(words[0]);
      WordHasText(words[0]);
      assert TokensOf(words[1..]) == [];
    } else {
      WordThenGap(words[0], tokens, gaps(|words| - 1), Printed(words[1..], gaps));
      assert forall k :: 0 <= k < |words| - 1 ==> words[1..][k] == words[k + 1];
      PrintedTokenizes(words[1..], gaps, tokens + [token]);
      Regroup(tokens, [token], TokensOf(words[1..]));
    }
  }

  /** Quoting then tokenizing gives the words back, their pieces in any of the three styles, whatever they hold. */
  lemma QuotingRoundTrip(words: seq<Word>, gaps: Gaps)
    requires words != [] && Printable(words)
    ensures Tokenize(Printed(words, gaps), START) == Ok(TokensOf(words))
  {
    var none := START.tokens;
    PrintedTokenizes(words, gaps, none);
    assert none + TokensOf(words) == TokensOf(words);
  }

  // ---------------------------------------------------------------- operators

  datatype Operator =
    | AndList
    | OrList
    | Pipe
    | Sequence
    | AppendRedirect
    | Redirect
    | InputRedirect
    | Background
    | CommandSubstitution

  function OperatorsIn(value: string): set<Operator> {
    (if Contains(value, "&&") then {AndList} else {})
    + (if Contains(value, "||") then {OrList} else {})
    + (if Contains(value, "|") then {Pipe} else {})
    + (if Contains(value, ";") then {Sequence} else {})
    + (if Contains(value, ">>") then {AppendRedirect} else {})
    + (if Contains(value, ">") then {Redirect} else {})
    + (if Contains(value, "<") then {InputRedirect} else {})
    + (if Contains(value, "&") then {Background} else {})
    + (if Contains(value, "$(") || Contains(value, "`") then {CommandSubstitution} else {})
  }

  function BareOperators(tokens: seq<Token>): set<Operator> {
    if tokens == [] then {}
    else (if tokens[0].bare then OperatorsIn(tokens[0].value) else {}) + BareOperators(tokens[1..])
  }

  predicate Guards(c: char) {
    c == '\\' || c == '\'' || c == '"'
  }

  /** `/(^|[^\\'"])\$\(/` from a point whose previous character is `before`. */
  predicate ShowsSubstitution(before: char, s: string)
    decreases |s|
  {
    |s| >= 2 && ((s[0] == '$' && s[1] == '(' && !Guards(before)) || ShowsSubstitution(s[0], s[1..]))
  }

  function DetectOperators(tokens: seq<Token>, line: string): set<Operator> {
    BareOperators(tokens) + (if ShowsSubstitution(' ', line) then {CommandSubstitution} else {})
  }

  datatype ShellPlan =
    | Simple(argv: seq<string>)
    | Compound(line: string, operators: set<Operator>, argv: seq<string>)
    | Failure(message: string)

  function TokenValues(tokens: seq<Token>): seq<string> {
    if tokens == [] then [] else [tokens[0].value] + TokenValues(tokens[1..])
  }

  function ParseShellLine(line: string, shell: string): ShellPlan {
    var trimmed := Trim(line);
    if trimmed == "" then Failure("Empty command.")
    else match Tokenize(trimmed, START)
      case Error(message) => Failure(message)
      case Ok(tokens) =>
        var operators := DetectOperators(tokens, trimmed);
        if operators != {} then Compound(trimmed, operators, [shell, "-lc", trimmed])
        else if tokens == [] then Failure("Empty command.")
        else Simple(TokenValues(tokens))
  }

  // ---------------------------------------------------------------- where a substitution shows

  lemma SkipOne(before: char, c: char, rest: string)
    requires c != '$'
    ensures ShowsSubstitution(before, [c] + rest) <==> ShowsSubstitution(c, rest)
  {
    assert ([c] + rest)[1..] == rest;
  }

  lemma SkipEmbeddedQuote(before: char, more: string)
    ensures ShowsSubstitution(before, "'\\''" + more) <==> ShowsSubstitution('\'', more)
  {
    assert "'\\''" + more == ['\''] + (['\\'] + (['\''] + (['\''] + more)));
    SkipOne(before, '\'', ['\\'] + (['\''] + (['\''] + more)));
    SkipOne('\'', '\\', ['\''] + (['\''] + more));
    SkipOne('\\', '\'', ['\''] + more);
    SkipOne('\'', '\'', more);
  }

  lemma FirstInSingle(arg: string, rest: string)
    ensures var s := InSingle(arg) + ("'" + rest);
      s != "" && s[0] == if arg == "" then '\'' else arg[0]
  {
  }

  /** The same character before two texts that open with a parenthesis alike. */
  lemma ShowsNext(before: char, c: char, a: string, b: string, other: bool)
    requires (a != "" && a[0] == '(') <==> (b != "" && b[0] == '(')
    requires b != "" && (ShowsSubstitution(c, b) <==> ShowsSubstitution(c, a) || other)
    ensures ShowsSubstitution(before, [c] + b) <==> ShowsSubstitution(before, [c] + a) || other
  {
    assert ([c] + a)[1..] == a && ([c] + b)[1..] == b;
  }

  /** Inside single quotes a substitution shows exactly where it shows in the argument itself. */
  lemma {:induction false} ShowsInSingle(before: char, arg: string, rest: string)
    ensures ShowsSubstitution(before, InSingle(arg) + ("'" + rest))
      <==> ShowsSubstitution(before, arg) || ShowsSubstitution('\'', rest)
    decreases |arg|
  {
    if arg == "" {
      assert InSingle(arg) + ("'" + rest) == ['\''] + rest;
      SkipOne(before, '\'', rest);
    } else {
      var c, more := arg[0], InSingle(arg[1..]) + ("'" + rest);
      ShowsInSingle(c, arg[1..], rest);
      InSingleStep(arg, rest);
      assert arg == [c] + arg[1..];
      if c == '\'' {
        SkipEmbeddedQuote(before, more);
        SkipOne(before, c, arg[1..]);
      } else {
        FirstInSingle(arg[1..], rest);
        ShowsNext(before, c, arg[1..], more, ShowsSubstitution('\'', rest));
      }
    }
  }

  /** After a backslash no character starts a substitution. */
  lemma SkipGuarded(c: char, rest: string)
    ensures ShowsSubstitution('\\', [c] + rest) <==> ShowsSubstitution(c, rest)
  {
    assert ([c] + rest)[1..] == rest;
  }

  lemma InDoubleStep(arg: string, rest: string)
    requires arg != ""
    ensures var more := InDouble(arg[1..]) + ("\"" + rest);
      InDouble(arg) + ("\"" + rest) == if IsEscapable(arg[0]) then ['\\'] + ([arg[0]] + more) else [arg[0]] + more
  {
  }

  /** Inside double quotes every `$` is escaped, so no substitution shows. */
  lemma {:induction false} ShowsInDouble(before: char, arg: string, rest: string)
    ensures ShowsSubstitution(before, InDouble(arg) + ("\"" + rest)) <==> ShowsSubstitution('"', rest)
    decreases |arg|
  {
    if arg == "" {
      assert InDouble(arg) + ("\"" + rest) == ['"'] + rest;
      SkipOne(before, '"', rest);
    } else {
      var c, more := arg[0], InDouble(arg[1..]) + ("\"" + rest);
      InDoubleStep(arg, rest);
      ShowsInDouble(c, arg[1..], rest);
      if IsEscapable(c) {
        SkipOne(before, '\\', [c] + more);
        SkipGuarded(c, more);
      } else {
        SkipOne(before, c, more);
      }
    }
  }

  /** What is before the text matters only where it guards. */
  lemma SameBefore(a: char, b: char, text: string)
    requires Guards(a) == Guards(b)
    ensures ShowsSubstitution(a, text) <==> ShowsSubstitution(b, text)
  {
  }

  lemma {:induction false} ShowsAfterBlanks(before: char, gap: string, more: string)
    requires AllBlank(gap) && !Guards(before)
    ensures ShowsSubstitution(before, gap + more) <==> ShowsSubstitution(' ', more)
    decreases |gap|
  {
    if gap == "" {
      assert gap + more == more;
      SameBefore(before, ' ', more);
    } else {
      assert gap + more == [gap[0]] + (gap[1..] + more);
      SkipOne(before, gap[0], gap[1..] + more);
      ShowsAfterBlanks(gap[0], gap[1..], more);
    }
  }

  /** Blanks keep what is before them and what is behind them apart. */
  lemma {:induction false} ShowsAtGap(before: char, text: string, gap: Gap, more: string)
    ensures ShowsSubstitution(before, text + (gap + more))
       <==> ShowsSubstitution(before, text) || ShowsSubstitution(' ', more)
    decreases |text|
  {
    if text == "" {
      assert text + (gap + more) == [gap[0]] + (gap[1..] + more);
      SkipOne(before, gap[0], gap[1..] + more);
      ShowsAfterBlanks(gap[0], gap[1..], more);
    } else {
      var c, rest := text[0], text[1..] + (gap + more);
      ShowsAtGap(c, text[1..], gap, more);
      assert text + (gap + more) == [c] + rest && text == [c] + text[1..];
      ShowsNext(before, c, text[1..], rest, ShowsSubstitution(' ', more));
    }
  }

  predicate SomeWordShows(words: seq<Word>) {
    words != [] && (ShowsSubstitution(' ', PrintedWord(words[0])) || SomeWordShows(words[1..]))
  }

  /** The raw-line test finds a substitution in a line exactly when it finds one in one of its words. */
  lemma {:induction false} ShowsInPrinted(words: seq<Word>, gaps: Gaps)
    requires words != []
    ensures ShowsSubstitution(' ', Printed(words, gaps)) <==> SomeWordShows(words)
    decreases |words|
  {
    if |words| > 1 {
      ShowsAtGap(' ', PrintedWord(words[0]), gaps(|words| - 1), Printed(words[1..], gaps));
      ShowsInPrinted(words[1..], gaps);
    }
  }

  lemma ContainsLater(c: char, text: string, needle: string)
    requires Contains(text, needle)
    ensures Contains([c] + text, needle)
  {
    var i :| 0 <= i <= |text| && needle <= text[i..];
    assert ([c] + text)[i + 1..] == text[i..];
  }

  /** What shows without quotes is in the text itself. */
  lemma {:induction false} ShowsInBare(before: char, text: string)
    requires ShowsSubstitution(before, InBare(text))
    ensures Contains(text, "$(")
    decreases |text|
  {
    var c, more := text[0], InBare(text[1..]);
    assert text == [c] + text[1..];
    if IsOrdinary(c) {
      assert InBare(text) == [c] + more && ([c] + more)[1..] == more;
      if ShowsSubstitution(c, more) {
        ShowsInBare(c, text[1..]);
        ContainsLater(c, text[1..], "$(");
      } else {
        assert text[1] == '(';
        assert "$(" <= text[0..];
      }
    } else {
      assert InBare(text) == ['\\'] + ([c] + more);
      SkipOne(before, '\\', [c] + more);
      SkipOne('\\', c, more);
      ShowsInBare(c, text[1..]);
      ContainsLater(c, text[1..], "$(");
    }
  }

  lemma {:induction false} InBareConcat(a: string, b: string)
    ensures InBare(a) + InBare(b) == InBare(a + b)
  {
    if a == "" {
      assert a + b == b;
    } else {
      assert (a + b)[1..] == a[1..] + b;
      InBareConcat(a[1..], b);
    }
  }

  lemma {:induction false} BareWordIsOne(word: Word)
    requires IsBare(word)
    ensures PrintedWord(word) == InBare(ValueOf(word))
  {
    if word != [] {
      RestIsBare(word);
      BareWordIsOne(word[1..]);
      InBareConcat(word[0].value, ValueOf(word[1..]));
    }
  }

  /** In single quotes a substitution shows as in the text behind a quote, in double quotes never. */
  lemma ShowsInQuoted(part: Part)
    requires !part.style.Backslashes?
    ensures ShowsSubstitution(' ', PrintedWord([part]))
       <==> part.style.SingleQuotes? && ShowsSubstitution('\'', part.value)
  {
    assert PrintedWord([part]) == Quoted(part.value, part.style) + "" == Quoted(part.value, part.style);
    if part.style.SingleQuotes? {
      var body := InSingle(part.value) + ("'" + "");
      assert Quoted(part.value, part.style) == ['\''] + body;
      SkipOne(' ', '\'', body);
      ShowsInSingle('\'', part.value, "");
    } else {
      var body := InDouble(part.value) + ("\"" + "");
      assert Quoted(part.value, part.style) == ['"'] + body;
      SkipOne(' ', '"', body);
      ShowsInDouble('"', part.value, "");
    }
  }

  // ---------------------------------------------------------------- which operators of a line are seen

  /** What a line is charged with: the operators of its bare words, and what shows in the others. */
  function Charged(words: seq<Word>): set<Operator> {
    if words == [] then {}
    else
      (if IsBare(words[0]) then OperatorsIn(ValueOf(words[0]))
       else if ShowsSubstitution(' ', PrintedWord(words[0])) then {CommandSubstitution}
       else {})
      + Charged(words[1..])
  }

  lemma BareWordShows(word: Word)
    requires IsBare(word) && ShowsSubstitution(' ', PrintedWord(word))
    ensures CommandSubstitution in OperatorsIn(ValueOf(word))
  {
    BareWordIsOne(word);
    ShowsInBare(' ', ValueOf(word));
  }

  lemma {:induction false} ChargedIs(words: seq<Word>)
    ensures Charged(words)
      == BareOperators(TokensOf(words)) + (if SomeWordShows(words) then {CommandSubstitution} else {})
    decreases |words|
  {
    if words != [] {
      ChargedIs(words[1..]);
      assert TokensOf(words)[1..] == TokensOf(words[1..]);
      if IsBare(words[0]) && ShowsSubstitution(' ', PrintedWord(words[0])) {
        BareWordShows(words[0]);
      }
    }
  }

  lemma {:induction false} ValuesOfTokens(words: seq<Word>)
    ensures TokenValues(TokensOf(words)) == Values(words)
  {
    if words != [] {
      ValuesOfTokens(words[1..]);
      assert TokensOf(words)[1..] == TokensOf(words[1..]);
    }
  }

  predicate WordEndsInBlank(word: Word)
    requires WordOk(word)
  {
    var part := word[|word| - 1];
    part.style.Backslashes? && IsSpace(part.value[|part.value| - 1])
  }

  /** The last character of the line is an escaped blank. */
  predicate EndsInBlank(words: seq<Word>)
    requires words != [] && Printable(words)
  {
    var word := words[|words| - 1];
    assert WordOk(word);
    WordEndsInBlank(word)
  }

  lemma {:induction false} BareEnds(text: string)
    requires text != ""
    ensures var r, c := InBare(text), text[|text| - 1];
      && |r| >= 1 && !IsSpace(r[0]) && r[|r| - 1] == c
      && (IsSpace(c) ==> |r| >= 2 && r[|r| - 2] == '\\')
  {
    if |text| > 1 {
      BareEnds(text[1..]);
    }
  }

  lemma PartEnds(part: Part)
    requires part.style.Backslashes? ==> part.value != ""
    ensures var r := Quoted(part.value, part.style);
      && r != "" && !IsSpace(r[0])
      && (IsSpace(r[|r| - 1]) <==> part.style.Backslashes? && IsSpace(part.value[|part.value| - 1]))
      && (IsSpace(r[|r| - 1]) ==> |r| >= 2 && r[|r| - 2] == '\\')
  {
    if part.style.Backslashes? {
      BareEnds(part.value);
    }
  }

  /** A line that begins with no blank, and ends with none but an escaped one, as `blank` says. */
  ghost predicate Ends(line: string, blank: bool) {
    && line != "" && !IsSpace(line[0]) && (IsSpace(line[|line| - 1]) <==> blank)
    && (blank ==> |line| >= 2 && line[|line| - 2] == '\\')
  }

  lemma EndsAfter(front: string, gap: string, line: string, blank: bool)
    requires Ends(line, blank) && front != "" && !IsSpace(front[0])
    ensures Ends(front + (gap + line), blank)
  {
  }

  lemma LaterParts(word: Word)
    requires |word| > 1 && WordOk(word)
    ensures WordOk(word[1..]) && WordEndsInBlank(word[1..]) == WordEndsInBlank(word)
  {
    RestIsBare(word);
  }

  lemma {:induction false} WordEnds(word: Word)
    requires WordOk(word)
    ensures Ends(PrintedWord(word), WordEndsInBlank(word))
    decreases |word|
  {
    PartEnds(word[0]);
    var first := Quoted(word[0].value, word[0].style);
    if |word| > 1 {
      LaterParts(word);
      WordEnds(word[1..]);
      EndsAfter(first, "", PrintedWord(word[1..]), WordEndsInBlank(word[1..]));
      assert "" + PrintedWord(word[1..]) == PrintedWord(word[1..]);
    } else {
      assert PrintedWord(word) == first + "" == first;
    }
  }

  lemma LaterWords(words: seq<Word>)
    requires |words| > 1 && Printable(words)
    ensures Printable(words[1..]) && EndsInBlank(words[1..]) == EndsInBlank(words)
  {
    assert forall k :: 0 <= k < |words| - 1 ==> words[1..][k] == words[k + 1];
  }

  lemma {:induction false} PrintedEnds(words: seq<Word>, gaps: Gaps)
    requires words != [] && Printable(words)
    ensures Ends(Printed(words, gaps), EndsInBlank(words))
    decreases |words|
  {
    assert WordOk(words[0]);
    WordEnds(words[0]);
    if |words| > 1 {
      LaterWords(words);
      PrintedEnds(words[1..], gaps);
      EndsAfter(PrintedWord(words[0]), gaps(|words| - 1), Printed(words[1..], gaps), EndsInBlank(words[1..]));
    }
  }

  lemma TrimOf(line: string, blank: bool)
    requires Ends(line, blank)
    ensures Trim(line) == if blank then line[..|line| - 1] else line
  {
    if blank {
      assert Trim(line[..|line| - 1]) == line[..|line| - 1];
    }
  }

  // ---------------------------------------------------------------- a blank cut off at the end

  lemma Dangles(pre: string, bare: bool, tokens: seq<Token>)
    ensures Tokenize("\\", Holding(pre, bare, tokens)) == Error(DANGLING)
  {
  }

  lemma CutLast(a: string, b: string)
    requires b != ""
    ensures (a + b)[..|a + b| - 1] == a + b[..|b| - 1]
  {
  }

  /** The line but for its last character leaves the tokenizer on a backslash. */
  ghost predicate CutDangles(line: string, s: Scan) {
    line != "" && Tokenize(line[..|line| - 1], s) == Error(DANGLING)
  }

  lemma {:induction false} BareDangles(text: string, pre: string, bare: bool, tokens: seq<Token>)
    requires text != "" && IsSpace(text[|text| - 1])
    ensures CutDangles(InBare(text), Holding(pre, bare, tokens))
    decreases |text|
  {
    var c := text[0];
    var front, more := if IsOrdinary(c) then [c] else ['\\', c], InBare(text[1..]);
    assert InBare(text) == front + more;
    if |text| == 1 {
      assert (front + more)[..|front + more| - 1] == "\\";
      Dangles(pre, bare, tokens);
    } else {
      BareDangles(text[1..], pre + [c], bare, tokens);
      CutLast(front, more);
      BareChar(c, pre, bare, tokens, more[..|more| - 1]);
    }
  }

  lemma OnlyPartDangles(word: Word, part: Part, pre: string, bare: bool, tokens: seq<Token>)
    requires word == [part] && WordOk(word) && WordEndsInBlank(word)
    ensures CutDangles(PrintedWord(word), Holding(pre, bare, tokens))
  {
    assert word[1..] == [] && PrintedWord(word) == InBare(part.value) + "" == InBare(part.value);
    BareDangles(part.value, pre, bare, tokens);
  }

  lemma PartThenDangling(part: Part, more: string, pre: string, bare: bool, tokens: seq<Token>)
    requires CutDangles(more, Holding(pre + part.value, bare && part.style.Backslashes?, tokens))
    ensures CutDangles(Quoted(part.value, part.style) + more, Holding(pre, bare, tokens))
  {
    CutLast(Quoted(part.value, part.style), more);
    PartBody(part, pre, bare, tokens, more[..|more| - 1]);
  }

  lemma {:induction false} WordDangles(word: Word, pre: string, bare: bool, tokens: seq<Token>)
    requires WordOk(word) && WordEndsInBlank(word)
    ensures CutDangles(PrintedWord(word), Holding(pre, bare, tokens))
    decreases |word|
  {
    if |word| == 1 {
      OnlyPartDangles(word, word[0], pre, bare, tokens);
    } else {
      var part := word[0];
      LaterParts(word);
      WordDangles(word[1..], pre + part.value, bare && part.style.Backslashes?, tokens);
      PartThenDangling(part, PrintedWord(word[1..]), pre, bare, tokens);
    }
  }

  lemma WordThenDangling(word: Word, gap: Gap, line: string, tokens: seq<Token>)
    requires WordOk(word)
    requires CutDangles(line, Holding("", true, tokens + [Token(ValueOf(word), IsBare(word))]))
    ensures CutDangles(PrintedWord(word) + (gap + line), Holding("", true, tokens))
  {
    CutLast(PrintedWord(word), gap + line);
    CutLast(gap, line);
    WordThenGap(word, tokens, gap, line[..|line| - 1]);
  }

  lemma {:induction false} PrintedDangles(words: seq<Word>, gaps: Gaps, tokens: seq<Token>)
    requires words != [] && Printable(words) && EndsInBlank(words)
    ensures CutDangles(Printed(words, gaps), Holding("", true, tokens))
    decreases |words|
  {
    assert WordOk(words[0]);
    if |words| == 1 {
      WordDangles(words[0], "", true, tokens);
    } else {
      LaterWords(words);
      PrintedDangles(words[1..], gaps, tokens + [Token(ValueOf(words[0]), IsBare(words[0]))]);
      WordThenDangling(words[0], gaps(|words| - 1), Printed(words[1..], gaps), tokens);
    }
  }

  // ---------------------------------------------------------------- what becomes of a printed line

  lemma LineOfTokens(line: string, shell: string, tokens: seq<Token>)
    requires Trim(line) == line != "" && Tokenize(line, START) == Ok(tokens) && tokens != []
    ensures var operators := DetectOperators(tokens, line);
      ParseShellLine(line, shell) ==
      if operators == {} then Simple(TokenValues(tokens)) else Compound(line, operators, [shell, "-lc", line])
  {
  }

  /**
   * A line of printed words goes to a shell exactly when it is charged with an operator: one held by a
   * word without any quoted piece, escaped or not, or `$(` shown by another. Otherwise it is the simple
   * command of their values. Only an escaped blank at its very end is lost, and then it is refused.
   */
  lemma OperatorsOfALine(words: seq<Word>, gaps: Gaps, shell: string)
    requires words != [] && Printable(words)
    ensures ParseShellLine(Printed(words, gaps), shell) ==
      if EndsInBlank(words) then Failure(DANGLING)
      else if Charged(words) == {} then Simple(Values(words))
      else Compound(Printed(words, gaps), Charged(words), [shell, "-lc", Printed(words, gaps)])
  {
    PrintedEnds(words, gaps);
    TrimOf(Printed(words, gaps), EndsInBlank(words));
    if EndsInBlank(words) {
      CutLineDangles(words, gaps, shell);
    } else {
      WholeLineIs(words, gaps, shell);
    }
  }

  lemma CutLineDangles(words: seq<Word>, gaps: Gaps, shell: string)
    requires words != [] && Printable(words) && EndsInBlank(words)
    requires var line := Printed(words, gaps);
      |line| >= 2 && Trim(line) == line[..|line| - 1]
    ensures ParseShellLine(Printed(words, gaps), shell) == Failure(DANGLING)
  {
    var cut := Printed(words, gaps)[..|Printed(words, gaps)| - 1];
    PrintedDangles(words, gaps, START.tokens);
    RefusedLine(Printed(words, gaps), cut, shell, DANGLING);
  }

  lemma RefusedLine(line: string, cut: string, shell: string, message: string)
    requires Trim(line) == cut != "" && Tokenize(cut, START) == Error(message)
    ensures ParseShellLine(line, shell) == Failure(message)
  {
  }

  lemma WholeLineIs(words: seq<Word>, gaps: Gaps, shell: string)
    requires words != [] && Printable(words) && Trim(Printed(words, gaps)) == Printed(words, gaps) != ""
    ensures ParseShellLine(Printed(words, gaps), shell) ==
      if Charged(words) == {} then Simple(Values(words))
      else Compound(Printed(words, gaps), Charged(words), [shell, "-lc", Printed(words, gaps)])
  {
    QuotingRoundTrip(words, gaps);
    ChargedIs(words);
    ShowsInPrinted(words, gaps);
    ValuesOfTokens(words);
    LineOfTokens(Printed(words, gaps), shell, TokensOf(words));
  }

  /** Every word is one quoted piece. */
  predicate AllQuoted(words: seq<Word>) {
    forall k :: 0 <= k < |words| ==> |words[k]| == 1 && !words[k][0].style.Backslashes?
  }

  /** In single quotes, it holds `$(` after a character other than a quote or a backslash. */
  predicate PartShows(part: Part) {
    part.style.SingleQuotes? && ShowsSubstitution('\'', part.value)
  }

  predicate SomePartShows(words: seq<Word>) {
    exists k :: 0 <= k < |words| && |words[k]| > 0 && PartShows(words[k][0])
  }

  lemma {:induction false} QuotedCharges(words: seq<Word>)
    requires AllQuoted(words)
    ensures Charged(words) == if SomePartShows(words) then {CommandSubstitution} else {}
    decreases |words|
  {
    if words != [] {
      assert forall k :: 0 <= k < |words| - 1 ==> words[1..][k] == words[k + 1];
      assert words[0] == [words[0][0]];
      ShowsInQuoted(words[0][0]);
      QuotedCharges(words[1..]);
      SomeOf(words);
    }
  }

  lemma SomeOf(words: seq<Word>)
    requires AllQuoted(words) && words != []
    ensures SomePartShows(words) <==> PartShows(words[0][0]) || SomePartShows(words[1..])
  {
    if SomePartShows(words) {
      var k :| 0 <= k < |words| && |words[k]| > 0 && PartShows(words[k][0]);
      assert k > 0 ==> words[1..][k - 1] == words[k];
    }
    if SomePartShows(words[1..]) {
      var k :| 0 <= k < |words| - 1 && |words[1..][k]| > 0 && PartShows(words[1..][k][0]);
      assert words[k + 1] == words[1..][k];
    }
  }

  /**
   * A command line of quoted arguments, single or double in any mix, is a simple command with exactly
   * its arguments, unless one in single quotes holds `$(` after a character other than a quote or a
   * backslash: exactly then, quoted or not, it is handed to a shell.
   */
  lemma QuotedLineIsSimple(words: seq<Word>, gaps: Gaps, shell: string)
    requires words != [] && AllQuoted(words)
    ensures var line := Printed(words, gaps);
      ParseShellLine(line, shell) ==
      if SomePartShows(words) then Compound(line, {CommandSubstitution}, [shell, "-lc", line])
      else Simple(Values(words))
  {
    QuotedEnds(words);
    OperatorsOfALine(words, gaps, shell);
    QuotedCharges(words);
  }

  lemma QuotedEnds(words: seq<Word>)
    requires words != [] && AllQuoted(words)
    ensures Printable(words) && !EndsInBlank(words)
  {
  }

  lemma GluedShows(quoted: string, bare: string)
    requires !Contains(bare, "$(")
    ensures !ShowsSubstitution(' ', Quoted(quoted, DoubleQuotes) + InBare(bare))
  {
    var body := InDouble(quoted) + ("\"" + InBare(bare));
    Regroup("\"", InDouble(quoted), "\"");
    assert Quoted(quoted, DoubleQuotes) + InBare(bare) == ['"'] + body;
    SkipOne(' ', '"', body);
    ShowsInDouble('"', quoted, InBare(bare));
    if ShowsSubstitution('"', InBare(bare)) {
      ShowsInBare('"', bare);
    }
  }

  function Glued(quoted: string, bare: string): Word {
    [Part(quoted, DoubleQuotes), Part(bare, Backslashes)]
  }

  lemma GluedIs(quoted: string, bare: string)
    requires bare != ""
    ensures WordOk(Glued(quoted, bare)) && !IsBare(Glued(quoted, bare))
    ensures PrintedWord(Glued(quoted, bare)) == Quoted(quoted, DoubleQuotes) + InBare(bare)
    ensures ValueOf(Glued(quoted, bare)) == quoted + bare
  {
    var word := Glued(quoted, bare);
    assert !word[0].style.Backslashes?;
    assert word[1..] == [word[1]] && word[1..][1..] == [];
    assert PrintedWord(word[1..]) == InBare(bare) + "" == InBare(bare);
    assert ValueOf(word[1..]) == bare + "" == bare;
  }

  /**
   * Operators glued to a quoted piece are not seen, whichever they are: `"a"|sh` is the name of one
   * command.
   */
  lemma GluedIsSimple(quoted: string, bare: string, shell: string)
    requires bare != "" && !IsSpace(bare[|bare| - 1]) && !Contains(bare, "$(")
    ensures ParseShellLine(Quoted(quoted, DoubleQuotes) + InBare(bare), shell) == Simple([quoted + bare])
  {
    var word := Glued(quoted, bare);
    GluedIs(quoted, bare);
    GluedShows(quoted, bare);
    OneWordLine(word, shell);
  }

  lemma OneWordLine(word: Word, shell: string)
    requires WordOk(word) && !IsBare(word) && !ShowsSubstitution(' ', PrintedWord(word))
    requires !WordEndsInBlank(word)
    ensures ParseShellLine(PrintedWord(word), shell) == Simple([ValueOf(word)])
  {
    var words, gaps: Gaps := [word], _ => " ";
    OneWordIs(words, word, gaps);
    OperatorsOfALine(words, gaps, shell);
  }

  lemma OneWordIs(words: seq<Word>, word: Word, gaps: Gaps)
    requires words == [word] && WordOk(word)
    ensures Printable(words) && EndsInBlank(words) == WordEndsInBlank(word)
    ensures Printed(words, gaps) == PrintedWord(word) && Values(words) == [ValueOf(word)]
    ensures !IsBare(word) && !ShowsSubstitution(' ', PrintedWord(word)) ==> Charged(words) == {}
  {
    assert words[1..] == [];
    assert Values(words) == [ValueOf(word)] + Values(words[1..]);
    assert Charged(words[1..]) == {};
  }

  // ---------------------------------------------------------------- blanks around, and what is refused

  lemma {:induction false} TrimFront(gap: string, line: string)
    requires AllBlank(gap)
    ensures Trim(gap + line) == Trim(line)
    decreases |gap|
  {
    if gap == "" {
      assert gap + line == line;
    } else {
      assert (gap + line)[1..] == gap[1..] + line;
      TrimFront(gap[1..], line);
    }
  }

  lemma {:induction false} TrimBack(line: string, gap: string)
    requires AllBlank(gap)
    ensures Trim(line + gap) == Trim(line)
    decreases |line| + |gap|
  {
    if gap == "" {
      assert line + gap == line;
    } else if line == "" {
      assert line + gap == gap + line;
      TrimFront(gap, line);
    } else if IsSpace(line[0]) {
      assert (line + gap)[1..] == line[1..] + gap;
      TrimBack(line[1..], gap);
    } else {
      assert (line + gap)[..|line + gap| - 1] == line + gap[..|gap| - 1];
      TrimBack(line, gap[..|gap| - 1]);
    }
  }

  /** Blanks around a line change nothing. */
  lemma BlanksAround(before: string, line: string, after: string, shell: string)
    requires AllBlank(before) && AllBlank(after)
    ensures ParseShellLine(before + (line + after), shell) == ParseShellLine(line, shell)
  {
    TrimFront(before, line + after);
    TrimBack(line, after);
  }

  /** How a line leaves its quotes: closed, open, or with nothing after a backslash. */
  datatype Ending = Closed | OpenSingle | OpenDouble | Dangling

  /** Quotes and backslashes alone, without the words. */
  function EndingOf(rest: string, quote: Quote): Ending
    decreases |rest|
  {
    if rest == "" then
      match quote
      case Unquoted => Closed
      case Single => OpenSingle
      case Double => OpenDouble
    else if quote.Single? then EndingOf(rest[1..], if rest[0] == '\'' then Unquoted else Single)
    else if quote.Double? then
      if rest[0] == '\\' && |rest| > 1 && IsEscapable(rest[1]) then EndingOf(rest[2..], Double)
      else EndingOf(rest[1..], if rest[0] == '"' then Unquoted else Double)
    else if rest[0] == '\\' then (if |rest| == 1 then Dangling else EndingOf(rest[2..], Unquoted))
    else EndingOf(rest[1..], if rest[0] == '\'' then Single else if rest[0] == '"' then Double else Unquoted)
  }

  function Complaint(ending: Ending): string
    requires !ending.Closed?
  {
    match ending
    case OpenSingle => "Unterminated single quote."
    case OpenDouble => "Unterminated double quote."
    case Dangling => DANGLING
  }

  /** A line is refused exactly when a quote is left open or a backslash dangles, and says which. */
  lemma {:induction false} RefusedExactly(rest: string, s: Scan)
    ensures var ending := EndingOf(rest, s.quote);
      if ending.Closed? then Tokenize(rest, s).Ok? else Tokenize(rest, s) == Error(Complaint(ending))
    decreases |rest|
  {
    if rest != "" {
      var step := Advance(rest, s);
      if step.0 > 0 {
        RefusedExactly(rest[step.0..], step.1);
      }
    }
  }

  /** In double quotes a backslash before any other character is kept, and so is that character. */
  lemma BackslashIsKept(c: char, pre: string, tokens: seq<Token>, rest: string)
    requires !IsEscapable(c)
    ensures Tokenize(['\\', c] + rest, Inside(pre, Double, tokens))
      == Tokenize(rest, Inside(pre + ['\\', c], Double, tokens))
  {
    assert ['\\', c] + rest == ['\\'] + ([c] + rest);
    assert (['\\'] + ([c] + rest))[1] == c;
    TakeOne('\\', [c] + rest, Inside(pre, Double, tokens));
    TakeOne(c, rest, Inside(pre + ['\\'], Double, tokens));
    assert pre + ['\\'] + [c] == pre + ['\\', c];
  }
}
