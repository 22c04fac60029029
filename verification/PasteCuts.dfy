/**
 * A bracketed paste read in any number of chunks, cut anywhere (`parseInput` in src/cli/editor.ts):
 * exactly which cuts leave it a paste, and what the others turn it into.
 */
module PasteCuts {
  import opened Strings
  import opened Lines
  import opened EditorState
  import opened KeyDecoder

  /** No action of a key binding carries a text, in the source's tables or in a user's. */
  ghost predicate BindsNoText(keymap: Keymap) {
    && (forall c | c in keymap.control :: !keymap.control[c].Text?)
    && (forall sequence | sequence in keymap.csi :: !keymap.csi[sequence].Text?)
  }

  lemma DefaultBindsNoText(overrides: map<char, Key>)
    requires forall c | c in overrides :: !overrides[c].Text?
    ensures BindsNoText(DefaultKeymap(overrides))
  {
  }

  /** A paste of `body`, cut at `cut`. */
  function CutPaste(body: string, cut: nat): (chunks: seq<string>)
    requires cut <= |PASTE_START + body + PASTE_END|
  {
    var stream := PASTE_START + body + PASTE_END;
    [stream[..cut], stream[cut..]]
  }

  /** Strictly inside the opening marker, strictly inside the closing one. */
  predicate CutsOpening(cut: nat) {
    0 < cut < |PASTE_START|
  }

  predicate CutsClosing(body: string, cut: nat) {
    |PASTE_START + body| < cut < |PASTE_START + body + PASTE_END|
  }

  // ---------------------------------------------------------------- what a paste should come out as

  predicate AllText(keys: seq<Key>) {
    forall k :: 0 <= k < |keys| ==> keys[k].Text?
  }

  /** The text the keys insert. */
  function KeysText(keys: seq<Key>): string {
    if keys == [] then "" else (if keys[0].Text? then keys[0].text else "") + KeysText(keys[1..])
  }

  lemma {:induction false} KeysTextConcat(a: seq<Key>, b: seq<Key>)
    ensures KeysText(a + b) == KeysText(a) + KeysText(b)
  {
    if a == [] {
      assert a + b == b;
    } else {
      assert (a + b)[1..] == a[1..] + b;
      KeysTextConcat(a[1..], b);
    }
  }

  lemma TextKeysText(text: string)
    ensures AllText(TextKeys(text)) && KeysText(TextKeys(text)) == text
  {
    if text != "" {
      assert [Text(text)][1..] == [];
    }
  }

  /** The paste is over, and it came out as its body, in text keys alone. */
  ghost predicate Intact(p: Parsed, body: string) {
    !p.inside && AllText(p.keys) && KeysText(p.keys) == body
  }

  /** The two chunks, one after the other. */
  lemma CutIsTwoChunks(body: string, cut: nat, keymap: Keymap)
    requires cut <= |PASTE_START + body + PASTE_END|
    ensures var stream := PASTE_START + body + PASTE_END;
      var first := ParseChunk(false, stream[..cut], keymap);
      ParseChunks(false, CutPaste(body, cut), keymap)
        == Prefixed(first.keys, ParseChunk(first.inside, stream[cut..], keymap))
  {
    var stream := PASTE_START + body + PASTE_END;
    var first := ParseChunk(false, stream[..cut], keymap);
    var second := ParseChunk(first.inside, stream[cut..], keymap);
    assert CutPaste(body, cut) == [stream[..cut]] + [stream[cut..]];
    ParseTwoParts(false, stream[..cut], [stream[cut..]], keymap);
    ParseTwoParts(first.inside, stream[cut..], [], keymap);
    assert [stream[cut..]] + [] == [stream[cut..]];
    assert second.keys + [] == second.keys;
  }

  // ---------------------------------------------------------------- cuts that do no harm

  lemma TwoPieces(a: string, b: string)
    ensures Flatten([a, b]) == a + b && PieceKeys([a, b]) == TextKeys(a) + TextKeys(b)
    ensures PasteChunks("", [a, b], "") == [PASTE_START + a, b + PASTE_END]
  {
    assert [a, b][1..] == [b] && [b][1..] == [];
    assert Flatten([b]) == b;
    assert PieceKeys([b]) == TextKeys(b) + [] == TextKeys(b);
    assert "" + PASTE_START + a == PASTE_START + a && b + PASTE_END + "" == b + PASTE_END;
  }

  lemma PiecesAreIntact(a: string, b: string)
    ensures Intact(Parsed(TextKeys(a) + TextKeys(b), false), a + b)
  {
    TextKeysText(a);
    TextKeysText(b);
    KeysTextConcat(TextKeys(a), TextKeys(b));
  }

  lemma CutBodyChunks(body: string, at: nat)
    requires at <= |body|
    ensures CutPaste(body, |PASTE_START| + at) == PasteChunks("", [body[..at], body[at..]], "")
  {
    var a, b := body[..at], body[at..];
    TwoPieces(a, b);
    assert PASTE_START + body + PASTE_END == (PASTE_START + a) + (b + PASTE_END);
  }

  lemma CutInBody(body: string, at: nat, keymap: Keymap)
    requires Find(body, PASTE_END).None? && at <= |body|
    ensures Intact(ParseChunks(false, CutPaste(body, |PASTE_START| + at), keymap), body)
  {
    var a, b := body[..at], body[at..];
    var nothing := Parse("", keymap);
    assert a + b == body;
    TwoPieces(a, b);
    CutBodyChunks(body, at);
    PasteInChunks("", [a, b], "", keymap);
    assert nothing.keys + (TextKeys(a) + TextKeys(b)) + nothing.keys == TextKeys(a) + TextKeys(b);
    PiecesAreIntact(a, b);
  }

  /** The whole paste in one chunk. */
  lemma WholeIsIntact(body: string, keymap: Keymap)
    requires Find(body, PASTE_END).None?
    ensures Parse(PASTE_START + body + PASTE_END, keymap) == Parsed(TextKeys(body), false)
  {
    assert PASTE_START + body + PASTE_END == PASTE_START + (body + PASTE_END + "");
    ClosedPaste(body, "", keymap);
    assert TextKeys(body) + [] == TextKeys(body);
  }

  lemma CutAtAnEnd(body: string, cut: nat, keymap: Keymap)
    requires Find(body, PASTE_END).None? && (cut == 0 || cut == |PASTE_START + body + PASTE_END|)
    ensures Intact(ParseChunks(false, CutPaste(body, cut), keymap), body)
  {
    var stream := PASTE_START + body + PASTE_END;
    CutIsTwoChunks(body, cut, keymap);
    WholeIsIntact(body, keymap);
    TextKeysText(body);
    if cut == 0 {
      assert stream[..cut] == "" && stream[cut..] == stream;
      assert [] + TextKeys(body) == TextKeys(body);
    } else {
      assert stream[..cut] == stream && stream[cut..] == "";
      assert TextKeys(body) + [] == TextKeys(body);
    }
  }

  // ---------------------------------------------------------------- a cut in the closing marker

  lemma NoEndInCutMarker(body: string, k: nat)
    requires Find(body, PASTE_END).None? && 0 < k < |PASTE_END|
    ensures Find(body + PASTE_END[..k], PASTE_END).None?
  {
    var s := body + PASTE_END[..k];
    FindIsFirst(body, PASTE_END);
    forall i: nat ensures !Occurs(s, PASTE_END, i) {
      if i + 6 <= |body| {
        OccursInPrefix(body, PASTE_END[..k], PASTE_END, i);
      } else if i < |body| {
        NoMarkerAcross(s, |body|, i);
      }
    }
    FindIsNone(s, PASTE_END);
  }

  lemma CutMarkerChunks(body: string, k: nat)
    requires k <= |PASTE_END|
    ensures var stream, cut := PASTE_START + body + PASTE_END, |PASTE_START + body| + k;
      stream[..cut] == PASTE_START + (body + PASTE_END[..k]) && stream[cut..] == PASTE_END[k..]
  {
  }

  /** Both halves of the closing marker become text, and the paste is still open. */
  lemma CutInClosing(body: string, k: nat, keymap: Keymap)
    requires Find(body, PASTE_END).None? && 0 < k < |PASTE_END|
    ensures ParseChunks(false, CutPaste(body, |PASTE_START + body| + k), keymap)
      == Parsed([Text(body + PASTE_END[..k]), Text(PASTE_END[k..])], true)
  {
    CutIsTwoChunks(body, |PASTE_START + body| + k, keymap);
    CutMarkerChunks(body, k);
    NoEndInCutMarker(body, k);
    OpenPaste(body + PASTE_END[..k], keymap);
    assert |PASTE_END[k..]| < 6;
    assert [Text(body + PASTE_END[..k])] + [Text(PASTE_END[k..])]
      == [Text(body + PASTE_END[..k]), Text(PASTE_END[k..])];
  }

  // ---------------------------------------------------------------- a cut in the opening marker

  predicate Printable(s: string) {
    forall k :: 0 <= k < |s| ==> InClass(s[k], Printables)
  }

  /** How much of `rest` a step takes. */
  function TakenOf(step: Step, rest: string): nat {
    Min(step.taken, |rest|)
  }

  /** A step whose keys are text inserts no more than it takes: a printable run, or the body of a paste
      that is shorter by both markers. */
  ghost predicate InsertsItsText(step: Step, rest: string) {
    AllText(step.keys) ==>
      && |KeysText(step.keys)| <= TakenOf(step, rest)
      && (if step.open then |KeysText(step.keys)| + 6 <= TakenOf(step, rest)
          else Printable(KeysText(step.keys)) || |KeysText(step.keys)| + 12 <= TakenOf(step, rest))
  }

  ghost predicate TextDecoder(next: Decoder) {
    forall rest :: rest != "" ==> InsertsItsText(next(rest), rest)
  }

  lemma PasteInserts(rest: string, keymap: Keymap)
    requires PASTE_START <= rest
    ensures InsertsItsText(NextStep(rest, keymap), rest)
  {
    var body := rest[|PASTE_START|..];
    TextKeysText(body);
    if Find(body, PASTE_END).Some? {
      TextKeysText(body[..Find(body, PASTE_END).value]);
    }
  }

  lemma OneKeyText(key: Option<Key>)
    requires key.Some? ==> !key.value.Text?
    ensures AllText(OneKey(key)) ==> OneKey(key) == []
  {
    if key.Some? {
      assert OneKey(key)[0] == key.value;
    }
  }

  lemma StepInserts(rest: string, keymap: Keymap)
    requires BindsNoText(keymap) && rest != ""
    ensures InsertsItsText(NextStep(rest, keymap), rest)
  {
    if PASTE_START <= rest {
      PasteInserts(rest, keymap);
    } else if CSI <= rest {
      var j := ForwardWhile(rest, |CSI|, CsiParameters);
      OneKeyText(CsiKey(rest[|CSI|..if j < |rest| then j + 1 else j], keymap));
    } else {
      var j := ForwardWhile(rest, 0, Printables);
      RunEndIsRun(rest, 0, Printables);
      TextKeysText(rest[..j]);
    }
  }

  /** How a text inserted compares with the `n` characters read for it, by the paste's flag before and after. */
  ghost predicate Inserts(from: bool, to: bool, text: string, n: nat) {
    if from != to then |text| + 6 <= n
    else |text| <= n && (!from ==> Printable(text) || |text| + 12 <= n)
  }

  lemma InsertsBoth(from: bool, mid: bool, to: bool, a: string, m: nat, b: string, n: nat)
    requires Inserts(from, mid, a, m) && Inserts(mid, to, b, n)
    ensures Inserts(from, to, a + b, m + n)
  {
    PrintableParts(a, b);
  }

  ghost predicate ParsedInserts(from: bool, p: Parsed, n: nat) {
    AllText(p.keys) ==> Inserts(from, p.inside, KeysText(p.keys), n)
  }

  lemma PrefixedInserts(from: bool, first: Parsed, more: Parsed, m: nat, n: nat)
    requires ParsedInserts(from, first, m) && ParsedInserts(first.inside, more, n)
    ensures ParsedInserts(from, Prefixed(first.keys, more), m + n)
  {
    KeysTextConcat(first.keys, more.keys);
    KeysInParts(first.keys, more.keys);
    if AllText(first.keys + more.keys) {
      InsertsBoth(from, first.inside, more.inside, KeysText(first.keys), m, KeysText(more.keys), n);
    }
  }

  lemma {:induction false} ParseInserts(rest: string, next: Decoder)
    requires TextDecoder(next)
    ensures ParsedInserts(false, ParseWith(rest, next), |rest|)
    decreases |rest|
  {
    if rest != "" {
      var step := next(rest);
      assert InsertsItsText(step, rest);
      if !step.open {
        var tail := Drop(rest, step.taken);
        ParseInserts(tail, next);
        PrefixedInserts(false, Parsed(step.keys, false), ParseWith(tail, next), TakenOf(step, rest), |tail|);
      }
    }
  }

  lemma ChunkInserts(inside: bool, data: string, keymap: Keymap)
    requires BindsNoText(keymap)
    ensures ParsedInserts(inside, ParseChunk(inside, data, keymap), |data|)
  {
    if !inside {
      DecoderInserts(keymap);
      ParseInserts(data, DecoderOf(keymap));
    } else {
      var at := Find(data, PASTE_END);
      if at.Some? {
        ClosingChunkInserts(data, at.value, keymap);
      } else {
        PastedChunkInserts(data);
      }
    }
  }

  lemma PastedChunkInserts(data: string)
    ensures ParsedInserts(true, Parsed(TextKeys(data), true), |data|)
  {
    TextKeysText(data);
  }

  lemma ClosingChunkInserts(data: string, e: nat, keymap: Keymap)
    requires BindsNoText(keymap) && Find(data, PASTE_END) == Some(e)
    ensures ParsedInserts(true, Prefixed(TextKeys(data[..e]), Parse(data[e + |PASTE_END|..], keymap)), |data|)
  {
    var rest := data[e + |PASTE_END|..];
    DecoderInserts(keymap);
    ParseInserts(rest, DecoderOf(keymap));
    TextKeysText(data[..e]);
    PrefixedInserts(true, Parsed(TextKeys(data[..e]), false), Parse(rest, keymap), e + |PASTE_END|, |rest|);
  }

  lemma {:induction false} ChunksInsert(inside: bool, chunks: seq<string>, keymap: Keymap)
    requires BindsNoText(keymap)
    ensures ParsedInserts(inside, ParseChunks(inside, chunks, keymap), |Flatten(chunks)|)
    decreases |chunks|
  {
    if chunks != [] {
      var others, first := chunks[1..], ParseChunk(inside, chunks[0], keymap);
      ChunkInserts(inside, chunks[0], keymap);
      ChunksInsert(first.inside, others, keymap);
      PrefixedInserts(inside, first, ParseChunks(first.inside, others, keymap), |chunks[0]|, |Flatten(others)|);
    }
  }

  lemma KeysInParts(a: seq<Key>, b: seq<Key>)
    ensures AllText(a + b) <==> AllText(a) && AllText(b)
  {
    if AllText(a + b) {
      assert forall k :: 0 <= k < |a| ==> (a + b)[k] == a[k];
      assert forall k :: 0 <= k < |b| ==> (a + b)[|a| + k] == b[k];
    }
  }

  lemma DecoderInserts(keymap: Keymap)
    requires BindsNoText(keymap)
    ensures TextDecoder(DecoderOf(keymap))
  {
    var next := DecoderOf(keymap);
    forall rest | rest != ""
      ensures InsertsItsText(next(rest), rest)
    {
      StepInserts(rest, keymap);
    }
  }

  /** Where the first run of printable characters of a chunk ends. */
  lemma RunToEscape(text: string, rest: string)
    requires Printable(text) && rest != "" && !InClass(rest[0], Printables)
    ensures ForwardWhile(text + rest, 0, Printables) == |text|
  {
    assert (text + rest)[|text|] == rest[0];
    RunIs(text + rest, 0, Printables, |text|);
  }

  /** A chunk that starts with printable text decodes to that text first, unless a key is bound to it. */
  lemma FirstIsText(text: string, rest: string, keymap: Keymap)
    requires text != "" && Printable(text) && rest != "" && !InClass(rest[0], Printables)
    ensures var step := NextStep(text + rest, keymap);
      match ControlKey(text[0], keymap)
      case None => step == Step([Text(text)], |text|, false)
      case Some(key) => step == Step([key], 1, false)
  {
    var s := text + rest;
    assert s[0] == text[0] && InClass(text[0], Printables);
    RunToEscape(text, rest);
    assert s[..|text|] == text;
  }

  /** A chunk of printable text is that text, unless a key is bound to one of its characters. */
  lemma PrintableChunk(text: string, keymap: Keymap)
    requires BindsNoText(keymap) && Printable(text)
    ensures AllText(Parse(text, keymap).keys) ==> Parse(text, keymap) == Parsed(TextKeys(text), false)
  {
    if text != "" {
      var next := DecoderOf(keymap);
      RunIs(text, 0, Printables, |text|);
      assert InClass(text[0], Printables) && text[..|text|] == text;
      var more := ParseWith(Drop(text, next(text).taken), next);
      OneStep(text, next, Drop(text, next(text).taken));
      KeysInParts(next(text).keys, more.keys);
      if ControlKey(text[0], keymap).Some? {
        assert !next(text).keys[0].Text?;
      } else {
        assert next(text).keys + [] == next(text).keys == TextKeys(text);
      }
    }
  }

  lemma PrintableFront(text: string, rest: string, keymap: Keymap)
    requires BindsNoText(keymap) && Printable(text) && rest != "" && !InClass(rest[0], Printables)
    ensures var p := Parse(text + rest, keymap);
      AllText(p.keys) ==> |KeysText(p.keys)| >= |text|
  {
    if text != "" {
      var next := DecoderOf(keymap);
      FirstIsText(text, rest, keymap);
      var step := next(text + rest);
      var more := ParseWith(Drop(text + rest, step.taken), next);
      OneStep(text + rest, next, Drop(text + rest, step.taken));
      KeysInParts(step.keys, more.keys);
      KeysTextConcat(step.keys, more.keys);
      if AllText(step.keys + more.keys) {
        assert step.keys[0].Text?;
        TextKeysText(text);
        assert step.keys == TextKeys(text);
      }
    }
  }

  /** Read as keystrokes, in any chunks, printable text is inserted whole if text keys come out alone. */
  lemma {:induction false} PrintableChunks(chunks: seq<string>, text: string, tail: string, keymap: Keymap)
    requires BindsNoText(keymap) && Printable(text) && tail != "" && !InClass(tail[0], Printables)
    requires Flatten(chunks) == text + tail
    ensures var p := ParseChunks(false, chunks, keymap);
      AllText(p.keys) ==> |KeysText(p.keys)| >= |text|
    decreases |chunks|
  {
    var c, others := chunks[0], chunks[1..];
    var first := ParseChunk(false, c, keymap);
    var more := ParseChunks(first.inside, others, keymap);
    KeysInParts(first.keys, more.keys);
    KeysTextConcat(first.keys, more.keys);
    FirstOfTwo(c, Flatten(others), text, tail);
    if |c| <= |text| {
      PrintableChunkAndRest(text, |c|, keymap);
      PrintableChunks(others, text[|c|..], tail, keymap);
    } else {
      PrintableFront(text, tail[..|c| - |text|], keymap);
    }
  }

  lemma PrintableChunkAndRest(text: string, n: nat, keymap: Keymap)
    requires BindsNoText(keymap) && Printable(text) && n <= |text|
    ensures Printable(text[n..])
    ensures var p := Parse(text[..n], keymap);
      AllText(p.keys) ==> !p.inside && |KeysText(p.keys)| == n
  {
    PrintableParts(text[..n], text[n..]);
    assert text[..n] + text[n..] == text;
    PrintableChunk(text[..n], keymap);
    TextKeysText(text[..n]);
  }

  /** The first chunk ends within the first part of the text, or within the second. */
  lemma FirstOfTwo(c: string, others: string, a: string, b: string)
    requires c + others == a + b
    ensures |c| <= |a| ==> c == a[..|c|] && others == a[|c|..] + b
    ensures |c| >= |a| ==> c == a + b[..|c| - |a|] && others == b[|c| - |a|..]
  {
    var n := |c|;
    assert c == (a + b)[..n] && others == (a + b)[n..];
  }

  lemma PrintableParts(a: string, b: string)
    ensures Printable(a + b) <==> Printable(a) && Printable(b)
  {
    if Printable(a + b) {
      assert forall k :: 0 <= k < |a| ==> (a + b)[k] == a[k];
      assert forall k :: 0 <= k < |b| ==> (a + b)[|a| + k] == b[k];
    }
  }

  /** Read as keystrokes, in any chunks, the rest of a cut paste never inserts exactly the body. */
  lemma RestIsNotTheBody(chunks: seq<string>, front: string, body: string, keymap: Keymap)
    requires BindsNoText(keymap) && 0 < |front| < |PASTE_START| && Printable(front)
    requires Flatten(chunks) == front + body + PASTE_END
    ensures !Intact(ParseChunks(false, chunks, keymap), body)
  {
    ChunksInsert(false, chunks, keymap);
    PrintableParts(front, body);
    if Printable(body) {
      PrintableChunks(chunks, front + body, PASTE_END, keymap);
    }
  }

  /** The front of the opening marker: Escape, or a sequence no key is bound to. */
  lemma FrontOfMarker(cut: nat, keymap: Keymap)
    requires BindsNoText(keymap) && CutsOpening(cut)
    ensures var p := Parse(PASTE_START[..cut], keymap);
      !p.inside && (AllText(p.keys) ==> cut > 1 && p.keys == [])
  {
    var s, next := PASTE_START[..cut], DecoderOf(keymap);
    assert !(PASTE_START <= s);
    if cut == 1 {
      assert s == [ESC] && !(CSI <= s);
      assert next(s) == Step([Escape], 1, false);
      OneStep(s, next, "");
      assert Parse(s, keymap).keys[0] == Escape;
    } else {
      assert CSI <= s;
      var j := ForwardWhile(s, |CSI|, CsiParameters);
      assert forall k :: 2 <= k < cut ==> InClass(s[k], CsiParameters);
      RunIs(s, |CSI|, CsiParameters, cut);
      var key := CsiKey(s[|CSI|..j], keymap);
      OneKeyText(key);
      assert next(s) == Step(OneKey(key), cut + 1, false);
      OneStep(s, next, "");
      assert OneKey(key) + [] == OneKey(key);
    }
  }

  lemma CutOpeningChunks(body: string, cut: nat)
    requires CutsOpening(cut)
    ensures var stream := PASTE_START + body + PASTE_END;
      stream[..cut] == PASTE_START[..cut] && stream[cut..] == PASTE_START[cut..] + body + PASTE_END
  {
  }

  lemma RestOfMarkerPrints(cut: nat)
    requires CutsOpening(cut)
    ensures Printable(PASTE_START[cut..]) && 0 < |PASTE_START[cut..]| < |PASTE_START|
  {
  }

  // ---------------------------------------------------------------- any number of cuts

  /** Some chunk but the first begins strictly between two places of the text they make up. */
  predicate CutsBetween(chunks: seq<string>, from: int, to: int) {
    chunks != [] && (from < |chunks[0]| < to || CutsBetween(chunks[1..], from - |chunks[0]|, to - |chunks[0]|))
  }

  lemma {:induction false} NoCutBefore(chunks: seq<string>, from: int, to: int)
    requires to <= 0
    ensures !CutsBetween(chunks, from, to)
  {
    if chunks != [] {
      NoCutBefore(chunks[1..], from - |chunks[0]|, to - |chunks[0]|);
    }
  }

  lemma {:induction false} NothingRead(chunks: seq<string>, keymap: Keymap)
    requires Flatten(chunks) == ""
    ensures ParseChunks(false, chunks, keymap) == Parsed([], false)
  {
    if chunks != [] {
      NothingRead(chunks[1..], keymap);
    }
  }

  /** Less than a closing marker closes nothing. */
  lemma {:induction false} ShortStaysOpen(chunks: seq<string>, keymap: Keymap)
    requires |Flatten(chunks)| < |PASTE_END|
    ensures ParseChunks(true, chunks, keymap).inside
  {
    if chunks != [] {
      ShortStaysOpen(chunks[1..], keymap);
    }
  }

  lemma TextThenIntact(text: string, more: Parsed, rest: string)
    requires Intact(more, rest)
    ensures Intact(Prefixed(TextKeys(text), more), text + rest)
  {
    TextKeysText(text);
    KeysInParts(TextKeys(text), more.keys);
    KeysTextConcat(TextKeys(text), more.keys);
  }

  /** One chunk within a paste that goes on. */
  lemma PieceInPaste(chunks: seq<string>, body: string, n: nat, keymap: Keymap)
    requires chunks != [] && |chunks[0]| == n <= |body| && Find(body, PASTE_END).None?
    requires Flatten(chunks) == body + PASTE_END
    ensures Find(body[n..], PASTE_END).None? && Flatten(chunks[1..]) == body[n..] + PASTE_END
    ensures chunks[0] == body[..n]
    ensures ParseChunks(true, chunks, keymap)
      == Prefixed(TextKeys(body[..n]), ParseChunks(true, chunks[1..], keymap))
  {
    FirstOfTwo(chunks[0], Flatten(chunks[1..]), body, PASTE_END);
    assert body[..n] + body[n..] == body;
    NoEndInParts(body[..n], body[n..]);
  }

  lemma {:induction false} BodyKept(chunks: seq<string>, body: string, keymap: Keymap)
    requires Find(body, PASTE_END).None? && Flatten(chunks) == body + PASTE_END
    requires !CutsBetween(chunks, |body|, |body| + |PASTE_END|)
    ensures Intact(ParseChunks(true, chunks, keymap), body)
    decreases |chunks|
  {
    var n := |chunks[0]|;
    if n <= |body| {
      PieceInPaste(chunks, body, n, keymap);
      BodyKept(chunks[1..], body[n..], keymap);
      PieceKept(body, n, ParseChunks(true, chunks[1..], keymap));
    } else {
      EndByChunk(chunks, body, keymap);
    }
  }

  lemma PieceKept(body: string, n: nat, more: Parsed)
    requires n <= |body| && Intact(more, body[n..])
    ensures Intact(Prefixed(TextKeys(body[..n]), more), body)
  {
    TextThenIntact(body[..n], more, body[n..]);
    assert body[..n] + body[n..] == body;
  }

  lemma EndByChunk(chunks: seq<string>, body: string, keymap: Keymap)
    requires chunks != [] && |chunks[0]| >= |body + PASTE_END| && Find(body, PASTE_END).None?
    requires Flatten(chunks) == body + PASTE_END
    ensures Intact(ParseChunks(true, chunks, keymap), body)
  {
    FirstOfTwo(chunks[0], Flatten(chunks[1..]), body + PASTE_END, "");
    ChunkInPaste(body, "", keymap);
    assert chunks[0] == body + PASTE_END + "";
    NothingRead(chunks[1..], keymap);
    TextKeysText(body);
    assert TextKeys(body) + [] + [] == TextKeys(body);
  }

  lemma {:induction false} BodyLeftOpen(chunks: seq<string>, body: string, keymap: Keymap)
    requires Find(body, PASTE_END).None? && Flatten(chunks) == body + PASTE_END
    requires CutsBetween(chunks, |body|, |body| + |PASTE_END|)
    ensures ParseChunks(true, chunks, keymap).inside
    decreases |chunks|
  {
    var n := |chunks[0]|;
    if n <= |body| {
      PieceInPaste(chunks, body, n, keymap);
      BodyLeftOpen(chunks[1..], body[n..], keymap);
    } else {
      CutInEnd(chunks, body, n - |body|, keymap);
    }
  }

  /** A chunk that ends inside the closing marker, of a paste that is open before it. */
  lemma CutInEnd(chunks: seq<string>, body: string, k: nat, keymap: Keymap)
    requires 0 < k && chunks != [] && |chunks[0]| == |body| + k && Find(body, PASTE_END).None?
    requires Flatten(chunks) == body + PASTE_END && CutsBetween(chunks, |body|, |body| + |PASTE_END|)
    ensures ParseChunks(true, chunks, keymap).inside
  {
    if k >= |PASTE_END| {
      NoCutBefore(chunks[1..], |body| - |chunks[0]|, |body| + |PASTE_END| - |chunks[0]|);
    }
    assert k < |PASTE_END|;
    BackOfEnd(chunks, body, k, keymap);
  }

  lemma BackOfEnd(chunks: seq<string>, body: string, k: nat, keymap: Keymap)
    requires 0 < k < |PASTE_END| && chunks != [] && |chunks[0]| == |body| + k && Find(body, PASTE_END).None?
    requires Flatten(chunks) == body + PASTE_END
    ensures ParseChunks(true, chunks, keymap).inside
  {
    FirstOfTwo(chunks[0], Flatten(chunks[1..]), body, PASTE_END);
    NoEndInCutMarker(body, k);
    ShortStaysOpen(chunks[1..], keymap);
  }

  /** The paste opened by the first chunk that is not empty, with the opening marker whole in it. */
  lemma OpenedByChunk(chunks: seq<string>, body: string, n: nat, keymap: Keymap)
    requires chunks != [] && |chunks[0]| == |PASTE_START| + n && n <= |body| && Find(body, PASTE_END).None?
    requires Flatten(chunks) == PASTE_START + body + PASTE_END
    ensures Find(body[n..], PASTE_END).None? && Flatten(chunks[1..]) == body[n..] + PASTE_END
    ensures ParseChunks(false, chunks, keymap)
      == Prefixed(TextKeys(body[..n]), ParseChunks(true, chunks[1..], keymap))
  {
    var front, back := PASTE_START + body[..n], body[n..] + PASTE_END;
    assert body[..n] + body[n..] == body;
    NoEndInParts(body[..n], body[n..]);
    assert PASTE_START + body + PASTE_END == front + back;
    FirstOfTwo(chunks[0], Flatten(chunks[1..]), front, back);
    assert front[..|front|] == front;
    OpenPaste(body[..n], keymap);
  }

  lemma WholeByChunk(chunks: seq<string>, body: string, keymap: Keymap)
    requires chunks != [] && |chunks[0]| == |PASTE_START + body + PASTE_END| && Find(body, PASTE_END).None?
    requires Flatten(chunks) == PASTE_START + body + PASTE_END
    ensures Intact(ParseChunks(false, chunks, keymap), body)
  {
    assert chunks[0] == PASTE_START + body + PASTE_END && Flatten(chunks[1..]) == "";
    WholeIsIntact(body, keymap);
    NothingRead(chunks[1..], keymap);
    TextKeysText(body);
    assert TextKeys(body) + [] == TextKeys(body);
  }

  /** Some cut is strictly inside a marker. */
  predicate CutsAMarker(chunks: seq<string>, body: string) {
    || CutsBetween(chunks, 0, |PASTE_START|)
    || CutsBetween(chunks, |PASTE_START| + |body|, |PASTE_START| + |body| + |PASTE_END|)
  }

  /** A first chunk that ends inside the opening marker always spoils the paste. */
  lemma FrontThenRest(chunks: seq<string>, body: string, n: nat, keymap: Keymap)
    requires BindsNoText(keymap) && chunks != [] && |chunks[0]| == n && CutsOpening(n)
    requires Flatten(chunks) == PASTE_START + body + PASTE_END
    ensures !Intact(ParseChunks(false, chunks, keymap), body)
  {
    var others, front := chunks[1..], PASTE_START[n..];
    var whole := PASTE_START + body + PASTE_END;
    assert whole[..n] == PASTE_START[..n] && whole[n..] == front + body + PASTE_END;
    assert chunks[0] == whole[..n] && Flatten(others) == whole[n..];
    var first, more := Parse(PASTE_START[..n], keymap), ParseChunks(false, others, keymap);
    FrontOfMarker(n, keymap);
    RestOfMarkerPrints(n);
    RestIsNotTheBody(others, front, body, keymap);
    KeysInParts(first.keys, more.keys);
    KeysTextConcat(first.keys, more.keys);
  }

  lemma BackOfClosing(chunks: seq<string>, body: string, k: nat, keymap: Keymap)
    requires 0 < k < |PASTE_END| && chunks != [] && |chunks[0]| == |PASTE_START + body| + k
    requires Find(body, PASTE_END).None? && Flatten(chunks) == PASTE_START + body + PASTE_END
    ensures ParseChunks(false, chunks, keymap).inside
  {
    var front := PASTE_START + (body + PASTE_END[..k]);
    assert PASTE_START + body + PASTE_END == front + PASTE_END[k..];
    FirstOfTwo(chunks[0], Flatten(chunks[1..]), front, PASTE_END[k..]);
    assert front[..|front|] == front;
    NoEndInCutMarker(body, k);
    OpenPaste(body + PASTE_END[..k], keymap);
    ShortStaysOpen(chunks[1..], keymap);
  }

  lemma OpenedIsKeptOrNot(chunks: seq<string>, body: string, n: nat, keymap: Keymap)
    requires chunks != [] && |chunks[0]| == |PASTE_START| + n && n <= |body| && Find(body, PASTE_END).None?
    requires Flatten(chunks) == PASTE_START + body + PASTE_END
    ensures Intact(ParseChunks(false, chunks, keymap), body)
      <==> !CutsBetween(chunks[1..], |body| - n, |body| + |PASTE_END| - n)
  {
    var rest, others := body[n..], chunks[1..];
    OpenedByChunk(chunks, body, n, keymap);
    if CutsBetween(others, |rest|, |rest| + |PASTE_END|) {
      BodyLeftOpen(others, rest, keymap);
    } else {
      BodyKept(others, rest, keymap);
      PieceKept(body, n, ParseChunks(true, others, keymap));
    }
  }

  /**
   * Main result: a paste read in chunks, however many and wherever cut, comes out as text keys alone that
   * insert its body, and is over after them, exactly when no cut is strictly inside a marker.
   */
  lemma {:induction false} ReadsKeepThePaste(chunks: seq<string>, body: string, keymap: Keymap)
    requires BindsNoText(keymap) && Find(body, PASTE_END).None?
    requires Flatten(chunks) == PASTE_START + body + PASTE_END
    ensures Intact(ParseChunks(false, chunks, keymap), body) <==> !CutsAMarker(chunks, body)
    decreases |chunks|
  {
    if |chunks[0]| == 0 {
      EmptyFirst(chunks, body, keymap);
      ReadsKeepThePaste(chunks[1..], body, keymap);
    } else if CutsOpening(|chunks[0]|) {
      FrontThenRest(chunks, body, |chunks[0]|, keymap);
    } else {
      OpeningIsWhole(chunks, body, keymap);
    }
  }

  lemma EmptyFirst(chunks: seq<string>, body: string, keymap: Keymap)
    requires chunks != [] && chunks[0] == ""
    ensures Flatten(chunks[1..]) == Flatten(chunks)
    ensures CutsAMarker(chunks[1..], body) <==> CutsAMarker(chunks, body)
    ensures ParseChunks(false, chunks[1..], keymap) == ParseChunks(false, chunks, keymap)
  {
    var more := ParseChunks(false, chunks[1..], keymap);
    assert [] + more.keys == more.keys;
    assert "" + Flatten(chunks[1..]) == Flatten(chunks[1..]);
  }

  lemma OpeningIsWhole(chunks: seq<string>, body: string, keymap: Keymap)
    requires chunks != [] && |chunks[0]| >= |PASTE_START| && Find(body, PASTE_END).None?
    requires Flatten(chunks) == PASTE_START + body + PASTE_END
    ensures Intact(ParseChunks(false, chunks, keymap), body) <==> !CutsAMarker(chunks, body)
  {
    var n := |chunks[0]| - |PASTE_START|;
    CutsAfterOpening(chunks, body, n);
    if n <= |body| {
      OpenedIsKeptOrNot(chunks, body, n, keymap);
    } else if n < |body| + |PASTE_END| {
      BackOfClosing(chunks, body, n - |body|, keymap);
    } else {
      NoCutBefore(chunks[1..], |body| - n, |body| + |PASTE_END| - n);
      assert |chunks[0]| <= |Flatten(chunks)|;
      WholeByChunk(chunks, body, keymap);
    }
  }

  lemma CutsAfterOpening(chunks: seq<string>, body: string, n: nat)
    requires chunks != [] && |chunks[0]| == |PASTE_START| + n
    ensures CutsAMarker(chunks, body)
      <==> |body| < n < |body| + |PASTE_END| || CutsBetween(chunks[1..], |body| - n, |body| + |PASTE_END| - n)
  {
    NoCutBefore(chunks[1..], 0 - |chunks[0]|, |PASTE_START| - |chunks[0]|);
  }

  /** In two chunks: exactly when the one cut is strictly inside neither marker. */
  lemma CutKeepsThePaste(body: string, cut: nat, keymap: Keymap)
    requires BindsNoText(keymap) && Find(body, PASTE_END).None?
    requires cut <= |PASTE_START + body + PASTE_END|
    ensures Intact(ParseChunks(false, CutPaste(body, cut), keymap), body)
      <==> !CutsOpening(cut) && !CutsClosing(body, cut)
  {
    var stream := PASTE_START + body + PASTE_END;
    var a, b := stream[..cut], stream[cut..];
    TwoPieces(a, b);
    assert a + b == stream;
    OneCut(a, b, 0, |PASTE_START|);
    OneCut(a, b, |PASTE_START| + |body|, |stream|);
    ReadsKeepThePaste([a, b], body, keymap);
  }

  lemma OneCut(a: string, b: string, from: int, to: int)
    requires to <= |a| + |b|
    ensures CutsBetween([a, b], from, to) <==> from < |a| < to
  {
    var chunks := [a, b];
    assert chunks[1..] == [b] && chunks[1..][1..] == [];
    assert !CutsBetween(chunks[1..][1..], from - |a| - |b|, to - |a| - |b|);
    assert CutsBetween(chunks[1..], from - |a|, to - |a|) <==> from - |a| < |b| < to - |a|;
  }

  // ---------------------------------------------------------------- what the other cuts do

  /** Only control characters are bound, as in the source's table and in a user's bindings. */
  ghost predicate BindsControls(keymap: Keymap) {
    forall c | c in keymap.control :: !InClass(c, Printables)
  }

  lemma DefaultBindsControls(overrides: map<char, Key>)
    requires forall c | c in overrides :: !InClass(c, Printables)
    ensures BindsControls(DefaultKeymap(overrides))
  {
  }

  lemma NewlineNext(text: string, y: string, keymap: Keymap)
    requires text != "" && Printable(text) && BindsControls(keymap)
    ensures Enter in Parse(text + ([NL] + y), keymap).keys
  {
    var tail, next := [NL] + y, DecoderOf(keymap);
    FirstIsText(text, tail, keymap);
    assert Drop(text + tail, |text|) == tail;
    OneStep(text + tail, next, tail);
    LineFeedIsEnter(y, keymap);
    OneStep(tail, next, y);
    assert ParseWith(tail, next).keys[0] == Enter;
    assert ParseWith(text + tail, next).keys[1] == Enter;
  }

  /** Cut inside the opening marker, the first newline of a pasted text is an Enter, which submits the line. */
  lemma PastedNewlineIsEnter(x: string, y: string, cut: nat, keymap: Keymap)
    requires CutsOpening(cut) && Printable(x) && BindsControls(keymap)
    ensures Enter in ParseChunks(false, CutPaste(x + [NL] + y, cut), keymap).keys
  {
    var body, front := x + [NL] + y, PASTE_START[cut..];
    CutIsTwoChunks(body, cut, keymap);
    CutOpeningChunks(body, cut);
    assert front + body + PASTE_END == (front + x) + ([NL] + (y + PASTE_END));
    RestOfMarkerPrints(cut);
    PrintableParts(front, x);
    NewlineNext(front + x, y + PASTE_END, keymap);
    FrontStaysOutside(cut, keymap);
  }

  /** A concrete loss: two pasted lines with the source's tables, cut after the first byte. */
  lemma TwoPastedLinesSubmit()
    ensures Enter in ParseChunks(false, CutPaste("a\nb", 1), DefaultKeymap(map[])).keys
  {
    DefaultBindsControls(map[]);
    assert "a" + [NL] + "b" == "a\nb";
    PastedNewlineIsEnter("a", "b", 1, DefaultKeymap(map[]));
  }

  // ---------------------------------------------------------------- when the paste is left open

  /** Every opening marker has its closing one behind it. */
  ghost predicate Closes(s: string) {
    forall k: nat :: Occurs(s, PASTE_START, k) ==> exists e: nat :: k + |PASTE_START| <= e && Occurs(s, PASTE_END, e)
  }

  lemma ClosesLater(s: string, n: nat)
    requires Closes(s)
    ensures Closes(Drop(s, n))
  {
    var tail := Drop(s, n);
    if n <= |s| {
      forall k: nat | Occurs(tail, PASTE_START, k)
        ensures exists e: nat :: k + |PASTE_START| <= e && Occurs(tail, PASTE_END, e)
      {
        assert tail[k..] == s[n + k..];
        assert Occurs(s, PASTE_START, n + k);
        var e: nat :| n + k + |PASTE_START| <= e && Occurs(s, PASTE_END, e);
        assert tail[e - n..] == s[e..];
        assert Occurs(tail, PASTE_END, e - n);
      }
    }
  }

  /** A step that leaves a paste open found no closing marker behind the opening one. */
  lemma OpenStepHasNoEnd(s: string, keymap: Keymap)
    requires Closes(s)
    ensures !NextStep(s, keymap).open
  {
    if PASTE_START <= s {
      assert s[0..] == s && Occurs(s, PASTE_START, 0);
      var e: nat :| |PASTE_START| <= e && Occurs(s, PASTE_END, e);
      var body := s[|PASTE_START|..];
      assert body[e - |PASTE_START|..] == s[e..];
      assert Occurs(body, PASTE_END, e - |PASTE_START|);
      FindIsFirst(body, PASTE_END);
    }
  }

  lemma {:induction false} ClosedTextStaysClosed(s: string, keymap: Keymap)
    requires Closes(s)
    ensures !Parse(s, keymap).inside
    decreases |s|
  {
    if s != "" {
      var next := DecoderOf(keymap);
      var tail := Drop(s, next(s).taken);
      OpenStepHasNoEnd(s, keymap);
      ClosesLater(s, next(s).taken);
      ClosedTextStaysClosed(tail, keymap);
      OneStep(s, next, tail);
    }
  }

  lemma MarkerAt(s: string, marker: string, k: nat)
    requires Occurs(s, marker, k)
    ensures k + |marker| <= |s| && forall i :: k <= i < k + |marker| ==> s[i] == marker[i - k]
  {
    assert forall i :: k <= i < k + |marker| ==> s[i] == s[k..][i - k];
  }

  /** Neither marker can start inside the other. */
  lemma EndCloses(text: string)
    ensures Closes(text + PASTE_END)
  {
    var s, m := text + PASTE_END, |text|;
    assert s[m..] == PASTE_END;
    assert Occurs(s, PASTE_END, m);
    MarkerAt(s, PASTE_END, m);
    assert s[m] == ESC && s[m + 4] == '1';
    forall k: nat | Occurs(s, PASTE_START, k)
      ensures k + |PASTE_START| <= m
    {
      MarkerAt(s, PASTE_START, k);
      assert s[k + 4] == '0';
      assert forall i :: k < i < k + 6 ==> s[i] != ESC;
    }
  }

  lemma FrontStaysOutside(cut: nat, keymap: Keymap)
    requires CutsOpening(cut)
    ensures !Parse(PASTE_START[..cut], keymap).inside
  {
    var s := PASTE_START[..cut];
    forall k: nat
      ensures !Occurs(s, PASTE_START, k)
    {
    }
    ClosedTextStaysClosed(s, keymap);
  }

  lemma CutOpeningIsNotOpen(body: string, cut: nat, keymap: Keymap)
    requires CutsOpening(cut)
    ensures !ParseChunks(false, CutPaste(body, cut), keymap).inside
  {
    var front := PASTE_START[cut..];
    CutIsTwoChunks(body, cut, keymap);
    CutOpeningChunks(body, cut);
    FrontStaysOutside(cut, keymap);
    EndCloses(front + body);
    ClosedTextStaysClosed(front + body + PASTE_END, keymap);
  }

  /** A paste in two chunks is left open exactly when the cut is strictly inside the closing marker. */
  lemma CutInsideMarkerLeavesPasteOpen(body: string, cut: nat, keymap: Keymap)
    requires Find(body, PASTE_END).None? && cut <= |PASTE_START + body + PASTE_END|
    ensures CutsClosing(body, cut) <==> ParseChunks(false, CutPaste(body, cut), keymap).inside
  {
    if CutsOpening(cut) {
      CutOpeningIsNotOpen(body, cut, keymap);
    } else if CutsClosing(body, cut) {
      CutInClosing(body, cut - |PASTE_START + body|, keymap);
    } else {
      CutElsewhere(body, cut, keymap);
    }
  }

  lemma CutElsewhere(body: string, cut: nat, keymap: Keymap)
    requires Find(body, PASTE_END).None? && cut <= |PASTE_START + body + PASTE_END|
    requires !CutsOpening(cut) && !CutsClosing(body, cut)
    ensures !ParseChunks(false, CutPaste(body, cut), keymap).inside
  {
    if cut == 0 || cut == |PASTE_START + body + PASTE_END| {
      CutAtAnEnd(body, cut, keymap);
    } else {
      CutInBody(body, cut - |PASTE_START|, keymap);
    }
  }
}
