/**
 * Bytes to keys, with a bracketed paste carried from one chunk to the next (`parseInput` in
 * src/cli/editor.ts).
 *
 * `Parse` describes what is decoded from the front of the remaining text; the method
 * `ParseInput` is the source's index loop and is proved to produce the same keys.
 */
module KeyDecoder {
  import opened Strings
  import opened Lines
  import opened EditorState
  import opened FlatBuffer
  import opened EditorRuns

  const ESC: char := '\U{1B}'
  const CSI: string := [ESC, '[']
  const PASTE_START: string := [ESC, '[', '2', '0', '0', '~']
  const PASTE_END: string := [ESC, '[', '2', '0', '1', '~']

  class PasteState {
    var inside: bool

    constructor ()
      ensures !inside
    {
      inside := false;
    }
  }

  datatype Parsed = Parsed(keys: seq<Key>, inside: bool)

  /** One decoding step: the keys it yields, how much it takes, and whether a paste stays open. */
  datatype Step = Step(keys: seq<Key>, taken: Positive, open: bool)

  type Positive = n: nat | n > 0 witness 1

  /** Anything that decodes the front of a text. */
  type Decoder = string -> Step

  // ---------------------------------------------------------------- searching

  ghost predicate Occurs(s: string, pat: string, k: nat) {
    k <= |s| && pat <= s[k..]
  }

  /** It is the first occurrence, or there is none. */
  lemma {:induction false} FindIsFirst(s: string, pat: string)
    requires pat != ""
    ensures Find(s, pat).Some? ==>
      Occurs(s, pat, Find(s, pat).value) && forall k: nat :: k < Find(s, pat).value ==> !Occurs(s, pat, k)
    ensures Find(s, pat).None? ==> forall k: nat :: !Occurs(s, pat, k)
  {
    if |s| >= |pat| && !(pat <= s) {
      FindIsFirst(s[1..], pat);
      forall k: nat | Occurs(s, pat, k) ensures k > 0 && Occurs(s[1..], pat, k - 1) {
        if k > 0 { assert s[k..] == s[1..][k - 1..]; }
      }
      if Find(s, pat).Some? {
        var e := Find(s, pat).value;
        assert s[e..] == s[1..][e - 1..];
      }
    }
  }

  lemma FindIs(s: string, pat: string, at: nat)
    requires pat != "" && Occurs(s, pat, at)
    requires forall k: nat :: k < at ==> !Occurs(s, pat, k)
    ensures Find(s, pat) == Some(at)
  {
    FindIsFirst(s, pat);
  }

  lemma FindIsNone(s: string, pat: string)
    requires pat != "" && forall k: nat :: !Occurs(s, pat, k)
    ensures Find(s, pat) == None
  {
    FindIsFirst(s, pat);
  }

  /** A text in which the marker occurs no earlier than in its extension. */
  lemma OccursInPrefix(a: string, b: string, pat: string, k: nat)
    requires k + |pat| <= |a|
    ensures Occurs(a + b, pat, k) <==> Occurs(a, pat, k)
  {
    assert (a + b)[k..][..|pat|] == a[k..][..|pat|];
  }

  lemma OccursInSuffix(a: string, b: string, pat: string, k: nat)
    ensures Occurs(a + b, pat, |a| + k) <==> Occurs(b, pat, k)
  {
    if k <= |b| {
      assert (a + b)[|a| + k..] == b[k..];
    }
  }

  /** A paste marker cannot begin inside another: only its first character is an escape. */
  lemma NoMarkerAcross(s: string, at: nat, k: nat)
    requires k < at < |s| && s[at] == ESC && at < k + |PASTE_END|
    ensures !Occurs(s, PASTE_END, k)
  {
    assert s[k..][at - k] == ESC != PASTE_END[at - k];
  }

  lemma EndAfterBody(body: string, rest: string)
    requires Find(body, PASTE_END).None?
    ensures Find(body + PASTE_END + rest, PASTE_END) == Some(|body|)
  {
    var s := body + PASTE_END + rest;
    assert s == body + (PASTE_END + rest);
    assert s[|body|..] == PASTE_END + rest;
    FindIsFirst(body, PASTE_END);
    forall k: nat | k < |body| ensures !Occurs(s, PASTE_END, k) {
      if k + |PASTE_END| <= |body| {
        OccursInPrefix(body, PASTE_END + rest, PASTE_END, k);
      } else {
        NoMarkerAcross(s, |body|, k);
      }
    }
    FindIs(s, PASTE_END, |body|);
  }

  // ---------------------------------------------------------------- the decoding table

  /** The control keys and the CSI sequences a decoder understands. */
  datatype Keymap = Keymap(control: map<char, Key>, csi: map<string, Key>)

  const CONTROL_KEYS: map<char, Key> := map[
    '\U{01}' := Home, '\U{03}' := Cancel, '\U{04}' := Eof, '\U{05}' := End, '\U{0A}' := Newline,
    '\U{0B}' := KillToEnd, '\U{0C}' := Clear, '\U{15}' := KillToStart, '\U{17}' := KillWord,
    '\U{12}' := Search, '\U{19}' := Yank, '\U{1A}' := Undo, '\U{09}' := Tab]

  const CSI_KEYS: map<string, Key> := map[
    "A" := Up, "B" := Down, "C" := Right, "D" := Left, "H" := Home, "1~" := Home, "F" := End, "4~" := End,
    "3~" := Delete, "1;5C" := WordRight, "1;5D" := WordLeft, "13;2u" := Newline, "Z" := CycleMode]

  /** The source's tables, with the user's remapped control keys winning. */
  function DefaultKeymap(overrides: map<char, Key>): Keymap {
    Keymap(CONTROL_KEYS + overrides, CSI_KEYS)
  }

  function ControlKey(c: char, keymap: Keymap): Option<Key> {
    if c in keymap.control then Some(keymap.control[c]) else None
  }

  function CsiKey(sequence: string, keymap: Keymap): Option<Key> {
    if sequence in keymap.csi then Some(keymap.csi[sequence]) else None
  }

  function OneKey(key: Option<Key>): seq<Key> {
    if key.Some? then [key.value] else []
  }

  function TextKeys(text: string): (keys: seq<Key>)
    ensures forall k :: 0 <= k < |keys| ==> keys[k].Text?
  {
    if text == "" then [] else [Text(text)]
  }

  /** What the front of the remaining text decodes to. A truncated CSI takes one past the end. */
  function NextStep(rest: string, keymap: Keymap): (step: Step)
    ensures step.taken <= |rest| + 1
  {
    if rest == "" then Step([], 1, false)
    else if PASTE_START <= rest then
      var body := rest[|PASTE_START|..];
      match Find(body, PASTE_END)
      case None => Step(TextKeys(body), |rest|, true)
      case Some(e) => Step(TextKeys(body[..e]), |PASTE_START| + e + |PASTE_END|, false)
    else if CSI <= rest then
      var j := ForwardWhile(rest, |CSI|, CsiParameters);
      Step(OneKey(CsiKey(rest[|CSI|..if j < |rest| then j + 1 else j], keymap)), j + 1, false)
    else
      var c := rest[0];
      if c == ESC then Step([Escape], 1, false)
      else if c == '\r' || c == '\n' then Step([Enter], 1, false)
      else if c == '\U{7F}' || c == '\U{8}' then Step([Backspace], 1, false)
      else if ControlKey(c, keymap).Some? then Step([ControlKey(c, keymap).value], 1, false)
      else if c < '\U{20}' then Step([], 1, false)
      else
        var j := ForwardWhile(rest, 0, Printables);
        Step([Text(rest[..j])], j, false)
  }

  /** The keys in a text, one decoding step after another, until it ends or leaves a paste open. */
  function ParseWith(rest: string, next: Decoder): Parsed
    decreases |rest|
  {
    if rest == "" then Parsed([], false)
    else if next(rest).open then Parsed(next(rest).keys, true)
    else Prefixed(next(rest).keys, ParseWith(Drop(rest, next(rest).taken), next))
  }

  /** `keys`, then whatever `more` decoded to. */
  function Prefixed(keys: seq<Key>, more: Parsed): Parsed {
    Parsed(keys + more.keys, more.inside)
  }

  function DecoderOf(keymap: Keymap): Decoder {
    rest => NextStep(rest, keymap)
  }

  /** The keys in a text that does not start inside a paste. */
  function Parse(rest: string, keymap: Keymap): Parsed {
    ParseWith(rest, DecoderOf(keymap))
  }

  /** The keys in one chunk, and whether a paste is open after it. */
  function ParseChunk(inside: bool, data: string, keymap: Keymap): Parsed {
    if !inside then Parse(data, keymap)
    else match Find(data, PASTE_END)
      case None => Parsed(TextKeys(data), true)
      case Some(e) =>
        Prefixed(TextKeys(data[..e]), Parse(data[e + |PASTE_END|..], keymap))
  }

  function ParseChunks(inside: bool, chunks: seq<string>, keymap: Keymap): Parsed
    decreases |chunks|
  {
    if chunks == [] then Parsed([], inside)
    else
      var first := ParseChunk(inside, chunks[0], keymap);
      Prefixed(first.keys, ParseChunks(first.inside, chunks[1..], keymap))
  }

  // ---------------------------------------------------------------- the loop

  ghost predicate IsRun(s: string, from: nat, run: CharClass, j: nat) {
    && from <= j <= |s|
    && (forall k :: from <= k < j ==> InClass(s[k], run))
    && (j == |s| || !InClass(s[j], run))
  }

  lemma {:induction false} RunIs(s: string, from: nat, run: CharClass, j: nat)
    requires IsRun(s, from, run, j)
    ensures ForwardWhile(s, from, run) == j
    decreases j - from
  {
    if from < j {
      RunIs(s, from + 1, run, j);
    }
  }

  lemma {:induction false} RunEndIsRun(s: string, from: nat, run: CharClass)
    requires from <= |s|
    ensures IsRun(s, from, run, ForwardWhile(s, from, run))
    decreases |s| - from
  {
    if from < |s| && InClass(s[from], run) {
      RunEndIsRun(s, from + 1, run);
    }
  }

  method ScanRun(data: string, from: nat, run: CharClass) returns (j: nat)
    requires from <= |data|
    ensures IsRun(data, from, run, j)
  {
    j := from;
    while j < |data| && InClass(data[j], run)
      invariant from <= j <= |data|
      invariant forall k :: from <= k < j ==> InClass(data[k], run)
    {
      j := j + 1;
    }
  }

  /** The decoding step at index `i` of a chunk. */
  method StepAt(data: string, i: nat, keymap: Keymap) returns (step: Step)
    requires i < |data|
    ensures step == NextStep(data[i..], keymap)
  {
    ghost var rest := data[i..];
    if PASTE_START <= data[i..] {
      var end := Find(data[i + |PASTE_START|..], PASTE_END);
      assert rest[|PASTE_START|..] == data[i + |PASTE_START|..];
      if end.None? {
        step := Step(TextKeys(data[i + |PASTE_START|..]), |data| - i, true);
      } else {
        var body := data[i + |PASTE_START|..i + |PASTE_START| + end.value];
        assert body == rest[|PASTE_START|..][..end.value];
        step := Step(TextKeys(body), |PASTE_START| + end.value + |PASTE_END|, false);
      }
    } else if CSI <= data[i..] {
      var j := ScanRun(data, i + |CSI|, CsiParameters);
      RunIs(rest, |CSI|, CsiParameters, j - i);
      var sequence := data[i + |CSI|..if j < |data| then j + 1 else j];
      assert sequence == rest[|CSI|..if j - i < |rest| then j - i + 1 else j - i];
      step := Step(OneKey(CsiKey(sequence, keymap)), j - i + 1, false);
    } else {
      var c := data[i];
      if c == ESC {
        step := Step([Escape], 1, false);
      } else if c == '\r' || c == '\n' {
        step := Step([Enter], 1, false);
      } else if c == '\U{7F}' || c == '\U{8}' {
        step := Step([Backspace], 1, false);
      } else if ControlKey(c, keymap).Some? {
        step := Step([ControlKey(c, keymap).value], 1, false);
      } else if c < '\U{20}' {
        step := Step([], 1, false);
      } else {
        var j := ScanRun(data, i, Printables);
        RunIs(rest, 0, Printables, j - i);
        assert data[i..j] == rest[..j - i];
        step := Step([Text(data[i..j])], j - i, false);
      }
    }
  }

  /** `keys`, then what the rest decodes to. */
  ghost function ParseOnto(keys: seq<Key>, rest: string, next: Decoder): Parsed
    decreases |rest|
  {
    if rest == "" then Parsed(keys, false)
    else if next(rest).open then Parsed(keys + next(rest).keys, true)
    else ParseOnto(keys + next(rest).keys, Drop(rest, next(rest).taken), next)
  }

  lemma {:induction false} ParseOntoIsPrefixed(keys: seq<Key>, rest: string, next: Decoder)
    ensures ParseOnto(keys, rest, next) == Prefixed(keys, ParseWith(rest, next))
    decreases |rest|
  {
    if rest == "" {
      assert keys + [] == keys;
    } else if !next(rest).open {
      var more, left := next(rest).keys, ParseWith(Drop(rest, next(rest).taken), next);
      ParseOntoIsPrefixed(keys + more, Drop(rest, next(rest).taken), next);
      assert keys + (more + left.keys) == keys + more + left.keys;
    }
  }

  /** One turn of the loop. */
  lemma LoopTurn(data: string, i: nat, next: Decoder, step: Step, keys: seq<Key>)
    requires i < |data| && step == next(data[i..])
    ensures ParseOnto(keys, Drop(data, i), next)
      == if step.open then Parsed(keys + step.keys, true)
        else ParseOnto(keys + step.keys, Drop(data, i + step.taken), next)
  {
    assert Drop(data[i..], step.taken) == Drop(data, i + step.taken);
  }

  /** Where decoding starts in a chunk, and the paste text before it. */
  lemma ChunkStart(inside: bool, data: string, keymap: Keymap)
    ensures !inside ==> ParseChunk(inside, data, keymap) == Prefixed([], ParseWith(Drop(data, 0), DecoderOf(keymap)))
    ensures var end := Find(data, PASTE_END);
      inside && end.Some? ==>
        ParseChunk(inside, data, keymap)
          == Prefixed(TextKeys(data[..end.value]), ParseWith(Drop(data, end.value + |PASTE_END|), DecoderOf(keymap)))
  {
    assert Drop(data, 0) == data;
    assert [] + Parse(data, keymap).keys == Parse(data, keymap).keys;
  }

  method ParseInput(data: string, keymap: Keymap, paste: PasteState) returns (keys: seq<Key>)
    modifies paste
    ensures Parsed(keys, paste.inside) == ParseChunk(old(paste.inside), data, keymap)
  {
    ghost var next, all := DecoderOf(keymap), ParseChunk(paste.inside, data, keymap);
    keys := [];
    var i := 0;
    if paste.inside {
      var end := Find(data, PASTE_END);
      if end.None? {
        return TextKeys(data);
      }
      keys := TextKeys(data[..end.value]);
      paste.inside := false;
      i := end.value + |PASTE_END|;
    }
    ChunkStart(old(paste.inside), data, keymap);
    ParseOntoIsPrefixed(keys, Drop(data, i), next);
    while i < |data|
      invariant !paste.inside
      invariant all == ParseOnto(keys, Drop(data, i), next)
      decreases |data| - i
    {
      var step := StepAt(data, i, keymap);
      LoopTurn(data, i, next, step, keys);
      keys := keys + step.keys;
      if step.open {
        paste.inside := true;
        return;
      }
      i := i + step.taken;
    }
  }

  /** A line feed is Enter, whatever the control table or an override says of it. */
  lemma LineFeedIsEnter(rest: string, keymap: Keymap)
    ensures NextStep([NL] + rest, keymap) == Step([Enter], 1, false)
  {
    assert ([NL] + rest)[0] == NL;
  }

  // ---------------------------------------------------------------- what comes before a paste

  /** Decoding stops exactly at the end: no paste left open, no escape sequence cut short. */
  predicate SettledWith(rest: string, next: Decoder)
    decreases |rest|
  {
    rest == "" || (!next(rest).open && next(rest).taken <= |rest| && SettledWith(Drop(rest, next(rest).taken), next))
  }

  predicate Settled(rest: string, keymap: Keymap) {
    SettledWith(rest, DecoderOf(keymap))
  }

  lemma SettledStep(rest: string, more: string, keymap: Keymap)
    requires rest != "" && PASTE_START <= more
    requires !NextStep(rest, keymap).open && NextStep(rest, keymap).taken <= |rest|
    ensures NextStep(rest + more, keymap) == NextStep(rest, keymap)
  {
    if PASTE_START <= rest {
      PasteStepIsSettled(rest, more, keymap);
    } else if CSI <= rest {
      CsiStepIsSettled(rest, more, keymap);
    } else {
      PlainStepIsSettled(rest, more, keymap);
    }
  }

  lemma FindSurvives(body: string, more: string)
    requires Find(body, PASTE_END).Some?
    ensures Find(body + more, PASTE_END) == Find(body, PASTE_END)
  {
    var e := Find(body, PASTE_END).value;
    FindIsFirst(body, PASTE_END);
    forall k: nat | k <= e ensures Occurs(body + more, PASTE_END, k) <==> Occurs(body, PASTE_END, k) {
      OccursInPrefix(body, more, PASTE_END, k);
    }
    FindIs(body + more, PASTE_END, e);
  }

  lemma PasteStepIsSettled(rest: string, more: string, keymap: Keymap)
    requires PASTE_START <= rest && !NextStep(rest, keymap).open
    ensures NextStep(rest + more, keymap) == NextStep(rest, keymap)
  {
    var body := rest[6..];
    FindSurvives(body, more);
    var e := Find(body, PASTE_END).value;
    assert (rest + more)[6..] == body + more;
    assert (body + more)[..e] == body[..e];
  }

  lemma PlainStepIsSettled(rest: string, more: string, keymap: Keymap)
    requires rest != "" && !(CSI <= rest) && PASTE_START <= more
    ensures NextStep(rest + more, keymap) == NextStep(rest, keymap)
  {
    var s := rest + more;
    assert !(CSI <= s) by {
      assert |rest| == 1 ==> s[1] == ESC;
    }
    var j := ForwardWhile(rest, 0, Printables);
    assert s[|rest|] == ESC;
    RunEndIsRun(rest, 0, Printables);
    RunIs(s, 0, Printables, j);
    assert s[..j] == rest[..j];
  }

  lemma CsiStepIsSettled(rest: string, more: string, keymap: Keymap)
    requires CSI <= rest && !(PASTE_START <= rest) && PASTE_START <= more
    requires NextStep(rest, keymap).taken <= |rest|
    ensures NextStep(rest + more, keymap) == NextStep(rest, keymap)
  {
    var s := rest + more;
    var j := ForwardWhile(rest, 2, CsiParameters);
    RunEndIsRun(rest, 2, CsiParameters);
    RunIs(s, 2, CsiParameters, j);
    if |rest| >= 6 {
      assert s[..6] == rest[..6];
    } else {
      assert s[j] == rest[j] != PASTE_START[j];
    }
    assert s[2..j + 1] == rest[2..j + 1];
  }

  lemma PrefixedTwice(keys: seq<Key>, tail: Parsed, more: Parsed)
    ensures Prefixed(keys, Prefixed(tail.keys, more)) == Prefixed(Prefixed(keys, tail).keys, more)
  {
    assert keys + (tail.keys + more.keys) == keys + tail.keys + more.keys;
  }

  /** `more` does not change how anything complete before it is decoded. */
  ghost predicate Separates(more: string, next: Decoder) {
    forall rest :: rest != "" && !next(rest).open && next(rest).taken <= |rest| ==> next(rest + more) == next(rest)
  }

  lemma OneStep(s: string, next: Decoder, rest: string)
    requires s != "" && !next(s).open && Drop(s, next(s).taken) == rest
    ensures ParseWith(s, next) == Prefixed(next(s).keys, ParseWith(rest, next))
  {
  }

  lemma {:induction false} ParseWithSettled(pre: string, more: string, next: Decoder)
    requires SettledWith(pre, next) && Separates(more, next)
    ensures ParseWith(pre + more, next) == Prefixed(ParseWith(pre, next).keys, ParseWith(more, next))
    decreases |pre|
  {
    if pre == "" {
      assert pre + more == more;
      assert [] + ParseWith(more, next).keys == ParseWith(more, next).keys;
    } else {
      var tail := Drop(pre, next(pre).taken);
      ParseWithSettled(tail, more, next);
      assert Drop(pre + more, next(pre).taken) == tail + more;
      OneStep(pre + more, next, tail + more);
      OneStep(pre, next, tail);
      PrefixedTwice(next(pre).keys, ParseWith(tail, next), ParseWith(more, next));
    }
  }

  /** Keys before a paste are decoded as if the paste were not there. */
  lemma ParseSettled(pre: string, more: string, keymap: Keymap)
    requires Settled(pre, keymap) && PASTE_START <= more
    ensures Parse(pre + more, keymap) == Prefixed(Parse(pre, keymap).keys, Parse(more, keymap))
  {
    var next := DecoderOf(keymap);
    forall rest | rest != "" && !next(rest).open && next(rest).taken <= |rest| ensures next(rest + more) == next(rest) {
      SettledStep(rest, more, keymap);
    }
    ParseWithSettled(pre, more, next);
  }

  // ---------------------------------------------------------------- a paste, whole and in chunks

  function PieceKeys(pieces: seq<string>): (keys: seq<Key>)
    ensures forall k :: 0 <= k < |keys| ==> keys[k].Text?
  {
    if pieces == [] then [] else TextKeys(pieces[0]) + PieceKeys(pieces[1..])
  }

  /** The chunks a terminal delivers when the body of a paste is cut into `pieces`. */
  function PasteChunks(pre: string, pieces: seq<string>, rest: string): (chunks: seq<string>)
    requires pieces != []
  {
    if |pieces| == 1 then [pre + PASTE_START + pieces[0] + PASTE_END + rest]
    else [pre + PASTE_START + pieces[0]] + TailChunks(pieces[1..], rest)
  }

  function TailChunks(pieces: seq<string>, rest: string): (chunks: seq<string>)
    requires pieces != []
    ensures |chunks| == |pieces|
  {
    if |pieces| == 1 then [pieces[0] + PASTE_END + rest] else [pieces[0]] + TailChunks(pieces[1..], rest)
  }

  lemma {:induction false} ChunksAreTheStream(pre: string, pieces: seq<string>, rest: string)
    requires pieces != []
    ensures Flatten(PasteChunks(pre, pieces, rest)) == pre + PASTE_START + Flatten(pieces) + PASTE_END + rest
  {
    if |pieces| == 1 {
      assert Flatten(pieces) == pieces[0];
    } else {
      TailIsTheStream(pieces[1..], rest);
      assert PasteChunks(pre, pieces, rest)[1..] == TailChunks(pieces[1..], rest);
      assert pre + PASTE_START + pieces[0] + (Flatten(pieces[1..]) + PASTE_END + rest)
          == pre + PASTE_START + (pieces[0] + Flatten(pieces[1..])) + PASTE_END + rest;
    }
  }

  lemma {:induction false} TailIsTheStream(pieces: seq<string>, rest: string)
    requires pieces != []
    ensures Flatten(TailChunks(pieces, rest)) == Flatten(pieces) + PASTE_END + rest
  {
    if |pieces| == 1 {
      assert Flatten(pieces) == pieces[0];
    } else {
      TailIsTheStream(pieces[1..], rest);
      assert TailChunks(pieces, rest)[1..] == TailChunks(pieces[1..], rest);
      assert pieces[0] + (Flatten(pieces[1..]) + PASTE_END + rest)
        == pieces[0] + Flatten(pieces[1..]) + PASTE_END + rest;
    }
  }

  lemma NoEndInParts(a: string, b: string)
    requires Find(a + b, PASTE_END).None?
    ensures Find(a, PASTE_END).None? && Find(b, PASTE_END).None?
  {
    FindIsFirst(a + b, PASTE_END);
    FindIsFirst(a, PASTE_END);
    FindIsFirst(b, PASTE_END);
    if Find(a, PASTE_END).Some? {
      OccursInPrefix(a, b, PASTE_END, Find(a, PASTE_END).value);
    }
    if Find(b, PASTE_END).Some? {
      OccursInSuffix(a, b, PASTE_END, Find(b, PASTE_END).value);
    }
  }

  lemma OpenPaste(body: string, keymap: Keymap)
    requires Find(body, PASTE_END).None?
    ensures Parse(PASTE_START + body, keymap) == Parsed(TextKeys(body), true)
  {
    assert (PASTE_START + body)[6..] == body;
  }

  lemma PasteStep(tail: string, e: nat, keymap: Keymap)
    requires Find(tail, PASTE_END) == Some(e)
    ensures NextStep(PASTE_START + tail, keymap) == Step(TextKeys(tail[..e]), e + 12, false)
  {
    assert (PASTE_START + tail)[6..] == tail;
  }

  lemma PasteDropped(body: string, rest: string)
    ensures Drop(PASTE_START + (body + PASTE_END + rest), |body| + 12) == rest
    ensures (body + PASTE_END + rest)[..|body|] == body
  {
    var pasted := PASTE_START + body + PASTE_END;
    assert PASTE_START + (body + PASTE_END + rest) == pasted + rest && |pasted| == |body| + 12;
  }

  lemma ClosedPaste(body: string, rest: string, keymap: Keymap)
    requires Find(body, PASTE_END).None?
    ensures Parse(PASTE_START + (body + PASTE_END + rest), keymap) == Prefixed(TextKeys(body), Parse(rest, keymap))
  {
    EndAfterBody(body, rest);
    PasteDropped(body, rest);
    PasteStep(body + PASTE_END + rest, |body|, keymap);
    OneStep(PASTE_START + (body + PASTE_END + rest), DecoderOf(keymap), rest);
  }

  lemma ChunkInPaste(body: string, rest: string, keymap: Keymap)
    requires Find(body, PASTE_END).None?
    ensures ParseChunk(true, body + PASTE_END + rest, keymap) == Prefixed(TextKeys(body), Parse(rest, keymap))
  {
    EndAfterBody(body, rest);
    assert (body + PASTE_END + rest)[..|body|] == body;
    assert (body + PASTE_END + rest)[|body| + 6..] == rest;
  }

  /** A chunk inside a paste, without the end marker, is text, and the paste goes on. */
  lemma ChunkStaysInPaste(piece: string, others: seq<string>, keymap: Keymap)
    requires Find(piece, PASTE_END).None?
    ensures ParseChunks(true, [piece] + others, keymap) == Prefixed(TextKeys(piece), ParseChunks(true, others, keymap))
  {
    ParseTwoParts(true, piece, others, keymap);
  }

  lemma {:induction false} ParseTail(pieces: seq<string>, rest: string, keymap: Keymap)
    requires pieces != [] && Find(Flatten(pieces), PASTE_END).None?
    ensures ParseChunks(true, TailChunks(pieces, rest), keymap) == Prefixed(PieceKeys(pieces), Parse(rest, keymap))
    decreases |pieces|
  {
    NoEndInParts(pieces[0], Flatten(pieces[1..]));
    if |pieces| == 1 {
      LastChunk(pieces[0], rest, keymap);
      assert PieceKeys(pieces) == TextKeys(pieces[0]);
    } else {
      ParseTail(pieces[1..], rest, keymap);
      ChunkStaysInPaste(pieces[0], TailChunks(pieces[1..], rest), keymap);
      PrefixedTwice(TextKeys(pieces[0]), Parsed(PieceKeys(pieces[1..]), false), Parse(rest, keymap));
    }
  }

  lemma LastChunk(piece: string, rest: string, keymap: Keymap)
    requires Find(piece, PASTE_END).None?
    ensures ParseChunks(true, [piece + PASTE_END + rest], keymap) == Prefixed(TextKeys(piece), Parse(rest, keymap))
  {
    ChunkInPaste(piece, rest, keymap);
    assert [piece + PASTE_END + rest][1..] == [];
  }

  /** A paste in one read, with keys before it. */
  lemma PasteInOneChunk(pre: string, body: string, rest: string, keymap: Keymap)
    requires Settled(pre, keymap) && Find(body, PASTE_END).None?
    ensures Parse(pre + PASTE_START + body + PASTE_END + rest, keymap)
         == Prefixed(Parse(pre, keymap).keys + TextKeys(body), Parse(rest, keymap))
  {
    var more := PASTE_START + (body + PASTE_END + rest);
    assert pre + PASTE_START + body + PASTE_END + rest == pre + more;
    ParseSettled(pre, more, keymap);
    ClosedPaste(body, rest, keymap);
    assert Parse(pre, keymap).keys + (TextKeys(body) + Parse(rest, keymap).keys)
        == Parse(pre, keymap).keys + TextKeys(body) + Parse(rest, keymap).keys;
  }

  /** A paste opened in a read that ends before its marker. */
  lemma PasteOpens(pre: string, body: string, keymap: Keymap)
    requires Settled(pre, keymap) && Find(body, PASTE_END).None?
    ensures Parse(pre + PASTE_START + body, keymap) == Parsed(Parse(pre, keymap).keys + TextKeys(body), true)
  {
    assert pre + PASTE_START + body == pre + (PASTE_START + body);
    ParseSettled(pre, PASTE_START + body, keymap);
    OpenPaste(body, keymap);
  }

  lemma ParseTwoParts(inside: bool, first: string, others: seq<string>, keymap: Keymap)
    ensures var p := ParseChunk(inside, first, keymap);
      ParseChunks(inside, [first] + others, keymap) == Prefixed(p.keys, ParseChunks(p.inside, others, keymap))
  {
    assert ([first] + others)[1..] == others;
  }

  /**
   * Main result: however the body of a paste is cut into reads, what is typed before it and after
   * it decodes as if unsplit, and the body comes out as text keys alone, one per non-empty piece.
   */
  lemma PasteInChunks(pre: string, pieces: seq<string>, rest: string, keymap: Keymap)
    requires pieces != [] && Settled(pre, keymap) && Find(Flatten(pieces), PASTE_END).None?
    ensures ParseChunks(false, PasteChunks(pre, pieces, rest), keymap)
         == Prefixed(Parse(pre, keymap).keys + PieceKeys(pieces), Parse(rest, keymap))
  {
    NoEndInParts(pieces[0], Flatten(pieces[1..]));
    if |pieces| == 1 {
      assert PieceKeys(pieces) == TextKeys(pieces[0]);
      PasteInOneChunk(pre, pieces[0], rest, keymap);
      ParseTwoParts(false, pre + PASTE_START + pieces[0] + PASTE_END + rest, [], keymap);
    } else {
      PasteOpens(pre, pieces[0], keymap);
      ParseTwoParts(false, pre + PASTE_START + pieces[0], TailChunks(pieces[1..], rest), keymap);
      ParseTail(pieces[1..], rest, keymap);
      KeysInThree(Parse(pre, keymap).keys, TextKeys(pieces[0]), PieceKeys(pieces[1..]), Parse(rest, keymap));
    }
  }

  lemma KeysInThree(a: seq<Key>, b: seq<Key>, c: seq<Key>, more: Parsed)
    ensures Prefixed(a + b, Prefixed(c, more)) == Prefixed(a + (b + c), more)
  {
    assert a + b + (c + more.keys) == a + (b + c) + more.keys;
  }

  /** Everything but the undo stack, which holds one snapshot per insertion. */
  ghost predicate SameButUndo(s: State, t: State) {
    s == t.(undo := s.undo)
  }

  lemma TextTwice(s: State, a: string, b: string, host: Host)
    requires Valid(s) && CleanState(s)
    ensures var t := ApplyKey(s, Text(a), host);
      && CleanState(t)
      && SameButUndo(ApplyKey(t, Text(b), host), ApplyKey(s, Text(a + b), host))
  {
    if s.search.None? {
      TextInPieces(s, a, b);
      TextTouchesOnly(s, a);
      TextTouchesOnly(ApplyText(s, a), b);
      TextTouchesOnly(s, a + b);
    } else {
      assert s.search.value.query + a + b == s.search.value.query + (a + b);
      SearchKeepsClean(s, Text(a), host);
    }
  }

  lemma TextTouchesOnly(s: State, text: string)
    requires Valid(s)
    ensures var r := ApplyText(s, text);
      r == s.(lines := r.lines, row := r.row, col := r.col, menu := [], menuAt := 0, undo := r.undo, redo := [])
  {
  }

  /**
   * Applying the pieces of a paste one after another leaves, apart from the number of snapshots,
   * exactly the state that inserting the whole body at once leaves, search open or not.
   */
  lemma {:induction false} PiecesInsertTheBody(s: State, pieces: seq<string>, host: Host)
    requires Valid(s) && CleanState(s)
    ensures SameButUndo(ApplyKeys(s, PieceKeys(pieces), host), ApplyKeys(s, TextKeys(Flatten(pieces)), host))
    decreases |pieces|
  {
    if pieces != [] {
      var body := Flatten(pieces[1..]);
      if pieces[0] == "" {
        assert PieceKeys(pieces) == PieceKeys(pieces[1..]);
        assert Flatten(pieces) == body;
        PiecesInsertTheBody(s, pieces[1..], host);
      } else {
        var t := ApplyKey(s, Text(pieces[0]), host);
        TextTwice(s, pieces[0], body, host);
        PiecesInsertTheBody(t, pieces[1..], host);
        assert PieceKeys(pieces)[1..] == PieceKeys(pieces[1..]);
        assert [Text(Flatten(pieces))][1..] == [];
        assert ApplyKeys(s, TextKeys(Flatten(pieces)), host) == ApplyKey(s, Text(Flatten(pieces)), host);
        if body == "" {
          assert Flatten(pieces) == pieces[0];
          assert ApplyKeys(t, TextKeys(body), host) == t;
        } else {
          assert [Text(body)][1..] == [];
          assert ApplyKeys(t, TextKeys(body), host) == ApplyKey(t, Text(body), host);
        }
      }
    }
  }
}
