/**
 * What a terminal sends for a key, and that it decodes to that key (`parseInput`, `CONTROL_KEYS` and
 * `csiKey` in src/cli/editor.ts).
 *
 * Cursor and editing keys send control sequences (section 5.4 of ECMA-48), keys held with Control send
 * the control characters, and a user may bind a control character to any key.
 */
module KeyBytes {
  import opened Strings
  import opened Lines
  import opened EditorState
  import opened FlatBuffer
  import opened KeyDecoder

  // ---------------------------------------------------------------- what a terminal sends

  /** The character of a letter typed with Control held. */
  function Ctrl(letter: char): char
    requires 'a' <= letter <= 'z'
  {
    (letter as int - 'a' as int + 1) as char
  }

  /** The control sequences of a key, after the introducer. */
  predicate SequenceOf(key: Key, sequence: string) {
    match key
    case Up => sequence == "A"
    case Down => sequence == "B"
    case Right => sequence == "C"
    case Left => sequence == "D"
    case Home => sequence == "H" || sequence == "1~"
    case End => sequence == "F" || sequence == "4~"
    case Delete => sequence == "3~"
    case WordRight => sequence == "1;5C"
    case WordLeft => sequence == "1;5D"
    case Newline => sequence == "13;2u"
    case CycleMode => sequence == "Z"
    case _ => false
  }

  /** The letter that is typed with Control for a key, where no binding says otherwise. */
  function LetterOf(key: Key): Option<char> {
    match key
    case Home => Some('a')
    case Cancel => Some('c')
    case Eof => Some('d')
    case End => Some('e')
    case Tab => Some('i')
    case KillToEnd => Some('k')
    case Clear => Some('l')
    case Search => Some('r')
    case KillToStart => Some('u')
    case KillWord => Some('w')
    case Yank => Some('y')
    case Undo => Some('z')
    case _ => None
  }

  /** The bytes whose key no binding can change. */
  predicate IsFixed(c: char) {
    c == ESC || c == '\r' || c == '\n' || c == '\U{7F}' || c == '\U{08}'
  }

  /** The single characters of a key, under a user's bindings. */
  predicate ByteOf(key: Key, c: char, bound: map<char, Key>) {
    if IsFixed(c) then
      key == (if c == ESC then Escape else if c == '\r' || c == '\n' then Enter else Backspace)
    else if c in bound then key == bound[c]
    else LetterOf(key).Some? && c == Ctrl(LetterOf(key).value)
  }

  /** A character that is text: no control character, nor Delete. */
  predicate Prints(c: char) {
    c >= ' ' && c != '\U{7F}'
  }

  predicate IsPrintable(text: string) {
    text != "" && forall k :: 0 <= k < |text| ==> Prints(text[k])
  }

  /** A key, and the bytes a terminal sends for it. */
  datatype Stroke = Stroke(key: Key, bytes: string)

  predicate Sends(t: Stroke, bound: map<char, Key>) {
    || (IsPrintable(t.bytes) && t.key == Text(t.bytes))
    || (|t.bytes| == 1 && ByteOf(t.key, t.bytes[0], bound))
    || (CSI <= t.bytes && SequenceOf(t.key, t.bytes[|CSI|..]))
  }

  function BytesOf(strokes: seq<Stroke>): string {
    if strokes == [] then "" else strokes[0].bytes + BytesOf(strokes[1..])
  }

  function KeysOf(strokes: seq<Stroke>): (keys: seq<Key>)
    ensures |keys| == |strokes|
  {
    if strokes == [] then [] else [strokes[0].key] + KeysOf(strokes[1..])
  }

  /** Only control characters are bound. */
  predicate BindsControlsOnly(bound: map<char, Key>) {
    forall c | c in bound :: !Prints(c)
  }

  /** What comes next does not run together with these bytes: text with text, Escape with a bracket. */
  predicate Apart(bytes: string, more: string) {
    bytes != "" && more != "" ==>
      && !(Prints(bytes[0]) && Prints(more[0]))
      && !(bytes == [ESC] && more[0] == '[')
  }

  predicate AllApart(strokes: seq<Stroke>) {
    strokes == [] || (Apart(strokes[0].bytes, BytesOf(strokes[1..])) && AllApart(strokes[1..]))
  }

  predicate AllSent(strokes: seq<Stroke>, bound: map<char, Key>) {
    forall k :: 0 <= k < |strokes| ==> Sends(strokes[k], bound)
  }

  // ---------------------------------------------------------------- the tables are those of the terminal

  lemma SequencesAreTheTable(sequence: string, key: Key)
    ensures sequence in CSI_KEYS && CSI_KEYS[sequence] == key <==> SequenceOf(key, sequence)
  {
  }

  lemma LettersAreTheTable(c: char, key: Key)
    requires c != NL
    ensures c in CONTROL_KEYS && CONTROL_KEYS[c] == key <==> LetterOf(key).Some? && c == Ctrl(LetterOf(key).value)
  {
  }

  /** A character below the printable ones decodes to the key it was typed for, and to nothing if there is none. */
  lemma ByteDecodes(c: char, more: string, bound: map<char, Key>, key: Key)
    requires !Prints(c) && !(c == ESC && more != "" && more[0] == '[')
    ensures var step := NextStep([c] + more, DefaultKeymap(bound));
      && !step.open && step.taken == 1
      && (step.keys == [key] <==> ByteOf(key, c, bound))
      && (step.keys == [] || |step.keys| == 1)
  {
    var rest := [c] + more;
    NoSequence(c, more);
    assert rest[0] == c && !(PASTE_START <= rest) by {
      assert PASTE_START <= rest ==> CSI <= rest;
    }
    if !IsFixed(c) {
      assert NextStep(rest, DefaultKeymap(bound)) == Step(OneKey(ControlKey(c, DefaultKeymap(bound))), 1, false);
      KeyOrNothing(ControlKey(c, DefaultKeymap(bound)), key);
      FreeByte(c, bound, key);
    }
  }

  lemma FreeByte(c: char, bound: map<char, Key>, key: Key)
    requires !IsFixed(c)
    ensures ControlKey(c, DefaultKeymap(bound)) == Some(key) <==> ByteOf(key, c, bound)
  {
    LettersAreTheTable(c, key);
    BoundOrTable(c, bound);
  }

  lemma NoSequence(c: char, more: string)
    requires !(c == ESC && more != "" && more[0] == '[')
    ensures !(CSI <= [c] + more)
  {
    var rest := [c] + more;
    if |rest| >= 2 {
      assert rest[1] == more[0];
      assert rest[..2] != CSI by { assert rest[..2][0] == c && rest[..2][1] == more[0]; }
    }
  }

  lemma BoundOrTable(c: char, bound: map<char, Key>)
    ensures ControlKey(c, DefaultKeymap(bound))
      == if c in bound then Some(bound[c]) else if c in CONTROL_KEYS then Some(CONTROL_KEYS[c]) else None
  {
  }

  /** A parameter byte (section 5.4 of ECMA-48). */
  predicate IsParameter(c: char) {
    '0' <= c <= '?'
  }

  /** A control sequence as terminals send it: parameters, then a final character that is none. */
  predicate IsSequence(sequence: string) {
    && sequence != ""
    && (forall k :: 0 <= k < |sequence| - 1 ==> IsParameter(sequence[k]))
    && !IsParameter(sequence[|sequence| - 1])
  }

  lemma KnownIsSequence(key: Key, sequence: string)
    requires SequenceOf(key, sequence)
    ensures IsSequence(sequence) && sequence[0] != '2'
  {
  }

  /** The opening marker of a paste is a sequence too. */
  lemma PasteIsASequence(rest: string)
    requires PASTE_START <= rest
    ensures ForwardWhile(rest, |CSI|, CsiParameters) == 5 && rest[2..6] == "200~"
  {
    assert rest[..6] == PASTE_START;
    assert rest[2] == '2' && rest[3] == '0' && rest[4] == '0' && rest[5] == '~';
    RunIs(rest, |CSI|, CsiParameters, 5);
  }

  /** A whole control sequence decodes to its key, and to nothing if it has none. */
  lemma SequenceDecodes(sequence: string, more: string, bound: map<char, Key>, key: Key)
    requires IsSequence(sequence) && sequence != "200~"
    ensures var step := NextStep(CSI + sequence + more, DefaultKeymap(bound));
      && !step.open && step.taken == |CSI| + |sequence|
      && (step.keys == [key] <==> SequenceOf(key, sequence))
      && (step.keys == [] || |step.keys| == 1)
  {
    var rest, n := CSI + sequence + more, |CSI| + |sequence|;
    assert forall k :: |CSI| <= k < n ==> rest[k] == sequence[k - |CSI|];
    RunIs(rest, |CSI|, CsiParameters, n - 1);
    assert rest[|CSI|..n] == sequence;
    if PASTE_START <= rest {
      PasteIsASequence(rest);
    }
    assert CSI <= rest;
    SequencesAreTheTable(sequence, key);
    KeyOrNothing(CsiKey(sequence, DefaultKeymap(bound)), key);
  }

  lemma KeyOrNothing(found: Option<Key>, key: Key)
    ensures OneKey(found) == [key] <==> found == Some(key)
  {
  }

  /** A run of printable characters decodes to their text. */
  lemma TextDecodes(text: string, more: string, bound: map<char, Key>)
    requires IsPrintable(text) && BindsControlsOnly(bound) && (more == "" || !Prints(more[0]))
    ensures NextStep(text + more, DefaultKeymap(bound)) == Step([Text(text)], |text|, false)
  {
    var rest := text + more;
    assert rest[0] == text[0] && Prints(text[0]);
    assert more != "" ==> rest[|text|] == more[0];
    RunIs(rest, 0, Printables, |text|);
    assert rest[..|text|] == text;
    BoundOrTable(text[0], bound);
    NoLetterPrints(text[0]);
  }

  lemma NoLetterPrints(c: char)
    requires Prints(c)
    ensures c !in CONTROL_KEYS && !IsFixed(c)
  {
  }

  // ---------------------------------------------------------------- strokes decode to their keys

  lemma StrokeDecodes(t: Stroke, more: string, bound: map<char, Key>)
    requires Sends(t, bound) && Apart(t.bytes, more) && BindsControlsOnly(bound)
    ensures t.bytes != "" && NextStep(t.bytes + more, DefaultKeymap(bound)) == Step([t.key], |t.bytes|, false)
  {
    if IsPrintable(t.bytes) && t.key == Text(t.bytes) {
      TextDecodes(t.bytes, more, bound);
    } else if CSI <= t.bytes && SequenceOf(t.key, t.bytes[|CSI|..]) {
      var sequence := t.bytes[|CSI|..];
      KnownIsSequence(t.key, sequence);
      assert t.bytes + more == CSI + sequence + more;
      SequenceDecodes(sequence, more, bound, t.key);
    } else {
      ByteStrokeDecodes(t, more, bound);
    }
  }

  lemma ByteStrokeDecodes(t: Stroke, more: string, bound: map<char, Key>)
    requires |t.bytes| == 1 && ByteOf(t.key, t.bytes[0], bound) && Apart(t.bytes, more) && BindsControlsOnly(bound)
    ensures NextStep(t.bytes + more, DefaultKeymap(bound)) == Step([t.key], 1, false)
  {
    var c := t.bytes[0];
    assert t.bytes == [c];
    BytesDoNotPrint(t.key, c, bound);
    ByteDecodes(c, more, bound, t.key);
  }

  lemma BytesDoNotPrint(key: Key, c: char, bound: map<char, Key>)
    requires ByteOf(key, c, bound) && BindsControlsOnly(bound)
    ensures !Prints(c)
  {
  }

  /**
   * Main result: whatever keys are pressed, in any order, and by whichever of their sequences, the bytes
   * decode to exactly those keys; unless text follows text, which becomes one, or a bracket follows
   * Escape, which begins a sequence.
   */
  lemma {:induction false} StrokesDecode(strokes: seq<Stroke>, bound: map<char, Key>)
    requires AllSent(strokes, bound) && AllApart(strokes) && BindsControlsOnly(bound)
    ensures Parse(BytesOf(strokes), DefaultKeymap(bound)) == Parsed(KeysOf(strokes), false)
    decreases |strokes|
  {
    if strokes != [] {
      var t, more, next := strokes[0], BytesOf(strokes[1..]), DecoderOf(DefaultKeymap(bound));
      assert Sends(t, bound);
      assert forall k :: 0 <= k < |strokes| - 1 ==> strokes[1..][k] == strokes[k + 1];
      StrokesDecode(strokes[1..], bound);
      StrokeDecodes(t, more, bound);
      assert Drop(t.bytes + more, |t.bytes|) == more;
      OneStep(t.bytes + more, next, more);
    }
  }

  /** A user's binding wins over the table, for every character but the fixed ones. */
  lemma BindingWins(c: char, more: string, bound: map<char, Key>)
    requires c in bound && !Prints(c) && !(c == ESC && more != "" && more[0] == '[')
    ensures NextStep([c] + more, DefaultKeymap(bound)).keys == [bound[c]]
      <==> !IsFixed(c) || ByteOf(bound[c], c, bound)
  {
    ByteDecodes(c, more, bound, bound[c]);
  }

  // ---------------------------------------------------------------- what the bytes do to the buffer

  /** Each stroke of an editing or motion key is its operation on the text around the cursor. */
  lemma StrokeMovesFlat(s: State, t: Stroke, bound: map<char, Key>, host: Host)
    requires Valid(s) && Clean(s.lines) && s.search.None?
    requires Sends(t, bound) && IsFlatKey(t.key) && BindsControlsOnly(bound)
    ensures var keys := Parse(t.bytes, DefaultKeymap(bound)).keys;
      FlatOf(ApplyKeys(s, keys, host)) == FlatStep(FlatOf(s), t.key, s.killRing)
  {
    OneStroke(t, bound);
    KeyRefinesFlat(s, t.key, host);
    OneKeyApplies(s, [t.key], host);
  }

  lemma OneStroke(t: Stroke, bound: map<char, Key>)
    requires Sends(t, bound) && BindsControlsOnly(bound)
    ensures Parse(t.bytes, DefaultKeymap(bound)).keys == [t.key]
  {
    var strokes := [t];
    assert strokes[1..] == [] && t.bytes + "" == t.bytes;
    assert KeysOf(strokes) == [t.key] + KeysOf(strokes[1..]) == [t.key];
    StrokesDecode(strokes, bound);
  }

  lemma OneKeyApplies(s: State, keys: seq<Key>, host: Host)
    requires Valid(s) && |keys| == 1
    ensures ApplyKeys(s, keys, host) == ApplyKey(s, keys[0], host)
  {
    assert keys[1..] == [];
  }

  /** What a control sequence does to the state. */
  function Pressed(s: State, sequence: string, bound: map<char, Key>, host: Host): State
    requires Valid(s)
  {
    ApplyKeys(s, Parse(CSI + sequence, DefaultKeymap(bound)).keys, host)
  }

  lemma SequenceMovesFlat(s: State, key: Key, sequence: string, bound: map<char, Key>, host: Host)
    requires Valid(s) && Clean(s.lines) && s.search.None? && BindsControlsOnly(bound)
    requires SequenceOf(key, sequence) && IsFlatKey(key)
    ensures FlatOf(Pressed(s, sequence, bound, host)) == FlatStep(FlatOf(s), key, s.killRing)
  {
    var t := Stroke(key, CSI + sequence);
    assert t.bytes[|CSI|..] == sequence;
    StrokeMovesFlat(s, t, bound, host);
  }

  /** The Left arrow goes back one character, and the Right arrow on by one. */
  lemma ArrowsMove(s: State, bound: map<char, Key>, host: Host)
    requires Valid(s) && Clean(s.lines) && s.search.None? && BindsControlsOnly(bound)
    ensures var f := FlatOf(s);
      && (f.before != "" ==> FlatOf(Pressed(s, "D", bound, host)) == MoveBack(f, 1))
      && (f.after != "" ==> FlatOf(Pressed(s, "C", bound, host)) == MoveOn(f, 1))
  {
    SequenceMovesFlat(s, Left, "D", bound, host);
    SequenceMovesFlat(s, Right, "C", bound, host);
  }

  /** The Delete key takes the character behind the cursor. */
  lemma DeleteCuts(s: State, bound: map<char, Key>, host: Host)
    requires Valid(s) && Clean(s.lines) && s.search.None? && BindsControlsOnly(bound)
    ensures FlatOf(s).after != "" ==> FlatOf(Pressed(s, "3~", bound, host)) == CutOn(FlatOf(s), 1)
  {
    SequenceMovesFlat(s, Delete, "3~", bound, host);
  }
}
