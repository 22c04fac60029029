/**
 * What a session remembers (`Editor.read` in src/cli/editor.ts): the lines submitted, in order, which the
 * next read walks back through from the latest.
 */
module ReadHistory {
  import opened Strings
  import opened Lines
  import opened EditorState
  import opened EditorRuns
  import opened KeyDecoder
  import opened Viewport
  import opened EditorSession

  // ---------------------------------------------------------------- what the reads leave

  /** The lines worth remembering among the ways that reads ended: those that are more than white space. */
  function Submitted(outcomes: seq<Outcome>): seq<string> {
    if outcomes == [] then []
    else
      (if outcomes[0].Line? && Trim(outcomes[0].text) != "" then [outcomes[0].text] else [])
      + Submitted(outcomes[1..])
  }

  lemma {:induction false} BlankIsTrimmed(text: string)
    ensures Trim(text) == "" <==> IsBlank(text)
    decreases |text|
  {
    if text != "" {
      if IsSpace(text[0]) {
        BlankIsTrimmed(text[1..]);
        assert text == [text[0]] + text[1..];
        assert forall k :: 0 <= k < |text| - 1 ==> text[1..][k] == text[k + 1];
      } else {
        InkIsLeft(text);
      }
    }
  }

  lemma {:induction false} InkIsLeft(text: string)
    requires text != "" && !IsSpace(text[0])
    ensures Trim(text) != ""
    decreases |text|
  {
    if IsSpace(text[|text| - 1]) {
      InkIsLeft(text[..|text| - 1]);
    }
  }

  /** How a read ends, if it does. */
  type Ender = (Rest, seq<string>) -> Option<Outcome>

  /** How each of some reads ended. */
  ghost function Outcomes(r: Rest, inputs: seq<seq<string>>, read: Reader, ends: Ender): seq<Outcome>
    decreases |inputs|
  {
    if inputs == [] then []
    else
      (if ends(r, inputs[0]).Some? then [ends(r, inputs[0]).value] else [])
      + Outcomes(read(r, inputs[0]), inputs[1..], read, ends)
  }

  ghost function EnderOf(keymap: Keymap, opts: Options, host: Host): Ender {
    (r: Rest, chunks: seq<string>) =>
      if AtRest(r, opts) then ReadTo(r.history, r.screen, chunks, keymap, opts, host).last.state.done else None
  }

  ghost predicate EachReadAdds(read: Reader, ends: Ender) {
    forall r, chunks :: read(r, chunks).history
      == r.history + Submitted(if ends(r, chunks).Some? then [ends(r, chunks).value] else [])
  }

  lemma {:induction false} SubmittedConcat(a: seq<Outcome>, b: seq<Outcome>)
    ensures Submitted(a + b) == Submitted(a) + Submitted(b)
  {
    if a == [] {
      assert a + b == b;
    } else {
      assert (a + b)[1..] == a[1..] + b;
      SubmittedConcat(a[1..], b);
    }
  }

  lemma {:induction false} ReadsAdd(r: Rest, inputs: seq<seq<string>>, read: Reader, ends: Ender)
    requires EachReadAdds(read, ends)
    ensures ReadsWith(r, inputs, read).history == r.history + Submitted(Outcomes(r, inputs, read, ends))
    decreases |inputs|
  {
    if inputs == [] {
      assert r.history + [] == r.history;
    } else {
      var first := if ends(r, inputs[0]).Some? then [ends(r, inputs[0]).value] else [];
      var next := read(r, inputs[0]);
      ReadsAdd(next, inputs[1..], read, ends);
      SubmittedConcat(first, Outcomes(next, inputs[1..], read, ends));
      Regroup(r.history, Submitted(first), Submitted(Outcomes(next, inputs[1..], read, ends)));
    }
  }

  lemma ReadAdds(history: seq<string>, s: State)
    ensures After(history, s) == history + Submitted(if s.done.Some? then [s.done.value] else [])
  {
    if s.done.Some? {
      assert [s.done.value][1..] == [];
      if s.done.value.Line? {
        BlankIsTrimmed(s.done.value.text);
      }
    }
  }

  lemma EveryReadAdds(keymap: Keymap, opts: Options, host: Host)
    ensures EachReadAdds(ReaderOf(keymap, opts, host), EnderOf(keymap, opts, host))
  {
    var read, ends := ReaderOf(keymap, opts, host), EnderOf(keymap, opts, host);
    forall r, chunks
      ensures read(r, chunks).history
        == r.history + Submitted(if ends(r, chunks).Some? then [ends(r, chunks).value] else [])
    {
      if AtRest(r, opts) {
        ReadAdds(r.history, ReadTo(r.history, r.screen, chunks, keymap, opts, host).last.state);
      }
    }
  }

  /**
   * Main result: after any reads, history is what it was and then the lines that were submitted, in
   * order, without blank ones; a read that was abandoned, or ended by the end of input, adds nothing.
   */
  lemma HistoryIsWhatWasSubmitted(r: Rest, inputs: seq<seq<string>>, keymap: Keymap, opts: Options, host: Host)
    ensures var read, ends := ReaderOf(keymap, opts, host), EnderOf(keymap, opts, host);
      ReadsWith(r, inputs, read).history == r.history + Submitted(Outcomes(r, inputs, read, ends))
  {
    EveryReadAdds(keymap, opts, host);
    ReadsAdd(r, inputs, ReaderOf(keymap, opts, host), EnderOf(keymap, opts, host));
  }

  // ---------------------------------------------------------------- walking back

  /** One more Up after some. */
  lemma LastOfTimes(s: State, n: nat, host: Host)
    requires Valid(s) && n > 0
    ensures ApplyKeys(s, Times(Up, n), host) == ApplyKey(ApplyKeys(s, Times(Up, n - 1), host), Up, host)
  {
    assert Times(Up, n) == Times(Up, n - 1) + [Up];
    ApplyKeysConcat(s, Times(Up, n - 1), [Up], host);
    assert [Up][1..] == [];
  }

  /** In history at `at`, with its entry on screen. */
  ghost predicate Walked(s: State, history: seq<string>, at: nat) {
    && Valid(s) && s.search.None? && s.menu == [] && s.history == history && s.historyAt == at
    && (if at < |history| then s.lines == Split(history[at]) else s.lines == [""])
    && s.row == |s.lines| - 1
  }

  lemma UpWalks(s: State, history: seq<string>, at: nat, host: Host)
    requires Walked(s, history, at) && 0 < at <= |history| && |s.lines| == 1
    ensures Walked(ApplyKey(s, Up, host), history, at - 1)
  {
  }

  /** From a fresh prompt, `k` Ups show the `k`th latest entry, when the later ones are one line each. */
  lemma {:induction false} UpsShow(history: seq<string>, k: nat, host: Host)
    requires k <= |history|
    requires forall j :: |history| - k < j < |history| ==> NL !in history[j]
    ensures Walked(ApplyKeys(NewState(history), Times(Up, k), host), history, |history| - k)
    decreases k
  {
    if k > 0 {
      var s := ApplyKeys(NewState(history), Times(Up, k - 1), host);
      UpsShow(history, k - 1, host);
      if k > 1 {
        SplitOfCleanLine(history[|history| - (k - 1)]);
      }
      UpWalks(s, history, |history| - (k - 1), host);
      LastOfTimes(NewState(history), k, host);
    }
  }

  /**
   * So the first Up of the next read shows the line submitted last, and `k` Ups the `k`th latest while
   * those passed over are one line each.
   */
  lemma UpsShowWhatWasSubmitted(r: Rest, inputs: seq<seq<string>>, k: nat, keymap: Keymap, opts: Options, host: Host)
    requires var lines := Submitted(Outcomes(r, inputs, ReaderOf(keymap, opts, host), EnderOf(keymap, opts, host)));
      0 < k <= |lines| && forall j :: |lines| - k < j < |lines| ==> NL !in lines[j]
    ensures var read, ends := ReaderOf(keymap, opts, host), EnderOf(keymap, opts, host);
      var lines, s := Submitted(Outcomes(r, inputs, read, ends)), NewState(ReadsWith(r, inputs, read).history);
      TextOf(ApplyKeys(s, Times(Up, k), host)) == lines[|lines| - k]
  {
    var read, ends := ReaderOf(keymap, opts, host), EnderOf(keymap, opts, host);
    var lines := Submitted(Outcomes(r, inputs, read, ends));
    HistoryIsWhatWasSubmitted(r, inputs, keymap, opts, host);
    UpsOverTheLatest(r.history, lines, k, host);
  }

  lemma UpsOverTheLatest(older: seq<string>, lines: seq<string>, k: nat, host: Host)
    requires 0 < k <= |lines| && forall j :: |lines| - k < j < |lines| ==> NL !in lines[j]
    ensures TextOf(ApplyKeys(NewState(older + lines), Times(Up, k), host)) == lines[|lines| - k]
  {
    var history := older + lines;
    assert forall j :: |history| - k < j < |history| ==> history[j] == lines[j - |older|];
    UpsShow(history, k, host);
    JoinSplit(history[|history| - k]);
  }
}
