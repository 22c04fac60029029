/** Text as lines: splitting at newlines, joining back, and gluing two line lists at a seam. */
module Lines {

  const NL: char := '\n'

  /** `lines.join('\n')`. */
  function Join(lines: seq<string>): (s: string)
    requires lines != []
  {
    if |lines| == 1 then lines[0] else lines[0] + [NL] + Join(lines[1..])
  }

  /** `s.split('\n')`. */
  function Split(s: string): (lines: seq<string>)
    ensures lines != []
    ensures Clean(lines)
  {
    if s == "" then [""] else PushFront(s[0], Split(s[1..]))
  }

  /** One more character in front of a text already split. */
  function PushFront(c: char, lines: seq<string>): (r: seq<string>)
    requires lines != []
    ensures r != []
    ensures Clean(lines) ==> Clean(r)
  {
    if c == NL then [""] + lines else [[c] + lines[0]] + lines[1..]
  }

  ghost predicate Clean(lines: seq<string>) {
    forall k :: 0 <= k < |lines| ==> NL !in lines[k]
  }

  function Last<T>(xs: seq<T>): T
    requires xs != []
  {
    xs[|xs| - 1]
  }

  function Init<T>(xs: seq<T>): seq<T>
    requires xs != []
  {
    xs[..|xs| - 1]
  }

  /** Two line lists laid end to end with no newline at the seam. */
  function Glue(xs: seq<string>, ys: seq<string>): (zs: seq<string>)
    requires xs != [] && ys != []
    ensures |zs| == |xs| + |ys| - 1
  {
    Init(xs) + [Last(xs) + ys[0]] + ys[1..]
  }

  lemma {:induction false} JoinGlue(xs: seq<string>, ys: seq<string>)
    requires xs != [] && ys != []
    ensures Join(Glue(xs, ys)) == Join(xs) + Join(ys)
  {
    if |xs| == 1 {
      assert Glue(xs, ys) == [xs[0] + ys[0]] + ys[1..];
      if |ys| > 1 {
        assert Glue(xs, ys)[1..] == ys[1..];
      }
    } else {
      var g := Glue(xs, ys);
      assert g[0] == xs[0];
      assert g[1..] == Glue(xs[1..], ys);
      JoinGlue(xs[1..], ys);
      assert xs[0] + [NL] + (Join(xs[1..]) + Join(ys)) == xs[0] + [NL] + Join(xs[1..]) + Join(ys);
    }
  }

  lemma GluePushFront(c: char, xs: seq<string>, ys: seq<string>)
    requires xs != [] && ys != []
    ensures Glue(PushFront(c, xs), ys) == PushFront(c, Glue(xs, ys))
  {
    if c == NL {
      assert Glue([""] + xs, ys) == [""] + Glue(xs, ys);
    } else {
      GlueLongerFirst(c, xs, ys);
    }
  }

  lemma GlueLongerFirst(c: char, xs: seq<string>, ys: seq<string>)
    requires xs != [] && ys != []
    ensures Glue([[c] + xs[0]] + xs[1..], ys) == [[c] + Glue(xs, ys)[0]] + Glue(xs, ys)[1..]
  {
    if |xs| == 1 {
      assert [c] + xs[0] + ys[0] == [c] + (xs[0] + ys[0]);
    }
  }

  lemma {:induction false} SplitConcat(a: string, b: string)
    ensures Split(a + b) == Glue(Split(a), Split(b))
  {
    if a == "" {
      assert a + b == b;
      assert "" + Split(b)[0] == Split(b)[0];
    } else {
      assert (a + b)[1..] == a[1..] + b;
      SplitConcat(a[1..], b);
      GluePushFront(a[0], Split(a[1..]), Split(b));
    }
  }

  lemma {:induction false} SplitOfCleanLine(s: string)
    requires NL !in s
    ensures Split(s) == [s]
  {
    if s != "" {
      SplitOfCleanLine(s[1..]);
      assert [s[0]] + s[1..] == s;
    }
  }

  lemma JoinPushFront(c: char, lines: seq<string>)
    requires lines != []
    ensures Join(PushFront(c, lines)) == [c] + Join(lines)
  {
    if c == NL {
      assert ([""] + lines)[1..] == lines;
    } else {
      assert ([[c] + lines[0]] + lines[1..])[1..] == lines[1..];
    }
  }

  lemma {:induction false} JoinSplit(s: string)
    ensures Join(Split(s)) == s
  {
    if s != "" {
      JoinSplit(s[1..]);
      JoinPushFront(s[0], Split(s[1..]));
    }
  }

  lemma {:induction false} SplitJoin(lines: seq<string>)
    requires lines != [] && Clean(lines)
    ensures Split(Join(lines)) == lines
  {
    SplitOfCleanLine(lines[0]);
    if |lines| > 1 {
      SplitJoin(lines[1..]);
      var tail := Join(lines[1..]);
      SplitConcat(lines[0], [NL] + tail);
      assert lines[0] + [NL] + tail == lines[0] + ([NL] + tail);
      assert ([NL] + tail)[1..] == tail;
      assert lines[0] + "" == lines[0];
      assert ([""] + lines[1..])[1..] == lines[1..];
    }
  }

  // ---------------------------------------------------------------- control characters

  /** The characters that take no column because a terminal acts on them (`charWidth` in src/cli/render.ts). */
  predicate IsControl(c: char) {
    c < '\U{20}' || '\U{7F}' <= c < '\U{A0}'
  }

  /** A text no terminal acts on. */
  predicate Quiet(text: string) {
    forall k :: 0 <= k < |text| ==> !IsControl(text[k])
  }

  predicate AllQuiet(texts: seq<string>) {
    forall k :: 0 <= k < |texts| ==> Quiet(texts[k])
  }

  /** Lines of such text. */
  predicate Tame(text: string) {
    forall k :: 0 <= k < |text| ==> !IsControl(text[k]) || text[k] == NL
  }

  predicate AllTame(texts: seq<string>) {
    forall k :: 0 <= k < |texts| ==> Tame(texts[k])
  }
}
