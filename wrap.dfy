/** `wrap_lines` from flight.py: greedy word wrap of a text into lines no wider
    than `maxW` under a font's width function, then truncation to `maxLines`
    lines with an ellipsis. The font measure (`ImageDraw.textlength`) is an
    arbitrary function from strings to widths. */
module Wrap {
  import opened Base
  import opened Text

  const Ellipsis: string := "\U{2026}"

  /** A line is acceptable when it fits or is a single word (a word wider than
      the limit still gets a line of its own). */
  predicate LineOk(measure: string -> real, maxW: real, line: string) {
    IsWord(line) || measure(line) <= maxW
  }

  ghost predicate AllLinesOk(measure: string -> real, maxW: real, lines: seq<string>) {
    forall k :: 0 <= k < |lines| ==> LineOk(measure, maxW, lines[k])
  }

  /** The greedy loop from the state where `cur` is the open line and `rest` the
      words still to place: a word joins the open line when the joined line fits,
      and otherwise closes it and opens the next one. */
  function Fill(measure: string -> real, maxW: real, cur: string, rest: seq<string>): (lines: seq<string>)
    ensures 1 <= |lines| <= 1 + |rest|
    decreases |rest|
  {
    if rest == [] then [cur]
    else if measure(cur + " " + rest[0]) <= maxW then Fill(measure, maxW, cur + " " + rest[0], rest[1..])
    else [cur] + Fill(measure, maxW, rest[0], rest[1..])
  }

  /** The lines of the greedy loop: none for no words, never more lines than words. */
  function GreedyLines(measure: string -> real, maxW: real, words: seq<string>): (lines: seq<string>)
    ensures lines == [] <==> words == []
    ensures |lines| <= |words|
  {
    if words == [] then [] else Fill(measure, maxW, words[0], words[1..])
  }

  /** No prefix of `s` longer than `k` characters fits once the ellipsis is added. */
  ghost predicate NoLongerPrefixFits(measure: string -> real, maxW: real, s: string, k: nat) {
    forall n :: k < n <= |s| ==> measure(s[..n] + Ellipsis) > maxW
  }

  /** The truncation loop: drop the last character while the line plus the
      ellipsis does not fit and something is left. */
  function Shorten(measure: string -> real, maxW: real, s: string): (r: string)
    ensures |r| <= |s| && r == s[..|r|]
    ensures r == "" || measure(r + Ellipsis) <= maxW
    ensures NoLongerPrefixFits(measure, maxW, s, |r|)
    decreases |s|
  {
    if measure(s + Ellipsis) > maxW && s != "" then
      var p := s[..|s| - 1];
      var r := Shorten(measure, maxW, p);
      assert forall n :: |r| < n <= |p| ==> p[..n] == s[..n];
      assert NoLongerPrefixFits(measure, maxW, p, |r|);
      assert s[..|s|] == s;
      r
    else
      s
  }

  function Ellipsize(s: string): string {
    if s != "" then s + Ellipsis else Ellipsis
  }

  /** What `wrap_lines(d, text, font, maxW, maxLines)` returns: never more than
      `maxLines` lines, and none exactly when the text is missing or blank. */
  function Wrapped(measure: string -> real, text: Option<string>, maxW: real, maxLines: int): (r: seq<string>)
    requires maxLines >= 1
    ensures |r| <= maxLines
    ensures r == [] <==> AllSpace(text.GetOr(""))
  {
    var lines := GreedyLines(measure, maxW, SplitWords(text.GetOr("")));
    if |lines| > maxLines then Truncated(measure, maxW, lines, maxLines) else lines
  }

  /** The first `maxLines - 1` lines and the shortened, ellipsized next one:
      `maxLines` lines in all, the last a prefix of the line it replaces followed
      by the ellipsis, fitting unless nothing of it is left, no longer prefix
      fitting. */
  function Truncated(measure: string -> real, maxW: real, lines: seq<string>, maxLines: int): (r: seq<string>)
    requires 1 <= maxLines < |lines|
    ensures |r| == maxLines
    ensures r[..maxLines - 1] == lines[..maxLines - 1]
    ensures TruncatedFrom(measure, maxW, lines[maxLines - 1], r[maxLines - 1])
  {
    var p := Shorten(measure, maxW, lines[maxLines - 1]);
    var last := Ellipsize(p);
    assert last[..|last| - 1] == p;
    lines[..maxLines - 1] + [last]
  }

  /** `wrap_lines`. */
  method WrapLines(measure: string -> real, text: Option<string>, maxW: real, maxLines: int) returns (lines: seq<string>)
    requires maxLines >= 1
    ensures lines == Wrapped(measure, text, maxW, maxLines)
  {
    var words := SplitWords(text.GetOr(""));
    if words == [] {
      return [];
    }
    lines := FillLines(measure, maxW, words);
    if |lines| > maxLines {
      lines := TruncateLines(measure, maxW, lines, maxLines);
    }
  }

  /** The for-loop of `wrap_lines`. */
  method FillLines(measure: string -> real, maxW: real, words: seq<string>) returns (lines: seq<string>)
    requires words != []
    ensures lines == GreedyLines(measure, maxW, words)
  {
    lines := [];
    var cur := words[0];
    var i := 1;
    while i < |words|
      invariant 1 <= i <= |words|
      invariant lines + Fill(measure, maxW, cur, words[i..]) == GreedyLines(measure, maxW, words)
    {
      var t := cur + " " + words[i];
      FillStep(measure, maxW, cur, words, i);
      if measure(t) <= maxW {
        cur := t;
      } else {
        lines := lines + [cur];
        cur := words[i];
      }
      i := i + 1;
    }
    lines := lines + [cur];
  }

  /** The truncation branch of `wrap_lines`: keep `maxLines` lines and shorten
      the last one until it fits with the ellipsis. */
  method TruncateLines(measure: string -> real, maxW: real, lines: seq<string>, maxLines: int) returns (keep: seq<string>)
    requires 1 <= maxLines < |lines|
    ensures keep == Truncated(measure, maxW, lines, maxLines)
  {
    keep := lines[..maxLines];
    var last := keep[maxLines - 1];
    while measure(last + Ellipsis) > maxW && last != ""
      invariant Shorten(measure, maxW, last) == Shorten(measure, maxW, lines[maxLines - 1])
      decreases |last|
    {
      last := last[..|last| - 1];
    }
    keep := keep[maxLines - 1 := if last != "" then last + Ellipsis else Ellipsis];
  }

  /** One turn of the greedy loop, seen through `Fill`. */
  lemma FillStep(measure: string -> real, maxW: real, cur: string, words: seq<string>, i: nat)
    requires i < |words|
    ensures Fill(measure, maxW, cur, words[i..])
         == if measure(cur + " " + words[i]) <= maxW then Fill(measure, maxW, cur + " " + words[i], words[i + 1..])
            else [cur] + Fill(measure, maxW, words[i], words[i + 1..])
  {
    assert words[i..][1..] == words[i + 1..];
  }

  // ---------------------------------------------------------------------------
  // Properties of the result

  /** Joining the lines with single spaces gives back the words joined with
      single spaces: the loop only chooses where the line breaks go. */
  lemma {:induction false} FillJoin(measure: string -> real, maxW: real, cur: string, rest: seq<string>)
    ensures JoinSpace(Fill(measure, maxW, cur, rest)) == JoinSpace([cur] + rest)
    decreases |rest|
  {
    if rest != [] {
      var w, tail := rest[0], rest[1..];
      assert [cur] + rest == [cur] + ([w] + tail);
      if measure(cur + " " + w) <= maxW {
        FillJoin(measure, maxW, cur + " " + w, tail);
        if tail == [] {
          JoinSpaceAppend([cur], [w]);
        } else {
          JoinSpaceAppend([cur + " " + w], tail);
          JoinSpaceAppend([cur], [w] + tail);
          JoinSpaceAppend([w], tail);
        }
      } else {
        var f := Fill(measure, maxW, w, tail);
        FillJoin(measure, maxW, w, tail);
        JoinSpaceAppend([cur], f);
        JoinSpaceAppend([cur], [w] + tail);
      }
    }
  }

  lemma GreedyJoin(measure: string -> real, maxW: real, words: seq<string>)
    ensures JoinSpace(GreedyLines(measure, maxW, words)) == JoinSpace(words)
  {
    if words != [] {
      FillJoin(measure, maxW, words[0], words[1..]);
      assert [words[0]] + words[1..] == words;
    }
  }

  /** Every line the greedy loop closes either fits or is one word. */
  lemma {:induction false} FillLinesOk(measure: string -> real, maxW: real, cur: string, rest: seq<string>)
    requires LineOk(measure, maxW, cur) && AllWords(rest)
    ensures AllLinesOk(measure, maxW, Fill(measure, maxW, cur, rest))
    decreases |rest|
  {
    if rest != [] {
      var w, tail := rest[0], rest[1..];
      assert IsWord(w);
      assert AllWords(tail) by {
        assert forall k :: 0 <= k < |tail| ==> tail[k] == rest[k + 1];
      }
      if measure(cur + " " + w) <= maxW {
        FillLinesOk(measure, maxW, cur + " " + w, tail);
      } else {
        var f := Fill(measure, maxW, w, tail);
        FillLinesOk(measure, maxW, w, tail);
        assert forall k :: 1 <= k < 1 + |f| ==> ([cur] + f)[k] == f[k - 1];
      }
    }
  }

  lemma GreedyLinesOk(measure: string -> real, maxW: real, words: seq<string>)
    requires AllWords(words)
    ensures AllLinesOk(measure, maxW, GreedyLines(measure, maxW, words))
  {
    if words != [] {
      assert IsWord(words[0]);
      assert AllWords(words[1..]) by {
        assert forall k :: 0 <= k < |words| - 1 ==> words[1..][k] == words[k + 1];
      }
      FillLinesOk(measure, maxW, words[0], words[1..]);
    }
  }

  /** Without truncation: the lines joined by single spaces are the text's words
      joined by single spaces, and a line wider than `maxW` is a single word. */
  lemma WrappedUntruncated(measure: string -> real, text: Option<string>, maxW: real, maxLines: int)
    requires maxLines >= 1
    requires |GreedyLines(measure, maxW, SplitWords(text.GetOr("")))| <= maxLines
    ensures var r := Wrapped(measure, text, maxW, maxLines);
      && JoinSpace(r) == JoinSpace(SplitWords(text.GetOr("")))
      && AllLinesOk(measure, maxW, r)
  {
    var words := SplitWords(text.GetOr(""));
    GreedyJoin(measure, maxW, words);
    GreedyLinesOk(measure, maxW, words);
  }

  /** The line that replaces `line`: a prefix of it followed by the ellipsis,
      fitting unless nothing of the line is left, and no longer prefix fits. */
  ghost predicate TruncatedFrom(measure: string -> real, maxW: real, line: string, last: string) {
    && |last| >= 1 && last[|last| - 1] == '\U{2026}'
    && var kept := last[..|last| - 1];
    && |kept| <= |line| && kept == line[..|kept|]
    && (last == Ellipsis || measure(last) <= maxW)
    && NoLongerPrefixFits(measure, maxW, line, |kept|)
  }

  /** With truncation: exactly `maxLines` lines, the first `maxLines - 1` as the
      greedy loop produced them, and the last one a prefix of the line it
      replaces followed by the ellipsis. */
  lemma WrappedTruncated(measure: string -> real, text: Option<string>, maxW: real, maxLines: int)
    requires maxLines >= 1
    requires |GreedyLines(measure, maxW, SplitWords(text.GetOr("")))| > maxLines
    ensures var lines := GreedyLines(measure, maxW, SplitWords(text.GetOr("")));
      var r := Wrapped(measure, text, maxW, maxLines);
      && |r| == maxLines
      && r[..maxLines - 1] == lines[..maxLines - 1]
      && TruncatedFrom(measure, maxW, lines[maxLines - 1], r[maxLines - 1])
  {
    var lines := GreedyLines(measure, maxW, SplitWords(text.GetOr("")));
    assert Wrapped(measure, text, maxW, maxLines) == Truncated(measure, maxW, lines, maxLines);
  }
}
