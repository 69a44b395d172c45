/**
 * The initial state of a block's optimizer (src/segment_optimizer.rs):
 * the block's text split into lines as Rust's `str::lines()` does, the
 * inferred file type, no path yet and a zero indent.
 */
module SegmentOptimizer {
  import opened Wrappers
  import opened Mdast
  import opened Filetype

  /** The source stores the indent in a `u8`. */
  newtype u8 = x: int | 0 <= x < 256

  datatype SegmentOptimizer = SegmentOptimizer(
    lines: seq<string>,
    minIndent: u8,
    inferredType: FileType,
    inferredPath: Option<string>)

  /** Index of the first line feed in `s`, or `|s|` when there is none. */
  function IndexOfNewline(s: string): (i: nat)
    ensures i <= |s|
    ensures forall k :: 0 <= k < i ==> s[k] != '\n'
    ensures i < |s| ==> s[i] == '\n'
  {
    if s == [] then 0
    else if s[0] == '\n' then 0
    else 1 + IndexOfNewline(s[1..])
  }

  /** Drops one trailing carriage return, as `lines()` does before a line feed. */
  function StripCr(s: string): (r: string)
    ensures '\r' !in s ==> r == s
    ensures |s| > 0 && s[|s| - 1] == '\r' ==> r + ['\r'] == s
  {
    if |s| > 0 && s[|s| - 1] == '\r' then s[..|s| - 1] else s
  }

  /**
   * `str::lines()`: split at every `\n` (a `\r` just before it is part of
   * the line ending), the last line ending is optional, and the empty text
   * has no lines at all.
   */
  function Lines(text: string): (ls: seq<string>)
    ensures ls == [] <==> text == []
    ensures forall k :: 0 <= k < |ls| ==> '\n' !in ls[k]
    decreases |text|
  {
    if text == [] then []
    else
      var i := IndexOfNewline(text);
      if i == |text| then [text]
      else [StripCr(text[..i])] + Lines(text[i + 1..])
  }

  /** `lines.join("\n")`, the inverse the round-trip lemmas use. */
  function Join(ls: seq<string>): (text: string)
    ensures ls == [] ==> text == []
  {
    if ls == [] then []
    else if |ls| == 1 then ls[0]
    else ls[0] + "\n" + Join(ls[1..])
  }

  /** Number of line feeds in `s`. */
  function CountNewlines(s: string): (n: nat)
    ensures n <= |s|
  {
    if s == [] then 0 else (if s[0] == '\n' then 1 else 0) + CountNewlines(s[1..])
  }

  /** `SegmentOptimizer::from(&Code)`. */
  function FromCode(c: Code): (o: SegmentOptimizer)
    ensures o.lines == Lines(c.value)
    ensures o.lines == [] <==> c.value == []
    ensures forall k :: 0 <= k < |o.lines| ==> '\n' !in o.lines[k]
    ensures o.inferredType == FromTag(c.lang)
    ensures c.lang.None? ==> o.inferredType == Unknown
    ensures o.minIndent == 0 && o.inferredPath == None
  {
    SegmentOptimizer(Lines(c.value), 0, FromTag(c.lang), None)
  }

  /** Lines of a text that splits at its first line feed, at index `i`. */
  lemma {:induction false} LinesUnfold(text: string, i: nat)
    requires i < |text| && text[i] == '\n'
    requires forall k :: 0 <= k < i ==> text[k] != '\n'
    ensures Lines(text) == [StripCr(text[..i])] + Lines(text[i + 1..])
  {
    assert IndexOfNewline(text) == i;
  }

  lemma {:induction false} CountNewlinesAppend(a: string, b: string)
    ensures CountNewlines(a + b) == CountNewlines(a) + CountNewlines(b)
    decreases |a|
  {
    if a == [] {
      assert a + b == b;
    } else {
      assert (a + b)[1..] == a[1..] + b;
      CountNewlinesAppend(a[1..], b);
    }
  }

  lemma {:induction false} NoNewlineCountsZero(a: string)
    requires forall k :: 0 <= k < |a| ==> a[k] != '\n'
    ensures CountNewlines(a) == 0
    decreases |a|
  {
    if a != [] {
      NoNewlineCountsZero(a[1..]);
    }
  }

  /**
   * One line per line feed, plus one for a last line that has no line feed
   * after it.
   */
  lemma {:induction false} LinesCount(text: string)
    ensures |Lines(text)| == CountNewlines(text) + if text != [] && text[|text| - 1] != '\n' then 1 else 0
    decreases |text|
  {
    if text != [] {
      var i := IndexOfNewline(text);
      if i == |text| {
        NoNewlineCountsZero(text);
      } else {
        var head, rest := text[..i], text[i + 1..];
        assert text == head + ("\n" + rest);
        CountNewlinesAppend(head, "\n" + rest);
        CountNewlinesAppend("\n", rest);
        assert CountNewlines("\n") == 1;
        NoNewlineCountsZero(head);
        LinesUnfold(text, i);
        assert |Lines(text)| == 1 + |Lines(rest)|;
        LinesCount(rest);
        if rest != [] {
          assert rest[|rest| - 1] == text[|text| - 1];
        }
      }
    }
  }

  lemma JoinCons(a: string, ls: seq<string>)
    requires ls != []
    ensures Join([a] + ls) == a + "\n" + Join(ls)
  {
    assert ([a] + ls)[1..] == ls;
  }

  /**
   * For text without carriage returns and without a final line feed,
   * joining the lines with "\n" gives the text back.
   */
  lemma {:induction false} JoinLinesRoundTrip(text: string)
    requires forall k :: 0 <= k < |text| ==> text[k] != '\r'
    requires text == [] || text[|text| - 1] != '\n'
    ensures Join(Lines(text)) == text
    decreases |text|
  {
    if text != [] {
      var i := IndexOfNewline(text);
      if i < |text| {
        var head, rest := text[..i], text[i + 1..];
        assert text == head + "\n" + rest;
        assert rest != [] && rest[|rest| - 1] == text[|text| - 1];
        forall k | 0 <= k < |rest| ensures rest[k] != '\r' {
          assert rest[k] == text[i + 1 + k];
        }
        assert StripCr(head) == head by {
          if |head| > 0 { assert head[|head| - 1] == text[i - 1]; }
        }
        LinesUnfold(text, i);
        JoinLinesRoundTrip(rest);
        JoinCons(head, Lines(rest));
      }
    }
  }

  /**
   * Splitting joined lines gives them back, when no line holds a line feed
   * or carriage return and the last line is not empty (a trailing empty
   * line would read as an optional final line ending).
   */
  lemma {:induction false} LinesJoinRoundTrip(ls: seq<string>)
    requires ls != [] && ls[|ls| - 1] != []
    requires forall k, j :: 0 <= k < |ls| && 0 <= j < |ls[k]| ==> ls[k][j] != '\n' && ls[k][j] != '\r'
    ensures Lines(Join(ls)) == ls
    decreases |ls|
  {
    if |ls| == 1 {
      assert IndexOfNewline(ls[0]) == |ls[0]|;
    } else {
      var tail := ls[1..];
      assert ls == [ls[0]] + tail;
      JoinCons(ls[0], tail);
      var text := ls[0] + "\n" + Join(tail);
      assert text[..|ls[0]|] == ls[0];
      assert text[|ls[0]| + 1..] == Join(tail);
      LinesUnfold(text, |ls[0]|);
      assert StripCr(ls[0]) == ls[0] by {
        if |ls[0]| > 0 { assert ls[0][|ls[0]| - 1] != '\r'; }
      }
      LinesJoinRoundTrip(tail);
    }
  }

  /** `lines()` on the empty text, a lone line feed and a trailing line feed. */
  lemma LinesOfTerminatedText()
    ensures Lines("") == []
    ensures Lines("\n") == [""]
    ensures Lines("a\n") == ["a"]
  {
    LinesUnfold("\n", 0);
    assert "\n"[1..] == "" && "\n"[..0] == "";
    LinesUnfold("a\n", 1);
    assert "a\n"[2..] == "" && "a\n"[..1] == "a";
  }

  /** `lines()` treats "\r\n" as one line ending. */
  lemma LinesOfCrLf()
    ensures Lines("a\r\nb") == ["a", "b"]
  {
    LinesUnfold("a\r\nb", 2);
    assert "a\r\nb"[..2] == "a\r" && "a\r\nb"[3..] == "b";
    assert StripCr("a\r") == "a";
    assert IndexOfNewline("b") == 1;
  }

  /** `lines()` keeps interior empty lines. */
  lemma LinesOfBlankInterior()
    ensures Lines("a\n\nb") == ["a", "", "b"]
  {
    LinesUnfold("a\n\nb", 1);
    assert "a\n\nb"[..1] == "a" && "a\n\nb"[2..] == "\nb";
    LinesUnfold("\nb", 0);
    assert "\nb"[..0] == "" && "\nb"[1..] == "b";
  }

  /** A carriage return not followed by a line feed stays in the line. */
  lemma LinesOfBareCr()
    ensures Lines("a\r") == ["a\r"]
  {
  }

  /** A fresh optimizer holds the block's lines, re-joinable into its text when it has no `\r` and no final line feed. */
  lemma {:induction false} FromCodeKeepsText(c: Code)
    requires forall k :: 0 <= k < |c.value| ==> c.value[k] != '\r'
    requires c.value == [] || c.value[|c.value| - 1] != '\n'
    ensures Join(FromCode(c).lines) == c.value
  {
    JoinLinesRoundTrip(c.value);
  }
}
