/**
 * Detection of an author-supplied file path in a leading comment
 * (src/path_detection.rs). Only the JavaScript pattern `//\s*(\w.*\.js\b)`
 * exists; it is modelled by a hand-written matcher with Rust `regex`'s
 * leftmost-first semantics, proved against a declarative description of
 * what a match of that pattern is.
 */
module PathDetection {
  import opened Wrappers
  import opened Filetype

  /** How many leading lines are scanned (`take(3)`). */
  const Window: nat := 3

  datatype PathDetection = PathDetection(lineNumber: nat, path: string)

  /** `\w`, read as the ASCII class `[0-9A-Za-z_]`. */
  predicate IsWordChar(c: char) {
    ('a' <= c <= 'z') || ('A' <= c <= 'Z') || ('0' <= c <= '9') || c == '_'
  }

  /** `\s`, read as the ASCII class `[\t\n\v\f\r ]`. */
  predicate IsSpace(c: char) {
    c == ' ' || c == '\t' || c == '\n' || c == '\U{B}' || c == '\U{C}' || c == '\r'
  }

  /**
   * `e` can end the capture `\w.*\.js\b` whose word character sits at `p`:
   * `.js` ends at `e`, a word boundary follows it, and the `.*` between
   * (which does not match a line feed) is in between.
   */
  predicate JsEnd(line: string, p: nat, e: nat) {
    && p + 4 <= e <= |line|
    && line[e - 3] == '.' && line[e - 2] == 'j' && line[e - 1] == 's'
    && (e == |line| || !IsWordChar(line[e]))
    && forall k :: p < k < e - 3 ==> line[k] != '\n'
  }

  /**
   * The pattern matches `line` with `//` at `i`, capture group 1 being
   * `line[p..e]`: the leader, whitespace up to `p`, a word character at `p`,
   * and a `.js` end at `e`.
   */
  ghost predicate RegexMatch(line: string, i: nat, p: nat, e: nat) {
    && i + 2 <= p && JsEnd(line, p, e)
    && line[i] == '/' && line[i + 1] == '/'
    && (forall k :: i + 2 <= k < p ==> IsSpace(line[k]))
    && IsWordChar(line[p])
  }

  /** Where a match was found: leader at `leader`, capture `line[start..end]`. */
  datatype JsMatch = JsMatch(leader: nat, start: nat, end: nat)

  /** `\s*` run greedily from `j`. */
  function SkipSpace(line: string, j: nat): (p: nat)
    requires j <= |line|
    ensures j <= p <= |line|
    ensures forall k :: j <= k < p ==> IsSpace(line[k])
    ensures p < |line| ==> !IsSpace(line[p])
    decreases |line| - j
  {
    if j < |line| && IsSpace(line[j]) then SkipSpace(line, j + 1) else j
  }

  /** The greedy `.*` backtracking: the largest capture end not above `e`. */
  function LastJsEnd(line: string, p: nat, e: nat): (r: Option<nat>)
    requires e <= |line|
    ensures r.Some? ==> r.value <= e && JsEnd(line, p, r.value)
    ensures r.Some? ==> forall e': nat :: r.value < e' <= e ==> !JsEnd(line, p, e')
    ensures r.None? ==> forall e': nat :: e' <= e ==> !JsEnd(line, p, e')
    decreases e
  {
    if e < p + 4 then None
    else if JsEnd(line, p, e) then Some(e)
    else LastJsEnd(line, p, e - 1)
  }

  /** The match whose `//` starts at `i`, if any; `\s*` and `.*` are both greedy. */
  function MatchAt(line: string, i: nat): (r: Option<JsMatch>)
    ensures r.Some? ==> r.value.leader == i && RegexMatch(line, i, r.value.start, r.value.end)
    ensures r.Some? ==> forall p: nat, e: nat :: RegexMatch(line, i, p, e) ==> p == r.value.start && e <= r.value.end
    ensures r.None? ==> forall p: nat, e: nat :: !RegexMatch(line, i, p, e)
  {
    if i + 2 <= |line| && line[i] == '/' && line[i + 1] == '/' then
      var p := SkipSpace(line, i + 2);
      if p < |line| && IsWordChar(line[p]) then
        match LastJsEnd(line, p, |line|)
        case None => None
        case Some(e) => Some(JsMatch(i, p, e))
      else
        None
    else
      None
  }

  /** The leftmost match whose `//` starts at or after `i`. */
  function MatchFrom(line: string, i: nat): (r: Option<JsMatch>)
    ensures r.Some? ==> i <= r.value.leader && RegexMatch(line, r.value.leader, r.value.start, r.value.end)
    ensures r.Some? ==> forall i': nat, p: nat, e: nat :: i <= i' && RegexMatch(line, i', p, e) ==>
      r.value.leader <= i' && (i' == r.value.leader ==> p == r.value.start && e <= r.value.end)
    ensures r.None? ==> forall i': nat, p: nat, e: nat :: i <= i' ==> !RegexMatch(line, i', p, e)
    decreases |line| - i
  {
    if |line| <= i then None
    else
      match MatchAt(line, i)
      case Some(m) => Some(m)
      case None => MatchFrom(line, i + 1)
  }

  /**
   * `re.captures(line)` for the JavaScript pattern: the leftmost match, and
   * among matches with that leader the one with the longest capture.
   */
  function FindJsPath(line: string): (r: Option<JsMatch>)
    ensures r.Some? ==> RegexMatch(line, r.value.leader, r.value.start, r.value.end)
    ensures r.Some? ==> forall i: nat, p: nat, e: nat :: RegexMatch(line, i, p, e) ==>
      r.value.leader <= i && (i == r.value.leader ==> p == r.value.start && e <= r.value.end)
    ensures r.None? <==> forall i: nat, p: nat, e: nat :: !RegexMatch(line, i, p, e)
  {
    MatchFrom(line, 0)
  }

  /** Capture group 1 of the JavaScript pattern on `line`. */
  function Capture(line: string): (c: Option<string>)
    ensures c.None? <==> FindJsPath(line).None?
    ensures c.Some? ==> 4 <= |c.value| && IsWordChar(c.value[0]) && c.value[|c.value| - 3..] == ".js"
    ensures c.Some? ==> c.value == line[FindJsPath(line).value.start..FindJsPath(line).value.end]
  {
    match FindJsPath(line)
    case None => None
    case Some(m) => Some(line[m.start..m.end])
  }

  /** The scan over `lines[k..]` restricted to the window. */
  function DetectFrom(lines: seq<string>, k: nat): (r: Option<PathDetection>)
    ensures r.Some? ==> k <= r.value.lineNumber < Window && r.value.lineNumber < |lines|
    ensures r.Some? ==> Capture(lines[r.value.lineNumber]) == Some(r.value.path)
    ensures r.Some? ==> forall j :: k <= j < r.value.lineNumber ==> Capture(lines[j]).None?
    ensures r.None? ==> forall j :: k <= j < |lines| && j < Window ==> Capture(lines[j]).None?
    decreases Window - k
  {
    if Window <= k || |lines| <= k then None
    else
      match Capture(lines[k])
      case Some(path) => Some(PathDetection(k, path))
      case None => DetectFrom(lines, k + 1)
  }

  /**
   * `detect_path`. The source's `match ft` has no arm for `Bash`, so the
   * function is only defined for the two types the source handles.
   */
  function DetectPath(ft: FileType, lines: seq<string>): (r: Option<PathDetection>)
    requires ft != Bash
    ensures ft == Unknown ==> r.None?
    ensures r.Some? ==> r.value.lineNumber < Window && r.value.lineNumber < |lines|
    ensures r.Some? ==> Capture(lines[r.value.lineNumber]) == Some(r.value.path)
    ensures r.Some? ==> forall j :: 0 <= j < r.value.lineNumber ==> Capture(lines[j]).None?
    ensures ft == JavaScript && r.None? ==>
      forall j :: 0 <= j < |lines| && j < Window ==> Capture(lines[j]).None?
  {
    match ft
    case Unknown => None
    case JavaScript => DetectFrom(lines, 0)
  }
}

module PathDetectionFacts {
  import opened Wrappers
  import opened Filetype
  import opened PathDetection

  /** Without a `//` leader there is nothing to capture. */
  lemma NoLeaderNoCapture(line: string)
    requires forall k :: 0 <= k < |line| ==> line[k] != '/'
    ensures Capture(line).None?
  {
    forall i: nat, p: nat, e: nat ensures !RegexMatch(line, i, p, e) {
    }
  }

  /** Without a `.js` token there is nothing to capture. */
  lemma NoExtensionNoCapture(line: string)
    requires forall k :: 0 <= k < |line| ==> line[k] != '.'
    ensures Capture(line).None?
  {
    forall i: nat, p: nat, e: nat ensures !RegexMatch(line, i, p, e) {
    }
  }

  lemma {:induction false} DetectFromIgnoresTail(lines: seq<string>, rest: seq<string>, k: nat)
    requires Window <= |lines|
    ensures DetectFrom(lines + rest, k) == DetectFrom(lines, k)
    decreases Window - k
  {
    if k < Window {
      assert (lines + rest)[k] == lines[k];
      DetectFromIgnoresTail(lines, rest, k + 1);
    }
  }

  /** Lines past the window never influence the result: appending lines changes nothing. */
  lemma {:induction false} DetectPathIgnoresLinesPastWindow(ft: FileType, lines: seq<string>, rest: seq<string>)
    requires ft != Bash
    requires Window <= |lines|
    ensures DetectPath(ft, lines + rest) == DetectPath(ft, lines)
  {
    if ft == JavaScript {
      DetectFromIgnoresTail(lines, rest, 0);
    }
  }

  /** `test_unknown` and the empty case of `test_js`. */
  lemma DetectPathUnknownAndEmpty()
    ensures DetectPath(Unknown, []) == None
    ensures DetectPath(Unknown, ["Anything"]) == None
    ensures DetectPath(Unknown, ["// foo.js"]) == None
    ensures DetectPath(JavaScript, []) == None
  {
  }

  /** `test_js`: a block without a path comment. */
  lemma DetectPathWithoutComment()
    ensures DetectPath(JavaScript, ["function foo() {", "    console.log(100);", "    ", "}"]) == None
  {
    var lines := ["function foo() {", "    console.log(100);", "    ", "}"];
    NoLeaderNoCapture(lines[0]);
    NoLeaderNoCapture(lines[1]);
    NoLeaderNoCapture(lines[2]);
  }

  /** The window of the first `test_js` case. */
  lemma DetectPathOnFirstLineWindow()
    ensures DetectPath(JavaScript, ["// foo.js", "", "function foo() {"]) == Some(PathDetection(0, "foo.js"))
  {
    var line := "// foo.js";
    assert RegexMatch(line, 0, 3, 9);
    var m := FindJsPath(line).value;
    assert m == JsMatch(0, 3, 9);
    assert line[3..9] == "foo.js";
  }

  /** `test_js`: the path on the first line. */
  lemma DetectPathOnFirstLine()
    ensures DetectPath(JavaScript, ["// foo.js", "", "function foo() {", "    console.log(100);", "    ", "}"])
      == Some(PathDetection(0, "foo.js"))
  {
    var lines := ["// foo.js", "", "function foo() {", "    console.log(100);", "    ", "}"];
    var window := lines[..Window];
    assert window == ["// foo.js", "", "function foo() {"];
    DetectPathOnFirstLineWindow();
    DetectPathIgnoresLinesPastWindow(JavaScript, window, lines[Window..]);
    assert window + lines[Window..] == lines;
  }

  lemma CommentsWithoutPath()
    ensures Capture("// First line").None?
    ensures Capture("// Second line").None?
    ensures Capture("// Third line").None?
  {
    NoExtensionNoCapture("// First line");
    NoExtensionNoCapture("// Second line");
    NoExtensionNoCapture("// Third line");
  }

  lemma CaptureOfThirdLine()
    ensures Capture("// third_line.js") == Some("third_line.js")
  {
    var line := "// third_line.js";
    assert RegexMatch(line, 0, 3, 16);
    assert FindJsPath(line).value == JsMatch(0, 3, 16);
    assert line[3..16] == "third_line.js";
  }

  /** The window of the second `test_js` case. */
  lemma DetectPathOnThirdLineWindow()
    ensures DetectPath(JavaScript, ["// First line", "// Second line", "// third_line.js"])
      == Some(PathDetection(2, "third_line.js"))
  {
    var lines := ["// First line", "// Second line", "// third_line.js"];
    CommentsWithoutPath();
    CaptureOfThirdLine();
    assert Capture(lines[0]).None? && Capture(lines[1]).None?;
    assert Capture(lines[2]) == Some("third_line.js");
  }

  /** `test_js`: comments on the first two lines carry no path; the third does. */
  lemma DetectPathOnThirdLine()
    ensures DetectPath(JavaScript, ["// First line", "// Second line", "// third_line.js", "",
      "function foo() {", "    console.log(100);", "    ", "}"])
      == Some(PathDetection(2, "third_line.js"))
  {
    var lines := ["// First line", "// Second line", "// third_line.js", "",
      "function foo() {", "    console.log(100);", "    ", "}"];
    var window := lines[..Window];
    assert window == ["// First line", "// Second line", "// third_line.js"];
    DetectPathOnThirdLineWindow();
    DetectPathIgnoresLinesPastWindow(JavaScript, window, lines[Window..]);
    assert window + lines[Window..] == lines;
  }

  /** The window of the third `test_js` case: three comments without a path. */
  lemma DetectPathOnFourthLineWindow()
    ensures DetectPath(JavaScript, ["// First line", "// Second line", "// Third line"]) == None
  {
    var lines := ["// First line", "// Second line", "// Third line"];
    CommentsWithoutPath();
    assert Capture(lines[0]).None? && Capture(lines[1]).None? && Capture(lines[2]).None?;
  }

  lemma CaptureOfFourthLine()
    ensures Capture("// fourth_line.js").Some?
  {
    assert RegexMatch("// fourth_line.js", 0, 3, 17);
  }

  /** `test_js`: a path comment on the fourth line is outside the window. */
  lemma DetectPathOnFourthLineIgnored()
    ensures Capture("// fourth_line.js").Some?
    ensures DetectPath(JavaScript, ["// First line", "// Second line", "// Third line", "// fourth_line.js", "",
      "function foo() {", "    console.log(100);", "    ", "}"]) == None
  {
    CaptureOfFourthLine();
    var lines := ["// First line", "// Second line", "// Third line", "// fourth_line.js", "",
      "function foo() {", "    console.log(100);", "    ", "}"];
    var window := lines[..Window];
    assert window == ["// First line", "// Second line", "// Third line"];
    DetectPathOnFourthLineWindow();
    DetectPathIgnoresLinesPastWindow(JavaScript, window, lines[Window..]);
    assert window + lines[Window..] == lines;
  }

  /** Greedy capture: with two `.js` tokens the capture runs to the last one. */
  lemma CaptureRunsToLastExtension()
    ensures Capture("// a.js b.js") == Some("a.js b.js")
  {
    var line := "// a.js b.js";
    assert RegexMatch(line, 0, 3, 12);
    assert line[3..12] == "a.js b.js";
  }

  /** The boundary after `.js` is required: `foo.jsx` is not a JavaScript path. */
  lemma CaptureNeedsBoundary()
    ensures Capture("// foo.jsx").None?
  {
    var line := "// foo.jsx";
    forall i: nat, p: nat, e: nat ensures !RegexMatch(line, i, p, e) {
    }
  }
}
