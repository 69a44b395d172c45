# glu tangle front half, in Dafny

This project models the pure front half of `glu`, a "tangle" tool that
recovers source files embedded as fenced code blocks in a Markdown
document. Five pieces are modelled, one Dafny module per source file:

- `Filetype` (src/filetype.rs): the closed `FileType` enumeration
  (`Unknown | JavaScript | Bash`), the case-sensitive classification of a
  fence's language tag (`"javascript"` and `"js"` give `JavaScript`,
  `"bash"` gives `Bash`, anything else or no tag gives `Unknown`) and the
  canonical lower-case name of each type.
- `PathDetection` (src/path_detection.rs): `detect_path`, which looks at
  the first three lines of a block and reports the first one matching the
  JavaScript path-comment pattern `//\s*(\w.*\.js\b)`, with the captured
  path. The regular expression is modelled by a hand-written matcher
  (`FindJsPath`) with the leftmost-first semantics of Rust's `regex`
  crate, and proved against a declarative description of a match
  (`RegexMatch`): the reported match has the leftmost `//`, and among
  matches at that `//` the longest capture (both `*` are greedy).
  `PathDetectionFacts` holds the window lemma and the unit tests of
  src/path_detection.rs as lemmas.
- `Segment` (src/segment.rs): the record built from a code block: the raw
  tag (or `"Unknown"`), the placeholder file name `"Not implemented"`, and
  the block text.
- `SegmentOptimizer` (src/segment_optimizer.rs): the optimizer's initial
  state: the text split as `str::lines()` does, the classified type, no
  path and a zero indent. `Lines` is proved against `Join` in both
  directions and its length is counted.
- `Parse` (src/parse.rs): `find_code_nodes`, a depth-first, left-to-right
  walk that pushes every code node onto a buffer without looking inside
  code nodes, proved equal to the pure `Flatten`; `Flatten` is proved to
  collect exactly the blocks an independent `Holds` predicate describes,
  in child order; and the final mapping of blocks to segments.
- `Mdast` holds the shape of the foreign Markdown tree (`Code`, `Node`),
  `Wrappers` the `Option` type.

Points where the code is incomplete, and how the model treats them:

- src/segment_optimizer.rs has only the optimizer's constructor and a
  `min_indent` field that nothing reads; the model has the constructor and
  nothing more.
- `detect_path`'s `match ft` (src/path_detection.rs:11-14) has no arm for
  `Bash`, which is a non-exhaustive `match` (Rust error E0004): the
  function is rejected as written. `DetectPath` leaves `Bash` out with
  `requires ft != Bash`, and no Bash pattern is invented.
- Segments are all named `"Not implemented"` and keep the raw tag, with
  `"Unknown"` (capital U) for a missing tag, not the canonical name.

## Model

| member | source | states |
|---|---|---|
| `Filetype.FromStr` | src/filetype.rs:16-25 | exactly "javascript" and "js" give JavaScript, exactly "bash" gives Bash, and every tag outside the alias table gives Unknown |
| `Filetype.FromTag` | src/filetype.rs:8-15 | an absent tag is Unknown; a present tag is classified exactly as the bare string |
| `Filetype.Name` | src/filetype.rs:27-35 | JavaScript is named "javascript", Bash "bash" and Unknown "unknown", each lower-case ASCII |
| `Filetype.FromStrIsTableLookup` | src/filetype.rs:18-23 | classification is a lookup in the three-entry alias table with Unknown as fallback |
| `Filetype.FromStrIsCaseSensitive` | src/filetype.rs:41-46 | "JS", "JavaScript", "Bash" and "foo" all give Unknown |
| `Filetype.FromTagTestCases` | src/filetype.rs:48-53 | Some("js") gives JavaScript, Some("foo") and None give Unknown |
| `Filetype.NameTestCases` | src/filetype.rs:55-59 | JavaScript is named "javascript" and Unknown "unknown" |
| `Filetype.NameRoundTrip` | src/filetype.rs:18-33 | classifying the canonical name of any type gives that type back |
| `Filetype.NameInjective` | src/filetype.rs:29-33 | distinct types have distinct canonical names |
| `Filetype.UnknownNameIsNotAnAlias` | src/filetype.rs:22-32 | "unknown" is not an alias; it classifies as Unknown through the fallback |
| `PathDetection.FindJsPath` | src/path_detection.rs:12-20 | the match found is a match of `//\s*(\w.*\.js\b)`, no match has an earlier `//`, at the same `//` no capture is longer; none is found exactly when the line has no match |
| `PathDetection.Capture` | src/path_detection.rs:25 | the captured path starts with a word character, ends in ".js", is at least 4 characters, and is the slice of the line the match delimits |
| `PathDetection.DetectFrom` | src/path_detection.rs:17-26 | from line k on, the result is the first line inside the window whose capture exists, with that capture; none means no line from k inside the window matches |
| `PathDetection.DetectPath` | src/path_detection.rs:10-27 | Unknown never detects; a result has line number below 3 and below the line count, carries that line's capture, and no earlier line matches; for JavaScript, none means no line of the window matches |
| `PathDetectionFacts.NoLeaderNoCapture` | src/path_detection.rs:12 | a line without '/' has no capture |
| `PathDetectionFacts.NoExtensionNoCapture` | src/path_detection.rs:12 | a line without '.' has no capture |
| `PathDetectionFacts.DetectPathIgnoresLinesPastWindow` | src/path_detection.rs:19 | appending lines after the first three never changes the result |
| `PathDetectionFacts.DetectPathUnknownAndEmpty` | src/path_detection.rs:45-55 | Unknown gives None on any of the test inputs, even a valid comment; JavaScript on no lines gives None |
| `PathDetectionFacts.DetectPathWithoutComment` | src/path_detection.rs:56-61 | a function body without a path comment gives None |
| `PathDetectionFacts.DetectPathOnFirstLine` | src/path_detection.rs:63-70 | "// foo.js" on line 0 gives line 0, path "foo.js" |
| `PathDetectionFacts.DetectPathOnThirdLine` | src/path_detection.rs:72-81 | two comments without a path then "// third_line.js" give line 2, path "third_line.js" |
| `PathDetectionFacts.DetectPathOnFourthLineIgnored` | src/path_detection.rs:83-93 | a valid path comment on line 3 is outside the window and the result is None |
| `PathDetectionFacts.CaptureRunsToLastExtension` | src/path_detection.rs:12 | the greedy `.*` makes "// a.js b.js" capture "a.js b.js" |
| `PathDetectionFacts.CaptureNeedsBoundary` | src/path_detection.rs:12 | "// foo.jsx" has no capture: `\b` must follow ".js" |
| `Segment.FromCode` | src/segment.rs:11-23 | the type is the raw tag, or "Unknown" without one; the name is always "Not implemented"; the contents are the block text |
| `Segment.FileTypeClassifiesAsTag` | src/segment.rs:13-16 | the segment's type string classifies exactly as the block's tag |
| `Segment.TagNotCanonicalised` | src/segment.rs:14 | a "js" block keeps "js", which differs from the canonical "javascript" |
| `Segment.AbsentTagIndistinguishable` | src/segment.rs:13-16 | no tag and the literal tag "Unknown" give the same segment, and "Unknown" is not the canonical "unknown" |
| `SegmentOptimizer.FromCode` | src/segment_optimizer.rs:12-23 | lines are the `lines()` split of the text (none holds a line feed, none at all exactly for empty text), the type is the tag's classification (Unknown without a tag), the path is None and the indent 0 |
| `SegmentOptimizer.Lines` | src/segment_optimizer.rs:14 | no line holds a line feed, and there are no lines exactly when the text is empty |
| `SegmentOptimizer.LinesCount` | src/segment_optimizer.rs:14 | the line count is the number of line feeds, plus one for an unterminated last line |
| `SegmentOptimizer.JoinLinesRoundTrip` | src/segment_optimizer.rs:14 | without '\r' and without a final line feed, joining the lines with "\n" gives the text back |
| `SegmentOptimizer.LinesJoinRoundTrip` | src/segment_optimizer.rs:14 | lines without '\n' or '\r', the last non-empty, are recovered by splitting their join |
| `SegmentOptimizer.LinesOfTerminatedText` | src/segment_optimizer.rs:14 | "" has no lines, "\n" is one empty line, "a\n" is one line "a" |
| `SegmentOptimizer.LinesOfCrLf` | src/segment_optimizer.rs:14 | "\r\n" is one line ending |
| `SegmentOptimizer.LinesOfBlankInterior` | src/segment_optimizer.rs:14 | interior empty lines are kept |
| `SegmentOptimizer.LinesOfBareCr` | src/segment_optimizer.rs:14 | a '\r' not followed by '\n' stays in the line |
| `SegmentOptimizer.FromCodeKeepsText` | src/segment_optimizer.rs:14-18 | the fresh optimizer's lines re-join into the block text when it has no '\r' and no final line feed |
| `Parse.Flatten` | src/parse.rs:24-31 | a code node contributes exactly itself; a node without children contributes nothing |
| `Parse.FlattenAll` | src/parse.rs:27-29 | no children contribute nothing |
| `Parse.FlattenAllAppend` | src/parse.rs:27-29 | the blocks of a concatenation of siblings are the concatenation of their blocks |
| `Parse.FlattenHoldsExactly` | src/parse.rs:24-31 | a block is collected exactly when the tree holds it as a code node not nested in another code node |
| `Parse.FlattenInChildOrder` | src/parse.rs:27-29 | a node's blocks are its earlier children's blocks followed by its later children's |
| `Parse.FlattenSingleChild` | src/parse.rs:27-29 | a node with one child contributes that child's blocks |
| `Parse.FindCodeNodes` | src/parse.rs:24-31 | the buffer on exit is the buffer on entry followed by the tree's blocks in depth-first order; the old contents are a prefix |
| `Parse.Parse` | src/parse.rs:11-21 | one segment per collected block, in order, the i-th built from the i-th block, each named "Not implemented" |

## Left out

- src/writer.rs: creating the output directory and writing files, with path confinement done by the foreign `safe_path::scoped_join`; there is no logic of the tool's own to model.
- src/download.rs: reading the document from a file or over HTTP; `is_url` only defers to the `url` crate's parser.
- src/main.rs: a demonstration that prints the segments of a fixed document.
- `markdown::to_mdast` (src/parse.rs:13): the foreign Markdown parser. `Parse.Parse` takes the tree as its input; `Mdast.Node` keeps only what the walk looks at.
- Mdast.Children: `Node::children()` returns `Option<&Vec<Node>>`; the model spells that option out as its own datatype so that termination follows from the tree's structure.
- PathDetection.IsWordChar and PathDetection.IsSpace: `\w`, `\s` and `\b` are Unicode-aware in Rust's `regex`; the model uses the ASCII classes, so non-ASCII letters and spaces are treated differently. Compiling the pattern (`Regex::new(...).expect(...)`) cannot fail for this fixed pattern and is not modelled.
- PathDetection.DetectPath: requires `ft != Bash`, because the source's `match` has no arm for `Bash`, so `detect_path` is rejected as written (non-exhaustive `match`) and has no behaviour for that type to model.
- Parse.FindCodeNodes: the `&mut Vec<Code>` buffer is modelled as a value passed in and returned, not as a vector updated in place.
- SegmentOptimizer.FromCode: the lines are copies, not slices borrowed from the block text; `min_indent` is a `u8` the code never reads.
- SegmentOptimizer.Lines: follows the documented behaviour of `str::lines()` (a bare trailing '\r' is kept); older Rust releases stripped it.
- Clone costs and `Debug` output are not modelled.
