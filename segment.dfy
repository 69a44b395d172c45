/**
 * A named file segment built from one code block (src/segment.rs). The
 * tag is passed through raw; the file name is still a fixed placeholder.
 */
module Segment {
  import opened Wrappers
  import opened Mdast
  import Filetype

  datatype Segment = Segment(fileType: string, fileName: string, contents: string)

  /** Tag used when the block has none (capital `U`, unlike the canonical "unknown"). */
  const UnknownTag: string := "Unknown"

  /** File name every segment gets: detection is not wired in yet. */
  const Placeholder: string := "Not implemented"

  /** `Segment::from(&Code)`. */
  function FromCode(c: Code): (s: Segment)
    ensures c.lang.Some? ==> s.fileType == c.lang.value
    ensures c.lang.None? ==> s.fileType == UnknownTag
    ensures s.fileName == Placeholder
    ensures s.contents == c.value
  {
    var ftype := match c.lang
      case Some(lang) => lang
      case None => UnknownTag;
    Segment(ftype, Placeholder, c.value)
  }

  /**
   * The raw tag kept in a segment classifies exactly as the block's tag:
   * passing it through loses nothing the classifier would use.
   */
  lemma FileTypeClassifiesAsTag(c: Code)
    ensures Filetype.FromStr(FromCode(c).fileType) == Filetype.FromTag(c.lang)
  {
  }

  /** No canonicalisation: a "js" block keeps "js", not the canonical "javascript". */
  lemma TagNotCanonicalised(v: string)
    ensures FromCode(Code(Some("js"), v)).fileType == "js"
    ensures FromCode(Code(Some("js"), v)).fileType != Filetype.Name(Filetype.FromTag(Some("js")))
  {
  }

  /**
   * The fallback tag is not the canonical name of `Unknown`, and an absent
   * tag cannot be told apart from a literal "Unknown" tag.
   */
  lemma AbsentTagIndistinguishable(v: string)
    ensures FromCode(Code(None, v)) == FromCode(Code(Some("Unknown"), v))
    ensures FromCode(Code(None, v)).fileType != Filetype.Name(Filetype.Unknown)
  {
  }
}
