/**
 * Classification of a fenced block's language tag (src/filetype.rs).
 * The enumeration is closed; the lookup is an exact, case-sensitive match
 * against a three-entry alias table, and every other tag is `Unknown`.
 */
module Filetype {
  import opened Wrappers

  datatype FileType = Unknown | JavaScript | Bash

  /** The alias table the `match` in `From<&str>` spells out, as data. */
  const Aliases: map<string, FileType> :=
    map["javascript" := JavaScript, "js" := JavaScript, "bash" := Bash]

  /** `FileType::from(&str)`: exact alias lookup, `Unknown` otherwise. */
  function FromStr(s: string): (r: FileType)
    ensures r == JavaScript <==> s == "javascript" || s == "js"
    ensures r == Bash <==> s == "bash"
    ensures r == Unknown <==> s !in Aliases
  {
    match s
    case "javascript" => JavaScript
    case "js" => JavaScript
    case "bash" => Bash
    case _ => Unknown
  }

  /** `FileType::from(&Option<String>)`: an absent tag is `Unknown`. */
  function FromTag(tag: Option<string>): (r: FileType)
    ensures tag.None? ==> r == Unknown
    ensures tag.Some? ==> r == FromStr(tag.value)
  {
    match tag
    case None => Unknown
    case Some(s) => FromStr(s)
  }

  /** `String::from(FileType)`: the canonical lower-case name. */
  function Name(ft: FileType): (name: string)
    ensures ft == JavaScript ==> name == "javascript"
    ensures ft == Bash ==> name == "bash"
    ensures ft == Unknown ==> name == "unknown"
    ensures forall k :: 0 <= k < |name| ==> 'a' <= name[k] <= 'z'
  {
    match ft
    case JavaScript => "javascript"
    case Bash => "bash"
    case Unknown => "unknown"
  }

  /** The lookup is the alias table: a listed tag gives its entry, any other tag `Unknown`. */
  lemma FromStrIsTableLookup(s: string)
    ensures FromStr(s) == if s in Aliases then Aliases[s] else Unknown
  {
  }

  /** Case matters: upper- or mixed-case spellings of the aliases are not recognised. */
  lemma FromStrIsCaseSensitive()
    ensures FromStr("JS") == Unknown
    ensures FromStr("JavaScript") == Unknown
    ensures FromStr("Bash") == Unknown
    ensures FromStr("foo") == Unknown
  {
  }

  /** `from_option_string`: a present tag is looked up, an absent one is `Unknown`. */
  lemma FromTagTestCases()
    ensures FromTag(Some("js")) == JavaScript
    ensures FromTag(Some("foo")) == Unknown
    ensures FromTag(None) == Unknown
  {
  }

  /** `to_string`: the canonical names the test pins. */
  lemma NameTestCases()
    ensures Name(JavaScript) == "javascript"
    ensures Name(Unknown) == "unknown"
  {
  }

  /** Classifying the canonical name of a type gives the type back. */
  lemma NameRoundTrip(ft: FileType)
    ensures FromStr(Name(ft)) == ft
  {
  }

  /** Distinct types have distinct canonical names. */
  lemma NameInjective(a: FileType, b: FileType)
    ensures Name(a) == Name(b) ==> a == b
  {
    NameRoundTrip(a);
    NameRoundTrip(b);
  }

  /** The fallback name "unknown" is itself not an alias: its round trip is `Unknown`, never another type. */
  lemma UnknownNameIsNotAnAlias()
    ensures Name(Unknown) !in Aliases
  {
  }
}
