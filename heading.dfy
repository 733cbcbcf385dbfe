/** `Heading`: an HTML heading (level H1 to H6 and its text). */
module Headings {
  import opened Wrappers
  import opened Strings
  import opened AsciiArrow

  datatype Level = H1 | H2 | H3 | H4 | H5 | H6

  /** The enum constant's position in the declaration. */
  function Ordinal(l: Level): nat {
    match l
    case H1 => 0
    case H2 => 1
    case H3 => 2
    case H4 => 3
    case H5 => 4
    case H6 => 5
  }

  /** The enum constant's name, as `name()` returns it. */
  function Name(l: Level): string {
    match l
    case H1 => "H1"
    case H2 => "H2"
    case H3 => "H3"
    case H4 => "H4"
    case H5 => "H5"
    case H6 => "H6"
  }

  /** `Level.valueOf`: the constant with exactly this name, if any. */
  function ValueOf(name: string): (r: Option<Level>)
    ensures r.Some? ==> Name(r.value) == name
    ensures r.None? ==> forall l: Level :: Name(l) != name
  {
    match name
    case "H1" => Some(H1)
    case "H2" => Some(H2)
    case "H3" => Some(H3)
    case "H4" => Some(H4)
    case "H5" => Some(H5)
    case "H6" => Some(H6)
    case _ => None
  }

  /** `Level.fromString`: `valueOf(level.toUpperCase())`; None where Java throws. */
  function LevelFromString(level: string): (r: Option<Level>)
    ensures r.Some? ==> Name(r.value) == ToUpper(level)
    ensures r.None? ==> forall l: Level :: Name(l) != ToUpper(level)
  {
    ValueOf(ToUpper(level))
  }

  /** `Level.toString`: the lower-case name. */
  function LevelToString(l: Level): string {
    ToLower(Name(l))
  }

  /** `Level.toMarkdown(nestingLevel)`: ordinal+1 hashes, a space, the arrow. */
  function LevelToMarkdown(l: Level, nestingLevel: int): string {
    Repeat('#', Ordinal(l) + 1) + " " + Arrow(nestingLevel)
  }

  datatype Heading = Heading(level: Level, text: string)

  /** `Heading.toMarkdown(nestingLevel)`. */
  function ToMarkdown(h: Heading, nestingLevel: int): string {
    LevelToMarkdown(h.level, nestingLevel) + " " + h.text
  }

  /** `Heading.toMarkdown()`. */
  function ToMarkdownTop(h: Heading): string {
    ToMarkdown(h, 0)
  }

  lemma NameIsUpperWord(l: Level)
    ensures |Name(l)| == 2 && 'A' <= Name(l)[0] <= 'Z' && '0' <= Name(l)[1] <= '9'
  {
  }

  /** Parsing is case-insensitive: "h3" and "H3" both give H3, and nothing else does. */
  lemma LevelFromStringIff(s: string, l: Level)
    ensures LevelFromString(s) == Some(l) <==> ToUpper(s) == Name(l)
  {
    if ToUpper(s) == Name(l) {
      var r := LevelFromString(s);
      assert r.Some?;
      match r.value
      case H1 => {} case H2 => {} case H3 => {} case H4 => {} case H5 => {} case H6 => {}
      match l
      case H1 => {} case H2 => {} case H3 => {} case H4 => {} case H5 => {} case H6 => {}
    }
  }

  /** Tags outside h1..h6, such as "H7" and "h13", are rejected. */
  lemma LevelFromStringRejects()
    ensures LevelFromString("H7") == None
    ensures LevelFromString("h13") == None
    ensures LevelFromString("h2") == Some(H2)
  {
    assert ToUpper("H7") == "H7";
    assert ToUpper("h13") == "H13";
    assert ToUpper("h2") == "H2";
  }

  /** `fromString(toString(l)) == l` for every level. */
  lemma LevelRoundTrip(l: Level)
    ensures LevelFromString(LevelToString(l)) == Some(l)
  {
    var n := Name(l);
    assert ToUpper(ToLower(n)) == n by {
      assert UpperChar(LowerChar(n[0])) == n[0];
      assert UpperChar(LowerChar(n[1])) == n[1];
    }
    LevelFromStringIff(LevelToString(l), l);
  }

  /**
   * The Markdown prefix is ordinal+1 hashes, then a space, then the arrow;
   * so H1 at level 3 is "# ------>" and H3 at level 0 is "### ".
   */
  lemma LevelMarkdownShape(l: Level, nestingLevel: int)
    ensures var r := LevelToMarkdown(l, nestingLevel);
            && |r| == Ordinal(l) + 2 + |Arrow(nestingLevel)|
            && (forall i :: 0 <= i <= Ordinal(l) ==> r[i] == '#')
            && r[Ordinal(l) + 1] == ' '
            && r[Ordinal(l) + 2..] == Arrow(nestingLevel)
    ensures LevelToMarkdown(H1, 3) == "# ------>"
    ensures LevelToMarkdown(H3, 0) == "### "
    ensures LevelToMarkdown(H6, 4) == "###### -------->"
  {
    ArrowDefaultShape(3);
    assert Arrow(4) == Repeat('-', 8) + ">";
    assert Repeat('#', 1) == "#";
    assert Repeat('#', 3) == "###";
    assert Repeat('#', 6) == "######";
  }

  /** Two headings are equal exactly when their levels and texts are. */
  lemma HeadingEquality(a: Heading, b: Heading)
    ensures a == b <==> a.level == b.level && a.text == b.text
  {
  }
}
