/** `Language`: the target and source languages the translation service knows. */
module Languages {
  import opened Wrappers
  import opened Strings

  datatype Language = Bulgarian | Czech | Danish | German | Greek | English | Spanish | Estonian | Finnish | French | Hungarian | Italian | Japanese | Lithuanian | Latvian | Dutch | Polish | Portuguese | Romanian | Russian | Slovak | Slovenian | Swedish | Chinese

  /** Every constant, in declaration order (`values()`). */
  const All: seq<Language> := [Bulgarian, Czech, Danish, German, Greek, English, Spanish, Estonian, Finnish, French, Hungarian, Italian, Japanese, Lithuanian, Latvian, Dutch, Polish, Portuguese, Romanian, Russian, Slovak, Slovenian, Swedish, Chinese]

  /** The two-letter tag each constant is declared with. */
  function Tag(l: Language): string {
    match l
    case Bulgarian => "BG"
    case Czech => "CS"
    case Danish => "DA"
    case German => "DE"
    case Greek => "EL"
    case English => "EN"
    case Spanish => "ES"
    case Estonian => "ET"
    case Finnish => "FI"
    case French => "FR"
    case Hungarian => "HU"
    case Italian => "IT"
    case Japanese => "JA"
    case Lithuanian => "LT"
    case Latvian => "LV"
    case Dutch => "NL"
    case Polish => "PL"
    case Portuguese => "PT"
    case Romanian => "RO"
    case Russian => "RU"
    case Slovak => "SK"
    case Slovenian => "SL"
    case Swedish => "SV"
    case Chinese => "ZH"
  }

  /** The enum constant's name, as `name()` returns it. */
  function Name(l: Language): string {
    match l
    case Bulgarian => "BULGARIAN"
    case Czech => "CZECH"
    case Danish => "DANISH"
    case German => "GERMAN"
    case Greek => "GREEK"
    case English => "ENGLISH"
    case Spanish => "SPANISH"
    case Estonian => "ESTONIAN"
    case Finnish => "FINNISH"
    case French => "FRENCH"
    case Hungarian => "HUNGARIAN"
    case Italian => "ITALIAN"
    case Japanese => "JAPANESE"
    case Lithuanian => "LITHUANIAN"
    case Latvian => "LATVIAN"
    case Dutch => "DUTCH"
    case Polish => "POLISH"
    case Portuguese => "PORTUGUESE"
    case Romanian => "ROMANIAN"
    case Russian => "RUSSIAN"
    case Slovak => "SLOVAK"
    case Slovenian => "SLOVENIAN"
    case Swedish => "SWEDISH"
    case Chinese => "CHINESE"
  }

  /** Decodes a tag; used only to prove that tags are unique. */
  function TagOwner(tag: string): Option<Language> {
    match tag
    case "BG" => Some(Bulgarian)
    case "CS" => Some(Czech)
    case "DA" => Some(Danish)
    case "DE" => Some(German)
    case "EL" => Some(Greek)
    case "EN" => Some(English)
    case "ES" => Some(Spanish)
    case "ET" => Some(Estonian)
    case "FI" => Some(Finnish)
    case "FR" => Some(French)
    case "HU" => Some(Hungarian)
    case "IT" => Some(Italian)
    case "JA" => Some(Japanese)
    case "LT" => Some(Lithuanian)
    case "LV" => Some(Latvian)
    case "NL" => Some(Dutch)
    case "PL" => Some(Polish)
    case "PT" => Some(Portuguese)
    case "RO" => Some(Romanian)
    case "RU" => Some(Russian)
    case "SK" => Some(Slovak)
    case "SL" => Some(Slovenian)
    case "SV" => Some(Swedish)
    case "ZH" => Some(Chinese)
    case _ => None
  }

  /** `valueOf`: the constant with exactly this name, if any. */
  function ValueOf(name: string): (r: Option<Language>)
    ensures r.Some? ==> Name(r.value) == name
  {
    match name
    case "BULGARIAN" => Some(Bulgarian)
    case "CZECH" => Some(Czech)
    case "DANISH" => Some(Danish)
    case "GERMAN" => Some(German)
    case "GREEK" => Some(Greek)
    case "ENGLISH" => Some(English)
    case "SPANISH" => Some(Spanish)
    case "ESTONIAN" => Some(Estonian)
    case "FINNISH" => Some(Finnish)
    case "FRENCH" => Some(French)
    case "HUNGARIAN" => Some(Hungarian)
    case "ITALIAN" => Some(Italian)
    case "JAPANESE" => Some(Japanese)
    case "LITHUANIAN" => Some(Lithuanian)
    case "LATVIAN" => Some(Latvian)
    case "DUTCH" => Some(Dutch)
    case "POLISH" => Some(Polish)
    case "PORTUGUESE" => Some(Portuguese)
    case "ROMANIAN" => Some(Romanian)
    case "RUSSIAN" => Some(Russian)
    case "SLOVAK" => Some(Slovak)
    case "SLOVENIAN" => Some(Slovenian)
    case "SWEDISH" => Some(Swedish)
    case "CHINESE" => Some(Chinese)
    case _ => None
  }

  lemma TagOwnerInverts(l: Language)
    ensures TagOwner(Tag(l)) == Some(l)
  {
  }

  lemma ValueOfInverts(l: Language)
    ensures ValueOf(Name(l)) == Some(l)
  {
  }

  /** Every constant's name is a word of at least five capital letters. */
  lemma NameUpper(l: Language)
    ensures IsUpperWord(Name(l)) && |Name(l)| >= 5
  {
  }

  /** Every tag is two capital letters. */
  lemma TagShape(l: Language)
    ensures IsUpperWord(Tag(l)) && |Tag(l)| == 2
  {
  }

  lemma AllComplete(l: Language)
    ensures l in All
  {
  }

  /** The loop over `values()` that returns the first constant whose tag is `tag`. */
  function FindByTag(tag: string, ls: seq<Language>): (r: Option<Language>)
    ensures r.Some? ==> r.value in ls && Tag(r.value) == tag
    ensures r.None? ==> forall l :: l in ls ==> Tag(l) != tag
  {
    if ls == [] then None
    else if Tag(ls[0]) == tag then Some(ls[0])
    else FindByTag(tag, ls[1..])
  }

  /** `fromString`: a tag match first, then the enum name; None where Java throws. */
  function FromString(nameOrTag: string): Option<Language> {
    var upper := ToUpper(nameOrTag);
    match FindByTag(upper, All)
    case Some(l) => Some(l)
    case None => ValueOf(upper)
  }

  /** `toString`: the lower-case name. */
  function ToString(l: Language): string {
    ToLower(Name(l))
  }

  /** Tags are unique, so the tag lookup finds at most one constant. */
  lemma TagInjective(a: Language, b: Language)
    ensures Tag(a) == Tag(b) ==> a == b
  {
    TagOwnerInverts(a);
    TagOwnerInverts(b);
  }

  /**
   * Lookup is case-insensitive, a tag match wins over a name match, the
   * name is the fallback, and input matching neither is rejected.
   */
  lemma FromStringSpec(s: string)
    ensures FromString(s) == FromString(ToUpper(s))
    ensures forall l :: Tag(l) == ToUpper(s) ==> FromString(s) == Some(l)
    ensures (forall l :: Tag(l) != ToUpper(s)) ==> FromString(s) == ValueOf(ToUpper(s))
    ensures FromString(s).None? <==> forall l :: Tag(l) != ToUpper(s) && Name(l) != ToUpper(s)
  {
    UpperIdempotent(s);
    forall l | Tag(l) == ToUpper(s)
      ensures FromString(s) == Some(l)
    {
      AllComplete(l);
      var r := FindByTag(ToUpper(s), All);
      assert r.Some?;
      TagInjective(r.value, l);
    }
    if FromString(s).None? {
      forall l
        ensures Tag(l) != ToUpper(s) && Name(l) != ToUpper(s)
      {
        AllComplete(l);
        ValueOfInverts(l);
      }
    }
  }

  /** Round trips: both the tag and the lower-case name give the language back. */
  lemma {:induction false} RoundTrips(l: Language)
    ensures FromString(Tag(l)) == Some(l)
    ensures FromString(ToString(l)) == Some(l)
  {
    NameUpper(l);
    TagShape(l);
    UpperOfLower(Name(l));
    assert ToUpper(Tag(l)) == Tag(l) by {
      assert forall i :: 0 <= i < |Tag(l)| ==> UpperChar(Tag(l)[i]) == Tag(l)[i];
    }
    FromStringSpec(Tag(l));
    FromStringSpec(ToString(l));
    forall k | k in All
      ensures Tag(k) != Name(l)
    {
      NameUpper(l);
      TagShape(k);
    }
    ValueOfInverts(l);
  }
}
