/** `Metadata`: the header of a page's section of the report. */
module MetadataHeader {
  import opened Strings
  import opened Links

  datatype Metadata = Metadata(link: Link, maxDepth: int, sourceLanguage: string, targetLanguage: string)

  /** The `%s` pieces of `ROOT_MARKDOWN_TEMPLATE`. */
  const RootTemplate: seq<string> := [
    "input: <a>",
    "</a>\n<br>max depth: ",
    "\n<br>source language: ",
    "\n<br>target language: ",
    "\n<br>summary:"
  ]

  /** `toMarkdown(nestingLevel)`: the full block at the root, the nested link line elsewhere. */
  function ToMarkdown(m: Metadata, nestingLevel: int): string {
    if nestingLevel == 0 then
      Format(RootTemplate, [Url(m.link), IntToString(m.maxDepth), m.sourceLanguage, m.targetLanguage])
    else
      Links.ToMarkdown(m.link, nestingLevel)
  }

  /** `toMarkdown()`. */
  function ToMarkdownTop(m: Metadata): string {
    ToMarkdown(m, 0)
  }

  /**
   * The root block is the template filled, in order, with the link, the
   * maximum depth and the two languages.
   */
  lemma RootText(m: Metadata)
    ensures ToMarkdownTop(m)
            == "input: <a>" + Url(m.link) + "</a>\n<br>max depth: " + IntToString(m.maxDepth)
               + "\n<br>source language: " + m.sourceLanguage
               + "\n<br>target language: " + m.targetLanguage + "\n<br>summary:"
  {
    FormatFour(RootTemplate, Url(m.link), IntToString(m.maxDepth), m.sourceLanguage, m.targetLanguage);
  }

  /** The root block starts with the input link and always ends with "<br>summary:". */
  lemma RootShape(m: Metadata)
    ensures var r := ToMarkdownTop(m);
            var url := Url(m.link);
            && |r| >= 22 + |url|
            && r[..10 + |url|] == "input: <a>" + url
            && r[|r| - 12..] == "<br>summary:"
  {
    var url := Url(m.link);
    var args := [url, IntToString(m.maxDepth), m.sourceLanguage, m.targetLanguage];
    var r := ToMarkdownTop(m);
    var rest := Format(RootTemplate[1..], args[1..]);
    var head := "input: <a>" + url;
    assert r == head + rest;
    Split(head, rest);
    FormatEnds(RootTemplate[1..], args[1..]);
    var last := "\n<br>summary:";
    assert |rest| >= 13 && rest[|rest| - 13..] == last;
    SuffixOf(head, rest, 12);
    assert rest[|rest| - 12..] == rest[|rest| - 13..][1..] == last[1..];
  }

  /** Away from the root, the header is exactly the link's own nested rendering. */
  lemma NestedIsLink(m: Metadata, nestingLevel: int)
    requires nestingLevel != 0
    ensures ToMarkdown(m, nestingLevel) == Links.ToMarkdown(m.link, nestingLevel)
    ensures !IsBlank(ToMarkdown(m, nestingLevel))
  {
    var r := ToMarkdown(m, nestingLevel);
    FormatTwo(if m.link.isBroken then BrokenMarkdownTemplate else MarkdownTemplate,
              AsciiArrow.Arrow(nestingLevel), Url(m.link));
    assert r[0] == '<';
  }

  /** The header is never blank, so the report always keeps it. */
  lemma NeverBlank(m: Metadata, nestingLevel: int)
    ensures !IsBlank(ToMarkdown(m, nestingLevel))
  {
    if nestingLevel == 0 {
      RootShape(m);
      assert ToMarkdown(m, 0)[0] == 'i';
    } else {
      NestedIsLink(m, nestingLevel);
    }
  }
}
