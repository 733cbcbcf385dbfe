/**
 * The Markdown report of a page: `WebPage.toMarkdown` with its section
 * helpers, and `State.toMarkdown` as each state class implements it.
 */
module Rendering {
  import opened Strings
  import opened Wrappers
  import Headings
  import Links
  import AsciiArrow
  import MetadataHeader
  import States
  import opened Crawl

  /** `String.valueOf` of a language field: Java's null prints as "null". */
  function OrNull(s: Option<string>): string {
    match s
    case None => "null"
    case Some(v) => v
  }

  /** `metadataToMarkdown`: the header built from the page's link, `maxDepth` and languages, at the page's depth. */
  function MetadataSection(link: Links.Link, depth: int, maxDepth: int, source: Option<string>, target: Option<string>): string {
    MetadataHeader.ToMarkdown(MetadataHeader.Metadata(link, maxDepth, OrNull(source), OrNull(target)), depth)
  }

  /** `headingsToMarkdown`: each heading at the page's depth, empty ones dropped, one per line. */
  function HeadingsSection(hs: seq<Headings.Heading>, depth: int): string {
    Join(NonEmpty(seq(|hs|, i requires 0 <= i < |hs| => Headings.ToMarkdown(hs[i], depth))), "\n")
  }

  /** `brokenLinksToMarkdown`: each broken link one level deeper than the page, one per line. */
  function BrokenSection(ls: seq<Links.Link>, depth: int): string {
    Join(NonEmpty(seq(|ls|, i requires 0 <= i < |ls| => Links.ToMarkdown(ls[i], depth + 1))), "\n")
  }

  const ChildDelimiter: string := "\n\n<br>\n\n"
  const SectionDelimiter: string := "\n\n"

  /** `toMarkdown`: the non-blank sections, in order, separated by a blank line. */
  function Assemble(metadata: string, headings: string, broken: string, children: string): string {
    Join(NonBlank([metadata, headings, broken, children]), SectionDelimiter)
  }

  /**
   * `WebPage.toMarkdown()` of a page tree. A child is rendered with
   * `toMarkdown(depth + 1)`, which ignores its argument, so every page
   * renders its own header at its own depth.
   */
  function PageMarkdown(t: PageTree): string
    decreases t, 2
  {
    Assemble(
      MetadataSection(t.link, t.depth, t.maxDepth, t.sourceLanguage, t.targetLanguage),
      HeadingsSection(t.headings, t.depth),
      BrokenSection(t.brokenLinks, t.depth),
      ChildrenSection(t))
  }

  /** `childrenToMarkdown`: the children's reports, empty ones dropped, separated by "<br>" between blank lines. */
  function ChildrenSection(t: PageTree): string
    decreases t, 1
  {
    Join(NonEmpty(ChildReports(t, |t.children|)), ChildDelimiter)
  }

  /** The reports of the first `k` children, in child order. */
  function ChildReports(t: PageTree, k: nat): (r: seq<string>)
    requires k <= |t.children|
    decreases t, 0, k
    ensures |r| == k
  {
    if k == 0 then [] else ChildReports(t, k - 1) + [PageMarkdown(t.children[k - 1])]
  }

  /**
   * `State.toMarkdown` as the page's state implements it: the
   * four-section report, except in Fetched, whose sections are
   * placeholders.
   */
  function StateMarkdown(t: PageTree): string {
    var metadata := MetadataSection(t.link, t.depth, t.maxDepth, t.sourceLanguage, t.targetLanguage);
    if t.state == States.Fetched then Assemble(metadata, "UNKNOWN", "UNKNOWN", "UNKNOWN")
    else PageMarkdown(t)
  }

  // ---------------------------------------------------------------------
  // Properties
  // ---------------------------------------------------------------------

  /** A joined sequence starts with its first part. */
  lemma JoinStarts(parts: seq<string>, delimiter: string)
    requires |parts| > 0
    ensures |Join(parts, delimiter)| >= |parts[0]|
    ensures Join(parts, delimiter)[..|parts[0]|] == parts[0]
  {
    if |parts| > 1 {
      var rest := Join(parts[1..], delimiter);
      assert Join(parts, delimiter) == parts[0] + (delimiter + rest);
    }
  }

  /** Four parts joined: each delimiter sits between two neighbours. */
  lemma JoinFour(a: string, b: string, c: string, e: string, d: string)
    ensures Join([a, b, c, e], d) == a + d + b + d + c + d + e
  {
    assert [a, b, c, e][1..] == [b, c, e] && [b, c, e][1..] == [c, e] && [c, e][1..] == [e];
    assert Join([c, e], d) == (c + d) + e;
    assert Join([b, c, e], d) == (b + d) + ((c + d) + e);
    assert Join([a, b, c, e], d) == (a + d) + ((b + d) + ((c + d) + e));
    Assoc(a + d, b + d, (c + d) + e);
    Assoc(a + d, b, d);
    var p := a + d + b + d;
    Assoc(p, c + d, e);
    Assoc(p, c, d);
  }

  /** Dropping empty strings from strings that are all non-empty drops nothing. */
  lemma {:induction false} NonEmptyKeepsAll(parts: seq<string>)
    requires forall i :: 0 <= i < |parts| ==> parts[i] != ""
    ensures NonEmpty(parts) == parts
  {
    if |parts| > 0 {
      NonEmptyKeepsAll(parts[1..]);
      assert [parts[0]] + parts[1..] == parts;
    }
  }

  /** The header is never blank, so it always heads the report. */
  lemma MetadataFirst(metadata: string, headings: string, broken: string, children: string)
    requires !IsBlank(metadata)
    ensures |Assemble(metadata, headings, broken, children)| >= |metadata|
    ensures Assemble(metadata, headings, broken, children)[..|metadata|] == metadata
  {
    var parts := [metadata, headings, broken, children];
    assert NonBlank(parts) == [metadata] + NonBlank(parts[1..]);
    JoinStarts(NonBlank(parts), SectionDelimiter);
  }

  /** Every report, in every state, starts with the page's header. */
  lemma ReportStartsWithMetadata(t: PageTree)
    ensures var metadata := MetadataSection(t.link, t.depth, t.maxDepth, t.sourceLanguage, t.targetLanguage);
            && |PageMarkdown(t)| >= |metadata| && PageMarkdown(t)[..|metadata|] == metadata
            && |StateMarkdown(t)| >= |metadata| && StateMarkdown(t)[..|metadata|] == metadata
  {
    var m := MetadataHeader.Metadata(t.link, t.maxDepth, OrNull(t.sourceLanguage), OrNull(t.targetLanguage));
    MetadataHeader.NeverBlank(m, t.depth);
    var metadata := MetadataSection(t.link, t.depth, t.maxDepth, t.sourceLanguage, t.targetLanguage);
    MetadataFirst(metadata, HeadingsSection(t.headings, t.depth), BrokenSection(t.brokenLinks, t.depth), ChildrenSection(t));
    MetadataFirst(metadata, "UNKNOWN", "UNKNOWN", "UNKNOWN");
  }

  /** A language field that was never set renders as "null" in the root header. */
  lemma UnsetLanguagePrintsNull(t: PageTree)
    requires t.depth == 0 && t.sourceLanguage.None? && t.targetLanguage.None?
    ensures MetadataSection(t.link, t.depth, t.maxDepth, t.sourceLanguage, t.targetLanguage)
            == "input: <a>" + Links.Url(t.link) + "</a>\n<br>max depth: " + IntToString(t.maxDepth)
               + "\n<br>source language: " + "null" + "\n<br>target language: " + "null" + "\n<br>summary:"
  {
    MetadataHeader.RootText(MetadataHeader.Metadata(t.link, t.maxDepth, "null", "null"));
  }

  /** No heading renders empty: each line of the headings section is one heading, in order. */
  lemma HeadingsNoneDropped(hs: seq<Headings.Heading>, depth: int)
    ensures HeadingsSection(hs, depth)
            == Join(seq(|hs|, i requires 0 <= i < |hs| => Headings.ToMarkdown(hs[i], depth)), "\n")
    ensures HeadingsSection(hs, depth) == "" <==> hs == []
  {
    var items := seq(|hs|, i requires 0 <= i < |hs| => Headings.ToMarkdown(hs[i], depth));
    forall i | 0 <= i < |hs|
      ensures items[i] != ""
    {
      Headings.LevelMarkdownShape(hs[i].level, depth);
    }
    NonEmptyKeepsAll(items);
    if hs != [] {
      JoinStarts(items, "\n");
    }
  }

  /** No link renders empty: each line of the broken-links section is one link, one level deeper. */
  lemma BrokenNoneDropped(ls: seq<Links.Link>, depth: int)
    ensures BrokenSection(ls, depth)
            == Join(seq(|ls|, i requires 0 <= i < |ls| => Links.ToMarkdown(ls[i], depth + 1)), "\n")
    ensures BrokenSection(ls, depth) == "" <==> ls == []
  {
    var items := seq(|ls|, i requires 0 <= i < |ls| => Links.ToMarkdown(ls[i], depth + 1));
    forall i | 0 <= i < |ls|
      ensures items[i] != ""
    {
      Links.MarkdownShape(ls[i], depth + 1);
    }
    NonEmptyKeepsAll(items);
    if ls != [] {
      JoinStarts(items, "\n");
    }
  }

  /** No child report is empty: the children section has one report per child, in order. */
  lemma ChildrenNoneDropped(t: PageTree)
    ensures ChildrenSection(t) == Join(ChildReports(t, |t.children|), ChildDelimiter)
    ensures ChildrenSection(t) == "" <==> t.children == []
  {
    var items := ChildReports(t, |t.children|);
    forall i | 0 <= i < |t.children|
      ensures items[i] != ""
    {
      ChildReportAt(t, |t.children|, i);
      var c := t.children[i];
      ReportStartsWithMetadata(c);
      var m := MetadataHeader.Metadata(c.link, c.maxDepth, OrNull(c.sourceLanguage), OrNull(c.targetLanguage));
      MetadataHeader.NeverBlank(m, c.depth);
    }
    NonEmptyKeepsAll(items);
    if t.children != [] {
      JoinStarts(items, ChildDelimiter);
    }
  }

  /** Report i of the list is child i's own report. */
  lemma {:induction false} ChildReportAt(t: PageTree, k: nat, i: nat)
    requires i < k <= |t.children|
    ensures ChildReports(t, k)[i] == PageMarkdown(t.children[i])
    decreases k
  {
    if i < k - 1 {
      ChildReportAt(t, k - 1, i);
    }
  }

  /** A page with no headings, no broken links and no children renders as its header alone. */
  lemma BarePageIsHeader(t: PageTree)
    requires t.headings == [] && t.brokenLinks == [] && t.children == []
    ensures PageMarkdown(t) == MetadataSection(t.link, t.depth, t.maxDepth, t.sourceLanguage, t.targetLanguage)
  {
    var metadata := MetadataSection(t.link, t.depth, t.maxDepth, t.sourceLanguage, t.targetLanguage);
    var m := MetadataHeader.Metadata(t.link, t.maxDepth, OrNull(t.sourceLanguage), OrNull(t.targetLanguage));
    MetadataHeader.NeverBlank(m, t.depth);
    HeadingsNoneDropped(t.headings, t.depth);
    BrokenNoneDropped(t.brokenLinks, t.depth);
    ChildrenNoneDropped(t);
    var parts := [metadata, "", "", ""];
    assert NonBlank(parts[3..]) == [];
    assert NonBlank(parts[2..]) == [];
    assert NonBlank(parts[1..]) == [];
    assert NonBlank(parts) == [metadata];
  }

  /** Sections that are present appear, in order, separated by exactly one blank line. */
  lemma FullReport(t: PageTree)
    requires t.headings != [] && t.brokenLinks != [] && t.children != []
    ensures PageMarkdown(t)
            == MetadataSection(t.link, t.depth, t.maxDepth, t.sourceLanguage, t.targetLanguage) + SectionDelimiter
               + HeadingsSection(t.headings, t.depth) + SectionDelimiter
               + BrokenSection(t.brokenLinks, t.depth) + SectionDelimiter
               + ChildrenSection(t)
  {
    var metadata := MetadataSection(t.link, t.depth, t.maxDepth, t.sourceLanguage, t.targetLanguage);
    var hs := HeadingsSection(t.headings, t.depth);
    var bs := BrokenSection(t.brokenLinks, t.depth);
    var cs := ChildrenSection(t);
    var m := MetadataHeader.Metadata(t.link, t.maxDepth, OrNull(t.sourceLanguage), OrNull(t.targetLanguage));
    MetadataHeader.NeverBlank(m, t.depth);
    HeadingsNotBlank(t.headings, t.depth);
    BrokenNotBlank(t.brokenLinks, t.depth);
    ChildrenNotBlank(t);
    var parts := [metadata, hs, bs, cs];
    assert NonBlank(parts[3..]) == [cs];
    assert NonBlank(parts[2..]) == [bs, cs];
    assert NonBlank(parts[1..]) == [hs, bs, cs];
    assert NonBlank(parts) == [metadata, hs, bs, cs];
    JoinFour(metadata, hs, bs, cs, SectionDelimiter);
  }

  /** A non-empty headings section starts with '#', so it is not blank. */
  lemma HeadingsNotBlank(hs: seq<Headings.Heading>, depth: int)
    requires hs != []
    ensures !IsBlank(HeadingsSection(hs, depth))
  {
    var items := seq(|hs|, i requires 0 <= i < |hs| => Headings.ToMarkdown(hs[i], depth));
    HeadingsNoneDropped(hs, depth);
    JoinStarts(items, "\n");
    Headings.LevelMarkdownShape(hs[0].level, depth);
    assert HeadingsSection(hs, depth)[0] == items[0][0] == '#';
  }

  /** A non-empty broken-links section starts with "<br>", so it is not blank. */
  lemma BrokenNotBlank(ls: seq<Links.Link>, depth: int)
    requires ls != []
    ensures !IsBlank(BrokenSection(ls, depth))
  {
    var items := seq(|ls|, i requires 0 <= i < |ls| => Links.ToMarkdown(ls[i], depth + 1));
    BrokenNoneDropped(ls, depth);
    JoinStarts(items, "\n");
    Links.MarkdownShape(ls[0], depth + 1);
    assert items[0][..4 + |AsciiArrow.Arrow(depth + 1)|][0] == '<';
    assert BrokenSection(ls, depth)[0] == items[0][0] == '<';
  }

  /** A non-empty children section starts with the first child's header, so it is not blank. */
  lemma ChildrenNotBlank(t: PageTree)
    requires t.children != []
    ensures !IsBlank(ChildrenSection(t))
  {
    var items := ChildReports(t, |t.children|);
    ChildrenNoneDropped(t);
    JoinStarts(items, ChildDelimiter);
    ChildReportAt(t, |t.children|, 0);
    var c := t.children[0];
    ReportStartsWithMetadata(c);
    var metadata := MetadataSection(c.link, c.depth, c.maxDepth, c.sourceLanguage, c.targetLanguage);
    var m := MetadataHeader.Metadata(c.link, c.maxDepth, OrNull(c.sourceLanguage), OrNull(c.targetLanguage));
    MetadataHeader.NeverBlank(m, c.depth);
    var j :| 0 <= j < |metadata| && !IsWhitespace(metadata[j]);
    assert ChildrenSection(t)[j] == items[0][j] == metadata[j];
  }

  /**
   * In Fetched the report is the header and three "UNKNOWN" placeholders:
   * it does not depend on the page's headings, links or children.
   */
  lemma FetchedPlaceholders(t: PageTree)
    requires t.state == States.Fetched
    ensures StateMarkdown(t)
            == MetadataSection(t.link, t.depth, t.maxDepth, t.sourceLanguage, t.targetLanguage)
               + SectionDelimiter + "UNKNOWN" + SectionDelimiter + "UNKNOWN" + SectionDelimiter + "UNKNOWN"
  {
    var metadata := MetadataSection(t.link, t.depth, t.maxDepth, t.sourceLanguage, t.targetLanguage);
    var m := MetadataHeader.Metadata(t.link, t.maxDepth, OrNull(t.sourceLanguage), OrNull(t.targetLanguage));
    MetadataHeader.NeverBlank(m, t.depth);
    var u := "UNKNOWN";
    assert !IsBlank(u) by { assert !IsWhitespace(u[0]); }
    var parts := [metadata, u, u, u];
    assert NonBlank(parts[3..]) == [u];
    assert NonBlank(parts[2..]) == [u, u];
    assert NonBlank(parts[1..]) == [u, u, u];
    assert NonBlank(parts) == [metadata, u, u, u];
    JoinFour(metadata, u, u, u, SectionDelimiter);
  }
}
