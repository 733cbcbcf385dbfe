# webcrawler in Dafny

A model of the core of the `webcrawler` Java program. The crawler starts at one
URL and loads it through a document provider. It collects the page's headings
and links, then crawls each link it has not seen before, down to a maximum
depth. A link whose page cannot be loaded is recorded as broken. All headings of
the tree can then be translated in one batch through the DeepL service, and the
tree is rendered as Markdown.

The modules follow the Java packages:

- `WebPages` holds the `WebPage` class: its fields are the Java fields, and
  the seen-set shared by every page of one crawl is the class `SeenLinks`.
  Every method keeps the invariant `Valid()`, in which each child is a
  separate `WebPage` with its own footprint. Every method is proved to move a
  ghost `tree` (a `Crawl.PageTree`) exactly as the matching pure function of
  `Crawl` does. `analyzeChildren` stays a loop with its invariant, and so does
  the `forEach` of `subdivideHeadings`.
- `Crawl` states the crawl on values: `Analyze`, `AnalyzeDocument`,
  `ExpandChildren`, `Aggregate`, `Subdivide` and `Translate`.
  `CrawlAnalysis` and `CrawlHeadings` prove what they promise:
  - every link is accounted for once, as a child or as a broken copy;
  - no link is loaded twice in one crawl;
  - the translated headings go back to the pages they came from.
- `States` is the state pattern (`InitializedState`, `FetchedState`,
  `AnalyzedState`, `TranslatedState`) as one table from state and operation
  to what that state's method does.
- `Rendering` is the Markdown report of a page tree (`toMarkdown` of
  `WebPage` and `State`).
- The value types have one module each: `Links` (`Link`), `Headings`
  (`Heading`, `Heading.Level`), `MetadataHeader` (`Metadata`),
  `AsciiArrow`, `Languages` (`Language`), `Translator` (the `Translator`
  interface) and `DeepL` (the pure parts of `DeepLTranslator`).
- `Strings` and `Wrappers` hold the string helpers and `Option`/`Result`.

Exceptions become `Result`/`Option` values, and Java's `null` becomes `None`.
The document provider is a function `string -> Option<Document>`. The
translator is a function from the texts to a result or the exception message.
The HTTP exchange of DeepL is a function from the texts to a status code and a
decoded body.

The repository's tests (`src/test/java/com/github/webcrawler/webpage/StateTest.java`)
are written against a `WebPage` with `fetch`, `tryFetch`, `getState` and a
failure log, which `WebPage.java` does not have. Where the code and those tests
disagree, the model follows the code:

- `sourceLanguage` and `targetLanguage` start unset, so the header prints
  `null` (`Rendering.UnsetLanguagePrintsNull`). StateTest.java:56-57 expects
  `UNKNOWN`.
- `InitializedState.analyze` loads the document itself and goes straight to
  Analyzed. StateTest.java:68-78 and StateTest.java:147-160 call `fetch()`
  before `analyze()`, and StateTest.java:91-96 expects `analyze` to throw in
  Initialized.
- No operation moves a page into Fetched. `fetch` is declared abstract on
  `State`, and `FetchedState` is its only implementation, which throws.
  In the model, `fetch` in any other state is `Unimplemented`.
- `WebPage.toMarkdown` renders the four sections whatever the state is.
  StateTest.java:59-65 expects a "Webpage not fetched nor analyzed." marker
  and a list of logged exceptions, and StateTest.java:143 expects "Webpage not
  analyzed.". `FetchedState.toMarkdown` prints `UNKNOWN` for the three sections
  after the header (`Rendering.FetchedPlaceholders`).
- When the translator returns fewer texts than there are headings,
  `translatedTexts.get(i)` throws `IndexOutOfBoundsException`
  (AnalyzedState.java:29-32). The model returns `IndexOutOfBounds`
  (`CrawlHeadings.TranslateOutcome`). Extra texts are silently ignored:
  `Crawl.Rebuild` reads only as many texts as there are headings.

## Model

| member | source | states |
|---|---|---|
| AsciiArrow.ArrowWith | src/main/java/com/github/webcrawler/webpage/util/AsciiArrow.java:29-35 | a level of 0 or less gives the empty string; otherwise level × multiplier dashes followed by one `>` |
| AsciiArrow.ArrowDefaultShape | src/main/java/com/github/webcrawler/webpage/util/AsciiArrow.java:10-35 | with the default multiplier 2 a positive level n gives 2n+1 characters; level 3 gives `------>` |
| AsciiArrow.ArrowMonotone | src/main/java/com/github/webcrawler/webpage/util/AsciiArrow.java:29-35 | a deeper positive level never gives a shorter arrow |
| Headings.ValueOf | src/main/java/com/github/webcrawler/webpage/component/Heading.java:15-31 | `Level.valueOf` finds the constant whose name is exactly the string, and fails when none has it |
| Headings.LevelFromString | src/main/java/com/github/webcrawler/webpage/component/Heading.java:29-31 | `fromString` finds the level whose name equals the upper-cased input, and fails when there is none |
| Headings.NameIsUpperWord | src/main/java/com/github/webcrawler/webpage/component/Heading.java:15-21 | every level name is one capital letter followed by one digit |
| Headings.LevelFromStringIff | src/main/java/com/github/webcrawler/webpage/component/Heading.java:29-31 | `fromString(s)` is level l exactly when upper-casing s gives l's name |
| Headings.LevelFromStringRejects | src/test/java/com/github/webcrawler/webpage/component/HeadingTest.java:19-38 | "H7" and "h13" are rejected and "h2" gives H2 |
| Headings.LevelRoundTrip | src/main/java/com/github/webcrawler/webpage/component/Heading.java:29-37 | `fromString(toString(l))` is l for every level |
| Headings.LevelMarkdownShape | src/main/java/com/github/webcrawler/webpage/component/Heading.java:56-58 | ordinal+1 hashes, a space, then the arrow; H1 at 3 gives `# ------>` and H6 at 4 gives `###### -------->` |
| Headings.HeadingEquality | src/main/java/com/github/webcrawler/webpage/component/Heading.java:87-94 | two headings are equal exactly when their levels and texts are |
| Links.NewLink | src/main/java/com/github/webcrawler/webpage/component/Link.java:40-46 | the constructor succeeds exactly when the scheme is one the Java runtime accepts in a `scheme://` URL, and keeps all four fields; otherwise it fails (the error carries the URL, not the parser's message) |
| Links.NewUnbrokenLink | src/main/java/com/github/webcrawler/webpage/component/Link.java:36-38 | the three-argument constructor gives an unbroken link with the same URL, under the same validity condition |
| Links.SchemeExamples | src/main/java/com/github/webcrawler/webpage/component/Link.java:40-46 | the scheme's case does not matter; `mailto` is accepted, while `jar` and an unknown protocol throw |
| Links.BrokenCopy | src/main/java/com/github/webcrawler/webpage/WebPage.java:153 | the recorded copy is broken and has the same URL |
| Links.BrokenCopyDistinct | src/main/java/com/github/webcrawler/webpage/component/Link.java:94-104 | since equality includes `isBroken`, the broken copy of an unbroken link differs from it |
| Links.BrokenCopyConstructible | src/main/java/com/github/webcrawler/webpage/WebPage.java:153 | building the broken copy through the validating constructor cannot throw for a link that was valid |
| Links.MarkdownShape | src/main/java/com/github/webcrawler/webpage/component/Link.java:80-86 | `<br>` and the arrow come first, then " broken link " exactly when the link is broken and " link to <a>" when it is not, and the URL in an anchor ends the line |
| MetadataHeader.RootText | src/main/java/com/github/webcrawler/webpage/component/Metadata.java:15-46 | at level 0 the header is the template filled in order with the URL, the maximum depth and the two languages |
| MetadataHeader.RootShape | src/main/java/com/github/webcrawler/webpage/component/Metadata.java:40-46 | the root header starts with `input: <a>` and the URL and ends with `<br>summary:` |
| MetadataHeader.NestedIsLink | src/main/java/com/github/webcrawler/webpage/component/Metadata.java:40-46 | at a non-zero level the header is the link's own Markdown, which is not blank |
| MetadataHeader.NeverBlank | src/main/java/com/github/webcrawler/webpage/component/Metadata.java:40-46 | the header is never blank, so `toMarkdown` never filters it out |
| States.TransitionsMoveForward | src/main/java/com/github/webcrawler/webpage/InitializedState.java:12-31 | every transition moves strictly forward and never into Initialized or Fetched; `analyze` leads only to Analyzed and `translate` only from Analyzed to Translated |
| States.TranslatedIsTerminal | src/main/java/com/github/webcrawler/webpage/TranslatedState.java:12-19 | in Translated both operations throw, with "already analyzed" and "already translated" |
| States.Implemented | src/main/java/com/github/webcrawler/webpage/State.java:18-22 | `analyze` and `translate` exist in every state; `fetch` exists only in Fetched |
| States.TranslateOnlyFromAnalyzed | src/main/java/com/github/webcrawler/webpage/AnalyzedState.java:16-40 | `translate` proceeds from Analyzed and from no other state; `analyze` proceeds exactly from the states before Analyzed |
| Languages.ValueOf | src/main/java/com/github/webcrawler/translator/Language.java:51 | `valueOf` returns only a constant whose name is exactly the string |
| Languages.TagOwnerInverts | src/main/java/com/github/webcrawler/translator/Language.java:5-28 | each constant's tag decodes back to that constant |
| Languages.ValueOfInverts | src/main/java/com/github/webcrawler/translator/Language.java:51 | `valueOf(name())` is the constant itself |
| Languages.NameUpper | src/main/java/com/github/webcrawler/translator/Language.java:5-28 | every name is a word of at least five capital letters |
| Languages.TagShape | src/main/java/com/github/webcrawler/translator/Language.java:5-28 | every tag is two capital letters |
| Languages.AllComplete | src/main/java/com/github/webcrawler/translator/Language.java:45 | the list that `values()` stands for holds every constant |
| Languages.FindByTag | src/main/java/com/github/webcrawler/translator/Language.java:45-49 | the loop returns a constant from the list with that tag, or reports that none has it |
| Languages.TagInjective | src/main/java/com/github/webcrawler/translator/Language.java:5-28 | no two constants share a tag, so the tag loop's answer is unique |
| Languages.FromStringSpec | src/main/java/com/github/webcrawler/translator/Language.java:42-52 | `fromString` ignores case, tries tags before names, and fails exactly when neither a tag nor a name matches |
| Languages.RoundTrips | src/main/java/com/github/webcrawler/translator/Language.java:42-58 | both the tag and the lower-case `toString` of a constant parse back to it |
| DeepL.NewDeepLTranslator | src/main/java/com/github/webcrawler/translator/DeepLTranslator.java:26-47 | construction succeeds exactly when the target language parses; it keeps the key and picks the Pro URL exactly when `isPro` holds |
| DeepL.FromCode | src/main/java/com/github/webcrawler/translator/DeepLTranslator.java:197-209 | a code outside the documented set maps to INTERNAL_ERROR; any other result is an error that lists the code |
| DeepL.FromCodeInverse | src/main/java/com/github/webcrawler/translator/DeepLTranslator.java:197-209 | a specific error is returned exactly for its own codes (429 and 529 both give TOO_MANY_REQUESTS) |
| DeepL.ElementWithHighestOccurrence | src/main/java/com/github/webcrawler/translator/DeepLTranslator.java:105-113 | the result occurs in the collection, and no element occurs more often |
| DeepL.ModeOfConstant | src/main/java/com/github/webcrawler/translator/DeepLTranslator.java:105-113 | in a collection of one repeated element, that element is the most frequent |
| DeepL.FromLanguageAndTexts | src/main/java/com/github/webcrawler/translator/DeepLTranslator.java:67-73 | one entry per text, in order, each carrying the language's tag |
| DeepL.SourceLanguagesOf | src/main/java/com/github/webcrawler/translator/DeepLTranslator.java:93-98 | the detected languages in order, each parsed by `fromString`; the whole call fails exactly when one of them does not parse |
| DeepL.GetTranslatedTexts | src/main/java/com/github/webcrawler/translator/DeepLTranslator.java:129-131 | the texts of the entries, in order |
| DeepL.GetDominantSourceLanguage | src/main/java/com/github/webcrawler/translator/DeepLTranslator.java:120-122 | the most frequent detected language; it fails exactly when there are no entries or a language does not parse |
| DeepL.FromLanguageAndTextsRoundTrip | src/main/java/com/github/webcrawler/translator/DeepLTranslator.java:67-131 | an echoed body gives back the texts, and its dominant language is the one it was built with |
| DeepL.SourceLanguagesOfOneTag | src/main/java/com/github/webcrawler/translator/DeepLTranslator.java:93-98 | entries that all carry one language's tag parse to that language everywhere |
| DeepL.Translate | src/main/java/com/github/webcrawler/translator/DeepLTranslator.java:261-272 | a successful result names the translator's target language |
| DeepL.EmptyShortCircuit | src/main/java/com/github/webcrawler/translator/DeepLTranslator.java:262-263 | an empty input gives (target, target, []) whatever the service would answer |
| DeepL.TranslateReply | src/main/java/com/github/webcrawler/translator/DeepLTranslator.java:227-272 | a non-2xx status fails with the error for its code; success carries the body's texts and its dominant source language |
| DeepL.UndeclaredFailures | src/main/java/com/github/webcrawler/translator/DeepLTranslator.java:93-272 | a failure is the declared `TranslationException` exactly when the transport failed or the status is not 2xx; a 2xx reply fails with a malformed body first, then an unknown detected language, then no translations |
| DeepL.EchoReply | src/main/java/com/github/webcrawler/translator/DeepLTranslator.java:261-272 | a 200 reply that echoes the texts in one language gives exactly (that language, target, texts) |
| Crawl.AddIfAbsent | src/main/java/com/github/webcrawler/webpage/WebPage.java:28-31 | `LinkedHashSet.add`: the members are the old ones plus x; the old order is kept as a prefix and no duplicate appears |
| Crawl.AddAll | src/main/java/com/github/webcrawler/webpage/WebPage.java:135 | `addAll`: the members are the union; the old order is kept as a prefix and no duplicate appears |
| Crawl.RemoveAll | src/main/java/com/github/webcrawler/webpage/WebPage.java:133 | `removeAll`: exactly the elements not in the seen-set remain; their order and repeats are fixed by CrawlAnalysis.RemoveAllAppend |
| Crawl.SubdivideChildren | src/main/java/com/github/webcrawler/webpage/WebPage.java:173 | the children after the first k are untouched, and their number is kept |
| Crawl.Texts | src/main/java/com/github/webcrawler/webpage/AnalyzedState.java:24 | the texts of the headings, in order |
| Crawl.Rebuild | src/main/java/com/github/webcrawler/webpage/AnalyzedState.java:29-32 | heading i keeps its level and takes translated text i |
| CrawlAnalysis.AnalyzeOutcome | src/main/java/com/github/webcrawler/webpage/InitializedState.java:13-25 | a fresh page fails to analyze exactly when its own location cannot be loaded; otherwise it is Analyzed, keeps its link and depths, holds the document's headings and loads its own link first |
| CrawlAnalysis.AnalyzeRejects | src/main/java/com/github/webcrawler/webpage/AnalyzedState.java:17-19 | `analyze` on an Analyzed or Translated page throws "Webpage is already analyzed." |
| CrawlAnalysis.ExtractionOutcome | src/main/java/com/github/webcrawler/webpage/WebPage.java:127-141 | the found links are the document's unseen links without duplicates; the page's link and links join the seen-set; the headings are appended and nothing else changes; at the depth bound nothing is crawled |
| CrawlAnalysis.ExpandUnfold | src/main/java/com/github/webcrawler/webpage/WebPage.java:147-155 | one loop step analyzes a fresh child one level down on the seen-set so far, then adopts it or records the link as broken |
| CrawlAnalysis.AdoptKeeps | src/main/java/com/github/webcrawler/webpage/WebPage.java:148-154 | a step changes only the children and the broken links, and the seen-set only grows |
| CrawlAnalysis.ExpandKeepsPage | src/main/java/com/github/webcrawler/webpage/WebPage.java:143-156 | crawling the children changes nothing of the page but its children and broken links, and only grows the seen-set |
| CrawlAnalysis.SeenGrows | src/main/java/com/github/webcrawler/webpage/WebPage.java:138-141 | analysis never removes a link from the shared seen-set |
| CrawlAnalysis.DocumentSeenGrows | src/main/java/com/github/webcrawler/webpage/WebPage.java:138-141 | the extraction and crawl of a loaded page never remove a link from the seen-set |
| CrawlAnalysis.LoadsOnce | src/main/java/com/github/webcrawler/webpage/WebPage.java:131-156 | a crawl loads its own link first and no link twice (links compared as `Link.equals` does); every later load was unseen before and is seen afterwards |
| CrawlAnalysis.DocumentLoadsOnce | src/main/java/com/github/webcrawler/webpage/WebPage.java:131-156 | below a loaded page every load was unseen before, is seen afterwards and happens once |
| CrawlAnalysis.ExpandLoadsOnce | src/main/java/com/github/webcrawler/webpage/WebPage.java:143-156 | over the first n links, every load is distinct, seen afterwards, and either one of those links or unseen before |
| CrawlAnalysis.ExpandAccounts | src/main/java/com/github/webcrawler/webpage/WebPage.java:143-156 | each link becomes an Analyzed child one level down with the same maximum depth, or a distinct broken copy; for duplicate-free links that are not yet broken, as `JsoupDocument.getLinks` builds them through `Link.fromString`, |children| + |brokenLinks| equals the number of links |
| CrawlAnalysis.ExpandCovers | src/main/java/com/github/webcrawler/webpage/WebPage.java:147-155 | after the loop every link is a child's link or has its broken copy recorded |
| CrawlAnalysis.AddAllIsFirstOccurrences | src/main/java/com/github/webcrawler/webpage/WebPage.java:135 | adding a list to an empty insertion-ordered set keeps the first occurrence of each element, in order |
| CrawlAnalysis.RemoveAllAppend | src/main/java/com/github/webcrawler/webpage/WebPage.java:133 | `removeAll` filters each part of a concatenation separately, so the surviving elements keep their order and their repeats |
| CrawlAnalysis.RemoveAllSingle | src/main/java/com/github/webcrawler/webpage/WebPage.java:133 | one element survives `removeAll` exactly when it is not in the seen-set |
| CrawlAnalysis.ExtractLinksSpec | src/main/java/com/github/webcrawler/webpage/WebPage.java:131-136 | the links of a fresh page are the first occurrences of the document's unseen links |
| CrawlHeadings.SubdivideOfAggregateIsIdentity | src/main/java/com/github/webcrawler/webpage/WebPage.java:158-174 | handing a tree its own aggregated headings gives the same tree back and uses up the list |
| CrawlHeadings.SubdivideRedistributes | src/main/java/com/github/webcrawler/webpage/WebPage.java:165-174 | with at least as many entries as the tree has headings, subdivision succeeds, keeps the shape, puts the first entries back in aggregation order, and leaves the remainder |
| CrawlHeadings.SubdivideChildrenRedistributes | src/main/java/com/github/webcrawler/webpage/WebPage.java:173 | the same for the first k children, in order |
| CrawlHeadings.SubdivideChildrenStops | src/main/java/com/github/webcrawler/webpage/WebPage.java:173 | once a child throws, the later children are not visited |
| CrawlHeadings.SubdivideShortFails | src/main/java/com/github/webcrawler/webpage/WebPage.java:171 | a list shorter than the tree's headings makes `remove(0)` throw somewhere in the tree |
| CrawlHeadings.SubdivideChildrenShortFails | src/main/java/com/github/webcrawler/webpage/WebPage.java:173 | the same for the first k children |
| CrawlHeadings.TranslateRejects | src/main/java/com/github/webcrawler/webpage/TranslatedState.java:17-19 | `translate` outside Analyzed throws "already translated" from Translated and "has to be analyzed" otherwise |
| CrawlHeadings.TranslateAsksOnce | src/main/java/com/github/webcrawler/webpage/AnalyzedState.java:26 | the outcome depends on the translator only through its answer for the tree's heading texts |
| CrawlHeadings.TranslateOutcome | src/main/java/com/github/webcrawler/webpage/AnalyzedState.java:22-40 | a translator error propagates and a short answer is an index error; otherwise the tree is Translated, carries the two languages, keeps its shape, and heading i keeps its level and takes text i |
| Rendering.MetadataFirst | src/main/java/com/github/webcrawler/webpage/WebPage.java:87-89 | a report whose header is not blank starts with the header |
| Rendering.ReportStartsWithMetadata | src/main/java/com/github/webcrawler/webpage/WebPage.java:80-90 | every page's report, in every state, starts with its header |
| Rendering.UnsetLanguagePrintsNull | src/main/java/com/github/webcrawler/webpage/WebPage.java:196-200 | a root page whose languages were never set prints `null` for both |
| Rendering.HeadingsNoneDropped | src/main/java/com/github/webcrawler/webpage/WebPage.java:176-186 | the empty-string filter drops no heading; the section is empty exactly when there are no headings |
| Rendering.BrokenNoneDropped | src/main/java/com/github/webcrawler/webpage/WebPage.java:188-190 | the filter drops no broken link, each rendered one level down; the section is empty exactly when there are none |
| Rendering.ChildrenNoneDropped | src/main/java/com/github/webcrawler/webpage/WebPage.java:192-194 | the children's reports are joined with `<br>` delimiters and none is dropped; the section is empty exactly when there are no children |
| Rendering.ChildReportAt | src/main/java/com/github/webcrawler/webpage/WebPage.java:99-101 | report i of the children section is child i's own full report |
| Rendering.BarePageIsHeader | src/main/java/com/github/webcrawler/webpage/WebPage.java:80-90 | a page with no headings, broken links or children renders as its header alone |
| Rendering.FullReport | src/main/java/com/github/webcrawler/webpage/WebPage.java:80-90 | with all sections present, the report is header, headings, broken links and children, separated by blank lines |
| Rendering.HeadingsNotBlank | src/main/java/com/github/webcrawler/webpage/WebPage.java:184-186 | a non-empty headings section is not blank, so it is kept |
| Rendering.BrokenNotBlank | src/main/java/com/github/webcrawler/webpage/WebPage.java:188-190 | a non-empty broken-links section is not blank |
| Rendering.ChildrenNotBlank | src/main/java/com/github/webcrawler/webpage/WebPage.java:192-194 | a non-empty children section is not blank |
| Rendering.FetchedPlaceholders | src/main/java/com/github/webcrawler/webpage/FetchedState.java:38-47 | in Fetched the report is the header followed by three `UNKNOWN` sections |
| WebPages.SeenLinks.constructor | src/main/java/com/github/webcrawler/webpage/WebPage.java:39 | a new seen-set is empty |
| WebPages.HeadingList.RemoveFront | src/main/java/com/github/webcrawler/webpage/WebPage.java:171 | removing the front n entries succeeds exactly when there are n; otherwise it empties the list and reports failure |
| WebPages.WebPage.constructor | src/main/java/com/github/webcrawler/webpage/WebPage.java:42-51 | a fresh Initialized page with nothing extracted, and its link added to the shared seen-set |
| WebPages.WebPage.Root | src/main/java/com/github/webcrawler/webpage/WebPage.java:38-40 | a depth-0 page over a new seen-set that holds only its link |
| WebPages.WebPage.ExtractHeadings | src/main/java/com/github/webcrawler/webpage/WebPage.java:127-129 | the document's headings are appended |
| WebPages.WebPage.ExtractLinks | src/main/java/com/github/webcrawler/webpage/WebPage.java:131-136 | the document's unseen links are added in order, without duplicates |
| WebPages.WebPage.UpdateSeenLinks | src/main/java/com/github/webcrawler/webpage/WebPage.java:138-141 | the page's link and all its links join the shared seen-set |
| WebPages.WebPage.LoadHtmlDocument | src/main/java/com/github/webcrawler/webpage/WebPage.java:123-125 | loading succeeds exactly when the provider has the page's URL, and only then stores the document |
| WebPages.WebPage.ChangeState | src/main/java/com/github/webcrawler/webpage/WebPage.java:119-121 | the state is replaced and nothing else changes |
| WebPages.WebPage.Analyze | src/main/java/com/github/webcrawler/webpage/WebPage.java:59-61 | the page and the seen-set move as `Crawl.Analyze` says; on an error nothing changes and the error is returned |
| WebPages.WebPage.AnalyzeDocument | src/main/java/com/github/webcrawler/webpage/InitializedState.java:16-24 | extraction, the seen-set update, children below the depth bound and the state change, as `Crawl.AnalyzeDocument` says |
| WebPages.WebPage.AnalyzeChildren | src/main/java/com/github/webcrawler/webpage/WebPage.java:143-156 | the children and broken links are cleared and rebuilt over all links, as `Crawl.ExpandChildren` says |
| WebPages.WebPage.AnalyzeLink | src/main/java/com/github/webcrawler/webpage/WebPage.java:147-155 | one more link is accounted for: the state matches the expansion over one more link |
| WebPages.WebPage.CrawlOrRecord | src/main/java/com/github/webcrawler/webpage/WebPage.java:148-154 | a child that analyzes is adopted; otherwise the link's broken copy is recorded |
| WebPages.WebPage.RecordBroken | src/main/java/com/github/webcrawler/webpage/WebPage.java:152-154 | the broken copy joins `brokenLinks` unless already present |
| WebPages.WebPage.CrawlChild | src/main/java/com/github/webcrawler/webpage/WebPage.java:149-150 | a new child one level down on the shared seen-set is analyzed; its error or its tree is as `Crawl.Analyze` says |
| WebPages.WebPage.AdoptChild | src/main/java/com/github/webcrawler/webpage/WebPage.java:151 | the child is appended to `children` and its footprint joins the page's |
| WebPages.WebPage.ToMarkdown | src/main/java/com/github/webcrawler/webpage/WebPage.java:80-90 | the report of the page's tree, as `Rendering.PageMarkdown` gives it |
| WebPages.WebPage.ChildReports | src/main/java/com/github/webcrawler/webpage/WebPage.java:192-194 | the reports of the first k children, in order |
| WebPages.WebPage.AggregateHeadings | src/main/java/com/github/webcrawler/webpage/WebPage.java:158-163 | the page's headings, then each child's aggregate in child order |
| WebPages.WebPage.AggregateChildHeadings | src/main/java/com/github/webcrawler/webpage/WebPage.java:161 | the aggregates of the first k children, concatenated |
| WebPages.WebPage.ReplaceHeadings | src/main/java/com/github/webcrawler/webpage/WebPage.java:167-169 | the headings are replaced and nothing else changes |
| WebPages.WebPage.SubdivideHeadings | src/main/java/com/github/webcrawler/webpage/WebPage.java:165-174 | the tree, the remaining list and the success flag are as `Crawl.Subdivide` says |
| WebPages.WebPage.SubdivideChildHeadings | src/main/java/com/github/webcrawler/webpage/WebPage.java:173 | the children take their entries in order, as `Crawl.SubdivideChildren` says |
| WebPages.WebPage.SubdivideChild | src/main/java/com/github/webcrawler/webpage/WebPage.java:173 | only child k's subtree and the list change |
| WebPages.WebPage.SetLanguages | src/main/java/com/github/webcrawler/webpage/WebPage.java:111-117 | both languages are set and nothing else changes |
| WebPages.WebPage.Translate | src/main/java/com/github/webcrawler/webpage/WebPage.java:70-72 | the tree moves as `Crawl.Translate` says; on an error the tree is unchanged and the error is returned |

## Left out

- Fetching and parsing HTML (`JsoupDocument`, `JsoupDocumentProvider`) are not part of this model. The provider is a function from a location to a document or a failure.
- Links.NewLink: judges a URL by its scheme alone (`Links.WellFormed`). The accepted schemes are http, https, ftp, file, jrt, jmod and mailto, in any case. `jar` is rejected, because its handler needs an inner URL before `!/`, which a spec that starts with `//` never has. The model does not capture the other ways `new URL(...)` can fail on an accepted scheme, such as a non-numeric or negative port (`http://h:x/`) or a malformed bracketed IPv6 host. It also rejects schemes that `new URL` would repair: surrounding whitespace (" http"), a `url:` prefix ("url:http") and a trailing colon ("http:"), because `new URL` trims the spec, skips `url:` and cuts the scheme at the first `:`. No path of the crawler builds such a scheme: every link comes from `getProtocol()` of a parsed URL, which is always a clean scheme.
- Links.NewLink: its error carries the URL. Java's `IllegalArgumentException` carries the `MalformedURLException` message, such as "unknown protocol: xyz".
- `Link.fromString` is not modelled, because it needs the same URL parsing. A root page is built from a `Link`.
- DeepL's HTTP request, its form body and the JSON (de)serialisation through Gson are left out, because they are I/O and a foreign library. The exchange is a function from the texts to a status code and a decoded body, or no body when it does not parse.
- DeepL.Translate: returns every failure as a value. In Java only `ServiceError` and `TransportError` are the declared `TranslationException`. The other three are unchecked exceptions that escape a caller catching `TranslationException`: `MalformedReply` (Gson's `JsonSyntaxException`), `UnknownSourceLanguage` (`IllegalArgumentException` from `Language.fromString`, DeepLTranslator.java:93-98) and `NoTranslations` (`NoSuchElementException` from `max(...).get()`, DeepLTranslator.java:105-113). `DeepL.IsTranslationException` tells them apart, and `DeepL.UndeclaredFailures` states which reply gives which. A reply whose JSON lacks the `translations` field (a `NullPointerException`) is not distinguished from one that does not parse.
- The texts of `Error.toString` are not modelled. A service error carries the `Error` value instead.
- The command line, the app driver and `Main` are outside the core.
- The `try*` variants and the failure log that StateTest.java:83 and StateTest.java:59-65 use do not exist in this `WebPage.java`, so they are not modelled.
- Top-level crawls in parallel (`parallelStream` in the app) are concurrency and are left out. One crawl is sequential, as in the code.
- Languages.FromString: agrees with Java only on ASCII input in a locale other than Turkish. `Strings.ToUpper` converts ASCII letters only. Java's `toUpperCase()` uses the default locale and all of Unicode: it accepts "ıtalian" (dotless ı) as ITALIAN and "ſv" as SV, which the model rejects. Under a Turkish locale it turns "italian" into "İTALİAN" and rejects it, which the model accepts. The input comes from the command line and from DeepL's `detected_source_language`.
- Headings.LevelFromString: uses the same ASCII-only `Strings.ToUpper`. It still agrees with Java on every input in every locale. The level names H1 to H6 contain no "I", no character other than "h" upper-cases to "H" alone, and digits do not change. So Java upper-cases only the strings the model also accepts to a level name.
- Strings.ToLower: converts ASCII letters only. It is applied to link schemes and to the fixed ASCII names of `Language` and `Heading.Level`, in their `toString`. For schemes it agrees with Java, which lower-cases the protocol with `Locale.ROOT`: no non-ASCII character lower-cases to a letter of an accepted scheme. For the names it agrees with Java outside a Turkish locale. Under a Turkish locale Java's `Language.toString` turns "I" into a dotless "ı", for example "ıtalıan".
- AsciiArrow.Arrow: uses the default multiplier 2. `setMultiplier` changes a static field that no core code calls. `ArrowWith` takes any multiplier.
- `hashCode` of `Link` and `Heading` is left out. Only equality matters to the model, and it is structural.
- DeepL.ElementWithHighestOccurrence: when two languages tie, it does not fix which one wins. The Java result depends on `HashMap` iteration order.
- Integer widths are unbounded: `depth + 1` and `nestingLevel * multiplier` would wrap only past 2^31, which no crawl reaches.
- The order in which links are loaded is recorded only by the specification (`Crawl.Crawled.loads`), which the no-double-load lemmas are about. The class keeps no such list, as the Java class keeps none.
- `FetchedState.analyze` is modelled, but no code path creates a `FetchedState`.
