/**
 * The crawl as values: a page and everything below it is a `PageTree`, and
 * each `WebPage` operation is a function from the old tree (and the shared
 * seen-set) to the new one. The `WebPage` class is proved against these.
 */
module Crawl {
  import opened Wrappers
  import opened Links
  import opened Headings
  import opened Languages
  import opened Translator
  import opened States

  /** `Document`: what a provider hands back for a location. */
  datatype Document = Document(headings: seq<Heading>, links: seq<Link>)

  /** `DocumentProvider.getDocument`: None where it throws IOException. */
  type Provider = string -> Option<Document>

  /** One page with the pages it crawled, as the fields of `WebPage` hold them. */
  datatype PageTree = PageTree(
    link: Link,
    depth: int,
    maxDepth: int,
    state: StateTag,
    document: Option<Document>,
    headings: seq<Heading>,
    links: seq<Link>,
    brokenLinks: seq<Link>,
    children: seq<PageTree>,
    sourceLanguage: Option<string>,
    targetLanguage: Option<string>)

  /** The exceptions the page operations throw. */
  datatype PageError =
    | IllegalState(message: string)
    | NotImplemented
    | LoadFailed(location: string)
    | MissingDocument
    | TranslationFailed(message: string)
    | IndexOutOfBounds

  /** A page as the constructor leaves it. */
  function NewPage(link: Link, depth: int, maxDepth: int): PageTree {
    PageTree(link, depth, maxDepth, Initialized, None, [], [], [], [], None, None)
  }

  /** Nothing loaded, extracted or crawled yet. */
  predicate Pristine(t: PageTree) {
    && t.state == Initialized
    && t.document.None?
    && t.headings == [] && t.links == [] && t.brokenLinks == [] && t.children == []
  }

  /** How many levels may still be crawled below a page. */
  function Budget(depth: int, maxDepth: int): nat {
    if depth < maxDepth then maxDepth - depth else 0
  }

  // ---------------------------------------------------------------------
  // Insertion-ordered sets (`LinkedHashSet`) as duplicate-free sequences
  // ---------------------------------------------------------------------

  predicate NoDup<T(==)>(s: seq<T>) {
    forall i, j :: 0 <= i < j < |s| ==> s[i] != s[j]
  }

  /** `LinkedHashSet.add`: appends unless already present. */
  function AddIfAbsent<T(==,!new)>(s: seq<T>, x: T): (r: seq<T>)
    ensures forall y :: y in r <==> y in s || y == x
    ensures NoDup(s) ==> NoDup(r)
    ensures |s| <= |r| <= |s| + 1 && r[..|s|] == s
  {
    if x in s then s else s + [x]
  }

  /** `LinkedHashSet.addAll`: adds in order, keeping first occurrences. */
  function AddAll<T(==,!new)>(s: seq<T>, xs: seq<T>): (r: seq<T>)
    ensures forall y :: y in r <==> y in s || y in xs
    ensures NoDup(s) ==> NoDup(r)
    ensures |s| <= |r| && r[..|s|] == s
    decreases xs
  {
    if xs == [] then s
    else
      var r := AddAll(AddIfAbsent(s, xs[0]), xs[1..]);
      assert forall y :: y in xs <==> y == xs[0] || y in xs[1..];
      r
  }

  /** `List.removeAll(seen)`: drops every occurrence of a seen element, keeping order. */
  function RemoveAll<T(==,!new)>(xs: seq<T>, seen: set<T>): (r: seq<T>)
    ensures forall y :: y in r <==> y in xs && y !in seen
    ensures |r| <= |xs|
  {
    if xs == [] then []
    else
      assert forall y :: y in xs <==> y == xs[0] || y in xs[1..];
      (if xs[0] in seen then [] else [xs[0]]) + RemoveAll(xs[1..], seen)
  }

  // ---------------------------------------------------------------------
  // analyze
  // ---------------------------------------------------------------------

  /**
   * The outcome of a successful analysis: the new page, the shared
   * seen-set afterwards, and (as a record of the calls to the provider)
   * every location loaded, in order.
   */
  datatype Crawled = Crawled(page: PageTree, seen: set<Link>, loads: seq<Link>)

  /** `analyze`, dispatched on the page's state. */
  function Analyze(t: PageTree, seen: set<Link>, provider: Provider): Result<Crawled, PageError>
    decreases Budget(t.depth, t.maxDepth), 2
  {
    match Dispatch(t.state, States.Analyze)
    case Reject(message) => Failure(IllegalState(message))
    case Unimplemented => Failure(NotImplemented)
    case Proceed(next) =>
      if LoadsDocument(t.state) then
        match provider(Url(t.link))
        case None => Failure(LoadFailed(Url(t.link)))
        case Some(doc) =>
          var c := AnalyzeDocument(t.(document := Some(doc)), seen, provider, next);
          Success(c.(loads := [t.link] + c.loads))
      else if t.document.None? then Failure(MissingDocument)
      else Success(AnalyzeDocument(t, seen, provider, next))
  }

  /** `extractLinks`: the document's links not yet seen, added in order to the page's set. */
  function ExtractLinks(current: seq<Link>, doc: Document, seen: set<Link>): seq<Link> {
    AddAll(current, RemoveAll(doc.links, seen))
  }

  /** `updateSeenLinks`: the page's own link and every link it found join the seen-set. */
  function UpdateSeenLinks(seen: set<Link>, link: Link, links: seq<Link>): set<Link> {
    seen + {link} + (set l | l in links)
  }

  /** Extraction, seen-set update, and (below `maxDepth`) child expansion, then the transition. */
  function AnalyzeDocument(t: PageTree, seen: set<Link>, provider: Provider, next: StateTag): Crawled
    requires t.document.Some?
    decreases Budget(t.depth, t.maxDepth), 1
  {
    var doc := t.document.value;
    var links := ExtractLinks(t.links, doc, seen);
    var extracted := t.(headings := t.headings + doc.headings, links := links);
    var seen1 := UpdateSeenLinks(seen, t.link, links);
    if t.depth < t.maxDepth then
      var e := ExpandChildren(extracted.(children := [], brokenLinks := []), seen1, links, |links|, provider);
      e.(page := e.page.(state := next))
    else
      Crawled(extracted.(state := next), seen1, [])
  }

  /**
   * `analyzeChildren` over the first `n` links: each link becomes a child
   * page one level down that is analyzed against the shared seen-set, or a
   * broken copy when its page cannot be loaded.
   */
  function ExpandChildren(t: PageTree, seen: set<Link>, ls: seq<Link>, n: nat, provider: Provider): Crawled
    requires t.depth < t.maxDepth && n <= |ls|
    decreases Budget(t.depth, t.maxDepth), 0, n
  {
    if n == 0 then Crawled(t, seen, [])
    else
      var prev := ExpandChildren(t, seen, ls, n - 1, provider);
      var l := ls[n - 1];
      Adopt(prev, l, Analyze(NewPage(l, t.depth + 1, t.maxDepth), prev.seen + {l}, provider))
  }

  /**
   * One iteration of `analyzeChildren`: an analyzed child joins `children`
   * and hands on its seen-set; a failed one leaves a broken copy of its link.
   */
  function Adopt(prev: Crawled, l: Link, r: Result<Crawled, PageError>): Crawled {
    match r
    case Success(c) =>
      Crawled(prev.page.(children := prev.page.children + [c.page]), c.seen, prev.loads + c.loads)
    case Failure(_) =>
      Crawled(prev.page.(brokenLinks := AddIfAbsent(prev.page.brokenLinks, BrokenCopy(l))), prev.seen + {l}, prev.loads + [l])
  }

  // ---------------------------------------------------------------------
  // aggregateHeadings / subdivideHeadings
  // ---------------------------------------------------------------------

  /** `aggregateHeadings`: the page's headings, then each child's aggregate in child order. */
  function Aggregate(t: PageTree): seq<Heading>
    decreases t, 1
  {
    t.headings + AggregateChildren(t, |t.children|)
  }

  /** The aggregates of the first `k` children, concatenated. */
  function AggregateChildren(t: PageTree, k: nat): seq<Heading>
    requires k <= |t.children|
    decreases t, 0, k
  {
    if k == 0 then [] else AggregateChildren(t, k - 1) + Aggregate(t.children[k - 1])
  }

  /** The outcome of `subdivideHeadings`: the new page, what is left of the list, and whether it ran short. */
  datatype Subdivided = Subdivided(page: PageTree, rest: seq<Heading>, ok: bool)

  datatype SubdividedChildren = SubdividedChildren(children: seq<PageTree>, rest: seq<Heading>, ok: bool)

  /**
   * `subdivideHeadings`: the page takes as many entries from the front of
   * the list as it had headings, then its children take theirs in order.
   * A list that runs short leaves the page with what there was, the list
   * empty, and the exception propagating (`ok` false).
   */
  function Subdivide(t: PageTree, items: seq<Heading>): Subdivided
    decreases t, 1
  {
    var n := |t.headings|;
    if |items| < n then Subdivided(t.(headings := items), [], false)
    else
      var c := SubdivideChildren(t, |t.children|, items[n..]);
      Subdivided(t.(headings := items[..n], children := c.children), c.rest, c.ok)
  }

  /** `children.forEach(child -> child.subdivideHeadings(list))` over the first `k` children. */
  function SubdivideChildren(t: PageTree, k: nat, items: seq<Heading>): (r: SubdividedChildren)
    requires k <= |t.children|
    decreases t, 0, k
    ensures |r.children| == |t.children|
    ensures forall i :: k <= i < |t.children| ==> r.children[i] == t.children[i]
  {
    if k == 0 then SubdividedChildren(t.children, items, true)
    else
      var prev := SubdivideChildren(t, k - 1, items);
      if !prev.ok then prev
      else
        var s := Subdivide(t.children[k - 1], prev.rest);
        SubdividedChildren(prev.children[k - 1 := s.page], s.rest, s.ok)
  }

  // ---------------------------------------------------------------------
  // translate
  // ---------------------------------------------------------------------

  function Texts(hs: seq<Heading>): (r: seq<string>)
    ensures |r| == |hs|
    ensures forall i :: 0 <= i < |hs| ==> r[i] == hs[i].text
  {
    seq(|hs|, i requires 0 <= i < |hs| => hs[i].text)
  }

  /** Heading i keeps its level and takes translated text i; surplus texts are ignored. */
  function Rebuild(hs: seq<Heading>, texts: seq<string>): (r: seq<Heading>)
    requires |texts| >= |hs|
    ensures |r| == |hs|
    ensures forall i :: 0 <= i < |hs| ==> r[i] == Heading(hs[i].level, texts[i])
  {
    seq(|hs|, i requires 0 <= i < |hs| => Heading(hs[i].level, texts[i]))
  }

  /** `translate`, dispatched on the page's state. */
  function Translate(t: PageTree, translator: TranslatorOracle): Result<PageTree, PageError> {
    match Dispatch(t.state, States.Translate)
    case Reject(message) => Failure(IllegalState(message))
    case Unimplemented => Failure(NotImplemented)
    case Proceed(next) =>
      var all := Aggregate(t);
      match translator(Texts(all))
      case Failure(message) => Failure(TranslationFailed(message))
      case Success(result) =>
        if |result.translatedTexts| < |all| then Failure(IndexOutOfBounds)
        else
          var s := Subdivide(t, Rebuild(all, result.translatedTexts));
          if !s.ok then Failure(IndexOutOfBounds)
          else Success(s.page.(
            sourceLanguage := Some(ToString(result.sourceLanguage)),
            targetLanguage := Some(ToString(result.targetLanguage)),
            state := next))
  }
}
