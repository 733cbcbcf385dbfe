/**
 * `WebPage`: the mutable page object. Its fields are the Java fields; the
 * ghost `tree` is their abstract value (a `Crawl.PageTree`), and every
 * method is proved to move it exactly as the matching `Crawl` function does.
 */
module WebPages {
  import opened Wrappers
  import opened Links
  import opened Headings
  import opened Languages
  import opened Translator
  import States
  import opened Crawl
  import CrawlHeadings
  import CrawlAnalysis
  import Strings
  import Rendering

  /** The `Set<Link>` that every page of one crawl shares by reference. */
  class SeenLinks {
    var links: set<Link>

    constructor ()
      ensures links == {}
    {
      links := {};
    }
  }

  /** The `ArrayList<Heading>` that `subdivideHeadings` consumes from the front. */
  class HeadingList {
    var items: seq<Heading>

    constructor (items: seq<Heading>)
      ensures this.items == items
    {
      this.items := items;
    }

    /**
     * `remove(0)`, `n` times: fails (IndexOutOfBoundsException) once the
     * list is empty, having removed everything there was.
     */
    method RemoveFront(n: nat) returns (ok: bool)
      modifies this
      ensures ok <==> n <= |old(items)|
      ensures ok ==> items == old(items)[n..]
      ensures !ok ==> items == []
    {
      var i := 0;
      while i < n
        invariant 0 <= i <= n && i <= |old(items)| && items == old(items)[i..]
      {
        if items == [] {
          return false;
        }
        items := items[1..];
        i := i + 1;
      }
      return true;
    }
  }

  class WebPage {
    const link: Link
    const seen: SeenLinks
    const maxDepth: int
    const depth: int
    const provider: Provider

    var headings: seq<Heading>
    /** A `LinkedHashSet`: duplicate-free, in insertion order. */
    var links: seq<Link>
    var brokenLinks: seq<Link>
    var children: seq<WebPage>
    var state: States.StateTag
    var document: Option<Document>
    /** Never assigned except by `translate`: None stands for Java's null. */
    var sourceLanguage: Option<string>
    var targetLanguage: Option<string>

    ghost var tree: PageTree
    /** This page and every page below it. */
    ghost var Repr: set<WebPage>

    ghost predicate Valid()
      reads this, Repr
      decreases Repr
    {
      && this in Repr
      && tree.link == link && tree.depth == depth && tree.maxDepth == maxDepth
      && tree.state == state && tree.document == document
      && tree.headings == headings && tree.links == links && tree.brokenLinks == brokenLinks
      && tree.sourceLanguage == sourceLanguage && tree.targetLanguage == targetLanguage
      && |tree.children| == |children|
      && (forall i :: 0 <= i < |children| ==>
            && children[i] in Repr && children[i].Repr <= Repr && this !in children[i].Repr
            && children[i].seen == seen && children[i].provider == provider
            && children[i].tree == tree.children[i]
            && children[i].Valid())
      && (forall i, j :: 0 <= i < j < |children| ==>
            children[i] in Repr && children[j] in Repr && children[i].Repr !! children[j].Repr)
    }

    /** The constructor every page goes through: records its own link as seen. */
    constructor (link: Link, seen: SeenLinks, maxDepth: int, provider: Provider, depth: int)
      modifies seen
      ensures Valid() && Repr == {this}
      ensures this.link == link && this.seen == seen && this.maxDepth == maxDepth
      ensures this.depth == depth && this.provider == provider
      ensures tree == NewPage(link, depth, maxDepth)
      ensures seen.links == old(seen.links) + {link}
    {
      this.link := link;
      this.seen := seen;
      this.maxDepth := maxDepth;
      this.provider := provider;
      this.depth := depth;
      headings := [];
      links := [];
      brokenLinks := [];
      children := [];
      state := States.Initialized;
      document := None;
      sourceLanguage := None;
      targetLanguage := None;
      tree := NewPage(link, depth, maxDepth);
      Repr := {this};
      new;
      seen.links := seen.links + {link};
    }

    /** The root page: depth 0 and a seen-set of its own. */
    constructor Root(link: Link, maxDepth: int, provider: Provider)
      ensures Valid() && Repr == {this} && fresh(seen)
      ensures this.link == link && this.maxDepth == maxDepth && depth == 0 && this.provider == provider
      ensures tree == NewPage(link, 0, maxDepth)
      ensures seen.links == {link}
    {
      var seenLinks := new SeenLinks();
      this.link := link;
      this.seen := seenLinks;
      this.maxDepth := maxDepth;
      this.provider := provider;
      this.depth := 0;
      headings := [];
      links := [];
      brokenLinks := [];
      children := [];
      state := States.Initialized;
      document := None;
      sourceLanguage := None;
      targetLanguage := None;
      tree := NewPage(link, 0, maxDepth);
      Repr := {this};
      new;
      seenLinks.links := seenLinks.links + {link};
    }

    /** `extractHeadings`: appends the document's headings. */
    method ExtractHeadings()
      requires Valid() && document.Some?
      modifies this`headings, this`tree
      ensures Valid()
      ensures headings == old(headings) + document.value.headings
      ensures tree == old(tree).(headings := headings)
    {
      headings := headings + document.value.headings;
      tree := tree.(headings := headings);
    }

    /** `extractLinks`: the document's links minus the seen ones, added to the link set. */
    method ExtractLinks()
      requires Valid() && document.Some?
      modifies this`links, this`tree
      ensures Valid()
      ensures links == Crawl.ExtractLinks(old(links), document.value, seen.links)
      ensures tree == old(tree).(links := links)
    {
      var unseen := RemoveAll(document.value.links, seen.links);
      links := AddAll(links, unseen);
      tree := tree.(links := links);
    }

    /** `updateSeenLinks`: the page's link and all its links join the shared seen-set. */
    method UpdateSeenLinks()
      modifies seen
      ensures seen.links == Crawl.UpdateSeenLinks(old(seen.links), link, links)
    {
      seen.links := seen.links + {link} + (set l | l in links);
    }

    /** `loadHtmlDocument`: asks the provider for the page's URL; on failure nothing changes. */
    method LoadHtmlDocument() returns (loaded: bool)
      requires Valid()
      modifies this`document, this`tree
      ensures Valid()
      ensures loaded <==> provider(Url(link)).Some?
      ensures loaded ==> document == provider(Url(link)) && tree == old(tree).(document := document)
      ensures !loaded ==> document == old(document) && tree == old(tree)
    {
      var d := provider(Url(link));
      if d.None? {
        return false;
      }
      document := d;
      tree := tree.(document := d);
      return true;
    }

    /** `changeState`. */
    method ChangeState(next: States.StateTag)
      requires Valid()
      modifies this`state, this`tree
      ensures Valid()
      ensures state == next && tree == old(tree).(state := next)
    {
      state := next;
      tree := tree.(state := next);
    }

    /**
     * `analyze`, as the current state implements it: Initialized loads the
     * document first; a page whose document cannot be loaded is left as it was.
     */
    method Analyze() returns (error: Option<PageError>)
      requires Valid()
      modifies Repr, seen
      decreases Budget(depth, maxDepth), 5
      ensures Valid() && fresh(Repr - old(Repr))
      ensures var spec := Crawl.Analyze(old(tree), old(seen.links), provider);
              && (spec.Failure? ==> error == Some(spec.error) && tree == old(tree) && seen.links == old(seen.links))
              && (spec.Success? ==> error == None && tree == spec.value.page && seen.links == spec.value.seen)
    {
      match States.Dispatch(state, States.Analyze)
      case Reject(message) =>
        return Some(IllegalState(message));
      case Unimplemented =>
        return Some(NotImplemented);
      case Proceed(next) =>
        if States.LoadsDocument(state) {
          var loaded := LoadHtmlDocument();
          if !loaded {
            return Some(LoadFailed(Url(link)));
          }
        } else if document.None? {
          return Some(MissingDocument);
        }
        AnalyzeDocument(next);
        return None;
    }

    /**
     * The body both `InitializedState.analyze` and `FetchedState.analyze`
     * run once the document is there: extraction, the seen-set update,
     * children below `maxDepth`, then the state change.
     */
    method AnalyzeDocument(next: States.StateTag)
      requires Valid() && document.Some?
      modifies this`headings, this`links, this`children, this`brokenLinks, this`state, this`tree, this`Repr, seen
      decreases Budget(depth, maxDepth), 4
      ensures Valid() && fresh(Repr - old(Repr))
      ensures var c := Crawl.AnalyzeDocument(old(tree), old(seen.links), provider, next);
              tree == c.page && seen.links == c.seen
    {
      ExtractHeadings();
      ExtractLinks();
      UpdateSeenLinks();
      if depth < maxDepth {
        AnalyzeChildren();
      }
      ChangeState(next);
    }

    /**
     * `analyzeChildren`: clears `children` and `brokenLinks`, then for each
     * link in order builds a child one level down on the same seen-set and
     * analyzes it, keeping it on success and recording a broken copy of the
     * link on failure.
     */
    method AnalyzeChildren()
      requires Valid() && depth < maxDepth
      modifies this`children, this`brokenLinks, this`tree, this`Repr, seen
      decreases Budget(depth, maxDepth), 3
      ensures Valid() && fresh(Repr - old(Repr))
      ensures var e := ExpandChildren(old(tree).(children := [], brokenLinks := []), old(seen.links), links, |links|, provider);
              tree == e.page && seen.links == e.seen
    {
      ghost var start := tree.(children := [], brokenLinks := []);
      ghost var seen0 := seen.links;
      children := [];
      brokenLinks := [];
      tree := start;
      Repr := {this};
      var i := 0;
      while i < |links|
        invariant 0 <= i <= |links|
        invariant Valid() && fresh(Repr - old(Repr))
        invariant Expanded(start, seen0, i)
      {
        AnalyzeLink(start, seen0, i);
        i := i + 1;
      }
    }

    /** The page and the seen-set are those of the first `i` links' expansion from `start`. */
    ghost predicate Expanded(start: PageTree, seen0: set<Link>, i: nat)
      reads this, seen
    {
      && start.depth == depth < maxDepth == start.maxDepth && i <= |links|
      && var e := ExpandChildren(start, seen0, links, i, provider);
         tree == e.page && seen.links == e.seen
    }

    /** One iteration of `analyzeChildren`: the expansion moves from the first `i` links to the first `i + 1`. */
    method AnalyzeLink(ghost start: PageTree, ghost seen0: set<Link>, i: nat)
      requires Valid() && i < |links|
      requires Expanded(start, seen0, i)
      modifies this`children, this`brokenLinks, this`tree, this`Repr, seen
      decreases Budget(depth, maxDepth), 2
      ensures Valid() && fresh(Repr - old(Repr))
      ensures Expanded(start, seen0, i + 1)
    {
      ghost var prev := ExpandChildren(start, seen0, links, i, provider);
      CrawlOrRecord(prev, links[i]);
      CrawlAnalysis.ExpandUnfoldAt(start, seen0, links, i, provider, depth, maxDepth);
      assert Expanded(start, seen0, i + 1);
    }

    /** The body of that iteration: crawls `l` as a child, or records it as broken. */
    method CrawlOrRecord(ghost prev: Crawled, l: Link)
      requires Valid() && depth < maxDepth
      requires tree == prev.page && seen.links == prev.seen
      modifies this`children, this`brokenLinks, this`tree, this`Repr, seen
      decreases Budget(depth, maxDepth), 1
      ensures Valid() && fresh(Repr - old(Repr))
      ensures var e := Adopt(prev, l, Crawl.Analyze(NewPage(l, depth + 1, maxDepth), prev.seen + {l}, provider));
              tree == e.page && seen.links == e.seen
    {
      var child, error := CrawlChild(l);
      if error.None? {
        AdoptChild(child);
      } else {
        RecordBroken(l);
      }
    }

    /** The `catch` block of `analyzeChildren`: the link's broken copy joins `brokenLinks`. */
    method RecordBroken(l: Link)
      requires Valid()
      modifies this`brokenLinks, this`tree
      ensures Valid()
      ensures brokenLinks == AddIfAbsent(old(brokenLinks), BrokenCopy(l))
      ensures tree == old(tree).(brokenLinks := brokenLinks)
    {
      brokenLinks := AddIfAbsent(brokenLinks, BrokenCopy(l));
      tree := tree.(brokenLinks := brokenLinks);
    }

    /** The `try` block of `analyzeChildren`: a new page one level down on the shared seen-set, analyzed. */
    method CrawlChild(l: Link) returns (child: WebPage, error: Option<PageError>)
      requires depth < maxDepth
      modifies seen
      decreases Budget(depth, maxDepth), 0
      ensures fresh(child.Repr) && child.Valid()
      ensures child.seen == seen && child.provider == provider
      ensures var r := Crawl.Analyze(NewPage(l, depth + 1, maxDepth), old(seen.links) + {l}, provider);
              && (r.Failure? ==> error.Some? && seen.links == old(seen.links) + {l})
              && (r.Success? ==> error.None? && child.tree == r.value.page && seen.links == r.value.seen)
    {
      child := new WebPage(l, seen, maxDepth, provider, depth + 1);
      error := child.Analyze();
    }

    /** `children.add(child)` for a freshly analyzed child. */
    method AdoptChild(child: WebPage)
      requires Valid() && child.Valid()
      requires child.Repr !! Repr && this !in child.Repr
      requires child.seen == seen && child.provider == provider
      modifies this`children, this`tree, this`Repr
      ensures Valid()
      ensures children == old(children) + [child]
      ensures tree == old(tree).(children := old(tree.children) + [child.tree])
      ensures Repr == old(Repr) + child.Repr
    {
      ghost var cs := children;
      ghost var ts := tree.children;
      ghost var R0 := Repr;
      children := children + [child];
      tree := tree.(children := tree.children + [child.tree]);
      Repr := Repr + child.Repr;
      forall j | 0 <= j < |children|
        ensures children[j] in Repr && children[j].Repr <= Repr && this !in children[j].Repr
        ensures children[j].seen == seen && children[j].provider == provider
        ensures children[j].tree == tree.children[j] && children[j].Valid()
      {
        if j < |cs| {
          assert children[j] == cs[j] && tree.children[j] == ts[j];
        } else {
          assert children[j] == child;
        }
      }
      forall i, j | 0 <= i < j < |children|
        ensures children[i].Repr !! children[j].Repr
      {
        if j < |cs| {
          assert children[i] == cs[i] && children[j] == cs[j];
        } else {
          assert children[i] == cs[i] && children[j] == child;
        }
      }
    }

    /**
     * `toMarkdown()`, and `toMarkdown(nestingLevel)`, which ignores its
     * argument: the report of this page and the pages below it, read from
     * their fields alone.
     */
    function ToMarkdown(): (r: string)
      requires Valid()
      reads this, Repr
      decreases Repr, 2
      ensures r == Rendering.PageMarkdown(tree)
    {
      Rendering.Assemble(
        Rendering.MetadataSection(link, depth, maxDepth, sourceLanguage, targetLanguage),
        Rendering.HeadingsSection(headings, depth),
        Rendering.BrokenSection(brokenLinks, depth),
        Strings.Join(Strings.NonEmpty(ChildReports(|children|)), Rendering.ChildDelimiter))
    }

    /** The reports of the first `k` children, each rendered by the child itself. */
    function ChildReports(k: nat): (r: seq<string>)
      requires Valid() && k <= |children|
      reads this, Repr
      decreases Repr, 1, k
      ensures r == Rendering.ChildReports(tree, k)
    {
      if k == 0 then []
      else
        assert children[k - 1].Repr < Repr;
        ChildReports(k - 1) + [children[k - 1].ToMarkdown()]
    }

    /** `aggregateHeadings`: this page's headings, then every child's aggregate, in child order. */
    function AggregateHeadings(): (r: seq<Heading>)
      requires Valid()
      reads this, Repr
      decreases Repr, 2
      ensures r == Aggregate(tree)
    {
      headings + AggregateChildHeadings(|children|)
    }

    function AggregateChildHeadings(k: nat): (r: seq<Heading>)
      requires Valid() && k <= |children|
      reads this, Repr
      decreases Repr, 1, k
      ensures r == AggregateChildren(tree, k)
    {
      if k == 0 then []
      else
        assert children[k - 1].Repr < Repr;
        AggregateChildHeadings(k - 1) + children[k - 1].AggregateHeadings()
    }

    /** Replaces the page's own headings (`headings.clear(); headings.addAll(...)`). */
    method ReplaceHeadings(hs: seq<Heading>)
      requires Valid()
      modifies this`headings, this`tree
      ensures Valid()
      ensures headings == hs && tree == old(tree).(headings := hs)
    {
      headings := hs;
      tree := tree.(headings := hs);
    }

    /**
     * `subdivideHeadings`: the page keeps as many entries from the front of
     * the list as it had headings and removes them from the list one by one,
     * then hands the list to its children in order. `ok` false stands for
     * the IndexOutOfBoundsException of `remove(0)` on a list that ran out.
     */
    method SubdivideHeadings(list: HeadingList) returns (ok: bool)
      requires Valid()
      modifies Repr, list
      decreases Repr, 2
      ensures Valid() && Repr == old(Repr) && children == old(children)
      ensures var s := Subdivide(old(tree), old(list.items));
              tree == s.page && list.items == s.rest && ok == s.ok
    {
      var n := |headings|;
      var taken := if |list.items| < n then list.items else list.items[..n];
      ReplaceHeadings(taken);
      ok := list.RemoveFront(n);
      if ok {
        CrawlHeadings.SubdivideChildrenOnlyChildren(old(tree), tree, |children|, list.items);
        ok := SubdivideChildHeadings(list);
      }
    }

    /** `children.forEach(child -> child.subdivideHeadings(list))`: stops at the first child that throws. */
    method SubdivideChildHeadings(list: HeadingList) returns (ok: bool)
      requires Valid()
      modifies Repr, list
      decreases Repr, 1
      ensures Valid() && Repr == old(Repr) && children == old(children)
      ensures var c := SubdivideChildren(old(tree), |children|, old(list.items));
              tree == old(tree).(children := c.children) && list.items == c.rest && ok == c.ok
    {
      ghost var t0 := tree;
      ghost var items0 := list.items;
      var k := 0;
      while k < |children|
        invariant 0 <= k <= |children|
        invariant Valid() && Repr == old(Repr) && children == old(children)
        invariant var c := SubdivideChildren(t0, k, items0);
                  tree == t0.(children := c.children) && list.items == c.rest && c.ok
      {
        ok := SubdivideChild(k, list);
        if !ok {
          CrawlHeadings.SubdivideChildrenStops(t0, k + 1, |children|, items0);
          return;
        }
        k := k + 1;
      }
      return true;
    }

    /** `child.subdivideHeadings(list)` for child `k`; the other children are untouched. */
    method SubdivideChild(k: nat, list: HeadingList) returns (ok: bool)
      requires Valid() && k < |children|
      modifies children[k].Repr, this`tree, list
      decreases Repr, 0
      ensures Valid() && Repr == old(Repr) && children == old(children)
      ensures var s := Subdivide(old(tree.children[k]), old(list.items));
              tree == old(tree).(children := old(tree.children)[k := s.page]) && list.items == s.rest && ok == s.ok
    {
      var child := children[k];
      assert child.Repr < Repr;
      assert forall j :: 0 <= j < |children| && j != k ==> children[j].Repr !! child.Repr;
      ok := child.SubdivideHeadings(list);
      tree := tree.(children := tree.children[k := child.tree]);
      assert children[k] == child;
    }

    /** `setSourceLanguage` and `setTargetLanguage`. */
    method SetLanguages(source: string, target: string)
      requires Valid()
      modifies this`sourceLanguage, this`targetLanguage, this`tree
      ensures Valid()
      ensures tree == old(tree).(sourceLanguage := Some(source), targetLanguage := Some(target))
    {
      sourceLanguage := Some(source);
      targetLanguage := Some(target);
      tree := tree.(sourceLanguage := sourceLanguage, targetLanguage := targetLanguage);
    }

    /**
     * `translate`, as the current state implements it: only an analyzed
     * page translates; a failed translation leaves every page as it was.
     */
    method Translate(translator: TranslatorOracle) returns (error: Option<PageError>)
      requires Valid()
      modifies Repr
      ensures Valid() && Repr == old(Repr)
      ensures var spec := Crawl.Translate(old(tree), translator);
              && (spec.Failure? ==> error == Some(spec.error) && tree == old(tree))
              && (spec.Success? ==> error == None && tree == spec.value)
    {
      match States.Dispatch(state, States.Translate)
      case Reject(message) =>
        return Some(IllegalState(message));
      case Unimplemented =>
        return Some(NotImplemented);
      case Proceed(next) =>
        var all := AggregateHeadings();
        match translator(Texts(all))
        case Failure(message) =>
          return Some(TranslationFailed(message));
        case Success(result) =>
          if |result.translatedTexts| < |all| {
            return Some(IndexOutOfBounds);
          }
          var list := new HeadingList(Rebuild(all, result.translatedTexts));
          CrawlHeadings.SubdivideRedistributes(tree, list.items);
          var ok := SubdivideHeadings(list);
          SetLanguages(ToString(result.sourceLanguage), ToString(result.targetLanguage));
          ChangeState(next);
          return None;
    }
  }
}
