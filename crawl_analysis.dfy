/** What `analyze` guarantees about one page and about the whole crawl below it. */
module CrawlAnalysis {
  import opened Wrappers
  import opened Links
  import States
  import opened Crawl

  /** Two duplicate-free sequences with nothing in common concatenate to a duplicate-free one. */
  lemma NoDupConcat<T>(a: seq<T>, b: seq<T>)
    requires NoDup(a) && NoDup(b)
    requires forall j :: 0 <= j < |b| ==> b[j] !in a
    ensures NoDup(a + b)
  {
    forall i, j | 0 <= i < j < |a + b|
      ensures (a + b)[i] != (a + b)[j]
    {
      if j < |a| {
        assert (a + b)[i] == a[i] && (a + b)[j] == a[j];
      } else if i >= |a| {
        assert (a + b)[i] == b[i - |a|] && (a + b)[j] == b[j - |a|];
      } else {
        assert (a + b)[i] == a[i] && (a + b)[j] == b[j - |a|];
        assert b[j - |a|] !in a;
      }
    }
  }

  /**
   * The analysis of a freshly constructed page keeps its identity, ends in
   * Analyzed, fails exactly when its own page cannot be loaded (and then
   * with that location), and loads its own link first.
   */
  lemma {:induction false} AnalyzeOutcome(t: PageTree, seen: set<Link>, provider: Provider)
    requires Pristine(t)
    ensures Analyze(t, seen, provider).Failure? <==> provider(Url(t.link)).None?
    ensures Analyze(t, seen, provider).Failure? ==> Analyze(t, seen, provider).error == LoadFailed(Url(t.link))
    ensures Analyze(t, seen, provider).Success? ==>
              var c := Analyze(t, seen, provider).value;
              && c.page.link == t.link && c.page.depth == t.depth && c.page.maxDepth == t.maxDepth
              && c.page.state == States.Analyzed
              && c.page.document == provider(Url(t.link))
              && c.page.headings == provider(Url(t.link)).value.headings
              && |c.loads| > 0 && c.loads[0] == t.link
  {
    match provider(Url(t.link))
    case None =>
    case Some(doc) =>
      var t1 := t.(document := Some(doc));
      var c := AnalyzeDocument(t1, seen, provider, States.Analyzed);
      assert Analyze(t, seen, provider) == Success(c.(loads := [t.link] + c.loads));
      ExtractionOutcome(t1, seen, provider, States.Analyzed);
  }

  /** Pages already analyzed or translated reject `analyze`. */
  lemma AnalyzeRejects(t: PageTree, seen: set<Link>, provider: Provider)
    requires t.state == States.Analyzed || t.state == States.Translated
    ensures Analyze(t, seen, provider) == Failure(IllegalState(States.AlreadyAnalyzed))
  {
  }

  /**
   * Extraction on a page that has no links yet: the links are the
   * document's links that were not seen, without duplicates; the seen-set
   * grows by the page's link and those links and loses nothing; at
   * `maxDepth` no children are crawled.
   */
  lemma {:induction false} ExtractionOutcome(t: PageTree, seen: set<Link>, provider: Provider, next: States.StateTag)
    requires t.document.Some? && t.links == [] && t.children == [] && t.brokenLinks == []
    ensures var c := AnalyzeDocument(t, seen, provider, next);
            && NoDup(c.page.links)
            && (forall l :: l in c.page.links <==> l in t.document.value.links && l !in seen)
            && seen + {t.link} + (set l | l in c.page.links) <= c.seen
            && c.page.state == next
            && c.page.headings == t.headings + t.document.value.headings
            && c.page.(headings := t.headings, links := t.links, children := t.children,
                       brokenLinks := t.brokenLinks, state := t.state) == t
    ensures t.depth >= t.maxDepth ==>
              var c := AnalyzeDocument(t, seen, provider, next);
              c.page.children == [] && c.page.brokenLinks == [] && c.loads == []
  {
    var links := ExtractLinks(t.links, t.document.value, seen);
    var seen1 := UpdateSeenLinks(seen, t.link, links);
    var extracted := t.(headings := t.headings + t.document.value.headings, links := links);
    assert NoDup(links);
    if t.depth < t.maxDepth {
      ExpandKeepsPage(extracted, seen1, links, |links|, provider);
      var e := ExpandChildren(extracted, seen1, links, |links|, provider);
      assert AnalyzeDocument(t, seen, provider, next) == e.(page := e.page.(state := next));
    } else {
      assert AnalyzeDocument(t, seen, provider, next) == Crawled(extracted.(state := next), seen1, []);
    }
  }

  /** `ExpandChildren` over `n > 0` links is the expansion over `n - 1` links followed by one `Adopt`. */
  lemma ExpandUnfold(t: PageTree, seen: set<Link>, ls: seq<Link>, n: nat, provider: Provider)
    requires t.depth < t.maxDepth && 0 < n <= |ls|
    ensures var prev := ExpandChildren(t, seen, ls, n - 1, provider);
            var l := ls[n - 1];
            ExpandChildren(t, seen, ls, n, provider)
              == Adopt(prev, l, Analyze(NewPage(l, t.depth + 1, t.maxDepth), prev.seen + {l}, provider))
  {
  }

  /** `ExpandUnfold` with the child's depth and depth bound given by value. */
  lemma ExpandUnfoldAt(t: PageTree, seen: set<Link>, ls: seq<Link>, i: nat, provider: Provider, depth: int, maxDepth: int)
    requires t.depth < t.maxDepth && i < |ls| && t.depth == depth && t.maxDepth == maxDepth
    ensures var prev := ExpandChildren(t, seen, ls, i, provider);
            ExpandChildren(t, seen, ls, i + 1, provider)
              == Adopt(prev, ls[i], Analyze(NewPage(ls[i], depth + 1, maxDepth), prev.seen + {ls[i]}, provider))
  {
    ExpandUnfold(t, seen, ls, i + 1, provider);
  }

  /** One `Adopt` touches only `children` and `brokenLinks`, and keeps the seen-set when the child's analysis does. */
  lemma AdoptKeeps(prev: Crawled, l: Link, r: Result<Crawled, PageError>)
    requires r.Success? ==> prev.seen <= r.value.seen
    ensures Adopt(prev, l, r).page.(children := prev.page.children, brokenLinks := prev.page.brokenLinks) == prev.page
    ensures prev.seen <= Adopt(prev, l, r).seen
  {
  }

  /** Expansion touches only `children` and `brokenLinks`, and never shrinks the seen-set. */
  lemma {:induction false} ExpandKeepsPage(t: PageTree, seen: set<Link>, ls: seq<Link>, n: nat, provider: Provider)
    requires t.depth < t.maxDepth && n <= |ls|
    ensures var e := ExpandChildren(t, seen, ls, n, provider);
            && e.page.(children := t.children, brokenLinks := t.brokenLinks) == t
            && seen <= e.seen
    decreases Budget(t.depth, t.maxDepth), 0, n
  {
    if n > 0 {
      ExpandKeepsPage(t, seen, ls, n - 1, provider);
      var prev := ExpandChildren(t, seen, ls, n - 1, provider);
      var l := ls[n - 1];
      var child := NewPage(l, t.depth + 1, t.maxDepth);
      var r := Analyze(child, prev.seen + {l}, provider);
      ExpandUnfold(t, seen, ls, n, provider);
      if r.Success? {
        SeenGrows(child, prev.seen + {l}, provider);
      }
      AdoptKeeps(prev, l, r);
    }
  }

  /** A successful analysis never removes anything from the seen-set. */
  lemma {:induction false} SeenGrows(t: PageTree, seen: set<Link>, provider: Provider)
    requires Analyze(t, seen, provider).Success?
    ensures seen <= Analyze(t, seen, provider).value.seen
    decreases Budget(t.depth, t.maxDepth), 2
  {
    var doc := if States.LoadsDocument(t.state) then provider(Url(t.link)).value else t.document.value;
    var next := States.Dispatch(t.state, States.Analyze).next;
    DocumentSeenGrows(t.(document := Some(doc)), seen, provider, next);
  }

  lemma {:induction false} DocumentSeenGrows(t: PageTree, seen: set<Link>, provider: Provider, next: States.StateTag)
    requires t.document.Some?
    ensures seen <= AnalyzeDocument(t, seen, provider, next).seen
    decreases Budget(t.depth, t.maxDepth), 1
  {
    var links := ExtractLinks(t.links, t.document.value, seen);
    var seen1 := UpdateSeenLinks(seen, t.link, links);
    if t.depth < t.maxDepth {
      var extracted := t.(headings := t.headings + t.document.value.headings, links := links);
      ExpandKeepsPage(extracted.(children := [], brokenLinks := []), seen1, links, |links|, provider);
    }
  }

  /**
   * No location is loaded twice in one crawl. Analyzing a freshly built page
   * whose link is already in the seen-set loads that link first and after it
   * only links that were unseen when the crawl started; every loaded link
   * ends up in the seen-set, so a broken link is never retried.
   */
  lemma {:induction false} LoadsOnce(t: PageTree, seen: set<Link>, provider: Provider)
    requires Pristine(t) && t.link in seen
    requires Analyze(t, seen, provider).Success?
    ensures var c := Analyze(t, seen, provider).value;
            && |c.loads| > 0 && c.loads[0] == t.link
            && (forall j :: 1 <= j < |c.loads| ==> c.loads[j] !in seen)
            && (forall x :: x in c.loads ==> x in c.seen)
            && seen <= c.seen
            && NoDup(c.loads)
    decreases Budget(t.depth, t.maxDepth), 2
  {
    var doc := provider(Url(t.link)).value;
    var t1 := t.(document := Some(doc));
    var c := AnalyzeDocument(t1, seen, provider, States.Analyzed);
    assert Analyze(t, seen, provider) == Success(c.(loads := [t.link] + c.loads));
    DocumentLoadsOnce(t1, seen, provider);
    PrependLoad(t.link, seen, c);
  }

  /** Loading the page's own (seen) link before a crawl that loads only unseen links keeps every load distinct. */
  lemma PrependLoad(l: Link, seen: set<Link>, c: Crawled)
    requires l in seen && seen <= c.seen && NoDup(c.loads)
    requires forall x :: x in c.loads ==> x !in seen && x in c.seen
    ensures var loads := [l] + c.loads;
            && |loads| > 0 && loads[0] == l
            && (forall j :: 1 <= j < |loads| ==> loads[j] !in seen)
            && (forall x :: x in loads ==> x in c.seen)
            && NoDup(loads)
  {
    forall j | 0 <= j < |c.loads|
      ensures c.loads[j] !in [l]
    {
      assert c.loads[j] in c.loads;
    }
    NoDupConcat([l], c.loads);
    var loads := [l] + c.loads;
    forall j | 1 <= j < |loads|
      ensures loads[j] !in seen
    {
      assert loads[j] == c.loads[j - 1];
    }
  }

  lemma {:induction false} DocumentLoadsOnce(t: PageTree, seen: set<Link>, provider: Provider)
    requires t.document.Some? && t.links == [] && t.link in seen
    ensures var c := AnalyzeDocument(t, seen, provider, States.Analyzed);
            && (forall x :: x in c.loads ==> x !in seen && x in c.seen)
            && seen <= c.seen
            && NoDup(c.loads)
    decreases Budget(t.depth, t.maxDepth), 1
  {
    var links := ExtractLinks(t.links, t.document.value, seen);
    var seen1 := UpdateSeenLinks(seen, t.link, links);
    if t.depth < t.maxDepth {
      var extracted := t.(headings := t.headings + t.document.value.headings, links := links);
      var start := extracted.(children := [], brokenLinks := []);
      assert NoDup<Link>([]);
      ExpandLoadsOnce(start, seen1, links, |links|, provider);
      var e := ExpandChildren(start, seen1, links, |links|, provider);
      assert AnalyzeDocument(t, seen, provider, States.Analyzed) == e.(page := e.page.(state := States.Analyzed));
    }
  }

  /** What the expansion over the first `n` links has loaded: distinct links, each now seen, each among those `n` or unseen before. */
  predicate LoadedOnce(c: Crawled, seen: set<Link>, ls: seq<Link>, n: nat)
    requires n <= |ls|
  {
    && (forall x :: x in c.loads ==> x in c.seen && ((exists j :: 0 <= j < n && ls[j] == x) || x !in seen))
    && seen <= c.seen
    && NoDup(c.loads)
  }

  lemma {:induction false} ExpandLoadsOnce(t: PageTree, seen: set<Link>, ls: seq<Link>, n: nat, provider: Provider)
    requires t.depth < t.maxDepth && n <= |ls|
    requires NoDup(ls) && forall l :: l in ls ==> l in seen
    ensures LoadedOnce(ExpandChildren(t, seen, ls, n, provider), seen, ls, n)
    decreases Budget(t.depth, t.maxDepth), 0, n
  {
    if n == 0 {
      assert NoDup<Link>([]);
    } else {
      var l := ls[n - 1];
      ExpandLoadsOnce(t, seen, ls, n - 1, provider);
      var prev := ExpandChildren(t, seen, ls, n - 1, provider);
      var child := NewPage(l, t.depth + 1, t.maxDepth);
      var r := Analyze(child, prev.seen + {l}, provider);
      ExpandUnfold(t, seen, ls, n, provider);
      if r.Success? {
        LoadsOnce(child, prev.seen + {l}, provider);
      }
      AdoptLoadsOnce(prev, r, seen, ls, n);
    }
  }

  /** One `Adopt` keeps `LoadedOnce` when the child's analysis loads its own link first and then only unseen links. */
  lemma AdoptLoadsOnce(prev: Crawled, r: Result<Crawled, PageError>, seen: set<Link>, ls: seq<Link>, n: nat)
    requires 0 < n <= |ls| && NoDup(ls) && forall l :: l in ls ==> l in seen
    requires LoadedOnce(prev, seen, ls, n - 1)
    requires r.Success? ==>
               var c := r.value;
               && |c.loads| > 0 && c.loads[0] == ls[n - 1]
               && (forall j :: 1 <= j < |c.loads| ==> c.loads[j] !in prev.seen + {ls[n - 1]})
               && (forall x :: x in c.loads ==> x in c.seen)
               && prev.seen + {ls[n - 1]} <= c.seen
               && NoDup(c.loads)
    ensures LoadedOnce(Adopt(prev, ls[n - 1], r), seen, ls, n)
  {
    var l := ls[n - 1];
    assert l !in prev.loads;
    if r.Success? {
      var c := r.value;
      forall j | 0 <= j < |c.loads|
        ensures c.loads[j] !in prev.loads
      {
        if j > 0 {
          assert c.loads[j] !in prev.seen + {l};
        }
      }
      NoDupConcat(prev.loads, c.loads);
      forall x | x in c.loads
        ensures (exists j :: 0 <= j < n && ls[j] == x) || x !in seen
      {
        var j :| 0 <= j < |c.loads| && c.loads[j] == x;
        if j == 0 {
          assert ls[n - 1] == x;
        } else {
          assert x !in prev.seen + {l};
        }
      }
    } else {
      NoDupConcat(prev.loads, [l]);
      assert ls[n - 1] == l;
    }
  }

  /**
   * The page after one more link: it gained one child, built for that link
   * one level down and analyzed, or it recorded the link's broken copy.
   */
  predicate Stepped(t: PageTree, prev: PageTree, e: PageTree, l: Link) {
    || (&& e == prev.(children := e.children)
        && |e.children| == |prev.children| + 1
        && e.children[..|prev.children|] == prev.children
        && e.children[|prev.children|].link == l
        && e.children[|prev.children|].depth == t.depth + 1
        && e.children[|prev.children|].maxDepth == t.maxDepth
        && e.children[|prev.children|].state == States.Analyzed)
    || e == prev.(brokenLinks := AddIfAbsent(prev.brokenLinks, BrokenCopy(l)))
  }

  /** A step only extends the children and the broken links. */
  lemma SteppedGrows(t: PageTree, prev: PageTree, e: PageTree, l: Link)
    requires Stepped(t, prev, e, l)
    ensures |prev.children| <= |e.children| && e.children[..|prev.children|] == prev.children
    ensures forall b :: b in prev.brokenLinks ==> b in e.brokenLinks
  {
  }

  /** One more link: either the expansion gains one child for it, or it records the link's broken copy. */
  lemma ExpandStep(t: PageTree, seen: set<Link>, ls: seq<Link>, n: nat, provider: Provider)
    requires t.depth < t.maxDepth && 0 < n <= |ls|
    ensures Stepped(t, ExpandChildren(t, seen, ls, n - 1, provider).page, ExpandChildren(t, seen, ls, n, provider).page, ls[n - 1])
  {
    var prev := ExpandChildren(t, seen, ls, n - 1, provider);
    var l := ls[n - 1];
    var child := NewPage(l, t.depth + 1, t.maxDepth);
    var r := Analyze(child, prev.seen + {l}, provider);
    ExpandUnfold(t, seen, ls, n, provider);
    if r.Success? {
      AnalyzeOutcome(child, prev.seen + {l}, provider);
    }
    AdoptSteps(t, prev, l, r);
  }

  lemma AdoptSteps(t: PageTree, prev: Crawled, l: Link, r: Result<Crawled, PageError>)
    requires r.Success? ==>
               && r.value.page.link == l && r.value.page.depth == t.depth + 1
               && r.value.page.maxDepth == t.maxDepth && r.value.page.state == States.Analyzed
    ensures Stepped(t, prev.page, Adopt(prev, l, r).page, l)
  {
    if r.Success? {
      var e := Adopt(prev, l, r).page;
      assert e.children == prev.page.children + [r.value.page];
      assert e.children[..|prev.page.children|] == prev.page.children;
    }
  }

  /**
   * The expansion over the first `n` of the links `ls`, below page `t`, has
   * accounted for each of them once: as a child one level down with the same
   * `maxDepth`, analyzed, or as a distinct broken copy.
   */
  predicate Accounted(t: PageTree, ls: seq<Link>, n: nat, e: PageTree)
    requires n <= |ls|
  {
    && |e.children| + |e.brokenLinks| == n
    && (forall i :: 0 <= i < |e.children| ==>
          && e.children[i].link in ls
          && e.children[i].depth == t.depth + 1
          && e.children[i].maxDepth == t.maxDepth
          && e.children[i].state == States.Analyzed)
    && (forall b :: b in e.brokenLinks ==> exists j :: 0 <= j < n && b == BrokenCopy(ls[j]))
    && NoDup(e.brokenLinks)
  }

  /**
   * `analyzeChildren` accounts for every link exactly once: in order, each
   * becomes a child one level down with the same `maxDepth`, or a broken
   * copy of itself, so |children| + |brokenLinks| = |links|.
   */
  lemma {:induction false} ExpandAccounts(t: PageTree, seen: set<Link>, ls: seq<Link>, n: nat, provider: Provider)
    requires t.depth < t.maxDepth && t.children == [] && t.brokenLinks == [] && n <= |ls|
    requires NoDup(ls) && forall i :: 0 <= i < |ls| ==> !ls[i].isBroken
    ensures Accounted(t, ls, n, ExpandChildren(t, seen, ls, n, provider).page)
    decreases n
  {
    if n == 0 {
      assert NoDup<Link>([]);
    } else {
      ExpandAccounts(t, seen, ls, n - 1, provider);
      ExpandStep(t, seen, ls, n, provider);
      AccountsStep(t, ls, n, ExpandChildren(t, seen, ls, n - 1, provider).page, ExpandChildren(t, seen, ls, n, provider).page);
    }
  }

  lemma AccountsStep(t: PageTree, ls: seq<Link>, n: nat, prev: PageTree, e: PageTree)
    requires 0 < n <= |ls| && NoDup(ls) && forall i :: 0 <= i < |ls| ==> !ls[i].isBroken
    requires Accounted(t, ls, n - 1, prev) && Stepped(t, prev, e, ls[n - 1])
    ensures Accounted(t, ls, n, e)
  {
    var l := ls[n - 1];
    if |e.children| == |prev.children| + 1 && e == prev.(children := e.children) {
      forall i | 0 <= i < |e.children|
        ensures e.children[i].link in ls && e.children[i].depth == t.depth + 1
        ensures e.children[i].maxDepth == t.maxDepth && e.children[i].state == States.Analyzed
      {
        if i < |prev.children| {
          assert e.children[i] == e.children[..|prev.children|][i];
        }
      }
      forall b | b in e.brokenLinks
        ensures exists j :: 0 <= j < n && b == BrokenCopy(ls[j])
      {
        var k :| 0 <= k < n - 1 && b == BrokenCopy(ls[k]);
        assert 0 <= k < n;
      }
    } else {
      forall b | b in prev.brokenLinks
        ensures b != BrokenCopy(l)
      {
        var k :| 0 <= k < n - 1 && b == BrokenCopy(ls[k]);
        assert ls[k] != l;
        assert !ls[k].isBroken && !l.isBroken;
      }
      assert e.brokenLinks == prev.brokenLinks + [BrokenCopy(l)];
      NoDupConcat(prev.brokenLinks, [BrokenCopy(l)]);
      forall b | b in e.brokenLinks
        ensures exists j :: 0 <= j < n && b == BrokenCopy(ls[j])
      {
        if b in prev.brokenLinks {
          var k :| 0 <= k < n - 1 && b == BrokenCopy(ls[k]);
          assert 0 <= k < n;
        } else {
          assert b == BrokenCopy(ls[n - 1]);
        }
      }
    }
  }

  /** A link is accounted for on a page: a child was built for it, or its broken copy was recorded. */
  predicate Covered(p: PageTree, l: Link) {
    (exists i :: 0 <= i < |p.children| && p.children[i].link == l) || BrokenCopy(l) in p.brokenLinks
  }

  /** Extending the children and the broken links keeps every covered link covered. */
  lemma CoveredGrows(p: PageTree, q: PageTree, l: Link)
    requires |p.children| <= |q.children| && q.children[..|p.children|] == p.children
    requires forall b :: b in p.brokenLinks ==> b in q.brokenLinks
    requires Covered(p, l)
    ensures Covered(q, l)
  {
    if exists i :: 0 <= i < |p.children| && p.children[i].link == l {
      var i :| 0 <= i < |p.children| && p.children[i].link == l;
      assert q.children[i] == q.children[..|p.children|][i];
    }
  }

  /** Every link is accounted for: some child was built for it, or its broken copy was recorded. */
  lemma {:induction false} ExpandCovers(t: PageTree, seen: set<Link>, ls: seq<Link>, n: nat, provider: Provider)
    requires t.depth < t.maxDepth && n <= |ls|
    ensures forall j :: 0 <= j < n ==> Covered(ExpandChildren(t, seen, ls, n, provider).page, ls[j])
    decreases n
  {
    if n > 0 {
      ExpandCovers(t, seen, ls, n - 1, provider);
      ExpandStep(t, seen, ls, n, provider);
      CoversStep(t, ls, n, ExpandChildren(t, seen, ls, n - 1, provider).page, ExpandChildren(t, seen, ls, n, provider).page);
    }
  }

  lemma CoversStep(t: PageTree, ls: seq<Link>, n: nat, prev: PageTree, e: PageTree)
    requires 0 < n <= |ls| && Stepped(t, prev, e, ls[n - 1])
    requires forall j :: 0 <= j < n - 1 ==> Covered(prev, ls[j])
    ensures forall j :: 0 <= j < n ==> Covered(e, ls[j])
  {
    SteppedGrows(t, prev, e, ls[n - 1]);
    forall j | 0 <= j < n
      ensures Covered(e, ls[j])
    {
      if j < n - 1 {
        CoveredGrows(prev, e, ls[j]);
      } else if |e.children| == |prev.children| + 1 && e == prev.(children := e.children) {
        assert e.children[|prev.children|].link == ls[j];
      }
    }
  }

  /** Reference definition: keep each element where it first occurs, drop later repeats. */
  function FirstOccurrences<T(==)>(xs: seq<T>): seq<T> {
    if xs == [] then []
    else
      var init := xs[..|xs| - 1];
      FirstOccurrences(init) + (if xs[|xs| - 1] in init then [] else [xs[|xs| - 1]])
  }

  lemma {:induction false} FirstOccurrencesMembers<T>(xs: seq<T>)
    ensures forall y :: y in FirstOccurrences(xs) <==> y in xs
  {
    if xs != [] {
      var init := xs[..|xs| - 1];
      FirstOccurrencesMembers(init);
      assert xs == init + [xs[|xs| - 1]];
    }
  }

  /** Adding a sequence and then one more element is adding the longer sequence. */
  lemma {:induction false} AddAllSnoc<T(!new)>(s: seq<T>, xs: seq<T>, x: T)
    ensures AddAll(s, xs + [x]) == AddIfAbsent(AddAll(s, xs), x)
    decreases xs
  {
    if xs == [] {
      assert AddAll(s, [x]) == AddAll(AddIfAbsent(s, x), []);
    } else {
      assert (xs + [x])[1..] == xs[1..] + [x];
      AddAllSnoc(AddIfAbsent(s, xs[0]), xs[1..], x);
    }
  }

  /** `addAll` into an empty `LinkedHashSet` keeps exactly the first occurrences, in order. */
  lemma {:induction false} AddAllIsFirstOccurrences<T(!new)>(xs: seq<T>)
    ensures AddAll([], xs) == FirstOccurrences(xs)
  {
    if xs != [] {
      var init := xs[..|xs| - 1];
      var x := xs[|xs| - 1];
      assert xs == init + [x];
      AddAllIsFirstOccurrences(init);
      AddAllSnoc([], init, x);
      FirstOccurrencesMembers(init);
    }
  }

  /**
   * `removeAll` keeps the surviving elements in their order and with their
   * repeats: it filters each part of a concatenation separately. Together
   * with `RemoveAllSingle` this fixes the result on every input.
   */
  lemma {:induction false} RemoveAllAppend<T(!new)>(xs: seq<T>, ys: seq<T>, seen: set<T>)
    ensures RemoveAll(xs + ys, seen) == RemoveAll(xs, seen) + RemoveAll(ys, seen)
  {
    if xs == [] {
      assert xs + ys == ys;
    } else {
      assert (xs + ys)[0] == xs[0];
      assert (xs + ys)[1..] == xs[1..] + ys;
      RemoveAllAppend(xs[1..], ys, seen);
    }
  }

  /** One element survives `removeAll` exactly when it is unseen. */
  lemma RemoveAllSingle<T(!new)>(x: T, seen: set<T>)
    ensures RemoveAll([x], seen) == if x in seen then [] else [x]
  {
    assert [x][1..] == [];
  }

  /**
   * On a page with no links yet, `extractLinks` leaves exactly the
   * document's unseen links, each at its first occurrence, in document order.
   */
  lemma ExtractLinksSpec(doc: Document, seen: set<Link>)
    ensures ExtractLinks([], doc, seen) == FirstOccurrences(RemoveAll(doc.links, seen))
  {
    AddAllIsFirstOccurrences(RemoveAll(doc.links, seen));
  }
}
