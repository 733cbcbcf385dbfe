/** What `aggregateHeadings`, `subdivideHeadings` and `translate` guarantee. */
module CrawlHeadings {
  import opened Wrappers
  import opened Headings
  import opened Languages
  import opened Translator
  import States
  import opened Crawl

  /**
   * `b` is `a` with possibly different heading texts and levels: same
   * fields, same number of headings on every page, same tree.
   */
  predicate SameShape(a: PageTree, b: PageTree)
    decreases a
  {
    && a.(headings := b.headings, children := b.children) == b
    && |a.headings| == |b.headings|
    && |a.children| == |b.children|
    && forall i :: 0 <= i < |a.children| ==> SameShape(a.children[i], b.children[i])
  }

  /** The aggregate of the first k children depends on those children only. */
  lemma {:induction false} AggregateChildrenPrefix(a: PageTree, b: PageTree, k: nat)
    requires k <= |a.children| && k <= |b.children|
    requires forall i :: 0 <= i < k ==> a.children[i] == b.children[i]
    ensures AggregateChildren(a, k) == AggregateChildren(b, k)
  {
    if k > 0 {
      AggregateChildrenPrefix(a, b, k - 1);
    }
  }

  /** Subdividing a tree's own aggregate (followed by anything) changes nothing and leaves the tail. */
  lemma {:induction false} SubdivideAggregate(t: PageTree, rest: seq<Heading>)
    ensures Subdivide(t, Aggregate(t) + rest) == Subdivided(t, rest, true)
    decreases t, 1
  {
    var items := Aggregate(t) + rest;
    var n := |t.headings|;
    assert items[..n] == t.headings;
    assert items[n..] == AggregateChildren(t, |t.children|) + rest;
    SubdivideChildrenAggregate(t, |t.children|, rest);
    assert t.(headings := t.headings, children := t.children) == t;
  }

  lemma {:induction false} SubdivideChildrenAggregate(t: PageTree, k: nat, rest: seq<Heading>)
    requires k <= |t.children|
    ensures SubdivideChildren(t, k, AggregateChildren(t, k) + rest) == SubdividedChildren(t.children, rest, true)
    decreases t, 0, k
  {
    if k > 0 {
      var c := t.children[k - 1];
      assert AggregateChildren(t, k) + rest == AggregateChildren(t, k - 1) + (Aggregate(c) + rest);
      SubdivideChildrenAggregate(t, k - 1, Aggregate(c) + rest);
      SubdivideAggregate(c, rest);
      assert t.children[k - 1 := c] == t.children;
    }
  }

  /** `subdivide(aggregate())` is the identity and consumes the whole list. */
  lemma SubdivideOfAggregateIsIdentity(t: PageTree)
    ensures Subdivide(t, Aggregate(t)) == Subdivided(t, [], true)
  {
    SubdivideAggregate(t, []);
    assert Aggregate(t) + [] == Aggregate(t);
  }

  /**
   * A list at least as long as the aggregate is redistributed in pre-order:
   * the tree keeps its shape, its new aggregate is the front of the list,
   * and the rest is left over.
   */
  lemma {:induction false} SubdivideRedistributes(t: PageTree, items: seq<Heading>)
    requires |items| >= |Aggregate(t)|
    ensures var s := Subdivide(t, items);
            && s.ok
            && SameShape(t, s.page)
            && Aggregate(s.page) == items[..|Aggregate(t)|]
            && s.rest == items[|Aggregate(t)|..]
    decreases t, 1
  {
    var n := |t.headings|;
    var m := |AggregateChildren(t, |t.children|)|;
    SubdivideChildrenRedistributes(t, |t.children|, items[n..]);
    var c := SubdivideChildren(t, |t.children|, items[n..]);
    var page := t.(headings := items[..n], children := c.children);
    assert Subdivide(t, items) == Subdivided(page, c.rest, c.ok);
    AggregateChildrenPrefix(page, t.(children := c.children), |t.children|);
    assert AggregateChildren(page, |page.children|) == items[n..][..m];
    assert items[..n + m] == items[..n] + items[n..][..m];
    assert items[n..][m..] == items[n + m..];
  }

  lemma {:induction false} SubdivideChildrenRedistributes(t: PageTree, k: nat, items: seq<Heading>)
    requires k <= |t.children|
    requires |items| >= |AggregateChildren(t, k)|
    ensures var r := SubdivideChildren(t, k, items);
            var m := |AggregateChildren(t, k)|;
            && r.ok
            && (forall i :: 0 <= i < k ==> SameShape(t.children[i], r.children[i]))
            && AggregateChildren(t.(children := r.children), k) == items[..m]
            && r.rest == items[m..]
    decreases t, 0, k
  {
    if k > 0 {
      var child := t.children[k - 1];
      var m0 := |AggregateChildren(t, k - 1)|;
      var m1 := |Aggregate(child)|;
      assert AggregateChildren(t, k) == AggregateChildren(t, k - 1) + Aggregate(child);
      SubdivideChildrenRedistributes(t, k - 1, items);
      var prev := SubdivideChildren(t, k - 1, items);
      assert prev.ok && prev.rest == items[m0..];
      SubdivideRedistributes(child, prev.rest);
      var s := Subdivide(child, prev.rest);
      var r := SubdivideChildren(t, k, items);
      assert r == SubdividedChildren(prev.children[k - 1 := s.page], s.rest, s.ok);
      ConcatSlices(items, m0, m1);
      ShapeStep(t.children, prev.children, k, s.page);
      var tr := t.(children := r.children);
      AggregateChildrenPrefix(tr, t.(children := prev.children), k - 1);
      assert AggregateChildren(tr, k) == AggregateChildren(tr, k - 1) + Aggregate(s.page);
    }
  }

  lemma ConcatSlices(items: seq<Heading>, m0: nat, m1: nat)
    requires m0 + m1 <= |items|
    ensures items[..m0] + items[m0..][..m1] == items[..m0 + m1]
    ensures items[m0..][m1..] == items[m0 + m1..]
  {
  }

  /** Replacing child `k - 1` by a tree of the same shape extends the shape agreement to the first `k` children. */
  lemma ShapeStep(tc: seq<PageTree>, pc: seq<PageTree>, k: nat, p: PageTree)
    requires 0 < k <= |tc| == |pc|
    requires forall i :: 0 <= i < k - 1 ==> SameShape(tc[i], pc[i])
    requires SameShape(tc[k - 1], p)
    ensures forall i :: 0 <= i < k ==> SameShape(tc[i], pc[k - 1 := p][i])
  {
    forall i | 0 <= i < k
      ensures SameShape(tc[i], pc[k - 1 := p][i])
    {
      if i < k - 1 {
        assert pc[k - 1 := p][i] == pc[i];
      } else {
        assert pc[k - 1 := p][i] == p;
      }
    }
  }

  /** Subdividing among the children looks at nothing but the children. */
  lemma {:induction false} SubdivideChildrenOnlyChildren(a: PageTree, b: PageTree, k: nat, items: seq<Heading>)
    requires a.children == b.children && k <= |a.children|
    ensures SubdivideChildren(a, k, items) == SubdivideChildren(b, k, items)
    decreases k
  {
    if k > 0 {
      SubdivideChildrenOnlyChildren(a, b, k - 1, items);
    }
  }

  /** Once a child runs the list short, the later children are not touched: the outcome stays as it was. */
  lemma {:induction false} SubdivideChildrenStops(t: PageTree, k: nat, m: nat, items: seq<Heading>)
    requires k <= m <= |t.children|
    requires !SubdivideChildren(t, k, items).ok
    ensures SubdivideChildren(t, m, items) == SubdivideChildren(t, k, items)
    decreases m
  {
    if m > k {
      SubdivideChildrenStops(t, k, m - 1, items);
    }
  }

  /** A list shorter than the aggregate makes `subdivideHeadings` throw. */
  lemma {:induction false} SubdivideShortFails(t: PageTree, items: seq<Heading>)
    requires |items| < |Aggregate(t)|
    ensures !Subdivide(t, items).ok
    decreases t, 1
  {
    var n := |t.headings|;
    if |items| >= n {
      SubdivideChildrenShortFails(t, |t.children|, items[n..]);
    }
  }

  lemma {:induction false} SubdivideChildrenShortFails(t: PageTree, k: nat, items: seq<Heading>)
    requires k <= |t.children|
    requires |items| < |AggregateChildren(t, k)|
    ensures !SubdivideChildren(t, k, items).ok
    decreases t, 0, k
  {
    var prev := SubdivideChildren(t, k - 1, items);
    if |items| < |AggregateChildren(t, k - 1)| {
      SubdivideChildrenShortFails(t, k - 1, items);
    } else {
      SubdivideChildrenRedistributes(t, k - 1, items);
      SubdivideShortFails(t.children[k - 1], prev.rest);
    }
  }

  /** Outside Analyzed, `translate` throws the state's message and the translator is not consulted. */
  lemma TranslateRejects(t: PageTree, translator: TranslatorOracle)
    requires t.state != States.Analyzed
    ensures Translate(t, translator).Failure?
    ensures t.state == States.Translated ==> Translate(t, translator) == Failure(IllegalState(States.AlreadyTranslated))
    ensures t.state != States.Translated ==> Translate(t, translator) == Failure(IllegalState(States.NotYetAnalyzed))
  {
  }

  /**
   * The translator is called once, with the texts of the pre-order
   * aggregate: two translators that agree on that one call give the same outcome.
   */
  lemma TranslateAsksOnce(t: PageTree, translator1: TranslatorOracle, translator2: TranslatorOracle)
    requires translator1(Texts(Aggregate(t))) == translator2(Texts(Aggregate(t)))
    ensures Translate(t, translator1) == Translate(t, translator2)
  {
  }

  /**
   * On an analyzed page: a failing translator or too few texts leave the
   * error and no new tree; otherwise heading i of the pre-order aggregate
   * keeps its level and takes translated text i, the tree keeps its shape,
   * only the root gets the languages (lower-case names), and the root is Translated.
   */
  lemma {:induction false} TranslateOutcome(t: PageTree, translator: TranslatorOracle)
    requires t.state == States.Analyzed
    ensures var all := Aggregate(t);
            var reply := translator(Texts(all));
            && (reply.Failure? ==> Translate(t, translator) == Failure(TranslationFailed(reply.error)))
            && (reply.Success? && |reply.value.translatedTexts| < |all| ==>
                  Translate(t, translator) == Failure(IndexOutOfBounds))
    ensures var all := Aggregate(t);
            var reply := translator(Texts(all));
            reply.Success? && |reply.value.translatedTexts| >= |all| ==>
              && Translate(t, translator).Success?
              && var t' := Translate(t, translator).value;
                 && t'.state == States.Translated
                 && t'.sourceLanguage == Some(ToString(reply.value.sourceLanguage))
                 && t'.targetLanguage == Some(ToString(reply.value.targetLanguage))
                 && SameShape(t, t'.(sourceLanguage := t.sourceLanguage, targetLanguage := t.targetLanguage, state := t.state))
                 && |Aggregate(t')| == |all|
                 && forall i :: 0 <= i < |all| ==> Aggregate(t')[i] == Heading(all[i].level, reply.value.translatedTexts[i])
  {
    var all := Aggregate(t);
    var reply := translator(Texts(all));
    if reply.Success? && |reply.value.translatedTexts| >= |all| {
      var rebuilt := Rebuild(all, reply.value.translatedTexts);
      SubdivideRedistributes(t, rebuilt);
      var s := Subdivide(t, rebuilt);
      assert rebuilt[..|all|] == rebuilt;
      var t' := s.page.(
        sourceLanguage := Some(ToString(reply.value.sourceLanguage)),
        targetLanguage := Some(ToString(reply.value.targetLanguage)),
        state := States.Translated);
      assert Translate(t, translator) == Success(t');
      assert t'.(sourceLanguage := t.sourceLanguage, targetLanguage := t.targetLanguage, state := t.state)
          == s.page.(sourceLanguage := t.sourceLanguage, targetLanguage := t.targetLanguage, state := t.state);
      assert s.page.(sourceLanguage := t.sourceLanguage, targetLanguage := t.targetLanguage, state := t.state) == s.page;
      AggregateChildrenPrefix(t', s.page, |t'.children|);
    }
  }
}
