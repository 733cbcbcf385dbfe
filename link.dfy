/** `Link`: a URL stripped of query and fragment, with a "broken" flag. */
module Links {
  import opened Wrappers
  import opened Strings
  import opened AsciiArrow

  /** The record; datatype equality is equality of all four fields, as `equals` is. */
  datatype Link = Link(scheme: string, host: string, path: string, isBroken: bool)

  datatype LinkError = InvalidLink(url: string)

  /**
   * The protocols whose URL handlers ship with the Java runtime and accept a
   * `scheme://...` spec (compared case-insensitively). `jar` has a handler,
   * but its spec must hold a complete inner URL before `!/`, which a spec
   * starting with `//` never does, so it always throws here.
   */
  const KnownSchemes: set<string> := {"http", "https", "ftp", "file", "jrt", "jmod", "mailto"}

  /** `new URL(scheme + "://" + host + path)` does not throw, judged by the scheme alone. */
  predicate WellFormed(scheme: string, host: string, path: string) {
    ToLower(scheme) in KnownSchemes
  }

  /** `toString`: the URL the link stands for. */
  function Url(l: Link): string {
    l.scheme + "://" + l.host + l.path
  }

  /** The validating canonical constructor. */
  function NewLink(scheme: string, host: string, path: string, isBroken: bool): (r: Result<Link, LinkError>)
    ensures r.Success? <==> WellFormed(scheme, host, path)
    ensures r.Success? ==> r.value == Link(scheme, host, path, isBroken)
    ensures r.Failure? ==> r.error == InvalidLink(scheme + "://" + host + path)
  {
    if WellFormed(scheme, host, path) then Success(Link(scheme, host, path, isBroken))
    else Failure(InvalidLink(scheme + "://" + host + path))
  }

  /** Scheme case does not matter; `jar` and unknown protocols throw; `mailto` is accepted. */
  lemma SchemeExamples()
    ensures NewLink("HTTPS", "example.org", "/a", false).Success?
    ensures NewLink("mailto", "a@b.c", "", false).Success?
    ensures NewLink("jar", "h", "/x", false).Failure?
    ensures NewLink("xyz", "h", "/x", true).Failure?
  {
    assert ToLower("HTTPS") == "https";
    assert ToLower("mailto") == "mailto";
    assert ToLower("jar") == "jar";
    assert ToLower("xyz") == "xyz";
  }

  /** The three-argument constructor. */
  function NewUnbrokenLink(scheme: string, host: string, path: string): (r: Result<Link, LinkError>)
    ensures r.Success? <==> WellFormed(scheme, host, path)
    ensures r.Success? ==> !r.value.isBroken && Url(r.value) == scheme + "://" + host + path
  {
    NewLink(scheme, host, path, false)
  }

  /** The copy a crawl records when the page behind `l` cannot be loaded. */
  function BrokenCopy(l: Link): (r: Link)
    ensures r.isBroken && Url(r) == Url(l)
  {
    Link(l.scheme, l.host, l.path, true)
  }

  /** A broken copy is a different value from a link that is not broken, yet names the same URL. */
  lemma BrokenCopyDistinct(l: Link)
    requires !l.isBroken
    ensures BrokenCopy(l) != l
    ensures Url(BrokenCopy(l)) == Url(l)
  {
  }

  /** Rebuilding a valid link as broken never throws: validity does not depend on the flag. */
  lemma BrokenCopyConstructible(l: Link)
    requires NewLink(l.scheme, l.host, l.path, l.isBroken).Success?
    ensures NewLink(l.scheme, l.host, l.path, true) == Success(BrokenCopy(l))
  {
  }

  /** The `%s` pieces of `MARKDOWN_TEMPLATE` and `BROKEN_MARKDOWN_TEMPLATE`. */
  const MarkdownTemplate: seq<string> := ["<br>", " link to <a>", "</a>\n"]
  const BrokenMarkdownTemplate: seq<string> := ["<br>", " broken link <a>", "</a>\n"]

  /** `toMarkdown(nestingLevel)`. */
  function ToMarkdown(l: Link, nestingLevel: int): string {
    Format(if l.isBroken then BrokenMarkdownTemplate else MarkdownTemplate, [Arrow(nestingLevel), Url(l)])
  }

  /** `toMarkdown()`. */
  function ToMarkdownTop(l: Link): string {
    ToMarkdown(l, 0)
  }

  /**
   * The broken template is used exactly when the link is broken: the rendering
   * starts with "<br>", the arrow and then " broken link " or " link to <a>",
   * and ends with the URL inside an anchor and a newline.
   */
  lemma MarkdownShape(l: Link, nestingLevel: int)
    ensures var r := ToMarkdown(l, nestingLevel);
            var a := Arrow(nestingLevel);
            && |r| >= |a| + |Url(l)| + 21
            && r[..4 + |a|] == "<br>" + a
            && (r[4 + |a|..4 + |a| + 13] == " broken link " <==> l.isBroken)
            && (!l.isBroken ==> r[4 + |a|..4 + |a| + 12] == " link to <a>")
            && r[|r| - |Url(l)| - 5..] == Url(l) + "</a>\n"
    ensures ToMarkdownTop(l) == ToMarkdown(l, 0)
  {
    var a := Arrow(nestingLevel);
    var r := ToMarkdown(l, nestingLevel);
    var head := "<br>" + a;
    var mid := if l.isBroken then " broken link <a>" else " link to <a>";
    var tail := Url(l) + "</a>\n";
    FormatTwo(if l.isBroken then BrokenMarkdownTemplate else MarkdownTemplate, a, Url(l));
    assert r == head + mid + Url(l) + "</a>\n";
    Assoc(head + mid, Url(l), "</a>\n");
    Assoc(head, mid, tail);
    Split(head, mid + tail);
    Split(head + mid, tail);
    Split(mid, tail);
    assert r[4 + |a|..] == mid + tail;
    assert r[4 + |a|..4 + |a| + 13] == (mid + tail)[..13];
    if l.isBroken {
      assert (mid + tail)[..13] == mid[..13] == " broken link ";
    } else {
      assert (mid + tail)[..13][1] == 'l';
      assert r[4 + |a|..4 + |a| + 12] == (mid + tail)[..12] == mid;
    }
  }
}
