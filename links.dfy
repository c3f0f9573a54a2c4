/**
 * Filtering and normalising the hrefs collected from a fetched page
 * (main.js:106-125). The page's `protocol` (such as "https:") and `origin`
 * (such as "https://example.com") are parameters; parsing the page URL is not
 * part of this model. This is the crawler's own prefixing rule, not the
 * reference resolution of section 5.2 of RFC 3986.
 */
module Links {

  predicate StartsWith(s: string, prefix: string) {
    |prefix| <= |s| && s[..|prefix|] == prefix
  }

  predicate IsAboutLink(link: string) {
    StartsWith(link, "about:")
  }

  /** The forms that are completed with the page's origin: path, query and fragment references. */
  predicate IsOriginRelative(link: string) {
    StartsWith(link, "/") || StartsWith(link, "?") || StartsWith(link, "#")
  }

  /** A prefix that turns a relative link into an absolute one: non-empty, not itself relative, not `about:`. */
  predicate IsAbsoluteBase(base: string) {
    |base| > 0 && !IsOriginRelative(base) && !IsAboutLink(base)
  }

  /** One link of the `map` at main.js:110-125. */
  function Resolve(protocol: string, origin: string, link: string): (r: string)
    ensures |link| <= |r| && r[|r| - |link|..] == link
    ensures IsAbsoluteBase(protocol) && IsAbsoluteBase(origin) ==> (r == link <==> !IsOriginRelative(link))
  {
    if StartsWith(link, "//") then protocol + link
    else if IsOriginRelative(link) then origin + link
    else link
  }

  /** The `filter` at main.js:107: every link that does not start with "about:", in order. */
  function KeptLinks(links: seq<string>): (r: seq<string>)
    ensures |r| <= |links|
  {
    if links == [] then []
    else (if IsAboutLink(links[0]) then [] else [links[0]]) + KeptLinks(links[1..])
  }

  /** The kept links are exactly the input links that are not `about:`. */
  lemma {:induction false} KeptLinksMembers(links: seq<string>)
    ensures forall l :: l in KeptLinks(links) <==> l in links && !IsAboutLink(l)
  {
    if links != [] {
      KeptLinksMembers(links[1..]);
      assert links == [links[0]] + links[1..];
    }
  }

  /** The filter keeps the order of the links: filtering a concatenation filters each part. */
  lemma {:induction false} KeptLinksAppend(a: seq<string>, b: seq<string>)
    ensures KeptLinks(a + b) == KeptLinks(a) + KeptLinks(b)
  {
    if a == [] {
      assert a + b == b;
    } else {
      var head := if IsAboutLink(a[0]) then [] else [a[0]];
      assert (a + b)[0] == a[0] && (a + b)[1..] == a[1..] + b;
      KeptLinksAppend(a[1..], b);
      assert KeptLinks(a + b) == head + (KeptLinks(a[1..]) + KeptLinks(b));
      assert head + (KeptLinks(a[1..]) + KeptLinks(b)) == (head + KeptLinks(a[1..])) + KeptLinks(b);
    }
  }

  /** The links main.js:106-125 return for a page: the kept links, each resolved, in order. */
  function NormaliseLinks(protocol: string, origin: string, links: seq<string>): (r: seq<string>)
    ensures |r| == |KeptLinks(links)|
    ensures forall i | 0 <= i < |r| :: r[i] == Resolve(protocol, origin, KeptLinks(links)[i])
  {
    var kept := KeptLinks(links);
    seq(|kept|, i requires 0 <= i < |kept| => Resolve(protocol, origin, kept[i]))
  }

  /** Prefixing a relative link with a base that is not `about:` never yields an `about:` link. */
  lemma PrefixedIsNotAbout(base: string, link: string)
    requires IsAbsoluteBase(base) && IsOriginRelative(link)
    ensures !IsAboutLink(base + link)
  {
    var s := base + link;
    if |base| >= 6 {
      assert s[..6] == base[..6];
    } else if |s| >= 6 {
      assert s[|base|] == link[0];
      assert "about:"[|base|] != link[0];
      assert s[..6][|base|] != "about:"[|base|];
    }
  }

  /** Prefixing a relative link with an absolute base gives a link that is not relative. */
  lemma PrefixedIsNotRelative(base: string, link: string)
    requires IsAbsoluteBase(base) && IsOriginRelative(link)
    ensures !IsOriginRelative(base + link)
  {
    var s := base + link;
    assert s[..1] == base[..1];
  }

  /** A link that is not `about:` resolves to one that is neither `about:` nor relative. */
  lemma ResolvedIsAbsolute(protocol: string, origin: string, link: string)
    requires IsAbsoluteBase(protocol) && IsAbsoluteBase(origin) && !IsAboutLink(link)
    ensures var r := Resolve(protocol, origin, link); !IsAboutLink(r) && !IsOriginRelative(r)
  {
    if StartsWith(link, "//") {
      assert IsOriginRelative(link) by { assert link[..1] == link[..2][..1]; }
      PrefixedIsNotAbout(protocol, link);
      PrefixedIsNotRelative(protocol, link);
    } else if IsOriginRelative(link) {
      PrefixedIsNotAbout(origin, link);
      PrefixedIsNotRelative(origin, link);
    }
  }

  /** Every link the normalisation outputs is absolute: neither `about:` nor relative. */
  lemma NormalisedLinksAreAbsolute(protocol: string, origin: string, links: seq<string>)
    requires IsAbsoluteBase(protocol) && IsAbsoluteBase(origin)
    ensures forall l | l in NormaliseLinks(protocol, origin, links) :: !IsAboutLink(l) && !IsOriginRelative(l)
  {
    var kept := KeptLinks(links);
    var r := NormaliseLinks(protocol, origin, links);
    KeptLinksMembers(links);
    forall i | 0 <= i < |r|
      ensures !IsAboutLink(r[i]) && !IsOriginRelative(r[i])
    {
      assert kept[i] in kept;
      ResolvedIsAbsolute(protocol, origin, kept[i]);
    }
  }

  /** A list in which no link is `about:` is kept whole by the filter. */
  lemma {:induction false} KeptLinksOfClean(links: seq<string>)
    requires forall l | l in links :: !IsAboutLink(l)
    ensures KeptLinks(links) == links
  {
    if links != [] {
      assert links[0] in links;
      KeptLinksOfClean(links[1..]);
    }
  }

  /** Normalising an already normalised list changes nothing. */
  lemma NormaliseIdempotent(protocol: string, origin: string, links: seq<string>)
    requires IsAbsoluteBase(protocol) && IsAbsoluteBase(origin)
    ensures NormaliseLinks(protocol, origin, NormaliseLinks(protocol, origin, links))
         == NormaliseLinks(protocol, origin, links)
  {
    var r := NormaliseLinks(protocol, origin, links);
    NormalisedLinksAreAbsolute(protocol, origin, links);
    KeptLinksOfClean(r);
    var rr := NormaliseLinks(protocol, origin, r);
    forall i | 0 <= i < |r|
      ensures rr[i] == r[i]
    {
      assert r[i] in r;
    }
  }
}
