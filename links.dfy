/**
  The HTML link scrape: `extractFaviconUrls` (api/favicon.js, copied in worker.js).
  The two regular expressions are not executed here: the captures of their successive `exec`
  matches on the page are the input, one sequence per pattern.
*/
module FaviconLinks {
  import opened Text
  import opened Urls

  /**
    The group-1 captures of the two patterns, in match order: `relFirst` from the pattern with
    `rel` before `href`, `hrefFirst` from the pattern with `href` before `rel`.
  */
  datatype LinkMatches = LinkMatches(relFirst: seq<string>, hrefFirst: seq<string>)

  /** The patterns in the order the outer loop visits them. */
  function Patterns(m: LinkMatches): seq<seq<string>>
  {
    [m.relFirst, m.hrefFirst]
  }

  /** What the inner loop pushes for a list of captures: each non-empty href, resolved. */
  function Pushed(captures: seq<string>, base: string): (urls: seq<string>)
    ensures |urls| <= |captures|
  {
    if captures == [] then []
    else
      var href := captures[|captures| - 1];
      Pushed(captures[..|captures| - 1], base) + (if href != "" then [ResolveUrl(href, base)] else [])
  }

  /** How many captures the given lists hold together. */
  function CaptureCount(groups: seq<seq<string>>): nat
  {
    if groups == [] then 0 else CaptureCount(groups[..|groups| - 1]) + |groups[|groups| - 1]|
  }

  /**
    What the two nested loops leave in `urls` after visiting the given capture lists in turn:
    at most one URL per capture.
  */
  function Collected(groups: seq<seq<string>>, base: string): (urls: seq<string>)
    ensures |urls| <= CaptureCount(groups)
  {
    if groups == [] then []
    else Collected(groups[..|groups| - 1], base) + Pushed(groups[|groups| - 1], base)
  }

  predicate NoDuplicates<T(==)>(s: seq<T>)
  {
    forall i, j :: 0 <= i < j < |s| ==> s[i] != s[j]
  }

  /** `[...new Set(urls)]`: each element is kept at its first occurrence, later copies are dropped. */
  function Dedup<T(==)>(s: seq<T>): (r: seq<T>)
    ensures NoDuplicates(r)
    ensures forall i :: 0 <= i < |r| ==> r[i] in s
    ensures |r| <= |s|
  {
    if s == [] then []
    else
      var d := Dedup(s[..|s| - 1]);
      var last := s[|s| - 1];
      if last in d then d else d + [last]
  }

  /** Dedup drops repeats only: it keeps exactly the elements of its input. */
  lemma {:induction false} DedupMembers<T>(s: seq<T>, x: T)
    ensures x in Dedup(s) <==> x in s
  {
    if s != [] {
      DedupMembers(s[..|s| - 1], x);
      assert s == s[..|s| - 1] + [s[|s| - 1]];
    }
  }

  /** The position of the first occurrence of x in s. */
  function IndexOf<T(==)>(s: seq<T>, x: T): (i: nat)
    requires x in s
    ensures i < |s| && s[i] == x && x !in s[..i]
  {
    if s[0] == x then 0
    else
      var j := IndexOf(s[1..], x);
      assert s[..j + 1] == [s[0]] + s[1..][..j];
      j + 1
  }

  lemma {:induction false} IndexOfPrefix<T>(s: seq<T>, k: nat, x: T)
    requires k <= |s| && x in s[..k]
    ensures IndexOf(s, x) == IndexOf(s[..k], x)
  {
    var i, j := IndexOf(s, x), IndexOf(s[..k], x);
    assert s[..k][..j] == s[..j];
  }

  /** Dedup keeps first-seen order: its elements appear in the order of their first occurrences. */
  lemma {:induction false} DedupFirstSeenOrder<T>(s: seq<T>, i: nat, j: nat)
    requires i < j < |Dedup(s)|
    ensures IndexOf(s, Dedup(s)[i]) < IndexOf(s, Dedup(s)[j])
    decreases |s|
  {
    var n := |s| - 1;
    var front := s[..n];
    var d := Dedup(front);
    var last := s[n];
    var r := Dedup(s);
    assert s[..n + 1] == s;
    DedupMembers(front, last);
    DedupMembers(front, r[i]);
    DedupMembers(front, r[j]);
    if last in d {
      assert r == d;
      IndexOfPrefix(s, n, r[i]);
      IndexOfPrefix(s, n, r[j]);
      DedupFirstSeenOrder(front, i, j);
    } else {
      assert r == d + [last];
      assert r[i] in d;
      IndexOfPrefix(s, n, r[i]);
      if j < |d| {
        IndexOfPrefix(s, n, r[j]);
        DedupFirstSeenOrder(front, i, j);
      } else {
        assert last !in s[..n];
        assert IndexOf(s, last) == n;
      }
    }
  }

  /** The converse: an element that occurs first earlier in the input comes earlier in the output. */
  lemma DedupPreservesOrder<T>(s: seq<T>, x: T, y: T)
    requires x in s && y in s && IndexOf(s, x) < IndexOf(s, y)
    ensures x in Dedup(s) && y in Dedup(s)
    ensures IndexOf(Dedup(s), x) < IndexOf(Dedup(s), y)
  {
    var r := Dedup(s);
    DedupMembers(s, x);
    DedupMembers(s, y);
    var i, j := IndexOf(r, x), IndexOf(r, y);
    if j < i {
      DedupFirstSeenOrder(s, j, i);
    }
  }

  /** An element is pushed for some capture exactly when it resolves a non-empty href of the list. */
  lemma PushedMembers(captures: seq<string>, base: string, url: string)
    ensures url in Pushed(captures, base) <==>
      exists href :: href in captures && href != "" && url == ResolveUrl(href, base)
  {
    if url in Pushed(captures, base) {
      PushedFromCaptures(captures, base, url);
    }
    if href :| href in captures && href != "" && url == ResolveUrl(href, base) {
      CapturePushed(captures, base, href);
    }
  }

  /** Every pushed URL is the resolved form of a non-empty capture. */
  lemma {:induction false} PushedFromCaptures(captures: seq<string>, base: string, url: string)
    requires url in Pushed(captures, base)
    ensures exists href :: href in captures && href != "" && url == ResolveUrl(href, base)
  {
    var front := captures[..|captures| - 1];
    var last := captures[|captures| - 1];
    assert captures == front + [last];
    if url in Pushed(front, base) {
      PushedFromCaptures(front, base, url);
      var href :| href in front && href != "" && url == ResolveUrl(href, base);
      assert href in captures;
    } else {
      assert last in captures && last != "" && url == ResolveUrl(last, base);
    }
  }

  /** Every non-empty capture is pushed, resolved. */
  lemma {:induction false} CapturePushed(captures: seq<string>, base: string, href: string)
    requires href in captures && href != ""
    ensures ResolveUrl(href, base) in Pushed(captures, base)
  {
    var front := captures[..|captures| - 1];
    var last := captures[|captures| - 1];
    assert captures == front + [last];
    if href != last {
      assert href in front;
      CapturePushed(front, base, href);
    }
  }

  /** The specification of `extractFaviconUrls`: everything pushed, de-duplicated. */
  function FaviconUrls(m: LinkMatches, base: string): (urls: seq<string>)
    ensures NoDuplicates(urls)
    ensures forall i :: 0 <= i < |urls| ==> urls[i] in Collected(Patterns(m), base)
    ensures |urls| <= |m.relFirst| + |m.hrefFirst|
  {
    CollectedPatterns(m, base);
    Dedup(Collected(Patterns(m), base))
  }

  lemma CollectedPatterns(m: LinkMatches, base: string)
    ensures Collected(Patterns(m), base) == Pushed(m.relFirst, base) + Pushed(m.hrefFirst, base)
  {
    var groups := Patterns(m);
    assert groups[..1] == [m.relFirst];
    assert Collected(groups[..1], base) == Collected([], base) + Pushed(m.relFirst, base) by {
      assert groups[..1][..0] == [];
    }
  }

  /**
    The extracted URLs are exactly the resolved non-empty captures of either pattern, and no
    URL is listed twice.
  */
  lemma FaviconUrlsMembers(m: LinkMatches, base: string, url: string)
    ensures NoDuplicates(FaviconUrls(m, base))
    ensures url in FaviconUrls(m, base) <==>
      exists href :: (href in m.relFirst || href in m.hrefFirst) && href != "" && url == ResolveUrl(href, base)
  {
    var p1, p2 := Pushed(m.relFirst, base), Pushed(m.hrefFirst, base);
    CollectedPatterns(m, base);
    DedupMembers(p1 + p2, url);
    PushedMembers(m.relFirst, base, url);
    PushedMembers(m.hrefFirst, base, url);
  }

  /**
    Pattern order: a URL found by the rel-before-href pattern is listed before every URL that
    only the href-before-rel pattern found.
  */
  lemma RelFirstMatchesComeFirst(m: LinkMatches, base: string, x: string, y: string)
    requires x in Pushed(m.relFirst, base)
    requires y in Pushed(m.hrefFirst, base) && y !in Pushed(m.relFirst, base)
    ensures x in FaviconUrls(m, base) && y in FaviconUrls(m, base)
    ensures IndexOf(FaviconUrls(m, base), x) < IndexOf(FaviconUrls(m, base), y)
  {
    var p1, p2 := Pushed(m.relFirst, base), Pushed(m.hrefFirst, base);
    var all := p1 + p2;
    CollectedPatterns(m, base);
    assert all[..|p1|] == p1;
    IndexOfPrefix(all, |p1|, x);
    var iy := IndexOf(all, y);
    DedupPreservesOrder(all, x, y);
  }

  /**
    `extractFaviconUrls`: for each pattern in turn, every match with a non-empty capture pushes
    the resolved href; the result drops repeats, keeping first occurrences.
  */
  /** One more iteration of the inner loop pushes the resolved capture, if it is non-empty. */
  lemma PushedStep(captures: seq<string>, i: nat, base: string)
    requires i < |captures|
    ensures Pushed(captures[..i + 1], base) ==
      Pushed(captures[..i], base) + (if captures[i] != "" then [ResolveUrl(captures[i], base)] else [])
  {
    assert captures[..i + 1][..i] == captures[..i];
  }

  /** One more iteration of the outer loop appends what the inner loop pushed. */
  lemma CollectedStep(groups: seq<seq<string>>, p: nat, base: string)
    requires p < |groups|
    ensures Collected(groups[..p + 1], base) == Collected(groups[..p], base) + Pushed(groups[p], base)
  {
    assert groups[..p + 1][..p] == groups[..p];
  }

  method ExtractFaviconUrls(m: LinkMatches, base: string) returns (result: seq<string>)
    ensures result == FaviconUrls(m, base)
  {
    var urls: seq<string> := [];
    var patterns := Patterns(m);
    for p := 0 to |patterns|
      invariant urls == Collected(patterns[..p], base)
    {
      var captures := patterns[p];
      var i := 0;
      while i < |captures|
        invariant i <= |captures|
        invariant urls == Collected(patterns[..p], base) + Pushed(captures[..i], base)
      {
        var href := captures[i];
        PushedStep(captures, i, base);
        if href != "" {
          urls := urls + [ResolveUrl(href, base)];
        }
        i := i + 1;
      }
      assert captures[..i] == captures;
      CollectedStep(patterns, p, base);
    }
    assert patterns[..|patterns|] == patterns;
    result := Dedup(urls);
  }
}
