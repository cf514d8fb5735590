/**
 * The image list scraped from the source index page (main.py,
 * _fetch_remote_image_urls): each anchor's href is stripped, kept when it
 * names an image, resolved against the index URL and dropped when the result
 * carries a query string; the kept URLs are then deduplicated in order of
 * first occurrence. The HTML parse is the sequence of href values; `urljoin`
 * against the index URL is the parameter `join`, which gives None where
 * `urljoin` raises `ValueError` (an href such as `http://[x/a.png`, whose
 * network location has an unbalanced `[`). Such an exception is not caught:
 * the whole fetch fails.
 */
module ImageList {
  import opened Wrappers
  import opened Strings

  /** The extensions `endswith` is given, in lower case. */
  predicate HasImageSuffix(s: string)
    ensures HasImageSuffix(s) ==> 4 <= |s| && (s[|s| - 4] == '.' || (5 <= |s| && s[|s| - 5] == '.'))
  {
    var lower := Lower(s);
    || EndsWith(lower, ".jpg") || EndsWith(lower, ".jpeg") || EndsWith(lower, ".png")
    || EndsWith(lower, ".webp") || EndsWith(lower, ".gif")
  }

  /** The suffix test ignores case: a string and its lower-cased form pass or fail together. */
  lemma ImageSuffixIgnoresCase(s: string)
    ensures HasImageSuffix(Lower(s)) == HasImageSuffix(s)
  {
    LowerTwice(s);
  }

  /**
   * The verdict on one href: the joined URL it contributes, or None when it
   * is blank, not an image name, or resolves to a URL with a `?`. (An href
   * that `join` rejects contributes nothing either; JoinRaises tells that
   * case apart.)
   */
  function Keep(href: string, join: string -> Option<string>): (r: Option<string>)
    ensures r.Some? <==> && Strip(href) != [] && HasImageSuffix(Strip(href))
                         && join(Strip(href)).Some? && '?' !in join(Strip(href)).value
    ensures r.Some? ==> r.value == join(Strip(href)).value && '?' !in r.value
  {
    var h := Strip(href);
    if h == [] then None
    else if !HasImageSuffix(h) then None
    else
      var full := join(h);
      if full.None? || '?' in full.value then None else full
  }

  /** The href reaches `urljoin` (it is not blank and names an image), and `urljoin` raises on it. */
  predicate JoinRaises(href: string, join: string -> Option<string>)
  {
    var h := Strip(href);
    h != [] && HasImageSuffix(h) && join(h).None?
  }

  /** Some href of the page makes `urljoin` raise. */
  predicate AnyJoinRaises(hrefs: seq<string>, join: string -> Option<string>)
  {
    exists i | 0 <= i < |hrefs| :: JoinRaises(hrefs[i], join)
  }

  /** No element satisfies `p`, checked from the back, the way a loop builds the sequence up. */
  predicate NoneOf(s: seq<string>, p: string -> bool)
  {
    s == [] || (NoneOf(s[..|s| - 1], p) && !p(s[|s| - 1]))
  }

  /** NoneOf is the absence of a witness. */
  lemma {:induction false} NoneOfIff(s: seq<string>, p: string -> bool)
    ensures NoneOf(s, p) <==> forall i | 0 <= i < |s| :: !p(s[i])
  {
    if s != [] {
      var n := |s| - 1;
      NoneOfIff(s[..n], p);
      assert forall i | 0 <= i < n :: s[..n][i] == s[i];
    }
  }

  /** The values `f` gives for the elements it maps to Some, in order. */
  function FilterMap(s: seq<string>, f: string -> Option<string>): (r: seq<string>)
    ensures |r| <= |s|
  {
    if s == [] then []
    else
      var init := FilterMap(s[..|s| - 1], f);
      var y := f(s[|s| - 1]);
      if y.Some? then init + [y.value] else init
  }

  /** Every value kept comes from some element: `i` is one. */
  lemma {:induction false} FilterMapSound(s: seq<string>, f: string -> Option<string>, k: nat) returns (i: nat)
    requires k < |FilterMap(s, f)|
    ensures i < |s| && f(s[i]) == Some(FilterMap(s, f)[k])
  {
    var n := |s| - 1;
    var init := s[..n];
    var c := FilterMap(init, f);
    if k < |c| {
      i := FilterMapSound(init, f, k);
      assert init[i] == s[i];
      assert FilterMap(s, f)[k] == c[k];
    } else {
      i := n;
    }
  }

  /** Every element mapped to Some contributes its value. */
  lemma {:induction false} FilterMapComplete(s: seq<string>, f: string -> Option<string>, i: nat)
    requires i < |s| && f(s[i]).Some?
    ensures f(s[i]).value in FilterMap(s, f)
  {
    var n := |s| - 1;
    var init := s[..n];
    if i < n {
      assert init[i] == s[i];
      FilterMapComplete(init, f, i);
    }
  }

  /** The `urls` list before deduplication: the kept URLs in href order. */
  function Collected(hrefs: seq<string>, join: string -> Option<string>): seq<string>
  {
    FilterMap(hrefs, h => Keep(h, join))
  }

  /** Every collected URL comes from a kept href, `i`, and so carries no query string. */
  lemma CollectedSound(hrefs: seq<string>, join: string -> Option<string>, k: nat) returns (i: nat)
    requires k < |Collected(hrefs, join)|
    ensures i < |hrefs| && Keep(hrefs[i], join) == Some(Collected(hrefs, join)[k])
    ensures '?' !in Collected(hrefs, join)[k]
  {
    i := FilterMapSound(hrefs, h => Keep(h, join), k);
  }

  /** Every kept href contributes its URL. */
  lemma CollectedComplete(hrefs: seq<string>, join: string -> Option<string>, i: nat)
    requires i < |hrefs| && Keep(hrefs[i], join).Some?
    ensures Keep(hrefs[i], join).value in Collected(hrefs, join)
  {
    FilterMapComplete(hrefs, h => Keep(h, join), i);
  }

  /** One more href: it adds its kept URL, if any, and its own join failure, if any. */
  lemma CollectStep(hrefs: seq<string>, i: nat, join: string -> Option<string>)
    requires i < |hrefs|
    ensures Collected(hrefs[..i + 1], join)
            == Collected(hrefs[..i], join) + (if Keep(hrefs[i], join).Some? then [Keep(hrefs[i], join).value] else [])
    ensures NoneOf(hrefs[..i + 1], h => JoinRaises(h, join))
            <==> NoneOf(hrefs[..i], h => JoinRaises(h, join)) && !JoinRaises(hrefs[i], join)
  {
    assert hrefs[..i + 1][..i] == hrefs[..i];
  }

  /**
   * The filter loop of _fetch_remote_image_urls: the collected list, or None
   * when `urljoin` raises on some href, which ends the loop.
   */
  method CollectImageUrls(hrefs: seq<string>, join: string -> Option<string>) returns (r: Option<seq<string>>)
    ensures r.None? <==> AnyJoinRaises(hrefs, join)
    ensures r.Some? ==> r.value == Collected(hrefs, join)
  {
    var urls := [];
    var i := 0;
    while i < |hrefs|
      invariant 0 <= i <= |hrefs|
      invariant NoneOf(hrefs[..i], h => JoinRaises(h, join))
      invariant urls == Collected(hrefs[..i], join)
    {
      CollectStep(hrefs, i, join);
      var href := Strip(hrefs[i]);
      ghost var raises := JoinRaises(hrefs[i], join);
      i := i + 1;
      if href == [] {
        assert !raises;
        continue;
      }
      if HasImageSuffix(href) {
        var fullUrl := join(href);
        if fullUrl.None? {
          assert raises;
          return None;
        }
        assert !raises;
        if '?' in fullUrl.value {
          continue;
        }
        urls := urls + [fullUrl.value];
      } else {
        assert !raises;
      }
    }
    assert hrefs[..i] == hrefs;
    NoneOfIff(hrefs, h => JoinRaises(h, join));
    return Some(urls);
  }

  predicate NoDuplicates(s: seq<string>)
  {
    forall i, j | 0 <= i < j < |s| :: s[i] != s[j]
  }

  /** The position of the first occurrence of `x` in `s`. */
  function IndexOf(s: seq<string>, x: string): (i: nat)
    requires x in s
    ensures i < |s| && s[i] == x
    ensures forall j | 0 <= j < i :: s[j] != x
  {
    if s[0] == x then 0 else 1 + IndexOf(s[1..], x)
  }

  /** The first occurrence of an element is not moved by appending. */
  lemma IndexOfSnoc(s: seq<string>, x: string, y: string)
    requires y in s
    ensures IndexOf(s + [x], y) == IndexOf(s, y)
  {
    var a, b := IndexOf(s + [x], y), IndexOf(s, y);
    assert (s + [x])[b] == y;
    if a < |s| {
      assert s[a] == y;
    }
  }

  /** Deduplication keeping first occurrences, in their order. */
  function Unique(s: seq<string>): (r: seq<string>)
    ensures NoDuplicates(r)
    ensures forall x :: x in r <==> x in s
    ensures |r| <= |s|
  {
    if s == [] then []
    else
      var init := Unique(s[..|s| - 1]);
      var x := s[|s| - 1];
      assert forall y :: y in s <==> y in s[..|s| - 1] || y == x;
      if x in init then init else init + [x]
  }

  /** Deduplicating one more element appends it when it is new. */
  lemma UniqueSnoc(init: seq<string>, x: string)
    ensures Unique(init + [x]) == if x in init then Unique(init) else Unique(init) + [x]
  {
    assert (init + [x])[..|init|] == init;
  }

  /** A new last element occurs first at the end. */
  lemma IndexOfLast(init: seq<string>, x: string)
    requires x !in init
    ensures IndexOf(init + [x], x) == |init|
  {
  }

  /** The kept elements stand in the order of their first occurrences in the input. */
  lemma {:induction false} UniqueOrder(s: seq<string>, i: nat, j: nat)
    requires i < j < |Unique(s)|
    ensures Unique(s)[i] in s && Unique(s)[j] in s
    ensures IndexOf(s, Unique(s)[i]) < IndexOf(s, Unique(s)[j])
  {
    var n := |s| - 1;
    var init, x := s[..n], s[n];
    assert s == init + [x];
    UniqueSnoc(init, x);
    var u := Unique(init);
    assert u[i] in init;
    IndexOfSnoc(init, x, u[i]);
    if j < |u| {
      UniqueOrder(init, i, j);
      IndexOfSnoc(init, x, u[j]);
    } else {
      IndexOfLast(init, x);
    }
  }

  /** A list without duplicates is its own deduplication. */
  lemma {:induction false} UniqueOfDistinct(s: seq<string>)
    requires NoDuplicates(s)
    ensures Unique(s) == s
  {
    if s != [] {
      var init := s[..|s| - 1];
      UniqueOfDistinct(init);
      assert s[|s| - 1] !in init;
      assert s == init + [s[|s| - 1]];
    }
  }

  /** The dedup loop: `seen` holds what `unique_urls` holds. */
  method Dedup(urls: seq<string>) returns (uniqueUrls: seq<string>)
    ensures uniqueUrls == Unique(urls)
  {
    var seen: set<string> := {};
    uniqueUrls := [];
    var i := 0;
    while i < |urls|
      invariant 0 <= i <= |urls|
      invariant uniqueUrls == Unique(urls[..i])
      invariant forall x :: x in seen <==> x in uniqueUrls
    {
      assert urls[..i + 1][..i] == urls[..i];
      var u := urls[i];
      i := i + 1;
      if u in seen {
        continue;
      }
      seen := seen + {u};
      uniqueUrls := uniqueUrls + [u];
    }
    assert urls[..i] == urls;
  }

  /**
   * What a fetch yields: None when the request or its status check raised or
   * `urljoin` raised on some href, otherwise the collected list deduplicated.
   */
  function Scraped(page: Option<seq<string>>, join: string -> Option<string>): (r: Option<seq<string>>)
    ensures r.None? <==> page.None? || AnyJoinRaises(page.value, join)
    ensures r.Some? ==> NoDuplicates(r.value) && forall u :: u in r.value <==> u in Collected(page.value, join)
  {
    if page.None? || AnyJoinRaises(page.value, join) then None
    else Some(Unique(Collected(page.value, join)))
  }

  /**
   * _fetch_remote_image_urls, given the href values of the fetched page, or
   * None when the request or its status check raised. None is the exception
   * passed on.
   */
  method FetchRemoteImageUrls(page: Option<seq<string>>, join: string -> Option<string>) returns (r: Option<seq<string>>)
    ensures r == Scraped(page, join)
  {
    if page.None? {
      return None;
    }
    var urls := CollectImageUrls(page.value, join);
    if urls.None? {
      return None;
    }
    var unique := Dedup(urls.value);
    return Some(unique);
  }
}
