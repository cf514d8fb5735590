/**
 * The image list endpoint (main.py, api_images): the `limit` argument and its
 * clamp, the refresh flag, the shuffle and the truncated, proxied selection.
 * Flask's `type=int` conversion is the parameter `parseInt`, Python's
 * `random._randbelow` the oracle `randbelow`, and `urllib.parse.quote(u,
 * safe='')` the parameter `quote`.
 */
module Api {
  import opened Wrappers
  import opened Strings
  import opened Http
  import opened ImageList
  import opened Cache

  const DEFAULT_LIMIT: int := 60
  const MAX_LIMIT: int := 200

  /** `request.args.get("limit", default=60, type=int)`: the default when absent or not an integer. */
  function RequestedLimit(args: Args, parseInt: string -> Option<int>): (r: int)
    ensures "limit" !in args ==> r == DEFAULT_LIMIT
    ensures "limit" in args && parseInt(args["limit"]).None? ==> r == DEFAULT_LIMIT
    ensures "limit" in args && parseInt(args["limit"]).Some? ==> r == parseInt(args["limit"]).value
  {
    match Arg(args, "limit")
    case None => DEFAULT_LIMIT
    case Some(v) =>
      match parseInt(v)
      case None => DEFAULT_LIMIT
      case Some(n) => n
  }

  /** `max(1, min(limit, 200))`: always in 1..200, and a limit already there is kept. */
  function ClampLimit(limit: int): (r: int)
    ensures 1 <= r <= MAX_LIMIT
    ensures 1 <= limit <= MAX_LIMIT ==> r == limit
    ensures limit < 1 ==> r == 1
    ensures limit > MAX_LIMIT ==> r == MAX_LIMIT
  {
    var m := if limit <= MAX_LIMIT then limit else MAX_LIMIT;
    if 1 >= m then 1 else m
  }

  /** `random.shuffle`: for i from the last index down to 1, swap item i with item randbelow(i + 1). */
  method Shuffle(s: seq<string>, randbelow: nat -> nat) returns (r: seq<string>)
    ensures |r| == |s| && multiset(r) == multiset(s)
  {
    r := s;
    var i := |r|;
    while i > 1
      invariant 0 <= i <= |r| && |r| == |s|
      invariant multiset(r) == multiset(s)
    {
      i := i - 1;
      var j := randbelow(i + 1) % (i + 1);
      var a, b := r[i], r[j];
      r := r[i := b][j := a];
    }
  }

  /** The JSON body of a successful response. */
  datatype ImagesReply = ImagesReply(images: seq<string>, count: nat, refreshed: bool)

  const PROXY_PREFIX: string := "/proxy?url="

  /** The proxied form of one source URL: the proxy route with the quoted URL as its argument. */
  function ProxyPath(u: string, quote: string -> string): (r: string)
    ensures |r| == |PROXY_PREFIX| + |quote(u)|
    ensures r[..|PROXY_PREFIX|] == PROXY_PREFIX && r[|PROXY_PREFIX|..] == quote(u)
  {
    var r := PROXY_PREFIX + quote(u);
    assert r[..|PROXY_PREFIX|] == PROXY_PREFIX && r[|PROXY_PREFIX|..] == quote(u);
    r
  }

  function Proxied(selected: seq<string>, quote: string -> string): (r: seq<string>)
    ensures |r| == |selected|
    ensures forall k | 0 <= k < |r| :: r[k] == ProxyPath(selected[k], quote)
  {
    seq(|selected|, k requires 0 <= k < |selected| => ProxyPath(selected[k], quote))
  }

  /**
   * When `quote` never maps two URLs to the same text, distinct URLs stay
   * distinct once proxied, so a list without duplicates is answered without any.
   */
  lemma ProxiedDistinct(selected: seq<string>, quote: string -> string)
    requires forall a, b :: quote(a) == quote(b) ==> a == b
    requires NoDuplicates(selected)
    ensures NoDuplicates(Proxied(selected, quote))
  {
    var r := Proxied(selected, quote);
    forall i, j | 0 <= i < j < |r|
      ensures r[i] != r[j]
    {
      assert r[i][|PROXY_PREFIX|..] == quote(selected[i]) != quote(selected[j]) == r[j][|PROXY_PREFIX|..];
    }
  }

  /**
   * The refresh argument: "1", "true" or "yes" (exactly) force a refetch
   * whatever the age of the list; anything else, "True" and "0" included,
   * leaves the refetch to an empty or stale list.
   */
  lemma RefreshFlag(args: Args, urls: seq<string>, lastFetch: real, now: real)
    ensures Truthy(args, "refresh") ==> NeedsRefresh(Truthy(args, "refresh"), urls, lastFetch, now)
    ensures !Truthy(args, "refresh") ==>
              (NeedsRefresh(Truthy(args, "refresh"), urls, lastFetch, now)
               <==> urls == [] || now > lastFetch + CACHE_TTL_SECONDS)
    ensures "refresh" !in args ==> !Truthy(args, "refresh")
    ensures Truthy(map["refresh" := "yes"], "refresh")
    ensures !Truthy(map["refresh" := "True"], "refresh") && !Truthy(map["refresh" := "0"], "refresh")
  {
    assert "True" !in {"1", "true", "yes"} && "0" !in {"1", "true", "yes"};
  }

  /**
   * The response for the cached list `urls` given its shuffled copy: the first
   * `limit` URLs of the shuffle, proxied, and the size of the whole list.
   */
  function Respond(urls: seq<string>, shuffled: seq<string>, limit: int, refreshed: bool, quote: string -> string)
    : (r: ImagesReply)
    requires |shuffled| == |urls| && multiset(shuffled) == multiset(urls)
    ensures r.count == |urls| && r.refreshed == refreshed
    ensures urls == [] ==> r.images == [] && r.count == 0
    ensures |r.images| <= |urls|
    ensures 1 <= limit ==> |r.images| == Min(limit, |urls|)
    ensures forall k | 0 <= k < |r.images| :: shuffled[k] in urls && r.images[k] == ProxyPath(shuffled[k], quote)
    ensures multiset(shuffled[..|r.images|]) <= multiset(urls)
  {
    if urls == [] then ImagesReply([], 0, refreshed)
    else
      var selected := Take(shuffled, limit);
      assert shuffled == selected + shuffled[|selected|..];
      assert forall k | 0 <= k < |selected| :: shuffled[k] in multiset(urls);
      ImagesReply(Proxied(selected, quote), |urls|, refreshed)
  }

  /** The limit the endpoint uses. */
  function EffectiveLimit(args: Args, parseInt: string -> Option<int>): (r: int)
    ensures 1 <= r <= MAX_LIMIT
    ensures "limit" !in args ==> r == DEFAULT_LIMIT
  {
    ClampLimit(RequestedLimit(args, parseInt))
  }

  /**
   * api_images. None is the exception from a failed refresh, which Flask turns
   * into a server error. `shuffled` is the shuffle the response was cut from.
   */
  method ApiImages(cache: ImageCache, args: Args, parseInt: string -> Option<int>, now: real,
                   page: Option<seq<string>>, join: string -> Option<string>, fetchedAt: real,
                   randbelow: nat -> nat, quote: string -> string)
    returns (r: Option<ImagesReply>, ghost shuffled: seq<string>)
    modifies cache
    ensures var refresh := NeedsRefresh(Truthy(args, "refresh"), old(cache.imageUrls), old(cache.lastFetch), now);
            && (r.None? <==> refresh && Scraped(page, join).None?)
            && cache.imageUrls == (if refresh && Scraped(page, join).Some? then Scraped(page, join).value else old(cache.imageUrls))
            && cache.lastFetch == (if refresh && Scraped(page, join).Some? then fetchedAt else old(cache.lastFetch))
            && (r.Some? ==>
                  && |shuffled| == |cache.imageUrls| && multiset(shuffled) == multiset(cache.imageUrls)
                  && r.value == Respond(cache.imageUrls, shuffled, EffectiveLimit(args, parseInt), refresh, quote))
  {
    var limit := RequestedLimit(args, parseInt);
    limit := ClampLimit(limit);
    var force := Truthy(args, "refresh");
    var lookup := cache.Get(force, now, page, join, fetchedAt);
    if lookup.None? {
      return None, [];
    }
    var imageUrls, refreshed := lookup.value.urls, lookup.value.refreshed;
    if imageUrls == [] {
      return Some(ImagesReply([], 0, refreshed)), [];
    }
    var randomized := Shuffle(imageUrls, randbelow);
    shuffled := randomized;
    var selected := Take(randomized, limit);
    var proxied := Proxied(selected, quote);
    r := Some(ImagesReply(proxied, |imageUrls|, refreshed));
  }
}
