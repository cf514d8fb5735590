/**
 * The server's in-memory cache of the scraped image list (main.py,
 * _ImageCache). The clock reads are parameters: `now` is the reading taken
 * for the staleness test and `fetchedAt` the one taken after a fetch.
 */
module Cache {
  import opened Wrappers
  import opened ImageList

  /** CACHE_TTL_SECONDS: one hour. */
  const CACHE_TTL_SECONDS: real := 60.0 * 60.0

  /** What `get` returns: a copy of the list and whether it was fetched anew. */
  datatype Lookup = Lookup(urls: seq<string>, refreshed: bool)

  /** The refresh rule: forced, nothing cached, or older than the TTL (strictly). */
  predicate NeedsRefresh(forceRefresh: bool, urls: seq<string>, lastFetch: real, now: real)
    ensures !NeedsRefresh(forceRefresh, urls, lastFetch, now)
            <==> !forceRefresh && urls != [] && now <= lastFetch + CACHE_TTL_SECONDS
  {
    forceRefresh || urls == [] || now - lastFetch > CACHE_TTL_SECONDS
  }

  class ImageCache {
    var imageUrls: seq<string>
    var lastFetch: real

    /** An empty list fetched at the epoch: the first `get` always fetches. */
    constructor ()
      ensures imageUrls == [] && lastFetch == 0.0
    {
      imageUrls := [];
      lastFetch := 0.0;
    }

    /**
     * get: on a refresh the page is fetched and the list replaced and
     * stamped; a fetch that raises (Scraped gives None) leaves the cache as it
     * was and returns None. Without a refresh the stored list is returned
     * unchanged.
     */
    method Get(forceRefresh: bool, now: real, page: Option<seq<string>>, join: string -> Option<string>, fetchedAt: real)
      returns (r: Option<Lookup>)
      modifies this
      ensures !NeedsRefresh(forceRefresh, old(imageUrls), old(lastFetch), now) ==>
                && r == Some(Lookup(old(imageUrls), false))
                && imageUrls == old(imageUrls) && lastFetch == old(lastFetch)
      ensures NeedsRefresh(forceRefresh, old(imageUrls), old(lastFetch), now) && Scraped(page, join).None? ==>
                && r.None?
                && imageUrls == old(imageUrls) && lastFetch == old(lastFetch)
      ensures NeedsRefresh(forceRefresh, old(imageUrls), old(lastFetch), now) && Scraped(page, join).Some? ==>
                && imageUrls == Scraped(page, join).value
                && lastFetch == fetchedAt
                && r == Some(Lookup(imageUrls, true))
    {
      var isStale := now - lastFetch > CACHE_TTL_SECONDS;
      if forceRefresh || imageUrls == [] || isStale {
        var fetched := FetchRemoteImageUrls(page, join);
        if fetched.None? {
          return None;
        }
        imageUrls := fetched.value;
        lastFetch := fetchedAt;
        return Some(Lookup(imageUrls, true));
      }
      return Some(Lookup(imageUrls, false));
    }
  }

  /**
   * A successful fetch that found images serves the same list, unrefreshed,
   * to an unforced `get` at any time up to one TTL later, and refetches after.
   */
  lemma FreshForOneTtl(urls: seq<string>, fetchedAt: real, now: real)
    requires urls != []
    ensures !NeedsRefresh(false, urls, fetchedAt, now) <==> now <= fetchedAt + CACHE_TTL_SECONDS
  {
  }

  /**
   * Two unforced gets, the second within an hour of the stamp the first one
   * leaves (its fetch time if it refetched, the old stamp otherwise): the
   * second is served from the cache with the list the first returned.
   */
  method GetTwice(c: ImageCache, now1: real, page: Option<seq<string>>, join: string -> Option<string>,
                  fetchedAt: real, now2: real, page2: Option<seq<string>>)
    returns (r1: Option<Lookup>, r2: Option<Lookup>)
    requires if NeedsRefresh(false, c.imageUrls, c.lastFetch, now1) then now2 <= fetchedAt + CACHE_TTL_SECONDS
             else now2 <= c.lastFetch + CACHE_TTL_SECONDS
    modifies c
    ensures r1.Some? && r1.value.urls != [] ==> r2 == Some(Lookup(r1.value.urls, false))
  {
    r1 := c.Get(false, now1, page, join, fetchedAt);
    r2 := c.Get(false, now2, page2, join, fetchedAt);
  }

  /**
   * The first two requests on a new cache: the first finds it empty and
   * fetches, and a second within an hour of that fetch is served the same list
   * from the cache, however long after the epoch both come.
   */
  method ColdStartTwice(now1: real, page: Option<seq<string>>, join: string -> Option<string>,
                        fetchedAt: real, now2: real, page2: Option<seq<string>>)
    returns (r1: Option<Lookup>, r2: Option<Lookup>)
    requires now2 <= fetchedAt + CACHE_TTL_SECONDS
    ensures r1.Some? && r1.value.urls != [] ==> r2 == Some(Lookup(r1.value.urls, false))
  {
    var c := new ImageCache();
    r1, r2 := GetTwice(c, now1, page, join, fetchedAt, now2, page2);
  }
}
