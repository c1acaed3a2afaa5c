/**
 * `RussianPostManager::getCategoryList`: a read-through cache in front of the
 * category-list library. The cache key is a fixed prefix followed by the JSON
 * of the exclusion list; the list is not sorted, so the same codes in another
 * order make another key.
 */
module RussianPostManager {
  import opened Catalog
  import Json

  /** The cache backend's contents: cache id to stored category list. */
  type Cache = map<string, Tree>

  /** The category-list library: the category list with the given top-level codes removed. */
  type CategorySource = seq<int> -> Tree

  /** The exclusion list used when the caller passes none. */
  const DefaultExclude: seq<int> := [400, 700, 800]

  const KeyPrefix: string := "russian_post_category:"

  function CacheKey(exclude: seq<int>): string {
    KeyPrefix + Json.EncodeInts(exclude)
  }

  /** What one call returns, the cache afterwards, and whether the library was consulted. */
  datatype Fetched = Fetched(data: Tree, cache: Cache, sourceCalled: bool)

  function GetCategoryList(cache: Cache, source: CategorySource, exclude: seq<int>): (r: Fetched)
    // afterwards the key holds exactly what was returned
    ensures CacheKey(exclude) in r.cache && r.cache[CacheKey(exclude)] == r.data
    // a hit returns the stored data and leaves the cache and the library alone
    ensures CacheKey(exclude) in cache ==> !r.sourceCalled && r.data == cache[CacheKey(exclude)] && r.cache == cache
    // a miss asks the library once, with the caller's list, and returns its answer
    ensures CacheKey(exclude) !in cache ==> r.sourceCalled && r.data == source(exclude)
    // only the computed key is written
    ensures r.cache.Keys == cache.Keys + {CacheKey(exclude)}
    ensures forall k :: k in cache && k != CacheKey(exclude) ==> r.cache[k] == cache[k]
  {
    var cid := CacheKey(exclude);
    if cid in cache then
      Fetched(cache[cid], cache, false)
    else
      var result := source(exclude);
      Fetched(result, cache[cid := result], true)
  }

  /** Two lists share a cache entry only when they are the same list. */
  lemma CacheKeyInjective(xs: seq<int>, ys: seq<int>)
    ensures CacheKey(xs) == CacheKey(ys) <==> xs == ys
  {
    if CacheKey(xs) == CacheKey(ys) {
      var k := CacheKey(xs);
      assert Json.EncodeInts(xs) == k[|KeyPrefix|..] == Json.EncodeInts(ys);
    }
    Json.EncodeIntsInjective(xs, ys);
  }

  lemma DefaultNumerals()
    ensures Json.IntToString(400) == "400"
    ensures Json.IntToString(700) == "700"
    ensures Json.IntToString(800) == "800"
  {
    assert Json.Digit(0) == '0' && Json.Digit(4) == '4' && Json.Digit(7) == '7' && Json.Digit(8) == '8';
    assert Json.NatToString(4) == "4";
    assert Json.NatToString(40) == "40";
    assert Json.NatToString(7) == "7";
    assert Json.NatToString(70) == "70";
    assert Json.NatToString(8) == "8";
    assert Json.NatToString(80) == "80";
  }

  /** The default list is keyed `russian_post_category:[400,700,800]`; a reordering of it is keyed apart. */
  lemma DefaultCacheKey()
    ensures CacheKey(DefaultExclude) == "russian_post_category:[400,700,800]"
    ensures CacheKey([700, 400, 800]) != CacheKey(DefaultExclude)
  {
    DefaultNumerals();
    assert Json.JoinInts([800]) == "800";
    assert Json.JoinInts([700, 800]) == "700,800";
    assert Json.JoinInts([400, 700, 800]) == "400,700,800";
    CacheKeyInjective([700, 400, 800], DefaultExclude);
  }

  /** A second call with the same list is a hit: same data, no library call, cache unchanged. */
  lemma SecondCallHits(cache: Cache, source: CategorySource, exclude: seq<int>)
    ensures var first := GetCategoryList(cache, source, exclude);
            var second := GetCategoryList(first.cache, source, exclude);
            second == Fetched(first.data, first.cache, false)
  {
  }

  /** Every stored entry is what the library answers for the list it is keyed by. */
  ghost predicate Coherent(cache: Cache, source: CategorySource) {
    forall xs: seq<int> :: CacheKey(xs) in cache ==> cache[CacheKey(xs)] == source(xs)
  }

  /**
   * Against an unchanging library the cache is transparent: from a coherent
   * cache every call returns what the library would return for that list,
   * and the cache stays coherent. This rests on distinct lists having
   * distinct keys.
   */
  lemma CoherentCacheIsTransparent(cache: Cache, source: CategorySource, exclude: seq<int>)
    requires Coherent(cache, source)
    ensures GetCategoryList(cache, source, exclude).data == source(exclude)
    ensures Coherent(GetCategoryList(cache, source, exclude).cache, source)
  {
    var r := GetCategoryList(cache, source, exclude);
    forall xs: seq<int> | CacheKey(xs) in r.cache
      ensures r.cache[CacheKey(xs)] == source(xs)
    {
      CacheKeyInjective(xs, exclude);
    }
  }
}
