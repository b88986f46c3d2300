// The image proxy: the cache in front of the providers, transparent up to its time to live.
// A call awaits its provider between reading and writing the cache, so calls interleave;
// the two atomic parts of a call are the steps of a run, and so are removals by others.
module ImageProxy {
  import opened Prelude
  import ImageCache
  import Service = ImageCacheService

  type Url = string

  datatype Error = InvalidUrl | ProviderFailed

  /** An answer a provider gave, and when it was stored. */
  datatype Fetch = Fetch(url: Url, response: ImageCache.ImageResponse, at: int)

  datatype Step =
    | Ask(url: Url, now: int)
    | Fetched(url: Url, response: ImageCache.ImageResponse, now: int)
    | Dropped(url: Url)
    | Cleared

  /** A digest that tells all urls apart. */
  ghost predicate CollisionFree(hash: Url -> string) {
    forall u: Url, v: Url :: hash(u) == hash(v) ==> u == v
  }

  /** The cache operation of a step. */
  function CacheOp(hash: Url -> string, s: Step): Service.Op {
    match s
    case Ask(url, now) => Service.Get(hash(url), None, now)
    case Fetched(url, response, now) => Service.Set(hash(url), response, now)
    case Dropped(url) => Service.Delete(hash(url))
    case Cleared => Service.Clear
  }

  function CacheOps(hash: Url -> string, steps: seq<Step>): (ops: seq<Service.Op>)
    ensures |ops| == |steps|
  {
    seq(|steps|, i requires 0 <= i < |steps| => CacheOp(hash, steps[i]))
  }

  /** The provider answers of a run. */
  predicate FetchedIn(steps: seq<Step>, f: Fetch) {
    exists i :: 0 <= i < |steps| && steps[i] == Fetched(f.url, f.response, f.at)
  }

  /** What a call that asks after the run gets from the cache. */
  function Cached(hash: Url -> string, steps: seq<Step>, url: Url, now: int): Option<ImageCache.ImageResponse> {
    Service.Lookup(Service.Run(CacheOps(hash, steps)), hash(url), None, now)
  }

  lemma {:induction false} LatestSetWasFetched(hash: Url -> string, steps: seq<Step>, url: Url)
    requires CollisionFree(hash) && Service.LatestSet(CacheOps(hash, steps), hash(url)).Some?
    ensures var w := Service.LatestSet(CacheOps(hash, steps), hash(url)).value; FetchedIn(steps, Fetch(url, w.0, w.1))
  {
    var n := |steps| - 1;
    var op := CacheOps(hash, steps)[n];
    assert CacheOps(hash, steps)[..n] == CacheOps(hash, steps[..n]);
    if op.Set? && op.key == hash(url) {
      assert steps[n].url == url;
    } else {
      LatestSetWasFetched(hash, steps[..n], url);
      var w := Service.LatestSet(CacheOps(hash, steps), hash(url)).value;
      var i :| 0 <= i < n && steps[..n][i] == Fetched(url, w.0, w.1);
      assert steps[i] == Fetched(url, w.0, w.1);
    }
  }

  /** A cached answer is one a provider gave for that very url, at most an hour before. */
  lemma CachedAnswerIsRecent(hash: Url -> string, steps: seq<Step>, url: Url, now: int)
    requires CollisionFree(hash) && Cached(hash, steps, url, now).Some?
    ensures var answer := Cached(hash, steps, url, now).value;
      exists at :: FetchedIn(steps, Fetch(url, answer, at)) && now - at <= 3600 * 1000
  {
    Service.HitIsLatest(CacheOps(hash, steps), hash(url), None, now);
    LatestSetWasFetched(hash, steps, url);
  }

  /** What a provider answered is found from then on for an hour. */
  lemma FetchedIsCached(
    hash: Url -> string, steps: seq<Step>, url: Url, response: ImageCache.ImageResponse, at: int, now: int
  )
    ensures Cached(hash, steps + [Fetched(url, response, at)], url, now)
         == if now - at <= 3600000 then Some(response) else None
  {
    var all := steps + [Fetched(url, response, at)];
    assert CacheOps(hash, all) == CacheOps(hash, steps) + [Service.Set(hash(url), response, at)];
    Service.WriteIsHit(CacheOps(hash, steps), hash(url), response, at, None, now);
  }

  /** Asking, for the same url not later than the lookup, takes no answer away. */
  lemma AskingKeepsAnswers(hash: Url -> string, steps: seq<Step>, asked: Url, at: int, url: Url, now: int)
    requires Cached(hash, steps, url, now).Some? && (hash(asked) == hash(url) ==> at <= now)
    ensures Cached(hash, steps + [Ask(asked, at)], url, now) == Cached(hash, steps, url, now)
  {
    var ops, all := CacheOps(hash, steps), steps + [Ask(asked, at)];
    var c := Service.Run(ops);
    assert CacheOps(hash, all) == ops + [Service.Get(hash(asked), None, at)];
    assert (ops + [Service.Get(hash(asked), None, at)])[..|ops|] == ops;
    Service.RunConsistent(ops);
    var x := c.slots[ImageCache.Find(c.slots, hash(url)).value];
    Service.SparedStays(c, Service.Get(hash(asked), None, at), x);
    Service.ApplyConsistent(c, Service.Get(hash(asked), None, at));
    Service.FindMember(Service.Apply(c, Service.Get(hash(asked), None, at)).slots, x);
  }

  /** Removing one url leaves the others; clearing leaves none. */
  lemma RemovalsExactly(hash: Url -> string, steps: seq<Step>, dropped: Url, url: Url, now: int)
    requires CollisionFree(hash)
    ensures Cached(hash, steps + [Dropped(dropped)], url, now)
         == if dropped == url then None else Cached(hash, steps, url, now)
    ensures Cached(hash, steps + [Cleared], url, now) == None
  {
    var ops, key := CacheOps(hash, steps), hash(dropped);
    var c := Service.Run(ops);
    assert CacheOps(hash, steps + [Dropped(dropped)]) == ops + [Service.Delete(key)];
    assert CacheOps(hash, steps + [Cleared]) == ops + [Service.Clear];
    assert (ops + [Service.Delete(key)])[..|ops|] == ops && (ops + [Service.Clear])[..|ops|] == ops;
    Service.RunConsistent(ops);
    Service.LookupAfterDelete(c, key, hash(url), now);
    assert Service.Run(ops + [Service.Clear]) == Service.Apply(c, Service.Clear);
  }

  /** One uninterrupted call: reads the clock before looking up and again before storing. */
  method GetImage(
    hash: Url -> string, cache: Service.Cache, imageUrl: Url, valid: bool,
    answer: Result<ImageCache.ImageResponse, Error>, now: int, later: int
  ) returns (r: Result<ImageCache.ImageResponse, Error>, asked: bool)
    requires ImageCache.Consistent(cache.State())
    modifies cache
    ensures ImageCache.Consistent(cache.State())
    ensures !valid ==> r == Err(InvalidUrl) && !asked && cache.State() == old(cache.State())
    ensures valid ==>
      var hit := Service.Lookup(old(cache.State()), hash(imageUrl), None, now);
      var looked := Service.Apply(old(cache.State()), CacheOp(hash, Ask(imageUrl, now)));
      if hit.Some? then r == Ok(hit.value) && !asked && cache.State() == looked
      else
        && asked && r == answer
        && cache.State() == if answer.Err? then looked
                            else Service.Apply(looked, CacheOp(hash, Fetched(imageUrl, answer.value, later)))
  {
    if !valid {
      return Err(InvalidUrl), false;
    }
    var cacheKey := hash(imageUrl);
    Service.ApplyConsistent(cache.State(), Service.Get(cacheKey, None, now));
    var cachedImage := cache.GetEntry(cacheKey, None, now);
    if cachedImage.Some? {
      return Ok(cachedImage.value), false;
    }
    if answer.Ok? {
      cache.SetEntry(cacheKey, answer.value, later);
    }
    return answer, true;
  }
}
