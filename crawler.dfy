/**
 * ChromeCrawler.crawl: lease a browser from the pool, tag it, load a URL,
 * wait for the load, stop the browser when the load did not complete, and
 * hand the browser back (free) or throw it away (remove). Every exception that
 * w3af's `crawl` catches becomes a CrawlerError result carrying the phase it
 * came from. `set_debugging_id` is called outside any `try`: its exception
 * leaves `crawl` as it is (an Uncaught result), and the browser then stays
 * leased, neither freed nor removed.
 *
 * `Expected` says, for every combination of collaborator outcomes, what a
 * crawl returns and which calls it makes; the lemmas below state the
 * disposition rules about it, and ChromeCrawler.Crawl is proved to behave
 * exactly as `Expected` says.
 */
module Crawler {
  import opened HttpTraffic
  import opened Chrome

  /** The phase whose call raised. */
  datatype Cause = GetFailed | TagFailed | LoadFailed | WaitFailed | StopFailed

  /**
   * `Ok(true)` for `return True` in w3af's `crawl`; `CrawlerError` for
   * ChromeCrawlerException; `Uncaught` for an exception `crawl` lets through.
   */
  datatype CrawlResult = Ok(value: bool) | CrawlerError(cause: Cause) | Uncaught(cause: Cause)

  /** What the pool hands out: a browser's identity and the way it will behave. */
  datatype Lease = Lease(id: nat, script: Script)

  /**
   * Everything one crawl does that can be observed: its result, the calls it
   * makes on the pool and on the leased browser, the items that reach the
   * caller's sink, and the browsers it leaves leased, neither freed nor
   * removed.
   */
  datatype Run = Run(result: CrawlResult, pool: seq<PoolCall>, browser: seq<BrowserCall>, delivered: seq<Item>, leaked: seq<nat>)

  /** The number of occurrences of `e` in `log`. */
  function Count<T(==)>(log: seq<T>, e: T): (n: nat)
    ensures n <= |log|
    ensures n == 0 <==> e !in log
  {
    if log == [] then 0
    else (if log[0] == e then 1 else 0) + Count(log[1..], e)
  }

  /** `Count` is the multiplicity of `e` in the multiset of the log's entries. */
  lemma {:induction false} CountIsMultiplicity<T>(log: seq<T>, e: T)
    ensures Count(log, e) == multiset(log)[e]
  {
    if log != [] {
      assert log == [log[0]] + log[1..];
      CountIsMultiplicity(log[1..], e);
    }
  }

  /** How many times browser `b` was handed back to the pool or removed from it. */
  function Disposals(log: seq<PoolCall>, b: nat): (n: nat)
  {
    Count(log, Remove(b)) + Count(log, Free(b))
  }

  /**
   * Each time the pool handed out browser `b`, the lease was ended by one
   * `free` or `remove`, or was abandoned and appears once in `leaked`.
   */
  ghost predicate SettledFor(log: seq<PoolCall>, leaked: seq<nat>, b: nat)
  {
    multiset(log)[Get(Some(b))] == multiset(log)[Remove(b)] + multiset(log)[Free(b)] + multiset(leaked)[b]
  }

  /** Every lease the pool granted has been ended by one `free` or `remove`, or is listed in `leaked`. */
  ghost predicate Settled(log: seq<PoolCall>, leaked: seq<nat>)
  {
    forall b: nat :: SettledFor(log, leaked, b)
  }

  /** The pool logs and leak lists of settled crawls concatenate to a settled pair. */
  lemma SettledAppend(a: seq<PoolCall>, la: seq<nat>, b: seq<PoolCall>, lb: seq<nat>)
    requires Settled(a, la) && Settled(b, lb)
    ensures Settled(a + b, la + lb)
  {
    forall id: nat
      ensures SettledFor(a + b, la + lb, id)
    {
      assert SettledFor(a, la, id) && SettledFor(b, lb, id);
      assert multiset(a + b) == multiset(a) + multiset(b);
      assert multiset(la + lb) == multiset(la) + multiset(lb);
    }
  }

  /**
   * In a settled history each browser was handed out exactly as many times
   * as it was given back or abandoned: `Settled` restated with `Count`, the
   * form the disposition lemmas below use.
   */
  lemma SettledCounts(log: seq<PoolCall>, leaked: seq<nat>, b: nat)
    requires Settled(log, leaked)
    ensures Count(log, Get(Some(b))) == Disposals(log, b) + Count(leaked, b)
  {
    assert SettledFor(log, leaked, b);
    CountIsMultiplicity(log, Get(Some(b)));
    CountIsMultiplicity(log, Remove(b));
    CountIsMultiplicity(log, Free(b));
    CountIsMultiplicity(leaked, b);
  }

  /** The calls `crawl` makes and the result it gives when the pool hands out `acquired` (None: `get` raised). */
  function Expected(acquired: Option<Lease>, url: string, did: string): (run: Run)
  {
    match acquired
    case None => Run(CrawlerError(GetFailed), [Get(None)], [], [], [])
    case Some(lease) =>
      var b, s := lease.id, lease.script;
      if s.tagRaises then
        Run(Uncaught(TagFailed), [Get(Some(b))], [SetDebuggingId(did)], [], [b])
      else
        var tagAndLoad := [SetDebuggingId(did), LoadUrl(url)];
        if s.loadRaises then
          Run(CrawlerError(LoadFailed), [Get(Some(b)), Remove(b)], tagAndLoad, s.loadTraffic, [])
        else
          var captured := s.loadTraffic + s.traffic;
          match s.wait
          case WaitRaises =>
            Run(CrawlerError(WaitFailed), [Get(Some(b)), Remove(b)], tagAndLoad + [WaitForLoad], captured, [])
          case WaitReturns(loaded) =>
            if loaded then
              Run(Ok(true), [Get(Some(b)), Free(b)], tagAndLoad + [WaitForLoad], captured, [])
            else if s.stopRaises then
              Run(CrawlerError(StopFailed), [Get(Some(b)), Remove(b)], tagAndLoad + [WaitForLoad, Stop], captured, [])
            else
              Run(Ok(true), [Get(Some(b)), Free(b)], tagAndLoad + [WaitForLoad, Stop], captured, [])
  }

  /** When `get` raises nothing is disposed of, the browser is never touched and the crawl fails. */
  lemma GetFailureDisposesNothing(url: string, did: string)
    ensures var r := Expected(None, url, did);
      && r.result == CrawlerError(GetFailed)
      && (forall b: nat :: Disposals(r.pool, b) == 0)
      && r.browser == [] && r.delivered == [] && r.leaked == []
  {
  }

  /**
   * When `set_debugging_id` raises, its exception leaves the crawl uncaught:
   * the browser is neither freed nor removed and stays leased, nothing else
   * is called on it and no traffic is delivered.
   */
  lemma TagFailureLeaks(lease: Lease, url: string, did: string)
    requires lease.script.tagRaises
    ensures var r := Expected(Some(lease), url, did);
      && r.result == Uncaught(TagFailed)
      && r.pool == [Get(Some(lease.id))]
      && (forall b: nat :: Disposals(r.pool, b) == 0)
      && r.browser == [SetDebuggingId(did)]
      && r.delivered == []
      && r.leaked == [lease.id]
  {
  }

  /**
   * When `load_url` raises the browser is removed once, never freed, nothing
   * after the load is called, and the traffic captured while loading still
   * reaches the sink.
   */
  lemma LoadFailureRemoves(lease: Lease, url: string, did: string)
    requires !lease.script.tagRaises
    requires lease.script.loadRaises
    ensures var r := Expected(Some(lease), url, did);
      && r.result == CrawlerError(LoadFailed)
      && Count(r.pool, Remove(lease.id)) == 1 && Count(r.pool, Free(lease.id)) == 0
      && WaitForLoad !in r.browser && Stop !in r.browser
      && r.delivered == lease.script.loadTraffic
  {
  }

  /**
   * When `wait_for_load` raises the browser is removed once and never freed,
   * and the traffic captured while loading and during the wait still
   * reaches the sink, in that order.
   */
  lemma WaitFailureRemoves(lease: Lease, url: string, did: string)
    requires !lease.script.tagRaises
    requires !lease.script.loadRaises && lease.script.wait == WaitRaises
    ensures var r := Expected(Some(lease), url, did);
      && r.result == CrawlerError(WaitFailed)
      && Count(r.pool, Remove(lease.id)) == 1 && Count(r.pool, Free(lease.id)) == 0
      && Stop !in r.browser
      && r.delivered == lease.script.loadTraffic + lease.script.traffic
  {
  }

  /** When the load did not complete and `stop` raises, the browser is removed once and never freed. */
  lemma StopFailureRemoves(lease: Lease, url: string, did: string)
    requires !lease.script.tagRaises
    requires !lease.script.loadRaises && lease.script.wait == WaitReturns(false) && lease.script.stopRaises
    ensures var r := Expected(Some(lease), url, did);
      && r.result == CrawlerError(StopFailed)
      && Count(r.pool, Remove(lease.id)) == 1 && Count(r.pool, Free(lease.id)) == 0
      && Stop in r.browser
      && r.delivered == lease.script.loadTraffic + lease.script.traffic
  {
  }

  /** When the load did not complete but `stop` succeeds, the browser is freed once, never removed, and the crawl succeeds. */
  lemma StoppedBrowserIsFreed(lease: Lease, url: string, did: string)
    requires !lease.script.tagRaises
    requires !lease.script.loadRaises && lease.script.wait == WaitReturns(false) && !lease.script.stopRaises
    ensures var r := Expected(Some(lease), url, did);
      && r.result == Ok(true)
      && Count(r.pool, Free(lease.id)) == 1 && Count(r.pool, Remove(lease.id)) == 0
      && Stop in r.browser
      && r.delivered == lease.script.loadTraffic + lease.script.traffic
  {
  }

  /**
   * On every path that reaches `load_url`, the browser is disposed of exactly
   * once, by `free` or `remove` and never both, and no other browser is
   * disposed of or left leased; the crawl succeeds exactly on the path that
   * frees it, and only ever returns True.
   */
  lemma DisposedExactlyOnce(lease: Lease, url: string, did: string)
    requires !lease.script.tagRaises
    ensures var r := Expected(Some(lease), url, did);
      && Disposals(r.pool, lease.id) == 1
      && (forall other: nat :: other != lease.id ==> Disposals(r.pool, other) == 0)
      && (Count(r.pool, Free(lease.id)) == 0 || Count(r.pool, Remove(lease.id)) == 0)
      && (r.result.Ok? <==> Count(r.pool, Free(lease.id)) == 1)
      && (r.result.Ok? ==> r.result.value)
      && r.leaked == []
  {
  }

  /** When the page finishes loading the browser is freed once, never removed or stopped, and the crawl succeeds. */
  lemma CompletedLoadFrees(lease: Lease, url: string, did: string)
    requires !lease.script.tagRaises
    requires !lease.script.loadRaises && lease.script.wait == WaitReturns(true)
    ensures var r := Expected(Some(lease), url, did);
      && r.result == Ok(true)
      && Count(r.pool, Free(lease.id)) == 1 && Count(r.pool, Remove(lease.id)) == 0
      && Stop !in r.browser
      && r.delivered == lease.script.loadTraffic + lease.script.traffic
  {
  }

  /** `stop` is called exactly when the browser was tagged, the load started, the wait returned, and the page did not finish loading. */
  lemma StopOnlyWhenIncomplete(lease: Lease, url: string, did: string)
    ensures var r := Expected(Some(lease), url, did);
      Stop in r.browser <==> !lease.script.tagRaises && !lease.script.loadRaises && lease.script.wait == WaitReturns(false)
  {
  }

  /** The browser's calls are always a prefix of set_debugging_id, load_url, wait_for_load, stop. */
  lemma BrowserCallsInOrder(acquired: Option<Lease>, url: string, did: string)
    ensures var r := Expected(acquired, url, did);
      r.browser <= [SetDebuggingId(did), LoadUrl(url), WaitForLoad, Stop]
  {
  }

  /**
   * Each crawl, whatever its outcome, disposes of every browser it obtained
   * or lists it as leaked, and it leaks only when an exception escapes it.
   */
  lemma ExpectedSettled(acquired: Option<Lease>, url: string, did: string)
    ensures var r := Expected(acquired, url, did);
      && Settled(r.pool, r.leaked)
      && (r.leaked != [] <==> r.result.Uncaught?)
  {
  }

  /** What the pool's `get` will hand out: the browser's identity and script, or None when `get` raises. */
  function LeaseOf(chrome: InstrumentedChrome?): (lease: Option<Lease>)
  {
    if chrome == null then None else Some(Lease(chrome.id, chrome.script))
  }

  class ChromeCrawler {
    var uriOpener: UriOpener?
    const pool: ChromePool
    /** Browsers whose crawl ended in an uncaught exception before they were given back. */
    ghost var leaked: seq<nat>

    /**
     * Between crawls, every browser leased from the pool has been disposed
     * of, or was abandoned by a crawl that an uncaught exception ended.
     */
    ghost predicate Valid()
      reads this, pool
    {
      Settled(pool.log, leaked)
    }

    constructor (uriOpener: UriOpener)
      ensures this.uriOpener == uriOpener
      ensures fresh(pool) && pool.uriOpener == uriOpener && pool.next == null && pool.log == []
      ensures leaked == []
      ensures Valid()
    {
      this.uriOpener := uriOpener;
      pool := new ChromePool(uriOpener);
      leaked := [];
    }

    /**
     * Crawls `url`, sending the captured traffic to `sink`. `did` stands for
     * the random eight-character debugging id w3af's `crawl` draws.
     */
    method Crawl(url: string, did: string, sink: TrafficSink) returns (r: CrawlResult)
      requires Valid()
      modifies this`leaked, pool`log, pool.next, sink
      ensures Valid()
      ensures pool.next == old(pool.next)
      ensures var chrome := pool.next;
        var run := Expected(LeaseOf(chrome), url, did);
        && r == run.result
        && pool.log == old(pool.log) + run.pool
        && sink.items == old(sink.items) + run.delivered
        && leaked == old(leaked) + run.leaked
        && (chrome != null ==> chrome.calls == old(chrome.calls) + run.browser)
      ensures pool.next != null ==>
        && (!pool.next.script.tagRaises ==> pool.next.debuggingId == did)
        && pool.next.queue != null && fresh(pool.next.queue)
        && pool.next.queue.sink == sink && pool.next.queue.debuggingId == did
        && pool.next.queue.Valid()
        && pool.next.queue.count == |Expected(LeaseOf(pool.next), url, did).delivered|
    {
      ghost var before, leakedBefore, run := pool.log, leaked, Expected(LeaseOf(pool.next), url, did);
      ExpectedSettled(LeaseOf(pool.next), url, did);
      SettledAppend(before, leakedBefore, run.pool, run.leaked);

      var queue := new CrawlerHttpTrafficQueue(sink, did);
      var chrome := pool.Get(queue);
      if chrome == null {
        assert pool.log == before + run.pool && leaked == leakedBefore + run.leaked;
        return CrawlerError(GetFailed);
      }

      var tagRaised := chrome.SetDebuggingId(did);
      if tagRaised {
        leaked := leaked + [chrome.id];
        assert pool.log == before + run.pool && leaked == leakedBefore + run.leaked;
        return Uncaught(TagFailed);
      }

      var loadRaised := chrome.LoadUrl(url);
      if loadRaised {
        pool.Remove(chrome);
        assert pool.log == before + run.pool && leaked == leakedBefore + run.leaked;
        return CrawlerError(LoadFailed);
      }

      var outcome := chrome.WaitForLoad();
      if outcome.WaitRaises? {
        pool.Remove(chrome);
        assert pool.log == before + run.pool && leaked == leakedBefore + run.leaked;
        return CrawlerError(WaitFailed);
      }

      if !outcome.loaded {
        var stopRaised := chrome.Stop();
        if stopRaised {
          pool.Remove(chrome);
          assert pool.log == before + run.pool && leaked == leakedBefore + run.leaked;
          return CrawlerError(StopFailed);
        }
      }

      pool.Free(chrome);
      assert pool.log == before + run.pool && leaked == leakedBefore + run.leaked;
      return Ok(true);
    }

    /** Shuts the pool down and drops the reference to the URI opener. */
    method Terminate()
      requires Valid()
      modifies this`uriOpener, pool`log
      ensures Valid()
      ensures uriOpener == null
      ensures pool.log == old(pool.log) + [PoolCall.Terminate]
    {
      assert multiset([PoolCall.Terminate]) == multiset{PoolCall.Terminate};
      SettledAppend(pool.log, leaked, [PoolCall.Terminate], []);
      assert leaked + [] == leaked;
      pool.Terminate();
      uriOpener := null;
    }
  }
}
