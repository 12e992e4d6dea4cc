/**
 * The crawler's collaborators, seen only through the calls it makes on them:
 * a pooled InstrumentedChrome browser and the ChromePool it is leased from.
 * Their internals (launching Chrome, navigation, proxying, health checks) are
 * not modelled: each browser follows a fixed Script of outcomes, and the pool
 * hands out whatever browser its `next` field holds. Both keep a ghost log of
 * the calls made on them.
 */
module Chrome {
  import opened HttpTraffic

  datatype Option<T> = None | Some(value: T)

  /** What `wait_for_load` does: raise, or return whether the page finished loading. */
  datatype WaitOutcome = WaitRaises | WaitReturns(loaded: bool)

  /**
   * How one browser answers the crawler: whether `set_debugging_id` raises,
   * whether `load_url` raises, what `wait_for_load` does, whether `stop`
   * raises, and the traffic the browser captures (and pushes into its traffic
   * queue) while `load_url` runs (`loadTraffic`) and while the crawler waits
   * (`traffic`).
   */
  datatype Script = Script(tagRaises: bool, loadRaises: bool, loadTraffic: seq<Item>, wait: WaitOutcome, stopRaises: bool, traffic: seq<Item>)

  datatype BrowserCall = SetDebuggingId(id: string) | LoadUrl(url: string) | WaitForLoad | Stop

  /** A call on the pool; `Get` records which browser it handed out, or None when it raised. */
  datatype PoolCall = Get(handed: Option<nat>) | Remove(browser: nat) | Free(browser: nat) | Terminate

  /** The HTTP transport the pool's browsers fetch through; opaque here. */
  class UriOpener {
  }

  /**
   * A pooled browser. Python tells browsers apart by object identity; here
   * each carries an `id`, and the pool's log names browsers by it, so the
   * model takes the ids of distinct browsers to be distinct.
   */
  class InstrumentedChrome {
    const id: nat
    const script: Script
    var debuggingId: string
    var queue: CrawlerHttpTrafficQueue?
    ghost var calls: seq<BrowserCall>

    constructor (id: nat, script: Script)
      ensures this.id == id && this.script == script
      ensures debuggingId == "" && queue == null && calls == []
    {
      this.id := id;
      this.script := script;
      debuggingId := "";
      queue := null;
      calls := [];
    }

    /** Tags the browser's log output with `did`; `raised` is true when the call raised. */
    method SetDebuggingId(did: string) returns (raised: bool)
      modifies this`debuggingId, this`calls
      ensures raised == script.tagRaises
      ensures !raised ==> debuggingId == did
      ensures raised ==> debuggingId == old(debuggingId)
      ensures calls == old(calls) + [BrowserCall.SetDebuggingId(did)]
    {
      if !script.tagRaises {
        debuggingId := did;
      }
      calls := calls + [BrowserCall.SetDebuggingId(did)];
      raised := script.tagRaises;
    }

    /**
     * Pushes captured traffic, one item at a time, through the traffic queue
     * the pool gave this browser; what is pushed is never taken back.
     */
    method Deliver(captured: seq<Item>)
      requires queue != null
      modifies queue, queue.sink
      ensures queue.count == old(queue.count) + |captured|
      ensures queue.forwarded == old(queue.forwarded) + captured
      ensures queue.sink.items == old(queue.sink.items) + captured
      ensures queue.base == old(queue.base)
      ensures old(queue.Valid()) ==> queue.Valid()
    {
      var i := 0;
      while i < |captured|
        invariant 0 <= i <= |captured|
        invariant queue.count == old(queue.count) + i
        invariant queue.forwarded == old(queue.forwarded) + captured[..i]
        invariant queue.sink.items == old(queue.sink.items) + captured[..i]
        invariant queue.base == old(queue.base)
        invariant old(queue.Valid()) ==> queue.Valid()
      {
        queue.Put(captured[i]);
        i := i + 1;
      }
      assert captured[..i] == captured;
    }

    /**
     * Starts loading `url`; `raised` is true when the call raised. The
     * traffic captured while it runs reaches the queue either way.
     */
    method LoadUrl(url: string) returns (raised: bool)
      requires queue != null
      modifies this`calls, queue, queue.sink
      ensures raised == script.loadRaises
      ensures calls == old(calls) + [BrowserCall.LoadUrl(url)]
      ensures queue.count == old(queue.count) + |script.loadTraffic|
      ensures queue.forwarded == old(queue.forwarded) + script.loadTraffic
      ensures queue.sink.items == old(queue.sink.items) + script.loadTraffic
      ensures queue.base == old(queue.base)
      ensures old(queue.Valid()) ==> queue.Valid()
    {
      Deliver(script.loadTraffic);
      calls := calls + [BrowserCall.LoadUrl(url)];
      raised := script.loadRaises;
    }

    /**
     * Blocks until the page load ends. Meanwhile the browser pushes every
     * item it captures into its traffic queue; those items reach the sink
     * whether the wait then returns or raises.
     */
    method WaitForLoad() returns (outcome: WaitOutcome)
      requires queue != null
      modifies this`calls, queue, queue.sink
      ensures outcome == script.wait
      ensures calls == old(calls) + [BrowserCall.WaitForLoad]
      ensures queue.count == old(queue.count) + |script.traffic|
      ensures queue.forwarded == old(queue.forwarded) + script.traffic
      ensures queue.sink.items == old(queue.sink.items) + script.traffic
      ensures queue.base == old(queue.base)
      ensures old(queue.Valid()) ==> queue.Valid()
    {
      Deliver(script.traffic);
      calls := calls + [BrowserCall.WaitForLoad];
      outcome := script.wait;
    }

    /** Halts an unfinished load; `raised` is true when the call raised. */
    method Stop() returns (raised: bool)
      modifies this`calls
      ensures raised == script.stopRaises
      ensures calls == old(calls) + [BrowserCall.Stop]
    {
      calls := calls + [BrowserCall.Stop];
      raised := script.stopRaises;
    }
  }

  class ChromePool {
    const uriOpener: UriOpener
    /** The browser the next `Get` hands out; null means `Get` raises. */
    var next: InstrumentedChrome?
    ghost var log: seq<PoolCall>

    constructor (uriOpener: UriOpener)
      ensures this.uriOpener == uriOpener && next == null && log == []
    {
      this.uriOpener := uriOpener;
      next := null;
      log := [];
    }

    /** Leases a browser that streams its captured traffic into `queue`; null when `get` raised. */
    method Get(queue: CrawlerHttpTrafficQueue) returns (chrome: InstrumentedChrome?)
      modifies this`log, next
      ensures chrome == next == old(next)
      ensures chrome != null ==> chrome.queue == queue
      ensures chrome != null ==> chrome.calls == old(chrome.calls) && chrome.debuggingId == old(chrome.debuggingId)
      ensures log == old(log) + [PoolCall.Get(if chrome == null then None else Some(chrome.id))]
    {
      chrome := next;
      if chrome != null {
        chrome.queue := queue;
      }
      log := log + [PoolCall.Get(if chrome == null then None else Some(chrome.id))];
    }

    method Remove(chrome: InstrumentedChrome)
      modifies this`log
      ensures log == old(log) + [PoolCall.Remove(chrome.id)]
    {
      log := log + [PoolCall.Remove(chrome.id)];
    }

    method Free(chrome: InstrumentedChrome)
      modifies this`log
      ensures log == old(log) + [PoolCall.Free(chrome.id)]
    {
      log := log + [PoolCall.Free(chrome.id)];
    }

    method Terminate()
      modifies this`log
      ensures log == old(log) + [PoolCall.Terminate]
    {
      log := log + [PoolCall.Terminate];
    }
  }
}
