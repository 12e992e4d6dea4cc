/**
 * The traffic relay of the Chrome crawler: the caller's output queue and the
 * counting adapter (CrawlerHTTPTrafficQueue) that the browser pushes every
 * captured request/response pair through.
 */
module HttpTraffic {

  /** One HTTP request and the response it received, as captured by the browser. */
  datatype Item = Item(request: string, response: string)

  /** The caller's unbounded output queue; `Put` appends and never fails. */
  class TrafficSink {
    var items: seq<Item>

    constructor ()
      ensures items == []
    {
      items := [];
    }

    method Put(item: Item)
      modifies this
      ensures items == old(items) + [item]
    {
      items := items + [item];
    }
  }

  /**
   * Pass-through adapter that counts what it forwards. `base` is what the sink
   * held when the relay was created and `forwarded` what the relay has sent on
   * since; the relay is the only writer of its sink while a crawl runs.
   */
  class CrawlerHttpTrafficQueue {
    const sink: TrafficSink
    const debuggingId: string
    var count: nat
    ghost var base: seq<Item>
    ghost var forwarded: seq<Item>

    ghost predicate Valid()
      reads this, sink
    {
      count == |forwarded| && sink.items == base + forwarded
    }

    constructor (sink: TrafficSink, debuggingId: string)
      ensures this.sink == sink && this.debuggingId == debuggingId
      ensures count == 0 && forwarded == [] && base == sink.items
      ensures Valid()
    {
      this.sink := sink;
      this.debuggingId := debuggingId;
      count := 0;
      base := sink.items;
      forwarded := [];
    }

    /** Counts the item, then hands it unchanged to the wrapped sink. */
    method Put(item: Item)
      modifies this`count, this`forwarded, sink
      ensures count == old(count) + 1
      ensures forwarded == old(forwarded) + [item]
      ensures sink.items == old(sink.items) + [item]
      ensures old(Valid()) ==> Valid()
    {
      count := count + 1;
      forwarded := forwarded + [item];
      sink.Put(item);
    }
  }
}
