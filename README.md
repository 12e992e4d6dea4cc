# w3af Chrome crawler: disposition rules and traffic relay

This project models the core of w3af's Chrome crawler
(`w3af/core/controllers/chrome/crawler.py`) in Dafny and proves what it
promises about the browsers it leases.

`ChromeCrawler.crawl(url, queue)` takes an `InstrumentedChrome` browser from
the `ChromePool`, tags it with a debugging id, loads the URL, waits for the
load, stops the browser when the load did not complete, and then hands the
browser back to the pool (`free`) or throws it away (`remove`) when an
exception suggests it is corrupted. Every failure the code catches raises
`ChromeCrawlerException`; success returns `True`. The call to
`set_debugging_id` sits outside any `try`: when it raises, the exception
leaves `crawl` unchanged and the leased browser is neither freed nor removed. From the moment the pool
hands it out, the browser pushes each captured request/response pair through a
`CrawlerHTTPTrafficQueue`, which counts it and forwards it unchanged to the
caller's queue.

Files:

- `traffic.dfy` (module `HttpTraffic`): the caller's queue (`TrafficSink`) and
  the counting relay `CrawlerHttpTrafficQueue`, a class whose `count` field
  `Put` updates in place. Its invariant `Valid()` says that `count` is the
  number of items forwarded and that the sink holds exactly what it held
  when the relay was created, followed by those items in order.
- `chrome.dfy` (module `Chrome`): the collaborators, seen only through the
  calls the crawler makes. Each `InstrumentedChrome` follows a fixed `Script`:
  whether `set_debugging_id` raises, whether `load_url` raises, whether `wait_for_load` raises or returns
  loaded/not loaded, whether `stop` raises, and the traffic it captures while
  `load_url` runs and while the crawler waits. `ChromePool.Get` hands out the browser in its `next` field, or
  raises when that is null. Both classes keep a ghost log of the calls made
  on them. The pool's log names browsers by an `id` field, and distinct
  browsers are taken to have distinct ids (Python tells them apart by object
  identity).
- `crawler.dfy` (module `Crawler`): `ChromeCrawler` with `Crawl` and
  `Terminate`. The pure function `Expected(acquired, url, did)` gives, for
  every combination of collaborator outcomes, the result, the exact calls
  on the pool and on the browser, and the browsers the crawl leaves leased.
  `Crawl` is proved to behave as `Expected` says, and the lemmas state the
  disposition rules about `Expected`. The class invariant `Valid()` says the
  pool's log is *settled*: each time the pool handed a browser out, that
  lease was ended by one `free` or `remove`, or is listed in the ghost field
  `leaked` because an uncaught exception ended the crawl. `Crawl` and
  `Terminate` preserve it.

Exceptions become results: `CrawlerError(cause)` for `ChromeCrawlerException`,
where the cause names the phase that failed (`GetFailed`, `LoadFailed`,
`WaitFailed`, `StopFailed`), and `Uncaught(TagFailed)` for the exception of
`set_debugging_id`, which `crawl` does not catch. `return True` becomes
`Ok(true)`.

## Model

| member | source | states |
|---|---|---|
| `Crawler.ChromeCrawler.Crawl` | w3af/core/controllers/chrome/crawler.py:50-150 | the result, the calls on the pool, the calls on the browser and the items added to the caller's queue and the browsers left leased are exactly those `Expected` gives for the pool's and browser's outcomes; the browser is tagged with the debugging id unless tagging raised, and streams into a fresh relay whose count equals the items delivered; the pool stays settled |
| `Crawler.GetFailureDisposesNothing` | w3af/core/controllers/chrome/crawler.py:69-76 | when `get` raises, the crawl fails with the acquisition cause, neither `remove` nor `free` is called for any browser, no browser call is made and nothing reaches the queue |
| `Crawler.TagFailureLeaks` | w3af/core/controllers/chrome/crawler.py:68-81 | when `set_debugging_id` raises, the exception leaves the crawl uncaught, the pool's only call is the `get` that handed the browser out, no browser is freed or removed, the browser stays leased, nothing else is called on it and nothing reaches the queue |
| `Crawler.LoadFailureRemoves` | w3af/core/controllers/chrome/crawler.py:84-96 | when `load_url` raises, the browser is removed exactly once and never freed, `wait_for_load` and `stop` are never called, the crawl fails with the load cause, and the traffic captured while loading still reaches the queue and is not taken back |
| `Crawler.WaitFailureRemoves` | w3af/core/controllers/chrome/crawler.py:98-118 | when `wait_for_load` raises, the browser is removed exactly once and never freed, `stop` is not called, the crawl fails with the wait cause, and all traffic captured while loading and during the wait still reaches the queue, in that order |
| `Crawler.StopFailureRemoves` | w3af/core/controllers/chrome/crawler.py:120-140 | when the load did not complete and `stop` raises, the browser is removed exactly once and never freed, the crawl fails with the stop cause, and the captured traffic stays in the queue |
| `Crawler.StoppedBrowserIsFreed` | w3af/core/controllers/chrome/crawler.py:120-150 | when the load did not complete and `stop` succeeds, the browser is freed exactly once, not removed, and the crawl returns True |
| `Crawler.CompletedLoadFrees` | w3af/core/controllers/chrome/crawler.py:120-150 | when the page loads, the browser is freed exactly once, neither removed nor stopped, the captured traffic reaches the queue and the crawl returns True |
| `Crawler.DisposedExactlyOnce` | w3af/core/controllers/chrome/crawler.py:84-150 | on every path that reaches `load_url` (so `set_debugging_id` returned), the browser is freed or removed exactly once in total, never both, no other browser is freed or removed and none is left leased; the crawl succeeds if and only if it was freed, and success is always True |
| `Crawler.StopOnlyWhenIncomplete` | w3af/core/controllers/chrome/crawler.py:81-130 | `stop` is called if and only if `set_debugging_id` and `load_url` succeeded and `wait_for_load` returned that the page did not load |
| `Crawler.BrowserCallsInOrder` | w3af/core/controllers/chrome/crawler.py:81-130 | the calls on the browser are always a prefix of `set_debugging_id(did)`, `load_url(url)`, `wait_for_load()`, `stop()` |
| `Crawler.ExpectedSettled` | w3af/core/controllers/chrome/crawler.py:69-150 | every outcome of a crawl leaves its own pool calls settled: each browser obtained is freed or removed once or, only when an exception escapes the crawl, listed as leaked |
| `Crawler.SettledCounts` | w3af/core/controllers/chrome/crawler.py:84-150 | in a settled pool history, `get` handed each browser out exactly as many times as it was freed, removed or left leased |
| `Crawler.SettledAppend` | w3af/core/controllers/chrome/crawler.py:50-150 | one settled crawl after a settled history leaves the history settled, so any sequence of crawls run one after another keeps the pool settled |
| `Crawler.ChromeCrawler.Terminate` | w3af/core/controllers/chrome/crawler.py:152-154 | the pool's `terminate` is called once, the URI opener reference becomes null, nothing else changes and the pool stays settled |
| `Crawler.ChromeCrawler.constructor` | w3af/core/controllers/chrome/crawler.py:41-48 | keeps the URI opener and creates a fresh pool over it with no calls made yet |
| `HttpTraffic.CrawlerHttpTrafficQueue.constructor` | w3af/core/controllers/chrome/crawler.py:158-161 | the relay wraps the given queue and debugging id and starts with count 0 and nothing forwarded |
| `HttpTraffic.CrawlerHttpTrafficQueue.Put` | w3af/core/controllers/chrome/crawler.py:163-170 | `count` rises by exactly one and the item is appended unchanged to the wrapped queue; the invariant that the queue gained exactly the counted items, in order, is kept |
| `Chrome.InstrumentedChrome.WaitForLoad` | w3af/core/controllers/chrome/crawler.py:98-104 | every item the browser captures during the wait is pushed through the relay before the wait returns or raises, so the relay's count and the queue grow by exactly those items |
| `Chrome.InstrumentedChrome.LoadUrl` | w3af/core/controllers/chrome/crawler.py:70-96 | the browser already streams into the relay it got at `get`, so every item captured while `load_url` runs reaches the queue, whether the call then returns or raises |

## Left out

- Logging through `om.out.debug`: output only, no effect on control flow.
- `time.time()` and the elapsed seconds: wall-clock floating point used only in log messages.
- `rand_alnum(8)`: the debugging id is the parameter `did` of `Crawl`.
- Exception messages: a `Cause` per phase replaces the formatted text.
- ChromePool internals (allocation, health checks, thread safety): `get` hands out a scripted browser or raises; `remove`, `free` and `terminate` only record the call.
- InstrumentedChrome internals (navigation, proxying, network capture): each call returns a scripted outcome.
- Traffic arriving outside `load_url` and `wait_for_load`: the browser's background thread can push traffic at any time during the lease; the model delivers captured traffic only while `load_url` runs and during the wait.
- Concurrency: `Put` is a sequential method; thread safety of `Queue.Queue` is not modelled.
- Overlapping `crawl` calls on one `ChromeCrawler`: the class takes no lock and its pool can lease several browsers at once, but the model runs crawls one after another, and `Valid()` holds between crawls only in that use; each crawl's own pool calls are settled either way (`ExpectedSettled`).
- Exceptions from `pool.remove` and `pool.free`: the code does not guard these calls with `try`, so their exceptions would propagate instead of `ChromeCrawlerException`, and the browser's lease would not be recorded as ended; the model takes these calls as never raising.
- `KeyboardInterrupt` and `SystemExit`: Python 2's `except Exception` does not catch them, so one arriving inside any of the calls would leave the crawl with the browser still leased; the model has no such asynchronous exceptions.
- A caller's queue that does not take an item at once: the code calls `put` with its defaults (`block=True`, no timeout), so a full bounded `Queue.Queue` blocks the capturing thread, and some other queue type might raise; the model's sink accepts every item immediately. Because the relay raises `count` before calling `put`, a `put` that raised would leave `count` one ahead of the queue; the model does not capture that.
- `HttpTraffic.CrawlerHttpTrafficQueue.Put`: the value returned by the wrapped queue's `put` (always None for `Queue.Queue`) is not returned.
