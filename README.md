# A Dafny model of the webcrawler crawl engine

This project models the crawl engine of the `crawler` package (`pkg/crawler/crawler.go`)
and the key listing of `CrawledLinks` (`pkg/crawler/types.go`). Given a base URL, the crawler:

1. sends the base URL as the first task;
2. lets a worker fetch each task's page and read its anchors' `href`s;
3. formats each `href` into an absolute URL;
4. claims, counts and queues every formatted URL that is new and starts with the base URL;
5. stops when the outstanding-work counter (`taskWg`) drops to zero.

The engine is modelled as a sequential worklist. In Go, a worker that receives a link from
`tasks` does not run it: it starts `go c.extractContent(link)` (`pkg/crawler/crawler.go:100`).
The scheduler may run such goroutines later, in any order, each to the end. So the model keeps
the links that were counted and sent, whether a worker has received them yet or not, whose
`extractContent` has not started. Each step of `Crawl` starts one of them, chosen arbitrarily,
and runs it to completion. Every such order is a legal schedule of the goroutine pool.

Modules:

- `Wrappers` (`wrappers.dfy`): `Option` and `Result`.
- `CrawledLinks` (`types.dfy`): `List`, and the predicate `IsListing` ("lists every key
  exactly once"), which `GetVisitedLinks` also uses.
- `NetUrl` (`url.dfy`): `formatURL` and `isValidURL`. Go's `net/url` (`Parse`,
  `ResolveReference`, `String`) is passed in as a `UrlLib` value whose functions are
  uninterpreted. Only the wrapper's own branches are modelled: a parse error gives `""`; an
  absolute href is serialised; a relative href is resolved against the page.
- `Frontier` (`frontier.dfy`): the engine's shared state as a value, `State(visited, queue, pending)`.
  - The pure transitions the methods are proved against: `Claim` (`processLink`),
    `ClaimAll` (the anchor loop), `Step` (`extractContent`), `RunNext` (start and run any one pending task).
  - The invariant `Consistent`: the counter equals queued plus in-flight tasks; every claim
    is in scope; every queued task is the seed or a claimed link.
  - The crawl's result: `LeastClosed`, the least set that contains every in-scope link found
    on the seed page or on one of its own pages.
- `Crawler` (`crawler.dfy`):
  - `Validate` and `New`.
  - The class `Crawler`. Its fields are `baseURL`, `crawledLinks` (a set), `tasks` (a `seq`
    of the links counted and sent on the `tasks` channel whose `extractContent` has not
    started), `taskWg` (an `int`), `workers`, and `httpGet` (the HTTP client together with
    goquery's anchor extraction). A ghost `inFlight` counts the tasks whose `extractContent`
    has started but not finished.
  - Its methods `ProcessLink`, `NextTask` (the start of `go c.extractContent(link)` in `run`), `ExtractContent`,
    `Crawl` and `GetVisitedLinks`.

External collaborators are parameters:

- The page fetch is the constructor argument `httpGet: Link -> FetchResult`. A result is
  `GetFailed` (transport error) or `Response(status, document)`. `document` is `None` when
  goquery cannot build a document. Otherwise it holds one `Option<string>` per `<a>`: its
  `href` attribute, if it has one.
- `net/url` is the `UrlLib` argument of `New`, `ExtractContent` and `Crawl`.

The seed is sent as a task but never stored in `crawledLinks` (`pkg/crawler/crawler.go:74-75`),
and the 404 test expects an empty result (`pkg/crawler/crawler_test.go:105-109`). In the model
the seed is claimed only when some page of the crawl links back to exactly that string
(`Frontier.SeedClaimedOnlyIfLinked`), so a seed page that fails leaves the result empty
(`Frontier.SeedFailureClaimsNothing`).

## Model

| member | source | states |
|---|---|---|
| `CrawledLinks.List` | pkg/crawler/types.go:5-12 | The result holds every key of the map whatever its boolean value, holds only keys, has no duplicates, and is as long as the key set. The map is a value, so it is unchanged. |
| `NetUrl.FormatURL` | pkg/crawler/crawler.go:158-175 | A parse error on the href gives `""`. So does a relative href whose page URL does not parse. |
| `NetUrl.AbsoluteIgnoresBase` | pkg/crawler/crawler.go:165-167 | An absolute href is formatted as its own serialisation, whatever page it was found on. |
| `NetUrl.ValidURLIsNonEmpty` | pkg/crawler/crawler.go:177-181 | If `url.Parse("")` yields a URL without a scheme (as Go's does), no URL that passes `isValidURL` is empty. |
| `Crawler.Validate` | pkg/crawler/crawler.go:40-48 | Validation fails exactly when the base URL is invalid or `workers < 1`. An invalid URL is reported first, with the URL. A bad worker count is reported with the count. |
| `Crawler.New` | pkg/crawler/crawler.go:40-59 | On a validation error, returns that error. Otherwise returns a fresh crawler that keeps the given base URL, fetch and worker count, with nothing claimed, nothing queued, a zero counter and the invariant holding. |
| `Crawler.Crawler.constructor` | pkg/crawler/crawler.go:50-57 | Builds the empty engine state (empty set, empty queue, zero counter) and establishes the invariant. |
| `Crawler.Crawler.ProcessLink` | pkg/crawler/crawler.go:140-146 | The new state is `Claim` of the old one. When the link is unclaimed and has the base URL as prefix, it is added to the set, the counter rises by one, and the link is appended to the queue. Otherwise nothing changes. |
| `Crawler.Crawler.NextTask` | pkg/crawler/crawler.go:93-100 | The `extractContent` goroutine of the `i`-th pending link starts, for any `i`. That task leaves the queue, which otherwise keeps its order, and becomes in flight. The counter and the claimed set are unchanged, and the invariant is kept. |
| `Crawler.Crawler.ExtractContent` | pkg/crawler/crawler.go:106-137 | The new state is `Step` of the old one: each anchor with an `href` is formatted and passed to `ProcessLink` in document order, but only when the GET succeeds, the status is in [200, 400) and the body parses. The counter is decremented once on every path. The task leaves flight and the invariant is kept. |
| `Crawler.Crawler.Crawl` | pkg/crawler/crawler.go:62-83 | Counts and sends the seed, then runs tasks until the counter is zero. Each step starts a pending task chosen arbitrarily. If the reachable in-scope part of the site is finite, the crawl ends with counter zero and queue empty, whatever order the tasks were started in. The claimed set is then the least closed set, all within the given site. The number of tasks run is one for the seed plus one per claimed link. |
| `Crawler.Crawler.GetVisitedLinks` | pkg/crawler/crawler.go:148-156 | Returns every claimed link exactly once: no duplicates, no other element, as many as are claimed. |
| `Frontier.CounterTracksWork` | pkg/crawler/crawler.go:74-77 | Under the invariant the counter is never negative. It is zero exactly when no task is queued or in flight, so waiting for zero waits for quiescence. |
| `Frontier.ClaimExtends` | pkg/crawler/crawler.go:140-146 | One `processLink` keeps the claimed set growing and the queue's old contents in place. Each new claim is appended once and counted once. |
| `Frontier.ClaimAllEffect` | pkg/crawler/crawler.go:132-146 | Running `processLink` on a page's links claims exactly the in-scope links not claimed before. Each newly claimed link is appended to the queue exactly once; a link claimed earlier is never queued again. The counter rises by the number of links appended. |
| `Frontier.ClaimAllVisited` | pkg/crawler/crawler.go:141-142 | The claimed set after the page's links is the old set plus exactly the in-scope links among them. |
| `Frontier.ClaimAllExtends` | pkg/crawler/crawler.go:142-144 | The queue gains exactly the newly claimed links, once each, and the counter rises by as many. |
| `Frontier.FailedTaskOnlyFinishes` | pkg/crawler/crawler.go:106-129 | A task whose GET fails, whose status is outside [200, 400), or whose body does not parse leaves the set and the queue unchanged. It still decrements the counter by one. |
| `Frontier.StepEffect` | pkg/crawler/crawler.go:106-137 | After one task, the claimed set grows by exactly the in-scope discovered links. The queue's new part lists the new claims once each. The counter rises by one per enqueued link and falls by one for the task itself. |
| `Frontier.StepPreservesConsistent` | pkg/crawler/crawler.go:107-146 | A task keeps the invariant, with one fewer task in flight. The invariant: counter = queued + in flight, every claim in scope, every queued task the seed or a claim. |
| `Frontier.EmptyLinkIgnored` | pkg/crawler/crawler.go:141 | Under a non-empty base URL, the `""` that `formatURL` returns on a parse error is never claimed and changes nothing. |
| `Frontier.LeastClosedUnique` | pkg/crawler/crawler.go:62-83 | There is only one least closed set. `Crawl` ends in it whatever order the pending tasks are started in, so every sequential schedule claims the same links. |
| `Frontier.UnparsableHrefIgnored` | pkg/crawler/crawler.go:133-135 | When the base URL passed `isValidURL` and `url.Parse("")` has no scheme, an href that does not parse is formatted to `""`, and passing it to `processLink` changes nothing. |
| `Frontier.LeastClosedInScope` | pkg/crawler/crawler.go:141 | Every link in the crawl's result has the base URL as a string prefix. |
| `Frontier.SeedFailureClaimsNothing` | pkg/crawler/crawler.go:74-75 | If the seed page's GET, status or parse fails, the result is empty: the seed itself is not claimed. |
| `Frontier.SeedClaimedOnlyIfLinked` | pkg/crawler/crawler.go:74-75 | If the result holds the seed, then the seed page or a claimed page has an anchor that formats to exactly the seed string. |
| `Frontier.CrawlStep` | pkg/crawler/crawler.go:93-137 | Starting and running any pending task keeps the crawl loop's invariant: the seed and every claim have run or are queued; the in-scope links of every page that ran are claimed; only links that every closed set contains are claimed. |
| `Frontier.CrawlProgress` | pkg/crawler/crawler.go:141-144 | Whichever pending task runs, it either claims something new or shortens the queue. The queue grows by one less than the number of new claims, which bounds the tasks run by one plus the claims. |
| `Frontier.CrawlDone` | pkg/crawler/crawler.go:77 | Once nothing is queued, the loop invariant makes the claimed set the least closed set. |

## Left out

- Goroutines, the `select` on `taskDone`/`tasks`, the closed-channel check, `go c.extractContent`, the worker `WaitGroup` and `close(c.taskDone)` (`pkg/crawler/crawler.go:68-102`): the model runs tasks one at a time. `workers` is validated and stored but not used, because a sequential schedule needs no pool.
- Tasks that overlap in time: the model runs each task to completion before the next one starts, so interleavings of two tasks' `processLink` calls are not covered. The sequential orders are all covered, because any pending task may start next.
- The race between `Load` and `Store` on the `sync.Map` (`pkg/crawler/crawler.go:141-142`): it exists only under concurrency. In the model, checking and claiming a link is one step.
- The HTTP client with its retry and TLS settings (`internal/httpclient/client.go`), the `retryMax` and `retryMaxWait` arguments of `New`, and `defer resp.Body.Close()`: the fetch is the `httpGet` parameter.
- HTML parsing with goquery: `httpGet` returns the anchors' `href` attributes directly.
- The bodies of `url.Parse`, `ResolveReference` and `URL.String` (RFC 3986 reference resolution): they are the uninterpreted functions of `UrlLib`.
- Logging and timing (`logrus`, `time.Now`, `time.Since`), including the `GetVisitedLinks` call that only feeds a log line in `Crawl`.
- The text of the error messages (`_errInvalidBaseURL`, `_errInvalidWorkers`): `NewError` carries the rejected value instead of a formatted string.
- `cmd/main.go` is not part of this model: it is argument handling and process exit.
- NetUrl.FormatURL: its contract states only the results that do not depend on net/url (the `""` cases). The absolute and relative cases are stated through `NetUrl.AbsoluteIgnoresBase`, or not at all, because resolution is uninterpreted.
- Crawler.Crawler.Crawl: requires a finite closed set of links (`site`). On a site whose reachable part is infinite, the Go crawl never ends; the model does not cover that run.
- Crawler.Crawler.Crawl: requires a crawler that has not crawled yet. In Go a second call either blocks forever on the send at `pkg/crawler/crawler.go:75`, or panics on the second `close(c.taskDone)` at line 78. Which one happens depends on the random choice each worker's `select` makes: `taskDone` is closed, so that case is always ready, but a worker can still receive the seed.
