/**
 * pkg/crawler/crawler.go: the crawl engine, run as a sequential worklist. Each received link
 * runs in a goroutine of its own, which the scheduler may start later, in any order, and run
 * to the end; starting one such goroutine at a time is a legal schedule of the pool.
 */
module Crawler {
  import opened Wrappers
  import opened NetUrl
  import opened CrawledLinks
  import opened Frontier

  /** The two configuration errors of `New`, each carrying the rejected value. */
  datatype NewError = InvalidBaseURL(baseURL: string) | InvalidWorkers(workers: int)

  /**
   * The validation of `New`: the base URL is checked first, then the worker count; the
   * crawler is built exactly when both pass.
   */
  function Validate(lib: UrlLib, baseURL: string, workers: int): (r: Option<NewError>)
    ensures r.None? <==> IsValidURL(lib, baseURL) && workers >= 1
    ensures !IsValidURL(lib, baseURL) ==> r == Some(InvalidBaseURL(baseURL))
    ensures IsValidURL(lib, baseURL) && workers < 1 ==> r == Some(InvalidWorkers(workers))
  {
    if !IsValidURL(lib, baseURL) then Some(InvalidBaseURL(baseURL))
    else if workers < 1 then Some(InvalidWorkers(workers))
    else None
  }

  /**
   * `New`: a crawler for a valid base URL and a positive worker count, with nothing claimed,
   * nothing queued and a zero counter; otherwise the validation error.
   * `httpGet` stands for the retrying HTTP client and goquery's anchor extraction.
   */
  method New(lib: UrlLib, baseURL: string, httpGet: Link -> FetchResult, workers: int)
    returns (r: Result<Crawler, NewError>)
    ensures Validate(lib, baseURL, workers).Some? ==> r == Failure(Validate(lib, baseURL, workers).value)
    ensures Validate(lib, baseURL, workers).None? ==>
      && r.Success? && fresh(r.value) && r.value.Valid()
      && r.value.baseURL == baseURL && r.value.httpGet == httpGet && r.value.workers == workers
      && r.value.crawledLinks == {} && r.value.tasks == [] && r.value.taskWg == 0 && r.value.inFlight == 0
  {
    var err := Validate(lib, baseURL, workers);
    if err.Some? {
      return Failure(err.value);
    }
    var c := new Crawler(baseURL, httpGet, workers);
    return Success(c);
  }

  class Crawler {
    /** The URL the crawl starts from; also the prefix every claimed link must have. */
    const baseURL: Link
    /** The GET of one page, reduced to its status and anchors. */
    const httpGet: Link -> FetchResult
    /** The links claimed so far (`crawledLinks`). */
    var crawledLinks: set<Link>
    /**
     * The links counted and sent on `tasks`, whether a worker has received them yet or not,
     * whose `extractContent` has not started, in the order they were counted.
     */
    var tasks: seq<Link>
    /** The outstanding-work counter (`taskWg`). */
    var taskWg: int
    /** The size of the worker pool. */
    const workers: int
    /** The tasks whose `extractContent` has started and not finished yet. */
    ghost var inFlight: nat

    /** The engine's shared state as a value. */
    function Snapshot(): State
      reads this
    {
      State(crawledLinks, tasks, taskWg)
    }

    /** The counter is the queue length plus the in-flight tasks; claims are in scope; queued tasks are the seed or claimed. */
    ghost predicate Valid()
      reads this
    {
      Consistent(baseURL, Snapshot(), inFlight)
    }

    constructor (baseURL: Link, httpGet: Link -> FetchResult, workers: int)
      ensures this.baseURL == baseURL && this.httpGet == httpGet && this.workers == workers
      ensures crawledLinks == {} && tasks == [] && taskWg == 0 && inFlight == 0
      ensures Valid()
    {
      this.baseURL := baseURL;
      this.httpGet := httpGet;
      this.workers := workers;
      crawledLinks := {};
      tasks := [];
      taskWg := 0;
      inFlight := 0;
    }

    /** `processLink(l)`: if `l` is unclaimed and in scope, claim it, count it and enqueue it; otherwise change nothing. */
    method ProcessLink(l: Link)
      modifies this
      ensures Snapshot() == Claim(baseURL, old(Snapshot()), l)
      ensures inFlight == old(inFlight)
    {
      if l !in crawledLinks && InScope(baseURL, l) {
        crawledLinks := crawledLinks + {l};
        taskWg := taskWg + 1;
        tasks := tasks + [l];
      }
    }

    /**
     * The scheduler starts the `extractContent` goroutine of the `i`-th pending link (`go
     * c.extractContent(link)` in `run`): that task goes in flight. Any index may be chosen,
     * because the scheduler may start those goroutines in any order.
     */
    method NextTask(i: nat) returns (link: Link)
      requires i < |tasks|
      modifies this
      ensures link == old(tasks[i])
      ensures tasks == Without(old(tasks), i) && inFlight == old(inFlight) + 1
      ensures crawledLinks == old(crawledLinks) && taskWg == old(taskWg)
      ensures old(Valid()) ==> Valid()
    {
      link := tasks[i];
      tasks := Without(tasks, i);
      inFlight := inFlight + 1;
    }

    /**
     * `extractContent(link)`: fetch the page; on a transport error, a status outside
     * [200, 400) or an unparsable body stop early; otherwise hand every anchor's formatted
     * href to `processLink` in document order. Every path ends by marking the task done.
     */
    method ExtractContent(lib: UrlLib, link: Link)
      requires inFlight >= 1
      modifies this
      ensures Snapshot() == Step(baseURL, lib, httpGet, old(Snapshot()), link)
      ensures inFlight == old(inFlight) - 1
      ensures old(Valid()) ==> Valid()
    {
      ghost var s0 := Snapshot();
      ghost var valid0 := Valid();
      var resp := httpGet(link);
      if resp.Response? && StatusSuccess(resp.status) && resp.document.Some? {
        var anchors := resp.document.value;
        assert Anchors(resp) == anchors;
        for i := 0 to |anchors|
          invariant Snapshot() == ClaimAll(baseURL, s0, Formatted(lib, link, anchors[..i]))
          invariant inFlight == old(inFlight)
        {
          ghost var seen := Formatted(lib, link, anchors[..i]);
          assert anchors[..i + 1][..i] == anchors[..i];
          if anchors[i].Some? {
            var formattedURL := FormatURL(lib, link, anchors[i].value);
            assert Formatted(lib, link, anchors[..i + 1]) == seen + [formattedURL];
            assert (seen + [formattedURL])[..|seen|] == seen;
            ProcessLink(formattedURL);
          } else {
            assert Formatted(lib, link, anchors[..i + 1]) == seen;
          }
        }
        assert anchors[..|anchors|] == anchors;
      }
      // the deferred taskWg.Done()
      taskWg := taskWg - 1;
      inFlight := inFlight - 1;
      if valid0 {
        StepPreservesConsistent(baseURL, lib, httpGet, s0, link, inFlight);
      }
    }

    /**
     * `Crawl`: count and send the seed, then run tasks until the counter is zero, starting
     * whichever pending task the scheduler picks at each step. The seed is sent but not
     * claimed. When the in-scope link graph reachable from the seed is finite,
     * i.e. some finite `site` is closed, the crawl ends with the counter at zero and the claimed
     * set equal to the least closed set, having run one task for the seed and one per claim,
     * whatever order the tasks were started in.
     */
    method Crawl(lib: UrlLib, ghost site: set<Link>) returns (ghost tasksRun: nat)
      requires Valid() && crawledLinks == {} && tasks == [] && inFlight == 0
      requires Closed(baseURL, lib, httpGet, site)
      modifies this
      ensures Valid() && taskWg == 0 && tasks == [] && inFlight == 0
      ensures LeastClosed(baseURL, lib, httpGet, crawledLinks)
      ensures crawledLinks <= site
      ensures tasksRun == 1 + |crawledLinks|
    {
      taskWg := taskWg + 1;
      tasks := tasks + [baseURL];
      assert CrawlInvariant(baseURL, lib, httpGet, {}, Snapshot());
      ghost var done: set<Link> := {};
      tasksRun := 0;
      while taskWg != 0
        invariant Valid() && inFlight == 0
        invariant CrawlInvariant(baseURL, lib, httpGet, done, Snapshot())
        invariant crawledLinks <= site
        invariant tasksRun + |tasks| == 1 + |crawledLinks|
        decreases |site - crawledLinks|, |tasks|
      {
        ghost var before := Snapshot();
        assert tasks != [];
        var i :| 0 <= i < |tasks|;
        var link := NextTask(i);
        ExtractContent(lib, link);
        CrawlStep(baseURL, lib, httpGet, done, before, i);
        CrawlProgress(baseURL, lib, httpGet, before, i);
        assert Snapshot() == RunNext(baseURL, lib, httpGet, before, i);
        if crawledLinks != before.visited {
          RemainderShrinks(site, before.visited, crawledLinks);
        }
        done := done + {link};
        tasksRun := tasksRun + 1;
      }
      CrawlDone(baseURL, lib, httpGet, done, Snapshot());
    }

    /** `GetVisitedLinks`: every claimed link, once each, in some order. */
    method GetVisitedLinks() returns (visitedLinks: seq<Link>)
      ensures IsListing(visitedLinks, crawledLinks)
    {
      visitedLinks := [];
      var rest := crawledLinks;
      while rest != {}
        invariant rest <= crawledLinks
        invariant IsListing(visitedLinks, crawledLinks - rest)
        decreases |rest|
      {
        var key :| key in rest;
        assert crawledLinks - (rest - {key}) == (crawledLinks - rest) + {key};
        ListingAppend(visitedLinks, crawledLinks - rest, key);
        visitedLinks := visitedLinks + [key];
        rest := rest - {key};
      }
      assert crawledLinks - rest == crawledLinks;
    }
  }
}
