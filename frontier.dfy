/**
 * The crawl state of pkg/crawler/crawler.go as a value, and the pure transitions that
 * the `Crawler` methods are proved against: claiming one link (`processLink`), claiming
 * every link of a page in order, and one whole task (`extractContent`).
 */
module Frontier {
  import opened Wrappers
  import opened NetUrl
  import opened CrawledLinks

  type Link = string

  /**
   * What one GET of a page yields: a transport error, or a status and the page's anchors.
   * `document` is None when the body cannot be parsed; each anchor carries its `href`
   * attribute when it has one.
   */
  datatype FetchResult = GetFailed | Response(status: int, document: Option<seq<Option<string>>>)

  /** http.StatusOK and http.StatusBadRequest. */
  const STATUS_OK := 200
  const STATUS_BAD_REQUEST := 400

  /** The status check of `extractContent`: 2xx and 3xx are success. */
  predicate StatusSuccess(status: int)
  {
    STATUS_OK <= status < STATUS_BAD_REQUEST
  }

  /** `strings.HasPrefix(l, base)`: exact, case-sensitive prefix. */
  predicate InScope(base: Link, l: Link)
  {
    base <= l
  }

  /** The anchors a task iterates over: none on every failure path. */
  function Anchors(r: FetchResult): seq<Option<string>>
  {
    match r
    case GetFailed => []
    case Response(status, document) =>
      if StatusSuccess(status) && document.Some? then document.value else []
  }

  /** The formatted URL of every anchor that has an `href`, in document order. */
  function Formatted(lib: UrlLib, page: Link, anchors: seq<Option<string>>): seq<Link>
  {
    if anchors == [] then []
    else
      Formatted(lib, page, anchors[..|anchors| - 1]) +
      match anchors[|anchors| - 1]
      case None => []
      case Some(href) => [FormatURL(lib, page, href)]
  }

  /** The links a task for `page` hands to `processLink`, in order. */
  function Discovered(lib: UrlLib, fetch: Link -> FetchResult, page: Link): seq<Link>
  {
    Formatted(lib, page, Anchors(fetch(page)))
  }

  /** The in-scope links of `ls`. */
  function InScopeSet(base: Link, ls: seq<Link>): (r: set<Link>)
    ensures forall l :: l in r <==> l in ls && InScope(base, l)
  {
    set l | l in ls && InScope(base, l)
  }

  /**
   * The engine's shared state: the claimed links (`crawledLinks`), the queued tasks
   * (`tasks`, in the order they were sent) and the outstanding-work counter (`taskWg`).
   */
  datatype State = State(visited: set<Link>, queue: seq<Link>, pending: int)

  /** `processLink(l)`: claim, count and enqueue `l` if it is new and in scope. */
  function Claim(base: Link, s: State, l: Link): State
  {
    if l !in s.visited && InScope(base, l) then
      State(s.visited + {l}, s.queue + [l], s.pending + 1)
    else
      s
  }

  /** `processLink` applied to each of `ls` in turn. */
  function ClaimAll(base: Link, s: State, ls: seq<Link>): State
  {
    if ls == [] then s else Claim(base, ClaimAll(base, s, ls[..|ls| - 1]), ls[|ls| - 1])
  }

  /** `extractContent(page)`: claim what the page links to, then mark the task done. */
  function Step(base: Link, lib: UrlLib, fetch: Link -> FetchResult, s: State, page: Link): State
  {
    var t := ClaimAll(base, s, Discovered(lib, fetch, page));
    t.(pending := t.pending - 1)
  }

  /**
   * The engine's invariant with `inFlight` tasks started but not finished: the counter is
   * the queue length plus the in-flight tasks, every claimed link is in scope, and every
   * queued task is the seed or a claimed link.
   */
  predicate Consistent(base: Link, s: State, inFlight: nat)
  {
    && s.pending == |s.queue| + inFlight
    && (forall l :: l in s.visited ==> InScope(base, l))
    && (forall i :: 0 <= i < |s.queue| ==> s.queue[i] == base || s.queue[i] in s.visited)
  }

  /** Under the invariant the counter is never negative, and it is zero exactly when no task is queued or in flight. */
  lemma CounterTracksWork(base: Link, s: State, inFlight: nat)
    requires Consistent(base, s, inFlight)
    ensures s.pending >= 0
    ensures s.pending == 0 <==> s.queue == [] && inFlight == 0
  {
  }

  /**
   * `r` is `s` after some links were claimed: the claimed set only grew, the queue kept its
   * old tasks and gained exactly the newly claimed links, once each, and the counter rose by
   * one per link enqueued.
   */
  predicate Extends(s: State, r: State)
  {
    && s.visited <= r.visited
    && |r.queue| >= |s.queue|
    && r.queue[..|s.queue|] == s.queue
    && IsListing(r.queue[|s.queue|..], r.visited - s.visited)
    && r.pending == s.pending + |r.queue| - |s.queue|
  }

  /** One more `processLink` keeps `Extends`. */
  lemma ClaimExtends(base: Link, s: State, t: State, l: Link)
    requires Extends(s, t)
    ensures Extends(s, Claim(base, t, l))
  {
    if l !in t.visited && InScope(base, l) {
      AppendExtends(s, t, l);
    }
  }

  /** Claiming, counting and enqueueing an unclaimed link keeps `Extends`. */
  lemma AppendExtends(s: State, t: State, l: Link)
    requires Extends(s, t) && l !in t.visited
    ensures Extends(s, State(t.visited + {l}, t.queue + [l], t.pending + 1))
  {
    var n := |s.queue|;
    var q := t.queue + [l];
    var v := t.visited + {l};
    assert q[n..] == t.queue[n..] + [l];
    assert v - s.visited == (t.visited - s.visited) + {l};
    ListingAppend(t.queue[n..], t.visited - s.visited, l);
    assert q[..n] == t.queue[..n];
  }

  /**
   * What a call of `processLink` for each of `ls` does: it claims exactly the in-scope
   * links of `ls`, appends each newly claimed link to the queue once, never re-queues a
   * link already claimed, and raises the counter by the number of links appended.
   */
  lemma ClaimAllEffect(base: Link, s: State, ls: seq<Link>)
    ensures ClaimAll(base, s, ls).visited == s.visited + InScopeSet(base, ls)
    ensures Extends(s, ClaimAll(base, s, ls))
  {
    ClaimAllVisited(base, s, ls);
    ClaimAllExtends(base, s, ls);
  }

  /** The links claimed by a run of `processLink` calls are exactly the in-scope ones not claimed before. */
  lemma {:induction false} ClaimAllVisited(base: Link, s: State, ls: seq<Link>)
    ensures ClaimAll(base, s, ls).visited == s.visited + InScopeSet(base, ls)
  {
    if ls != [] {
      var init := ls[..|ls| - 1];
      var l := ls[|ls| - 1];
      ClaimAllVisited(base, s, init);
      assert ls == init + [l];
      assert InScopeSet(base, ls) == InScopeSet(base, init) + (if InScope(base, l) then {l} else {});
    }
  }

  /** A run of `processLink` calls enqueues and counts each newly claimed link once. */
  lemma {:induction false} ClaimAllExtends(base: Link, s: State, ls: seq<Link>)
    ensures Extends(s, ClaimAll(base, s, ls))
  {
    if ls == [] {
      assert s.queue[|s.queue|..] == [];
      assert s.visited - s.visited == {};
    } else {
      ClaimAllExtends(base, s, ls[..|ls| - 1]);
      ClaimExtends(base, s, ClaimAll(base, s, ls[..|ls| - 1]), ls[|ls| - 1]);
    }
  }

  /** A task for a page whose GET, status or parse fails claims and queues nothing, and still counts itself done. */
  lemma FailedTaskOnlyFinishes(base: Link, lib: UrlLib, fetch: Link -> FetchResult, s: State, page: Link)
    requires fetch(page).GetFailed? || !StatusSuccess(fetch(page).status) || fetch(page).document.None?
    ensures Step(base, lib, fetch, s, page) == State(s.visited, s.queue, s.pending - 1)
  {
  }

  /**
   * One task: the claimed set grows by exactly the in-scope links the page yields, the new
   * part of the queue lists exactly the newly claimed links once each, and the counter rises
   * by one per enqueued link and falls by one for the task itself.
   */
  lemma StepEffect(base: Link, lib: UrlLib, fetch: Link -> FetchResult, s: State, page: Link)
    ensures Step(base, lib, fetch, s, page).visited == s.visited + InScopeSet(base, Discovered(lib, fetch, page))
    ensures Extends(s, Step(base, lib, fetch, s, page).(pending := Step(base, lib, fetch, s, page).pending + 1))
  {
    ClaimAllEffect(base, s, Discovered(lib, fetch, page));
  }

  /** A task keeps the invariant, with one task fewer in flight. */
  lemma StepPreservesConsistent(base: Link, lib: UrlLib, fetch: Link -> FetchResult, s: State, page: Link, inFlight: nat)
    requires Consistent(base, s, inFlight + 1)
    ensures Consistent(base, Step(base, lib, fetch, s, page), inFlight)
  {
    var r := Step(base, lib, fetch, s, page);
    StepEffect(base, lib, fetch, s, page);
    forall i | 0 <= i < |r.queue| ensures r.queue[i] == base || r.queue[i] in r.visited {
      if i < |s.queue| {
        assert r.queue[i] == r.queue[..|s.queue|][i];
      } else {
        assert r.queue[i] == r.queue[|s.queue|..][i - |s.queue|];
      }
    }
  }

  /** The link "" that `formatURL` returns on a parse error is never claimed under a non-empty base. */
  lemma EmptyLinkIgnored(base: Link, s: State)
    requires base != ""
    ensures Claim(base, s, "") == s
  {
  }

  /**
   * An href that does not parse is formatted to "", and under a valid base URL that changes
   * nothing: the link is never claimed, counted or queued.
   */
  lemma UnparsableHrefIgnored(lib: UrlLib, base: Link, s: State, page: Link, href: string)
    requires lib.parse("").None? || lib.parse("").value.scheme == ""
    requires IsValidURL(lib, base)
    requires lib.parse(href).None?
    ensures Claim(base, s, FormatURL(lib, page, href)) == s
  {
    ValidURLIsNonEmpty(lib, base);
    EmptyLinkIgnored(base, s);
  }

  /**
   * `S` is closed for a crawl from `base`: every in-scope link found on the seed page or on a
   * page of `S` is itself in `S`.
   */
  ghost predicate Closed(base: Link, lib: UrlLib, fetch: Link -> FetchResult, S: set<Link>)
  {
    forall p, u :: (p == base || p in S) && u in Discovered(lib, fetch, p) && InScope(base, u) ==> u in S
  }

  /** `V` is the least closed set: the links reachable from the seed through in-scope links. */
  ghost predicate LeastClosed(base: Link, lib: UrlLib, fetch: Link -> FetchResult, V: set<Link>)
  {
    Closed(base, lib, fetch, V) && forall S :: Closed(base, lib, fetch, S) ==> V <= S
  }

  /**
   * The least closed set is unique: the crawl result is the same whatever order a sequential
   * crawl starts the pending tasks in.
   */
  lemma LeastClosedUnique(base: Link, lib: UrlLib, fetch: Link -> FetchResult, V1: set<Link>, V2: set<Link>)
    requires LeastClosed(base, lib, fetch, V1) && LeastClosed(base, lib, fetch, V2)
    ensures V1 == V2
  {
  }

  /** Every link of the least closed set is in scope. */
  lemma LeastClosedInScope(base: Link, lib: UrlLib, fetch: Link -> FetchResult, V: set<Link>, l: Link)
    requires LeastClosed(base, lib, fetch, V) && l in V
    ensures InScope(base, l)
  {
    var S := set x | x in V && InScope(base, x);
    assert Closed(base, lib, fetch, S);
  }

  /** If the seed page fails, nothing is ever claimed, not even the seed. */
  lemma SeedFailureClaimsNothing(base: Link, lib: UrlLib, fetch: Link -> FetchResult, V: set<Link>)
    requires fetch(base).GetFailed? || !StatusSuccess(fetch(base).status) || fetch(base).document.None?
    requires LeastClosed(base, lib, fetch, V)
    ensures V == {}
  {
    assert Closed(base, lib, fetch, {});
  }

  /**
   * The seed is claimed only when some page of the crawl, the seed page included, links back
   * to exactly the seed string.
   */
  lemma SeedClaimedOnlyIfLinked(base: Link, lib: UrlLib, fetch: Link -> FetchResult, V: set<Link>)
    requires LeastClosed(base, lib, fetch, V) && base in V
    ensures exists p :: (p == base || p in V) && base in Discovered(lib, fetch, p)
  {
    var S := V - {base};
    assert !Closed(base, lib, fetch, S);
    var p, u :| (p == base || p in S) && u in Discovered(lib, fetch, p) && InScope(base, u) && u !in S;
    assert u == base;
  }

  /**
   * What the worklist loop of `Crawl` keeps, with `done` the pages whose task has run: the seed
   * and every claimed link have run or are queued; every in-scope link found on a page that has
   * run is claimed; and only links every closed set must contain are claimed.
   */
  ghost predicate CrawlInvariant(base: Link, lib: UrlLib, fetch: Link -> FetchResult, done: set<Link>, s: State)
  {
    && (base in done || base in s.queue)
    && (forall l :: l in s.visited ==> l in done || l in s.queue)
    && (forall p, u :: p in done && u in Discovered(lib, fetch, p) && InScope(base, u) ==> u in s.visited)
    && (forall S :: Closed(base, lib, fetch, S) ==> s.visited <= S)
  }

  /** The queue once the `i`-th pending task has started. */
  function Without(q: seq<Link>, i: nat): (r: seq<Link>)
    requires i < |q|
    ensures |r| == |q| - 1
    ensures forall x :: x in q ==> x == q[i] || x in r
    ensures forall x :: x in r ==> x in q
  {
    assert q == q[..i] + [q[i]] + q[i + 1..];
    q[..i] + q[i + 1..]
  }

  /** The `i`-th pending task, whichever it is, starts and runs to completion. */
  function RunNext(base: Link, lib: UrlLib, fetch: Link -> FetchResult, s: State, i: nat): State
    requires i < |s.queue|
  {
    Step(base, lib, fetch, s.(queue := Without(s.queue, i)), s.queue[i])
  }

  /** Running any pending task keeps the loop invariant. */
  lemma CrawlStep(base: Link, lib: UrlLib, fetch: Link -> FetchResult, done: set<Link>, s: State, i: nat)
    requires Consistent(base, s, 0) && i < |s.queue|
    requires CrawlInvariant(base, lib, fetch, done, s)
    ensures CrawlInvariant(base, lib, fetch, done + {s.queue[i]}, RunNext(base, lib, fetch, s, i))
  {
    var link := s.queue[i];
    var mid := s.(queue := Without(s.queue, i));
    var r := RunNext(base, lib, fetch, s, i);
    StepEffect(base, lib, fetch, mid, link);
    assert link == base || link in s.visited;
    StaysWithinClosed(base, lib, fetch, s.visited, link, r.visited);
    StaysCovered(base, done, s, i, r);
    StaysExplored(base, lib, fetch, done, link, s.visited, r.visited);
  }

  /**
   * Running any pending task either claims something new or shortens the queue, and the queue
   * grows by one less than the number of links claimed: so the tasks run plus the tasks queued
   * stay one for the seed plus one per claim.
   */
  lemma CrawlProgress(base: Link, lib: UrlLib, fetch: Link -> FetchResult, s: State, i: nat)
    requires i < |s.queue|
    ensures s.visited <= RunNext(base, lib, fetch, s, i).visited
    ensures RunNext(base, lib, fetch, s, i).visited == s.visited ==> |RunNext(base, lib, fetch, s, i).queue| < |s.queue|
    ensures |RunNext(base, lib, fetch, s, i).queue| + 1 + |s.visited| == |s.queue| + |RunNext(base, lib, fetch, s, i).visited|
  {
    var mid := s.(queue := Without(s.queue, i));
    var r := RunNext(base, lib, fetch, s, i);
    StepEffect(base, lib, fetch, mid, s.queue[i]);
    CountsStep(s.visited, r.visited, r.queue[|mid.queue|..]);
  }

  /** After a task for `link` runs, every in-scope link found on a page that has run is claimed. */
  lemma StaysExplored(base: Link, lib: UrlLib, fetch: Link -> FetchResult, done: set<Link>, link: Link,
                      visited: set<Link>, visited': set<Link>)
    requires forall p, u :: p in done && u in Discovered(lib, fetch, p) && InScope(base, u) ==> u in visited
    requires visited' == visited + InScopeSet(base, Discovered(lib, fetch, link))
    ensures forall p, u :: p in done + {link} && u in Discovered(lib, fetch, p) && InScope(base, u) ==> u in visited'
  {
  }

  /** The links appended by a task are as many as the links it claimed. */
  lemma CountsStep(visited: set<Link>, visited': set<Link>, added: seq<Link>)
    requires visited <= visited' && IsListing(added, visited' - visited)
    ensures |visited'| == |visited| + |added|
  {
  }

  /** A task for the seed or a claimed page claims nothing a closed set lacks. */
  lemma StaysWithinClosed(base: Link, lib: UrlLib, fetch: Link -> FetchResult, visited: set<Link>, link: Link, visited': set<Link>)
    requires link == base || link in visited
    requires forall S :: Closed(base, lib, fetch, S) ==> visited <= S
    requires visited' == visited + InScopeSet(base, Discovered(lib, fetch, link))
    ensures forall S :: Closed(base, lib, fetch, S) ==> visited' <= S
  {
  }

  /** After a pending task runs, the seed and every claimed link have run or are still queued. */
  lemma StaysCovered(base: Link, done: set<Link>, s: State, i: nat, r: State)
    requires i < |s.queue|
    requires base in done || base in s.queue
    requires forall l :: l in s.visited ==> l in done || l in s.queue
    requires Extends(s.(queue := Without(s.queue, i)), r.(pending := r.pending + 1))
    ensures base in done + {s.queue[i]} || base in r.queue
    ensures forall l :: l in r.visited ==> l in done + {s.queue[i]} || l in r.queue
  {
    var mid := Without(s.queue, i);
    var added := r.queue[|mid|..];
    assert r.queue == mid + added;
    forall l | l in r.visited ensures l in done + {s.queue[i]} || l in r.queue {
      if l !in s.visited {
        assert l in added;
      }
    }
  }

  /** When the queue is empty the loop invariant says the claimed set is the least closed set. */
  lemma CrawlDone(base: Link, lib: UrlLib, fetch: Link -> FetchResult, done: set<Link>, s: State)
    requires CrawlInvariant(base, lib, fetch, done, s) && s.queue == []
    ensures LeastClosed(base, lib, fetch, s.visited)
  {
  }

  /** A strict growth of the claimed set inside a finite site shrinks what is left to claim. */
  lemma RemainderShrinks(site: set<Link>, a: set<Link>, b: set<Link>)
    requires a < b <= site
    ensures |site - b| < |site - a|
  {
    assert site - a == (site - b) + (b - a);
    assert (site - b) !! (b - a);
  }
}
