/** RateLimitMiddleware (pkg/auth/middleware.go): a table of recent admissions
    a client, pruned to the last 60 seconds on each of the client's requests. */
module RateLimiter {

  datatype Request = Request(client: string, at: int)

  /** One handled request and the answer it got. */
  datatype Entry = Entry(request: Request, admitted: bool)

  const WINDOW := 60

  /** The stamps of a client's admitted requests, oldest first. */
  function Admissions(log: seq<Entry>, client: string): seq<int> {
    if log == [] then [] else
    var e := log[|log| - 1];
    var earlier := Admissions(log[..|log| - 1], client);
    if e.admitted && e.request.client == client then earlier + [e.request.at] else earlier
  }

  /** The stamps less than 60 seconds old at `now`. */
  function Recent(stamps: seq<int>, now: int): seq<int> {
    if stamps == [] then [] else
    var last := stamps[|stamps| - 1];
    var earlier := Recent(stamps[..|stamps| - 1], now);
    if now - last < WINDOW then earlier + [last] else earlier
  }

  /** How many of the stamps lie in (t - 60, t]. */
  function InWindow(stamps: seq<int>, t: int): nat {
    if stamps == [] then 0 else
    var last := stamps[|stamps| - 1];
    InWindow(stamps[..|stamps| - 1], t) + if t - WINDOW < last <= t then 1 else 0
  }

  ghost predicate Ordered(log: seq<Entry>) {
    forall i, j | 0 <= i < j < |log| :: log[i].request.at <= log[j].request.at
  }

  /** What the full history would decide: refuse exactly when the limit has been
      reached in the 60 seconds up to now. */
  predicate Admits(log: seq<Entry>, request: Request, limit: int) {
    InWindow(Admissions(log, request.client), request.at) < limit
  }

  /** Every answer in the log is the one the history before it calls for. */
  ghost predicate Faithful(log: seq<Entry>, limit: int) {
    forall i | 0 <= i < |log| :: log[i].admitted <==> Admits(log[..i], log[i].request, limit)
  }

  lemma {:induction false} RecentKeeps(stamps: seq<int>, now: int, later: int)
    requires now <= later
    ensures Recent(Recent(stamps, now), later) == Recent(stamps, later)
  {
    if stamps != [] {
      var n := |stamps| - 1;
      RecentKeeps(stamps[..n], now, later);
      if now - stamps[n] < WINDOW {
        assert (Recent(stamps[..n], now) + [stamps[n]])[..|Recent(stamps[..n], now)|] == Recent(stamps[..n], now);
      }
    }
  }

  lemma {:induction false} RecentIsWindow(stamps: seq<int>, now: int)
    requires forall i | 0 <= i < |stamps| :: stamps[i] <= now
    ensures |Recent(stamps, now)| == InWindow(stamps, now)
  {
    if stamps != [] { RecentIsWindow(stamps[..|stamps| - 1], now); }
  }

  /** The window counts the entries of the log themselves. */
  lemma {:induction false} WindowCountsEntries(log: seq<Entry>, client: string, t: int)
    ensures InWindow(Admissions(log, client), t) ==
      |set i | 0 <= i < |log| && log[i].admitted && log[i].request.client == client && t - 60 < log[i].request.at <= t|
  {
    if log != [] {
      var n := |log| - 1;
      var before, e := log[..n], log[n];
      WindowCountsEntries(before, client, t);
      assert log == before + [e];
      AdmissionsAppend(before, e, client);
      WindowAppend(Admissions(before, client), e.request.at, t);
      EntriesInWindow(before, e, client, t);
      hide Admissions, InWindow;
    }
  }

  lemma EntriesInWindow(log: seq<Entry>, e: Entry, client: string, t: int)
    ensures var longer := log + [e];
      |set i | 0 <= i < |longer| && longer[i].admitted && longer[i].request.client == client
              && t - 60 < longer[i].request.at <= t|
      == |set i | 0 <= i < |log| && log[i].admitted && log[i].request.client == client
              && t - 60 < log[i].request.at <= t|
         + if e.admitted && e.request.client == client && t - 60 < e.request.at <= t then 1 else 0
  {
    var longer := log + [e];
    var some := set i | 0 <= i < |log| && log[i].admitted && log[i].request.client == client
                       && t - 60 < log[i].request.at <= t;
    var all := set i | 0 <= i < |longer| && longer[i].admitted && longer[i].request.client == client
                       && t - 60 < longer[i].request.at <= t;
    if e.admitted && e.request.client == client && t - 60 < e.request.at <= t {
      assert all == some + {|log|};
    } else {
      assert all == some;
    }
  }

  lemma {:induction false} AdmissionsBefore(log: seq<Entry>, client: string, now: int)
    requires forall i | 0 <= i < |log| :: log[i].request.at <= now
    ensures forall i | 0 <= i < |Admissions(log, client)| :: Admissions(log, client)[i] <= now
  {
    if log != [] { AdmissionsBefore(log[..|log| - 1], client, now); }
  }

  function TableOf(clients: map<string, seq<int>>, c: string): seq<int> {
    if c in clients then clients[c] else []
  }

  /** A time the clock can show after the requests in the log. */
  ghost predicate NotBefore(log: seq<Entry>, now: int) {
    forall i | 0 <= i < |log| :: log[i].request.at <= now
  }

  /** At any time from the last request on, the table pruned at that time is the
      history of admissions pruned at that time. */
  ghost predicate TableFits(clients: map<string, seq<int>>, log: seq<Entry>) {
    forall c, now | NotBefore(log, now) :: Recent(TableOf(clients, c), now) == Recent(Admissions(log, c), now)
  }

  lemma RecentAppend(stamps: seq<int>, stamp: int, now: int)
    ensures Recent(stamps + [stamp], now) ==
      if now - stamp < WINDOW then Recent(stamps, now) + [stamp] else Recent(stamps, now)
  {
    assert (stamps + [stamp])[..|stamps + [stamp]| - 1] == stamps;
  }

  lemma AdmissionsAppend(log: seq<Entry>, e: Entry, c: string)
    ensures Admissions(log + [e], c)
         == if e.admitted && e.request.client == c then Admissions(log, c) + [e.request.at] else Admissions(log, c)
  {
    assert (log + [e])[..|log + [e]| - 1] == log;
  }

  /** The stamps of the client just handled, pruned and appended to. */
  lemma ClientFits(log: seq<Entry>, e: Entry, stamps: seq<int>, now: int)
    requires e.request.at <= now
    requires stamps ==
      Recent(Admissions(log, e.request.client), e.request.at) + if e.admitted then [e.request.at] else []
    ensures Recent(stamps, now) == Recent(Admissions(log + [e], e.request.client), now)
  {
    var client, at := e.request.client, e.request.at;
    var kept := Recent(Admissions(log, client), at);
    AdmissionsAppend(log, e, client);
    hide Recent, Admissions;
    RecentKeeps(Admissions(log, client), at, now);
    assert kept + [] == kept;
    RecentAppend(kept, at, now);
    RecentAppend(Admissions(log, client), at, now);
  }

  lemma NotBeforeLast(log: seq<Entry>, e: Entry, now: int)
    requires NotBefore(log + [e], now)
    ensures NotBefore(log, now) && e.request.at <= now
  {
    assert (log + [e])[|log|] == e;
    assert forall i | 0 <= i < |log| :: (log + [e])[i] == log[i];
  }

  /** Pruning and appending keep the table in step with the history. */
  lemma HandleKeepsTable(clients: map<string, seq<int>>, log: seq<Entry>, e: Entry, after: map<string, seq<int>>)
    requires TableFits(clients, log) && NotBefore(log, e.request.at)
    requires forall c | c != e.request.client :: TableOf(after, c) == TableOf(clients, c)
    requires TableOf(after, e.request.client)
          == Recent(Admissions(log, e.request.client), e.request.at) + if e.admitted then [e.request.at] else []
    ensures TableFits(after, log + [e])
  {
    hide Recent, Admissions, NotBefore, TableOf;
    forall c, now | NotBefore(log + [e], now)
      ensures Recent(TableOf(after, c), now) == Recent(Admissions(log + [e], c), now)
    {
      NotBeforeLast(log, e, now);
      AdmissionsAppend(log, e, c);
      if c == e.request.client { ClientFits(log, e, TableOf(after, c), now); }
    }
  }

  lemma FaithfulAppend(log: seq<Entry>, e: Entry, limit: int)
    requires Ordered(log) && Faithful(log, limit) && NotBefore(log, e.request.at)
    requires e.admitted <==> Admits(log, e.request, limit)
    ensures Ordered(log + [e]) && Faithful(log + [e], limit)
  {
    forall i | 0 <= i <= |log| ensures var l := log + [e];
      l[i].admitted <==> Admits(l[..i], l[i].request, limit)
    {
      assert (log + [e])[..i] == log[..i];
      if i == |log| { assert log[..i] == log; }
    }
  }

  /** None of them being later than the request, the window is the last 60 seconds. */
  lemma EntriesSince(log: seq<Entry>, request: Request)
    requires NotBefore(log, request.at)
    ensures InWindow(Admissions(log, request.client), request.at) ==
      |set i | 0 <= i < |log| && log[i].admitted && log[i].request.client == request.client
               && request.at - log[i].request.at < 60|
  {
    WindowCountsEntries(log, request.client, request.at);
    assert (set i | 0 <= i < |log| && log[i].admitted && log[i].request.client == request.client
                    && request.at - log[i].request.at < 60)
        == (set i | 0 <= i < |log| && log[i].admitted && log[i].request.client == request.client
                    && request.at - 60 < log[i].request.at <= request.at);
  }

  class Limiter {
    const limit: int
    var clients: map<string, seq<int>>
    ghost var log: seq<Entry>

    ghost predicate Valid()
      reads this
    {
      Ordered(log) && Faithful(log, limit) && TableFits(clients, log)
    }

    constructor (requestsPerMinute: int)
      ensures Valid() && log == [] && limit == requestsPerMinute
    {
      limit, clients, log := requestsPerMinute, map[], [];
    }

    method Handle(request: Request) returns (admitted: bool)
      requires Valid() && NotBefore(log, request.at)
      modifies this
      ensures Valid() && log == old(log) + [Entry(request, admitted)]
      ensures admitted <==>
        |set i | 0 <= i < |old(log)| && old(log)[i].admitted && old(log)[i].request.client == request.client
                 && request.at - old(log)[i].request.at < 60| < limit
    {
      hide Ordered, Faithful;
      var client, now := request.client, request.at;
      if client in clients {
        var requests := clients[client];
        var validRequests: seq<int> := [];
        for i := 0 to |requests|
          invariant validRequests == Recent(requests[..i], now)
        {
          assert requests[..i + 1][..i] == requests[..i];
          if now - requests[i] < WINDOW {
            validRequests := validRequests + [requests[i]];
          }
        }
        assert requests[..|requests|] == requests;
        clients := clients[client := validRequests];
      }
      assert TableOf(clients, client) == Recent(Admissions(log, client), now);
      AdmissionsBefore(log, client, now);
      RecentIsWindow(Admissions(log, client), now);
      admitted := |TableOf(clients, client)| < limit;
      if admitted {
        clients := clients[client := TableOf(clients, client) + [now]];
      }
      EntriesSince(old(log), request);
      HandleKeepsTable(old(clients), log, Entry(request, admitted), clients);
      FaithfulAppend(log, Entry(request, admitted), limit);
      log := log + [Entry(request, admitted)];
    }
  }

  // ----- what a faithful history looks like through any window -----

  lemma {:induction false} WindowOfFuture(stamps: seq<int>, last: int, t: int)
    requires forall i | 0 <= i < |stamps| :: stamps[i] <= last
    requires last <= t
    ensures InWindow(stamps, t) <= InWindow(stamps, last)
  {
    if stamps != [] { WindowOfFuture(stamps[..|stamps| - 1], last, t); }
  }

  lemma WindowAppend(stamps: seq<int>, stamp: int, t: int)
    ensures InWindow(stamps + [stamp], t) == InWindow(stamps, t) + if t - WINDOW < stamp <= t then 1 else 0
  {
    assert (stamps + [stamp])[..|stamps + [stamp]| - 1] == stamps;
  }

  lemma FaithfulPrefix(log: seq<Entry>, limit: int)
    requires log != [] && Ordered(log) && Faithful(log, limit)
    ensures var before, e := log[..|log| - 1], log[|log| - 1];
      && Ordered(before) && Faithful(before, limit) && NotBefore(before, e.request.at)
      && (e.admitted <==> Admits(before, e.request, limit))
  {
    var before := log[..|log| - 1];
    forall i | 0 <= i < |before| ensures before[i].admitted <==> Admits(before[..i], before[i].request, limit) {
      assert before[..i] == log[..i];
    }
  }

  lemma {:induction false} AdmissionsAreBounded(log: seq<Entry>, limit: int, client: string, t: int)
    requires Ordered(log) && Faithful(log, limit)
    ensures InWindow(Admissions(log, client), t) <= if limit > 0 then limit else 0
  {
    if log != [] {
      var n := |log| - 1;
      var before, e := log[..n], log[n];
      FaithfulPrefix(log, limit);
      hide Faithful, Ordered;
      AdmissionsAreBounded(before, limit, client, t);
      AdmissionsAppend(before, e, client);
      assert log == before + [e];
      if e.admitted && e.request.client == client {
        var at := e.request.at;
        WindowAppend(Admissions(before, client), at, t);
        if t - WINDOW < at <= t {
          AdmissionsBefore(before, client, at);
          WindowOfFuture(Admissions(before, client), at, t);
        }
      }
    }
  }

  /** No window of 60 seconds, wherever it lies, holds more admissions of a
      client than the limit. */
  lemma WindowIsBounded(log: seq<Entry>, limit: int, client: string, t: int)
    requires Ordered(log) && Faithful(log, limit)
    ensures |set i | 0 <= i < |log| && log[i].admitted && log[i].request.client == client
                     && t - 60 < log[i].request.at <= t| <= if limit > 0 then limit else 0
  {
    AdmissionsAreBounded(log, limit, client, t);
    WindowCountsEntries(log, client, t);
  }
}
