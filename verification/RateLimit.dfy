/**
 The sliding-window rate limiter. Each request is one step: prune, check and append happen without
 suspending in between.
 */
module RateLimit {
  import opened Basics

  const WINDOW := 60.0

  /** One request as the history remembers it. */
  datatype Hit = Hit(client: Str, time: real, admitted: bool)

  /** The limiter's windows, and the full history of what it decided. */
  datatype Limiter = Limiter(hits: map<Str, seq<real>>, history: seq<Hit>)

  function WindowOf(hits: map<Str, seq<real>>, client: Str): seq<real> {
    if client in hits then hits[client] else []
  }

  /** A window without its leading entries older than 60 seconds. */
  function Pruned(window: seq<real>, now: real): seq<real> {
    if window != [] && now - window[0] > WINDOW then Pruned(window[1..], now) else window
  }

  /** One request: prune the client's window, refuse when it is full, otherwise append. */
  function Served(s: Limiter, limit: int, client: Str, now: real): Limiter {
    var window := Pruned(WindowOf(s.hits, client), now);
    if |window| >= limit then Limiter(s.hits[client := window], s.history + [Hit(client, now, false)])
    else Limiter(s.hits[client := window + [now]], s.history + [Hit(client, now, true)])
  }

  datatype Request = Request(client: Str, time: real)

  function ServeAll(limit: int, requests: seq<Request>): Limiter {
    if requests == [] then Limiter(map[], [])
    else
      var r := requests[|requests| - 1];
      Served(ServeAll(limit, requests[..|requests| - 1]), limit, r.client, r.time)
  }

  // ----- The reference: the full history -----

  /** A client's admission times from some moment on, in order of arrival. */
  function Since(history: seq<Hit>, client: Str, from: real): seq<real> {
    if history == [] then []
    else
      var h, before := history[|history| - 1], Since(history[..|history| - 1], client, from);
      if h.client == client && h.admitted && from <= h.time then before + [h.time] else before
  }

  /** How many admissions of a client lie in a closed interval. */
  function AdmittedIn(history: seq<Hit>, client: Str, from: real, to: real): nat {
    if history == [] then 0
    else
      var h := history[|history| - 1];
      AdmittedIn(history[..|history| - 1], client, from, to)
      + (if h.client == client && h.admitted && from <= h.time <= to then 1 else 0)
  }

  /** The admissions of a client in a closed interval, by their places in the history. */
  ghost function RecentAdmissions(history: seq<Hit>, client: Str, from: real, to: real): set<int> {
    set i | 0 <= i < |history| && history[i].client == client && history[i].admitted && from <= history[i].time <= to
  }

  lemma RecentSnoc(history: seq<Hit>, h: Hit, client: Str, from: real, to: real)
    ensures |RecentAdmissions(history + [h], client, from, to)| ==
            |RecentAdmissions(history, client, from, to)|
            + if h.client == client && h.admitted && from <= h.time <= to then 1 else 0
  {
    var before, after := RecentAdmissions(history, client, from, to), RecentAdmissions(history + [h], client, from, to);
    if h.client == client && h.admitted && from <= h.time <= to {
      assert after == before + {|history|};
    } else {
      assert after == before;
    }
  }

  lemma {:induction false} AdmittedInCounts(history: seq<Hit>, client: Str, from: real, to: real)
    ensures AdmittedIn(history, client, from, to) == |RecentAdmissions(history, client, from, to)|
  {
    if history == [] {
      assert RecentAdmissions(history, client, from, to) == {};
    } else {
      var init, last := history[..|history| - 1], history[|history| - 1];
      AdmittedInCounts(init, client, from, to);
      RecentSnoc(init, last, client, from, to);
      assert history == init + [last];
    }
  }

  lemma {:induction false} SinceCounts(history: seq<Hit>, client: Str, from: real, now: real)
    requires NothingAfter(history, now)
    ensures |Since(history, client, from)| == AdmittedIn(history, client, from, now)
  {
    if history != [] { SinceCounts(history[..|history| - 1], client, from, now); }
  }

  ghost predicate ClockNeverStepsBack(requests: seq<Request>) {
    forall i, j :: 0 <= i < j < |requests| ==> requests[i].time <= requests[j].time
  }

  ghost predicate NothingAfter(history: seq<Hit>, now: real) {
    forall i :: 0 <= i < |history| ==> history[i].time <= now
  }

  ghost predicate IsSince(window: seq<real>, history: seq<Hit>, client: Str, at: real) {
    window == Since(history, client, at - WINDOW)
  }

  /** Every window is the client's admissions of the full history that were recent when it was last pruned. */
  ghost predicate WindowsMatchHistory(s: Limiter, now: real) {
    NothingAfter(s.history, now) && forall client :: Matches(s, client, now)
  }

  ghost predicate Matches(s: Limiter, client: Str, now: real) {
    exists at :: at <= now && IsSince(WindowOf(s.hits, client), s.history, client, at)
  }

  lemma {:induction false} SinceEmpty(history: seq<Hit>, client: Str, from: real, now: real)
    requires NothingAfter(history, now) && now < from
    ensures Since(history, client, from) == []
  {
    if history != [] { SinceEmpty(history[..|history| - 1], client, from, now); }
  }

  lemma {:induction false} PrunedSnoc(window: seq<real>, x: real, now: real)
    ensures Pruned(window + [x], now) ==
            if Pruned(window, now) == [] && now - x > WINDOW then [] else Pruned(window, now) + [x]
  {
    if window == [] {
      assert window + [x] == [x];
    } else if now - window[0] > WINDOW {
      assert (window + [x])[1..] == window[1..] + [x];
      PrunedSnoc(window[1..], x, now);
    }
  }

  ghost predicate InOrder(history: seq<Hit>) {
    forall i, j :: 0 <= i < j < |history| ==> history[i].time <= history[j].time
  }

  /** Pruning an older window leaves exactly the admissions that are still recent. */
  lemma {:induction false} PrunedSince(history: seq<Hit>, client: Str, at: real, now: real)
    requires InOrder(history) && at <= now
    ensures Pruned(Since(history, client, at - WINDOW), now) == Since(history, client, now - WINDOW)
  {
    if history != [] {
      var n := |history| - 1;
      var h := history[n];
      PrunedSince(history[..n], client, at, now);
      if h.client == client && h.admitted && at - WINDOW <= h.time {
        var older := Since(history[..n], client, at - WINDOW);
        assert Since(history, client, at - WINDOW) == older + [h.time];
        PrunedSnoc(older, h.time, now);
        if h.time < now - WINDOW {
          SinceEmpty(history[..n], client, now - WINDOW, h.time);
        } else {
          assert Since(history, client, now - WINDOW) == Since(history[..n], client, now - WINDOW) + [h.time];
        }
      }
    }
  }

  /** The pruned window holds the recent admissions of the full history, no more and no fewer. */
  lemma RoomByHistory(s: Limiter, client: Str, before: real, now: real)
    requires WindowsMatchHistory(s, before) && InOrder(s.history) && before <= now
    ensures var window := Pruned(WindowOf(s.hits, client), now);
            && window == Since(s.history, client, now - 60.0)
            && |window| == |RecentAdmissions(s.history, client, now - 60.0, now)|
  {
    assert Matches(s, client, before);
    var at :| at <= before && IsSince(WindowOf(s.hits, client), s.history, client, at);
    PrunedSince(s.history, client, at, now);
    SinceCounts(s.history, client, now - WINDOW, now);
    AdmittedInCounts(s.history, client, now - WINDOW, now);
  }

  lemma SinceSnoc(history: seq<Hit>, h: Hit, client: Str, from: real)
    ensures Since(history + [h], client, from) ==
            if h.client == client && h.admitted && from <= h.time then Since(history, client, from) + [h.time]
            else Since(history, client, from)
  {
    assert (history + [h])[..|history|] == history;
  }

  /** Another client's window is left alone, and still matches. */
  lemma OthersMatch(s: Limiter, limit: int, client: Str, before: real, now: real, other: Str)
    requires Matches(s, other, before) && before <= now && other != client
    ensures Matches(Served(s, limit, client, now), other, now)
  {
    var t := Served(s, limit, client, now);
    var at :| at <= before && IsSince(WindowOf(s.hits, other), s.history, other, at);
    SinceSnoc(s.history, t.history[|s.history|], other, at - WINDOW);
    assert IsSince(WindowOf(t.hits, other), t.history, other, at);
  }

  /** The client's own window, if it was right after pruning, is right after the decision. */
  lemma OwnMatches(s: Limiter, limit: int, client: Str, now: real)
    requires Pruned(WindowOf(s.hits, client), now) == Since(s.history, client, now - 60.0)
    ensures var t := Served(s, limit, client, now);
            Matches(t, client, now) && WindowOf(t.hits, client) == Since(t.history, client, now - 60.0)
  {
    var t := Served(s, limit, client, now);
    SinceSnoc(s.history, t.history[|s.history|], client, now - 60.0);
    assert IsSince(WindowOf(t.hits, client), t.history, client, now);
  }

  /** One request on a clock that has not stepped back: it is admitted exactly when the history has room. */
  lemma ServedByHistory(s: Limiter, limit: int, client: Str, before: real, now: real)
    requires WindowsMatchHistory(s, before) && InOrder(s.history) && before <= now
    ensures var t := Served(s, limit, client, now);
            && WindowsMatchHistory(t, now) && InOrder(t.history)
            && (t.history[|s.history|].admitted <==> |RecentAdmissions(s.history, client, now - 60.0, now)| < limit)
            && WindowOf(t.hits, client) == Since(t.history, client, now - 60.0)
  {
    var t := Served(s, limit, client, now);
    RoomByHistory(s, client, before, now);
    OwnMatches(s, limit, client, now);
    forall c ensures Matches(t, c, now) {
      if c != client {
        assert Matches(s, c, before);
        OthersMatch(s, limit, client, before, now, c);
      }
    }
  }

  /** In every run each window agrees with the full history, and each decision is the reference decision. */
  lemma {:induction false} RunsFollowHistory(limit: int, requests: seq<Request>, now: real)
    requires ClockNeverStepsBack(requests)
    requires requests != [] ==> requests[|requests| - 1].time <= now
    ensures WindowsMatchHistory(ServeAll(limit, requests), now) && InOrder(ServeAll(limit, requests).history)
    ensures |ServeAll(limit, requests).history| == |requests|
  {
    var s := ServeAll(limit, requests);
    if requests == [] {
      forall c ensures Matches(s, c, now) { assert IsSince(WindowOf(s.hits, c), s.history, c, now); }
    } else {
      var n := |requests| - 1;
      var r := requests[n];
      RunsFollowHistory(limit, requests[..n], r.time);
      ServedByHistory(ServeAll(limit, requests[..n]), limit, r.client, r.time, r.time);
      forall c ensures Matches(s, c, now) {
        assert Matches(s, c, r.time);
        var at :| at <= r.time && IsSince(WindowOf(s.hits, c), s.history, c, at);
      }
    }
  }

  lemma {:induction false} IntervalWithinSince(history: seq<Hit>, client: Str, start: real, end: real, from: real)
    requires from <= start
    ensures AdmittedIn(history, client, start, end) <= |Since(history, client, from)|
  {
    if history != [] { IntervalWithinSince(history[..|history| - 1], client, start, end, from); }
  }

  lemma {:induction false} WindowsStayWithin(limit: int, requests: seq<Request>, client: Str, start: real)
    requires ClockNeverStepsBack(requests)
    ensures AdmittedIn(ServeAll(limit, requests).history, client, start, start + WINDOW) <= Max(limit, 0)
  {
    if requests != [] {
      var n := |requests| - 1;
      var r := requests[n];
      WindowsStayWithin(limit, requests[..n], client, start);
      RunsFollowHistory(limit, requests[..n], r.time);
      ServedKeepsCap(ServeAll(limit, requests[..n]), limit, r.client, r.time, client, start);
    }
  }

  /** Whatever other clients do, no closed 60-second interval ever holds more than `limit` admissions of one client. */
  lemma AtMostLimitPerWindow(limit: int, requests: seq<Request>, client: Str, start: real)
    requires ClockNeverStepsBack(requests)
    ensures |RecentAdmissions(ServeAll(limit, requests).history, client, start, start + 60.0)| <= Max(limit, 0)
  {
    WindowsStayWithin(limit, requests, client, start);
    AdmittedInCounts(ServeAll(limit, requests).history, client, start, start + WINDOW);
  }

  lemma ServedKeepsCap(s: Limiter, limit: int, client: Str, now: real, watched: Str, start: real)
    requires WindowsMatchHistory(s, now) && InOrder(s.history)
    requires AdmittedIn(s.history, watched, start, start + WINDOW) <= Max(limit, 0)
    ensures AdmittedIn(Served(s, limit, client, now).history, watched, start, start + WINDOW) <= Max(limit, 0)
  {
    var t := Served(s, limit, client, now);
    ServedByHistory(s, limit, client, now, now);
    assert t.history[..|s.history|] == s.history;
    if client == watched && start <= now <= start + WINDOW {
      IntervalWithinSince(s.history, client, start, start + WINDOW, now - WINDOW);
    }
  }

  lemma ServeSnoc(limit: int, requests: seq<Request>, r: Request)
    ensures ServeAll(limit, requests + [r]) == Served(ServeAll(limit, requests), limit, r.client, r.time)
  {
    assert (requests + [r])[..|requests|] == requests;
  }

  /** A request that finds this window after pruning, with room for another one. */
  lemma AdmitsInto(s: Limiter, limit: int, client: Str, now: real, window: seq<real>, from: real, to: real)
    requires Pruned(WindowOf(s.hits, client), now) == window && |window| < limit
    ensures var t := Served(s, limit, client, now);
            && WindowOf(t.hits, client) == window + [now]
            && AdmittedIn(t.history, client, from, to) ==
               AdmittedIn(s.history, client, from, to) + if from <= now <= to then 1 else 0
  {
    var history := s.history + [Hit(client, now, true)];
    assert history[..|s.history|] == s.history;
  }

  lemma PrunedAway(x: real, y: real, now: real)
    requires now - x > WINDOW && now - y > WINDOW
    ensures Pruned([x, y], now) == []
  {
    assert [x, y][1..] == [y] && [y][1..] == [];
    assert Pruned([y], now) == Pruned([], now) == [];
  }

  /** Why the clock must not step back: with a limit of two, three admissions between 10 and 70. */
  lemma ClockStepBackBreaksTheCap(c: Str)
    ensures var requests := [Request(c, 10.0), Request(c, 11.0), Request(c, 80.0), Request(c, 12.0)];
            |RecentAdmissions(ServeAll(2, requests).history, c, 10.0, 70.0)| == 3
  {
    var r1, r2 := [Request(c, 10.0)], [Request(c, 10.0), Request(c, 11.0)];
    var r3 := [Request(c, 10.0), Request(c, 11.0), Request(c, 80.0)];
    var r4 := [Request(c, 10.0), Request(c, 11.0), Request(c, 80.0), Request(c, 12.0)];
    assert [] + [r1[0]] == r1 && r1 + [r2[1]] == r2 && r2 + [r3[2]] == r3 && r3 + [r4[3]] == r4;
    ServeSnoc(2, [], r1[0]);
    AdmitsInto(ServeAll(2, []), 2, c, 10.0, [], 10.0, 70.0);
    ServeSnoc(2, r1, r2[1]);
    AdmitsInto(ServeAll(2, r1), 2, c, 11.0, [10.0], 10.0, 70.0);
    ServeSnoc(2, r2, r3[2]);
    PrunedAway(10.0, 11.0, 80.0);
    AdmitsInto(ServeAll(2, r2), 2, c, 80.0, [], 10.0, 70.0);
    ServeSnoc(2, r3, r4[3]);
    AdmitsInto(ServeAll(2, r3), 2, c, 12.0, [80.0], 10.0, 70.0);
    AdmittedInCounts(ServeAll(2, r4).history, c, 10.0, 70.0);
  }

  class RateLimiter {
    const limit: int
    var hits: map<Str, seq<real>>
    ghost var history: seq<Hit>

    constructor (limit: int)
      ensures this.limit == limit && hits == map[] && history == []
    {
      this.limit := limit;
      hits, history := map[], [];
    }

    /** Decide one request of a client. */
    method Dispatch(client: Str, now: real) returns (admitted: bool)
      modifies this
      ensures Limiter(hits, history) == Served(old(Limiter(hits, history)), limit, client, now)
      ensures history == old(history) + [Hit(client, now, admitted)]
    {
      var window := if client in hits then hits[client] else [];
      ghost var pruned := Pruned(window, now);
      while window != [] && now - window[0] > WINDOW
        invariant Pruned(window, now) == pruned
        decreases |window|
      {
        window := window[1..];
      }
      admitted := |window| < limit;
      if admitted { window := window + [now]; }
      hits := hits[client := window];
      history := history + [Hit(client, now, admitted)];
    }
  }
}
