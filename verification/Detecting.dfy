/** The detection loop: one retried search per enabled rule through one shared circuit breaker. */
module Detecting {
  import opened Basics
  import opened Domain
  import opened Resilience

  datatype Rule = Rule(ruleId: Str, title: Str, severity: Severity, tactics: seq<Str>, minEvents: int)

  datatype Event = Event(host: Str, fields: map<Str, Str>)

  datatype SearchResult = SearchResult(eventCount: int, events: seq<Event>)

  /** What the search backend answers to each attempt for each rule; a rejected query is a fatal outcome. */
  type World = nat -> nat -> Reply<SearchResult, Str>

  const ATTEMPTS := 3
  const BASE_DELAY: nat := 50000
  const FAILURE_THRESHOLD := 5
  const RESET_AFTER := 30000000

  function FieldValues(events: seq<Event>, key: Str): seq<Str> {
    if events == [] then []
    else
      var e := events[|events| - 1];
      FieldValues(events[..|events| - 1], key) + (if key in e.fields then [e.fields[key]] else [])
  }

  /** The detection raised for a rule whose search found enough events. */
  function ToDetection(rule: Rule, found: SearchResult): Detection {
    Detection(
      rule.title, rule.severity, New,
      if found.events != [] then found.events[0].host else Lit("unknown"),
      found.eventCount, rule.tactics,
      Sorted(FieldValues(found.events, Lit("src_ip")) + FieldValues(found.events, Lit("dest_ip"))),
      Sorted(FieldValues(found.events, Lit("user"))),
      Context(None, None))
  }

  predicate Holds(e: Event, key: Str, v: Str) {
    key in e.fields && e.fields[key] == v
  }

  lemma {:induction false} FieldValuesExact(events: seq<Event>, key: Str)
    ensures forall v :: v in FieldValues(events, key) <==> exists e :: e in events && Holds(e, key, v)
  {
    if events != [] {
      var n := |events| - 1;
      FieldValuesExact(events[..n], key);
      assert events == events[..n] + [events[n]];
      forall v ensures v in FieldValues(events, key) <==> exists e :: e in events && Holds(e, key, v) {
        if v in FieldValues(events, key) && v !in FieldValues(events[..n], key) { assert events[n] in events; }
        if e :| e in events[..n] && Holds(e, key, v) { assert e in events; }
      }
    }
  }

  /** The values of a list are the distinct ones that some event gives one of two keys, sorted. */
  ghost predicate ListsValues(values: seq<Str>, events: seq<Event>, key: Str, other: Str) {
    && DictionarySorted(values)
    && forall v :: v in values <==> exists e :: e in events && (Holds(e, key, v) || Holds(e, other, v))
  }

  /** A detection lists exactly the source and destination addresses of its events, sorted and once each. */
  lemma DetectionAddressesExact(rule: Rule, found: SearchResult)
    ensures ListsValues(ToDetection(rule, found).srcIps, found.events, Lit("src_ip"), Lit("dest_ip"))
  {
    var sources, targets := FieldValues(found.events, Lit("src_ip")), FieldValues(found.events, Lit("dest_ip"));
    FieldValuesExact(found.events, Lit("src_ip"));
    FieldValuesExact(found.events, Lit("dest_ip"));
    SortedExact(sources + targets);
    AscendingIsDictionarySorted(Sorted(sources + targets));
  }

  lemma DetectionUsersExact(rule: Rule, found: SearchResult)
    ensures ListsValues(ToDetection(rule, found).users, found.events, Lit("user"), Lit("user"))
  {
    var users := FieldValues(found.events, Lit("user"));
    FieldValuesExact(found.events, Lit("user"));
    SortedExact(users);
    AscendingIsDictionarySorted(Sorted(users));
  }

  /** The loop after some number of rules: `failure` is the exception that ended it. */
  datatype Sweep = Sweep(
    breaker: Breaker, clock: int, detections: seq<Detection>, answered: nat, failure: Option<Result<SearchResult, Str>>)

  /** The loop body: skip a disabled rule, otherwise search and keep or drop what it found. */
  function Swept(s: Sweep, rule: Rule, disabled: set<Str>, search: nat -> Reply<SearchResult, Str>): Sweep {
    if s.failure.Some? || rule.ruleId in disabled then s
    else
      var t := Retry(s.breaker, ATTEMPTS, BASE_DELAY, s.clock, search);
      if !t.result.Ok? then s.(breaker := t.breaker, clock := t.clock, failure := Some(t.result))
      else Sweep(t.breaker, t.clock, s.detections + Found(rule, t.result.value), s.answered + 1, None)
  }

  function Sweeping(b: Breaker, rules: seq<Rule>, disabled: set<Str>, clock: int, world: World, n: nat): Sweep
    requires n <= |rules|
  {
    if n == 0 then Sweep(b, clock, [], 0, None)
    else Swept(Sweeping(b, rules, disabled, clock, world, n - 1), rules[n - 1], disabled, world(n - 1))
  }

  function Found(rule: Rule, found: SearchResult): seq<Detection> {
    if found.eventCount < rule.minEvents then [] else [ToDetection(rule, found)]
  }

  /** The answer to a rule's search, if it comes within the allowed attempts. */
  function Answer(world: World, i: nat): Option<SearchResult> {
    var s := FirstStop(world(i), ATTEMPTS, 0);
    if s < ATTEMPTS && world(i)(s).outcome.Returned? then Some(world(i)(s).outcome.value) else None
  }

  function EnabledCount(rules: seq<Rule>, disabled: set<Str>): nat {
    if rules == [] then 0
    else EnabledCount(rules[..|rules| - 1], disabled) + (if rules[|rules| - 1].ruleId in disabled then 0 else 1)
  }

  /** The detections of the enabled rules, in rule order, when every search is answered. */
  function Expected(rules: seq<Rule>, disabled: set<Str>, world: World, n: nat): seq<Detection>
    requires n <= |rules|
  {
    if n == 0 then []
    else
      var before := Expected(rules, disabled, world, n - 1);
      if rules[n - 1].ruleId in disabled || Answer(world, n - 1).None? then before
      else before + Found(rules[n - 1], Answer(world, n - 1).value)
  }

  ghost predicate Answered(rules: seq<Rule>, disabled: set<Str>, world: World, n: nat)
    requires n <= |rules|
  {
    forall i :: 0 <= i < n && rules[i].ruleId !in disabled ==> Answer(world, i).Some?
  }

  /** A search that begins with a clean breaker ends with a clean breaker or ends the run. */
  lemma CleanSearch(threshold: int, reset: int, s: Sweep, rule: Rule, disabled: set<Str>, world: World, i: nat)
    requires s.breaker == Fresh(threshold, reset) && s.failure.None? && rule.ruleId !in disabled
    ensures var t := Swept(s, rule, disabled, world(i));
            if Answer(world, i).Some?
            then && t.failure.None? && t.breaker == Fresh(threshold, reset) && t.answered == s.answered + 1
                 && t.detections == s.detections + Found(rule, Answer(world, i).value)
            else t.failure.Some? && t.failure.value.Raised?
  {
    RetryExact(s.breaker, ATTEMPTS, BASE_DELAY, s.clock, world(i));
  }

  /** Completed if and only if every enabled rule was answered, and then clean, complete and in rule order. */
  ghost predicate CleanSweep(
      s: Sweep, threshold: int, reset: int, rules: seq<Rule>, disabled: set<Str>, world: World, n: nat)
    requires n <= |rules|
  {
    && (s.failure.None? <==> Answered(rules, disabled, world, n))
    && (s.failure.Some? ==> s.failure.value.Raised?)
    && (s.failure.None? ==>
          && s.breaker == Fresh(threshold, reset)
          && s.answered == EnabledCount(rules[..n], disabled)
          && s.detections == Expected(rules, disabled, world, n))
  }

  lemma CleanStep(
      s: Sweep, threshold: int, reset: int, rules: seq<Rule>, disabled: set<Str>, world: World, n: nat)
    requires 0 < n <= |rules| && CleanSweep(s, threshold, reset, rules, disabled, world, n - 1)
    ensures CleanSweep(Swept(s, rules[n - 1], disabled, world(n - 1)), threshold, reset, rules, disabled, world, n)
  {
    CountStep(rules, disabled, n);
    AnsweredStep(rules, disabled, world, n);
    if s.failure.None? && rules[n - 1].ruleId !in disabled {
      CleanSearch(threshold, reset, s, rules[n - 1], disabled, world, n - 1);
    }
  }

  /**
   Started with no recorded failures, the loop never meets an open circuit: every search begins with a clean
   breaker. It completes exactly when every enabled rule is answered; it has then made one successful search
   per enabled rule, and its detections are those of the enabled rules that found enough events.
   */
  lemma {:induction false} FreshRunNeverShortCircuits(
      threshold: int, reset: int, rules: seq<Rule>, disabled: set<Str>, clock: int, world: World, n: nat)
    requires n <= |rules|
    ensures var s := Sweeping(Fresh(threshold, reset), rules, disabled, clock, world, n);
            && CleanSweep(s, threshold, reset, rules, disabled, world, n)
            && (n == |rules| && s.failure.None? ==> DetectsFirings(s.detections, rules, disabled, world))
  {
    if n > 0 {
      FreshRunNeverShortCircuits(threshold, reset, rules, disabled, clock, world, n - 1);
      CleanStep(Sweeping(Fresh(threshold, reset), rules, disabled, clock, world, n - 1),
                threshold, reset, rules, disabled, world, n);
    }
    if n == |rules| && Sweeping(Fresh(threshold, reset), rules, disabled, clock, world, n).failure.None? {
      CompletedRunDetects(Fresh(threshold, reset), rules, disabled, clock, world);
    }
  }

  lemma CountStep(rules: seq<Rule>, disabled: set<Str>, n: nat)
    requires 0 < n <= |rules|
    ensures EnabledCount(rules[..n], disabled) ==
            EnabledCount(rules[..n - 1], disabled) + (if rules[n - 1].ruleId in disabled then 0 else 1)
  {
    assert rules[..n][..n - 1] == rules[..n - 1];
  }

  lemma AnsweredStep(rules: seq<Rule>, disabled: set<Str>, world: World, n: nat)
    requires 0 < n <= |rules|
    ensures Answered(rules, disabled, world, n) <==>
              && Answered(rules, disabled, world, n - 1)
              && (rules[n - 1].ruleId !in disabled ==> Answer(world, n - 1).Some?)
  {
  }

  // ----- A completed run, told by its answers -----

  /** The search answers within three attempts: so many retryable failures, and then this result. */
  ghost predicate Answers(search: nat -> Reply<SearchResult, Str>, found: SearchResult) {
    exists s: nat :: s < 3 && search(s).outcome == Returned(found)
                     && forall k :: 0 <= k < s ==> search(k).outcome.Retryable?
  }

  lemma AnswerMeans(world: World, i: nat, found: SearchResult)
    ensures Answer(world, i) == Some(found) <==> Answers(world(i), found)
  {
    var stop := FirstStop(world(i), ATTEMPTS, 0);
    if s: nat :| s < 3 && world(i)(s).outcome == Returned(found)
                 && forall k :: 0 <= k < s ==> world(i)(k).outcome.Retryable?
    {
      assert !world(i)(s).outcome.Retryable?;
      assert stop == s;
    }
  }

  /** The detection carries what its rule says and what the search found. */
  ghost predicate Tells(d: Detection, rule: Rule, found: SearchResult) {
    && d.title == rule.title && d.severity == rule.severity && d.tactics == rule.tactics
    && d.status == New && d.eventCount == found.eventCount && d.context == Context(None, None)
    && d.entity == (if found.events == [] then Lit("unknown") else found.events[0].host)
    && ListsValues(d.srcIps, found.events, Lit("src_ip"), Lit("dest_ip"))
    && ListsValues(d.users, found.events, Lit("user"), Lit("user"))
  }

  lemma ToDetectionTells(rule: Rule, found: SearchResult)
    ensures Tells(ToDetection(rule, found), rule, found)
  {
    DetectionAddressesExact(rule, found);
    DetectionUsersExact(rule, found);
  }

  /** An enabled rule whose search was answered with at least as many events as the rule asks for. */
  ghost predicate Fires(rule: Rule, disabled: set<Str>, search: nat -> Reply<SearchResult, Str>) {
    rule.ruleId !in disabled && exists found :: Answers(search, found) && found.eventCount >= rule.minEvents
  }

  ghost predicate TellsOf(d: Detection, rule: Rule, search: nat -> Reply<SearchResult, Str>) {
    exists found :: Answers(search, found) && Tells(d, rule, found)
  }

  /** One detection for each firing rule, in the order of the rules, and none for any other. */
  ghost predicate OnePerFiring(
      detections: seq<Detection>, fired: seq<nat>, rules: seq<Rule>, disabled: set<Str>, world: World, n: nat)
    requires n <= |rules|
  {
    && |fired| == |detections|
    && (forall i, j :: 0 <= i < j < |fired| ==> fired[i] < fired[j])
    && (forall r: nat :: r in fired <==> r < n && Fires(rules[r], disabled, world(r)))
    && (forall k :: 0 <= k < |fired| && fired[k] < n ==> TellsOf(detections[k], rules[fired[k]], world(fired[k])))
  }

  ghost predicate DetectsFirings(detections: seq<Detection>, rules: seq<Rule>, disabled: set<Str>, world: World) {
    exists fired :: OnePerFiring(detections, fired, rules, disabled, world, |rules|)
  }

  /** One more rule that does not fire. */
  lemma SilentRule(
      detections: seq<Detection>, fired: seq<nat>, rules: seq<Rule>, disabled: set<Str>, world: World, n: nat)
    requires 0 < n <= |rules| && OnePerFiring(detections, fired, rules, disabled, world, n - 1)
    requires !Fires(rules[n - 1], disabled, world(n - 1))
    ensures OnePerFiring(detections, fired, rules, disabled, world, n)
  {
    forall k | 0 <= k < |fired| && fired[k] < n ensures TellsOf(detections[k], rules[fired[k]], world(fired[k])) {
      assert fired[k] in fired;
    }
  }

  lemma FiringRule(
      detections: seq<Detection>, fired: seq<nat>, rules: seq<Rule>, disabled: set<Str>, world: World, n: nat,
      d: Detection)
    requires 0 < n <= |rules| && OnePerFiring(detections, fired, rules, disabled, world, n - 1)
    requires Fires(rules[n - 1], disabled, world(n - 1)) && TellsOf(d, rules[n - 1], world(n - 1))
    ensures OnePerFiring(detections + [d], fired + [n - 1], rules, disabled, world, n)
  {
    var all, last: nat := fired + [n - 1], n - 1;
    assert all[|fired|] == last;
    forall i, j | 0 <= i < j < |all| ensures all[i] < all[j] { assert fired[i] in fired; }
    forall k | 0 <= k < |all| && all[k] < n ensures TellsOf((detections + [d])[k], rules[all[k]], world(all[k])) {
      if k < |fired| { assert fired[k] in fired; }
    }
  }

  /** An enabled rule of a completed run was answered, whatever state the breaker was in. */
  lemma CompletedSearch(s: Sweep, rule: Rule, disabled: set<Str>, world: World, i: nat)
    requires s.failure.None? && Swept(s, rule, disabled, world(i)).failure.None? && rule.ruleId !in disabled
    ensures var t := Swept(s, rule, disabled, world(i));
            && Answer(world, i).Some? && Answers(world(i), Answer(world, i).value) && t.answered == s.answered + 1
            && t.detections == s.detections + Found(rule, Answer(world, i).value)
  {
    if !IsOpen(s.breaker, s.clock) { RetryExact(s.breaker, ATTEMPTS, BASE_DELAY, s.clock, world(i)); }
    AnswerMeans(world, i, Answer(world, i).value);
  }

  lemma CompletedStep(
      s: Sweep, fired: seq<nat>, rules: seq<Rule>, disabled: set<Str>, world: World, n: nat) returns (more: seq<nat>)
    requires 0 < n <= |rules| && s.failure.None?
    requires Swept(s, rules[n - 1], disabled, world(n - 1)).failure.None?
    requires OnePerFiring(s.detections, fired, rules, disabled, world, n - 1)
    ensures OnePerFiring(Swept(s, rules[n - 1], disabled, world(n - 1)).detections, more, rules, disabled, world, n)
  {
    var rule := rules[n - 1];
    more := fired;
    if rule.ruleId in disabled {
      SilentRule(s.detections, fired, rules, disabled, world, n);
    } else {
      CompletedSearch(s, rule, disabled, world, n - 1);
      var found := Answer(world, n - 1).value;
      if found.eventCount < rule.minEvents {
        SilentRule(s.detections, fired, rules, disabled, world, n);
      } else {
        more := fired + [n - 1];
        ToDetectionTells(rule, found);
        FiringRule(s.detections, fired, rules, disabled, world, n, ToDetection(rule, found));
      }
    }
  }

  lemma {:induction false} CompletedFirings(
      b: Breaker, rules: seq<Rule>, disabled: set<Str>, clock: int, world: World, n: nat) returns (fired: seq<nat>)
    requires n <= |rules| && Sweeping(b, rules, disabled, clock, world, n).failure.None?
    ensures OnePerFiring(Sweeping(b, rules, disabled, clock, world, n).detections, fired, rules, disabled, world, n)
    ensures Sweeping(b, rules, disabled, clock, world, n).answered == EnabledCount(rules[..n], disabled)
  {
    fired := [];
    if n > 0 {
      var s := Sweeping(b, rules, disabled, clock, world, n - 1);
      var before := CompletedFirings(b, rules, disabled, clock, world, n - 1);
      CountStep(rules, disabled, n);
      if rules[n - 1].ruleId !in disabled { CompletedSearch(s, rules[n - 1], disabled, world, n - 1); }
      fired := CompletedStep(s, before, rules, disabled, world, n);
    }
  }

  /**
   What a completed run detects, from any breaker: in rule order, one detection for each enabled rule whose search was
   answered with at least the rule's minimum of events, telling what was found, and none for any other rule. It has
   made one successful search per enabled rule.
   */
  lemma CompletedRunDetects(b: Breaker, rules: seq<Rule>, disabled: set<Str>, clock: int, world: World)
    requires Sweeping(b, rules, disabled, clock, world, |rules|).failure.None?
    ensures var s := Sweeping(b, rules, disabled, clock, world, |rules|);
            s.answered == |EnabledRules(rules, disabled)| && DetectsFirings(s.detections, rules, disabled, world)
  {
    var fired := CompletedFirings(b, rules, disabled, clock, world, |rules|);
    assert rules[..|rules|] == rules;
    CountIsSize(rules, disabled);
  }

  /** The enabled rules, by their places. */
  ghost function EnabledRules(rules: seq<Rule>, disabled: set<Str>): set<nat> {
    set r: nat | 0 <= r < |rules| && rules[r].ruleId !in disabled
  }

  lemma {:induction false} CountIsSize(rules: seq<Rule>, disabled: set<Str>)
    ensures EnabledCount(rules, disabled) == |EnabledRules(rules, disabled)|
  {
    if rules == [] {
      assert EnabledRules(rules, disabled) == {};
    } else {
      var n := |rules| - 1;
      CountIsSize(rules[..n], disabled);
      var before := EnabledRules(rules[..n], disabled);
      if rules[n].ruleId in disabled {
        assert EnabledRules(rules, disabled) == before;
      } else {
        assert EnabledRules(rules, disabled) == before + {n};
      }
    }
  }

  /** Three attempts at most, with rests of 50 and 100 milliseconds between them. */
  lemma ThreeAttempts(b: Breaker, clock: int, search: nat -> Reply<SearchResult, Str>)
    requires !IsOpen(b, clock)
    ensures var stop, t := FirstStop(search, 3, 0), Retry(b, ATTEMPTS, BASE_DELAY, clock, search);
            && (t.result.Ok? <==> stop < 3 && search(stop).outcome.Returned?)
            && t.clock == clock + Spent(search, Min(stop + 1, 3)) +
                          if stop == 0 then 0 else if stop == 1 then 50_000 else 150_000
  {
    var calls := Retry(b, ATTEMPTS, BASE_DELAY, clock, search).calls;
    RetryExact(b, ATTEMPTS, BASE_DELAY, clock, search);
    CallTimesExact(b, ATTEMPTS, BASE_DELAY, clock, search, |calls| - 1);
    assert Pow2(0) == 1 && Pow2(1) == 2 && Pow2(2) == 4;
  }

  /**
   How long a search takes: up to three attempts, with rests of 50 and 100 milliseconds between them. A rule that is
   searched for behind a closed breaker is answered if and only if one of the three attempts is; behind an open one
   nothing is tried.
   */
  lemma SearchSchedule(s: Sweep, rule: Rule, disabled: set<Str>, search: nat -> Reply<SearchResult, Str>)
    requires s.failure.None? && rule.ruleId !in disabled
    ensures IsOpen(s.breaker, s.clock) ==> Swept(s, rule, disabled, search) == s.(failure := Some(CircuitOpen))
    ensures !IsOpen(s.breaker, s.clock) ==>
            var stop, t := FirstStop(search, 3, 0), Swept(s, rule, disabled, search);
            && (t.failure.None? <==> stop < 3 && search(stop).outcome.Returned?)
            && t.clock == s.clock + Spent(search, Min(stop + 1, 3)) +
                          if stop == 0 then 0 else if stop == 1 then 50_000 else 150_000
  {
    if !IsOpen(s.breaker, s.clock) { ThreeAttempts(s.breaker, s.clock, search); }
  }

  class DetectionAgent {
    const rules: seq<Rule>
    const breaker: CircuitBreaker

    constructor (rules: seq<Rule>)
      ensures this.rules == rules && fresh(breaker)
      ensures breaker.State() == Fresh(5, 30_000_000)
    {
      this.rules := rules;
      breaker := new CircuitBreaker(FAILURE_THRESHOLD, RESET_AFTER);
    }

    /** One pass of the loop: skip a disabled rule, otherwise search and keep or drop what was found. */
    method SweepRule(
        rule: Rule, disabled: set<Str>, start: int, search: nat -> Reply<SearchResult, Str>,
        before: seq<Detection>, count: nat)
      returns (detections: seq<Detection>, answered: nat, failure: Option<Result<SearchResult, Str>>, clock: int)
      modifies breaker
      ensures Sweep(breaker.State(), clock, detections, answered, failure)
              == Swept(Sweep(old(breaker.State()), start, before, count, None), rule, disabled, search)
    {
      detections, answered, failure, clock := before, count, None, start;
      if rule.ruleId in disabled { return; }
      var result, calls, slept;
      result, clock, calls, slept := WithRetry(breaker, ATTEMPTS, BASE_DELAY, clock, search);
      if !result.Ok? {
        failure := Some(result);
        return;
      }
      answered := answered + 1;
      if result.value.eventCount < rule.minEvents { return; }
      detections := detections + [ToDetection(rule, result.value)];
    }

    /** Search for every enabled rule in turn; the first exception ends the run. */
    method Run(disabled: set<Str>, start: int, world: World)
      returns (detections: seq<Detection>, answered: nat, failure: Option<Result<SearchResult, Str>>, clock: int)
      modifies breaker
      ensures Sweep(breaker.State(), clock, detections, answered, failure)
              == Sweeping(old(breaker.State()), rules, disabled, start, world, |rules|)
      ensures failure.None? ==>
                answered == |EnabledRules(rules, disabled)| && DetectsFirings(detections, rules, disabled, world)
    {
      detections, answered, failure, clock := [], 0, None, start;
      ghost var b := breaker.State();
      for n := 0 to |rules|
        invariant failure.None?
        invariant Sweep(breaker.State(), clock, detections, answered, failure)
                  == Sweeping(b, rules, disabled, start, world, n)
      {
        detections, answered, failure, clock := SweepRule(rules[n], disabled, clock, world(n), detections, answered);
        if failure.Some? {
          SweepStopped(b, rules, disabled, start, world, n + 1, |rules|);
          return;
        }
      }
      CompletedRunDetects(b, rules, disabled, start, world);
    }
  }

  lemma {:induction false} SweepStopped(
      b: Breaker, rules: seq<Rule>, disabled: set<Str>, clock: int, world: World, m: nat, n: nat)
    requires m <= n <= |rules| && Sweeping(b, rules, disabled, clock, world, m).failure.Some?
    ensures Sweeping(b, rules, disabled, clock, world, n) == Sweeping(b, rules, disabled, clock, world, m)
  {
    if m < n { SweepStopped(b, rules, disabled, clock, world, m, n - 1); }
  }
}
