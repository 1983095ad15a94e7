/**
 Plan quotas as a protocol: check, work, then commit or roll back, with several runs in flight. A check sees
 committed usage only, so the cap can be overshot; how far is bounded exactly.
 */
module Quotas {
  import opened Basics
  import opened Metering

  const UNLIMITED := -1

  datatype PlanQuota = PlanQuota(searches: int, modelCalls: int)

  function QuotaFor(plan: Str): PlanQuota {
    if plan == Lit("trial") then PlanQuota(250, 150)
    else if plan == Lit("pro") then PlanQuota(10000, 5000)
    else if plan == Lit("enterprise") then PlanQuota(UNLIMITED, UNLIMITED)
    else PlanQuota(100, 50)
  }

  function LimitFor(plan: Str, kind: Str): int {
    if kind == SearchKind() then QuotaFor(plan).searches
    else if kind == ModelCallKind() then QuotaFor(plan).modelCalls
    else UNLIMITED
  }

  /** A tenant's committed usage of a kind since the start of the month. */
  function UsedThisMonth(table: seq<UsageEvent>, tenant: Str, kind: Str, monthStart: int): int {
    QuantityOf(OfKind(Selected(table, tenant, Some(monthStart), None), kind))
  }

  datatype QuotaStatus = QuotaStatus(kind: Str, used: int, limit: int, allowed: bool, warn: bool)

  function Status(table: seq<UsageEvent>, tenant: Str, plan: Str, kind: Str, want: int, monthStart: int): QuotaStatus {
    var limit := LimitFor(plan, kind);
    var used := UsedThisMonth(table, tenant, kind, monthStart);
    if limit == UNLIMITED then QuotaStatus(kind, used, UNLIMITED, true, false)
    else QuotaStatus(kind, used, limit, used + want <= limit, used >= limit * 4 / 5)
  }

  function Remaining(s: QuotaStatus): int {
    if s.limit == UNLIMITED then UNLIMITED else Max(0, s.limit - s.used)
  }

  /** A finite quota admits a positive request exactly when it fits in what remains. */
  lemma AllowedIffFits(table: seq<UsageEvent>, tenant: Str, plan: Str, kind: Str, want: int, monthStart: int)
    requires LimitFor(plan, kind) != UNLIMITED && want > 0
    ensures var s := Status(table, tenant, plan, kind, want, monthStart);
            (s.allowed <==> want <= Remaining(s)) && Remaining(s) >= 0
  {
  }

  /** The monthly limits by the names of plans and kinds; -1 stands for no limit, an unknown plan is the free one. */
  lemma PlanLimits(plan: Str, kind: Str)
    ensures LimitFor(Lit("trial"), Lit("search")) == 250 && LimitFor(Lit("trial"), Lit("model_call")) == 150
    ensures LimitFor(Lit("pro"), Lit("search")) == 10_000 && LimitFor(Lit("pro"), Lit("model_call")) == 5_000
    ensures LimitFor(Lit("enterprise"), Lit("search")) == LimitFor(Lit("enterprise"), Lit("model_call")) == -1
    ensures plan !in {Lit("trial"), Lit("pro"), Lit("enterprise")} ==>
              LimitFor(plan, Lit("search")) == 100 && LimitFor(plan, Lit("model_call")) == 50
    ensures kind !in {Lit("search"), Lit("model_call")} ==> LimitFor(plan, kind) == -1
  {
    assert Lit("trial")[0] == 't' as int && Lit("pro")[0] == 'p' as int && Lit("enterprise")[0] == 'e' as int;
    KindsDistinct();
  }

  /**
   The answer of a check: under a limit it allows what keeps the month's usage within it, and warns from four fifths
   of it; without one it allows everything and never warns.
   */
  lemma StatusExact(table: seq<UsageEvent>, tenant: Str, plan: Str, kind: Str, want: int, monthStart: int)
    ensures var s, limit := Status(table, tenant, plan, kind, want, monthStart), LimitFor(plan, kind);
            && s.kind == kind && s.limit == limit && s.used == UsedThisMonth(table, tenant, kind, monthStart)
            && (s.allowed <==> limit == -1 || s.used + want <= limit)
            && (s.warn <==> limit != -1 && 5 * s.used >= 4 * limit)
  {
    PlanLimits(plan, kind);
  }

  // ----- Runs in flight -----

  /** An admitted run that has not ended. */
  datatype Pending = Pending(tenant: Str, want: nat)

  datatype State = State(events: seq<UsageEvent>, pending: seq<Pending>, monthStart: int)

  datatype Step =
    | Admit(tenant: Str, want: nat)                 // the check; a refused run changes nothing
    | Commit(i: nat, at: int, cost: int)            // a pending run records its searches and commits
    | Abort(i: nat)                                 // a pending run fails and is rolled back
    | Other(event: UsageEvent)                      // usage of another kind
    | Rollover(monthStart: int)                     // a new month begins

  function Next(s: State, plans: Str -> Str, step: Step): State {
    match step
    case Admit(tenant, want) =>
      if Status(s.events, tenant, plans(tenant), SearchKind(), want, s.monthStart).allowed
      then s.(pending := s.pending + [Pending(tenant, want)]) else s
    case Commit(i, at, cost) =>
      if i >= |s.pending| then s
      else
        var p := s.pending[i];
        s.(events := s.events + [UsageEvent(p.tenant, SearchKind(), p.want, cost, at)],
           pending := s.pending[..i] + s.pending[i + 1..])
    case Abort(i) => if i >= |s.pending| then s else s.(pending := s.pending[..i] + s.pending[i + 1..])
    case Other(event) => s.(events := s.events + [event])
    case Rollover(monthStart) => s.(monthStart := monthStart)
  }

  function InFlight(pending: seq<Pending>, tenant: Str): nat {
    if pending == [] then 0
    else InFlight(pending[..|pending| - 1], tenant) + (if pending[|pending| - 1].tenant == tenant then 1 else 0)
  }

  function Promised(pending: seq<Pending>, tenant: Str): nat {
    if pending == [] then 0
    else Promised(pending[..|pending| - 1], tenant)
         + (if pending[|pending| - 1].tenant == tenant then pending[|pending| - 1].want else 0)
  }

  function Used(s: State, tenant: Str): int {
    UsedThisMonth(s.events, tenant, SearchKind(), s.monthStart)
  }

  /** At most k runs of the tenant in flight, each wanting at most w searches; months only move forward. */
  ghost predicate Legal(s: State, tenant: Str, k: nat, w: nat, step: Step) {
    match step
    case Admit(t, want) => t == tenant ==> want <= w && InFlight(s.pending, tenant) < k
    case Other(event) => event.kind != SearchKind() && event.quantity >= 0
    case Rollover(monthStart) => monthStart >= s.monthStart
    case _ => true
  }

  ghost predicate NonNegative(events: seq<UsageEvent>) {
    forall e :: e in events ==> e.quantity >= 0
  }

  /** Every pending run of the tenant wants at most w searches. */
  ghost predicate Modest(pending: seq<Pending>, tenant: Str, w: nat) {
    forall p :: p in pending && p.tenant == tenant ==> p.want <= w
  }

  /** At most k runs in flight wanting at most w each, and usage and promises within the cap. */
  ghost predicate Bounded(s: State, tenant: Str, k: nat, w: nat, cap: int) {
    && NonNegative(s.events) && Modest(s.pending, tenant, w)
    && InFlight(s.pending, tenant) <= k
    && Used(s, tenant) + Promised(s.pending, tenant) <= cap
  }

  lemma {:induction false} PromisedBound(pending: seq<Pending>, tenant: Str, w: nat)
    requires Modest(pending, tenant, w)
    ensures Promised(pending, tenant) <= InFlight(pending, tenant) * w
  {
    if pending != [] {
      var n := |pending| - 1;
      PromisedBound(pending[..n], tenant, w);
      assert pending[n] in pending;
      assert (InFlight(pending[..n], tenant) + 1) * w == InFlight(pending[..n], tenant) * w + w;
    }
  }

  lemma {:induction false} RemovePending(pending: seq<Pending>, i: nat, tenant: Str)
    requires i < |pending|
    ensures var less := pending[..i] + pending[i + 1..];
            && InFlight(pending, tenant) == InFlight(less, tenant) + (if pending[i].tenant == tenant then 1 else 0)
            && Promised(pending, tenant) == Promised(less, tenant)
               + (if pending[i].tenant == tenant then pending[i].want else 0)
  {
    var n := |pending| - 1;
    var less := pending[..i] + pending[i + 1..];
    if i == n {
      assert less == pending[..n];
    } else {
      RemovePending(pending[..n], i, tenant);
      assert less[..|less| - 1] == pending[..n][..i] + pending[..n][i + 1..];
      assert less[|less| - 1] == pending[n];
    }
  }

  lemma UsedSnoc(s: State, e: UsageEvent, tenant: Str)
    ensures var t := s.(events := s.events + [e]);
            Used(t, tenant) == Used(s, tenant) +
              if e.tenant == tenant && e.kind == SearchKind() && e.at >= s.monthStart then e.quantity else 0
  {
    assert (s.events + [e])[..|s.events|] == s.events;
    var before := Selected(s.events, tenant, Some(s.monthStart), None);
    assert (before + [e])[..|before|] == before;
    var kept := OfKind(before, SearchKind());
    assert (kept + [e])[..|kept|] == kept;
  }

  lemma {:induction false} UsedShrinks(events: seq<UsageEvent>, tenant: Str, kind: Str, a: int, b: int)
    requires a <= b && NonNegative(events)
    ensures UsedThisMonth(events, tenant, kind, b) <= UsedThisMonth(events, tenant, kind, a)
  {
    if events != [] {
      var n := |events| - 1;
      assert events[n] in events;
      UsedShrinks(events[..n], tenant, kind, a, b);
      UsedStep(events, tenant, kind, a);
      UsedStep(events, tenant, kind, b);
    }
  }

  lemma UsedStep(events: seq<UsageEvent>, tenant: Str, kind: Str, from: int)
    requires events != []
    ensures var e := events[|events| - 1];
            UsedThisMonth(events, tenant, kind, from) == UsedThisMonth(events[..|events| - 1], tenant, kind, from) +
              if e.tenant == tenant && e.kind == kind && e.at >= from then e.quantity else 0
  {
    var e := events[|events| - 1];
    var before := Selected(events[..|events| - 1], tenant, Some(from), None);
    assert (before + [e])[..|before|] == before;
    var kept := OfKind(before, kind);
    assert (kept + [e])[..|kept|] == kept;
  }

  lemma Scale(a: int, b: int, w: int)
    requires a <= b && w >= 0
    ensures a * w <= b * w
  {
  }

  /** The plan's limit, and the most that k - 1 other runs in flight can add to it. */
  function Cap(limit: int, k: nat, w: nat): int {
    limit + (k - 1) * w
  }

  lemma OthersWithin(pending: seq<Pending>, tenant: Str, k: nat, w: nat)
    requires k >= 1 && InFlight(pending, tenant) < k
    requires Modest(pending, tenant, w)
    ensures Promised(pending, tenant) <= (k - 1) * w
  {
    PromisedBound(pending, tenant, w);
    Scale(InFlight(pending, tenant), k - 1, w);
  }

  lemma PendingSnoc(pending: seq<Pending>, p: Pending, tenant: Str)
    ensures InFlight(pending + [p], tenant) == InFlight(pending, tenant) + if p.tenant == tenant then 1 else 0
    ensures Promised(pending + [p], tenant) == Promised(pending, tenant) + if p.tenant == tenant then p.want else 0
  {
    assert (pending + [p])[..|pending|] == pending;
  }

  /** One more promise: what the others in flight were promised is at most (k - 1) * w. */
  lemma PromiseKeepsBound(s: State, tenant: Str, limit: int, k: nat, w: nat, t: Str, want: nat)
    requires k >= 1 && Bounded(s, tenant, k, w, Cap(limit, k, w))
    requires t == tenant ==> want <= w && InFlight(s.pending, tenant) < k && Used(s, tenant) + want <= limit
    ensures Bounded(s.(pending := s.pending + [Pending(t, want)]), tenant, k, w, Cap(limit, k, w))
  {
    PendingSnoc(s.pending, Pending(t, want), tenant);
    if t == tenant { OthersWithin(s.pending, tenant, k, w); }
  }

  lemma RemainingModest(pending: seq<Pending>, i: nat, tenant: Str, w: nat)
    requires i < |pending| && Modest(pending, tenant, w)
    ensures Modest(pending[..i] + pending[i + 1..], tenant, w)
  {
    forall p | p in pending[..i] + pending[i + 1..] ensures p in pending { }
  }

  lemma NonNegativeSnoc(events: seq<UsageEvent>, e: UsageEvent)
    requires NonNegative(events) && e.quantity >= 0
    ensures NonNegative(events + [e])
  {
  }

  lemma CommitKeepsBound(s: State, plans: Str -> Str, tenant: Str, k: nat, w: nat, cap: int, i: nat, at: int, cost: int)
    requires i < |s.pending| && Bounded(s, tenant, k, w, cap)
    ensures Bounded(Next(s, plans, Commit(i, at, cost)), tenant, k, w, cap)
  {
    var p := s.pending[i];
    var event := UsageEvent(p.tenant, SearchKind(), p.want, cost, at);
    RemovePending(s.pending, i, tenant);
    RemainingModest(s.pending, i, tenant, w);
    NonNegativeSnoc(s.events, event);
    UsedSnoc(s, event, tenant);
    assert Used(Next(s, plans, Commit(i, at, cost)), tenant) == Used(s.(events := s.events + [event]), tenant);
  }

  lemma AbortKeepsBound(s: State, plans: Str -> Str, tenant: Str, k: nat, w: nat, cap: int, i: nat)
    requires i < |s.pending| && Bounded(s, tenant, k, w, cap)
    ensures Bounded(Next(s, plans, Abort(i)), tenant, k, w, cap)
  {
    RemovePending(s.pending, i, tenant);
    RemainingModest(s.pending, i, tenant, w);
  }

  /** No step, of any tenant, lifts a tenant's usage and promises above limit + (k - 1) * w. */
  lemma StepKeepsBound(s: State, plans: Str -> Str, tenant: Str, k: nat, w: nat, step: Step)
    requires k >= 1 && LimitFor(plans(tenant), SearchKind()) != UNLIMITED
    requires Bounded(s, tenant, k, w, Cap(LimitFor(plans(tenant), SearchKind()), k, w)) && Legal(s, tenant, k, w, step)
    ensures Bounded(Next(s, plans, step), tenant, k, w, Cap(LimitFor(plans(tenant), SearchKind()), k, w))
  {
    var limit := LimitFor(plans(tenant), SearchKind());
    var cap := Cap(limit, k, w);
    match step {
      case Admit(t, want) =>
        if Status(s.events, t, plans(t), SearchKind(), want, s.monthStart).allowed {
          PromiseKeepsBound(s, tenant, limit, k, w, t, want);
        }
      case Commit(i, at, cost) => if i < |s.pending| { CommitKeepsBound(s, plans, tenant, k, w, cap, i, at, cost); }
      case Abort(i) => if i < |s.pending| { AbortKeepsBound(s, plans, tenant, k, w, cap, i); }
      case Other(event) => UsedSnoc(s, event, tenant);
      case Rollover(monthStart) => UsedShrinks(s.events, tenant, SearchKind(), s.monthStart, monthStart);
    }
  }

  function RunAll(s: State, plans: Str -> Str, steps: seq<Step>): State {
    if steps == [] then s else Next(RunAll(s, plans, steps[..|steps| - 1]), plans, steps[|steps| - 1])
  }

  ghost predicate AllLegal(s: State, plans: Str -> Str, tenant: Str, k: nat, w: nat, steps: seq<Step>) {
    forall i :: 0 <= i < |steps| ==> Legal(RunAll(s, plans, steps[..i]), tenant, k, w, steps[i])
  }

  lemma LegalPrefix(s: State, plans: Str -> Str, tenant: Str, k: nat, w: nat, steps: seq<Step>)
    requires AllLegal(s, plans, tenant, k, w, steps) && steps != []
    ensures AllLegal(s, plans, tenant, k, w, steps[..|steps| - 1])
    ensures Legal(RunAll(s, plans, steps[..|steps| - 1]), tenant, k, w, steps[|steps| - 1])
  {
    var n := |steps| - 1;
    forall i | 0 <= i < n ensures Legal(RunAll(s, plans, steps[..n][..i]), tenant, k, w, steps[..n][i]) {
      assert steps[..n][..i] == steps[..i];
      assert Legal(RunAll(s, plans, steps[..i]), tenant, k, w, steps[i]);
    }
    assert Legal(RunAll(s, plans, steps[..n]), tenant, k, w, steps[n]);
  }

  /** A tenant within its plan's limit, with no run in flight. */
  ghost predicate AtRest(s: State, plans: Str -> Str, tenant: Str) {
    && LimitFor(plans(tenant), SearchKind()) != UNLIMITED
    && s.pending == [] && NonNegative(s.events)
    && Used(s, tenant) <= LimitFor(plans(tenant), SearchKind())
  }

  lemma {:induction false} StaysBounded(s: State, plans: Str -> Str, tenant: Str, k: nat, w: nat, steps: seq<Step>)
    requires k >= 1 && AtRest(s, plans, tenant) && AllLegal(s, plans, tenant, k, w, steps)
    ensures Bounded(RunAll(s, plans, steps), tenant, k, w, Cap(LimitFor(plans(tenant), SearchKind()), k, w))
  {
    if steps == [] {
      Scale(0, k - 1, w);
    } else {
      var before, step := steps[..|steps| - 1], steps[|steps| - 1];
      LegalPrefix(s, plans, tenant, k, w, steps);
      StaysBounded(s, plans, tenant, k, w, before);
      StepKeepsBound(RunAll(s, plans, before), plans, tenant, k, w, step);
    }
  }

  /**
   With at most k runs of a tenant in flight, each wanting at most w searches, its committed searches this
   month plus those promised to running requests never exceed limit + (k - 1) * w, across commits, rollbacks,
   other tenants' requests and month ends. With k = 1 the plan limit itself is never exceeded.
   */
  lemma OverageBound(s: State, plans: Str -> Str, tenant: Str, k: nat, w: nat, steps: seq<Step>)
    requires k >= 1 && AtRest(s, plans, tenant) && AllLegal(s, plans, tenant, k, w, steps)
    ensures var limit, t := LimitFor(plans(tenant), SearchKind()), RunAll(s, plans, steps);
            && Used(t, tenant) + Promised(t.pending, tenant) <= Cap(limit, k, w)
            && (k == 1 ==> Used(t, tenant) <= limit)
  {
    StaysBounded(s, plans, tenant, k, w, steps);
    CapOfOne(LimitFor(plans(tenant), SearchKind()), w);
  }

  lemma CapOfOne(limit: int, w: nat)
    ensures Cap(limit, 1, w) == limit
  {
  }

  function Admits(tenant: Str, w: nat, k: nat): seq<Step> {
    if k == 0 then [] else Admits(tenant, w, k - 1) + [Admit(tenant, w)]
  }

  lemma AdmitOne(s: State, plans: Str -> Str, tenant: Str, w: nat)
    requires Status(s.events, tenant, plans(tenant), SearchKind(), w, s.monthStart).allowed
    ensures var t := Next(s, plans, Admit(tenant, w));
            && t.events == s.events && t.monthStart == s.monthStart
            && InFlight(t.pending, tenant) == InFlight(s.pending, tenant) + 1
            && Promised(t.pending, tenant) == Promised(s.pending, tenant) + w
  {
    PendingSnoc(s.pending, Pending(tenant, w), tenant);
  }

  function Total(k: nat, w: nat): nat {
    if k == 0 then 0 else Total(k - 1, w) + w
  }

  lemma {:induction false} TotalIsProduct(k: nat, w: nat)
    ensures Total(k, w) == k * w
  {
    if k > 0 {
      TotalIsProduct(k - 1, w);
      OneLess(k, w);
    }
  }

  lemma OneLess(k: int, w: int)
    ensures k * w == (k - 1) * w + w
  {
  }

  /** The state after k admissions in a row. */
  function AdmittedTimes(s: State, plans: Str -> Str, tenant: Str, w: nat, k: nat): State {
    if k == 0 then s else Next(AdmittedTimes(s, plans, tenant, w, k - 1), plans, Admit(tenant, w))
  }

  lemma {:induction false} AdmitsAll(s: State, plans: Str -> Str, tenant: Str, k: nat, w: nat)
    requires Status(s.events, tenant, plans(tenant), SearchKind(), w, s.monthStart).allowed && s.pending == []
    ensures var t := AdmittedTimes(s, plans, tenant, w, k);
            && t.events == s.events && t.monthStart == s.monthStart
            && InFlight(t.pending, tenant) == k && Promised(t.pending, tenant) == Total(k, w)
  {
    if k > 0 {
      AdmitsAll(s, plans, tenant, k - 1, w);
      AdmitOne(AdmittedTimes(s, plans, tenant, w, k - 1), plans, tenant, w);
    }
  }

  lemma {:induction false} AdmitsAreARun(s: State, plans: Str -> Str, tenant: Str, w: nat, k: nat)
    ensures RunAll(s, plans, Admits(tenant, w, k)) == AdmittedTimes(s, plans, tenant, w, k)
  {
    if k > 0 {
      AdmitsAreARun(s, plans, tenant, w, k - 1);
      OneMoreStep(s, plans, Admits(tenant, w, k - 1), Admit(tenant, w), AdmittedTimes(s, plans, tenant, w, k - 1));
    }
  }

  lemma RunAllSnoc(s: State, plans: Str -> Str, steps: seq<Step>, step: Step)
    ensures RunAll(s, plans, steps + [step]) == Next(RunAll(s, plans, steps), plans, step)
  {
    assert (steps + [step])[..|steps|] == steps;
  }

  lemma OneMoreStep(s: State, plans: Str -> Str, steps: seq<Step>, step: Step, t: State)
    requires RunAll(s, plans, steps) == t
    ensures RunAll(s, plans, steps + [step]) == Next(t, plans, step)
  {
    RunAllSnoc(s, plans, steps, step);
  }

  /** The state after the k oldest runs in flight have committed, one after the other. */
  function CommittedTimes(s: State, plans: Str -> Str, at: int, k: nat): State {
    if k == 0 then s else Next(CommittedTimes(s, plans, at, k - 1), plans, Commit(0, at, 0))
  }

  /** A commit in the current month turns its promise into usage; a run that is rolled back gives its promise up. */
  lemma EndingSettles(s: State, plans: Str -> Str, tenant: Str, i: nat, at: int, cost: int)
    requires i < |s.pending| && at >= s.monthStart
    ensures var p, t, u := s.pending[i], Next(s, plans, Commit(i, at, cost)), Next(s, plans, Abort(i));
            var own := if p.tenant == tenant then p.want else 0;
            && Used(t, tenant) == Used(s, tenant) + own && Used(u, tenant) == Used(s, tenant)
            && Promised(t.pending, tenant) == Promised(u.pending, tenant) == Promised(s.pending, tenant) - own
            && t.pending == u.pending && |t.pending| == |s.pending| - 1 && t.monthStart == u.monthStart == s.monthStart
  {
    var p := s.pending[i];
    RemovePending(s.pending, i, tenant);
    UsedSnoc(s, UsageEvent(p.tenant, SearchKind(), p.want, cost, at), tenant);
  }

  lemma {:induction false} CommitsConserve(s: State, plans: Str -> Str, tenant: Str, at: int, k: nat)
    requires k <= |s.pending| && at >= s.monthStart
    ensures var t := CommittedTimes(s, plans, at, k);
            && Used(t, tenant) + Promised(t.pending, tenant) == Used(s, tenant) + Promised(s.pending, tenant)
            && |t.pending| == |s.pending| - k && t.monthStart == s.monthStart
  {
    if k > 0 {
      CommitsConserve(s, plans, tenant, at, k - 1);
      EndingSettles(CommittedTimes(s, plans, at, k - 1), plans, tenant, 0, at, 0);
    }
  }

  /** k checks, then k commits. */
  function Burst(tenant: Str, w: nat, at: int, k: nat, n: nat): seq<Step> {
    if n == 0 then Admits(tenant, w, k) else Burst(tenant, w, at, k, n - 1) + [Commit(0, at, 0)]
  }

  lemma {:induction false} BurstIsARun(s: State, plans: Str -> Str, tenant: Str, w: nat, at: int, k: nat, n: nat)
    ensures RunAll(s, plans, Burst(tenant, w, at, k, n)) ==
            CommittedTimes(AdmittedTimes(s, plans, tenant, w, k), plans, at, n)
  {
    if n == 0 {
      AdmitsAreARun(s, plans, tenant, w, k);
    } else {
      BurstIsARun(s, plans, tenant, w, at, k, n - 1);
      RunAllSnoc(s, plans, Burst(tenant, w, at, k, n - 1), Commit(0, at, 0));
    }
  }

  lemma {:induction false} AdmittedPending(s: State, plans: Str -> Str, tenant: Str, w: nat, k: nat)
    requires Status(s.events, tenant, plans(tenant), SearchKind(), w, s.monthStart).allowed && s.pending == []
    ensures |AdmittedTimes(s, plans, tenant, w, k).pending| == k
  {
    if k > 0 {
      AdmitsAll(s, plans, tenant, k - 1, w);
      AdmittedPending(s, plans, tenant, w, k - 1);
    }
  }

  /**
   The bound is attained: k checks that overlap before any commit are all admitted, and when the runs have committed
   the tenant's usage itself is limit + (k - 1) * w.
   */
  lemma OverageAttained(s: State, plans: Str -> Str, tenant: Str, k: nat, w: nat, at: int)
    requires LimitFor(plans(tenant), SearchKind()) != UNLIMITED && at >= s.monthStart
    requires s.pending == [] && Used(s, tenant) == LimitFor(plans(tenant), SearchKind()) - w
    ensures var limit, t := LimitFor(plans(tenant), SearchKind()), RunAll(s, plans, Burst(tenant, w, at, k, k));
            t.pending == [] && t.monthStart == s.monthStart && Used(t, tenant) == Cap(limit, k, w)
  {
    AdmitsAll(s, plans, tenant, k, w);
    AdmittedPending(s, plans, tenant, w, k);
    CommitsConserve(AdmittedTimes(s, plans, tenant, w, k), plans, tenant, at, k);
    BurstIsARun(s, plans, tenant, w, at, k, k);
    TotalIsProduct(k, w);
    OneLess(k, w);
  }
}
