/** The search quota under concurrency: the sessions' own checks, with runs in flight and months passing. */
module SessionQuotas {
  import opened Basics
  import opened Metering
  import opened Backend
  import opened Sessions
  import Quotas

  /** The runs in flight: admitted, neither committed nor ended. */
  function PendingOf(sessions: seq<Session>): seq<Quotas.Pending> {
    if sessions == [] then []
    else
      var before, last := PendingOf(sessions[..|sessions| - 1]), sessions[|sessions| - 1];
      if last.phase == Running && last.request.RunPipeline?
      then before + [Quotas.Pending(last.request.tenant, last.request.enabledRules)] else before
  }

  /** What the quota protocol sees of the sessions. */
  function Seen(s: State, monthStart: int): Quotas.State {
    Quotas.State(s.usage, PendingOf(s.sessions), monthStart)
  }

  lemma PendingSnoc(sessions: seq<Session>, x: Session)
    ensures PendingOf(sessions + [x]) ==
            if x.phase == Running && x.request.RunPipeline?
            then PendingOf(sessions) + [Quotas.Pending(x.request.tenant, x.request.enabledRules)]
            else PendingOf(sessions)
  {
    assert (sessions + [x])[..|sessions|] == sessions;
  }

  /** A session that only reads or records is in flight as before. */
  lemma {:induction false} PendingSame(sessions: seq<Session>, p: nat, x: Session)
    requires p < |sessions| && x.phase == sessions[p].phase && x.request == sessions[p].request
    ensures PendingOf(sessions[p := x]) == PendingOf(sessions)
  {
    var n := |sessions| - 1;
    if p < n {
      PendingSame(sessions[..n], p, x);
      assert sessions[p := x][..n] == sessions[..n][p := x];
    } else {
      assert sessions[p := x][..n] == sessions[..n];
    }
  }

  /** What a running session was promised. */
  function PromisedTo(session: Session, tenant: Str): nat {
    if session.request.RunPipeline? && session.request.tenant == tenant then session.request.enabledRules else 0
  }

  /** The pending runs after one of them, this session's, is gone. */
  ghost predicate GaveUp(less: seq<Quotas.Pending>, more: seq<Quotas.Pending>, gone: Session, tenant: Str, w: nat) {
    && Quotas.InFlight(less, tenant) <= Quotas.InFlight(more, tenant)
    && Quotas.Promised(less, tenant) == Quotas.Promised(more, tenant) - PromisedTo(gone, tenant)
    && Quotas.Modest(less, tenant, w)
  }

  /** A session that ends gives up its place and its promise. */
  lemma {:induction false} PendingEnds(sessions: seq<Session>, p: nat, x: Session, tenant: Str, w: nat)
    requires p < |sessions| && sessions[p].phase == Running && x.phase != Running
    requires Quotas.Modest(PendingOf(sessions), tenant, w)
    ensures GaveUp(PendingOf(sessions[p := x]), PendingOf(sessions), sessions[p], tenant, w)
    decreases |sessions|
  {
    var n := |sessions| - 1;
    ModestInit(sessions, tenant, w);
    if p < n {
      PendingEnds(sessions[..n], p, x, tenant, w);
      EarlierEnds(sessions, p, x, tenant, w);
    } else {
      LastEnds(sessions, x, tenant, w);
    }
  }

  lemma {:induction false} LastEnds(sessions: seq<Session>, x: Session, tenant: Str, w: nat)
    requires sessions != [] && sessions[|sessions| - 1].phase == Running && x.phase != Running
    requires Quotas.Modest(PendingOf(sessions[..|sessions| - 1]), tenant, w)
    ensures var n := |sessions| - 1;
            GaveUp(PendingOf(sessions[n := x]), PendingOf(sessions), sessions[n], tenant, w)
  {
    var n := |sessions| - 1;
    assert sessions[n := x][..n] == sessions[..n];
    SessionsSnoc(sessions, tenant);
  }

  lemma {:induction false} EarlierEnds(sessions: seq<Session>, p: nat, x: Session, tenant: Str, w: nat)
    requires p < |sessions| - 1 && Quotas.Modest(PendingOf(sessions), tenant, w)
    requires var init := sessions[..|sessions| - 1];
             GaveUp(PendingOf(init[p := x]), PendingOf(init), sessions[p], tenant, w)
    ensures GaveUp(PendingOf(sessions[p := x]), PendingOf(sessions), sessions[p], tenant, w)
  {
    var n, less := |sessions| - 1, sessions[p := x];
    assert less[..n] == sessions[..n][p := x] && less[n] == sessions[n];
    SessionsSnoc(sessions, tenant);
    SessionsSnoc(less, tenant);
    ModestSnoc(less, tenant, w, sessions);
  }

  lemma ModestInit(sessions: seq<Session>, tenant: Str, w: nat)
    requires sessions != [] && Quotas.Modest(PendingOf(sessions), tenant, w)
    ensures Quotas.Modest(PendingOf(sessions[..|sessions| - 1]), tenant, w)
  {
    var before := PendingOf(sessions[..|sessions| - 1]);
    forall p | p in before ensures p in PendingOf(sessions) { }
  }

  /** Both lists end in the same session. */
  lemma {:induction false} ModestSnoc(less: seq<Session>, tenant: Str, w: nat, sessions: seq<Session>)
    requires |less| == |sessions| > 0 && less[|less| - 1] == sessions[|sessions| - 1]
    requires Quotas.Modest(PendingOf(sessions), tenant, w) && Quotas.Modest(PendingOf(less[..|less| - 1]), tenant, w)
    ensures Quotas.Modest(PendingOf(less), tenant, w)
  {
    var before, all := PendingOf(less[..|less| - 1]), PendingOf(sessions);
    forall p | p in PendingOf(less) ensures p in before || p in all {
      if p !in before { assert p == all[|all| - 1]; }
    }
  }

  lemma SessionsSnoc(sessions: seq<Session>, tenant: Str)
    requires sessions != []
    ensures var before, last := PendingOf(sessions[..|sessions| - 1]), sessions[|sessions| - 1];
            var counts := last.phase == Running && last.request.RunPipeline? && last.request.tenant == tenant;
            && Quotas.InFlight(PendingOf(sessions), tenant) ==
               Quotas.InFlight(before, tenant) + (if counts then 1 else 0)
            && Quotas.Promised(PendingOf(sessions), tenant) ==
               Quotas.Promised(before, tenant) + (if last.phase == Running then PromisedTo(last, tenant) else 0)
  {
    var before, last := PendingOf(sessions[..|sessions| - 1]), sessions[|sessions| - 1];
    if last.phase == Running && last.request.RunPipeline? {
      Quotas.PendingSnoc(before, Quotas.Pending(last.request.tenant, last.request.enabledRules), tenant);
    }
  }

  // ----- Legal runs -----

  /** A step, and the start of the month it is taken in. */
  datatype Timed = Timed(monthStart: int, move: Move)

  function MovesOf(run: seq<Timed>): seq<Move> {
    if run == [] then [] else MovesOf(run[..|run| - 1]) + [run[|run| - 1].move]
  }

  function StateOf(d: Deployment, run: seq<Timed>): State {
    if run == [] then Start() else Next(d, StateOf(d, run[..|run| - 1]), run[|run| - 1].move)
  }

  lemma {:induction false} StateOfIsRun(d: Deployment, run: seq<Timed>)
    ensures StateOf(d, run) == Run(d, MovesOf(run))
  {
    if run != [] {
      var before := run[..|run| - 1];
      StateOfIsRun(d, before);
      assert MovesOf(run)[..|MovesOf(run)| - 1] == MovesOf(before);
    }
  }

  /** The tenant's runs are on its plan, see the current month, want at most w, and are at most k at once. */
  ghost predicate LegalMove(s: State, step: Timed, tenant: Str, plan: Str, k: nat, w: nat) {
    step.move.Begin? && step.move.request.RunPipeline? && step.move.request.tenant == tenant ==>
      var r := step.move.request;
      && r.plan == plan && r.monthStart == step.monthStart && r.enabledRules <= w
      && Quotas.InFlight(PendingOf(s.sessions), tenant) < k
  }

  function MonthOf(run: seq<Timed>, first: int): int {
    if run == [] then first else run[|run| - 1].monthStart
  }

  /** Months only move forward, and every step is legal. */
  ghost predicate LegalRun(d: Deployment, run: seq<Timed>, first: int, tenant: Str, plan: Str, k: nat, w: nat) {
    run == [] ||
    var before, step := run[..|run| - 1], run[|run| - 1];
    && LegalRun(d, before, first, tenant, plan, k, w)
    && MonthOf(before, first) <= step.monthStart && LegalMove(StateOf(d, before), step, tenant, plan, k, w)
  }

  // ----- The bound -----

  lemma NewMonth(s: State, tenant: Str, k: nat, w: nat, cap: int, from: int, to: int)
    requires from <= to && Quotas.Bounded(Seen(s, from), tenant, k, w, cap)
    ensures Quotas.Bounded(Seen(s, to), tenant, k, w, cap)
  {
    Quotas.UsedShrinks(s.usage, tenant, SearchKind(), from, to);
  }

  lemma BeginWithin(d: Deployment, s: State, step: Timed, tenant: Str, plan: Str, k: nat, w: nat)
    requires k >= 1 && Quotas.LimitFor(plan, SearchKind()) != Quotas.UNLIMITED
    requires step.move.Begin? && LegalMove(s, step, tenant, plan, k, w)
    requires var cap := Quotas.Cap(Quotas.LimitFor(plan, SearchKind()), k, w);
             Quotas.Bounded(Seen(s, step.monthStart), tenant, k, w, cap)
    ensures var cap := Quotas.Cap(Quotas.LimitFor(plan, SearchKind()), k, w);
            Quotas.Bounded(Seen(Next(d, s, step.move), step.monthStart), tenant, k, w, cap)
  {
    var r, limit := step.move.request, Quotas.LimitFor(plan, SearchKind());
    if Admits(s, r) {
      PendingSnoc(s.sessions, Opened(s, r));
      if r.RunPipeline? {
        Quotas.PromiseKeepsBound(Seen(s, step.monthStart), tenant, limit, k, w, r.tenant, r.enabledRules);
      }
    }
  }

  /** One session ends and usage grows by at most its promise. */
  lemma EndWithin(
      usage: seq<UsageEvent>, after: seq<UsageEvent>, less: seq<Quotas.Pending>, more: seq<Quotas.Pending>,
      gone: Session, tenant: Str, k: nat, w: nat, cap: int, month: int)
    requires Quotas.Bounded(Quotas.State(usage, more, month), tenant, k, w, cap) && GaveUp(less, more, gone, tenant, w)
    requires Quotas.NonNegative(after)
    requires Quotas.UsedThisMonth(after, tenant, SearchKind(), month) <=
             Quotas.UsedThisMonth(usage, tenant, SearchKind(), month) + PromisedTo(gone, tenant)
    ensures Quotas.Bounded(Quotas.State(after, less, month), tenant, k, w, cap)
  {
  }

  lemma AbortWithin(s: State, p: nat, tenant: Str, k: nat, w: nat, cap: int, month: int)
    requires IsRunning(s, p) && Quotas.Bounded(Seen(s, month), tenant, k, w, cap)
    ensures Quotas.Bounded(Seen(s.(sessions := Ended(s, p, Aborted)), month), tenant, k, w, cap)
  {
    PendingEnds(s.sessions, p, s.sessions[p].(phase := Aborted), tenant, w);
    EndWithin(s.usage, s.usage, PendingOf(Ended(s, p, Aborted)), PendingOf(s.sessions), s.sessions[p],
              tenant, k, w, cap, month);
  }

  /** A commit turns at most its promise into usage. */
  lemma UsageGrows(d: Deployment, s: State, r: Request, tenant: Str, month: int)
    requires Quotas.NonNegative(s.usage)
    ensures var after := UsageAfter(d, s, r);
            && Quotas.NonNegative(after)
            && Quotas.UsedThisMonth(after, tenant, SearchKind(), month) <=
               Quotas.UsedThisMonth(s.usage, tenant, SearchKind(), month)
               + if r.RunPipeline? && r.tenant == tenant then r.enabledRules else 0
  {
    NamesDistinct();
    if r.RunPipeline? {
      RunUsageGrows(d, s, r, tenant, month);
    } else if r.Execute? {
      var action := UsageEvent(r.tenant, ActionKind(), 1, CostCents(d.prices, ActionKind(), 1), r.now);
      Quotas.NonNegativeSnoc(s.usage, action);
      Quotas.UsedSnoc(Seen(s, month), action, tenant);
    }
  }

  lemma RunUsageGrows(d: Deployment, s: State, r: Request, tenant: Str, month: int)
    requires Quotas.NonNegative(s.usage) && r.RunPipeline?
    ensures var after := UsageAfter(d, s, r);
            && Quotas.NonNegative(after)
            && Quotas.UsedThisMonth(after, tenant, SearchKind(), month) <=
               Quotas.UsedThisMonth(s.usage, tenant, SearchKind(), month)
               + if r.tenant == tenant then r.enabledRules else 0
  {
    NamesDistinct();
    var n := |r.found|;
    var search := UsageEvent(r.tenant, SearchKind(), r.enabledRules,
                             CostCents(d.prices, SearchKind(), r.enabledRules), r.now);
    var model := UsageEvent(r.tenant, ModelCallKind(), n, CostCents(d.prices, ModelCallKind(), n), r.now);
    var searched := Seen(s, month).(events := s.usage + [search]);
    Quotas.NonNegativeSnoc(s.usage, search);
    Quotas.UsedSnoc(Seen(s, month), search, tenant);
    Quotas.NonNegativeSnoc(searched.events, model);
    Quotas.UsedSnoc(searched, model, tenant);
  }

  lemma CommitWithin(d: Deployment, s: State, p: nat, tenant: Str, k: nat, w: nat, cap: int, month: int)
    requires Commits(s, p) && Quotas.Bounded(Seen(s, month), tenant, k, w, cap)
    ensures Quotas.Bounded(Seen(Next(d, s, Commit(p)), month), tenant, k, w, cap)
  {
    PendingEnds(s.sessions, p, s.sessions[p].(phase := Committed), tenant, w);
    UsageGrows(d, s, s.sessions[p].request, tenant, month);
    EndWithin(s.usage, UsageAfter(d, s, s.sessions[p].request), PendingOf(Ended(s, p, Committed)),
              PendingOf(s.sessions), s.sessions[p], tenant, k, w, cap, month);
  }

  lemma StepWithin(d: Deployment, s: State, step: Timed, tenant: Str, plan: Str, k: nat, w: nat)
    requires k >= 1 && Quotas.LimitFor(plan, SearchKind()) != Quotas.UNLIMITED
    requires LegalMove(s, step, tenant, plan, k, w)
    requires var cap := Quotas.Cap(Quotas.LimitFor(plan, SearchKind()), k, w);
             Quotas.Bounded(Seen(s, step.monthStart), tenant, k, w, cap)
    ensures var cap := Quotas.Cap(Quotas.LimitFor(plan, SearchKind()), k, w);
            Quotas.Bounded(Seen(Next(d, s, step.move), step.monthStart), tenant, k, w, cap)
  {
    var cap := Quotas.Cap(Quotas.LimitFor(plan, SearchKind()), k, w);
    match step.move {
      case Begin(r) => BeginWithin(d, s, step, tenant, plan, k, w);
      case Read(p) => if Reads(s, p) { PendingSame(s.sessions, p, Next(d, s, step.move).sessions[p]); }
      case Record(p) => if Records(s, p) { PendingSame(s.sessions, p, Next(d, s, step.move).sessions[p]); }
      case Commit(p) =>
        if Commits(s, p) {
          CommitWithin(d, s, p, tenant, k, w, cap, step.monthStart);
        } else if IsRunning(s, p) {
          AbortWithin(s, p, tenant, k, w, cap, step.monthStart);
        }
      case Abort(p) => if IsRunning(s, p) { AbortWithin(s, p, tenant, k, w, cap, step.monthStart); }
    }
  }

  lemma {:induction false} StaysWithin(
      d: Deployment, run: seq<Timed>, first: int, tenant: Str, plan: Str, k: nat, w: nat)
    requires k >= 1 && Quotas.LimitFor(plan, SearchKind()) != Quotas.UNLIMITED
    requires LegalRun(d, run, first, tenant, plan, k, w)
    ensures var cap := Quotas.Cap(Quotas.LimitFor(plan, SearchKind()), k, w);
            Quotas.Bounded(Seen(StateOf(d, run), MonthOf(run, first)), tenant, k, w, cap)
  {
    var limit := Quotas.LimitFor(plan, SearchKind());
    if run == [] {
      Quotas.Scale(0, k - 1, w);
    } else {
      var before, step := run[..|run| - 1], run[|run| - 1];
      StaysWithin(d, before, first, tenant, plan, k, w);
      NewMonth(StateOf(d, before), tenant, k, w, Quotas.Cap(limit, k, w), MonthOf(before, first), step.monthStart);
      StepWithin(d, StateOf(d, before), step, tenant, plan, k, w);
    }
  }

  /**
   However sessions of all tenants interleave: with at most k runs of a tenant in flight, each wanting at most w
   searches, its committed searches of the month and those of its runs in flight never exceed limit + (k - 1) * w;
   with k = 1 its committed searches never exceed the limit of its plan.
   */
  lemma SessionsWithinQuota(
      d: Deployment, run: seq<Timed>, first: int, tenant: Str, plan: Str, k: nat, w: nat)
    requires k >= 1 && Quotas.LimitFor(plan, SearchKind()) != Quotas.UNLIMITED
    requires LegalRun(d, run, first, tenant, plan, k, w)
    ensures var limit, s := Quotas.LimitFor(plan, SearchKind()), Run(d, MovesOf(run));
            var used := Quotas.UsedThisMonth(s.usage, tenant, SearchKind(), MonthOf(run, first));
            && used + Quotas.Promised(PendingOf(s.sessions), tenant) <= Quotas.Cap(limit, k, w)
            && (k == 1 ==> used <= limit)
  {
    StaysWithin(d, run, first, tenant, plan, k, w);
    StateOfIsRun(d, run);
    Quotas.CapOfOne(Quotas.LimitFor(plan, SearchKind()), w);
  }
}
