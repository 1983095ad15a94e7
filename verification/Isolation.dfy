/**
 Tenants do not interfere: what one tenant can see after any run depends only on that tenant's own requests.
 */
module Isolation {
  import opened Basics
  import opened Domain
  import opened Metering
  import opened Backend
  import Audit
  import Cases

  /** Everything stored under one tenant. */
  datatype View = View(rows: map<Cases.Key, Cases.Row>, audit: seq<Audit.Row>, usage: seq<UsageEvent>)

  function RowsView(rows: map<Cases.Key, Cases.Row>, tenant: Str): map<Cases.Key, Cases.Row> {
    map key | key in rows && key.tenant == tenant :: rows[key]
  }

  function ViewOf(s: System, tenant: Str): View {
    View(RowsView(s.store.rows, tenant), Audit.RowsOf(tenant, s.audit), Selected(s.usage, tenant, None, None))
  }

  function RequestsOf(calls: seq<Call>, tenant: Str): seq<Call> {
    if calls == [] then []
    else
      var before, c := RequestsOf(calls[..|calls| - 1], tenant), calls[|calls| - 1];
      if c.request.tenant == tenant then before + [c] else before
  }

  // ----- A request leaves other tenants' views alone -----

  lemma RowsViewUpdate(rows: map<Cases.Key, Cases.Row>, key: Cases.Key, row: Cases.Row, tenant: Str)
    ensures RowsView(rows[key := row], tenant) ==
            if key.tenant == tenant then RowsView(rows, tenant)[key := row] else RowsView(rows, tenant)
  {
  }

  lemma LoggedView(d: Deployment, s: System, f: Audit.Fields, tenant: Str)
    ensures ViewOf(Logged(d, s, f), tenant) == ViewOf(s, tenant).(audit :=
              if f.tenant == tenant
              then Audit.RowsOf(tenant, s.audit) + [Audit.NewRow(d.hash, f, Audit.LastHash(s.audit, tenant))]
              else Audit.RowsOf(tenant, s.audit))
  {
    Audit.RecordExtendsOneChain(d.hash, s.audit, f, tenant);
  }

  lemma MeteredView(d: Deployment, s: System, to: Str, kind: Str, quantity: int, now: int, tenant: Str)
    ensures ViewOf(Metered(d, s, to, kind, quantity, now), tenant) == ViewOf(s, tenant).(usage :=
              if to == tenant
              then Selected(s.usage, tenant, None, None)
                  + [UsageEvent(to, kind, quantity, CostCents(d.prices, kind, quantity), now)]
              else Selected(s.usage, tenant, None, None))
  {
    assert Metered(d, s, to, kind, quantity, now).usage[..|s.usage|] == s.usage;
  }

  /** Equal views before, equal views after, for a step that logs or meters the same thing in both. */
  lemma LoggedAlike(d: Deployment, s: System, t: System, f: Audit.Fields, tenant: Str)
    requires ViewOf(s, tenant) == ViewOf(t, tenant)
    ensures ViewOf(Logged(d, s, f), tenant) == ViewOf(Logged(d, t, f), tenant)
  {
    assert Audit.LastHash(s.audit, tenant) == Audit.LastHash(t.audit, tenant);
    LoggedView(d, s, f, tenant);
    LoggedView(d, t, f, tenant);
  }

  lemma MeteredAlike(d: Deployment, s: System, t: System, to: Str, kind: Str, quantity: int, now: int, tenant: Str)
    requires ViewOf(s, tenant) == ViewOf(t, tenant)
    ensures ViewOf(Metered(d, s, to, kind, quantity, now), tenant) ==
            ViewOf(Metered(d, t, to, kind, quantity, now), tenant)
  {
    MeteredView(d, s, to, kind, quantity, now, tenant);
    MeteredView(d, t, to, kind, quantity, now, tenant);
  }

  lemma {:induction false} SelectedTwice(table: seq<UsageEvent>, tenant: Str, since: int)
    ensures Selected(table, tenant, Some(since), None) ==
            Selected(Selected(table, tenant, None, None), tenant, Some(since), None)
  {
    if table != [] {
      var n := |table| - 1;
      SelectedTwice(table[..n], tenant, since);
      var before := Selected(table[..n], tenant, None, None);
      assert (before + [table[n]])[..|before|] == before;
    }
  }

  lemma QuotaAlike(s: System, t: System, tenant: Str, plan: Str, want: nat, monthStart: int)
    requires ViewOf(s, tenant) == ViewOf(t, tenant)
    ensures QuotaAllows(s, tenant, plan, want, monthStart) == QuotaAllows(t, tenant, plan, want, monthStart)
  {
    SelectedTwice(s.usage, tenant, monthStart);
    SelectedTwice(t.usage, tenant, monthStart);
  }

  lemma {:induction false} SavedAllAlike(
      d: Deployment, s: System, t: System, tenant: Str, actor: Str, found: seq<Investigation>)
    requires ViewOf(s, tenant) == ViewOf(t, tenant)
    ensures ViewOf(SavedAll(d, s, tenant, actor, found), tenant) == ViewOf(SavedAll(d, t, tenant, actor, found), tenant)
  {
    if found != [] {
      var n := |found| - 1;
      SavedAllAlike(d, s, t, tenant, actor, found[..n]);
      var x, y := SavedAll(d, s, tenant, actor, found[..n]), SavedAll(d, t, tenant, actor, found[..n]);
      SavedAlike(d, x, y, tenant, actor, found[n]);
    }
  }

  lemma SavedAlike(d: Deployment, s: System, t: System, tenant: Str, actor: Str, inv: Investigation)
    requires ViewOf(s, tenant) == ViewOf(t, tenant)
    ensures ViewOf(SavedOne(d, s, tenant, actor, inv), tenant) == ViewOf(SavedOne(d, t, tenant, actor, inv), tenant)
  {
    var key := Cases.Key(tenant, inv.id);
    SameRow(s, t, key);
    var x, y := Cases.ApplySave(s.store, tenant, inv), Cases.ApplySave(t.store, tenant, inv);
    RowsViewUpdate(s.store.rows, key, x.rows[key], tenant);
    RowsViewUpdate(t.store.rows, key, y.rows[key], tenant);
    LoggedAlike(d, s.(store := x), t.(store := y), CreatedEntry(tenant, actor, inv), tenant);
  }

  /** Equal views agree on every case of the tenant. */
  lemma SameRow(s: System, t: System, key: Cases.Key)
    requires ViewOf(s, key.tenant) == ViewOf(t, key.tenant)
    ensures key in s.store.rows <==> key in t.store.rows
    ensures key in s.store.rows ==> s.store.rows[key] == t.store.rows[key]
  {
    assert key in RowsView(s.store.rows, key.tenant) <==> key in s.store.rows;
    assert key in RowsView(t.store.rows, key.tenant) <==> key in t.store.rows;
  }

  lemma CaseStepAlike(s: System, t: System, r: Request)
    requires !r.RunPipeline? && ViewOf(s, r.tenant) == ViewOf(t, r.tenant)
    ensures Cases.Attempt(s.store, OpOf(r)).1 == Cases.Attempt(t.store, OpOf(r)).1
    ensures ViewOf(s.(store := Cases.Apply(s.store, OpOf(r))), r.tenant) ==
            ViewOf(t.(store := Cases.Apply(t.store, OpOf(r))), r.tenant)
  {
    var op := OpOf(r);
    var key := Cases.KeyOf(op);
    SameRow(s, t, key);
    if key in s.store.rows {
      Cases.AttemptRow(s.store, op);
      Cases.AttemptRow(t.store, op);
      RowsViewUpdate(s.store.rows, key, Cases.RowAfter(s.store.rows[key], op), r.tenant);
      RowsViewUpdate(t.store.rows, key, Cases.RowAfter(t.store.rows[key], op), r.tenant);
    }
  }

  lemma CaseMeteredAlike(d: Deployment, s: System, t: System, r: Request)
    requires !r.RunPipeline? && ViewOf(s, r.tenant) == ViewOf(t, r.tenant)
    ensures ViewOf(CaseMetered(d, s, r), r.tenant) == ViewOf(CaseMetered(d, t, r), r.tenant)
  {
    if r.Execute? { MeteredAlike(d, s, t, r.tenant, ActionKind(), 1, r.now, r.tenant); }
  }

  /** No run of this request saves an id that another tenant holds. */
  ghost predicate IdsFree(s: System, r: Request) {
    r.RunPipeline? ==> !Clashes(s.store.rows, r.tenant, r.found)
  }

  lemma RunAlike(d: Deployment, s: System, t: System, r: Request)
    requires r.RunPipeline? && ViewOf(s, r.tenant) == ViewOf(t, r.tenant) && IdsFree(s, r) && IdsFree(t, r)
    ensures Handle(d, s, r).Some? <==> Handle(d, t, r).Some?
    ensures Handle(d, s, r).Some? ==> ViewOf(Handle(d, s, r).value, r.tenant) == ViewOf(Handle(d, t, r).value, r.tenant)
  {
    QuotaAlike(s, t, r.tenant, r.plan, r.enabledRules, r.monthStart);
    RunMeteredAlike(d, s, t, r);
    SavedAllAlike(d, RunMetered(d, s, r), RunMetered(d, t, r), r.tenant, r.actor, r.found);
  }

  lemma CaseAlike(d: Deployment, s: System, t: System, r: Request)
    requires !r.RunPipeline? && ViewOf(s, r.tenant) == ViewOf(t, r.tenant)
    ensures Handle(d, s, r).Some? <==> Handle(d, t, r).Some?
    ensures Handle(d, s, r).Some? ==> ViewOf(Handle(d, s, r).value, r.tenant) == ViewOf(Handle(d, t, r).value, r.tenant)
  {
    CaseStepAlike(s, t, r);
    HandledCase(d, s, r);
    HandledCase(d, t, r);
    var reply := Cases.Attempt(s.store, OpOf(r)).1;
    if reply.Done? {
      var x, y := s.(store := Cases.Apply(s.store, OpOf(r))), t.(store := Cases.Apply(t.store, OpOf(r)));
      CaseDoneAlike(d, x, y, r, reply.inv);
    }
  }

  lemma HandledCase(d: Deployment, s: System, r: Request)
    requires !r.RunPipeline?
    ensures var reply := Cases.Attempt(s.store, OpOf(r)).1;
            && (reply.Done? && r.Execute? ==> 0 <= r.index < |reply.inv.actions|)
            && Handle(d, s, r) ==
               if reply.Refused? then None
               else Some(CaseDone(d, s.(store := Cases.Apply(s.store, OpOf(r))), r, reply.inv))
  {
  }

  lemma CaseDoneAlike(d: Deployment, s: System, t: System, r: Request, inv: Investigation)
    requires !r.RunPipeline? && (r.Execute? ==> 0 <= r.index < |inv.actions|)
    requires ViewOf(s, r.tenant) == ViewOf(t, r.tenant)
    ensures ViewOf(CaseDone(d, s, r, inv), r.tenant) == ViewOf(CaseDone(d, t, r, inv), r.tenant)
  {
    CaseMeteredAlike(d, s, t, r);
    LoggedAlike(d, CaseMetered(d, s, r), CaseMetered(d, t, r), CaseEntry(r, inv), r.tenant);
  }

  /** A request decides and changes its own tenant's view from that view alone, unless it meets another tenant's id. */
  lemma HandleAlike(d: Deployment, s: System, t: System, r: Request)
    requires ViewOf(s, r.tenant) == ViewOf(t, r.tenant) && IdsFree(s, r) && IdsFree(t, r)
    ensures Handle(d, s, r).Some? <==> Handle(d, t, r).Some?
    ensures Handle(d, s, r).Some? ==> ViewOf(Handle(d, s, r).value, r.tenant) == ViewOf(Handle(d, t, r).value, r.tenant)
  {
    if r.RunPipeline? { RunAlike(d, s, t, r); } else { CaseAlike(d, s, t, r); }
  }

  /** The failing case: an id that another tenant holds refuses a run that would otherwise be served. */
  lemma ForeignIdRefusesRun(d: Deployment, s: System, r: Request, key: Cases.Key)
    requires r.RunPipeline? && key in s.store.rows && key.tenant != r.tenant
    requires exists i :: 0 <= i < |r.found| && r.found[i].id == key.id
    ensures Handle(d, s, r).None?
  {
    var i :| 0 <= i < |r.found| && r.found[i].id == key.id;
    assert Cases.HeldElsewhere(s.store.rows, r.tenant, r.found[i].id);
  }

  lemma RunMeteredAlike(d: Deployment, s: System, t: System, r: Request)
    requires r.RunPipeline? && ViewOf(s, r.tenant) == ViewOf(t, r.tenant)
    ensures ViewOf(RunMetered(d, s, r), r.tenant) == ViewOf(RunMetered(d, t, r), r.tenant)
  {
    MeteredAlike(d, s, t, r.tenant, SearchKind(), r.enabledRules, r.now, r.tenant);
    MeteredAlike(d, Metered(d, s, r.tenant, SearchKind(), r.enabledRules, r.now),
      Metered(d, t, r.tenant, SearchKind(), r.enabledRules, r.now), r.tenant, ModelCallKind(), |r.found|, r.now,
          r.tenant);
  }

  // ----- Other tenants' requests -----

  lemma {:induction false} SavedAllElsewhere(
      d: Deployment, s: System, owner: Str, actor: Str, found: seq<Investigation>, tenant: Str)
    requires owner != tenant
    ensures ViewOf(SavedAll(d, s, owner, actor, found), tenant) == ViewOf(s, tenant)
  {
    if found != [] {
      var n := |found| - 1;
      var before, inv := SavedAll(d, s, owner, actor, found[..n]), found[n];
      SavedAllElsewhere(d, s, owner, actor, found[..n], tenant);
      var key, store := Cases.Key(owner, inv.id), Cases.ApplySave(before.store, owner, inv);
      RowsViewUpdate(before.store.rows, key, store.rows[key], tenant);
      LoggedView(d, before.(store := store), CreatedEntry(owner, actor, inv), tenant);
    }
  }

  lemma HandleElsewhere(d: Deployment, s: System, r: Request, tenant: Str)
    requires r.tenant != tenant && Handle(d, s, r).Some?
    ensures ViewOf(Handle(d, s, r).value, tenant) == ViewOf(s, tenant)
  {
    if r.RunPipeline? {
      var searched := Metered(d, s, r.tenant, SearchKind(), r.enabledRules, r.now);
      MeteredView(d, s, r.tenant, SearchKind(), r.enabledRules, r.now, tenant);
      MeteredView(d, searched, r.tenant, ModelCallKind(), |r.found|, r.now, tenant);
      SavedAllElsewhere(d, RunMetered(d, s, r), r.tenant, r.actor, r.found, tenant);
    } else {
      var op := OpOf(r);
      var key := Cases.KeyOf(op);
      Cases.AttemptRow(s.store, op);
      RowsViewUpdate(s.store.rows, key, Cases.RowAfter(s.store.rows[key], op), tenant);
      var stored := s.(store := Cases.Apply(s.store, op));
      if r.Execute? { MeteredView(d, stored, r.tenant, ActionKind(), 1, r.now, tenant); }
      LoggedView(d, CaseMetered(d, stored, r), CaseEntry(r, Cases.Attempt(s.store, op).1.inv), tenant);
    }
  }

  lemma RolledBackView(s: System, r: Request, tenant: Str)
    ensures ViewOf(RolledBack(s, r), tenant) == ViewOf(s, tenant)
  {
  }

  /** No run request of the tenant meets an id stored under another tenant. */
  ghost predicate IdsAlwaysFree(d: Deployment, calls: seq<Call>, tenant: Str) {
    forall i :: 0 <= i < |calls| && calls[i].request.tenant == tenant ==>
      IdsFree(Serve(d, calls[..i]), calls[i].request)
  }

  lemma IdsFreePrefix(d: Deployment, calls: seq<Call>, tenant: Str)
    requires IdsAlwaysFree(d, calls, tenant) && calls != []
    ensures IdsAlwaysFree(d, calls[..|calls| - 1], tenant)
  {
    var before := calls[..|calls| - 1];
    forall i | 0 <= i < |before| && before[i].request.tenant == tenant
      ensures IdsFree(Serve(d, before[..i]), before[i].request)
    {
      assert before[..i] == calls[..i];
      assert IdsFree(Serve(d, calls[..i]), calls[i].request);
    }
  }

  /** When only one tenant makes requests, only its cases are stored. */
  lemma {:induction false} AloneOwnsAllKeys(d: Deployment, calls: seq<Call>, tenant: Str, key: Cases.Key)
    requires key in Serve(d, RequestsOf(calls, tenant)).store.rows
    ensures key.tenant == tenant
  {
    if calls != [] {
      var before, c := calls[..|calls| - 1], calls[|calls| - 1];
      var own := RequestsOf(before, tenant);
      if key in Serve(d, own).store.rows {
        AloneOwnsAllKeys(d, before, tenant, key);
      } else {
        assert (own + [c])[..|own|] == own;
        NewKeysAreOwn(d, Serve(d, own), c, key);
      }
    }
  }

  lemma NewKeysAreOwn(d: Deployment, s: System, c: Call, key: Cases.Key)
    requires key !in s.store.rows && key in Step(d, s, c.request, c.raises).store.rows
    ensures key.tenant == c.request.tenant
  {
    var r := c.request;
    if r.RunPipeline? {
      SavedAllKeys(d, RunMetered(d, s, r), r.tenant, r.actor, r.found, key);
    } else if OpOf(r).key in s.store.rows {
      Cases.AttemptRow(s.store, OpOf(r));
    }
  }

  /**
   After any run of these requests of any tenants, committed or rolled back, a tenant's cases, audit rows and usage
   are those it would have if no other tenant had made any, provided its runs meet no id that another tenant holds.
   */
  lemma {:induction false} TenantsDoNotInterfere(d: Deployment, calls: seq<Call>, tenant: Str)
    requires IdsAlwaysFree(d, calls, tenant)
    ensures ViewOf(Serve(d, calls), tenant) == ViewOf(Serve(d, RequestsOf(calls, tenant)), tenant)
  {
    if calls != [] {
      var before, c := calls[..|calls| - 1], calls[|calls| - 1];
      IdsFreePrefix(d, calls, tenant);
      TenantsDoNotInterfere(d, before, tenant);
      OneMoreRequest(d, calls, tenant);
    }
  }

  lemma AloneIdsFree(d: Deployment, calls: seq<Call>, r: Request)
    ensures IdsFree(Serve(d, RequestsOf(calls, r.tenant)), r)
  {
    var rows := Serve(d, RequestsOf(calls, r.tenant)).store.rows;
    forall key | key in rows ensures key.tenant == r.tenant { AloneOwnsAllKeys(d, calls, r.tenant, key); }
  }

  lemma OneMoreRequest(d: Deployment, calls: seq<Call>, tenant: Str)
    requires calls != [] && IdsAlwaysFree(d, calls, tenant)
    requires var before := calls[..|calls| - 1];
             ViewOf(Serve(d, before), tenant) == ViewOf(Serve(d, RequestsOf(before, tenant)), tenant)
    ensures ViewOf(Serve(d, calls), tenant) == ViewOf(Serve(d, RequestsOf(calls, tenant)), tenant)
  {
    var before, c := calls[..|calls| - 1], calls[|calls| - 1];
    var s, own := Serve(d, before), RequestsOf(before, tenant);
    if c.request.tenant == tenant {
      assert (own + [c])[..|own|] == own;
      assert IdsFree(s, c.request);
      AloneIdsFree(d, before, c.request);
      StepAlike(d, s, Serve(d, own), c);
    } else {
      StepElsewhere(d, s, c, tenant);
    }
  }

  lemma StepAlike(d: Deployment, s: System, t: System, c: Call)
    requires ViewOf(s, c.request.tenant) == ViewOf(t, c.request.tenant)
    requires IdsFree(s, c.request) && IdsFree(t, c.request)
    ensures ViewOf(Step(d, s, c.request, c.raises), c.request.tenant) ==
            ViewOf(Step(d, t, c.request, c.raises), c.request.tenant)
  {
    HandleAlike(d, s, t, c.request);
    RolledBackView(s, c.request, c.request.tenant);
    RolledBackView(t, c.request, c.request.tenant);
  }

  lemma StepElsewhere(d: Deployment, s: System, c: Call, tenant: Str)
    requires c.request.tenant != tenant
    ensures ViewOf(Step(d, s, c.request, c.raises), tenant) == ViewOf(s, tenant)
  {
    RolledBackView(s, c.request, tenant);
    if Handle(d, s, c.request).Some? { HandleElsewhere(d, s, c.request, tenant); }
  }
}
