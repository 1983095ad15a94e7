/**
 The state-changing routes. A request reads and writes cases, the audit log and the usage table inside one
 session, which commits everything or rolls everything back.
 */
module Backend {
  import opened Basics
  import opened Domain
  import opened Json
  import opened Metering
  import Audit
  import Cases
  import Detecting
  import Pipeline
  import Quotas
  import Reporting

  datatype System = System(store: Cases.Store, audit: seq<Audit.Row>, usage: seq<UsageEvent>)

  /** A deployment: its hash and its price book. */
  datatype Deployment = Deployment(hash: Audit.Hash, prices: PriceBook)

  datatype Request =
    | RunPipeline(
        tenant: Str, actor: Str, plan: Str, enabledRules: nat, found: seq<Investigation>, monthStart: int, now: int)
    | Approve(tenant: Str, actor: Str, id: Str, index: int)
    | Execute(tenant: Str, actor: Str, id: Str, index: int, report: Option<Cases.Report>, now: int)
    | Transition(tenant: Str, actor: Str, id: Str, target: Str, now: int)
    | Assign(tenant: Str, actor: Str, id: Str, assignee: Option<Str>)

  function Created(): Str { Lit("investigation.created") }
  function Approved(): Str { Lit("action.approved") }
  function Executed(): Str { Lit("action.executed") }
  function StatusChanged(): Str { Lit("case.status_changed") }
  function Assigned(): Str { Lit("case.assigned") }

  function SeverityText(s: Severity): Str {
    match s
    case Info => Lit("info")
    case Low => Lit("low")
    case Medium => Lit("medium")
    case High => Lit("high")
    case Critical => Lit("critical")
  }

  function About(tenant: Str, actor: Str, action: Str, id: Str, detail: seq<Entry>): Audit.Fields {
    Audit.Fields(tenant, actor, action, Lit("investigation"), id, detail)
  }

  function TextOrNull(t: Option<Str>): Json {
    if t.Some? then Text(t.value) else Null
  }

  function CreatedEntry(tenant: Str, actor: Str, inv: Investigation): Audit.Fields {
    About(tenant, actor, Created(), inv.id,
          [Entry(Lit("severity"), Text(SeverityText(inv.detection.severity))),
           Entry(Lit("title"), Text(inv.detection.title))])
  }

  function ExecutedEntry(tenant: Str, actor: Str, id: Str, index: int, a: Action): Audit.Fields {
    About(tenant, actor, Executed(), id,
          [Entry(Lit("action_index"), Num(index)), Entry(Lit("action_type"), Text(a.actionType)),
           Entry(Lit("status"), TextOrNull(a.executionStatus))])
  }

  function Logged(d: Deployment, s: System, f: Audit.Fields): System {
    s.(audit := Audit.Recorded(d.hash, s.audit, f))
  }

  function Metered(d: Deployment, s: System, tenant: Str, kind: Str, quantity: int, now: int): System {
    s.(usage := s.usage + [UsageEvent(tenant, kind, quantity, CostCents(d.prices, kind, quantity), now)])
  }

  function SavedOne(d: Deployment, s: System, tenant: Str, actor: Str, inv: Investigation): System {
    Logged(d, s.(store := Cases.ApplySave(s.store, tenant, inv)), CreatedEntry(tenant, actor, inv))
  }

  /** Save and audit the investigations of a run, one after the other. */
  function SavedAll(d: Deployment, s: System, tenant: Str, actor: Str, found: seq<Investigation>): System {
    if found == [] then s
    else
      SavedOne(d, SavedAll(d, s, tenant, actor, found[..|found| - 1]), tenant, actor, found[|found| - 1])
  }

  function QuotaAllows(s: System, tenant: Str, plan: Str, want: nat, monthStart: int): bool {
    Quotas.Status(s.usage, tenant, plan, SearchKind(), want, monthStart).allowed
  }

  /** What a run meters before it saves: its searches, and a model call per investigation. */
  function RunMetered(d: Deployment, s: System, r: Request): System
    requires r.RunPipeline?
  {
    var searched := Metered(d, s, r.tenant, SearchKind(), r.enabledRules, r.now);
    if r.found == [] then searched else Metered(d, searched, r.tenant, ModelCallKind(), |r.found|, r.now)
  }

  /** Saving fails when some id is stored under another tenant. */
  predicate Clashes(rows: map<Cases.Key, Cases.Row>, tenant: Str, found: seq<Investigation>) {
    exists i :: 0 <= i < |found| && Cases.HeldElsewhere(rows, tenant, found[i].id)
  }

  /** The case operation behind a request on one case. */
  function OpOf(r: Request): Cases.Op
    requires !r.RunPipeline?
  {
    var key := Cases.Key(r.tenant, r.id);
    match r
    case Approve(_, _, _, index) => Cases.Approve(key, index)
    case Execute(_, _, _, index, report, _) => Cases.Execute(key, index, report)
    case Transition(_, _, _, target, now) => Cases.Transition(key, target, now)
    case Assign(_, _, _, assignee) => Cases.Assign(key, assignee)
  }

  /** What a case request logs, given the investigation its operation returns. */
  function CaseEntry(r: Request, inv: Investigation): Audit.Fields
    requires !r.RunPipeline?
    requires r.Execute? ==> 0 <= r.index < |inv.actions|
  {
    match r
    case Approve(tenant, actor, id, index) =>
      About(tenant, actor, Approved(), id, [Entry(Lit("action_index"), Num(index))])
    case Execute(tenant, actor, id, index, _, _) => ExecutedEntry(tenant, actor, id, index, inv.actions[index])
    case Transition(tenant, actor, id, target, _) =>
      About(tenant, actor, StatusChanged(), id, [Entry(Lit("status"), Text(target))])
    case Assign(tenant, actor, id, assignee) =>
      About(tenant, actor, Assigned(), id, [Entry(Lit("assignee"), TextOrNull(assignee))])
  }

  function CaseMetered(d: Deployment, s: System, r: Request): System
    requires !r.RunPipeline?
  {
    if r.Execute? then Metered(d, s, r.tenant, ActionKind(), 1, r.now) else s
  }

  /** Meter and log a case request whose operation is done. */
  function CaseDone(d: Deployment, s: System, r: Request, inv: Investigation): System
    requires !r.RunPipeline? && (r.Execute? ==> 0 <= r.index < |inv.actions|)
  {
    Logged(d, CaseMetered(d, s, r), CaseEntry(r, inv))
  }

  /** The state a request would commit, or None when it is refused. */
  function Handle(d: Deployment, s: System, r: Request): Option<System> {
    if r.RunPipeline? then
      if !QuotaAllows(s, r.tenant, r.plan, r.enabledRules, r.monthStart) then None
      else if Clashes(s.store.rows, r.tenant, r.found) then None
      else Some(SavedAll(d, RunMetered(d, s, r), r.tenant, r.actor, r.found))
    else
      var (store, reply) := Cases.Attempt(s.store, OpOf(r));
      if reply.Refused? then None
      else Some(CaseDone(d, s.(store := store), r, reply.inv))
  }

  /** What a rollback cannot undo: the call that an execute request made to the executor. */
  function RolledBack(s: System, r: Request): System {
    if r.Execute? then s.(store := Cases.ApplyExecute(s.store, Cases.Key(r.tenant, r.id), r.index, None).0) else s
  }

  /** One request in its session: commit on success; a refusal or any later exception rolls back. */
  function Step(d: Deployment, s: System, r: Request, raises: bool): System {
    var handled := Handle(d, s, r);
    if handled.Some? && !raises then handled.value else RolledBack(s, r)
  }

  /** What a run request leaves when nothing later fails. */
  lemma RunStep(d: Deployment, s: System, r: Request)
    requires r.RunPipeline?
    ensures Step(d, s, r, false) ==
            if QuotaAllows(s, r.tenant, r.plan, r.enabledRules, r.monthStart) &&
                !Clashes(s.store.rows, r.tenant, r.found)
            then SavedAll(d, RunMetered(d, s, r), r.tenant, r.actor, r.found) else s
  {
  }

  datatype Call = Call(request: Request, raises: bool)

  function Serve(d: Deployment, calls: seq<Call>): System {
    if calls == [] then System(Cases.Store(map[], []), [], [])
    else var c := calls[|calls| - 1]; Step(d, Serve(d, calls[..|calls| - 1]), c.request, c.raises)
  }

  // ----- Books -----

  function CountActions(table: seq<Audit.Row>, tenant: Str, action: Str): nat {
    if table == [] then 0
    else
      var f := table[|table| - 1].fields;
      CountActions(table[..|table| - 1], tenant, action) + (if f.tenant == tenant && f.action == action then 1 else 0)
  }

  function MeteredTotal(usage: seq<UsageEvent>, tenant: Str, kind: Str): int {
    QuantityOf(OfKind(Selected(usage, tenant, None, None), kind))
  }

  /** Committed executions of a tenant. */
  function Executions(d: Deployment, calls: seq<Call>, tenant: Str): nat {
    if calls == [] then 0
    else
      var before, c := calls[..|calls| - 1], calls[|calls| - 1];
      Executions(d, before, tenant) +
        if c.request.Execute? && c.request.tenant == tenant && !c.raises && Handle(d, Serve(d, before), c.request).Some?
        then 1 else 0
  }

  /** One audit row and one metered model call per stored investigation; one of each per execution. */
  ghost predicate BooksAgree(s: System, tenant: Str, executions: nat) {
    && |Cases.StoredOf(s.store.rows, tenant)| == CountActions(s.audit, tenant, Created()) ==
       MeteredTotal(s.usage, tenant, ModelCallKind())
    && executions == CountActions(s.audit, tenant, Executed()) == MeteredTotal(s.usage, tenant, ActionKind())
  }

  /** Freshly planned investigations under ids that no tenant has stored. */
  ghost predicate FreshBatch(rows: map<Cases.Key, Cases.Row>, found: seq<Investigation>) {
    && (forall i :: 0 <= i < |found| ==> Cases.AsPlanned(found[i]) && Cases.FreshId(rows, found[i].id))
    && (forall i, j :: 0 <= i < j < |found| ==> found[i].id != found[j].id)
  }

  ghost predicate FreshCall(s: System, c: Call) {
    c.request.RunPipeline? ==> FreshBatch(s.store.rows, c.request.found)
  }

  ghost predicate FreshCalls(d: Deployment, calls: seq<Call>) {
    forall i :: 0 <= i < |calls| ==> FreshCall(Serve(d, calls[..i]), calls[i])
  }

  lemma NamesDistinct()
    ensures Created() !in {Approved(), Executed(), StatusChanged(), Assigned()}
    ensures Executed() !in {Approved(), StatusChanged(), Assigned()}
    ensures SearchKind() != ModelCallKind() && SearchKind() != ActionKind() && ModelCallKind() != ActionKind()
  {
    assert Created()[0] == 'i' as int && Approved()[0] == 'a' as int && Executed()[0] == 'a' as int;
    assert StatusChanged()[0] == 'c' as int && Assigned()[0] == 'c' as int;
    assert Approved()[7] == 'a' as int && Executed()[7] == 'e' as int;
    assert SearchKind()[0] == 's' as int && ModelCallKind()[0] == 'm' as int && ActionKind()[0] == 'a' as int;
  }

  lemma LoggedCounts(d: Deployment, s: System, f: Audit.Fields, tenant: Str, action: Str)
    ensures CountActions(Logged(d, s, f).audit, tenant, action) ==
            CountActions(s.audit, tenant, action) + if f.tenant == tenant && f.action == action then 1 else 0
  {
    assert Logged(d, s, f).audit[..|s.audit|] == s.audit;
  }

  lemma MeteredTotals(d: Deployment, s: System, to: Str, kind: Str, quantity: int, now: int, tenant: Str, of: Str)
    ensures MeteredTotal(Metered(d, s, to, kind, quantity, now).usage, tenant, of) ==
            MeteredTotal(s.usage, tenant, of) + if to == tenant && kind == of then quantity else 0
  {
    var usage := Metered(d, s, to, kind, quantity, now).usage;
    assert usage[..|s.usage|] == s.usage;
    var e, before := usage[|s.usage|], Selected(s.usage, tenant, None, None);
    assert (before + [e])[..|before|] == before;
    var kept := OfKind(before, of);
    assert (kept + [e])[..|kept|] == kept;
  }

  lemma StoredOneMore(rows: map<Cases.Key, Cases.Row>, key: Cases.Key, row: Cases.Row, tenant: Str)
    ensures |Cases.StoredOf(rows[key := row], tenant)| ==
            |Cases.StoredOf(rows, tenant)| + if key !in rows && key.tenant == tenant then 1 else 0
  {
    if key.tenant == tenant {
      assert Cases.StoredOf(rows[key := row], tenant) == Cases.StoredOf(rows, tenant) + {key};
    } else {
      assert Cases.StoredOf(rows[key := row], tenant) == Cases.StoredOf(rows, tenant);
    }
  }

  ghost predicate InBatch(key: Cases.Key, owner: Str, found: seq<Investigation>) {
    exists i :: 0 <= i < |found| && key == Cases.Key(owner, found[i].id)
  }

  lemma InBatchStep(key: Cases.Key, owner: Str, found: seq<Investigation>)
    requires found != []
    ensures InBatch(key, owner, found) <==>
              InBatch(key, owner, found[..|found| - 1]) || key == Cases.Key(owner, found[|found| - 1].id)
  {
    var n := |found| - 1;
    if i :| 0 <= i < |found| && key == Cases.Key(owner, found[i].id) {
      if i < n { assert key == Cases.Key(owner, found[..n][i].id); }
    }
    if i :| 0 <= i < n && key == Cases.Key(owner, found[..n][i].id) { assert key == Cases.Key(owner, found[i].id); }
  }

  /** The cases stored after saving a batch are the old ones and those of the batch. */
  lemma {:induction false} SavedAllKeys(
      d: Deployment, s: System, owner: Str, actor: Str, found: seq<Investigation>, key: Cases.Key)
    ensures key in SavedAll(d, s, owner, actor, found).store.rows <==> key in s.store.rows || InBatch(key, owner, found)
  {
    if found != [] {
      SavedAllKeys(d, s, owner, actor, found[..|found| - 1], key);
      InBatchStep(key, owner, found);
    }
  }

  lemma NextKeyFresh(d: Deployment, s: System, owner: Str, actor: Str, found: seq<Investigation>)
    requires FreshBatch(s.store.rows, found) && found != []
    ensures Cases.FreshId(SavedAll(d, s, owner, actor, found[..|found| - 1]).store.rows, found[|found| - 1].id)
    ensures FreshBatch(s.store.rows, found[..|found| - 1])
  {
    var n := |found| - 1;
    var rows := SavedAll(d, s, owner, actor, found[..n]).store.rows;
    forall key | key in rows ensures key.id != found[n].id {
      SavedAllKeys(d, s, owner, actor, found[..n], key);
      if i :| 0 <= i < n && key == Cases.Key(owner, found[..n][i].id) { assert found[i].id != found[n].id; }
    }
  }

  /** Saving for one tenant does not change which ids other tenants hold. */
  lemma HeldThroughout(d: Deployment, s: System, owner: Str, actor: Str, found: seq<Investigation>, id: Str)
    ensures Cases.HeldElsewhere(SavedAll(d, s, owner, actor, found).store.rows, owner, id) <==>
            Cases.HeldElsewhere(s.store.rows, owner, id)
  {
    var t := SavedAll(d, s, owner, actor, found);
    forall key: Cases.Key | key.tenant != owner ensures key in t.store.rows <==> key in s.store.rows {
      SavedAllKeys(d, s, owner, actor, found, key);
    }
    if key :| key in t.store.rows && key.id == id && key.tenant != owner { assert key in s.store.rows; }
    if key :| key in s.store.rows && key.id == id && key.tenant != owner { assert key in t.store.rows; }
  }

  lemma ClashesStep(rows: map<Cases.Key, Cases.Row>, owner: Str, found: seq<Investigation>, i: nat)
    requires i < |found|
    ensures Clashes(rows, owner, found[..i + 1]) <==>
              Clashes(rows, owner, found[..i]) || Cases.HeldElsewhere(rows, owner, found[i].id)
    ensures Cases.HeldElsewhere(rows, owner, found[i].id) ==> Clashes(rows, owner, found)
  {
    var before, more := found[..i], found[..i + 1];
    assert more[i] == found[i];
    if k :| 0 <= k < |more| && Cases.HeldElsewhere(rows, owner, more[k].id) {
      if k < i { assert Cases.HeldElsewhere(rows, owner, before[k].id); }
    }
    if k :| 0 <= k < |before| && Cases.HeldElsewhere(rows, owner, before[k].id) { assert more[k] == before[k]; }
  }

  lemma SavedAllStep(d: Deployment, s: System, owner: Str, actor: Str, found: seq<Investigation>, i: nat)
    requires i < |found| && !Clashes(s.store.rows, owner, found[..i])
    ensures var before := SavedAll(d, s, owner, actor, found[..i]);
            && SavedAll(d, s, owner, actor, found[..i + 1]) == SavedOne(d, before, owner, actor, found[i])
            && (if Cases.HeldElsewhere(before.store.rows, owner, found[i].id)
                then Clashes(s.store.rows, owner, found) else !Clashes(s.store.rows, owner, found[..i + 1]))
  {
    assert found[..i + 1][..i] == found[..i];
    HeldThroughout(d, s, owner, actor, found[..i], found[i].id);
    ClashesStep(s.store.rows, owner, found, i);
  }

  /** Saving a batch adds one row and one audit entry per investigation, for its tenant only. */
  lemma {:induction false} SavedAllBooks(
      d: Deployment, s: System, owner: Str, actor: Str, found: seq<Investigation>, tenant: Str)
    requires FreshBatch(s.store.rows, found)
    ensures var t := SavedAll(d, s, owner, actor, found);
            var n := if owner == tenant then |found| else 0;
            && t.usage == s.usage
            && |Cases.StoredOf(t.store.rows, tenant)| == |Cases.StoredOf(s.store.rows, tenant)| + n
            && CountActions(t.audit, tenant, Created()) == CountActions(s.audit, tenant, Created()) + n
            && CountActions(t.audit, tenant, Executed()) == CountActions(s.audit, tenant, Executed())
  {
    if found != [] {
      var n := |found| - 1;
      var before, inv := SavedAll(d, s, owner, actor, found[..n]), found[n];
      NextKeyFresh(d, s, owner, actor, found);
      SavedAllBooks(d, s, owner, actor, found[..n], tenant);
      OneSavedBooks(d, before, owner, actor, inv, tenant);
    }
  }

  lemma OneSavedBooks(d: Deployment, s: System, owner: Str, actor: Str, inv: Investigation, tenant: Str)
    requires Cases.Key(owner, inv.id) !in s.store.rows
    ensures var t := SavedOne(d, s, owner, actor, inv);
            var n := if owner == tenant then 1 else 0;
            && t.usage == s.usage
            && |Cases.StoredOf(t.store.rows, tenant)| == |Cases.StoredOf(s.store.rows, tenant)| + n
            && CountActions(t.audit, tenant, Created()) == CountActions(s.audit, tenant, Created()) + n
            && CountActions(t.audit, tenant, Executed()) == CountActions(s.audit, tenant, Executed())
  {
    var saved := s.(store := Cases.ApplySave(s.store, owner, inv));
    var key := Cases.Key(owner, inv.id);
    StoredOneMore(s.store.rows, key, saved.store.rows[key], tenant);
    LoggedCounts(d, saved, CreatedEntry(owner, actor, inv), tenant, Created());
    LoggedCounts(d, saved, CreatedEntry(owner, actor, inv), tenant, Executed());
    NamesDistinct();
  }

  lemma {:induction false} SavedAllKeeps(d: Deployment, s: System, owner: Str, actor: Str, found: seq<Investigation>)
    requires FreshBatch(s.store.rows, found) && Cases.Kept(s.store) && Audit.TenantsIntact(d.hash, s.audit)
    ensures var t := SavedAll(d, s, owner, actor, found); Cases.Kept(t.store) && Audit.TenantsIntact(d.hash, t.audit)
  {
    if found != [] {
      var n := |found| - 1;
      var before, inv := SavedAll(d, s, owner, actor, found[..n]), found[n];
      NextKeyFresh(d, s, owner, actor, found);
      SavedAllKeeps(d, s, owner, actor, found[..n]);
      Cases.SaveKeeps(before.store, owner, inv);
      LoggedIntact(d, before.(store := Cases.ApplySave(before.store, owner, inv)), CreatedEntry(owner, actor, inv));
    }
  }

  lemma LoggedIntact(d: Deployment, s: System, f: Audit.Fields)
    requires Audit.TenantsIntact(d.hash, s.audit)
    ensures Audit.TenantsIntact(d.hash, Logged(d, s, f).audit)
  {
    forall t ensures Audit.Intact(d.hash, Audit.RowsOf(t, Logged(d, s, f).audit)) {
      Audit.RecordExtendsOneChain(d.hash, s.audit, f, t);
    }
  }

  lemma RunMeteredTotals(d: Deployment, s: System, r: Request, tenant: Str)
    requires r.RunPipeline?
    ensures var t := RunMetered(d, s, r);
            && t.store == s.store && t.audit == s.audit
            && MeteredTotal(t.usage, tenant, ActionKind()) == MeteredTotal(s.usage, tenant, ActionKind())
            && MeteredTotal(t.usage, tenant, ModelCallKind()) ==
               MeteredTotal(s.usage, tenant, ModelCallKind()) + if r.tenant == tenant then |r.found| else 0
  {
    NamesDistinct();
    var searched := Metered(d, s, r.tenant, SearchKind(), r.enabledRules, r.now);
    MeteredTotals(d, s, r.tenant, SearchKind(), r.enabledRules, r.now, tenant, ModelCallKind());
    MeteredTotals(d, s, r.tenant, SearchKind(), r.enabledRules, r.now, tenant, ActionKind());
    MeteredTotals(d, searched, r.tenant, ModelCallKind(), |r.found|, r.now, tenant, ModelCallKind());
    MeteredTotals(d, searched, r.tenant, ModelCallKind(), |r.found|, r.now, tenant, ActionKind());
  }

  lemma PipelineBooks(d: Deployment, s: System, r: Request, tenant: Str, executions: nat)
    requires r.RunPipeline? && Handle(d, s, r).Some?
    requires BooksAgree(s, tenant, executions) && FreshBatch(s.store.rows, r.found)
    ensures BooksAgree(Handle(d, s, r).value, tenant, executions)
  {
    RunMeteredTotals(d, s, r, tenant);
    SavedAllBooks(d, RunMetered(d, s, r), r.tenant, r.actor, r.found, tenant);
  }

  lemma ActionMetered(d: Deployment, s: System, owner: Str, now: int, tenant: Str)
    ensures var usage := Metered(d, s, owner, ActionKind(), 1, now).usage;
            && MeteredTotal(usage, tenant, ModelCallKind()) == MeteredTotal(s.usage, tenant, ModelCallKind())
            && MeteredTotal(usage, tenant, ActionKind()) ==
               MeteredTotal(s.usage, tenant, ActionKind()) + if owner == tenant then 1 else 0
  {
    NamesDistinct();
    MeteredTotals(d, s, owner, ActionKind(), 1, now, tenant, ModelCallKind());
    MeteredTotals(d, s, owner, ActionKind(), 1, now, tenant, ActionKind());
  }

  lemma CaseRows(s: System, r: Request, tenant: Str)
    requires !r.RunPipeline? && Cases.Attempt(s.store, OpOf(r)).1.Done?
    ensures |Cases.StoredOf(Cases.Apply(s.store, OpOf(r)).rows, tenant)| == |Cases.StoredOf(s.store.rows, tenant)|
  {
    var key := Cases.KeyOf(OpOf(r));
    Cases.AttemptRow(s.store, OpOf(r));
    StoredOneMore(s.store.rows, key, Cases.RowAfter(s.store.rows[key], OpOf(r)), tenant);
  }

  lemma CaseUsage(d: Deployment, s: System, r: Request, tenant: Str)
    requires !r.RunPipeline?
    ensures var usage := CaseMetered(d, s, r).usage;
            && MeteredTotal(usage, tenant, ModelCallKind()) == MeteredTotal(s.usage, tenant, ModelCallKind())
            && MeteredTotal(usage, tenant, ActionKind()) ==
               MeteredTotal(s.usage, tenant, ActionKind()) + if r.Execute? && r.tenant == tenant then 1 else 0
  {
    if r.Execute? { ActionMetered(d, s, r.tenant, r.now, tenant); }
  }

  /** A request on one case changes no count of cases, and adds one audit entry of its own kind. */
  lemma CaseBooks(d: Deployment, s: System, r: Request, tenant: Str, executions: nat)
    requires !r.RunPipeline? && Handle(d, s, r).Some? && BooksAgree(s, tenant, executions)
    ensures BooksAgree(Handle(d, s, r).value, tenant, executions + if r.Execute? && r.tenant == tenant then 1 else 0)
  {
    var (store, reply) := Cases.Attempt(s.store, OpOf(r));
    var f, metered := CaseEntry(r, reply.inv), CaseMetered(d, s.(store := store), r);
    CaseRows(s, r, tenant);
    CaseUsage(d, s.(store := store), r, tenant);
    CaseActions(r, reply.inv);
    NamesDistinct();
    LoggedCounts(d, metered, f, tenant, Created());
    LoggedCounts(d, metered, f, tenant, Executed());
  }

  lemma CaseActions(r: Request, inv: Investigation)
    requires !r.RunPipeline? && (r.Execute? ==> 0 <= r.index < |inv.actions|)
    ensures CaseEntry(r, inv).tenant == r.tenant && CaseEntry(r, inv).action != Created()
    ensures CaseEntry(r, inv).action == Executed() <==> r.Execute?
  {
    NamesDistinct();
  }

  /** Whatever a request does to one tenant's books, rows and audit entries and metered units move together. */
  lemma HandleBooks(d: Deployment, s: System, r: Request, tenant: Str, executions: nat)
    requires BooksAgree(s, tenant, executions) && FreshCall(s, Call(r, false)) && Handle(d, s, r).Some?
    ensures BooksAgree(Handle(d, s, r).value, tenant, executions + if r.Execute? && r.tenant == tenant then 1 else 0)
  {
    if r.RunPipeline? { PipelineBooks(d, s, r, tenant, executions); } else { CaseBooks(d, s, r, tenant, executions); }
  }

  lemma StepKeeps(d: Deployment, s: System, c: Call)
    requires FreshCall(s, c) && Cases.Kept(s.store) && Audit.TenantsIntact(d.hash, s.audit)
    ensures Cases.Kept(Step(d, s, c.request, c.raises).store)
    ensures Audit.TenantsIntact(d.hash, Step(d, s, c.request, c.raises).audit)
  {
    var r := c.request;
    if Handle(d, s, r).None? || c.raises {
      if r.Execute? { Cases.ApplyKeeps(s.store, Cases.Execute(Cases.Key(r.tenant, r.id), r.index, None)); }
    } else {
      HandleKeeps(d, s, r);
    }
  }

  lemma PipelineKeeps(d: Deployment, s: System, r: Request)
    requires r.RunPipeline? && Handle(d, s, r).Some? && FreshBatch(s.store.rows, r.found)
    requires Cases.Kept(s.store) && Audit.TenantsIntact(d.hash, s.audit)
    ensures Cases.Kept(Handle(d, s, r).value.store) && Audit.TenantsIntact(d.hash, Handle(d, s, r).value.audit)
  {
    SavedAllKeeps(d, RunMetered(d, s, r), r.tenant, r.actor, r.found);
  }

  lemma HandleKeeps(d: Deployment, s: System, r: Request)
    requires FreshCall(s, Call(r, false)) && Cases.Kept(s.store) && Audit.TenantsIntact(d.hash, s.audit)
    requires Handle(d, s, r).Some?
    ensures Cases.Kept(Handle(d, s, r).value.store) && Audit.TenantsIntact(d.hash, Handle(d, s, r).value.audit)
  {
    if r.RunPipeline? {
      PipelineKeeps(d, s, r);
    } else {
      var (store, reply) := Cases.Attempt(s.store, OpOf(r));
      Cases.ApplyKeeps(s.store, OpOf(r));
      LoggedIntact(d, CaseMetered(d, s.(store := store), r), CaseEntry(r, reply.inv));
    }
  }

  /**
   In every committed state of every run, for every tenant: stored investigations, creation entries and metered
   model calls agree; committed executions, execution entries and metered actions agree; every audit chain
   verifies; headers agree with payloads; and the approval gate has held.
   */
  lemma {:induction false} RunsKeepBooks(d: Deployment, calls: seq<Call>, tenant: Str)
    requires FreshCalls(d, calls)
    ensures BooksAgree(Serve(d, calls), tenant, Executions(d, calls, tenant))
    ensures Cases.Kept(Serve(d, calls).store) && Audit.TenantsIntact(d.hash, Serve(d, calls).audit)
  {
    if calls != [] {
      FreshPrefix(d, calls);
      var before, c := calls[..|calls| - 1], calls[|calls| - 1];
      RunsKeepBooks(d, before, tenant);
      StepKeeps(d, Serve(d, before), c);
      StepBooks(d, Serve(d, before), c, tenant, Executions(d, before, tenant));
    }
  }

  lemma FreshPrefix(d: Deployment, calls: seq<Call>)
    requires FreshCalls(d, calls) && calls != []
    ensures FreshCalls(d, calls[..|calls| - 1]) && FreshCall(Serve(d, calls[..|calls| - 1]), calls[|calls| - 1])
  {
    var before := calls[..|calls| - 1];
    forall i | 0 <= i < |before| ensures FreshCall(Serve(d, before[..i]), before[i]) {
      assert before[..i] == calls[..i];
      assert FreshCall(Serve(d, calls[..i]), calls[i]);
    }
  }

  lemma StepBooks(d: Deployment, s: System, c: Call, tenant: Str, executions: nat)
    requires BooksAgree(s, tenant, executions) && FreshCall(s, c)
    ensures BooksAgree(Step(d, s, c.request, c.raises), tenant, executions +
              if c.request.Execute? && c.request.tenant == tenant && !c.raises && Handle(d, s, c.request).Some?
                  then 1 else 0)
  {
    if Handle(d, s, c.request).Some? && !c.raises { HandleBooks(d, s, c.request, tenant, executions); }
  }

  lemma {:induction false} SavedAllKeepsIds(d: Deployment, s: System, owner: Str, actor: Str, found: seq<Investigation>)
    requires Cases.IdsMatch(s.store.rows)
    ensures Cases.IdsMatch(SavedAll(d, s, owner, actor, found).store.rows)
  {
    if found != [] { SavedAllKeepsIds(d, s, owner, actor, found[..|found| - 1]); }
  }

  lemma StepKeepsIds(d: Deployment, s: System, c: Call)
    requires Cases.IdsMatch(s.store.rows)
    ensures Cases.IdsMatch(Step(d, s, c.request, c.raises).store.rows)
  {
    var r := c.request;
    if r.RunPipeline? {
      SavedAllKeepsIds(d, RunMetered(d, s, r), r.tenant, r.actor, r.found);
    } else {
      Cases.ApplyKeepsIds(s.store, OpOf(r));
    }
  }

  lemma StepKeepsIdsIf(d: Deployment, s: System, c: Call)
    ensures Cases.IdsMatch(s.store.rows) ==> Cases.IdsMatch(Step(d, s, c.request, c.raises).store.rows)
  {
    if Cases.IdsMatch(s.store.rows) { StepKeepsIds(d, s, c); }
  }

  /** After any requests, fresh ids or not, every payload carries the id of its row. */
  lemma {:induction false} RunsMatchIds(d: Deployment, calls: seq<Call>)
    ensures Cases.IdsMatch(Serve(d, calls).store.rows)
  {
    if calls != [] {
      RunsMatchIds(d, calls[..|calls| - 1]);
      StepKeepsIds(d, Serve(d, calls[..|calls| - 1]), calls[|calls| - 1]);
    }
  }

  // ----- What is metered -----

  /** The searches of the committed runs of a tenant: for each, as many as rules were enabled. */
  function SearchesRun(d: Deployment, calls: seq<Call>, tenant: Str): nat {
    if calls == [] then 0
    else
      var before, c := calls[..|calls| - 1], calls[|calls| - 1];
      var r := c.request;
      SearchesRun(d, before, tenant) +
        if r.RunPipeline? && r.tenant == tenant && !c.raises && Handle(d, Serve(d, before), r).Some?
        then r.enabledRules else 0
  }

  /** Saving and logging meter nothing. */
  lemma {:induction false} SavedAllUsage(d: Deployment, s: System, owner: Str, actor: Str, found: seq<Investigation>)
    ensures SavedAll(d, s, owner, actor, found).usage == s.usage
  {
    if found != [] { SavedAllUsage(d, s, owner, actor, found[..|found| - 1]); }
  }

  lemma RunMetersSearches(d: Deployment, s: System, r: Request, tenant: Str)
    requires r.RunPipeline?
    ensures MeteredTotal(RunMetered(d, s, r).usage, tenant, Lit("search")) ==
            MeteredTotal(s.usage, tenant, Lit("search")) + if r.tenant == tenant then r.enabledRules else 0
  {
    NamesDistinct();
    var searched := Metered(d, s, r.tenant, SearchKind(), r.enabledRules, r.now);
    MeteredTotals(d, s, r.tenant, SearchKind(), r.enabledRules, r.now, tenant, SearchKind());
    MeteredTotals(d, searched, r.tenant, ModelCallKind(), |r.found|, r.now, tenant, SearchKind());
  }

  lemma CaseMetersNoSearch(d: Deployment, s: System, r: Request, tenant: Str)
    requires !r.RunPipeline?
    ensures MeteredTotal(CaseMetered(d, s, r).usage, tenant, Lit("search")) ==
            MeteredTotal(s.usage, tenant, Lit("search"))
  {
    NamesDistinct();
    if r.Execute? { MeteredTotals(d, s, r.tenant, ActionKind(), 1, r.now, tenant, SearchKind()); }
  }

  /** What any served request adds to a tenant's metered searches, whatever it found. */
  lemma HandleMetersSearches(d: Deployment, s: System, r: Request, tenant: Str)
    requires Handle(d, s, r).Some?
    ensures MeteredTotal(Handle(d, s, r).value.usage, tenant, Lit("search")) ==
            MeteredTotal(s.usage, tenant, Lit("search"))
            + if r.RunPipeline? && r.tenant == tenant then r.enabledRules else 0
  {
    if r.RunPipeline? {
      RunMetersSearches(d, s, r, tenant);
      SavedAllUsage(d, RunMetered(d, s, r), r.tenant, r.actor, r.found);
    } else {
      CaseMetersNoSearch(d, s.(store := Cases.Apply(s.store, OpOf(r))), r, tenant);
    }
  }

  /** One tenant's metered searches grew by so many, and nobody else's changed. */
  ghost predicate SearchesGrow(before: seq<UsageEvent>, after: seq<UsageEvent>, tenant: Str, n: nat) {
    forall t :: MeteredTotal(after, t, Lit("search")) ==
                MeteredTotal(before, t, Lit("search")) + if t == tenant then n else 0
  }

  lemma RunGrowsSearches(d: Deployment, s: System, r: Request)
    requires r.RunPipeline? && Handle(d, s, r).Some?
    ensures SearchesGrow(s.usage, Handle(d, s, r).value.usage, r.tenant, r.enabledRules)
  {
    forall t ensures MeteredTotal(Handle(d, s, r).value.usage, t, Lit("search")) ==
                     MeteredTotal(s.usage, t, Lit("search")) + if t == r.tenant then r.enabledRules else 0
    {
      HandleMetersSearches(d, s, r, t);
    }
  }

  /** After any requests, a tenant's metered searches are those of its committed runs, empty-handed ones included. */
  lemma {:induction false} SearchesMatchRuns(d: Deployment, calls: seq<Call>, tenant: Str)
    ensures MeteredTotal(Serve(d, calls).usage, tenant, Lit("search")) == SearchesRun(d, calls, tenant)
  {
    if calls != [] {
      var before, c := calls[..|calls| - 1], calls[|calls| - 1];
      SearchesMatchRuns(d, before, tenant);
      if Handle(d, Serve(d, before), c.request).Some? && !c.raises {
        HandleMetersSearches(d, Serve(d, before), c.request, tenant);
      }
    }
  }

  /** Every event is a search, a model call or an action at its list price. */
  ghost predicate AtListPrice(prices: PriceBook, usage: seq<UsageEvent>) {
    forall i :: 0 <= i < |usage| ==> ListPriced(prices, usage[i])
  }

  ghost predicate ListPriced(prices: PriceBook, e: UsageEvent) {
    || (e.kind == Lit("search") && e.cost == prices.search * e.quantity)
    || (e.kind == Lit("model_call") && e.cost == prices.modelCall * e.quantity)
    || (e.kind == Lit("action") && e.cost == prices.action * e.quantity)
  }

  lemma MeteredAtListPrice(d: Deployment, s: System, tenant: Str, kind: Str, quantity: int, now: int)
    requires AtListPrice(d.prices, s.usage) && kind in {SearchKind(), ModelCallKind(), ActionKind()}
    ensures AtListPrice(d.prices, Metered(d, s, tenant, kind, quantity, now).usage)
  {
    KindsDistinct();
  }

  lemma RunAtListPrice(d: Deployment, s: System, r: Request)
    requires r.RunPipeline? && AtListPrice(d.prices, s.usage)
    ensures AtListPrice(d.prices, RunMetered(d, s, r).usage)
  {
    var searched := Metered(d, s, r.tenant, SearchKind(), r.enabledRules, r.now);
    MeteredAtListPrice(d, s, r.tenant, SearchKind(), r.enabledRules, r.now);
    MeteredAtListPrice(d, searched, r.tenant, ModelCallKind(), |r.found|, r.now);
  }

  lemma CaseAtListPrice(d: Deployment, s: System, r: Request)
    requires !r.RunPipeline? && AtListPrice(d.prices, s.usage)
    ensures AtListPrice(d.prices, CaseMetered(d, s, r).usage)
  {
    if r.Execute? { MeteredAtListPrice(d, s, r.tenant, ActionKind(), 1, r.now); }
  }

  lemma {:induction false} AlwaysAtListPrice(d: Deployment, calls: seq<Call>)
    ensures AtListPrice(d.prices, Serve(d, calls).usage)
  {
    if calls != [] {
      var c := calls[|calls| - 1];
      var r, s := c.request, Serve(d, calls[..|calls| - 1]);
      AlwaysAtListPrice(d, calls[..|calls| - 1]);
      if r.RunPipeline? {
        RunAtListPrice(d, s, r);
        SavedAllUsage(d, RunMetered(d, s, r), r.tenant, r.actor, r.found);
      } else {
        CaseAtListPrice(d, s.(store := Cases.Apply(s.store, OpOf(r))), r);
      }
    }
  }

  function TenantCost(usage: seq<UsageEvent>, tenant: Str): int {
    CostOf(Selected(usage, tenant, None, None))
  }

  lemma TotalsSnoc(usage: seq<UsageEvent>, e: UsageEvent, tenant: Str, kind: Str)
    ensures MeteredTotal(usage + [e], tenant, kind) ==
            MeteredTotal(usage, tenant, kind) + if e.tenant == tenant && e.kind == kind then e.quantity else 0
    ensures TenantCost(usage + [e], tenant) == TenantCost(usage, tenant) + if e.tenant == tenant then e.cost else 0
  {
    var before := Selected(usage, tenant, None, None);
    assert (usage + [e])[..|usage|] == usage;
    assert (before + [e])[..|before|] == before;
    var kept := OfKind(before, kind);
    assert (kept + [e])[..|kept|] == kept;
  }

  function PricedTotal(price: int, usage: seq<UsageEvent>, tenant: Str, kind: Str): int {
    price * MeteredTotal(usage, tenant, kind)
  }

  /** A tenant's metered totals of the three kinds at list price. */
  function ListTotal(prices: PriceBook, usage: seq<UsageEvent>, tenant: Str): int {
    PricedTotal(prices.search, usage, tenant, Lit("search"))
    + PricedTotal(prices.modelCall, usage, tenant, Lit("model_call"))
    + PricedTotal(prices.action, usage, tenant, Lit("action"))
  }

  lemma PriceTimesSum(price: int, a: int, b: int)
    ensures price * (a + b) == price * a + price * b
  {
  }

  lemma PricedTotalSnoc(price: int, usage: seq<UsageEvent>, e: UsageEvent, tenant: Str, kind: Str)
    requires e.kind == kind ==> e.cost == price * e.quantity
    ensures PricedTotal(price, usage + [e], tenant, kind) ==
            PricedTotal(price, usage, tenant, kind) + if e.tenant == tenant && e.kind == kind then e.cost else 0
  {
    TotalsSnoc(usage, e, tenant, kind);
    PriceTimesSum(price, MeteredTotal(usage, tenant, kind), e.quantity);
  }

  /** An event at list price adds its cost to the list total of its tenant. */
  lemma ListTotalSnoc(prices: PriceBook, usage: seq<UsageEvent>, e: UsageEvent, tenant: Str)
    requires ListPriced(prices, e)
    ensures ListTotal(prices, usage + [e], tenant) ==
            ListTotal(prices, usage, tenant) + if e.tenant == tenant then e.cost else 0
  {
    KindsDistinct();
    PricedTotalSnoc(prices.search, usage, e, tenant, Lit("search"));
    PricedTotalSnoc(prices.modelCall, usage, e, tenant, Lit("model_call"));
    PricedTotalSnoc(prices.action, usage, e, tenant, Lit("action"));
  }

  lemma {:induction false} CostsAreTotals(prices: PriceBook, usage: seq<UsageEvent>, tenant: Str)
    requires AtListPrice(prices, usage)
    ensures TenantCost(usage, tenant) == ListTotal(prices, usage, tenant)
  {
    if usage != [] {
      var init, e := usage[..|usage| - 1], usage[|usage| - 1];
      CostsAreTotals(prices, init, tenant);
      assert usage == init + [e] && ListPriced(prices, e);
      ListTotalSnoc(prices, init, e, tenant);
      TotalsSnoc(init, e, tenant, Lit("search"));
    }
  }

  /** After any requests, what a tenant owes is its searches, model calls and actions, each at its list price. */
  lemma BillAddsUp(d: Deployment, calls: seq<Call>, tenant: Str)
    ensures var usage := Serve(d, calls).usage;
            TenantCost(usage, tenant) ==
            d.prices.search * MeteredTotal(usage, tenant, Lit("search"))
            + d.prices.modelCall * MeteredTotal(usage, tenant, Lit("model_call"))
            + d.prices.action * MeteredTotal(usage, tenant, Lit("action"))
  {
    AlwaysAtListPrice(d, calls);
    CostsAreTotals(d.prices, Serve(d, calls).usage, tenant);
  }

  // ----- What is logged, and when a request is served -----

  /** The row appended for some fields, chained to the tenant's last one. */
  ghost predicate LoggedOnce(d: Deployment, before: seq<Audit.Row>, after: seq<Audit.Row>, f: Audit.Fields) {
    after == before + [Audit.NewRow(d.hash, f, Audit.LastHash(before, f.tenant))]
  }

  /** What a served request on one case logs and meters, by the names in the log. */
  lemma CaseRequestLogs(d: Deployment, s: System, r: Request)
    requires !r.RunPipeline? && Handle(d, s, r).Some?
    ensures var t, key, log := Handle(d, s, r).value, Cases.Key(r.tenant, r.id), (action, detail) =>
              Audit.Fields(r.tenant, r.actor, action, Lit("investigation"), r.id, detail);
            && (r.Approve? ==>
                  LoggedOnce(d, s.audit, t.audit, log(Lit("action.approved"),
                    [Entry(Lit("action_index"), Num(r.index))])))
            && (r.Execute? ==>
                  && Cases.InRange(s.store, key, r.index) && r.report.Some?
                  && LoggedOnce(d, s.audit, t.audit, log(Lit("action.executed"),
                       [Entry(Lit("action_index"), Num(r.index)),
                        Entry(Lit("action_type"), Text(s.store.rows[key].payload.actions[r.index].actionType)),
                        Entry(Lit("status"), Text(r.report.value.status))])))
            && (r.Transition? ==>
                  LoggedOnce(d, s.audit, t.audit, log(Lit("case.status_changed"),
                    [Entry(Lit("status"), Text(r.target))])))
            && (r.Assign? ==>
                  LoggedOnce(d, s.audit, t.audit, log(Lit("case.assigned"),
                    [Entry(Lit("assignee"), if r.assignee.Some? then Text(r.assignee.value) else Null)])))
            && t.usage == s.usage + if r.Execute? then [UsageEvent(r.tenant, Lit("action"), 1, d.prices.action, r.now)]
                                    else []
  {
    KindsDistinct();
    if r.Execute? { PricesExact(d.prices, ActionKind(), 1, 1); }
  }

  /** What a served run logs for one investigation. */
  ghost predicate CreationLogged(row: Audit.Row, tenant: Str, actor: Str, inv: Investigation) {
    row.fields == Audit.Fields(tenant, actor, Lit("investigation.created"), Lit("investigation"), inv.id,
      [Entry(Lit("severity"), Text(match inv.detection.severity
                                   case Info => Lit("info") case Low => Lit("low") case Medium => Lit("medium")
                                   case High => Lit("high") case Critical => Lit("critical"))),
       Entry(Lit("title"), Text(inv.detection.title))])
  }

  /** One creation entry after the other, and nothing else. */
  ghost predicate CreationsLogged(
      before: seq<Audit.Row>, after: seq<Audit.Row>, tenant: Str, actor: Str, found: seq<Investigation>)
  {
    && |after| == |before| + |found| && before <= after
    && forall i :: 0 <= i < |found| ==> CreationLogged(after[|before| + i], tenant, actor, found[i])
  }

  lemma OneMoreLogged(
      before: seq<Audit.Row>, after: seq<Audit.Row>, tenant: Str, actor: Str, found: seq<Investigation>, row: Audit.Row)
    requires found != [] && CreationsLogged(before, after, tenant, actor, found[..|found| - 1])
    requires CreationLogged(row, tenant, actor, found[|found| - 1])
    ensures CreationsLogged(before, after + [row], tenant, actor, found)
  {
    var n, all := |found| - 1, after + [row];
    forall i | 0 <= i < |found| ensures CreationLogged(all[|before| + i], tenant, actor, found[i]) {
      if i < n { assert CreationLogged(after[|before| + i], tenant, actor, found[..n][i]); }
    }
  }

  lemma CreatedEntryLogs(hash: Audit.Hash, prev: Str, tenant: Str, actor: Str, inv: Investigation)
    ensures CreationLogged(Audit.NewRow(hash, CreatedEntry(tenant, actor, inv), prev), tenant, actor, inv)
  {
  }

  lemma {:induction false} SavedAllLogs(d: Deployment, s: System, tenant: Str, actor: Str, found: seq<Investigation>)
    ensures CreationsLogged(s.audit, SavedAll(d, s, tenant, actor, found).audit, tenant, actor, found)
  {
    if found != [] {
      var init, last := found[..|found| - 1], found[|found| - 1];
      var before := SavedAll(d, s, tenant, actor, init);
      SavedAllLogs(d, s, tenant, actor, init);
      var prev := Audit.LastHash(before.audit, tenant);
      CreatedEntryLogs(d.hash, prev, tenant, actor, last);
      OneMoreLogged(s.audit, before.audit, tenant, actor, found,
                    Audit.NewRow(d.hash, CreatedEntry(tenant, actor, last), prev));
    }
  }

  lemma RunMeters(d: Deployment, s: System, r: Request)
    requires r.RunPipeline?
    ensures RunMetered(d, s, r).audit == s.audit
    ensures RunMetered(d, s, r).usage == s.usage
              + [UsageEvent(r.tenant, Lit("search"), r.enabledRules, d.prices.search * r.enabledRules, r.now)]
              + if r.found == [] then []
                else [UsageEvent(r.tenant, Lit("model_call"), |r.found|, d.prices.modelCall * |r.found|, r.now)]
  {
    KindsDistinct();
  }

  /** What a served run logs and meters: a creation entry per investigation, in order; a search and a model event. */
  lemma RunLogs(d: Deployment, s: System, r: Request)
    requires r.RunPipeline? && Handle(d, s, r).Some?
    ensures var t, n := Handle(d, s, r).value, |r.found|;
            && CreationsLogged(s.audit, t.audit, r.tenant, r.actor, r.found)
            && t.usage == s.usage
                 + [UsageEvent(r.tenant, Lit("search"), r.enabledRules, d.prices.search * r.enabledRules, r.now)]
                 + if r.found == [] then []
                   else [UsageEvent(r.tenant, Lit("model_call"), n, d.prices.modelCall * n, r.now)]
  {
    SavedAllLogs(d, RunMetered(d, s, r), r.tenant, r.actor, r.found);
    SavedAllUsage(d, RunMetered(d, s, r), r.tenant, r.actor, r.found);
    RunMeters(d, s, r);
  }

  /** A run is served exactly when its searches fit the plan's month and no other tenant holds an id it saves. */
  lemma RunServedIff(d: Deployment, s: System, r: Request)
    requires r.RunPipeline?
    ensures var limit := Quotas.LimitFor(r.plan, Lit("search"));
            Handle(d, s, r).Some? <==>
              && (limit == -1 ||
                  Quotas.UsedThisMonth(s.usage, r.tenant, Lit("search"), r.monthStart) + r.enabledRules <= limit)
              && forall i, key :: 0 <= i < |r.found| && key in s.store.rows && key.id == r.found[i].id ==>
                   key.tenant == r.tenant
  {
    Quotas.StatusExact(s.usage, r.tenant, r.plan, SearchKind(), r.enabledRules, r.monthStart);
    if i :| 0 <= i < |r.found| && Cases.HeldElsewhere(s.store.rows, r.tenant, r.found[i].id) {
      var key :| key in s.store.rows && key.id == r.found[i].id && key.tenant != r.tenant;
    }
    forall i, key | 0 <= i < |r.found| && key in s.store.rows && key.id == r.found[i].id && key.tenant != r.tenant
      ensures Clashes(s.store.rows, r.tenant, r.found)
    {
      assert Cases.HeldElsewhere(s.store.rows, r.tenant, r.found[i].id);
    }
  }

  /** All or nothing: what is not served, or raises later, leaves every table as it was. */
  lemma StepIsAtomic(d: Deployment, s: System, r: Request, raises: bool)
    ensures var t := Step(d, s, r, raises);
            if Handle(d, s, r).Some? && !raises then t == Handle(d, s, r).value
            else t.store.rows == s.store.rows && t.audit == s.audit && t.usage == s.usage
  {
  }

  // ----- The routes -----

  class Routes {
    const repo: Cases.InvestigationRepository
    const audit: Audit.AuditService
    const metering: MeteringService
    const board: Reporting.IncidentRepository

    constructor (hash: Audit.Hash, prices: PriceBook)
      ensures fresh(repo) && fresh(audit) && fresh(metering) && fresh(board)
      ensures Deployed() == Deployment(hash, prices)
      ensures State() == Serve(Deployed(), [])
    {
      repo := new Cases.InvestigationRepository();
      audit := new Audit.AuditService(hash);
      metering := new MeteringService(prices);
      board := new Reporting.IncidentRepository();
    }

    function Deployed(): Deployment {
      Deployment(audit.hash, metering.prices)
    }

    ghost function State(): System
      reads repo, audit, metering
    {
      System(repo.State(), audit.table, metering.table)
    }

    /** Roll the session back to the tables as they were. */
    method Restore(rows: map<Cases.Key, Cases.Row>, table: seq<Audit.Row>, usage: seq<UsageEvent>)
      modifies repo`rows, audit`table, metering`table
      ensures repo.rows == rows && audit.table == table && metering.table == usage
    {
      repo.rows, audit.table, metering.table := rows, table, usage;
    }

    method CountEnabled(rules: seq<Detecting.Rule>, disabled: set<Str>) returns (n: nat)
      ensures n == Detecting.EnabledCount(rules, disabled)
    {
      n := 0;
      for i := 0 to |rules|
        invariant n == Detecting.EnabledCount(rules[..i], disabled)
      {
        assert rules[..i + 1][..i] == rules[..i];
        if rules[i].ruleId !in disabled { n := n + 1; }
      }
      assert rules[..|rules|] == rules;
    }

    /** Save and audit one investigation; false when the insert fails. */
    method SaveOne(tenant: Str, actor: Str, inv: Investigation) returns (ok: bool)
      modifies repo, audit
      ensures ok <==> !Cases.HeldElsewhere(old(repo.rows), tenant, inv.id)
      ensures State() == if ok then SavedOne(Deployed(), old(State()), tenant, actor, inv) else old(State())
    {
      var reply := repo.SaveInvestigation(tenant, inv);
      if reply.Refused? { return false; }
      var f := CreatedEntry(tenant, actor, inv);
      var entry := audit.Record(f.tenant, f.actor, f.action, f.targetType, f.targetId, Some(f.detail));
      ok := true;
    }

    /** Save and audit a batch; false when an insert fails on an id that another tenant holds. */
    method SaveAll(tenant: Str, actor: Str, found: seq<Investigation>) returns (ok: bool)
      modifies repo, audit
      ensures ok <==> !Clashes(old(repo.rows), tenant, found)
      ensures ok ==> State() == SavedAll(Deployed(), old(State()), tenant, actor, found)
      ensures repo.marks == old(repo.marks)
    {
      ghost var d, s := Deployed(), State();
      for i := 0 to |found|
        invariant State() == SavedAll(d, s, tenant, actor, found[..i])
        invariant repo.marks == s.store.marks
        invariant !Clashes(s.store.rows, tenant, found[..i])
      {
        ok := SaveOne(tenant, actor, found[i]);
        SavedAllStep(d, s, tenant, actor, found, i);
        if !ok { return; }
      }
      assert found[..|found|] == found;
      ok := true;
    }

    /**
     The pipeline route: check the search quota, run the pipeline, meter the work, save and audit every investigation,
     and replace the tenant's incidents by those of its first page of cases. An exception rolls everything back.
     */
    method RunInvestigations(
        orch: Pipeline.Orchestrator, tenant: Str, actor: Str, plan: Str, disabled: set<Str>, start: int,
        world: Detecting.World, ids: nat -> Str, verdicts: nat -> Verdict, monthStart: int, now: int, raises: bool)
      returns (served: bool)
      modifies repo, audit, metering, board, orch.detector.breaker
      ensures var rules, breaker := orch.detector.rules, old(orch.detector.breaker.State());
              var sweep := Detecting.Sweeping(breaker, rules, disabled, start, world, |rules|);
              var found := Pipeline.AllInvestigated(orch.provider, ids, verdicts, sweep.detections);
              var wanted := Detecting.EnabledCount(rules, disabled);
              var r := RunPipeline(tenant, actor, plan, wanted, found, monthStart, now);
              var ends := raises || sweep.failure.Some?;
              && State() == Step(Deployed(), old(State()), r, ends)
              && (served <==> Handle(Deployed(), old(State()), r).Some? && !ends)
              && (served ==> sweep.answered == wanted)
              && if served
                 then && tenant in board.incidents
                      && board.incidents == old(board.incidents)[tenant := board.incidents[tenant]]
                      && Reporting.ReportsFirstPage(board.incidents[tenant], repo.rows, tenant)
                 else board.incidents == old(board.incidents)
      ensures SearchesGrow(old(metering.table), metering.table, tenant,
                           if served then |Detecting.EnabledRules(orch.detector.rules, disabled)| else 0)
      ensures Cases.IdsMatch(old(repo.rows)) ==> Cases.IdsMatch(repo.rows)
    {
      var enabledRules := CountEnabled(orch.detector.rules, disabled);
      Detecting.CountIsSize(orch.detector.rules, disabled);
      var quota := Quotas.Status(metering.table, tenant, plan, SearchKind(), enabledRules, monthStart);
      if !quota.allowed { return false; }
      ghost var d, s, breaker := Deployed(), State(), orch.detector.breaker.State();
      var found, failed := orch.RunFullPipeline(disabled, start, world, ids, verdicts);
      if failed { return false; }
      Detecting.CompletedRunDetects(breaker, orch.detector.rules, disabled, start, world);
      ghost var r := RunPipeline(tenant, actor, plan, enabledRules, found, monthStart, now);
      StepKeepsIdsIf(d, s, Call(r, raises));
      served := SaveRun(tenant, actor, plan, enabledRules, found, monthStart, now, raises);
      if served { RunGrowsSearches(d, s, r); }
    }

    /** What the route does with the investigations of a run that the quota allowed. */
    method SaveRun(
        tenant: Str, actor: Str, ghost plan: Str, enabledRules: nat, found: seq<Investigation>, ghost monthStart: int,
        now: int, raises: bool)
      returns (served: bool)
      requires QuotaAllows(State(), tenant, plan, enabledRules, monthStart)
      modifies repo, audit, metering, board
      ensures var r := RunPipeline(tenant, actor, plan, enabledRules, found, monthStart, now);
              && State() == Step(Deployed(), old(State()), r, raises)
              && (served <==> Handle(Deployed(), old(State()), r).Some? && !raises)
              && if served
                 then && tenant in board.incidents
                      && board.incidents == old(board.incidents)[tenant := board.incidents[tenant]]
                      && Reporting.ReportsFirstPage(board.incidents[tenant], repo.rows, tenant)
                 else board.incidents == old(board.incidents)
    {
      var rows, table, usage := repo.rows, audit.table, metering.table;
      var event := metering.Record(tenant, SearchKind(), enabledRules, now);
      if found != [] { event := metering.Record(tenant, ModelCallKind(), |found|, now); }
      var saved := SaveAll(tenant, actor, found);
      if !saved || raises {
        Restore(rows, table, usage);
        return false;
      }
      ReplaceIncidents(tenant);
      served := true;
    }

    method ReplaceIncidents(tenant: Str)
      modifies board
      ensures tenant in board.incidents && board.incidents == old(board.incidents)[tenant := board.incidents[tenant]]
      ensures Reporting.ReportsFirstPage(board.incidents[tenant], repo.rows, tenant)
    {
      var page := Reporting.FirstPage(repo.rows, tenant);
      var items := Reporting.Payloads(repo.rows, page);
      var incidents := Reporting.Report(items);
      if Cases.IdsMatch(repo.rows) {
        Reporting.PageIdsUnique(repo.rows, tenant, page);
        Reporting.ReportsHaveWorstScores(incidents, items);
      }
      board.ReplaceAll(tenant, incidents);
    }

    method ApproveAction(tenant: Str, actor: Str, id: Str, index: int)
      modifies repo, audit
      ensures State() == Step(Deployed(), old(State()), Approve(tenant, actor, id, index), false)
    {
      var reply := repo.ApproveAction(tenant, id, index);
      if reply.Refused? { return; }
      var entry := audit.Record(tenant, actor, Approved(), Lit("investigation"), id,
                                Some([Entry(Lit("action_index"), Num(index))]));
    }

    /** The execute route; `raises` when something after the execution, such as a notification, fails. */
    method ExecuteAction(
        tenant: Str, actor: Str, id: Str, index: int,
        executor: (Str, Str) -> Option<Cases.Report>, now: int, raises: bool)
      modifies repo, audit, metering
      ensures var key := Cases.Key(tenant, id);
              var report := if Cases.InRange(old(State()).store, key, index)
                            then var a := old(repo.rows)[key].payload.actions[index]; executor(a.actionType, a.target)
                            else None;
              State() == Step(Deployed(), old(State()), Execute(tenant, actor, id, index, report, now), raises)
    {
      ghost var s := State();
      ghost var key := Cases.Key(tenant, id);
      ghost var report := if Cases.InRange(s.store, key, index)
                          then var a := repo.rows[key].payload.actions[index]; executor(a.actionType, a.target)
                          else None;
      var rows, table, usage := repo.rows, audit.table, metering.table;
      var reply := repo.ExecuteAction(tenant, id, index, executor);
      if reply.Refused? {
        assert State() == Step(Deployed(), s, Execute(tenant, actor, id, index, report, now), raises);
        return;
      }
      var executed := reply.inv.actions[index];
      var event := metering.Record(tenant, ActionKind(), 1, now);
      var f := ExecutedEntry(tenant, actor, id, index, executed);
      var entry := audit.Record(f.tenant, f.actor, f.action, f.targetType, f.targetId, Some(f.detail));
      if raises { Restore(rows, table, usage); }
      assert State() == Step(Deployed(), s, Execute(tenant, actor, id, index, report, now), raises);
    }

    method TransitionStatus(tenant: Str, actor: Str, id: Str, target: Str, now: int)
      modifies repo, audit
      ensures State() == Step(Deployed(), old(State()), Transition(tenant, actor, id, target, now), false)
    {
      var reply := repo.TransitionStatus(tenant, id, target, now);
      if reply.Refused? { return; }
      var entry := audit.Record(tenant, actor, StatusChanged(), Lit("investigation"), id,
                                Some([Entry(Lit("status"), Text(target))]));
    }

    method AssignInvestigation(tenant: Str, actor: Str, id: Str, assignee: Option<Str>)
      modifies repo, audit
      ensures State() == Step(Deployed(), old(State()), Assign(tenant, actor, id, assignee), false)
    {
      var reply := repo.SetAssignee(tenant, id, assignee);
      if reply.Refused? { return; }
      var entry := audit.Record(tenant, actor, Assigned(), Lit("investigation"), id,
                                Some([Entry(Lit("assignee"), TextOrNull(assignee))]));
    }
  }
}
