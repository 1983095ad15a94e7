/**
 The case lifecycle: rows that keep a queryable header beside the full investigation, the status workflow,
 and the approve-then-execute gate.
 */
module Cases {
  import opened Basics
  import opened Domain
  import opened Risk

  // ----- Planning a response -----

  function GatedActions(): set<Str> {
    {Lit("isolate_host"), Lit("disable_user"), Lit("block_ip"), Lit("kill_process")}
  }

  /** The changes of the environment that a person has to approve first. */
  predicate MustBeApproved(actionType: Str) {
    || actionType == Lit("isolate_host") || actionType == Lit("disable_user")
    || actionType == Lit("block_ip") || actionType == Lit("kill_process")
  }

  function PassiveActions(): set<Str> {
    {Lit("monitor"), Lit("close_as_fp"), Lit("manual_review")}
  }

  function PlannedAction(actionType: Str, target: Str): Action {
    Action(actionType, target, actionType in GatedActions(), false, None, None, None)
  }

  /** The actions planned for the suggestions of a true positive, in order; every one aims at the affected entity. */
  function Planned(suggested: seq<Str>, entity: Str): seq<Action> {
    if suggested == [] then []
    else
      var before, s := Planned(suggested[..|suggested| - 1], entity), suggested[|suggested| - 1];
      if s in PassiveActions() then before else before + [PlannedAction(s, entity)]
  }

  function TypesOf(actions: seq<Action>): seq<Str> {
    seq(|actions|, i requires 0 <= i < |actions| => actions[i].actionType)
  }

  /**
   What is planned, told without the planner's tables: the types are the suggestions other than the three passive ones,
   in order and with repetitions; each aims at the entity, unexecuted, awaiting approval exactly for the four types
   that change the environment.
   */
  lemma {:induction false} PlannedExactly(suggested: seq<Str>, entity: Str)
    ensures TypesOf(Planned(suggested, entity)) ==
            Filter((s: Str) => s != Lit("monitor") && s != Lit("close_as_fp") && s != Lit("manual_review"), suggested)
    ensures forall a :: a in Planned(suggested, entity) ==>
              var gated :=
                a.actionType in {Lit("isolate_host"), Lit("disable_user"), Lit("block_ip"), Lit("kill_process")};
              a == Action(a.actionType, entity, gated, false, None, None, None)
  {
    if suggested != [] {
      var before, s := Planned(suggested[..|suggested| - 1], entity), suggested[|suggested| - 1];
      PlannedExactly(suggested[..|suggested| - 1], entity);
      assert TypesOf(before + [PlannedAction(s, entity)]) == TypesOf(before) + [s];
    }
  }

  method Plan(detection: Detection, verdict: Verdict) returns (actions: seq<Action>)
    ensures actions == if verdict.isTruePositive then Planned(verdict.suggested, detection.entity) else []
    ensures verdict.isTruePositive ==>
              (TypesOf(actions) ==
               Filter((s: Str) => s != Lit("monitor") && s != Lit("close_as_fp") && s != Lit("manual_review"),
                      verdict.suggested))
    ensures forall a :: a in actions ==>
              && a.target == detection.entity && !a.executed
              && (a.requiresApproval <==>
                    a.actionType in {Lit("isolate_host"), Lit("disable_user"), Lit("block_ip"), Lit("kill_process")})
  {
    if !verdict.isTruePositive { return []; }
    actions := [];
    for i := 0 to |verdict.suggested|
      invariant actions == Planned(verdict.suggested[..i], detection.entity)
    {
      assert verdict.suggested[..i + 1][..i] == verdict.suggested[..i];
      var actionType := verdict.suggested[i];
      if actionType in PassiveActions() { continue; }
      var gated := actionType in GatedActions();
      actions := actions + [Action(actionType, detection.entity, gated, false, None, None, None)];
    }
    assert verdict.suggested[..|verdict.suggested|] == verdict.suggested;
    PlannedExactly(verdict.suggested, detection.entity);
  }

  /** Turn a detection, its context and its verdict into an investigation. */
  method Investigate(id: Str, detection: Detection, enrichment: Enrichment, verdict: Verdict)
    returns (inv: Investigation)
    ensures inv.id == id && inv.verdict == Some(verdict) && inv.assignee == None
    ensures inv.detection.status == if verdict.isTruePositive then Investigating else FalsePositive
    ensures inv.detection.severity == verdict.recommended
    ensures inv.detection.context.indicators == Some(enrichment.indicators)
    ensures var e := enrichment;
            && inv.detection.context.riskBoost ==
               Some(Round3(Multiplier(e.assetCriticality, Malicious(e.threatIntel), Privileged(e.identityContext))))
            && 0.95 <= inv.detection.context.riskBoost.value <= 1.869
    ensures inv.actions == if verdict.isTruePositive then Planned(verdict.suggested, detection.entity) else []
    ensures inv.detection == detection.(status := inv.detection.status, severity := verdict.recommended,
                                        context := inv.detection.context)
    ensures AsPlanned(inv)
  {
    var mult := enrichment.Boost();
    StoredBoostBounds(mult);
    var d := detection.(context := Context(Some(enrichment.indicators), Some(Round3(mult))));
    var actions := Plan(d, verdict);
    d := d.(status := if verdict.isTruePositive then Investigating else FalsePositive);
    d := d.(severity := verdict.recommended);
    inv := Investigation(id, d, Some(verdict), actions, None);
  }

  /** What the pipeline hands to the repository: an opening status, nobody assigned, actions as planned. */
  ghost predicate AsPlanned(inv: Investigation) {
    && inv.detection.status in {Investigating, FalsePositive}
    && inv.assignee == None
    && forall a :: a in inv.actions ==> !a.executed && (a.requiresApproval <==> MustBeApproved(a.actionType))
  }

  // ----- The status workflow -----

  function Allowed(s: Status): set<Status> {
    match s
    case New => {Triaged, FalsePositive}
    case Triaged => {Investigating, FalsePositive}
    case Investigating => {Contained, Resolved, FalsePositive}
    case Contained => {Resolved, Investigating}
    case Resolved => {Investigating}
    case FalsePositive => {Investigating}
  }

  predicate CanTransition(current: Status, target: Status) {
    target in Allowed(current)
  }

  function StatusText(s: Status): Str {
    match s
    case New => Lit("new")
    case Triaged => Lit("triaged")
    case Investigating => Lit("investigating")
    case Contained => Lit("contained")
    case Resolved => Lit("resolved")
    case FalsePositive => Lit("false_positive")
  }

  function ParseStatus(t: Str): Option<Status> {
    if t == Lit("new") then Some(New)
    else if t == Lit("triaged") then Some(Triaged)
    else if t == Lit("investigating") then Some(Investigating)
    else if t == Lit("contained") then Some(Contained)
    else if t == Lit("resolved") then Some(Resolved)
    else if t == Lit("false_positive") then Some(FalsePositive)
    else None
  }

  // ----- Rows -----

  datatype Key = Key(tenant: Str, id: Str)

  datatype Row = Row(
    title: Str, severity: Severity, status: Status, entity: Str,
    riskScore: int, isTruePositive: Option<bool>, assignee: Option<Str>,
    acknowledgedAt: Option<int>, containedAt: Option<int>,
    payload: Investigation)

  function VerdictColumn(inv: Investigation): Option<bool> {
    if inv.verdict.Some? then Some(inv.verdict.value.isTruePositive) else None
  }

  /** Every header column equals what is computed from the payload. */
  ghost predicate HeaderAgrees(r: Row) {
    && r.title == r.payload.detection.title && r.severity == r.payload.detection.severity
    && r.status == r.payload.detection.status && r.entity == r.payload.detection.entity
    && r.riskScore == RiskFrom(r.payload) && r.isTruePositive == VerdictColumn(r.payload)
    && r.assignee == r.payload.assignee
  }

  /** The row written by a save: a fresh row has no assignee column; an existing row keeps its own. */
  function SavedRow(existing: Option<Row>, inv: Investigation): Row {
    var d := inv.detection;
    if existing.None? then
      Row(d.title, d.severity, d.status, d.entity, RiskFrom(inv), VerdictColumn(inv), None, None, None, inv)
    else
      existing.value.(title := d.title, severity := d.severity, status := d.status, entity := d.entity,
                      riskScore := RiskFrom(inv), isTruePositive := VerdictColumn(inv), payload := inv)
  }

  /** Saving keeps header and payload in agreement exactly when the assignee column it leaves is the payload's. */
  lemma SaveAgreesIff(existing: Option<Row>, inv: Investigation)
    ensures HeaderAgrees(SavedRow(existing, inv)) <==>
              inv.assignee == if existing.Some? then existing.value.assignee else None
  {
  }

  function AssignedRow(r: Row, assignee: Option<Str>): Row {
    r.(assignee := assignee, payload := r.payload.(assignee := assignee))
  }

  function ApprovedRow(r: Row, i: nat): Row
    requires i < |r.payload.actions|
  {
    var actions := r.payload.actions;
    r.(payload := r.payload.(actions := actions[i := actions[i].(requiresApproval := false)]))
  }

  /** What an executor reports back. */
  datatype Report = Report(status: Str, detail: Str, rollbackToken: Option<Str>)

  function WithStatus(inv: Investigation, s: Status): Investigation {
    inv.(detection := inv.detection.(status := s))
  }

  function ExecutedRow(r: Row, i: nat, report: Report): Row
    requires i < |r.payload.actions|
  {
    var actions := r.payload.actions;
    var done := actions[i].(executed := true, executionStatus := Some(report.status),
                            executionDetail := Some(report.detail), rollbackToken := report.rollbackToken);
    var payload := r.payload.(actions := actions[i := done]);
    if r.status == Investigating then r.(status := Contained, payload := WithStatus(payload, Contained))
    else r.(payload := payload)
  }

  function MovedRow(r: Row, target: Status, now: int): Row {
    r.(status := target, payload := WithStatus(r.payload, target),
       acknowledgedAt := if target == Investigating && r.acknowledgedAt.None? then Some(now) else r.acknowledgedAt,
       containedAt := if target == Contained && r.containedAt.None? then Some(now) else r.containedAt)
  }

  // ----- The repository as a state machine -----

  /** What happens to actions, in order: successful approvals, and calls that reach the executor. */
  datatype Mark = Approval(key: Key, index: int) | Dispatch(key: Key, index: int, actionType: Str, target: Str)

  datatype Store = Store(rows: map<Key, Row>, marks: seq<Mark>)

  datatype Reason = NotFound | OutOfRange | NotApproved | InvalidStatus | IllegalTransition | ExecutorFailed | IdTaken

  datatype Reply = Done(inv: Investigation) | Refused(reason: Reason)

  datatype Op =
    | Save(tenant: Str, inv: Investigation)
    | Assign(key: Key, assignee: Option<Str>)
    | Approve(key: Key, index: int)
    | Execute(key: Key, index: int, report: Option<Report>)  // None: the connector raises
    | Transition(key: Key, target: Str, now: int)

  predicate InRange(s: Store, key: Key, index: int) {
    key in s.rows && 0 <= index < |s.rows[key].payload.actions|
  }

  /** Ids are the primary key by themselves: one stored under another tenant makes an insert fail. */
  predicate HeldElsewhere(rows: map<Key, Row>, tenant: Str, id: Str) {
    exists key :: key in rows && key.id == id && key.tenant != tenant
  }

  function StoredOf(rows: map<Key, Row>, tenant: Str): set<Key> {
    set key | key in rows && key.tenant == tenant
  }

  function ApplySave(s: Store, tenant: Str, inv: Investigation): Store {
    var key := Key(tenant, inv.id);
    s.(rows := s.rows[key := SavedRow(if key in s.rows then Some(s.rows[key]) else None, inv)])
  }

  function ApplyAssign(s: Store, key: Key, assignee: Option<Str>): (Store, Reply) {
    if key !in s.rows then (s, Refused(NotFound))
    else var r := AssignedRow(s.rows[key], assignee); (s.(rows := s.rows[key := r]), Done(r.payload))
  }

  function ApplyApprove(s: Store, key: Key, index: int): (Store, Reply) {
    if !InRange(s, key, index) then (s, Refused(NotFound))
    else
      var r := ApprovedRow(s.rows[key], index);
      (Store(s.rows[key := r], s.marks + [Approval(key, index)]), Done(r.payload))
  }

  function ApplyExecute(s: Store, key: Key, index: int, report: Option<Report>): (Store, Reply) {
    if key !in s.rows then (s, Refused(NotFound))
    else if !InRange(s, key, index) then (s, Refused(OutOfRange))
    else
      var a := s.rows[key].payload.actions[index];
      if a.requiresApproval then (s, Refused(NotApproved))
      else
        var marks := s.marks + [Dispatch(key, index, a.actionType, a.target)];
        if report.None? then (s.(marks := marks), Refused(ExecutorFailed))
        else
          var r := ExecutedRow(s.rows[key], index, report.value);
          (Store(s.rows[key := r], marks), Done(r.payload))
  }

  function ApplyTransition(s: Store, key: Key, target: Str, now: int): (Store, Reply) {
    if key !in s.rows then (s, Refused(NotFound))
    else if ParseStatus(target).None? then (s, Refused(InvalidStatus))
    else if !CanTransition(s.rows[key].status, ParseStatus(target).value) then (s, Refused(IllegalTransition))
    else
      var r := MovedRow(s.rows[key], ParseStatus(target).value, now);
      (s.(rows := s.rows[key := r]), Done(r.payload))
  }

  /** One operation: the store it leaves and its answer. */
  function Attempt(s: Store, op: Op): (Store, Reply) {
    match op
    case Save(tenant, inv) =>
      if HeldElsewhere(s.rows, tenant, inv.id) then (s, Refused(IdTaken)) else (ApplySave(s, tenant, inv), Done(inv))
    case Assign(key, assignee) => ApplyAssign(s, key, assignee)
    case Approve(key, index) => ApplyApprove(s, key, index)
    case Execute(key, index, report) => ApplyExecute(s, key, index, report)
    case Transition(key, target, now) => ApplyTransition(s, key, target, now)
  }

  function Apply(s: Store, op: Op): Store {
    Attempt(s, op).0
  }

  function KeyOf(op: Op): Key {
    match op
    case Save(tenant, inv) => Key(tenant, inv.id)
    case Assign(key, _) => key
    case Approve(key, _) => key
    case Execute(key, _, _) => key
    case Transition(key, _, _) => key
  }

  /** What an operation makes of the row it reads; a refused one leaves it as it is. */
  function RowAfter(r: Row, op: Op): Row {
    match op
    case Save(_, _) => r
    case Assign(_, assignee) => AssignedRow(r, assignee)
    case Approve(_, index) => if 0 <= index < |r.payload.actions| then ApprovedRow(r, index) else r
    case Execute(_, index, report) =>
      if 0 <= index < |r.payload.actions| && !r.payload.actions[index].requiresApproval && report.Some?
      then ExecutedRow(r, index, report.value) else r
    case Transition(_, target, now) =>
      var to := ParseStatus(target);
      if to.Some? && CanTransition(r.status, to.value) then MovedRow(r, to.value, now) else r
  }

  lemma AttemptRow(s: Store, op: Op)
    requires !op.Save? && KeyOf(op) in s.rows
    ensures Apply(s, op).rows == s.rows[KeyOf(op) := RowAfter(s.rows[KeyOf(op)], op)]
    ensures s.marks <= Apply(s, op).marks
    ensures Attempt(s, op).1.Done? ==> Attempt(s, op).1.inv == RowAfter(s.rows[KeyOf(op)], op).payload
  {
    assert s.rows == s.rows[KeyOf(op) := s.rows[KeyOf(op)]];
  }

  /** Every payload carries the id of its row. */
  ghost predicate IdsMatch(rows: map<Key, Row>) {
    forall key :: key in rows ==> rows[key].payload.id == key.id
  }

  lemma ApplyKeepsIds(s: Store, op: Op)
    requires IdsMatch(s.rows)
    ensures IdsMatch(Apply(s, op).rows)
  {
    if !op.Save? && KeyOf(op) in s.rows { AttemptRow(s, op); }
  }

  ghost predicate FreshId(rows: map<Key, Row>, id: Str) {
    forall key :: key in rows ==> key.id != id
  }

  /** Saves are of freshly planned investigations under ids that no tenant has stored. */
  ghost predicate Fresh(s: Store, op: Op) {
    op.Save? ==> FreshId(s.rows, op.inv.id) && AsPlanned(op.inv)
  }

  function Run(ops: seq<Op>): Store {
    if ops == [] then Store(map[], []) else Apply(Run(ops[..|ops| - 1]), ops[|ops| - 1])
  }

  ghost predicate FreshRun(ops: seq<Op>) {
    forall i :: 0 <= i < |ops| ==> Fresh(Run(ops[..i]), ops[i])
  }

  // ----- What every state keeps -----

  ghost predicate ApprovedBefore(marks: seq<Mark>, n: int, key: Key, index: int) {
    exists i :: 0 <= i < n && i < |marks| && marks[i] == Approval(key, index)
  }

  /** A gated action that no longer waits for approval was approved; an executed action waits for none. */
  ghost predicate ActionKept(marks: seq<Mark>, key: Key, index: int, a: Action) {
    && (a.executed ==> !a.requiresApproval)
    && (MustBeApproved(a.actionType) && !a.requiresApproval ==> ApprovedBefore(marks, |marks|, key, index))
  }

  ghost predicate ActionsKept(marks: seq<Mark>, key: Key, inv: Investigation) {
    forall i :: 0 <= i < |inv.actions| ==> ActionKept(marks, key, i, inv.actions[i])
  }

  ghost predicate RowKept(marks: seq<Mark>, key: Key, r: Row) {
    && HeaderAgrees(r) && r.payload.id == key.id
    && r.status in {Investigating, FalsePositive, Contained, Resolved}
    && ActionsKept(marks, key, r.payload)
  }

  /** Every call that reached the executor with a gated type came after an approval of the same action. */
  ghost predicate DispatchesGated(marks: seq<Mark>) {
    forall j :: 0 <= j < |marks| && marks[j].Dispatch? && MustBeApproved(marks[j].actionType) ==>
      ApprovedBefore(marks, j, marks[j].key, marks[j].index)
  }

  ghost predicate Kept(s: Store) {
    && DispatchesGated(s.marks)
    && forall key :: key in s.rows ==> RowKept(s.marks, key, s.rows[key])
  }

  lemma ApprovedStays(marks: seq<Mark>, more: seq<Mark>, n: int, key: Key, index: int)
    requires marks <= more && n <= |marks| && ApprovedBefore(marks, n, key, index)
    ensures ApprovedBefore(more, n, key, index) && ApprovedBefore(more, |more|, key, index)
  {
    var i :| 0 <= i < n && i < |marks| && marks[i] == Approval(key, index);
    assert more[i] == Approval(key, index);
  }

  lemma ActionsStay(marks: seq<Mark>, more: seq<Mark>, key: Key, inv: Investigation)
    requires marks <= more && ActionsKept(marks, key, inv)
    ensures ActionsKept(more, key, inv)
  {
    forall i | 0 <= i < |inv.actions| ensures ActionKept(more, key, i, inv.actions[i]) {
      assert ActionKept(marks, key, i, inv.actions[i]);
      if ApprovedBefore(marks, |marks|, key, i) { ApprovedStays(marks, more, |marks|, key, i); }
    }
  }

  lemma RowStays(marks: seq<Mark>, more: seq<Mark>, key: Key, r: Row)
    requires marks <= more && RowKept(marks, key, r)
    ensures RowKept(more, key, r)
  {
    ActionsStay(marks, more, key, r.payload);
  }

  lemma DispatchesStay(marks: seq<Mark>, mark: Mark)
    requires DispatchesGated(marks)
    requires mark.Dispatch? && MustBeApproved(mark.actionType) ==>
             ApprovedBefore(marks, |marks|, mark.key, mark.index)
    ensures DispatchesGated(marks + [mark])
  {
    var more := marks + [mark];
    forall j | 0 <= j < |more| && more[j].Dispatch? && MustBeApproved(more[j].actionType)
      ensures ApprovedBefore(more, j, more[j].key, more[j].index)
    {
      if j < |marks| { assert marks[j] == more[j]; }
      ApprovedStays(marks, more, j, more[j].key, more[j].index);
    }
  }

  /** Replacing one row by one that is kept, and extending the marks, keeps the store. */
  lemma StoreStays(s: Store, marks: seq<Mark>, key: Key, r: Row)
    requires Kept(s) && s.marks <= marks && DispatchesGated(marks) && RowKept(marks, key, r)
    ensures Kept(Store(s.rows[key := r], marks))
  {
    forall k | k in s.rows && k != key ensures RowKept(marks, k, s.rows[k]) { RowStays(s.marks, marks, k, s.rows[k]); }
  }

  lemma SaveKeeps(s: Store, tenant: Str, inv: Investigation)
    requires Kept(s) && Fresh(s, Save(tenant, inv))
    ensures Kept(ApplySave(s, tenant, inv))
  {
    var r := SavedRow(None, inv);
    forall i | 0 <= i < |r.payload.actions| ensures ActionKept(s.marks, Key(tenant, inv.id), i, r.payload.actions[i]) {
      assert r.payload.actions[i] in inv.actions;
    }
    StoreStays(s, s.marks, Key(tenant, inv.id), r);
  }

  /** An operation on one case keeps what its action list promises. */
  lemma EffectKeepsActions(marks: seq<Mark>, key: Key, r: Row, op: Op)
    requires ActionsKept(marks, key, r.payload) && KeyOf(op) == key
    requires op.Approve? ==> ApprovedBefore(marks, |marks|, key, op.index)
    ensures ActionsKept(marks, key, RowAfter(r, op).payload)
  {
    var after := RowAfter(r, op).payload;
    forall i | 0 <= i < |after.actions| ensures ActionKept(marks, key, i, after.actions[i]) {
      assert ActionKept(marks, key, i, r.payload.actions[i]);
    }
  }

  lemma EffectKeepsHeader(r: Row, op: Op)
    requires HeaderAgrees(r)
    ensures HeaderAgrees(RowAfter(r, op)) && RowAfter(r, op).payload.id == r.payload.id
    ensures r.status in {Investigating, FalsePositive, Contained, Resolved} ==>
              RowAfter(r, op).status in {Investigating, FalsePositive, Contained, Resolved}
  {
  }

  lemma ExecuteMarks(s: Store, key: Key, index: int, report: Option<Report>)
    requires Kept(s)
    ensures DispatchesGated(ApplyExecute(s, key, index, report).0.marks)
  {
    if InRange(s, key, index) {
      var a := s.rows[key].payload.actions[index];
      assert RowKept(s.marks, key, s.rows[key]);
      assert ActionKept(s.marks, key, index, a);
      if !a.requiresApproval { DispatchesStay(s.marks, Dispatch(key, index, a.actionType, a.target)); }
    }
  }

  lemma ApplyKeeps(s: Store, op: Op)
    requires Kept(s) && Fresh(s, op)
    ensures Kept(Apply(s, op))
  {
    var key, t := KeyOf(op), Apply(s, op);
    if op.Save? {
      SaveKeeps(s, op.tenant, op.inv);
    } else if key in s.rows {
      var r := s.rows[key];
      AttemptRow(s, op);
      if op.Execute? { ExecuteMarks(s, key, op.index, op.report); }
      if op.Approve? && t.marks != s.marks {
        DispatchesStay(s.marks, Approval(key, op.index));
        assert t.marks[|s.marks|] == Approval(key, op.index);
      }
      assert RowKept(s.marks, key, r);
      ActionsStay(s.marks, t.marks, key, r.payload);
      EffectKeepsHeader(r, op);
      if op.Approve? && !InRange(s, key, op.index) {
      } else {
        EffectKeepsActions(t.marks, key, r, op);
      }
      StoreStays(s, t.marks, key, RowAfter(r, op));
    }
  }

  lemma FreshRunPrefix(ops: seq<Op>)
    requires FreshRun(ops) && ops != []
    ensures FreshRun(ops[..|ops| - 1]) && Fresh(Run(ops[..|ops| - 1]), ops[|ops| - 1])
  {
    var before := ops[..|ops| - 1];
    forall i | 0 <= i < |before| ensures Fresh(Run(before[..i]), before[i]) {
      assert before[..i] == ops[..i];
      assert Fresh(Run(ops[..i]), ops[i]);
    }
    assert Fresh(Run(ops[..|ops| - 1]), ops[|ops| - 1]);
  }

  /** Every reachable state is kept: header columns agree with payloads, and the approval gate has held throughout. */
  lemma {:induction false} RunKeeps(ops: seq<Op>)
    requires FreshRun(ops)
    ensures Kept(Run(ops))
  {
    if ops != [] {
      FreshRunPrefix(ops);
      RunKeeps(ops[..|ops| - 1]);
      ApplyKeeps(Run(ops[..|ops| - 1]), ops[|ops| - 1]);
    }
  }

  /**
   On every run, an action that isolates a host, disables a user, blocks an address or kills a process reaches the
   executor only after an earlier approval of that very action.
   */
  lemma GatedActionsAreApprovedFirst(ops: seq<Op>, j: nat)
    requires FreshRun(ops) && j < |Run(ops).marks|
    requires Run(ops).marks[j].Dispatch?
    requires Run(ops).marks[j].actionType in {Lit("isolate_host"), Lit("disable_user"),
                                              Lit("block_ip"), Lit("kill_process")}
    ensures exists i :: 0 <= i < j && Run(ops).marks[i] == Approval(Run(ops).marks[j].key, Run(ops).marks[j].index)
  {
    RunKeeps(ops);
    var marks := Run(ops).marks;
    assert ApprovedBefore(marks, j, marks[j].key, marks[j].index);
  }

  /** How one stored row may change in a step. */
  ghost predicate RowEvolves(r: Row, s: Row) {
    && (s.status != r.status ==> CanTransition(r.status, s.status))
    && |s.payload.actions| == |r.payload.actions|
    && (forall i :: 0 <= i < |r.payload.actions| ==>
          var a, b := r.payload.actions[i], s.payload.actions[i];
          && b.actionType == a.actionType && b.target == a.target
          && (b.requiresApproval ==> a.requiresApproval) && (a.executed ==> b.executed))
    && s.title == r.title && s.severity == r.severity && s.entity == r.entity && s.riskScore == r.riskScore
    && (r.acknowledgedAt.Some? ==> s.acknowledgedAt == r.acknowledgedAt)
    && (r.containedAt.Some? ==> s.containedAt == r.containedAt)
  }

  lemma EffectEvolves(r: Row, op: Op)
    ensures RowEvolves(r, RowAfter(r, op))
  {
  }

  /**
   No step removes a row; every status change, the one made while executing included, is an edge of the
   workflow; action lists keep their length, types and targets; approval and execution are never withdrawn.
   */
  lemma StepsEvolveRows(s: Store, op: Op, key: Key)
    requires Fresh(s, op) && key in s.rows
    ensures key in Apply(s, op).rows && RowEvolves(s.rows[key], Apply(s, op).rows[key])
    ensures s.marks <= Apply(s, op).marks
  {
    if !op.Save? && KeyOf(op) in s.rows {
      AttemptRow(s, op);
      EffectEvolves(s.rows[KeyOf(op)], op);
    }
  }

  /** A step touches no case but its own. */
  lemma OnlyItsOwnCase(s: Store, op: Op, other: Key)
    requires other != KeyOf(op)
    ensures other in Apply(s, op).rows <==> other in s.rows
    ensures other in s.rows ==> Apply(s, op).rows[other] == s.rows[other]
  {
  }

  /** Approval opens the gate: the action can then be executed, its report is recorded, and no other action changes. */
  lemma ApprovalEnablesExecution(s: Store, key: Key, index: nat, report: Report)
    requires InRange(s, key, index)
    ensures var before := s.rows[key].payload.actions;
            var (t, reply) := ApplyExecute(ApplyApprove(s, key, index).0, key, index, Some(report));
            && reply.Done? && reply.inv == t.rows[key].payload && |reply.inv.actions| == |before|
            && t.rows[key].status == (if s.rows[key].status == Investigating then Contained else s.rows[key].status)
            && reply.inv.actions[index] == Action(before[index].actionType, before[index].target, false, true,
                                                  Some(report.status), Some(report.detail), report.rollbackToken)
            && (forall j :: 0 <= j < |before| && j != index ==> reply.inv.actions[j] == before[j])
            && t.marks == s.marks + [Approval(key, index),
                                     Dispatch(key, index, before[index].actionType, before[index].target)]
  {
    var t := ApplyApprove(s, key, index).0;
    assert InRange(t, key, index) && !t.rows[key].payload.actions[index].requiresApproval;
  }

  // ----- How often an action is dispatched -----

  function Dispatches(marks: seq<Mark>, key: Key, index: int): nat {
    if marks == [] then 0
    else
      var m := marks[|marks| - 1];
      Dispatches(marks[..|marks| - 1], key, index) + (if m.Dispatch? && m.key == key && m.index == index then 1 else 0)
  }

  /** An execute request for this action that finds it in range and not awaiting approval. */
  predicate Dispatching(s: Store, op: Op, key: Key, index: int) {
    && op.Execute? && op.key == key && op.index == index
    && InRange(s, key, index) && !s.rows[key].payload.actions[index].requiresApproval
  }

  function DispatchingRequests(ops: seq<Op>, key: Key, index: int): nat {
    if ops == [] then 0
    else
      var before, op := ops[..|ops| - 1], ops[|ops| - 1];
      DispatchingRequests(before, key, index) + (if Dispatching(Run(before), op, key, index) then 1 else 0)
  }

  /** On every run an action reaches the executor once for each such request: neither less nor only once. */
  lemma {:induction false} DispatchesExact(ops: seq<Op>, key: Key, index: int)
    ensures Dispatches(Run(ops).marks, key, index) == DispatchingRequests(ops, key, index)
  {
    if ops != [] {
      var before, op := ops[..|ops| - 1], ops[|ops| - 1];
      DispatchesExact(before, key, index);
      DispatchStep(Run(before), op, key, index);
    }
  }

  lemma DispatchesSnoc(marks: seq<Mark>, m: Mark, key: Key, index: int)
    ensures Dispatches(marks + [m], key, index) ==
            Dispatches(marks, key, index) + if m.Dispatch? && m.key == key && m.index == index then 1 else 0
  {
    assert (marks + [m])[..|marks|] == marks;
  }

  lemma ExecuteDispatches(s: Store, op: Op, key: Key, index: int)
    requires op.Execute?
    ensures Dispatches(ApplyExecute(s, op.key, op.index, op.report).0.marks, key, index) ==
            Dispatches(s.marks, key, index) + if Dispatching(s, op, key, index) then 1 else 0
  {
    if InRange(s, op.key, op.index) {
      var a := s.rows[op.key].payload.actions[op.index];
      DispatchesSnoc(s.marks, Dispatch(op.key, op.index, a.actionType, a.target), key, index);
    }
  }

  lemma DispatchStep(s: Store, op: Op, key: Key, index: int)
    ensures Dispatches(Apply(s, op).marks, key, index) ==
            Dispatches(s.marks, key, index) + if Dispatching(s, op, key, index) then 1 else 0
  {
    if op.Execute? { ExecuteDispatches(s, op, key, index); }
    if op.Approve? { DispatchesSnoc(s.marks, Approval(op.key, op.index), key, index); }
  }

  function AppliedTimes(s: Store, op: Op, n: nat): Store {
    if n == 0 then s else Apply(AppliedTimes(s, op, n - 1), op)
  }

  /** Sending an approved action to the executor n times dispatches it n times. */
  lemma {:induction false} ExecutionRepeats(s: Store, op: Op, n: nat)
    requires op.Execute? && Dispatching(s, op, op.key, op.index)
    ensures var t := AppliedTimes(s, op, n);
            && Dispatching(t, op, op.key, op.index)
            && Dispatches(t.marks, op.key, op.index) == Dispatches(s.marks, op.key, op.index) + n
  {
    if n > 0 {
      ExecutionRepeats(s, op, n - 1);
      StillDispatching(AppliedTimes(s, op, n - 1), op);
      DispatchStep(AppliedTimes(s, op, n - 1), op, op.key, op.index);
    }
  }

  lemma StillDispatching(s: Store, op: Op)
    requires op.Execute? && Dispatching(s, op, op.key, op.index)
    ensures Dispatching(Apply(s, op), op, op.key, op.index)
  {
    AttemptRow(s, op);
  }

  // ----- When containment is stamped -----

  /** A transition request that moves this case to contained. */
  predicate MovesToContained(s: Store, op: Op, key: Key) {
    op.Transition? && op.key == key && Attempt(s, op).1.Done? && ParseStatus(op.target) == Some(Contained)
  }

  predicate Contains(s: Store, op: Op, key: Key) {
    && key in Apply(s, op).rows && Apply(s, op).rows[key].status == Contained
    && (key in s.rows ==> s.rows[key].status != Contained)
  }

  /** Some request of the run was a transition that moved this case to contained. */
  ghost predicate OnceMoved(ops: seq<Op>, key: Key) {
    ops != [] &&
    (OnceMoved(ops[..|ops| - 1], key) || MovesToContained(Run(ops[..|ops| - 1]), ops[|ops| - 1], key))
  }

  lemma StampStep(s: Store, op: Op, key: Key)
    requires key in s.rows
    ensures key in Apply(s, op).rows
    ensures Apply(s, op).rows[key].containedAt.Some? <==>
              s.rows[key].containedAt.Some? || MovesToContained(s, op, key)
  {
  }

  lemma AppearsUnstamped(s: Store, op: Op, key: Key)
    requires key !in s.rows
    ensures !MovesToContained(s, op, key)
    ensures key in Apply(s, op).rows ==> Apply(s, op).rows[key].containedAt == None
  {
  }

  lemma {:induction false} NotYetMoved(ops: seq<Op>, key: Key)
    requires key !in Run(ops).rows
    ensures !OnceMoved(ops, key)
  {
    if ops != [] {
      var before, op := ops[..|ops| - 1], ops[|ops| - 1];
      if key in Run(before).rows {
        StampStep(Run(before), op, key);
      } else {
        NotYetMoved(before, key);
        AppearsUnstamped(Run(before), op, key);
      }
    }
  }

  /** A case carries a containment time if and only if a transition request once moved it to contained. */
  lemma {:induction false} OnlyTransitionsStampContainment(ops: seq<Op>, key: Key)
    requires key in Run(ops).rows
    ensures Run(ops).rows[key].containedAt.Some? <==> OnceMoved(ops, key)
  {
    var before, op := ops[..|ops| - 1], ops[|ops| - 1];
    if key in Run(before).rows {
      OnlyTransitionsStampContainment(before, key);
      StampStep(Run(before), op, key);
    } else {
      NotYetMoved(before, key);
      AppearsUnstamped(Run(before), op, key);
    }
  }

  /** Some request of the run contained this case. */
  ghost predicate OnceContained(ops: seq<Op>, key: Key) {
    ops != [] && (OnceContained(ops[..|ops| - 1], key) || Contains(Run(ops[..|ops| - 1]), ops[|ops| - 1], key))
  }

  /** Whatever contained this case was an execution. */
  ghost predicate ContainedByExecutionsOnly(ops: seq<Op>, key: Key) {
    ops == [] ||
    (ContainedByExecutionsOnly(ops[..|ops| - 1], key) &&
     (Contains(Run(ops[..|ops| - 1]), ops[|ops| - 1], key) ==> ops[|ops| - 1].Execute?))
  }

  /** A step that contains a case is an execution or a transition to contained. */
  lemma ContainingStep(s: Store, op: Op, key: Key)
    requires Fresh(s, op)
    ensures MovesToContained(s, op, key) <==> Contains(s, op, key) && !op.Execute?
  {
  }

  lemma {:induction false} MovedUnlessExecutedOnly(ops: seq<Op>, key: Key)
    requires FreshRun(ops)
    ensures OnceMoved(ops, key) <==> !ContainedByExecutionsOnly(ops, key)
  {
    if ops != [] {
      var before, op := ops[..|ops| - 1], ops[|ops| - 1];
      FreshRunPrefix(ops);
      MovedUnlessExecutedOnly(before, key);
      ContainingStep(Run(before), op, key);
    }
  }

  lemma {:induction false} ContainedOnce(ops: seq<Op>, key: Key)
    requires key in Run(ops).rows && Run(ops).rows[key].status == Contained
    ensures OnceContained(ops, key)
  {
    var before := ops[..|ops| - 1];
    if key in Run(before).rows && Run(before).rows[key].status == Contained { ContainedOnce(before, key); }
  }

  /** A contained case lacks its containment time exactly when nothing but executions ever contained it. */
  lemma UnstampedIffOnlyExecuted(ops: seq<Op>, key: Key)
    requires FreshRun(ops) && key in Run(ops).rows && Run(ops).rows[key].status == Contained
    ensures OnceContained(ops, key)
    ensures Run(ops).rows[key].containedAt.None? <==> ContainedByExecutionsOnly(ops, key)
  {
    OnlyTransitionsStampContainment(ops, key);
    MovedUnlessExecutedOnly(ops, key);
    ContainedOnce(ops, key);
  }

  /** Executing contains an investigating case without stamping when it was contained. */
  lemma ExecutionLeavesUnstamped(s: Store, key: Key, index: int, report: Report)
    requires InRange(s, key, index) && !s.rows[key].payload.actions[index].requiresApproval
    requires s.rows[key].status == Investigating && s.rows[key].containedAt == None
    ensures var r := ApplyExecute(s, key, index, Some(report)).0.rows[key];
            r.status == Contained && r.containedAt == None
  {
  }

  /** When some transition request of the run first moved this case to the named status. */
  function FirstMove(ops: seq<Op>, key: Key, target: Str): Option<int> {
    if ops == [] then None
    else
      var before, op := ops[..|ops| - 1], ops[|ops| - 1];
      var earlier := FirstMove(before, key, target);
      if earlier.Some? then earlier
      else if op.Transition? && op.key == key && op.target == target && Attempt(Run(before), op).1.Done?
      then Some(op.now) else None
  }

  lemma FirstStamp(s: Store, op: Op, key: Key)
    requires key in s.rows
    ensures key in Apply(s, op).rows
    ensures var r, t := s.rows[key], Apply(s, op).rows[key];
            var moves := op.Transition? && op.key == key && Attempt(s, op).1.Done?;
            && t.acknowledgedAt == (if r.acknowledgedAt.None? && moves && op.target == Lit("investigating")
                                    then Some(op.now) else r.acknowledgedAt)
            && t.containedAt == (if r.containedAt.None? && moves && op.target == Lit("contained")
                                 then Some(op.now) else r.containedAt)
  {
    StatusTextsDistinct();
  }

  lemma {:induction false} NeverMoved(ops: seq<Op>, key: Key, target: Str)
    requires key !in Run(ops).rows
    ensures FirstMove(ops, key, target) == None
  {
    if ops != [] {
      var before, op := ops[..|ops| - 1], ops[|ops| - 1];
      if key in Run(before).rows { FirstStamp(Run(before), op, key); }
      NeverMoved(before, key, target);
    }
  }

  /**
   The two stamps of a case are the times of the first transition request that moved it to investigating and of the
   first that moved it to contained; nothing else sets or changes them.
   */
  lemma {:induction false} StampsAreFirstMoves(ops: seq<Op>, key: Key)
    requires key in Run(ops).rows
    ensures Run(ops).rows[key].acknowledgedAt == FirstMove(ops, key, Lit("investigating"))
    ensures Run(ops).rows[key].containedAt == FirstMove(ops, key, Lit("contained"))
  {
    var before, op := ops[..|ops| - 1], ops[|ops| - 1];
    if key in Run(before).rows {
      StampsAreFirstMoves(before, key);
      FirstStamp(Run(before), op, key);
    } else {
      NeverMoved(before, key, Lit("investigating"));
      NeverMoved(before, key, Lit("contained"));
    }
  }

  // ----- What is served and what is refused -----

  lemma StatusTextsDistinct()
    ensures ParseStatus(Lit("new")) == Some(New) && ParseStatus(Lit("triaged")) == Some(Triaged)
    ensures ParseStatus(Lit("investigating")) == Some(Investigating) && ParseStatus(Lit("contained")) == Some(Contained)
    ensures ParseStatus(Lit("resolved")) == Some(Resolved) && ParseStatus(Lit("false_positive")) == Some(FalsePositive)
  {
    assert Lit("new")[0] == 'n' as int && Lit("triaged")[0] == 't' as int && Lit("investigating")[0] == 'i' as int;
    assert Lit("contained")[0] == 'c' as int && Lit("resolved")[0] == 'r' as int;
    assert Lit("false_positive")[0] == 'f' as int;
  }

  lemma StatusRoundTrip(s: Status)
    ensures ParseStatus(StatusText(s)) == Some(s)
  {
    StatusTextsDistinct();
  }

  /** A transition of a stored case is served exactly along these eleven edges. */
  lemma TransitionServedIff(s: Store, key: Key, target: Str, now: int)
    requires key in s.rows
    ensures ApplyTransition(s, key, target, now).1.Done? <==>
              match s.rows[key].status
              case New => target in {Lit("triaged"), Lit("false_positive")}
              case Triaged => target in {Lit("investigating"), Lit("false_positive")}
              case Investigating => target in {Lit("contained"), Lit("resolved"), Lit("false_positive")}
              case Contained => target in {Lit("resolved"), Lit("investigating")}
              case Resolved => target == Lit("investigating")
              case FalsePositive => target == Lit("investigating")
  {
    StatusTextsDistinct();
  }

  /** Which requests are refused, and why; a refused one leaves every row as it is. */
  lemma RefusalsExact(s: Store, op: Op)
    ensures var reply, key := Attempt(s, op).1, KeyOf(op);
            && (reply == Refused(IdTaken) <==>
                  op.Save? && exists k :: k in s.rows && k.id == op.inv.id && k.tenant != op.tenant)
            && (reply == Refused(NotFound) <==>
                  !op.Save? && (key !in s.rows || (op.Approve? && !InRange(s, key, op.index))))
            && (reply == Refused(OutOfRange) <==> op.Execute? && key in s.rows && !InRange(s, key, op.index))
            && (reply == Refused(NotApproved) <==>
                  op.Execute? && InRange(s, key, op.index) && s.rows[key].payload.actions[op.index].requiresApproval)
            && (reply == Refused(ExecutorFailed) <==>
                  && op.Execute? && InRange(s, key, op.index) && op.report.None?
                  && !s.rows[key].payload.actions[op.index].requiresApproval)
            && (reply == Refused(InvalidStatus) <==>
                  op.Transition? && key in s.rows &&
                  op.target !in {Lit("new"), Lit("triaged"), Lit("investigating"), Lit("contained"), Lit("resolved"),
                                 Lit("false_positive")})
            && (reply.Refused? ==> Apply(s, op).rows == s.rows)
  {
    StatusTextsDistinct();
  }

  /**
   What a save, an assignment and a transition leave in their row: the investigation saved; the assignee in column and
   payload; the status named by the request in column and payload. What is not mentioned stays.
   */
  lemma EffectsExact(s: Store, op: Op)
    requires Attempt(s, op).1.Done? && (op.Save? || op.Assign? || op.Transition?)
    ensures var key, t := KeyOf(op), Apply(s, op);
            && key in t.rows && t.marks == s.marks && t.rows == s.rows[key := t.rows[key]]
            && Attempt(s, op).1.inv == t.rows[key].payload
            && (op.Save? ==>
                  var r, d := t.rows[key], op.inv.detection;
                  && r.payload == op.inv && r.riskScore == RiskFrom(op.inv)
                  && (r.title, r.severity, r.status, r.entity) == (d.title, d.severity, d.status, d.entity)
                  && r.isTruePositive == match op.inv.verdict case Some(v) => Some(v.isTruePositive) case None => None)
            && (op.Save? && key in s.rows ==>
                  var r := t.rows[key];
                  (r.assignee, r.acknowledgedAt, r.containedAt) ==
                  (s.rows[key].assignee, s.rows[key].acknowledgedAt, s.rows[key].containedAt))
            && (op.Assign? ==>
                  && t.rows[key].assignee == t.rows[key].payload.assignee == op.assignee
                  && t.rows[key].(assignee := None, payload := t.rows[key].payload.(assignee := None)) ==
                     s.rows[key].(assignee := None, payload := s.rows[key].payload.(assignee := None)))
            && (op.Transition? ==>
                  var r, before := t.rows[key], s.rows[key];
                  && r.status == r.payload.detection.status && StatusText(r.status) == op.target
                  && r == before.(status := r.status, payload := WithStatus(before.payload, r.status),
                                  acknowledgedAt := r.acknowledgedAt, containedAt := r.containedAt))
  {
    StatusTextsDistinct();
  }

  // ----- The repository -----

  class InvestigationRepository {
    var rows: map<Key, Row>
    ghost var marks: seq<Mark>

    constructor ()
      ensures State() == Store(map[], [])
    {
      rows, marks := map[], [];
    }

    ghost function State(): Store
      reads this
    {
      Store(rows, marks)
    }

    method SaveInvestigation(tenant: Str, inv: Investigation) returns (reply: Reply)
      modifies this
      ensures (State(), reply) == Attempt(old(State()), Save(tenant, inv))
    {
      var key := Key(tenant, inv.id);
      var d := inv.detection;
      if HeldElsewhere(rows, tenant, inv.id) { return Refused(IdTaken); }
      reply := Done(inv);
      if key !in rows {
        rows := rows[key := Row(d.title, d.severity, d.status, d.entity, RiskFrom(inv), VerdictColumn(inv),
                                None, None, None, inv)];
      } else {
        var existing := rows[key];
        existing := existing.(title := d.title, severity := d.severity, status := d.status, entity := d.entity);
        existing := existing.(riskScore := RiskFrom(inv), isTruePositive := VerdictColumn(inv));
        rows := rows[key := existing.(payload := inv)];
      }
    }

    method SetAssignee(tenant: Str, id: Str, assignee: Option<Str>) returns (reply: Reply)
      modifies this
      ensures (State(), reply) == ApplyAssign(old(State()), Key(tenant, id), assignee)
    {
      var key := Key(tenant, id);
      if key !in rows { return Refused(NotFound); }
      var row := rows[key].(assignee := assignee);
      row := row.(payload := row.payload.(assignee := assignee));
      rows := rows[key := row];
      reply := Done(row.payload);
    }

    method ApproveAction(tenant: Str, id: Str, index: int) returns (reply: Reply)
      modifies this
      ensures (State(), reply) == ApplyApprove(old(State()), Key(tenant, id), index)
    {
      var key := Key(tenant, id);
      if key !in rows { return Refused(NotFound); }
      var payload := rows[key].payload;
      if index < 0 || index >= |payload.actions| { return Refused(NotFound); }
      var action := payload.actions[index].(requiresApproval := false);
      payload := payload.(actions := payload.actions[index := action]);
      rows := rows[key := rows[key].(payload := payload)];
      marks := marks + [Approval(key, index)];
      reply := Done(payload);
    }

    /** Execute an approved action; `executor` is None when the connector raises. */
    method ExecuteAction(tenant: Str, id: Str, index: int, executor: (Str, Str) -> Option<Report>)
      returns (reply: Reply)
      modifies this
      ensures var key := Key(tenant, id);
              (State(), reply) == ApplyExecute(old(State()), key, index,
                if InRange(old(State()), key, index)
                then var a := old(rows)[key].payload.actions[index]; executor(a.actionType, a.target)
                else None)
    {
      var key := Key(tenant, id);
      if key !in rows { return Refused(NotFound); }
      var row := rows[key];
      var payload := row.payload;
      if index < 0 || index >= |payload.actions| { return Refused(OutOfRange); }
      var action := payload.actions[index];
      if action.requiresApproval { return Refused(NotApproved); }
      marks := marks + [Dispatch(key, index, action.actionType, action.target)];
      var result := executor(action.actionType, action.target);
      if result.None? { return Refused(ExecutorFailed); }
      action := action.(executed := true, executionStatus := Some(result.value.status));
      action := action.(executionDetail := Some(result.value.detail), rollbackToken := result.value.rollbackToken);
      payload := payload.(actions := payload.actions[index := action]);
      if row.status == Investigating {
        row := row.(status := Contained);
        payload := WithStatus(payload, Contained);
      }
      rows := rows[key := row.(payload := payload)];
      reply := Done(payload);
    }

    method TransitionStatus(tenant: Str, id: Str, target: Str, now: int) returns (reply: Reply)
      modifies this
      ensures (State(), reply) == ApplyTransition(old(State()), Key(tenant, id), target, now)
    {
      var key := Key(tenant, id);
      if key !in rows { return Refused(NotFound); }
      var row := rows[key];
      var status := ParseStatus(target);
      if status.None? { return Refused(InvalidStatus); }
      if !CanTransition(row.status, status.value) { return Refused(IllegalTransition); }
      row := row.(status := status.value, payload := WithStatus(row.payload, status.value));
      if status.value == Investigating && row.acknowledgedAt.None? { row := row.(acknowledgedAt := Some(now)); }
      if status.value == Contained && row.containedAt.None? { row := row.(containedAt := Some(now)); }
      rows := rows[key := row];
      reply := Done(row.payload);
    }
  }
}
