/**
 Requests in flight at once. Every request has its own session: it reads, calls the executor, records its audit
 entries, and commits or rolls back, and the steps of different sessions interleave in any order. Nothing locks a row
 between read and commit, and nobody sees what a session has not committed.
 */
module Sessions {
  import opened Basics
  import opened Domain
  import opened Metering
  import opened Backend
  import opened SharedLog
  import opened Overlap
  import Audit
  import Cases

  datatype Phase = Running | Committed | Aborted

  /**
   An admitted request: the row it read, if it is about one case; the audit entries it has yet to record; and the last
   hash it saw, once it has begun to record the first of them.
   */
  datatype Session = Session(
    request: Request, read: Option<Cases.Row>, todo: seq<Audit.Fields>, seen: Option<Reading>, phase: Phase)

  datatype State = State(store: Cases.Store, log: seq<Placed>, usage: seq<UsageEvent>, sessions: seq<Session>)

  datatype Move =
    | Begin(request: Request)  // check and read; a refused request opens no session
    | Read(p: nat)             // read the last hash for the next audit entry of a session
    | Record(p: nat)           // place that entry
    | Commit(p: nat)
    | Abort(p: nat)

  function CommittedOf(s: State): set<nat> {
    set p | 0 <= p < |s.sessions| && s.sessions[p].phase == Committed
  }

  /** What everybody sees: the committed tables. */
  function Tables(s: State): System {
    System(s.store, RowsShown(s.log, CommittedOf(s), |s.log|), s.usage)
  }

  /** The quota check of a run, or the checks of a case operation on the row it reads. */
  predicate Admits(s: State, r: Request) {
    if r.RunPipeline? then QuotaAllows(Tables(s), r.tenant, r.plan, r.enabledRules, r.monthStart)
    else Cases.Attempt(s.store, OpOf(r)).1.Done?
  }

  function CreatedEntries(tenant: Str, actor: Str, found: seq<Investigation>): (fs: seq<Audit.Fields>)
    ensures |fs| == |found| && forall i :: 0 <= i < |found| ==> fs[i] == CreatedEntry(tenant, actor, found[i])
  {
    if found == [] then []
    else CreatedEntries(tenant, actor, found[..|found| - 1]) + [CreatedEntry(tenant, actor, found[|found| - 1])]
  }

  function Opened(s: State, r: Request): Session
    requires Admits(s, r)
  {
    if r.RunPipeline? then
      Session(r, None, CreatedEntries(r.tenant, r.actor, r.found), None, Running)
    else
      var op := OpOf(r);
      Session(r, Some(s.store.rows[Cases.KeyOf(op)]), [CaseEntry(r, Cases.Attempt(s.store, op).1.inv)], None, Running)
  }

  predicate IsRunning(s: State, p: nat) {
    p < |s.sessions| && s.sessions[p].phase == Running
  }

  /** A running session with an entry to record, before and after it has read the last hash. */
  predicate Reads(s: State, p: nat) {
    IsRunning(s, p) && s.sessions[p].todo != [] && s.sessions[p].seen.None?
  }

  predicate Records(s: State, p: nat) {
    IsRunning(s, p) && s.sessions[p].todo != [] && s.sessions[p].seen.Some?
  }

  /** A commit that takes place: a running session with nothing left to record and no id that another tenant holds. */
  predicate Commits(s: State, p: nat) {
    && IsRunning(s, p) && s.sessions[p].todo == []
    && !(s.sessions[p].request.RunPipeline? &&
         Clashes(s.store.rows, s.sessions[p].request.tenant, s.sessions[p].request.found))
  }

  function InsertAll(store: Cases.Store, tenant: Str, found: seq<Investigation>): Cases.Store {
    if found == [] then store
    else Cases.ApplySave(InsertAll(store, tenant, found[..|found| - 1]), tenant, found[|found| - 1])
  }

  /** What a commit stores: new cases, or the columns it changed of the case it read. */
  function StoreAfter(store: Cases.Store, session: Session): Cases.Store {
    var r := session.request;
    if r.RunPipeline? then InsertAll(store, r.tenant, r.found)
    else
      var op := OpOf(r);
      var key := Cases.KeyOf(op);
      if session.read.None? || key !in store.rows then store
      else
        var merged := Merged(session.read.value, Cases.RowAfter(session.read.value, op), store.rows[key]);
        Cases.Store(store.rows[key := merged], store.marks + if r.Approve? then [Cases.Approval(key, r.index)] else [])
  }

  function UsageAfter(d: Deployment, s: State, r: Request): seq<UsageEvent> {
    if r.RunPipeline? then RunMetered(d, Tables(s), r).usage else CaseMetered(d, Tables(s), r).usage
  }

  function Ended(s: State, p: nat, phase: Phase): seq<Session>
    requires p < |s.sessions|
  {
    s.sessions[p := s.sessions[p].(phase := phase)]
  }

  function Next(d: Deployment, s: State, move: Move): State {
    match move
    case Begin(r) =>
      var called := s.(store := RolledBack(Tables(s), r).store);
      if Admits(s, r) then called.(sessions := s.sessions + [Opened(s, r)]) else called
    case Read(p) =>
      if !Reads(s, p) then s
      else
        var seen := ReadBy(s.log, CommittedOf(s), p, s.sessions[p].todo[0].tenant);
        s.(sessions := s.sessions[p := s.sessions[p].(seen := Some(seen))])
    case Record(p) =>
      if !Records(s, p) then s
      else
        var session := s.sessions[p];
        s.(log := PlacedBy(d.hash, s.log, p, session.seen.value, session.todo[0]),
           sessions := s.sessions[p := session.(todo := session.todo[1..], seen := None)])
    case Commit(p) =>
      if Commits(s, p) then
        var session := s.sessions[p];
        State(StoreAfter(s.store, session), s.log, UsageAfter(d, s, session.request), Ended(s, p, Committed))
      else if IsRunning(s, p) && s.sessions[p].todo == [] then s.(sessions := Ended(s, p, Aborted))
      else s
    case Abort(p) => if IsRunning(s, p) then s.(sessions := Ended(s, p, Aborted)) else s
  }

  /** Record the next entry of a session with nothing in between. */
  function RecordNext(d: Deployment, s: State, p: nat): State {
    Next(d, Next(d, s, Read(p)), Record(p))
  }

  function RunFrom(d: Deployment, s: State, moves: seq<Move>): State {
    if moves == [] then s else Next(d, RunFrom(d, s, moves[..|moves| - 1]), moves[|moves| - 1])
  }

  function Start(): State {
    State(Cases.Store(map[], []), [], [], [])
  }

  function Run(d: Deployment, moves: seq<Move>): State {
    RunFrom(d, Start(), moves)
  }

  /** Runs commit freshly planned investigations under ids that no tenant has stored. */
  ghost predicate FreshMove(s: State, move: Move) {
    move.Commit? && Commits(s, move.p) && s.sessions[move.p].request.RunPipeline? ==>
      FreshBatch(s.store.rows, s.sessions[move.p].request.found)
  }

  ghost predicate FreshMoves(d: Deployment, moves: seq<Move>) {
    moves == [] ||
    (FreshMoves(d, moves[..|moves| - 1]) && FreshMove(Run(d, moves[..|moves| - 1]), moves[|moves| - 1]))
  }

  // ----- What sessions hold -----

  /** A running case request still has its case, read an earlier version of it, and read what was kept then. */
  ghost predicate SessionKept(store: Cases.Store, session: Session) {
    session.phase == Running && !session.request.RunPipeline? ==>
      var op := OpOf(session.request);
      var key := Cases.KeyOf(op);
      && session.read.Some? && key in store.rows
      && SameCase(session.read.value, store.rows[key])
      && Cases.ActionsKept(store.marks, key, session.read.value.payload)
  }

  ghost predicate StoreKept(store: Cases.Store) {
    && Cases.DispatchesGated(store.marks)
    && forall key :: key in store.rows ==> Cases.ActionsKept(store.marks, key, store.rows[key].payload)
  }

  ghost predicate Gated(s: State) {
    StoreKept(s.store) && forall p :: 0 <= p < |s.sessions| ==> SessionKept(s.store, s.sessions[p])
  }

  lemma {:induction false} InsertAllIsSaved(
      d: Deployment, s: System, tenant: Str, actor: Str, found: seq<Investigation>)
    ensures InsertAll(s.store, tenant, found) == SavedAll(d, s, tenant, actor, found).store
  {
    if found != [] { InsertAllIsSaved(d, s, tenant, actor, found[..|found| - 1]); }
  }

  /** A row that some investigation of the batch was inserted as. */
  ghost predicate FromBatch(key: Cases.Key, row: Cases.Row, found: seq<Investigation>) {
    exists i :: 0 <= i < |found| && key.id == found[i].id && row == Cases.SavedRow(None, found[i])
  }

  /** The stored rows are untouched and every other row comes from the batch. */
  ghost predicate Inserted(
      rows: map<Cases.Key, Cases.Row>, after: map<Cases.Key, Cases.Row>, found: seq<Investigation>)
  {
    && (forall key :: key in rows ==> key in after && after[key] == rows[key])
    && (forall key :: key in after && key !in rows ==> FromBatch(key, after[key], found))
  }

  lemma FromWiderBatch(key: Cases.Key, row: Cases.Row, found: seq<Investigation>, n: nat)
    requires n <= |found| && FromBatch(key, row, found[..n])
    ensures FromBatch(key, row, found)
    ensures exists i :: 0 <= i < n && key.id == found[i].id
  {
    var i :| 0 <= i < n && key.id == found[..n][i].id && row == Cases.SavedRow(None, found[..n][i]);
    assert key.id == found[i].id && row == Cases.SavedRow(None, found[i]);
  }

  lemma InsertedIdFresh(
      rows: map<Cases.Key, Cases.Row>, after: map<Cases.Key, Cases.Row>, found: seq<Investigation>, n: nat)
    requires n < |found| && FreshBatch(rows, found) && Inserted(rows, after, found[..n])
    ensures Cases.FreshId(after, found[n].id)
  {
    forall key | key in after ensures key.id != found[n].id {
      if key !in rows { FromWiderBatch(key, after[key], found, n); }
    }
  }

  /** Inserting fresh cases leaves the stored ones alone. */
  lemma {:induction false} InsertAllKeeps(store: Cases.Store, tenant: Str, found: seq<Investigation>)
    requires StoreKept(store) && FreshBatch(store.rows, found)
    ensures var t := InsertAll(store, tenant, found);
            StoreKept(t) && t.marks == store.marks && Inserted(store.rows, t.rows, found)
  {
    if found != [] {
      var n := |found| - 1;
      var before := InsertAll(store, tenant, found[..n]);
      InsertAllKeeps(store, tenant, found[..n]);
      InsertedIdFresh(store.rows, before.rows, found, n);
      InsertOneKeeps(before, tenant, found[n]);
      OneMoreInserted(store.rows, before, tenant, found);
    }
  }

  lemma SaveFresh(store: Cases.Store, tenant: Str, inv: Investigation)
    requires Cases.FreshId(store.rows, inv.id)
    ensures Cases.Key(tenant, inv.id) !in store.rows
    ensures Cases.ApplySave(store, tenant, inv).rows ==
            store.rows[Cases.Key(tenant, inv.id) := Cases.SavedRow(None, inv)]
  {
  }

  lemma OneMoreInserted(rows: map<Cases.Key, Cases.Row>, before: Cases.Store, tenant: Str, found: seq<Investigation>)
    requires found != [] && Inserted(rows, before.rows, found[..|found| - 1])
    requires Cases.FreshId(before.rows, found[|found| - 1].id)
    ensures Inserted(rows, Cases.ApplySave(before, tenant, found[|found| - 1]).rows, found)
  {
    var n := |found| - 1;
    var after := Cases.ApplySave(before, tenant, found[n]).rows;
    SaveFresh(before, tenant, found[n]);
    forall key | key in after && key !in rows ensures FromBatch(key, after[key], found) {
      if key in before.rows {
        FromWiderBatch(key, before.rows[key], found, n);
      } else {
        assert key.id == found[n].id && after[key] == Cases.SavedRow(None, found[n]);
      }
    }
  }

  lemma InsertOneKeeps(store: Cases.Store, tenant: Str, inv: Investigation)
    requires StoreKept(store) && Cases.FreshId(store.rows, inv.id) && Cases.AsPlanned(inv)
    ensures StoreKept(Cases.ApplySave(store, tenant, inv))
  {
    forall i | 0 <= i < |inv.actions|
      ensures Cases.ActionKept(store.marks, Cases.Key(tenant, inv.id), i, inv.actions[i])
    {
      assert inv.actions[i] in inv.actions;
    }
  }

  // ----- The approval gate, under every interleaving -----

  /** A commit on one case: the payload is the one written, or the one stored. */
  lemma MergedKeepsActions(marks: seq<Cases.Mark>, key: Cases.Key, read: Cases.Row, op: Cases.Op, stored: Cases.Row)
    requires Cases.KeyOf(op) == key
    requires Cases.ActionsKept(marks, key, read.payload) && Cases.ActionsKept(marks, key, stored.payload)
    requires op.Approve? ==> Cases.ApprovedBefore(marks, |marks|, key, op.index)
    ensures Cases.ActionsKept(marks, key, Merged(read, Cases.RowAfter(read, op), stored).payload)
  {
    Cases.EffectKeepsActions(marks, key, read, op);
  }

  lemma CaseCommitKeeps(store: Cases.Store, session: Session)
    requires StoreKept(store) && SessionKept(store, session) && session.phase == Running
    requires !session.request.RunPipeline?
    ensures StoreKept(StoreAfter(store, session)) && store.marks <= StoreAfter(store, session).marks
  {
    var op, t := OpOf(session.request), StoreAfter(store, session);
    var key := Cases.KeyOf(op);
    if op.Approve? {
      Cases.DispatchesStay(store.marks, Cases.Approval(key, op.index));
      assert t.marks[|store.marks|] == Cases.Approval(key, op.index);
    }
    forall k | k in store.rows ensures Cases.ActionsKept(t.marks, k, store.rows[k].payload) {
      Cases.ActionsStay(store.marks, t.marks, k, store.rows[k].payload);
    }
    Cases.ActionsStay(store.marks, t.marks, key, session.read.value.payload);
    MergedKeepsActions(t.marks, key, session.read.value, op, store.rows[key]);
  }

  /** Other sessions on the case keep what they hold: a commit leaves another version of the same case. */
  lemma CaseCommitSpares(store: Cases.Store, session: Session, other: Session)
    requires SessionKept(store, session) && SessionKept(store, other) && session.phase == Running
    requires !session.request.RunPipeline? && store.marks <= StoreAfter(store, session).marks
    ensures SessionKept(StoreAfter(store, session), other)
  {
    var op, t := OpOf(session.request), StoreAfter(store, session);
    var key := Cases.KeyOf(op);
    MergedSameCase(session.read.value, op, store.rows[key]);
    if other.phase == Running && !other.request.RunPipeline? {
      Cases.ActionsStay(store.marks, t.marks, Cases.KeyOf(OpOf(other.request)), other.read.value.payload);
    }
  }

  lemma MarksSpare(store: Cases.Store, marks: seq<Cases.Mark>, session: Session)
    requires SessionKept(store, session) && store.marks <= marks
    ensures SessionKept(store.(marks := marks), session)
  {
    if session.phase == Running && !session.request.RunPipeline? {
      Cases.ActionsStay(store.marks, marks, Cases.KeyOf(OpOf(session.request)), session.read.value.payload);
    }
  }

  /** The executor is called only for an action that does not await approval. */
  lemma CallKeeps(store: Cases.Store, key: Cases.Key, index: int)
    requires StoreKept(store)
    ensures var t := Cases.ApplyExecute(store, key, index, None).0;
            StoreKept(t) && t.rows == store.rows && store.marks <= t.marks
  {
    if Cases.InRange(store, key, index) {
      var a := store.rows[key].payload.actions[index];
      var t := Cases.ApplyExecute(store, key, index, None).0;
      assert Cases.ActionsKept(store.marks, key, store.rows[key].payload);
      assert Cases.ActionKept(store.marks, key, index, a);
      if !a.requiresApproval {
        Cases.DispatchesStay(store.marks, Cases.Dispatch(key, index, a.actionType, a.target));
        forall k | k in store.rows ensures Cases.ActionsKept(t.marks, k, store.rows[k].payload) {
          Cases.ActionsStay(store.marks, t.marks, k, store.rows[k].payload);
        }
      }
    }
  }

  lemma BeginKeeps(d: Deployment, s: State, r: Request)
    requires Gated(s)
    ensures Gated(Next(d, s, Begin(r)))
  {
    var t := Next(d, s, Begin(r));
    if r.Execute? { CallKeeps(s.store, Cases.Key(r.tenant, r.id), r.index); }
    forall p | 0 <= p < |s.sessions| ensures SessionKept(t.store, s.sessions[p]) {
      MarksSpare(s.store, t.store.marks, s.sessions[p]);
    }
    if Admits(s, r) && !r.RunPipeline? {
      var key := Cases.KeyOf(OpOf(r));
      assert Cases.ActionsKept(t.store.marks, key, t.store.rows[key].payload);
    }
  }

  lemma CommitKeeps(d: Deployment, s: State, p: nat)
    requires Gated(s) && FreshMove(s, Commit(p)) && Commits(s, p)
    ensures Gated(Next(d, s, Commit(p)))
  {
    var session, t := s.sessions[p], Next(d, s, Commit(p));
    if session.request.RunPipeline? {
      InsertAllKeeps(s.store, session.request.tenant, session.request.found);
    } else {
      CaseCommitKeeps(s.store, session);
    }
    forall q | 0 <= q < |t.sessions| ensures SessionKept(t.store, t.sessions[q]) {
      if q != p && !session.request.RunPipeline? { CaseCommitSpares(s.store, session, s.sessions[q]); }
    }
  }

  lemma MoveKeepsGate(d: Deployment, s: State, move: Move)
    requires Gated(s) && FreshMove(s, move)
    ensures Gated(Next(d, s, move))
  {
    match move {
      case Begin(r) => BeginKeeps(d, s, r);
      case Read(p) =>
      case Record(p) =>
      case Commit(p) => if Commits(s, p) { CommitKeeps(d, s, p); }
      case Abort(p) =>
    }
  }

  /**
   However sessions interleave: an executed action awaits no approval, a gated action that awaits none was approved
   by a committed request, and no gated action reached the executor before such an approval.
   */
  lemma {:induction false} GateHolds(d: Deployment, moves: seq<Move>)
    requires FreshMoves(d, moves)
    ensures Gated(Run(d, moves))
  {
    if moves != [] {
      GateHolds(d, moves[..|moves| - 1]);
      MoveKeepsGate(d, Run(d, moves[..|moves| - 1]), moves[|moves| - 1]);
    }
  }

  /** Under every interleaving a gated action reaches the executor only after a committed approval of that action. */
  lemma ApprovedBeforeCalled(d: Deployment, moves: seq<Move>, j: nat)
    requires FreshMoves(d, moves) && j < |Run(d, moves).store.marks|
    requires Run(d, moves).store.marks[j].Dispatch?
    requires Run(d, moves).store.marks[j].actionType in {Lit("isolate_host"), Lit("disable_user"),
                                                         Lit("block_ip"), Lit("kill_process")}
    ensures var marks := Run(d, moves).store.marks;
            exists i :: 0 <= i < j && marks[i] == Cases.Approval(marks[j].key, marks[j].index)
  {
    GateHolds(d, moves);
    var marks := Run(d, moves).store.marks;
    assert Cases.ApprovedBefore(marks, j, marks[j].key, marks[j].index);
  }

  /** Under every interleaving a stored action that was executed awaits no approval. */
  lemma ExecutedAwaitsNone(d: Deployment, moves: seq<Move>, key: Cases.Key, i: nat)
    requires FreshMoves(d, moves) && Cases.InRange(Run(d, moves).store, key, i)
    ensures var a := Run(d, moves).store.rows[key].payload.actions[i]; a.executed ==> !a.requiresApproval
  {
    GateHolds(d, moves);
    var store := Run(d, moves).store;
    assert Cases.ActionsKept(store.marks, key, store.rows[key].payload);
    assert Cases.ActionKept(store.marks, key, i, store.rows[key].payload.actions[i]);
  }

  // ----- Header and payload -----

  ghost predicate AllAgree(store: Cases.Store) {
    forall key :: key in store.rows ==> Cases.HeaderAgrees(store.rows[key])
  }

  /** The commit of a case request finds the header columns it copies as it read them. */
  ghost predicate HeaderMove(s: State, move: Move) {
    move.Commit? && Commits(s, move.p) && !s.sessions[move.p].request.RunPipeline? ==>
      var session := s.sessions[move.p];
      var op := OpOf(session.request);
      var key := Cases.KeyOf(op);
      session.read.Some? && key in s.store.rows ==>
        HeaderCurrent(session.read.value, Cases.RowAfter(session.read.value, op), s.store.rows[key])
  }

  ghost predicate ReadsAgree(s: State) {
    forall p :: 0 <= p < |s.sessions| && s.sessions[p].read.Some? ==> Cases.HeaderAgrees(s.sessions[p].read.value)
  }

  lemma CommitAgrees(d: Deployment, s: State, p: nat)
    requires Gated(s) && AllAgree(s.store) && ReadsAgree(s) && FreshMove(s, Commit(p)) && Commits(s, p)
    ensures AllAgree(Next(d, s, Commit(p)).store) <==> HeaderMove(s, Commit(p))
  {
    var session, t := s.sessions[p], Next(d, s, Commit(p));
    if session.request.RunPipeline? {
      var found := session.request.found;
      InsertAllKeeps(s.store, session.request.tenant, found);
      forall key | key in t.store.rows ensures Cases.HeaderAgrees(t.store.rows[key]) {
        if key !in s.store.rows {
          assert FromBatch(key, t.store.rows[key], found);
          var i :| 0 <= i < |found| && key.id == found[i].id && t.store.rows[key] == Cases.SavedRow(None, found[i]);
          Cases.SaveAgreesIff(None, found[i]);
        }
      }
    } else {
      var key := Cases.KeyOf(OpOf(session.request));
      assert SessionKept(s.store, session);
      CommitAgreesIff(session.read.value, OpOf(session.request), s.store.rows[key]);
      OneRowAgrees(s.store, t.store, key);
    }
  }

  lemma OneRowAgrees(store: Cases.Store, after: Cases.Store, key: Cases.Key)
    requires key in store.rows && key in after.rows && after.rows == store.rows[key := after.rows[key]]
    requires AllAgree(store)
    ensures AllAgree(after) <==> Cases.HeaderAgrees(after.rows[key])
  {
  }

  lemma MoveAgrees(d: Deployment, s: State, move: Move)
    requires Gated(s) && AllAgree(s.store) && ReadsAgree(s) && FreshMove(s, move)
    ensures AllAgree(Next(d, s, move).store) <==> HeaderMove(s, move)
    ensures ReadsAgree(Next(d, s, move))
  {
    ReadsStayAgreed(d, s, move);
    if move.Commit? && Commits(s, move.p) { CommitAgrees(d, s, move.p); } else { QuietRows(d, s, move); }
  }

  /** A session reads a committed row. */
  lemma ReadsStayAgreed(d: Deployment, s: State, move: Move)
    requires AllAgree(s.store) && ReadsAgree(s)
    ensures ReadsAgree(Next(d, s, move))
  {
    var t := Next(d, s, move);
    forall p | 0 <= p < |t.sessions| && t.sessions[p].read.Some? ensures Cases.HeaderAgrees(t.sessions[p].read.value) {
      if p < |s.sessions| { assert t.sessions[p].read == s.sessions[p].read; }
    }
  }

  /** In this state and every earlier one, all headers agree with their payloads. */
  ghost predicate AgreeThroughout(d: Deployment, moves: seq<Move>) {
    AllAgree(Run(d, moves).store) && (moves == [] || AgreeThroughout(d, moves[..|moves| - 1]))
  }

  ghost predicate HeadersCurrentThroughout(d: Deployment, moves: seq<Move>) {
    moves == [] ||
    (HeadersCurrentThroughout(d, moves[..|moves| - 1]) && HeaderMove(Run(d, moves[..|moves| - 1]), moves[|moves| - 1]))
  }

  /**
   Headers agree with payloads throughout a run if and only if every commit that rewrites a payload finds the status
   and the assignee it copies still stored.
   */
  lemma {:induction false} HeadersAgreeIff(d: Deployment, moves: seq<Move>)
    requires FreshMoves(d, moves)
    ensures AgreeThroughout(d, moves) <==> HeadersCurrentThroughout(d, moves)
    ensures AgreeThroughout(d, moves) ==> ReadsAgree(Run(d, moves))
  {
    if moves != [] {
      var before, move := moves[..|moves| - 1], moves[|moves| - 1];
      HeadersAgreeIff(d, before);
      if AgreeThroughout(d, before) {
        GateHolds(d, before);
        AgreeNow(d, before);
        MoveAgrees(d, Run(d, before), move);
      }
    }
  }

  lemma AgreeNow(d: Deployment, moves: seq<Move>)
    requires AgreeThroughout(d, moves)
    ensures AllAgree(Run(d, moves).store)
  {
  }

  // ----- Workflow and progress -----

  ghost predicate AllEvolve(store: Cases.Store, after: Cases.Store) {
    forall key :: key in store.rows ==> key in after.rows && Cases.RowEvolves(store.rows[key], after.rows[key])
  }

  ghost predicate ProgressMove(s: State, move: Move) {
    move.Commit? && Commits(s, move.p) && !s.sessions[move.p].request.RunPipeline? ==>
      var session := s.sessions[move.p];
      var op := OpOf(session.request);
      var key := Cases.KeyOf(op);
      session.read.Some? && key in s.store.rows ==> ProgressCurrent(session.read.value, op, s.store.rows[key])
  }

  /**
   In any run, the next step changes every stored case legally (along the workflow, withdrawing no approval, no
   execution and no stamp) if and only if a commit finds that the workflow allows its change from the status now
   stored and that nobody else advanced what it overwrites.
   */
  lemma StepEvolvesIff(d: Deployment, moves: seq<Move>, move: Move)
    requires FreshMoves(d, moves) && FreshMove(Run(d, moves), move)
    ensures var s := Run(d, moves); AllEvolve(s.store, Next(d, s, move).store) <==> ProgressMove(s, move)
  {
    GateHolds(d, moves);
    MoveEvolves(d, Run(d, moves), move);
  }

  lemma MoveEvolves(d: Deployment, s: State, move: Move)
    requires Gated(s) && FreshMove(s, move)
    ensures AllEvolve(s.store, Next(d, s, move).store) <==> ProgressMove(s, move)
  {
    if move.Commit? && Commits(s, move.p) {
      CommitEvolves(d, s, move.p);
    } else {
      QuietRows(d, s, move);
      SameRowsEvolve(s.store, Next(d, s, move).store);
    }
  }

  lemma SameRowsEvolve(store: Cases.Store, after: Cases.Store)
    requires store.rows == after.rows
    ensures AllEvolve(store, after)
  {
  }

  /** Only a commit changes the stored rows. */
  lemma QuietRows(d: Deployment, s: State, move: Move)
    requires !(move.Commit? && Commits(s, move.p))
    ensures Next(d, s, move).store.rows == s.store.rows
  {
  }

  lemma CommitEvolves(d: Deployment, s: State, p: nat)
    requires Gated(s) && FreshMove(s, Commit(p)) && Commits(s, p)
    ensures AllEvolve(s.store, Next(d, s, Commit(p)).store) <==> ProgressMove(s, Commit(p))
  {
    var session := s.sessions[p];
    if session.request.RunPipeline? {
      InsertAllKeeps(s.store, session.request.tenant, session.request.found);
    } else {
      var op := OpOf(session.request);
      var key := Cases.KeyOf(op);
      assert SessionKept(s.store, session);
      CommitEvolvesIff(session.read.value, op, s.store.rows[key]);
      OneRowEvolves(s.store, StoreAfter(s.store, session), key);
    }
  }

  lemma OneRowEvolves(store: Cases.Store, after: Cases.Store, key: Cases.Key)
    requires key in store.rows && key in after.rows && after.rows == store.rows[key := after.rows[key]]
    ensures AllEvolve(store, after) <==> Cases.RowEvolves(store.rows[key], after.rows[key])
  {
  }

  // ----- Audit chains -----

  /** The commit finds the tenant's last hash as its first entry read it. */
  ghost predicate ChainMove(s: State, move: Move, tenant: Str) {
    move.Commit? && Commits(s, move.p) ==> StillLast(s.log, CommittedOf(s), move.p, tenant)
  }

  ghost predicate ChainCurrentThroughout(d: Deployment, moves: seq<Move>, tenant: Str) {
    moves == [] ||
    (ChainCurrentThroughout(d, moves[..|moves| - 1], tenant) &&
     ChainMove(Run(d, moves[..|moves| - 1]), moves[|moves| - 1], tenant))
  }

  lemma MoveCommitted(d: Deployment, s: State, move: Move)
    ensures var t := Next(d, s, move);
            if move.Commit? && Commits(s, move.p)
            then CommittedOf(t) == CommittedOf(s) + {move.p} && move.p !in CommittedOf(s) && t.log == s.log
            else CommittedOf(t) == CommittedOf(s)
  {
  }

  /** What running sessions have read for their next entry is still a row they could see. */
  ghost predicate ReadingsKept(s: State) {
    forall p :: 0 <= p < |s.sessions| && Records(s, p) ==>
      StillReads(s.log, CommittedOf(s), p, s.sessions[p].todo[0].tenant, s.sessions[p].seen.value)
  }

  lemma MoveKeepsReadings(d: Deployment, s: State, move: Move)
    requires ReadingsKept(s)
    ensures ReadingsKept(Next(d, s, move))
  {
    var t := Next(d, s, move);
    MoveCommitted(d, s, move);
    forall p | 0 <= p < |t.sessions| && Records(t, p)
      ensures StillReads(t.log, CommittedOf(t), p, t.sessions[p].todo[0].tenant, t.sessions[p].seen.value)
    {
      if move.Read? && move.p == p && Reads(s, p) {
        ReadStillReads(s.log, CommittedOf(s), p, s.sessions[p].todo[0].tenant);
      } else {
        assert Records(s, p) && t.sessions[p] == s.sessions[p];
        StillReadsLater(s.log, t.log, CommittedOf(s), CommittedOf(t), p, s.sessions[p].todo[0].tenant,
                        s.sessions[p].seen.value);
      }
    }
  }

  lemma {:induction false} LogsKept(d: Deployment, moves: seq<Move>)
    ensures LogKept(d.hash, Run(d, moves).log, CommittedOf(Run(d, moves))) && ReadingsKept(Run(d, moves))
  {
    if moves != [] {
      var s, move := Run(d, moves[..|moves| - 1]), moves[|moves| - 1];
      LogsKept(d, moves[..|moves| - 1]);
      MoveKeepsReadings(d, s, move);
      MoveKeepsLog(d, s, move);
    }
  }

  lemma MoveKeepsLog(d: Deployment, s: State, move: Move)
    requires LogKept(d.hash, s.log, CommittedOf(s)) && ReadingsKept(s)
    ensures LogKept(d.hash, Next(d, s, move).log, CommittedOf(Next(d, s, move)))
  {
    MoveCommitted(d, s, move);
    if move.Record? && Records(s, move.p) {
      var session := s.sessions[move.p];
      PlaceKeepsLog(d.hash, s.log, CommittedOf(s), move.p, session.seen.value, session.todo[0]);
    }
    if move.Commit? && Commits(s, move.p) { CommitKeepsLog(d.hash, s.log, CommittedOf(s), move.p); }
  }

  lemma CommitChainsStep(hash: Audit.Hash, log: seq<Placed>, committed: set<nat>, p: nat, tenant: Str)
    requires Audit.GoodHash(hash) && LogKept(hash, log, committed) && StorableLog(log) && p !in committed
    ensures Chained(log, committed + {p}, tenant) <==>
              Chained(log, committed, tenant) && StillLast(log, committed, p, tenant)
  {
    if Chained(log, committed, tenant) {
      CommitChainsIff(hash, log, committed, p, tenant);
    } else if Chained(log, committed + {p}, tenant) {
      BrokenStaysBroken(hash, log, committed, p, tenant);
    }
  }

  lemma MoveChains(d: Deployment, s: State, move: Move, tenant: Str)
    requires Audit.GoodHash(d.hash) && LogKept(d.hash, s.log, CommittedOf(s)) && StorableLog(s.log)
    ensures var t := Next(d, s, move);
            Chained(t.log, CommittedOf(t), tenant) <==>
              Chained(s.log, CommittedOf(s), tenant) && ChainMove(s, move, tenant)
  {
    MoveCommitted(d, s, move);
    if move.Commit? && Commits(s, move.p) {
      CommitChainsStep(d.hash, s.log, CommittedOf(s), move.p, tenant);
    } else if move.Record? && Records(s, move.p) {
      var session := s.sessions[move.p];
      PlaceIsInvisible(d.hash, s.log, CommittedOf(s), move.p, session.seen.value, session.todo[0], tenant);
    }
  }

  lemma StorableBefore(d: Deployment, s: State, move: Move)
    requires StorableLog(Next(d, s, move).log)
    ensures StorableLog(s.log)
  {
    forall i | 0 <= i < |s.log| ensures Audit.Storable(s.log[i].row.fields) {
      assert s.log[i] == Next(d, s, move).log[i];
    }
  }

  lemma {:induction false} ChainedIff(d: Deployment, moves: seq<Move>, tenant: Str)
    requires Audit.GoodHash(d.hash) && StorableLog(Run(d, moves).log)
    ensures var s := Run(d, moves);
            Chained(s.log, CommittedOf(s), tenant) <==> ChainCurrentThroughout(d, moves, tenant)
  {
    if moves != [] {
      var before, move := moves[..|moves| - 1], moves[|moves| - 1];
      StorableBefore(d, Run(d, before), move);
      ChainedIff(d, before, tenant);
      LogsKept(d, before);
      MoveChains(d, Run(d, before), move, tenant);
    }
  }

  /**
   After any interleaving, a tenant's committed chain verifies if and only if every commit found the tenant's last
   hash unchanged since its own first entry read it. A chain broken by one commit stays broken.
   */
  lemma ChainVerifiesIff(d: Deployment, moves: seq<Move>, tenant: Str)
    requires Audit.GoodHash(d.hash) && StorableLog(Run(d, moves).log)
    ensures Audit.Intact(d.hash, Audit.RowsOf(tenant, Tables(Run(d, moves)).audit)) <==>
              ChainCurrentThroughout(d, moves, tenant)
  {
    var s := Run(d, moves);
    LogsKept(d, moves);
    ChainedIsIntact(d.hash, s.log, CommittedOf(s), tenant, |s.log|);
    ChainedIff(d, moves, tenant);
  }
}
