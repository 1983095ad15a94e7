/** Tenants under concurrency: no step of another tenant's session changes what a tenant can see. */
module SessionIsolation {
  import opened Basics
  import opened Metering
  import opened Backend
  import opened Isolation
  import opened SharedLog
  import opened Sessions
  import opened SessionBooks
  import Audit
  import Cases

  /** The tenant whose request a step belongs to, if it belongs to one. */
  function Mover(s: State, move: Move): Option<Str> {
    match move
    case Begin(r) => Some(r.tenant)
    case _ => if move.p < |s.sessions| then Some(s.sessions[move.p].request.tenant) else None
  }

  /** A session records entries of its own tenant only. */
  ghost predicate OwnEntries(session: Session) {
    forall i :: 0 <= i < |session.todo| ==> session.todo[i].tenant == session.request.tenant
  }

  ghost predicate EntriesOwned(s: State) {
    && (forall p :: 0 <= p < |s.sessions| ==> OwnEntries(s.sessions[p]))
    && (forall i :: 0 <= i < |s.log| ==>
          s.log[i].session < |s.sessions| &&
          s.log[i].row.fields.tenant == s.sessions[s.log[i].session].request.tenant)
  }

  lemma OpenedOwns(s: State, r: Request)
    requires Admits(s, r)
    ensures OwnEntries(Opened(s, r)) && Opened(s, r).request == r
  {
    if !r.RunPipeline? { CaseActions(r, Cases.Attempt(s.store, OpOf(r)).1.inv); }
  }

  lemma MoveKeepsOwned(d: Deployment, s: State, move: Move)
    requires EntriesOwned(s)
    ensures EntriesOwned(Next(d, s, move))
  {
    if move.Record? && Records(s, move.p) {
      RecordKeepsOwned(d, s, move.p);
    } else {
      OtherMove(d, s, move);
      if move.Begin? && Admits(s, move.request) { OpenedOwns(s, move.request); }
      OthersOwned(d, s, move);
    }
  }

  lemma RecordKeepsOwned(d: Deployment, s: State, p: nat)
    requires EntriesOwned(s) && Records(s, p)
    ensures EntriesOwned(Next(d, s, Record(p)))
  {
    assert OwnEntries(s.sessions[p]);
  }

  lemma OthersOwned(d: Deployment, s: State, move: Move)
    requires EntriesOwned(s) && !(move.Record? && Records(s, move.p))
    requires move.Begin? && Admits(s, move.request) ==>
               OwnEntries(Opened(s, move.request)) && Opened(s, move.request).request == move.request
    ensures EntriesOwned(Next(d, s, move))
  {
    var t := Next(d, s, move);
    OtherMove(d, s, move);
    forall p | 0 <= p < |t.sessions| ensures OwnEntries(t.sessions[p]) {
      if p < |s.sessions| { assert OwnEntries(s.sessions[p]); }
    }
  }

  lemma {:induction false} EntriesStayOwned(d: Deployment, moves: seq<Move>)
    ensures EntriesOwned(Run(d, moves))
  {
    if moves != [] {
      EntriesStayOwned(d, moves[..|moves| - 1]);
      MoveKeepsOwned(d, Run(d, moves[..|moves| - 1]), moves[|moves| - 1]);
    }
  }

  /** Another tenant's session that commits shows no row of this tenant. */
  lemma {:induction false} ForeignRowsElsewhere(s: State, who: set<nat>, p: nat, tenant: Str, n: nat)
    requires EntriesOwned(s) && p < |s.sessions| && s.sessions[p].request.tenant != tenant && n <= |s.log|
    ensures Audit.RowsOf(tenant, RowsShown(s.log, who + {p}, n)) == Audit.RowsOf(tenant, RowsShown(s.log, who, n))
  {
    if n > 0 {
      ForeignRowsElsewhere(s, who, p, tenant, n - 1);
      ShownRows(s.log, who + {p}, tenant, n);
      ShownRows(s.log, who, tenant, n);
    }
  }

  lemma ForeignRows(d: Deployment, s: State, p: nat, tenant: Str)
    requires Commits(s, p) && s.sessions[p].request.tenant != tenant
    ensures RowsView(StoreAfter(s.store, s.sessions[p]).rows, tenant) == RowsView(s.store.rows, tenant)
  {
    var r := s.sessions[p].request;
    if r.RunPipeline? {
      var tables := System(s.store, [], []);
      InsertAllIsSaved(d, tables, r.tenant, r.actor, r.found);
      SavedAllElsewhere(d, tables, r.tenant, r.actor, r.found, tenant);
    } else {
      var key := Cases.KeyOf(OpOf(r));
      var after := StoreAfter(s.store, s.sessions[p]);
      if key in s.store.rows { RowsViewUpdate(s.store.rows, key, after.rows[key], tenant); }
    }
  }

  lemma ForeignUsage(d: Deployment, s: State, r: Request, tenant: Str)
    requires r.tenant != tenant
    ensures Selected(UsageAfter(d, s, r), tenant, None, None) == Selected(s.usage, tenant, None, None)
  {
    var tables := Tables(s);
    if r.RunPipeline? {
      var searched := Metered(d, tables, r.tenant, SearchKind(), r.enabledRules, r.now);
      MeteredView(d, tables, r.tenant, SearchKind(), r.enabledRules, r.now, tenant);
      MeteredView(d, searched, r.tenant, ModelCallKind(), |r.found|, r.now, tenant);
    }
    if r.Execute? { MeteredView(d, tables, r.tenant, ActionKind(), 1, r.now, tenant); }
  }

  /** In every run, a step of another tenant's session leaves this tenant's committed view as it was. */
  lemma OthersLeaveViewAlone(d: Deployment, moves: seq<Move>, move: Move, tenant: Str)
    requires Mover(Run(d, moves), move) != Some(tenant)
    ensures ViewOf(Tables(Next(d, Run(d, moves), move)), tenant) == ViewOf(Tables(Run(d, moves)), tenant)
  {
    var s := Run(d, moves);
    if move.Commit? && Commits(s, move.p) {
      EntriesStayOwned(d, moves);
      CommitTables(d, s, move.p);
      ForeignRows(d, s, move.p, tenant);
      ForeignRowsElsewhere(s, CommittedOf(s), move.p, tenant, |s.log|);
      ForeignUsage(d, s, s.sessions[move.p].request, tenant);
    } else {
      QuietMove(d, s, move);
    }
  }
}
