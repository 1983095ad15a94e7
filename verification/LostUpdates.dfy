/** What goes wrong when two requests on one case overlap: the failing inputs behind the exact conditions. */
module LostUpdates {
  import opened Basics
  import opened Domain
  import opened Backend
  import opened SharedLog
  import opened Overlap
  import opened Sessions
  import Audit
  import Cases

  /** The inner request begins, records and commits between the read and the commit of the outer one. */
  function Overlapped(d: Deployment, s: State, outer: Request, inner: Request): State {
    var p := |s.sessions|;
    var begun := Next(d, Next(d, s, Begin(outer)), Begin(inner));
    var between := Next(d, RecordNext(d, begun, p + 1), Commit(p + 1));
    Next(d, RecordNext(d, between, p), Commit(p))
  }

  /** Two requests on a stored case, each of which would be served alone. */
  ghost predicate BothAdmitted(s: State, outer: Request, inner: Request, key: Cases.Key) {
    && !outer.RunPipeline? && !inner.RunPipeline? && key in s.store.rows
    && Cases.KeyOf(OpOf(outer)) == key && Cases.KeyOf(OpOf(inner)) == key
    && Admits(s, outer) && Admits(s, inner)
  }

  lemma BeginCase(d: Deployment, s: State, r: Request)
    requires !r.RunPipeline? && Admits(s, r)
    ensures var t := Next(d, s, Begin(r));
            t.store.rows == s.store.rows && t.sessions == s.sessions + [Opened(s, r)] && s.store.marks <= t.store.marks
    ensures Opened(s, r).read == Some(s.store.rows[Cases.KeyOf(OpOf(r))]) && |Opened(s, r).todo| == 1
  {
  }

  lemma EndCase(d: Deployment, s: State, p: nat)
    requires Reads(s, p) && !s.sessions[p].request.RunPipeline? && |s.sessions[p].todo| == 1
    requires s.sessions[p].read.Some? && Cases.KeyOf(OpOf(s.sessions[p].request)) in s.store.rows
    ensures var session, t := s.sessions[p], Next(d, RecordNext(d, s, p), Commit(p));
            var op := OpOf(session.request);
            var key := Cases.KeyOf(op);
            && t.store.rows == s.store.rows[key :=
                 Merged(session.read.value, Cases.RowAfter(session.read.value, op), s.store.rows[key])]
            && t.store.marks == s.store.marks
               + (if session.request.Approve? then [Cases.Approval(key, op.index)] else [])
            && |t.sessions| == |s.sessions|
            && forall q :: 0 <= q < |s.sessions| && q != p ==> t.sessions[q] == s.sessions[q]
  {
    assert Commits(RecordNext(d, s, p), p);
  }

  lemma AttemptReads(x: Cases.Store, y: Cases.Store, op: Cases.Op)
    requires !op.Save? && x.rows == y.rows
    ensures Cases.Attempt(x, op).1 == Cases.Attempt(y, op).1
  {
  }

  /** The row afterwards: what the outer request made of the row it read, written over the inner one's. */
  lemma OverlappedRow(d: Deployment, s: State, outer: Request, inner: Request, key: Cases.Key)
    requires BothAdmitted(s, outer, inner, key)
    ensures var r, t := s.store.rows[key], Overlapped(d, s, outer, inner);
            && key in t.store.rows
            && t.store.rows[key] == Merged(r, Cases.RowAfter(r, OpOf(outer)), Cases.RowAfter(r, OpOf(inner)))
  {
    var p, r := |s.sessions|, s.store.rows[key];
    var first := Next(d, s, Begin(outer));
    BeginCase(d, s, outer);
    AttemptReads(s.store, first.store, OpOf(inner));
    BeginCase(d, first, inner);
    var begun := Next(d, first, Begin(inner));
    assert begun.sessions[p] == Opened(s, outer) && begun.sessions[p + 1] == Opened(first, inner);
    EndCase(d, begun, p + 1);
    UndisturbedCommit(r, Cases.RowAfter(r, OpOf(inner)));
    var between := Next(d, RecordNext(d, begun, p + 1), Commit(p + 1));
    EndCase(d, between, p);
  }

  /** Approving an action that awaits approval rewrites the payload, whatever was stored meanwhile. */
  lemma ApprovalOverwrites(read: Cases.Row, key: Cases.Key, i: nat, stored: Cases.Row)
    requires i < |read.payload.actions| && read.payload.actions[i].requiresApproval
    ensures Merged(read, Cases.RowAfter(read, Cases.Approve(key, i)), stored).payload ==
            Cases.ApprovedRow(read, i).payload
  {
    assert !Cases.ApprovedRow(read, i).payload.actions[i].requiresApproval;
  }

  /** Some action of this case awaits approval. */
  predicate Awaits(s: State, key: Cases.Key, index: int) {
    Cases.InRange(s.store, key, index) && s.store.rows[key].payload.actions[index].requiresApproval
  }

  /** An assignment that commits inside an approval: the column names the new analyst, the payload the old one. */
  lemma AssignInsideApprove(d: Deployment, s: State, outer: Request, inner: Request, key: Cases.Key)
    requires BothAdmitted(s, outer, inner, key) && outer.Approve? && inner.Assign? && Awaits(s, key, outer.index)
    requires Cases.HeaderAgrees(s.store.rows[key]) && inner.assignee != s.store.rows[key].assignee
    ensures var t := Overlapped(d, s, outer, inner);
            && key in t.store.rows && t.store.rows[key].assignee == inner.assignee
            && t.store.rows[key].payload.assignee == s.store.rows[key].assignee
            && !Cases.HeaderAgrees(t.store.rows[key])
  {
    var r := s.store.rows[key];
    OverlappedRow(d, s, outer, inner, key);
    ApprovalOverwrites(r, key, outer.index, Cases.RowAfter(r, OpOf(inner)));
  }

  /** An approval that commits inside another one of the same case is withdrawn. */
  lemma ApproveInsideApprove(d: Deployment, s: State, outer: Request, inner: Request, key: Cases.Key)
    requires BothAdmitted(s, outer, inner, key) && outer.Approve? && inner.Approve? && outer.index != inner.index
    requires Awaits(s, key, outer.index) && Awaits(s, key, inner.index)
    ensures var approved, t := Cases.RowAfter(s.store.rows[key], OpOf(inner)), Overlapped(d, s, outer, inner);
            && inner.index < |approved.payload.actions| && !approved.payload.actions[inner.index].requiresApproval
            && Awaits(t, key, inner.index)
  {
    var r := s.store.rows[key];
    OverlappedRow(d, s, outer, inner, key);
    ApprovalOverwrites(r, key, outer.index, Cases.RowAfter(r, OpOf(inner)));
  }

  lemma ExecutionRecorded(s: State, r: Request, key: Cases.Key)
    requires r.Execute? && Admits(s, r) && key == Cases.KeyOf(OpOf(r)) && key in s.store.rows
    ensures var after := Cases.RowAfter(s.store.rows[key], OpOf(r)).payload.actions;
            0 <= r.index < |after| && after[r.index].executed
  {
  }

  /** An execution that commits inside an approval of another action leaves no record in the case. */
  lemma ExecuteInsideApprove(d: Deployment, s: State, outer: Request, inner: Request, key: Cases.Key)
    requires BothAdmitted(s, outer, inner, key) && outer.Approve? && inner.Execute? && outer.index != inner.index
    requires Awaits(s, key, outer.index)
    requires Cases.InRange(s.store, key, inner.index) && !s.store.rows[key].payload.actions[inner.index].executed
    ensures var after := Cases.RowAfter(s.store.rows[key], OpOf(inner)).payload.actions;
            var t := Overlapped(d, s, outer, inner);
            && inner.index < |after| && after[inner.index].executed
            && Cases.InRange(t.store, key, inner.index) && !t.store.rows[key].payload.actions[inner.index].executed
  {
    var r := s.store.rows[key];
    ExecutionRecorded(s, inner, key);
    OverlappedRow(d, s, outer, inner, key);
    ApprovalOverwrites(r, key, outer.index, Cases.RowAfter(r, OpOf(inner)));
  }

  lemma TransitionAdmitted(s: State, r: Request, key: Cases.Key, to: Status)
    requires r.Transition? && Admits(s, r) && key == Cases.KeyOf(OpOf(r)) && key in s.store.rows
    requires Cases.ParseStatus(r.target) == Some(to)
    ensures Cases.RowAfter(s.store.rows[key], OpOf(r)).status == to && to != s.store.rows[key].status
  {
  }

  lemma OuterStatusWins(d: Deployment, s: State, outer: Request, inner: Request, key: Cases.Key, to: Status)
    requires BothAdmitted(s, outer, inner, key)
    requires Cases.RowAfter(s.store.rows[key], OpOf(outer)).status == to && to != s.store.rows[key].status
    ensures var t := Overlapped(d, s, outer, inner); key in t.store.rows && t.store.rows[key].status == to
  {
    OverlappedRow(d, s, outer, inner, key);
  }

  /** Two transitions that both read an investigating case take it from resolved to contained, which is no edge. */
  lemma ResolveInsideContain(d: Deployment, s: State, outer: Request, inner: Request, key: Cases.Key)
    requires BothAdmitted(s, outer, inner, key) && outer.Transition? && inner.Transition?
    requires Cases.ParseStatus(outer.target) == Some(Contained) && Cases.ParseStatus(inner.target) == Some(Resolved)
    ensures Cases.RowAfter(s.store.rows[key], OpOf(inner)).status == Resolved
    ensures var t := Overlapped(d, s, outer, inner); key in t.store.rows && t.store.rows[key].status == Contained
    ensures !Cases.CanTransition(Resolved, Contained)
  {
    TransitionAdmitted(s, outer, key, Contained);
    TransitionAdmitted(s, inner, key, Resolved);
    OuterStatusWins(d, s, outer, inner, key, Contained);
  }

  /** An execution that commits inside a transition to contained: only it contains the case, yet the case is stamped. */
  lemma ExecuteInsideContain(d: Deployment, s: State, outer: Request, inner: Request, key: Cases.Key)
    requires BothAdmitted(s, outer, inner, key) && outer.Transition? && inner.Execute?
    requires Cases.ParseStatus(outer.target) == Some(Contained)
    requires s.store.rows[key].status == Investigating && s.store.rows[key].containedAt == None
    ensures var between := Cases.RowAfter(s.store.rows[key], OpOf(inner));
            between.status == Contained && between.containedAt == None
    ensures var t := Overlapped(d, s, outer, inner);
            key in t.store.rows && t.store.rows[key].status == Contained && t.store.rows[key].containedAt.Some?
  {
    TransitionAdmitted(s, outer, key, Contained);
    ExecutionRecorded(s, inner, key);
    OverlappedRow(d, s, outer, inner, key);
    CommitStampsIff(s.store.rows[key], OpOf(outer), Cases.RowAfter(s.store.rows[key], OpOf(inner)));
  }

  /**
   Two sessions of a tenant that both place a row before either commits: the tenant's chain verifies no more, whenever
   they read the last hash.
   */
  lemma RecordInsideRecord(
      hash: Audit.Hash, log: seq<Placed>, committed: set<nat>, p: nat, q: nat, r: Reading, t: Reading,
      f: Audit.Fields, g: Audit.Fields)
    requires Audit.GoodHash(hash) && LogKept(hash, log, committed) && p !in committed && q !in committed && p != q
    requires f.tenant == g.tenant && Chained(log, committed, f.tenant)
    requires StillReads(log, committed, p, f.tenant, r)
    requires StillReads(PlacedBy(hash, log, p, r, f), committed, q, g.tenant, t)
    requires StorableLog(PlacedBy(hash, PlacedBy(hash, log, p, r, f), q, t, g))
    ensures !Chained(PlacedBy(hash, PlacedBy(hash, log, p, r, f), q, t, g), committed + {p} + {q}, f.tenant)
  {
    var once := PlacedBy(hash, log, p, r, f);
    var both := PlacedBy(hash, once, q, t, g);
    var n, who := |log|, committed + {p} + {q};
    PlaceKeepsLog(hash, log, committed, p, r, f);
    PlaceKeepsLog(hash, once, committed, q, t, g);
    if Chained(both, who, f.tenant) {
      assert Shows(both, who, f.tenant, n) && Shows(both, who, f.tenant, n + 1);
      assert ReadLatest(both, committed, n + 1);
      LatestIs(both, who, f.tenant, n + 1, n);
      HashesDistinct(hash, both, who, f.tenant, both[n + 1].after, n);
      assert false;
    }
  }
}
