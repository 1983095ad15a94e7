/** Containment times and dispatches under concurrency: what each counts, whatever sessions do in between. */
module SessionCases {
  import opened Basics
  import opened Domain
  import opened Backend
  import opened Overlap
  import opened Sessions
  import Cases

  // ----- Containment times -----

  /** A transition request that moves this case to contained. */
  predicate AsksToContain(r: Request, key: Cases.Key) {
    r.Transition? && Cases.Key(r.tenant, r.id) == key && Cases.ParseStatus(r.target) == Some(Contained)
  }

  /** Some committed request moved this case to contained. */
  ghost predicate ContainedOnce(s: State, key: Cases.Key) {
    exists p :: 0 <= p < |s.sessions| && s.sessions[p].phase == Committed && AsksToContain(s.sessions[p].request, key)
  }

  /** A case request has its case, read no time that has vanished, and was allowed by the row it read. */
  ghost predicate StampHeld(store: Cases.Store, session: Session) {
    !session.request.RunPipeline? ==>
      var op := OpOf(session.request);
      var key := Cases.KeyOf(op);
      && session.read.Some? && key in store.rows
      && (session.read.value.containedAt.Some? ==> store.rows[key].containedAt.Some?)
      && (AsksToContain(session.request, key) ==> ToContained(session.read.value, op))
  }

  ghost predicate StampsHeld(s: State) {
    forall p :: 0 <= p < |s.sessions| ==> StampHeld(s.store, s.sessions[p])
  }

  ghost predicate StampExact(s: State, key: Cases.Key) {
    (key in s.store.rows && s.store.rows[key].containedAt.Some?) <==> ContainedOnce(s, key)
  }

  lemma BeginHolds(d: Deployment, s: State, r: Request)
    requires StampsHeld(s)
    ensures StampsHeld(Next(d, s, Begin(r)))
  {
    var t := Next(d, s, Begin(r));
    QuietRows(d, s, Begin(r));
    forall p | 0 <= p < |t.sessions| ensures StampHeld(t.store, t.sessions[p]) {
      if p < |s.sessions| { assert StampHeld(s.store, s.sessions[p]); }
    }
  }

  lemma CommitTimes(s: State, p: nat, key: Cases.Key)
    requires Gated(s) && StampsHeld(s) && FreshMove(s, Commit(p)) && Commits(s, p)
    ensures var after, session := StoreAfter(s.store, s.sessions[p]), s.sessions[p];
            && (key in s.store.rows ==> key in after.rows)
            && ((key in after.rows && after.rows[key].containedAt.Some?) <==>
                  (key in s.store.rows && s.store.rows[key].containedAt.Some?) || AsksToContain(session.request, key))
  {
    var session := s.sessions[p];
    var r := session.request;
    assert StampHeld(s.store, session);
    if r.RunPipeline? {
      var after := InsertAll(s.store, r.tenant, r.found);
      InsertAllKeeps(s.store, r.tenant, r.found);
      if key in after.rows && key !in s.store.rows { assert FromBatch(key, after.rows[key], r.found); }
    } else {
      var own := Cases.KeyOf(OpOf(r));
      CommitStampsIff(session.read.value, OpOf(r), s.store.rows[own]);
    }
  }

  lemma CommitHolds(d: Deployment, s: State, p: nat)
    requires Gated(s) && StampsHeld(s) && FreshMove(s, Commit(p)) && Commits(s, p)
    ensures StampsHeld(Next(d, s, Commit(p)))
  {
    var t := Next(d, s, Commit(p));
    forall q | 0 <= q < |t.sessions| ensures StampHeld(t.store, t.sessions[q]) {
      assert StampHeld(s.store, s.sessions[q]);
      if !s.sessions[q].request.RunPipeline? { CommitTimes(s, p, Cases.KeyOf(OpOf(s.sessions[q].request))); }
    }
  }

  lemma MoveHolds(d: Deployment, s: State, move: Move)
    requires Gated(s) && StampsHeld(s) && FreshMove(s, move)
    ensures StampsHeld(Next(d, s, move))
  {
    match move {
      case Begin(r) => BeginHolds(d, s, r);
      case Commit(p) => if Commits(s, p) { CommitHolds(d, s, p); }
      case _ =>
    }
  }

  lemma ContainedOnceStep(d: Deployment, s: State, move: Move, key: Cases.Key)
    ensures ContainedOnce(Next(d, s, move), key) <==>
              ContainedOnce(s, key)
              || (move.Commit? && Commits(s, move.p) && AsksToContain(s.sessions[move.p].request, key))
  {
    var t := Next(d, s, move);
    RequestsStay(d, s, move);
    if p :| 0 <= p < |s.sessions| && s.sessions[p].phase == Committed && AsksToContain(s.sessions[p].request, key) {
      assert t.sessions[p].phase == Committed && AsksToContain(t.sessions[p].request, key);
    }
    if move.Commit? && Commits(s, move.p) && AsksToContain(s.sessions[move.p].request, key) {
      assert t.sessions[move.p].phase == Committed && AsksToContain(t.sessions[move.p].request, key);
    }
    if p :| 0 <= p < |t.sessions| && t.sessions[p].phase == Committed && AsksToContain(t.sessions[p].request, key) {
      assert p < |s.sessions| && AsksToContain(s.sessions[p].request, key);
    }
  }

  /** A step keeps every session's request, and only a commit makes a session committed. */
  lemma RequestsStay(d: Deployment, s: State, move: Move)
    ensures var t := Next(d, s, move);
            && |s.sessions| <= |t.sessions|
            && (forall p :: 0 <= p < |s.sessions| ==> t.sessions[p].request == s.sessions[p].request)
            && (forall p :: 0 <= p < |t.sessions| ==>
                  (t.sessions[p].phase == Committed <==>
                     p < |s.sessions| && (s.sessions[p].phase == Committed
                                          || (move.Commit? && move.p == p && Commits(s, p)))))
  {
  }

  lemma MoveStampsExactly(d: Deployment, s: State, move: Move, key: Cases.Key)
    requires Gated(s) && StampsHeld(s) && FreshMove(s, move) && StampExact(s, key)
    ensures StampExact(Next(d, s, move), key)
  {
    ContainedOnceStep(d, s, move, key);
    if move.Commit? && Commits(s, move.p) { CommitTimes(s, move.p, key); } else { QuietRows(d, s, move); }
  }

  lemma {:induction false} StampsHold(d: Deployment, moves: seq<Move>, key: Cases.Key)
    requires FreshMoves(d, moves)
    ensures StampsHeld(Run(d, moves)) && StampExact(Run(d, moves), key)
  {
    if moves != [] {
      var before, move := moves[..|moves| - 1], moves[|moves| - 1];
      GateHolds(d, before);
      StampsHold(d, before, key);
      MoveHolds(d, Run(d, before), move);
      MoveStampsExactly(d, Run(d, before), move, key);
    }
  }

  /**
   Under every interleaving a stored case carries a containment time if and only if some committed transition request
   moved it to contained; what executions do leaves no time and takes none.
   */
  lemma StampedIffTransitioned(d: Deployment, moves: seq<Move>, key: Cases.Key)
    requires FreshMoves(d, moves) && key in Run(d, moves).store.rows
    ensures Run(d, moves).store.rows[key].containedAt.Some? <==> ContainedOnce(Run(d, moves), key)
  {
    StampsHold(d, moves, key);
  }

  // ----- Dispatches -----

  /** A request that begins by calling the executor for this action. */
  predicate Calls(s: State, move: Move, key: Cases.Key, index: int) {
    move.Begin? && move.request.Execute? && Cases.Dispatching(s.store, OpOf(move.request), key, index)
  }

  function CallsMade(d: Deployment, moves: seq<Move>, key: Cases.Key, index: int): nat {
    if moves == [] then 0
    else
      var before, move := moves[..|moves| - 1], moves[|moves| - 1];
      CallsMade(d, before, key, index) + (if Calls(Run(d, before), move, key, index) then 1 else 0)
  }

  lemma MoveDispatches(d: Deployment, s: State, move: Move, key: Cases.Key, index: int)
    ensures Cases.Dispatches(Next(d, s, move).store.marks, key, index) ==
            Cases.Dispatches(s.store.marks, key, index) + if Calls(s, move, key, index) then 1 else 0
  {
    if move.Begin? && move.request.Execute? {
      var r := move.request;
      Cases.ExecuteDispatches(s.store, Cases.Execute(Cases.Key(r.tenant, r.id), r.index, None), key, index);
    }
    if move.Commit? && Commits(s, move.p) { CommitDispatchesNothing(s, move.p, key, index); }
  }

  lemma {:induction false} InsertsMarkNothing(store: Cases.Store, tenant: Str, found: seq<Investigation>)
    ensures InsertAll(store, tenant, found).marks == store.marks
  {
    if found != [] { InsertsMarkNothing(store, tenant, found[..|found| - 1]); }
  }

  lemma CommitDispatchesNothing(s: State, p: nat, key: Cases.Key, index: int)
    requires Commits(s, p)
    ensures Cases.Dispatches(StoreAfter(s.store, s.sessions[p]).marks, key, index) ==
            Cases.Dispatches(s.store.marks, key, index)
  {
    var r := s.sessions[p].request;
    if r.RunPipeline? { InsertsMarkNothing(s.store, r.tenant, r.found); }
    if r.Approve? {
      Cases.DispatchesSnoc(s.store.marks, Cases.Approval(Cases.KeyOf(OpOf(r)), r.index), key, index);
    }
    assert s.store.marks + [] == s.store.marks;
  }

  /** Under every interleaving an action reaches the executor once for each request that begins by finding it ready. */
  lemma {:induction false} CallsExact(d: Deployment, moves: seq<Move>, key: Cases.Key, index: int)
    ensures Cases.Dispatches(Run(d, moves).store.marks, key, index) == CallsMade(d, moves, key, index)
  {
    if moves != [] {
      CallsExact(d, moves[..|moves| - 1], key, index);
      MoveDispatches(d, Run(d, moves[..|moves| - 1]), moves[|moves| - 1], key, index);
    }
  }
}
