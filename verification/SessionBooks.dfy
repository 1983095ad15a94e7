/**
 The books under concurrency, and what one request does when nothing interleaves with it: then a session is exactly
 one step of the serial routes.
 */
module SessionBooks {
  import opened Basics
  import opened Domain
  import opened Metering
  import opened Backend
  import opened SharedLog
  import opened Overlap
  import opened Sessions
  import Audit
  import Cases

  // ----- Counting placed rows -----

  function CountPlaced(log: seq<Placed>, who: set<nat>, tenant: Str, action: Str, n: nat): nat
    requires n <= |log|
  {
    if n == 0 then 0
    else
      CountPlaced(log, who, tenant, action, n - 1)
      + (if Shows(log, who, tenant, n - 1) && log[n - 1].row.fields.action == action then 1 else 0)
  }

  lemma {:induction false} PlacedAreCounted(log: seq<Placed>, who: set<nat>, tenant: Str, action: Str, n: nat)
    requires n <= |log|
    ensures CountActions(RowsShown(log, who, n), tenant, action) == CountPlaced(log, who, tenant, action, n)
  {
    if n > 0 {
      PlacedAreCounted(log, who, tenant, action, n - 1);
      var rows := RowsShown(log, who, n - 1);
      assert (rows + [log[n - 1].row])[..|rows|] == rows;
    }
  }

  lemma {:induction false} CountJoins(log: seq<Placed>, who: set<nat>, p: nat, tenant: Str, action: Str, n: nat)
    requires n <= |log| && p !in who
    ensures CountPlaced(log, who + {p}, tenant, action, n) ==
            CountPlaced(log, who, tenant, action, n) + CountPlaced(log, {p}, tenant, action, n)
  {
    if n > 0 { CountJoins(log, who, p, tenant, action, n - 1); }
  }

  lemma {:induction false} CountOfPrefix(
      log: seq<Placed>, more: seq<Placed>, who: set<nat>, tenant: Str, action: Str, n: nat)
    requires log <= more && n <= |log|
    ensures CountPlaced(more, who, tenant, action, n) == CountPlaced(log, who, tenant, action, n)
  {
    if n > 0 { CountOfPrefix(log, more, who, tenant, action, n - 1); }
  }

  lemma {:induction false} CountOfNobody(log: seq<Placed>, p: nat, tenant: Str, action: Str, n: nat)
    requires n <= |log| && forall i :: 0 <= i < |log| ==> log[i].session != p
    ensures CountPlaced(log, {p}, tenant, action, n) == 0
  {
    if n > 0 { CountOfNobody(log, p, tenant, action, n - 1); }
  }

  // ----- What a session owes the audit log -----

  function CountTodo(fs: seq<Audit.Fields>, tenant: Str, action: Str): nat {
    if fs == [] then 0
    else (if fs[0].tenant == tenant && fs[0].action == action then 1 else 0) + CountTodo(fs[1..], tenant, action)
  }

  /** The creation and execution entries of a request. */
  function Owed(r: Request, tenant: Str, action: Str): nat {
    if r.tenant != tenant then 0
    else if r.RunPipeline? then if action == Created() then |r.found| else 0
    else if r.Execute? && action == Executed() then 1 else 0
  }

  lemma {:induction false} CreationsCounted(fs: seq<Audit.Fields>, owner: Str, tenant: Str)
    requires forall i :: 0 <= i < |fs| ==> fs[i].tenant == owner && fs[i].action == Created()
    ensures CountTodo(fs, tenant, Created()) == if owner == tenant then |fs| else 0
    ensures CountTodo(fs, tenant, Executed()) == 0
  {
    NamesDistinct();
    if fs != [] { CreationsCounted(fs[1..], owner, tenant); }
  }

  lemma OpenedOwes(s: State, r: Request, tenant: Str)
    requires Admits(s, r)
    ensures CountTodo(Opened(s, r).todo, tenant, Created()) == Owed(r, tenant, Created())
    ensures CountTodo(Opened(s, r).todo, tenant, Executed()) == Owed(r, tenant, Executed())
  {
    var todo := Opened(s, r).todo;
    NamesDistinct();
    if r.RunPipeline? {
      CreationsCounted(todo, r.tenant, tenant);
    } else {
      CaseActions(r, Cases.Attempt(s.store, OpOf(r)).1.inv);
      assert todo[1..] == [];
    }
  }

  ghost predicate Pays(s: State, p: nat, tenant: Str, action: Str)
    requires p < |s.sessions|
  {
    CountPlaced(s.log, {p}, tenant, action, |s.log|) + CountTodo(s.sessions[p].todo, tenant, action) ==
    Owed(s.sessions[p].request, tenant, action)
  }

  /** Every session has recorded what it owed, but for what it has yet to record. */
  ghost predicate Ledger(s: State, tenant: Str) {
    && (forall i :: 0 <= i < |s.log| ==> s.log[i].session < |s.sessions|)
    && (forall p :: 0 <= p < |s.sessions| ==> Pays(s, p, tenant, Created()) && Pays(s, p, tenant, Executed()))
  }

  lemma RecordPays(d: Deployment, s: State, p: nat, q: nat, tenant: Str, action: Str)
    requires Records(s, p) && q < |s.sessions| && Pays(s, q, tenant, action)
    ensures Pays(Next(d, s, Record(p)), q, tenant, action)
  {
    var t := Next(d, s, Record(p));
    CountOfPrefix(s.log, t.log, {q}, tenant, action, |s.log|);
  }

  lemma BeginPays(d: Deployment, s: State, r: Request, tenant: Str)
    requires Admits(s, r) && forall i :: 0 <= i < |s.log| ==> s.log[i].session < |s.sessions|
    ensures var t := Next(d, s, Begin(r));
            Pays(t, |s.sessions|, tenant, Created()) && Pays(t, |s.sessions|, tenant, Executed())
  {
    OpenedOwes(s, r, tenant);
    CountOfNobody(s.log, |s.sessions|, tenant, Created(), |s.log|);
    CountOfNobody(s.log, |s.sessions|, tenant, Executed(), |s.log|);
  }

  /** Neither its rows nor its request nor what it has left to record changed. */
  lemma StillPays(s: State, t: State, q: nat, tenant: Str)
    requires q < |s.sessions| && q < |t.sessions| && t.log == s.log
    requires t.sessions[q].request == s.sessions[q].request && t.sessions[q].todo == s.sessions[q].todo
    ensures Pays(t, q, tenant, Created()) <==> Pays(s, q, tenant, Created())
    ensures Pays(t, q, tenant, Executed()) <==> Pays(s, q, tenant, Executed())
  {
  }

  lemma OtherMove(d: Deployment, s: State, move: Move)
    requires !(move.Record? && Records(s, move.p))
    ensures var t := Next(d, s, move);
            && t.log == s.log && |s.sessions| <= |t.sessions|
            && (forall q :: 0 <= q < |s.sessions| ==>
                  t.sessions[q].request == s.sessions[q].request && t.sessions[q].todo == s.sessions[q].todo)
            && (|t.sessions| > |s.sessions| ==>
                  move.Begin? && Admits(s, move.request) && |t.sessions| == |s.sessions| + 1)
  {
  }

  lemma MoveKeepsLedger(d: Deployment, s: State, move: Move, tenant: Str)
    requires Ledger(s, tenant)
    ensures Ledger(Next(d, s, move), tenant)
  {
    var t := Next(d, s, move);
    if move.Record? && Records(s, move.p) {
      forall q | 0 <= q < |t.sessions| ensures Pays(t, q, tenant, Created()) && Pays(t, q, tenant, Executed()) {
        assert Pays(s, q, tenant, Created()) && Pays(s, q, tenant, Executed());
        RecordPays(d, s, move.p, q, tenant, Created());
        RecordPays(d, s, move.p, q, tenant, Executed());
      }
    } else {
      OtherMove(d, s, move);
      forall q | 0 <= q < |t.sessions| ensures Pays(t, q, tenant, Created()) && Pays(t, q, tenant, Executed()) {
        if q < |s.sessions| {
          assert Pays(s, q, tenant, Created()) && Pays(s, q, tenant, Executed());
          StillPays(s, t, q, tenant);
        } else {
          BeginPays(d, s, move.request, tenant);
        }
      }
    }
  }

  // ----- The books -----

  /** The committed execute requests of a tenant. */
  function ExecutionsOf(s: State, tenant: Str): set<nat> {
    set p | 0 <= p < |s.sessions| && s.sessions[p].phase == Committed &&
            s.sessions[p].request.Execute? && s.sessions[p].request.tenant == tenant
  }

  lemma CommitCounts(d: Deployment, s: State, p: nat, tenant: Str, action: Str)
    requires Commits(s, p) && Pays(s, p, tenant, action)
    ensures CountActions(Tables(Next(d, s, Commit(p))).audit, tenant, action) ==
            CountActions(Tables(s).audit, tenant, action) + Owed(s.sessions[p].request, tenant, action)
  {
    MoveCommitted(d, s, Commit(p));
    PlacedAreCounted(s.log, CommittedOf(s), tenant, action, |s.log|);
    PlacedAreCounted(s.log, CommittedOf(s) + {p}, tenant, action, |s.log|);
    CountJoins(s.log, CommittedOf(s), p, tenant, action, |s.log|);
  }

  lemma CommitCases(d: Deployment, s: State, p: nat, tenant: Str)
    requires Commits(s, p) && FreshMove(s, Commit(p))
    ensures var r := s.sessions[p].request;
            |Cases.StoredOf(StoreAfter(s.store, s.sessions[p]).rows, tenant)| ==
            |Cases.StoredOf(s.store.rows, tenant)| + if r.RunPipeline? && r.tenant == tenant then |r.found| else 0
  {
    var session := s.sessions[p];
    var r, t := session.request, StoreAfter(s.store, session);
    if r.RunPipeline? {
      var tables := System(s.store, [], []);
      InsertAllIsSaved(d, tables, r.tenant, r.actor, r.found);
      SavedAllBooks(d, tables, r.tenant, r.actor, r.found, tenant);
    } else {
      var key := Cases.KeyOf(OpOf(r));
      if key in s.store.rows { StoredOneMore(s.store.rows, key, t.rows[key], tenant); }
    }
  }

  lemma CommitUsage(d: Deployment, s: State, r: Request, tenant: Str)
    ensures MeteredTotal(UsageAfter(d, s, r), tenant, ModelCallKind()) ==
            MeteredTotal(s.usage, tenant, ModelCallKind())
            + if r.RunPipeline? && r.tenant == tenant then |r.found| else 0
    ensures MeteredTotal(UsageAfter(d, s, r), tenant, ActionKind()) ==
            MeteredTotal(s.usage, tenant, ActionKind()) + if r.Execute? && r.tenant == tenant then 1 else 0
  {
    if r.RunPipeline? { RunMeteredTotals(d, Tables(s), r, tenant); }
    if r.Execute? { ActionMetered(d, Tables(s), r.tenant, r.now, tenant); }
  }

  lemma CommitExecutions(d: Deployment, s: State, p: nat, tenant: Str)
    requires Commits(s, p)
    ensures var r := s.sessions[p].request;
            |ExecutionsOf(Next(d, s, Commit(p)), tenant)| ==
            |ExecutionsOf(s, tenant)| + if r.Execute? && r.tenant == tenant then 1 else 0
  {
    var r, t := s.sessions[p].request, Next(d, s, Commit(p));
    if r.Execute? && r.tenant == tenant {
      assert ExecutionsOf(t, tenant) == ExecutionsOf(s, tenant) + {p};
    } else {
      assert ExecutionsOf(t, tenant) == ExecutionsOf(s, tenant);
    }
  }

  lemma CommitBooks(d: Deployment, s: State, p: nat, tenant: Str)
    requires Commits(s, p) && FreshMove(s, Commit(p)) && Ledger(s, tenant)
    requires BooksAgree(Tables(s), tenant, |ExecutionsOf(s, tenant)|)
    ensures BooksAgree(Tables(Next(d, s, Commit(p))), tenant, |ExecutionsOf(Next(d, s, Commit(p)), tenant)|)
  {
    assert Pays(s, p, tenant, Created()) && Pays(s, p, tenant, Executed());
    NamesDistinct();
    CommitCounts(d, s, p, tenant, Created());
    CommitCounts(d, s, p, tenant, Executed());
    CommitCases(d, s, p, tenant);
    CommitUsage(d, s, s.sessions[p].request, tenant);
    CommitExecutions(d, s, p, tenant);
    CommitTables(d, s, p);
  }

  lemma CommitTables(d: Deployment, s: State, p: nat)
    requires Commits(s, p)
    ensures Tables(Next(d, s, Commit(p))) ==
            System(StoreAfter(s.store, s.sessions[p]), RowsShown(s.log, CommittedOf(s) + {p}, |s.log|),
                   UsageAfter(d, s, s.sessions[p].request))
  {
    MoveCommitted(d, s, Commit(p));
  }

  lemma QuietExecutions(d: Deployment, s: State, move: Move, tenant: Str)
    requires !(move.Commit? && Commits(s, move.p))
    ensures ExecutionsOf(Next(d, s, move), tenant) == ExecutionsOf(s, tenant)
  {
  }

  lemma MoveBooks(d: Deployment, s: State, move: Move, tenant: Str)
    requires FreshMove(s, move) && Ledger(s, tenant)
    requires BooksAgree(Tables(s), tenant, |ExecutionsOf(s, tenant)|)
    ensures BooksAgree(Tables(Next(d, s, move)), tenant, |ExecutionsOf(Next(d, s, move), tenant)|)
  {
    if move.Commit? && Commits(s, move.p) {
      CommitBooks(d, s, move.p, tenant);
    } else {
      QuietExecutions(d, s, move, tenant);
      QuietMove(d, s, move);
    }
  }

  /** Until a session commits nobody sees its entries. */
  lemma QuietMove(d: Deployment, s: State, move: Move)
    requires !(move.Commit? && Commits(s, move.p))
    ensures var t := Next(d, s, move);
            Tables(t).audit == Tables(s).audit && t.usage == s.usage && t.store.rows == s.store.rows
  {
    QuietRows(d, s, move);
    QuietUsage(d, s, move);
    MoveCommitted(d, s, move);
    if move.Record? && Records(s, move.p) {
      RowsOfPrefix(s.log, Next(d, s, move).log, CommittedOf(s), |s.log|);
    } else {
      OtherMove(d, s, move);
    }
  }

  lemma QuietUsage(d: Deployment, s: State, move: Move)
    requires !(move.Commit? && Commits(s, move.p))
    ensures Next(d, s, move).usage == s.usage
  {
  }

  lemma {:induction false} RowsOfPrefix(log: seq<Placed>, more: seq<Placed>, who: set<nat>, n: nat)
    requires log <= more && n <= |log|
    ensures RowsShown(more, who, n) == RowsShown(log, who, n)
  {
    if n > 0 { RowsOfPrefix(log, more, who, n - 1); }
  }

  lemma {:induction false} LedgerHolds(d: Deployment, moves: seq<Move>, tenant: Str)
    ensures Ledger(Run(d, moves), tenant)
  {
    if moves != [] {
      LedgerHolds(d, moves[..|moves| - 1], tenant);
      MoveKeepsLedger(d, Run(d, moves[..|moves| - 1]), moves[|moves| - 1], tenant);
    }
  }

  /**
   However sessions interleave, in every state, for every tenant: stored investigations, creation entries and metered
   model calls agree; committed executions, execution entries and metered actions agree.
   */
  lemma {:induction false} BooksHold(d: Deployment, moves: seq<Move>, tenant: Str)
    requires FreshMoves(d, moves)
    ensures BooksAgree(Tables(Run(d, moves)), tenant, |ExecutionsOf(Run(d, moves), tenant)|)
  {
    if moves != [] {
      BooksHold(d, moves[..|moves| - 1], tenant);
      LedgerHolds(d, moves[..|moves| - 1], tenant);
      MoveBooks(d, Run(d, moves[..|moves| - 1]), moves[|moves| - 1], tenant);
    }
  }

  // ----- Metered searches and the bill -----

  /** The searches of the committed runs of a tenant. */
  function SearchesCommitted(sessions: seq<Session>, tenant: Str): nat {
    if sessions == [] then 0
    else
      SearchesCommitted(sessions[..|sessions| - 1], tenant) + SearchesBy(sessions[|sessions| - 1], tenant)
  }

  function SearchesBy(x: Session, tenant: Str): nat {
    if x.phase == Committed && x.request.RunPipeline? && x.request.tenant == tenant then x.request.enabledRules else 0
  }

  lemma {:induction false} SearchesReplaced(sessions: seq<Session>, p: nat, x: Session, tenant: Str)
    requires p < |sessions|
    ensures SearchesCommitted(sessions[p := x], tenant) ==
            SearchesCommitted(sessions, tenant) - SearchesBy(sessions[p], tenant) + SearchesBy(x, tenant)
  {
    var n := |sessions| - 1;
    if p < n {
      SearchesReplaced(sessions[..n], p, x, tenant);
      assert sessions[p := x][..n] == sessions[..n][p := x];
    } else {
      assert sessions[p := x][..n] == sessions[..n];
    }
  }

  lemma SearchesSnoc(sessions: seq<Session>, x: Session, tenant: Str)
    ensures SearchesCommitted(sessions + [x], tenant) == SearchesCommitted(sessions, tenant) + SearchesBy(x, tenant)
  {
    assert (sessions + [x])[..|sessions|] == sessions;
  }

  lemma QuietSearches(d: Deployment, s: State, move: Move, tenant: Str)
    requires !(move.Commit? && Commits(s, move.p))
    ensures SearchesCommitted(Next(d, s, move).sessions, tenant) == SearchesCommitted(s.sessions, tenant)
  {
    match move {
      case Begin(r) => if Admits(s, r) { SearchesSnoc(s.sessions, Opened(s, r), tenant); }
      case Read(p) => if Reads(s, p) { SearchesReplaced(s.sessions, p, Next(d, s, move).sessions[p], tenant); }
      case Record(p) => if Records(s, p) { SearchesReplaced(s.sessions, p, Next(d, s, move).sessions[p], tenant); }
      case Commit(p) =>
        if IsRunning(s, p) { SearchesReplaced(s.sessions, p, s.sessions[p].(phase := Aborted), tenant); }
      case Abort(p) =>
        if IsRunning(s, p) { SearchesReplaced(s.sessions, p, s.sessions[p].(phase := Aborted), tenant); }
    }
  }

  lemma CommitSearches(d: Deployment, s: State, p: nat, tenant: Str)
    requires Commits(s, p)
    ensures var t := Next(d, s, Commit(p));
            MeteredTotal(t.usage, tenant, Lit("search")) - SearchesCommitted(t.sessions, tenant) ==
            MeteredTotal(s.usage, tenant, Lit("search")) - SearchesCommitted(s.sessions, tenant)
  {
    var r := s.sessions[p].request;
    SearchesReplaced(s.sessions, p, s.sessions[p].(phase := Committed), tenant);
    if r.RunPipeline? {
      RunMetersSearches(d, Tables(s), r, tenant);
    } else {
      CaseMetersNoSearch(d, Tables(s), r, tenant);
    }
  }

  /** Under every interleaving a tenant's metered searches are those of its committed runs. */
  lemma {:induction false} SearchesMatchSessions(d: Deployment, moves: seq<Move>, tenant: Str)
    ensures MeteredTotal(Run(d, moves).usage, tenant, Lit("search")) ==
            SearchesCommitted(Run(d, moves).sessions, tenant)
  {
    if moves != [] {
      var s, move := Run(d, moves[..|moves| - 1]), moves[|moves| - 1];
      SearchesMatchSessions(d, moves[..|moves| - 1], tenant);
      if move.Commit? && Commits(s, move.p) {
        CommitSearches(d, s, move.p, tenant);
      } else {
        QuietSearches(d, s, move, tenant);
        QuietUsage(d, s, move);
      }
    }
  }

  lemma {:induction false} SessionsAtListPrice(d: Deployment, moves: seq<Move>)
    ensures AtListPrice(d.prices, Run(d, moves).usage)
  {
    if moves != [] {
      var s, move := Run(d, moves[..|moves| - 1]), moves[|moves| - 1];
      SessionsAtListPrice(d, moves[..|moves| - 1]);
      if move.Commit? && Commits(s, move.p) {
        var r := s.sessions[move.p].request;
        if r.RunPipeline? { RunAtListPrice(d, Tables(s), r); } else { CaseAtListPrice(d, Tables(s), r); }
      } else {
        QuietUsage(d, s, move);
      }
    }
  }

  /** Under every interleaving a tenant owes its searches, model calls and actions, each at its list price. */
  lemma BillHolds(d: Deployment, moves: seq<Move>, tenant: Str)
    ensures var usage := Run(d, moves).usage;
            TenantCost(usage, tenant) ==
            d.prices.search * MeteredTotal(usage, tenant, Lit("search"))
            + d.prices.modelCall * MeteredTotal(usage, tenant, Lit("model_call"))
            + d.prices.action * MeteredTotal(usage, tenant, Lit("action"))
  {
    SessionsAtListPrice(d, moves);
    CostsAreTotals(d.prices, Run(d, moves).usage, tenant);
  }

  // ----- A request that nothing interleaves with -----

  /** Record everything a session has left to record. */
  function Drained(d: Deployment, s: State, p: nat): State
    requires p < |s.sessions| && s.sessions[p].seen.None?
    decreases |s.sessions[p].todo|
  {
    if !IsRunning(s, p) || s.sessions[p].todo == [] then s else Drained(d, RecordNext(d, s, p), p)
  }

  /** Begin, record and end one request without another step in between. */
  function Alone(d: Deployment, s: State, r: Request, raises: bool): State {
    var begun := Next(d, s, Begin(r));
    if !Admits(s, r) then begun
    else
      var p := |s.sessions|;
      Next(d, Drained(d, begun, p), if raises then Abort(p) else Commit(p))
  }

  lemma {:induction false} RecordAllFromFirst(hash: Audit.Hash, table: seq<Audit.Row>, fs: seq<Audit.Fields>)
    requires fs != []
    ensures Audit.RecordAll(hash, table, fs) ==
            Audit.RecordAll(hash, Audit.Recorded(hash, table, fs[0]), fs[1..])
  {
    if |fs| == 1 {
      assert fs[..0] == [] && fs[1..] == [];
    } else {
      RecordAllFromFirst(hash, table, fs[..|fs| - 1]);
      EndsOfMiddle(fs);
    }
  }

  lemma EndsOfMiddle<T>(xs: seq<T>)
    requires |xs| > 1
    ensures xs[..|xs| - 1] != [] && xs[..|xs| - 1][0] == xs[0]
    ensures xs[1..] != [] && xs[1..][|xs| - 2] == xs[|xs| - 1]
    ensures xs[1..][..|xs| - 2] == xs[..|xs| - 1][1..]
  {
  }

  /** A record appends to what its session sees just what the serial service would append. */
  lemma RecordShows(hash: Audit.Hash, log: seq<Placed>, committed: set<nat>, p: nat, f: Audit.Fields)
    ensures var more := PlacedBy(hash, log, p, ReadBy(log, committed, p, f.tenant), f);
            RowsShown(more, committed + {p}, |more|) ==
            Audit.Recorded(hash, RowsShown(log, committed + {p}, |log|), f)
  {
    var more := PlacedBy(hash, log, p, ReadBy(log, committed, p, f.tenant), f);
    RowsOfPrefix(log, more, committed + {p}, |log|);
    TipIsLastHash(log, committed + {p}, f.tenant, |log|);
  }

  lemma RecordNextShape(d: Deployment, s: State, p: nat)
    requires Reads(s, p)
    ensures var f := s.sessions[p].todo[0];
            RecordNext(d, s, p) ==
            s.(log := PlacedBy(d.hash, s.log, p, ReadBy(s.log, CommittedOf(s), p, f.tenant), f),
               sessions := s.sessions[p := s.sessions[p].(todo := s.sessions[p].todo[1..])])
    ensures CommittedOf(RecordNext(d, s, p)) == CommittedOf(s)
  {
    var read := Next(d, s, Read(p));
    MoveCommitted(d, s, Read(p));
    MoveCommitted(d, read, Record(p));
    UpdatedTwice(s.sessions, p, read.sessions[p], s.sessions[p].(todo := s.sessions[p].todo[1..]));
  }

  lemma UpdatedTwice<T>(xs: seq<T>, i: nat, x: T, y: T)
    requires i < |xs|
    ensures xs[i := x][i := y] == xs[i := y]
  {
  }

  lemma LastUpdated<T>(xs: seq<T>, x: T, y: T)
    ensures (xs + [x])[|xs| := y] == xs + [y]
  {
  }

  lemma {:induction false} DrainRecordsAll(d: Deployment, s: State, p: nat)
    requires IsRunning(s, p) && s.sessions[p].seen.None?
    ensures var t, session := Drained(d, s, p), s.sessions[p];
            && t == s.(log := t.log, sessions := s.sessions[p := session.(todo := [])])
            && CommittedOf(t) == CommittedOf(s)
            && RowsShown(t.log, CommittedOf(s) + {p}, |t.log|) ==
               Audit.RecordAll(d.hash, RowsShown(s.log, CommittedOf(s) + {p}, |s.log|), session.todo)
    decreases |s.sessions[p].todo|
  {
    var todo := s.sessions[p].todo;
    if todo == [] {
      assert s.sessions[p := s.sessions[p].(todo := [])] == s.sessions;
    } else {
      var next := RecordNext(d, s, p);
      RecordNextShape(d, s, p);
      RecordShows(d.hash, s.log, CommittedOf(s), p, todo[0]);
      RecordAllFromFirst(d.hash, RowsShown(s.log, CommittedOf(s) + {p}, |s.log|), todo);
      DrainRecordsAll(d, next, p);
      UpdatedTwice(s.sessions, p, next.sessions[p], s.sessions[p].(todo := []));
    }
  }

  lemma RecordAllSnoc(hash: Audit.Hash, table: seq<Audit.Row>, fs: seq<Audit.Fields>, f: Audit.Fields)
    ensures Audit.RecordAll(hash, table, fs + [f]) == Audit.Recorded(hash, Audit.RecordAll(hash, table, fs), f)
  {
    assert (fs + [f])[..|fs|] == fs;
  }

  lemma {:induction false} SavedAllRecords(d: Deployment, s: System, tenant: Str, actor: Str, found: seq<Investigation>)
    ensures SavedAll(d, s, tenant, actor, found).audit ==
            Audit.RecordAll(d.hash, s.audit, CreatedEntries(tenant, actor, found))
    ensures SavedAll(d, s, tenant, actor, found).usage == s.usage
  {
    if found != [] {
      var init, last := found[..|found| - 1], found[|found| - 1];
      SavedAllRecords(d, s, tenant, actor, init);
      RecordAllSnoc(d.hash, s.audit, CreatedEntries(tenant, actor, init), CreatedEntry(tenant, actor, last));
    }
  }

  lemma {:induction false} UnplacedIsInvisible(log: seq<Placed>, who: set<nat>, p: nat, n: nat)
    requires n <= |log| && forall i :: 0 <= i < |log| ==> log[i].session != p
    ensures RowsShown(log, who + {p}, n) == RowsShown(log, who, n)
  {
    if n > 0 { UnplacedIsInvisible(log, who, p, n - 1); }
  }

  /** Just before it ends, a session alone has changed nothing that others see, and sees its own entries recorded. */
  lemma AloneRecorded(d: Deployment, s: State, r: Request)
    requires Admits(s, r) && forall i :: 0 <= i < |s.log| ==> s.log[i].session < |s.sessions|
    ensures var p, session := |s.sessions|, Opened(s, r);
            var t := Drained(d, Next(d, s, Begin(r)), p);
            && t.store == RolledBack(Tables(s), r).store && t.usage == s.usage
            && t.sessions == s.sessions + [session.(todo := [])]
            && CommittedOf(t) == CommittedOf(s) && p !in CommittedOf(s)
            && Tables(t).audit == Tables(s).audit
            && RowsShown(t.log, CommittedOf(s) + {p}, |t.log|) ==
               Audit.RecordAll(d.hash, Tables(s).audit, session.todo)
  {
    var p, begun := |s.sessions|, Next(d, s, Begin(r));
    MoveCommitted(d, s, Begin(r));
    DrainRecordsAll(d, begun, p);
    LastUpdated(s.sessions, Opened(s, r), Opened(s, r).(todo := []));
    UnplacedIsInvisible(s.log, CommittedOf(s), p, |s.log|);
    DrainIsQuiet(d, begun, p);
  }

  lemma {:induction false} DrainIsQuiet(d: Deployment, s: State, p: nat)
    requires p < |s.sessions| && s.sessions[p].seen.None?
    ensures Tables(Drained(d, s, p)).audit == Tables(s).audit
    decreases |s.sessions[p].todo|
  {
    if IsRunning(s, p) && s.sessions[p].todo != [] {
      QuietMove(d, s, Read(p));
      QuietMove(d, Next(d, s, Read(p)), Record(p));
      DrainIsQuiet(d, RecordNext(d, s, p), p);
    }
  }

  /** The checks of a session are the checks of the serial route, but for an id that another tenant holds. */
  lemma AdmitsWhatIsHandled(d: Deployment, s: State, r: Request)
    ensures Handle(d, Tables(s), r).Some? <==>
              Admits(s, r) && !(r.RunPipeline? && Clashes(s.store.rows, r.tenant, r.found))
  {
  }

  lemma RefusedAlone(d: Deployment, s: State, r: Request, raises: bool)
    requires !Admits(s, r)
    ensures Tables(Alone(d, s, r, raises)) == Step(d, Tables(s), r, raises)
  {
    AdmitsWhatIsHandled(d, s, r);
    QuietMove(d, s, Begin(r));
  }

  lemma RaisedAlone(d: Deployment, s: State, t: State, r: Request)
    requires t.store == RolledBack(Tables(s), r).store && t.usage == s.usage && Tables(t).audit == Tables(s).audit
    requires IsRunning(t, |s.sessions|)
    ensures Tables(Next(d, t, Abort(|s.sessions|))) == RolledBack(Tables(s), r)
  {
    QuietMove(d, t, Abort(|s.sessions|));
  }

  /** A session that nothing interleaves with does what the serial route does, and commits or undoes the same. */
  lemma ServedAlone(d: Deployment, s: State, r: Request, raises: bool)
    requires forall i :: 0 <= i < |s.log| ==> s.log[i].session < |s.sessions|
    ensures Tables(Alone(d, s, r, raises)) == Step(d, Tables(s), r, raises)
  {
    if !Admits(s, r) {
      RefusedAlone(d, s, r, raises);
    } else {
      AloneRecorded(d, s, r);
      var t := Drained(d, Next(d, s, Begin(r)), |s.sessions|);
      if raises {
        RaisedAlone(d, s, t, r);
      } else if r.RunPipeline? {
        RunAlone(d, s, t, r);
      } else {
        CaseAlone(d, s, t, r);
      }
    }
  }

  lemma CaseAlone(d: Deployment, s: State, t: State, r: Request)
    requires Admits(s, r) && !r.RunPipeline? && t.store == RolledBack(Tables(s), r).store && t.usage == s.usage
    requires var p := |s.sessions|;
             && t.sessions == s.sessions + [Opened(s, r).(todo := [])]
             && CommittedOf(t) == CommittedOf(s)
             && RowsShown(t.log, CommittedOf(s) + {p}, |t.log|) ==
                Audit.RecordAll(d.hash, Tables(s).audit, Opened(s, r).todo)
    ensures Tables(Next(d, t, Commit(|s.sessions|))) == Step(d, Tables(s), r, false)
  {
    CommitTables(d, t, |s.sessions|);
    CaseCommitted(d, s, t, r);
  }

  lemma RunClashed(d: Deployment, s: State, p: nat)
    requires !Commits(s, p)
    ensures Tables(Next(d, s, Commit(p))) == Tables(s)
  {
    QuietMove(d, s, Commit(p));
  }

  lemma RunAlone(d: Deployment, s: State, t: State, r: Request)
    requires Admits(s, r) && r.RunPipeline? && t.store == s.store && t.usage == s.usage
    requires var p := |s.sessions|;
             && t.sessions == s.sessions + [Opened(s, r).(todo := [])]
             && CommittedOf(t) == CommittedOf(s) && Tables(t).audit == Tables(s).audit
             && RowsShown(t.log, CommittedOf(s) + {p}, |t.log|) ==
                Audit.RecordAll(d.hash, Tables(s).audit, Opened(s, r).todo)
    ensures Tables(Next(d, t, Commit(|s.sessions|))) == Step(d, Tables(s), r, false)
  {
    RunStep(d, Tables(s), r);
    if Commits(t, |s.sessions|) {
      CommitTables(d, t, |s.sessions|);
      RunCommitted(d, s, t, r);
    } else {
      RunClashed(d, t, |s.sessions|);
    }
  }

  lemma RunCommitted(d: Deployment, s: State, t: State, r: Request)
    requires Admits(s, r) && r.RunPipeline? && t.store == s.store && t.usage == s.usage
    ensures var after := RunMetered(d, Tables(s), r);
            && SavedAll(d, after, r.tenant, r.actor, r.found).store == StoreAfter(t.store, Opened(s, r).(todo := []))
            && SavedAll(d, after, r.tenant, r.actor, r.found).audit ==
               Audit.RecordAll(d.hash, Tables(s).audit, Opened(s, r).todo)
            && SavedAll(d, after, r.tenant, r.actor, r.found).usage == UsageAfter(d, t, r)
  {
    var after := RunMetered(d, Tables(s), r);
    InsertAllIsSaved(d, after, r.tenant, r.actor, r.found);
    SavedAllRecords(d, after, r.tenant, r.actor, r.found);
  }

  lemma CaseCommitted(d: Deployment, s: State, t: State, r: Request)
    requires Admits(s, r) && !r.RunPipeline? && t.store == RolledBack(Tables(s), r).store && t.usage == s.usage
    ensures StoreAfter(t.store, Opened(s, r).(todo := [])) == Cases.Attempt(s.store, OpOf(r)).0
    ensures UsageAfter(d, t, r) == CaseMetered(d, Tables(s), r).usage
    ensures Audit.RecordAll(d.hash, Tables(s).audit, Opened(s, r).todo) ==
            Audit.Recorded(d.hash, Tables(s).audit, CaseEntry(r, Cases.Attempt(s.store, OpOf(r)).1.inv))
  {
    var op := OpOf(r);
    Cases.AttemptRow(s.store, op);
    var read := s.store.rows[Cases.KeyOf(op)];
    UndisturbedCommit(read, Cases.RowAfter(read, op));
    assert Opened(s, r).todo[..0] == [];
  }
}
