/**
 The audit table under concurrent sessions. A record first reads the last hash among the rows its session can see; its
 row takes a place later. Other sessions see the row only once its session has committed.
 */
module SharedLog {
  import opened Basics
  import opened Audit

  /** A recorded row, its session, and the place of the row whose hash it read, or -1 if it saw none. */
  datatype Placed = Placed(session: nat, after: int, row: Row)

  /** Place i holds a row of this tenant from one of these sessions. */
  predicate Shows(log: seq<Placed>, who: set<nat>, tenant: Str, i: int) {
    0 <= i < |log| && log[i].session in who && log[i].row.fields.tenant == tenant
  }

  /** The last such place before n, or -1. */
  function Latest(log: seq<Placed>, who: set<nat>, tenant: Str, n: nat): (q: int)
    requires n <= |log|
    ensures -1 <= q < n
  {
    if n == 0 then -1
    else if Shows(log, who, tenant, n - 1) then n - 1
    else Latest(log, who, tenant, n - 1)
  }

  /** No such place strictly between q and n. */
  ghost predicate Gap(log: seq<Placed>, who: set<nat>, tenant: Str, q: int, n: int) {
    forall k :: q < k < n ==> !Shows(log, who, tenant, k)
  }

  /** What singles out the latest place: it shows, and nothing between it and n does. */
  lemma {:induction false} LatestShape(log: seq<Placed>, who: set<nat>, tenant: Str, n: nat)
    requires n <= |log|
    ensures var q := Latest(log, who, tenant, n);
            (q >= 0 ==> Shows(log, who, tenant, q)) && Gap(log, who, tenant, q, n)
  {
    if n > 0 { LatestShape(log, who, tenant, n - 1); }
  }

  lemma LatestIs(log: seq<Placed>, who: set<nat>, tenant: Str, n: nat, q: int)
    requires n <= |log| && -1 <= q < n && (q >= 0 ==> Shows(log, who, tenant, q)) && Gap(log, who, tenant, q, n)
    ensures Latest(log, who, tenant, n) == q
  {
    LatestShape(log, who, tenant, n);
    var r := Latest(log, who, tenant, n);
    if r < q { assert Shows(log, who, tenant, q); }
  }

  lemma GapUnion(log: seq<Placed>, who: set<nat>, p: nat, tenant: Str, q: int, n: int)
    requires Gap(log, who, tenant, q, n) && Gap(log, {p}, tenant, q, n)
    ensures Gap(log, who + {p}, tenant, q, n)
  {
    forall k | q < k < n ensures !Shows(log, who + {p}, tenant, k) {
      assert !Shows(log, who, tenant, k) && !Shows(log, {p}, tenant, k);
    }
  }

  lemma GapNarrows(log: seq<Placed>, who: set<nat>, tenant: Str, q: int, n: int, r: int, m: int)
    requires Gap(log, who, tenant, q, n) && q <= r && m <= n
    ensures Gap(log, who, tenant, r, m)
  {
  }

  /** What more sessions do not show, fewer do not show either. */
  lemma GapOfFewer(log: seq<Placed>, fewer: set<nat>, who: set<nat>, tenant: Str, q: int, n: int)
    requires Gap(log, who, tenant, q, n) && fewer <= who
    ensures Gap(log, fewer, tenant, q, n)
  {
    forall k | q < k < n ensures !Shows(log, fewer, tenant, k) { assert !Shows(log, who, tenant, k); }
  }

  function HashAt(log: seq<Placed>, q: int): Str
    requires -1 <= q < |log|
  {
    if q < 0 then [] else log[q].row.entryHash
  }

  /** The last hash among the rows of these sessions before place n. */
  function Tip(log: seq<Placed>, who: set<nat>, tenant: Str, n: nat): Str
    requires n <= |log|
  {
    HashAt(log, Latest(log, who, tenant, n))
  }

  /** The rows of these sessions, in the order of their places. */
  function RowsShown(log: seq<Placed>, who: set<nat>, n: nat): seq<Row>
    requires n <= |log|
  {
    if n == 0 then []
    else if log[n - 1].session in who then RowsShown(log, who, n - 1) + [log[n - 1].row]
    else RowsShown(log, who, n - 1)
  }

  /** The last hash that a session saw, and the place of the row that carries it, or -1. */
  datatype Reading = Reading(after: int, hash: Str)

  function ReadBy(log: seq<Placed>, committed: set<nat>, p: nat, tenant: Str): Reading {
    var q := Latest(log, committed + {p}, tenant, |log|);
    Reading(q, HashAt(log, q))
  }

  /** Append a row chained to the hash that the session read, whatever was placed since. */
  function PlacedBy(hash: Hash, log: seq<Placed>, p: nat, reading: Reading, f: Fields): seq<Placed> {
    log + [Placed(p, reading.after, NewRow(hash, f, reading.hash))]
  }

  // ----- Chains by place -----

  ghost predicate Chained(log: seq<Placed>, who: set<nat>, tenant: Str) {
    forall i :: Shows(log, who, tenant, i) ==> log[i].row.prevHash == Tip(log, who, tenant, i)
  }

  ghost predicate Honest(hash: Hash, log: seq<Placed>) {
    forall i :: 0 <= i < |log| ==>
      log[i].row.entryHash == ComputeHash(hash, log[i].row.fields, log[i].row.prevHash)
  }

  ghost predicate StorableLog(log: seq<Placed>) {
    forall i :: 0 <= i < |log| ==> Storable(log[i].row.fields)
  }

  lemma {:induction false} TipIsLastHash(log: seq<Placed>, who: set<nat>, tenant: Str, n: nat)
    requires n <= |log|
    ensures Tip(log, who, tenant, n) == LastHash(RowsShown(log, who, n), tenant)
    ensures (Latest(log, who, tenant, n) < 0) <==> RowsOf(tenant, RowsShown(log, who, n)) == []
  {
    if n > 0 {
      TipIsLastHash(log, who, tenant, n - 1);
      ShownRows(log, who, tenant, n);
    }
  }

  /** The tenant's rows shown, one place further. */
  lemma ShownRows(log: seq<Placed>, who: set<nat>, tenant: Str, n: nat)
    requires 0 < n <= |log|
    ensures RowsOf(tenant, RowsShown(log, who, n)) ==
            if Shows(log, who, tenant, n - 1) then RowsOf(tenant, RowsShown(log, who, n - 1)) + [log[n - 1].row]
            else RowsOf(tenant, RowsShown(log, who, n - 1))
  {
    if log[n - 1].session in who { RowsOfSnoc(tenant, RowsShown(log, who, n - 1), log[n - 1].row); }
  }

  ghost predicate ChainedTo(log: seq<Placed>, who: set<nat>, tenant: Str, n: nat)
    requires n <= |log|
  {
    forall i :: i < n && Shows(log, who, tenant, i) ==> log[i].row.prevHash == Tip(log, who, tenant, i)
  }

  /** A row appended to a chain keeps it intact if and only if the hash it names is still the last one. */
  lemma AppendKeepsChainIff(hash: Hash, rows: seq<Row>, f: Fields, prev: Str)
    ensures Intact(hash, rows + [NewRow(hash, f, prev)]) <==>
              Intact(hash, rows) && prev == LastOf(rows)
  {
    var more := rows + [NewRow(hash, f, prev)];
    if Intact(hash, more) {
      assert Link(hash, more, |rows|);
      forall i | 0 <= i < |rows| ensures Link(hash, rows, i) { assert Link(hash, more, i); }
    }
    if Intact(hash, rows) && prev == LastOf(rows) {
      forall i | 0 <= i < |more| ensures Link(hash, more, i) {
        if i < |rows| { assert Link(hash, rows, i); }
      }
    }
  }

  /** The rows that these sessions show verify exactly when every one of them names the hash before it. */
  lemma {:induction false} ChainedIsIntact(hash: Hash, log: seq<Placed>, who: set<nat>, tenant: Str, n: nat)
    requires n <= |log| && Honest(hash, log)
    ensures Intact(hash, RowsOf(tenant, RowsShown(log, who, n))) <==> ChainedTo(log, who, tenant, n)
  {
    if n > 0 {
      ChainedIsIntact(hash, log, who, tenant, n - 1);
      OneMoreShown(hash, log, who, tenant, n);
    }
  }

  lemma OneMoreShown(hash: Hash, log: seq<Placed>, who: set<nat>, tenant: Str, n: nat)
    requires 0 < n <= |log| && Honest(hash, log)
    requires Intact(hash, RowsOf(tenant, RowsShown(log, who, n - 1))) <==> ChainedTo(log, who, tenant, n - 1)
    ensures Intact(hash, RowsOf(tenant, RowsShown(log, who, n))) <==> ChainedTo(log, who, tenant, n)
  {
    ChainedToStep(log, who, tenant, n);
    ShownStep(hash, log, who, tenant, n);
  }

  lemma ChainedToStep(log: seq<Placed>, who: set<nat>, tenant: Str, n: nat)
    requires 0 < n <= |log|
    ensures ChainedTo(log, who, tenant, n) <==>
              && ChainedTo(log, who, tenant, n - 1)
              && (Shows(log, who, tenant, n - 1) ==> log[n - 1].row.prevHash == Tip(log, who, tenant, n - 1))
  {
  }

  lemma ShownStep(hash: Hash, log: seq<Placed>, who: set<nat>, tenant: Str, n: nat)
    requires 0 < n <= |log| && Honest(hash, log)
    ensures Intact(hash, RowsOf(tenant, RowsShown(log, who, n))) <==>
              && Intact(hash, RowsOf(tenant, RowsShown(log, who, n - 1)))
              && (Shows(log, who, tenant, n - 1) ==> log[n - 1].row.prevHash == Tip(log, who, tenant, n - 1))
  {
    ShownRows(log, who, tenant, n);
    if Shows(log, who, tenant, n - 1) {
      var r := log[n - 1].row;
      TipIsLastHash(log, who, tenant, n - 1);
      assert r == NewRow(hash, r.fields, r.prevHash);
      AppendKeepsChainIff(hash, RowsOf(tenant, RowsShown(log, who, n - 1)), r.fields, r.prevHash);
    }
  }

  /** In a chain no two rows share a hash, and no hash is empty. */
  lemma {:induction false} HashesDistinct(hash: Hash, log: seq<Placed>, who: set<nat>, tenant: Str, i: int, j: int)
    requires GoodHash(hash) && Honest(hash, log) && StorableLog(log) && Chained(log, who, tenant)
    requires i == -1 || Shows(log, who, tenant, i)
    requires j == -1 || Shows(log, who, tenant, j)
    requires HashAt(log, i) == HashAt(log, j)
    ensures i == j
    decreases i
  {
    if i >= 0 && j >= 0 {
      var p, q := Latest(log, who, tenant, i), Latest(log, who, tenant, j);
      LatestShape(log, who, tenant, i);
      LatestShape(log, who, tenant, j);
      HashKernel(hash, log[i].row.fields, HashAt(log, p), log[j].row.fields, HashAt(log, q));
      HashesDistinct(hash, log, who, tenant, p, q);
    }
  }

  // ----- What a session may rely on -----

  /** A row's predecessor is a row its session could see, and no row of its own stands between. */
  ghost predicate ReadLatest(log: seq<Placed>, committed: set<nat>, i: int)
    requires 0 <= i < |log|
  {
    var e := log[i];
    var tenant := e.row.fields.tenant;
    && -1 <= e.after < i
    && e.row.prevHash == HashAt(log, e.after)
    && (e.after >= 0 ==> Shows(log, committed + {e.session}, tenant, e.after))
    && Gap(log, {e.session}, tenant, e.after, i)
  }

  ghost predicate LogKept(hash: Hash, log: seq<Placed>, committed: set<nat>) {
    Honest(hash, log) && forall i :: 0 <= i < |log| ==> ReadLatest(log, committed, i)
  }

  lemma {:induction false} LatestOfPrefix(log: seq<Placed>, more: seq<Placed>, who: set<nat>, tenant: Str, n: nat)
    requires log <= more && n <= |log|
    ensures Latest(more, who, tenant, n) == Latest(log, who, tenant, n)
    ensures Tip(more, who, tenant, n) == Tip(log, who, tenant, n)
  {
    if n > 0 { LatestOfPrefix(log, more, who, tenant, n - 1); }
  }

  lemma ReadLatestStays(log: seq<Placed>, more: seq<Placed>, committed: set<nat>, wider: set<nat>, i: nat)
    requires log <= more && committed <= wider && i < |log| && ReadLatest(log, committed, i)
    ensures ReadLatest(more, wider, i)
  {
    var e := log[i];
    forall k | e.after < k < i ensures !Shows(more, {e.session}, e.row.fields.tenant, k) {
      assert !Shows(log, {e.session}, e.row.fields.tenant, k);
    }
  }

  /** What a session read and has not used yet: a row it could see, and no row of its own was placed since. */
  ghost predicate StillReads(log: seq<Placed>, committed: set<nat>, p: nat, tenant: Str, r: Reading) {
    && -1 <= r.after < |log| && r.hash == HashAt(log, r.after)
    && (r.after >= 0 ==> Shows(log, committed + {p}, tenant, r.after))
    && Gap(log, {p}, tenant, r.after, |log|)
  }

  lemma ReadStillReads(log: seq<Placed>, committed: set<nat>, p: nat, tenant: Str)
    ensures StillReads(log, committed, p, tenant, ReadBy(log, committed, p, tenant))
  {
    LatestShape(log, committed + {p}, tenant, |log|);
    GapOfFewer(log, {p}, committed + {p}, tenant, Latest(log, committed + {p}, tenant, |log|), |log|);
  }

  /** Rows that other sessions place, and commits, leave a reading as it is. */
  lemma StillReadsLater(
      log: seq<Placed>, more: seq<Placed>, committed: set<nat>, wider: set<nat>, p: nat, tenant: Str, r: Reading)
    requires StillReads(log, committed, p, tenant, r) && log <= more && committed <= wider
    requires forall k :: |log| <= k < |more| ==> more[k].session != p
    ensures StillReads(more, wider, p, tenant, r)
  {
    forall k | r.after < k < |more| ensures !Shows(more, {p}, tenant, k) {
      if k < |log| { assert !Shows(log, {p}, tenant, k); }
    }
  }

  lemma PlaceKeepsLog(hash: Hash, log: seq<Placed>, committed: set<nat>, p: nat, r: Reading, f: Fields)
    requires LogKept(hash, log, committed) && StillReads(log, committed, p, f.tenant, r)
    ensures LogKept(hash, PlacedBy(hash, log, p, r, f), committed)
  {
    var more := PlacedBy(hash, log, p, r, f);
    forall i | 0 <= i < |more| ensures ReadLatest(more, committed, i) {
      if i < |log| {
        ReadLatestStays(log, more, committed, committed, i);
      } else {
        PlaceReads(hash, log, committed, p, r, f);
      }
    }
  }

  lemma PlaceReads(hash: Hash, log: seq<Placed>, committed: set<nat>, p: nat, r: Reading, f: Fields)
    requires StillReads(log, committed, p, f.tenant, r)
    ensures ReadLatest(PlacedBy(hash, log, p, r, f), committed, |log|)
  {
    var more := PlacedBy(hash, log, p, r, f);
    forall k | r.after < k < |log| ensures !Shows(more, {p}, f.tenant, k) { assert !Shows(log, {p}, f.tenant, k); }
  }

  lemma CommitKeepsLog(hash: Hash, log: seq<Placed>, committed: set<nat>, p: nat)
    requires LogKept(hash, log, committed)
    ensures LogKept(hash, log, committed + {p})
  {
    forall i | 0 <= i < |log| ensures ReadLatest(log, committed + {p}, i) {
      ReadLatestStays(log, log, committed, committed + {p}, i);
    }
  }

  // ----- When a commit keeps the chain -----

  /** Place f holds the first row that the session recorded for the tenant. */
  ghost predicate First(log: seq<Placed>, p: nat, tenant: Str, f: int) {
    Shows(log, {p}, tenant, f) && Gap(log, {p}, tenant, -1, f)
  }

  lemma FirstOwn(log: seq<Placed>, p: nat, tenant: Str, i: int) returns (f: int)
    requires Shows(log, {p}, tenant, i)
    ensures f <= i && First(log, p, tenant, f)
    decreases i
  {
    LatestShape(log, {p}, tenant, i);
    var q := Latest(log, {p}, tenant, i);
    if q < 0 { f := i; } else { f := FirstOwn(log, p, tenant, q); }
  }

  /** The first row that the session recorded for the tenant names the hash that is last now. */
  ghost predicate StillLast(log: seq<Placed>, committed: set<nat>, p: nat, tenant: Str) {
    forall f :: First(log, p, tenant, f) ==> log[f].row.prevHash == Tip(log, committed, tenant, |log|)
  }

  /** An open session over a log whose committed part verifies for this tenant. */
  ghost predicate Ready(hash: Hash, log: seq<Placed>, committed: set<nat>, p: nat, tenant: Str) {
    && GoodHash(hash) && LogKept(hash, log, committed) && StorableLog(log) && p !in committed
    && Chained(log, committed, tenant)
  }

  /** The session's first row was chained to a committed row, or to none. */
  lemma FirstReadsCommitted(hash: Hash, log: seq<Placed>, committed: set<nat>, p: nat, tenant: Str, f: int)
    requires LogKept(hash, log, committed) && First(log, p, tenant, f)
    ensures -1 <= log[f].after < f && log[f].row.prevHash == HashAt(log, log[f].after)
    ensures log[f].after >= 0 ==> Shows(log, committed, tenant, log[f].after)
  {
    assert ReadLatest(log, committed, f);
    var q := log[f].after;
    if q >= 0 { assert !Shows(log, {p}, tenant, q); }
  }

  /** If the last hash is still the one read, the last committed row is the one read. */
  lemma ReadIsLast(hash: Hash, log: seq<Placed>, committed: set<nat>, p: nat, tenant: Str, f: int)
    requires Ready(hash, log, committed, p, tenant) && StillLast(log, committed, p, tenant) && First(log, p, tenant, f)
    ensures Latest(log, committed, tenant, |log|) == log[f].after < f
  {
    FirstReadsCommitted(hash, log, committed, p, tenant, f);
    LatestShape(log, committed, tenant, |log|);
    HashesDistinct(hash, log, committed, tenant, log[f].after, Latest(log, committed, tenant, |log|));
  }

  lemma OwnReadsBehindFirst(log: seq<Placed>, committed: set<nat>, p: nat, tenant: Str, f: int, i: int)
    requires First(log, p, tenant, f) && Shows(log, {p}, tenant, i) && f <= i && ReadLatest(log, committed, i)
    ensures f < i ==> log[i].after >= f
    ensures -1 <= log[i].after < i && log[i].row.prevHash == HashAt(log, log[i].after)
    ensures log[i].after >= 0 ==> Shows(log, committed + {p}, tenant, log[i].after)
    ensures Gap(log, {p}, tenant, log[i].after, i)
  {
  }

  /** A row of the session's own follows what it read, or its own previous row, and nothing stands between. */
  lemma OwnRowChains(hash: Hash, log: seq<Placed>, committed: set<nat>, p: nat, tenant: Str, i: int)
    requires Ready(hash, log, committed, p, tenant) && StillLast(log, committed, p, tenant)
    requires Shows(log, {p}, tenant, i)
    ensures log[i].row.prevHash == Tip(log, committed + {p}, tenant, i)
  {
    var f := FirstOwn(log, p, tenant, i);
    ReadIsLast(hash, log, committed, p, tenant, f);
    OwnReadsBehindFirst(log, committed, p, tenant, f, i);
    var q := log[i].after;
    LatestAfterAll(log, committed, p, tenant, q, i);
  }

  /** Behind every committed row, the latest visible one is the session's own latest. */
  lemma LatestAfterAll(log: seq<Placed>, committed: set<nat>, p: nat, tenant: Str, q: int, i: int)
    requires -1 <= q < i <= |log| && Latest(log, committed, tenant, |log|) <= q
    requires (q >= 0 ==> Shows(log, committed + {p}, tenant, q)) && Gap(log, {p}, tenant, q, i)
    ensures Latest(log, committed + {p}, tenant, i) == q
  {
    LatestShape(log, committed, tenant, |log|);
    GapNarrows(log, committed, tenant, Latest(log, committed, tenant, |log|), |log|, q, i);
    GapUnion(log, committed, p, tenant, q, i);
    LatestIs(log, committed + {p}, tenant, i, q);
  }

  /** The session's rows all stand behind every committed row. */
  lemma OtherRowChains(hash: Hash, log: seq<Placed>, committed: set<nat>, p: nat, tenant: Str, i: int)
    requires Ready(hash, log, committed, p, tenant) && StillLast(log, committed, p, tenant)
    requires Shows(log, committed, tenant, i)
    ensures log[i].row.prevHash == Tip(log, committed + {p}, tenant, i)
  {
    var q := Latest(log, committed, tenant, i);
    LatestShape(log, committed, tenant, i);
    NoneOwnBefore(hash, log, committed, p, tenant, i);
    GapNarrows(log, {p}, tenant, -1, i, q, i);
    GapUnion(log, committed, p, tenant, q, i);
    LatestIs(log, committed + {p}, tenant, i, q);
  }

  lemma NoneOwnBefore(hash: Hash, log: seq<Placed>, committed: set<nat>, p: nat, tenant: Str, i: int)
    requires Ready(hash, log, committed, p, tenant) && StillLast(log, committed, p, tenant)
    requires Shows(log, committed, tenant, i)
    ensures Gap(log, {p}, tenant, -1, i)
  {
    LatestShape(log, committed, tenant, |log|);
    if k :| -1 < k < i && Shows(log, {p}, tenant, k) {
      var f := FirstOwn(log, p, tenant, k);
      ReadIsLast(hash, log, committed, p, tenant, f);
      assert false;
    }
  }

  /** Where both chains verify, a committed row has the same predecessor in both. */
  lemma SamePredecessor(hash: Hash, log: seq<Placed>, committed: set<nat>, p: nat, tenant: Str, y: int)
    requires Ready(hash, log, committed, p, tenant) && Chained(log, committed + {p}, tenant)
    requires Shows(log, committed, tenant, y)
    ensures Latest(log, committed, tenant, y) == Latest(log, committed + {p}, tenant, y)
  {
    assert Shows(log, committed + {p}, tenant, y);
    LatestShape(log, committed, tenant, y);
    LatestShape(log, committed + {p}, tenant, y);
    HashesDistinct(hash, log, committed + {p}, tenant,
                   Latest(log, committed, tenant, y), Latest(log, committed + {p}, tenant, y));
  }

  /** If the chain verifies after the commit, no committed row stands behind the session's first. */
  lemma NothingBehind(hash: Hash, log: seq<Placed>, committed: set<nat>, p: nat, tenant: Str, f: int, y: int)
    requires Ready(hash, log, committed, p, tenant) && Chained(log, committed + {p}, tenant)
    requires First(log, p, tenant, f) && Shows(log, committed, tenant, y)
    ensures y < f
    decreases y
  {
    if y > f {
      var z := Latest(log, committed, tenant, y);
      LatestShape(log, committed, tenant, y);
      SamePredecessor(hash, log, committed, p, tenant, y);
      LatestReaches(log, committed + {p}, tenant, f, y);
      NothingBehind(hash, log, committed, p, tenant, f, z);
    }
  }

  lemma LatestReaches(log: seq<Placed>, who: set<nat>, tenant: Str, f: int, y: int)
    requires f < y <= |log| && Shows(log, who, tenant, f)
    ensures Latest(log, who, tenant, y) >= f
  {
    LatestShape(log, who, tenant, y);
  }

  lemma VerifiesOnlyIfLast(hash: Hash, log: seq<Placed>, committed: set<nat>, p: nat, tenant: Str, f: int)
    requires Ready(hash, log, committed, p, tenant) && Chained(log, committed + {p}, tenant)
    requires First(log, p, tenant, f)
    ensures log[f].row.prevHash == Tip(log, committed, tenant, |log|)
  {
    var last := Latest(log, committed, tenant, |log|);
    LatestShape(log, committed, tenant, |log|);
    if last >= 0 { NothingBehind(hash, log, committed, p, tenant, f, last); }
    assert Shows(log, committed + {p}, tenant, f);
    GapNarrows(log, committed, tenant, last, |log|, last, f);
    GapNarrows(log, {p}, tenant, -1, f, last, f);
    GapUnion(log, committed, p, tenant, last, f);
    LatestIs(log, committed + {p}, tenant, f, last);
  }

  /**
   A commit keeps a tenant's chain verifying if and only if the hash that its first row for the tenant names, the
   last one when it was read, is the last one still.
   */
  lemma CommitChainsIff(hash: Hash, log: seq<Placed>, committed: set<nat>, p: nat, tenant: Str)
    requires Ready(hash, log, committed, p, tenant)
    ensures Chained(log, committed + {p}, tenant) <==> StillLast(log, committed, p, tenant)
  {
    if StillLast(log, committed, p, tenant) {
      forall i | Shows(log, committed + {p}, tenant, i)
        ensures log[i].row.prevHash == Tip(log, committed + {p}, tenant, i)
      {
        if log[i].session == p {
          OwnRowChains(hash, log, committed, p, tenant, i);
        } else {
          OtherRowChains(hash, log, committed, p, tenant, i);
        }
      }
    }
    if Chained(log, committed + {p}, tenant) {
      forall f | First(log, p, tenant, f) ensures log[f].row.prevHash == Tip(log, committed, tenant, |log|) {
        VerifiesOnlyIfLast(hash, log, committed, p, tenant, f);
      }
    }
  }

  /** What no longer verifies never verifies again: a later commit cannot repair a chain. */
  lemma BrokenStaysBroken(hash: Hash, log: seq<Placed>, committed: set<nat>, p: nat, tenant: Str)
    requires GoodHash(hash) && LogKept(hash, log, committed) && StorableLog(log)
    requires Chained(log, committed + {p}, tenant)
    ensures Chained(log, committed, tenant)
  {
    forall i | Shows(log, committed, tenant, i) ensures log[i].row.prevHash == Tip(log, committed, tenant, i) {
      PredecessorCommitted(hash, log, committed, p, tenant, i);
      LatestIs(log, committed, tenant, i, log[i].after);
    }
  }

  lemma PredecessorCommitted(hash: Hash, log: seq<Placed>, committed: set<nat>, p: nat, tenant: Str, i: int)
    requires GoodHash(hash) && LogKept(hash, log, committed) && StorableLog(log)
    requires Chained(log, committed + {p}, tenant) && Shows(log, committed, tenant, i)
    ensures var q := log[i].after;
            && -1 <= q < i && log[i].row.prevHash == HashAt(log, q)
            && (q >= 0 ==> Shows(log, committed, tenant, q)) && Gap(log, committed, tenant, q, i)
  {
    assert ReadLatest(log, committed, i);
    assert Shows(log, committed + {p}, tenant, i);
    var q := log[i].after;
    LatestShape(log, committed + {p}, tenant, i);
    HashesDistinct(hash, log, committed + {p}, tenant, q, Latest(log, committed + {p}, tenant, i));
    GapOfFewer(log, committed, committed + {p}, tenant, q, i);
  }

  /** A row not yet committed changes nothing that others verify. */
  lemma PlaceIsInvisible(
      hash: Hash, log: seq<Placed>, committed: set<nat>, p: nat, r: Reading, f: Fields, tenant: Str)
    requires p !in committed
    ensures Chained(PlacedBy(hash, log, p, r, f), committed, tenant) <==> Chained(log, committed, tenant)
  {
    var more := PlacedBy(hash, log, p, r, f);
    forall i | Shows(log, committed, tenant, i) || Shows(more, committed, tenant, i)
      ensures Shows(log, committed, tenant, i) && Shows(more, committed, tenant, i)
      ensures log[i] == more[i] && Tip(more, committed, tenant, i) == Tip(log, committed, tenant, i)
    {
      LatestOfPrefix(log, more, committed, tenant, i);
    }
  }
}
