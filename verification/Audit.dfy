/**
 The hash-chained audit log. Tenants share one append-only table; every row carries the hash of its
 tenant's previous row.

 The hash is a parameter. What tamper evidence needs of it is `GoodHash`: distinct texts have
 distinct hashes, and a hash is a non-empty printable string.
 */
module Audit {
  import opened Basics
  import opened Json

  type Hash = string -> Str

  ghost predicate GoodHash(hash: Hash) {
    && (forall s, t :: hash(s) == hash(t) ==> s == t)
    && (forall s :: hash(s) != [] && Unpaired(hash(s)))
  }

  /** Such a hash exists: one that spells the text out behind a marker. */
  lemma GoodHashExists()
    ensures exists hash: Hash :: GoodHash(hash)
  {
    var spell: Hash := (s: string) => Lit(['h'] + s);
    forall s, t | spell(s) == spell(t) ensures s == t {
      assert |Lit(['h'] + s)| == |Lit(['h'] + t)|;
      forall i | 0 <= i < |s| ensures s[i] == t[i] {
        assert Lit(['h'] + s)[i + 1] == Lit(['h'] + t)[i + 1];
      }
    }
    assert GoodHash(spell);
  }

  /** The six fields a caller supplies; `detail` is a dictionary in insertion order. */
  datatype Fields = Fields(tenant: Str, actor: Str, action: Str, targetType: Str, targetId: Str, detail: seq<Entry>)

  datatype Row = Row(fields: Fields, prevHash: Str, entryHash: Str)

  /** The object whose canonical text is hashed. */
  function Body(f: Fields, prev: Str): Json {
    Obj([
      Entry(Lit("tenant_id"), Text(f.tenant)),
      Entry(Lit("actor"), Text(f.actor)),
      Entry(Lit("action"), Text(f.action)),
      Entry(Lit("target_type"), Text(f.targetType)),
      Entry(Lit("target_id"), Text(f.targetId)),
      Entry(Lit("detail"), Obj(f.detail)),
      Entry(Lit("prev_hash"), Text(prev))
    ])
  }

  function ComputeHash(hash: Hash, f: Fields, prev: Str): Str {
    hash(Canonical(Body(f, prev)))
  }

  /** Fields the database can hold: text columns and a dictionary without surrogate pairs. */
  ghost predicate Storable(f: Fields) {
    && Unpaired(f.tenant) && Unpaired(f.actor) && Unpaired(f.action)
    && Unpaired(f.targetType) && Unpaired(f.targetId)
    && Clean(Obj(f.detail)) && IsDict(Obj(f.detail))
  }

  /** Equal in every column, with details equal as dictionaries. */
  ghost predicate SameFields(f: Fields, g: Fields) {
    && f.tenant == g.tenant && f.actor == g.actor && f.action == g.action
    && f.targetType == g.targetType && f.targetId == g.targetId
    && Same(Obj(f.detail), Obj(g.detail))
  }

  lemma BodyKeysDistinct(f: Fields, prev: Str)
    ensures DistinctKeys(Body(f, prev).entries)
  {
    var e := Body(f, prev).entries;
    assert e[0].key[1] == 'e' as int && e[1].key[1] == 'c' as int && e[2].key[1] == 'c' as int;
    assert e[1].key[3] == 'o' as int && e[2].key[3] == 'i' as int;
    assert e[0].key[0] == e[3].key[0] == e[4].key[0] == 't' as int;
    assert e[3].key[1] == e[4].key[1] == 'a' as int;
    assert |e[3].key| == 11 && |e[4].key| == 9;
    assert e[5].key[0] == 'd' as int && e[6].key[0] == 'p' as int && e[1].key[0] == e[2].key[0] == 'a' as int;
  }

  lemma BodyWellFormed(f: Fields, prev: Str)
    requires Storable(f) && Unpaired(prev)
    ensures Clean(Body(f, prev)) && IsDict(Body(f, prev))
  {
    BodyKeysDistinct(f, prev);
    var e := Body(f, prev).entries;
    forall i | 0 <= i < |e| ensures Unpaired(e[i].key) && Clean(e[i].value) && IsDict(e[i].value) {
    }
  }

  /** The hashed object determines every field and the previous hash. */
  lemma SameBodies(f: Fields, p: Str, g: Fields, q: Str)
    ensures Same(Body(f, p), Body(g, q)) <==> SameFields(f, g) && p == q
  {
    var a, b := Body(f, p).entries, Body(g, q).entries;
    BodyKeysDistinct(f, p);
    AlignedDictionaries(a, b);
    SevenSame(a, b);
    TextsSame(f.tenant, g.tenant);
    TextsSame(f.actor, g.actor);
    TextsSame(f.action, g.action);
    TextsSame(f.targetType, g.targetType);
    TextsSame(f.targetId, g.targetId);
    TextsSame(p, q);
  }

  lemma SevenSame(a: seq<Entry>, b: seq<Entry>)
    requires |a| == |b| == 7
    ensures (forall i :: 0 <= i < |a| ==> Same(a[i].value, b[i].value)) <==>
              && Same(a[0].value, b[0].value) && Same(a[1].value, b[1].value) && Same(a[2].value, b[2].value)
              && Same(a[3].value, b[3].value) && Same(a[4].value, b[4].value) && Same(a[5].value, b[5].value)
              && Same(a[6].value, b[6].value)
  {
  }

  lemma TextsSame(s: Str, t: Str)
    ensures Same(Text(s), Text(t)) <==> s == t
  {
  }

  /** Two rows hash alike exactly when all their hashed fields and their previous hashes are equal. */
  lemma HashKernel(hash: Hash, f: Fields, p: Str, g: Fields, q: Str)
    requires GoodHash(hash) && Storable(f) && Storable(g) && Unpaired(p) && Unpaired(q)
    ensures ComputeHash(hash, f, p) == ComputeHash(hash, g, q) <==> SameFields(f, g) && p == q
  {
    BodyWellFormed(f, p);
    BodyWellFormed(g, q);
    CanonicalKernel(Body(f, p), Body(g, q));
    SameBodies(f, p, g, q);
  }

  // ----- The hashed text -----

  /** The hashed object with its keys sorted. */
  ghost function SortedBody(f: Fields, prev: Str): seq<Entry> {
    [Entry(Lit("action"), Text(f.action)), Entry(Lit("actor"), Text(f.actor)),
     Entry(Lit("detail"), Normalize(Obj(f.detail))), Entry(Lit("prev_hash"), Text(prev)),
     Entry(Lit("target_id"), Text(f.targetId)), Entry(Lit("target_type"), Text(f.targetType)),
     Entry(Lit("tenant_id"), Text(f.tenant))]
  }

  lemma FirstDifference(a: Str, b: Str, k: nat)
    requires k < |a| && k < |b| && a[..k] == b[..k] && a[k] < b[k]
    ensures Less(a, b)
  {
    DiffersIsLess(a, b, k);
  }

  lemma SortedBodyAscends(f: Fields, prev: Str)
    ensures Ascending(Keys(SortedBody(f, prev)))
  {
    var ks := Keys(SortedBody(f, prev));
    FirstDifference(ks[0], ks[1], 3);
    FirstDifference(ks[1], ks[2], 0);
    FirstDifference(ks[2], ks[3], 0);
    FirstDifference(ks[3], ks[4], 0);
    FirstDifference(ks[4], ks[5], 7);
    FirstDifference(ks[5], ks[6], 1);
    StepsAscend(ks);
  }

  lemma SortedComesFrom(e: seq<Entry>, sorted: seq<Entry>, x: Entry)
    requires |e| == 7 && x in sorted
    requires forall i :: 0 <= i < 7 && i != 5 ==> NormalizeEntry(e[i]) == e[i]
    requires sorted == [e[2], e[1], NormalizeEntry(e[5]), e[6], e[4], e[3], e[0]]
    ensures Normalizes(e, x)
  {
    var k :| 0 <= k < 7 && sorted[k] == x;
    var i := [2, 1, 5, 6, 4, 3, 0][k];
    assert x == NormalizeEntry(e[i]);
  }

  lemma SortedBodyIs(f: Fields, prev: Str)
    ensures NormalizeEntries(Body(f, prev).entries) == SortedBody(f, prev)
  {
    var e, sorted := Body(f, prev).entries, SortedBody(f, prev);
    BodyKeysDistinct(f, prev);
    NormalizeEntriesShape(e);
    SortedBodyAscends(f, prev);
    forall i | 0 <= i < 7 && i != 5 ensures NormalizeEntry(e[i]) == e[i] { assert e[i].value.Text?; }
    assert NormalizeEntry(e[5]) == sorted[2];
    assert sorted == [e[2], e[1], NormalizeEntry(e[5]), e[6], e[4], e[3], e[0]];
    forall x ensures x in sorted <==> Normalizes(e, x) {
      if x in sorted { SortedComesFrom(e, sorted, x); }
      if i :| 0 <= i < 7 && x == NormalizeEntry(e[i]) { assert x in sorted; }
    }
    SortedEntriesUnique(NormalizeEntries(e), sorted);
  }

  /** The names of the hashed members, in their order. */
  ghost function BodyNames(): seq<string> {
    ["action", "actor", "detail", "prev_hash", "target_id", "target_type", "tenant_id"]
  }

  ghost function BodyTexts(f: Fields, prev: Str): seq<string> {
    [Quoted(f.action), Quoted(f.actor), Canonical(Obj(f.detail)), Quoted(prev),
     Quoted(f.targetId), Quoted(f.targetType), Quoted(f.tenant)]
  }

  lemma NamesPlain(i: nat)
    requires i < 7
    ensures Plain(BodyNames()[i])
  {
  }

  lemma TextsEmitted(f: Fields, prev: Str, i: nat)
    requires i < 7
    ensures BodyTexts(f, prev)[i] == Emit(SortedBody(f, prev)[i].value)
  {
  }

  lemma SortedBodyMembers(f: Fields, prev: Str)
    ensures EntryTexts(SortedBody(f, prev)) == Members(BodyNames(), BodyTexts(f, prev))
  {
    var sorted := SortedBody(f, prev);
    forall i | 0 <= i < 7 ensures Plain(BodyNames()[i]) && sorted[i].key == Lit(BodyNames()[i]) { NamesPlain(i); }
    forall i | 0 <= i < 7 ensures BodyTexts(f, prev)[i] == Emit(sorted[i].value) { TextsEmitted(f, prev, i); }
    PlainEntries(BodyNames(), BodyTexts(f, prev), sorted);
  }

  lemma BodyEmitted(f: Fields, prev: Str)
    ensures Canonical(Body(f, prev)) == Braced(EmitEntries(SortedBody(f, prev)))
  {
    SortedBodyIs(f, prev);
    assert Normalize(Body(f, prev)) == Obj(SortedBody(f, prev));
  }

  /** The very text that is hashed for a row: the seven members in order of their names, without a blank. */
  lemma HashedText(hash: Hash, f: Fields, prev: Str)
    ensures ComputeHash(hash, f, prev) == hash(Braced(Joined(",", Members(
              ["action", "actor", "detail", "prev_hash", "target_id", "target_type", "tenant_id"],
              [Quoted(f.action), Quoted(f.actor), Canonical(Obj(f.detail)), Quoted(prev),
               Quoted(f.targetId), Quoted(f.targetType), Quoted(f.tenant)]))))
  {
    BodyEmitted(f, prev);
    EntriesAreJoined(SortedBody(f, prev));
    SortedBodyMembers(f, prev);
  }

  // ----- Chains -----

  function PrevAt(rows: seq<Row>, i: nat): Str
    requires i < |rows|
  {
    if i == 0 then [] else rows[i - 1].entryHash
  }

  ghost predicate Link(hash: Hash, rows: seq<Row>, i: nat)
    requires i < |rows|
  {
    && rows[i].prevHash == PrevAt(rows, i)
    && rows[i].entryHash == ComputeHash(hash, rows[i].fields, PrevAt(rows, i))
  }

  /** Every row names the hash before it and carries its own recomputed hash. */
  ghost predicate Intact(hash: Hash, rows: seq<Row>) {
    forall i :: 0 <= i < |rows| ==> Link(hash, rows, i)
  }

  ghost predicate AllStorable(rows: seq<Row>) {
    forall i :: 0 <= i < |rows| ==> Storable(rows[i].fields)
  }

  ghost predicate SameRow(r: Row, s: Row) {
    SameFields(r.fields, s.fields) && r.prevHash == s.prevHash && r.entryHash == s.entryHash
  }

  lemma PrevUnpaired(hash: Hash, rows: seq<Row>, i: nat)
    requires GoodHash(hash) && Intact(hash, rows) && i < |rows|
    ensures Unpaired(PrevAt(rows, i)) && rows[i].entryHash != []
    ensures i > 0 ==> PrevAt(rows, i) != []
  {
    assert Link(hash, rows, i);
    if i > 0 { assert Link(hash, rows, i - 1); }
  }

  /**
   A hash fixes its place and its whole past: if two intact chains share a hash anywhere, it stands at
   the same position in both and every row up to it is the same. By descent to the empty root.
   */
  lemma {:induction false} HashFixesPast(hash: Hash, a: seq<Row>, b: seq<Row>, i: nat, j: nat)
    requires GoodHash(hash) && Intact(hash, a) && Intact(hash, b) && AllStorable(a) && AllStorable(b)
    requires i < |a| && j < |b| && a[i].entryHash == b[j].entryHash
    ensures i == j
    ensures forall k :: 0 <= k <= i ==> SameRow(a[k], b[k])
  {
    assert Link(hash, a, i) && Link(hash, b, j);
    PrevUnpaired(hash, a, i);
    PrevUnpaired(hash, b, j);
    HashKernel(hash, a[i].fields, PrevAt(a, i), b[j].fields, PrevAt(b, j));
    if i > 0 && j > 0 { HashFixesPast(hash, a, b, i - 1, j - 1); }
  }

  /** Two intact logs with the same last hash have the same rows. */
  lemma SameTipSameLog(hash: Hash, a: seq<Row>, b: seq<Row>)
    requires GoodHash(hash) && Intact(hash, a) && Intact(hash, b) && AllStorable(a) && AllStorable(b)
    requires a != [] && b != [] && a[|a| - 1].entryHash == b[|b| - 1].entryHash
    ensures |a| == |b| && forall k :: 0 <= k < |a| ==> SameRow(a[k], b[k])
  {
    HashFixesPast(hash, a, b, |a| - 1, |b| - 1);
  }

  /** Dropping, repeating or reordering rows of an intact chain goes unnoticed only for a prefix of it. */
  lemma OnlyPrefixesVerify(hash: Hash, chain: seq<Row>, rows: seq<Row>)
    requires GoodHash(hash) && Intact(hash, chain) && AllStorable(chain)
    requires forall r :: r in rows ==> r in chain
    ensures Intact(hash, rows) <==> rows <= chain
  {
    if Intact(hash, rows) {
      assert AllStorable(rows) by {
        forall j | 0 <= j < |rows| ensures Storable(rows[j].fields) { assert rows[j] in chain; }
      }
      forall j | 0 <= j < |rows| ensures j < |chain| && rows[j] == chain[j] {
        assert rows[j] in chain;
        var i :| 0 <= i < |chain| && chain[i] == rows[j];
        HashFixesPast(hash, chain, rows, i, j);
      }
      if rows != [] { var last := rows[|rows| - 1]; }
    }
    if rows <= chain {
      forall i | 0 <= i < |rows| ensures Link(hash, rows, i) { assert Link(hash, chain, i); }
    }
  }

  /** Deleting one row is detected unless it is the last. */
  lemma DeletionDetected(hash: Hash, chain: seq<Row>, i: nat)
    requires GoodHash(hash) && Intact(hash, chain) && AllStorable(chain) && i < |chain|
    ensures Intact(hash, chain[..i] + chain[i + 1..]) <==> i == |chain| - 1
  {
    var rows := chain[..i] + chain[i + 1..];
    OnlyPrefixesVerify(hash, chain, rows);
    if rows <= chain && i < |chain| - 1 {
      assert chain[i] == rows[i] == chain[i + 1];
      HashFixesPast(hash, chain, chain, i, i + 1);
    }
  }

  /**
   Overwriting one row. Any change of a hashed field is detected, whatever is written into the row's two
   hash columns, except in the last row with its hash recomputed.
   */
  lemma EditDetected(hash: Hash, rows: seq<Row>, i: nat, r: Row)
    requires GoodHash(hash) && Intact(hash, rows) && AllStorable(rows) && i < |rows| && Storable(r.fields)
    ensures Intact(hash, rows[i := r]) <==>
              && r.prevHash == rows[i].prevHash
              && r.entryHash == ComputeHash(hash, r.fields, rows[i].prevHash)
              && (i < |rows| - 1 ==> SameFields(r.fields, rows[i].fields))
  {
    var edited := rows[i := r];
    assert Link(hash, rows, i);
    PrevUnpaired(hash, rows, i);
    HashKernel(hash, r.fields, PrevAt(rows, i), rows[i].fields, PrevAt(rows, i));
    if Intact(hash, edited) {
      assert Link(hash, edited, i);
      if i < |rows| - 1 {
        assert Link(hash, edited, i + 1) && Link(hash, rows, i + 1);
      }
    }
    if && r.prevHash == rows[i].prevHash
       && r.entryHash == ComputeHash(hash, r.fields, rows[i].prevHash)
       && (i < |rows| - 1 ==> SameFields(r.fields, rows[i].fields))
    {
      forall k | 0 <= k < |edited| ensures Link(hash, edited, k) {
        assert Link(hash, rows, k);
      }
    }
  }

  // ----- Rewriting the log -----

  function LastOf(rows: seq<Row>): Str {
    if rows == [] then [] else rows[|rows| - 1].entryHash
  }

  /** The same fields in the same order, with every hash computed anew. */
  function Rechained(hash: Hash, rows: seq<Row>): (r: seq<Row>)
    ensures |r| == |rows| && forall i :: 0 <= i < |rows| ==> r[i].fields == rows[i].fields
  {
    if rows == [] then []
    else
      var before := Rechained(hash, rows[..|rows| - 1]);
      before + [NewRow(hash, rows[|rows| - 1].fields, LastOf(before))]
  }

  lemma {:induction false} RechainedIsIntact(hash: Hash, rows: seq<Row>)
    ensures Intact(hash, Rechained(hash, rows))
  {
    if rows != [] {
      var before, all := Rechained(hash, rows[..|rows| - 1]), Rechained(hash, rows);
      RechainedIsIntact(hash, rows[..|rows| - 1]);
      forall i | 0 <= i < |all| ensures Link(hash, all, i) {
        if i < |before| { assert Link(hash, before, i); }
      }
    }
  }

  lemma PrefixIntact(hash: Hash, chain: seq<Row>, n: nat)
    requires Intact(hash, chain) && n <= |chain|
    ensures Intact(hash, chain[..n])
  {
    forall k | 0 <= k < n ensures Link(hash, chain[..n], k) { assert Link(hash, chain, k); }
  }

  /** Recomputing the hashes of an intact chain changes nothing. */
  lemma {:induction false} RechainedIsItself(hash: Hash, chain: seq<Row>)
    requires Intact(hash, chain)
    ensures Rechained(hash, chain) == chain
  {
    if chain != [] {
      var n := |chain| - 1;
      PrefixIntact(hash, chain, n);
      RechainedIsItself(hash, chain[..n]);
      assert Link(hash, chain, n);
      assert chain[n] == NewRow(hash, chain[n].fields, LastOf(chain[..n]));
    }
  }

  /** What was chained before a row does not depend on what follows it. */
  lemma {:induction false} RechainedPrefix(hash: Hash, rows: seq<Row>, n: nat)
    requires n <= |rows|
    ensures Rechained(hash, rows)[..n] == Rechained(hash, rows[..n])
  {
    if n < |rows| {
      assert rows[..|rows| - 1][..n] == rows[..n];
      RechainedPrefix(hash, rows[..|rows| - 1], n);
    } else {
      assert rows[..n] == rows;
    }
  }

  ghost predicate AllSameFields(a: seq<Row>, b: seq<Row>) {
    |a| == |b| && forall i :: 0 <= i < |a| ==> SameFields(a[i].fields, b[i].fields)
  }

  lemma {:induction false} RechainedAlike(hash: Hash, a: seq<Row>, b: seq<Row>)
    requires GoodHash(hash) && AllStorable(a) && AllStorable(b) && AllSameFields(a, b)
    ensures LastOf(Rechained(hash, a)) == LastOf(Rechained(hash, b)) && Unpaired(LastOf(Rechained(hash, a)))
  {
    if a != [] {
      var n := |a| - 1;
      InitsAlike(a, b);
      RechainedAlike(hash, a[..n], b[..n]);
      var prev := LastOf(Rechained(hash, a[..n]));
      RechainedLast(hash, a);
      RechainedLast(hash, b);
      HashKernel(hash, a[n].fields, prev, b[n].fields, prev);
    }
  }

  lemma InitsAlike(a: seq<Row>, b: seq<Row>)
    requires a != [] && AllStorable(a) && AllStorable(b) && AllSameFields(a, b)
    ensures var n := |a| - 1;
            && AllStorable(a[..n]) && AllStorable(b[..n]) && AllSameFields(a[..n], b[..n])
            && Storable(a[n].fields) && Storable(b[n].fields) && SameFields(a[n].fields, b[n].fields)
  {
  }

  lemma RechainedLast(hash: Hash, rows: seq<Row>)
    requires rows != []
    ensures var n := |rows| - 1;
            LastOf(Rechained(hash, rows)) == ComputeHash(hash, rows[n].fields, LastOf(Rechained(hash, rows[..n])))
  {
  }

  /**
   Rewriting one row and recomputing every later hash goes unnoticed: the log verifies. What gives it away is its last
   hash, which is the old one only if no hashed field changed.
   */
  lemma RewriteVerifies(hash: Hash, chain: seq<Row>, i: nat, f: Fields)
    requires GoodHash(hash) && Intact(hash, chain) && AllStorable(chain) && i < |chain| && Storable(f)
    ensures var forged := Rechained(hash, chain[i := chain[i].(fields := f)]);
            && Intact(hash, forged) && |forged| == |chain| && forged[..i] == chain[..i] && forged[i].fields == f
            && (forall k :: 0 <= k < |chain| && k != i ==> forged[k].fields == chain[k].fields)
            && (LastOf(forged) == LastOf(chain) <==> SameFields(f, chain[i].fields))
  {
    var edited := chain[i := chain[i].(fields := f)];
    RechainedIsIntact(hash, edited);
    PrefixIntact(hash, chain, i);
    assert edited[..i] == chain[..i];
    RechainedPrefix(hash, edited, i);
    RechainedIsItself(hash, chain[..i]);
    TipShowsRewrite(hash, chain, i, f);
  }

  lemma TipShowsRewrite(hash: Hash, chain: seq<Row>, i: nat, f: Fields)
    requires GoodHash(hash) && Intact(hash, chain) && AllStorable(chain) && i < |chain| && Storable(f)
    ensures LastOf(Rechained(hash, chain[i := chain[i].(fields := f)])) == LastOf(chain) <==>
            SameFields(f, chain[i].fields)
  {
    var edited := chain[i := chain[i].(fields := f)];
    var forged := Rechained(hash, edited);
    if LastOf(forged) == LastOf(chain) {
      RechainedIsIntact(hash, edited);
      SameTipSameLog(hash, forged, chain);
    }
    if SameFields(f, chain[i].fields) {
      forall k | 0 <= k < |chain| ensures SameFields(edited[k].fields, chain[k].fields) { FieldsSame(chain[k].fields); }
      RechainedAlike(hash, edited, chain);
      RechainedIsItself(hash, chain);
    }
  }

  lemma FieldsSame(f: Fields)
    requires Storable(f)
    ensures SameFields(f, f)
  {
    NormalizeKernel(Obj(f.detail), Obj(f.detail));
  }

  // ----- The shared table -----

  function RowsOf(tenant: Str, table: seq<Row>): seq<Row> {
    Filter((r: Row) => r.fields.tenant == tenant, table)
  }

  function LastHash(table: seq<Row>, tenant: Str): Str {
    LastOf(RowsOf(tenant, table))
  }

  function NewRow(hash: Hash, f: Fields, prev: Str): Row {
    Row(f, prev, ComputeHash(hash, f, prev))
  }

  /** One record: read the tenant's last hash and append. */
  function Recorded(hash: Hash, table: seq<Row>, f: Fields): seq<Row> {
    table + [NewRow(hash, f, LastHash(table, f.tenant))]
  }

  /** A run of records, in the order they reach the table, over any tenants. */
  function RecordAll(hash: Hash, table: seq<Row>, fs: seq<Fields>): seq<Row> {
    if fs == [] then table
    else Recorded(hash, RecordAll(hash, table, fs[..|fs| - 1]), fs[|fs| - 1])
  }

  ghost predicate TenantsIntact(hash: Hash, table: seq<Row>) {
    forall t :: Intact(hash, RowsOf(t, table))
  }

  lemma RowsOfSnoc(tenant: Str, table: seq<Row>, r: Row)
    ensures RowsOf(tenant, table + [r]) == RowsOf(tenant, table) + (if r.fields.tenant == tenant then [r] else [])
  {
    FilterSnoc((x: Row) => x.fields.tenant == tenant, table, r);
  }

  /** A record extends its own tenant's chain by one row and leaves every other tenant's rows alone. */
  lemma RecordExtendsOneChain(hash: Hash, table: seq<Row>, f: Fields, tenant: Str)
    ensures tenant != f.tenant ==> RowsOf(tenant, Recorded(hash, table, f)) == RowsOf(tenant, table)
    ensures tenant == f.tenant ==>
              RowsOf(tenant, Recorded(hash, table, f)) == RowsOf(tenant, table)
                  + [NewRow(hash, f, LastHash(table, tenant))]
    ensures Intact(hash, RowsOf(tenant, table)) <==> Intact(hash, RowsOf(tenant, Recorded(hash, table, f)))
  {
    var rows := RowsOf(tenant, table);
    var r := NewRow(hash, f, LastHash(table, f.tenant));
    RowsOfSnoc(tenant, table, r);
    if tenant == f.tenant {
      var more := rows + [r];
      if Intact(hash, rows) {
        forall i | 0 <= i < |more| ensures Link(hash, more, i) {
          if i < |rows| { assert Link(hash, rows, i); }
        }
      }
      if Intact(hash, more) {
        forall i | 0 <= i < |rows| ensures Link(hash, rows, i) { assert Link(hash, more, i); }
      }
    }
  }

  /**
   However records of different tenants interleave, every tenant's chain verifies and holds its own fields in
   order.
   */
  lemma {:induction false} InterleavedRecordsVerify(hash: Hash, fs: seq<Fields>, tenant: Str)
    ensures Intact(hash, RowsOf(tenant, RecordAll(hash, [], fs)))
    ensures |RowsOf(tenant, RecordAll(hash, [], fs))| == |Filter((f: Fields) => f.tenant == tenant, fs)|
    ensures forall i :: 0 <= i < |RowsOf(tenant, RecordAll(hash, [], fs))| ==>
              RowsOf(tenant, RecordAll(hash, [], fs))[i].fields == Filter((f: Fields) => f.tenant == tenant, fs)[i]
  {
    if fs != [] {
      InterleavedRecordsVerify(hash, fs[..|fs| - 1], tenant);
      RecordExtendsOneChain(hash, RecordAll(hash, [], fs[..|fs| - 1]), fs[|fs| - 1], tenant);
    }
  }

  /**
   Why one tenant's records must be serialised: if two of them read the same last hash before either
   appends, the chain no longer verifies.
   */
  lemma RacingRecordsBreakTheChain(hash: Hash, table: seq<Row>, f: Fields, g: Fields)
    requires GoodHash(hash) && f.tenant == g.tenant && Storable(f) && Storable(g)
    requires Intact(hash, RowsOf(f.tenant, table)) && AllStorable(RowsOf(f.tenant, table))
    ensures var prev := LastHash(table, f.tenant);
            !Intact(hash, RowsOf(f.tenant, table + [NewRow(hash, f, prev)] + [NewRow(hash, g, prev)]))
  {
    var prev := LastHash(table, f.tenant);
    var rows := RowsOf(f.tenant, table);
    var r, s := NewRow(hash, f, prev), NewRow(hash, g, prev);
    RowsOfSnoc(f.tenant, table, r);
    RowsOfSnoc(f.tenant, table + [r], s);
    RecordExtendsOneChain(hash, table, f, f.tenant);
    var all := rows + [r] + [s];
    if Intact(hash, all) {
      assert Link(hash, all, |rows| + 1);
      assert prev == r.entryHash;
      if rows != [] { HashFixesPast(hash, rows + [r], rows + [r], |rows| - 1, |rows|); }
    }
  }

  // ----- The service -----

  class AuditService {
    const hash: Hash
    var table: seq<Row>

    constructor (hash: Hash)
      ensures this.hash == hash && table == []
      ensures TenantsIntact(hash, table)
    {
      this.hash := hash;
      table := [];
    }

    /** The hash of the tenant's most recent row, or the empty string. */
    method ReadLastHash(tenant: Str) returns (h: Str)
      ensures h == LastHash(table, tenant)
    {
      var rows := RowsOf(tenant, table);
      if rows == [] { return []; }
      return rows[|rows| - 1].entryHash;
    }

    /** Append one row; an absent detail is the empty dictionary. */
    method Record(tenant: Str, actor: Str, action: Str, targetType: Str, targetId: Str, detail: Option<seq<Entry>>)
      returns (entry: Row)
      modifies this
      ensures entry.fields ==
              Fields(tenant, actor, action, targetType, targetId, if detail.None? then [] else detail.value)
      ensures table == Recorded(hash, old(table), entry.fields) && entry == table[|table| - 1]
      ensures old(TenantsIntact(hash, table)) ==> TenantsIntact(hash, table)
    {
      var fields := Fields(tenant, actor, action, targetType, targetId, if detail.None? then [] else detail.value);
      var prev := ReadLastHash(tenant);
      entry := Row(fields, prev, ComputeHash(hash, fields, prev));
      ghost var before := table;
      table := table + [entry];
      assert table == Recorded(hash, before, fields);
      forall t ensures Intact(hash, RowsOf(t, before)) <==> Intact(hash, RowsOf(t, table)) {
        RecordExtendsOneChain(hash, before, fields, t);
      }
    }

    /** Recompute the tenant's chain; true iff every row's hash is intact. */
    method VerifyChain(tenant: Str) returns (ok: bool)
      ensures ok <==> Intact(hash, RowsOf(tenant, table))
    {
      var rows := RowsOf(tenant, table);
      var prev: Str := [];
      for i := 0 to |rows|
        invariant prev == if i == 0 then [] else rows[i - 1].entryHash
        invariant forall k :: 0 <= k < i ==> Link(hash, rows, k)
      {
        var expected := ComputeHash(hash, rows[i].fields, prev);
        if rows[i].prevHash != prev || rows[i].entryHash != expected {
          assert !Link(hash, rows, i);
          return false;
        }
        prev := rows[i].entryHash;
      }
      return true;
    }
  }
}
