/** Usage metering: priced events, per-kind rollups, and the provider's grand total. */
module Metering {
  import opened Basics

  const PLATFORM_TENANT: string := "__platform__"

  function SearchKind(): Str { Lit("search") }
  function ModelCallKind(): Str { Lit("model_call") }
  function TokensKind(): Str { Lit("tokens") }
  function ActionKind(): Str { Lit("action") }

  predicate ValidKind(kind: Str) {
    kind in {SearchKind(), ModelCallKind(), TokensKind(), ActionKind()}
  }

  datatype UsageEvent = UsageEvent(tenant: Str, kind: Str, quantity: int, cost: int, at: int)

  datatype PriceBook = PriceBook(search: int, modelCall: int, tokensPer1k: int, action: int)

  /** Blocks of a thousand tokens, the last one possibly partial. */
  function Blocks(quantity: int): int {
    (quantity + 999) / 1000
  }

  function CostCents(p: PriceBook, kind: Str, quantity: int): int {
    if kind == SearchKind() then p.search * quantity
    else if kind == ModelCallKind() then p.modelCall * quantity
    else if kind == TokensKind() then p.tokensPer1k * Blocks(quantity)
    else if kind == ActionKind() then p.action * quantity
    else 0
  }

  lemma KindsDistinct()
    ensures SearchKind() != ModelCallKind() && SearchKind() != TokensKind() && SearchKind() != ActionKind()
    ensures ModelCallKind() != TokensKind() && ModelCallKind() != ActionKind() && TokensKind() != ActionKind()
  {
    assert SearchKind()[0] == 's' as int && ModelCallKind()[0] == 'm' as int;
    assert TokensKind()[0] == 't' as int && ActionKind()[0] == 'a' as int;
  }

  /**
   The price list by the names of the kinds: searches, model calls and actions by the unit; tokens by the block, every
   block that was begun counting in full; anything else is no kind, and free.
   */
  lemma PricesExact(p: PriceBook, kind: Str, quantity: int, blocks: int)
    requires 1000 * (blocks - 1) < quantity <= 1000 * blocks
    ensures CostCents(p, Lit("search"), quantity) == p.search * quantity
    ensures CostCents(p, Lit("model_call"), quantity) == p.modelCall * quantity
    ensures CostCents(p, Lit("action"), quantity) == p.action * quantity
    ensures CostCents(p, Lit("tokens"), quantity) == p.tokensPer1k * blocks
    ensures ValidKind(kind) <==> kind in {Lit("search"), Lit("model_call"), Lit("tokens"), Lit("action")}
    ensures !ValidKind(kind) ==> CostCents(p, kind, quantity) == 0
  {
    KindsDistinct();
    assert Blocks(quantity) == blocks;
  }

  function PricedParts(p: PriceBook, parts: seq<int>): int {
    if parts == [] then 0
    else PricedParts(p, parts[..|parts| - 1]) + p.tokensPer1k * Blocks(parts[|parts| - 1])
  }

  lemma BlocksSplit(a: int, b: int)
    ensures Blocks(a + b) <= Blocks(a) + Blocks(b) <= Blocks(a + b) + 1
  {
  }

  /** Metering a token quantity in n events never lowers its price and adds at most n - 1 block prices. */
  lemma {:induction false} SplittingTokens(p: PriceBook, parts: seq<int>)
    requires p.tokensPer1k >= 0 && parts != []
    ensures p.tokensPer1k * Blocks(Sum(parts)) <= PricedParts(p, parts)
    ensures PricedParts(p, parts) <= p.tokensPer1k * Blocks(Sum(parts)) + (|parts| - 1) * p.tokensPer1k
  {
    var n, price := |parts| - 1, p.tokensPer1k;
    var head, last := Sum(parts[..n]), parts[n];
    BlocksSplit(head, last);
    assert price * (Blocks(head) + Blocks(last)) == price * Blocks(head) + price * Blocks(last);
    if n > 0 {
      SplittingTokens(p, parts[..n]);
      Scale(price, Blocks(head + last), Blocks(head) + Blocks(last));
      Scale(price, Blocks(head) + Blocks(last), Blocks(head + last) + 1);
      assert price * (Blocks(head + last) + 1) == price * Blocks(head + last) + price;
      assert (|parts| - 1) * price == (n - 1) * price + price;
    } else {
      assert parts[..n] == [];
    }
  }

  lemma Scale(x: int, a: int, b: int)
    requires x >= 0 && a <= b
    ensures x * a <= x * b
  {
  }

  // ----- Sums over the table -----

  function CostOf(events: seq<UsageEvent>): int {
    if events == [] then 0 else CostOf(events[..|events| - 1]) + events[|events| - 1].cost
  }

  function QuantityOf(events: seq<UsageEvent>): int {
    if events == [] then 0 else QuantityOf(events[..|events| - 1]) + events[|events| - 1].quantity
  }

  predicate InWindow(e: UsageEvent, tenant: Str, since: Option<int>, until: Option<int>) {
    e.tenant == tenant && (since.Some? ==> e.at >= since.value) && (until.Some? ==> e.at <= until.value)
  }

  /** A tenant's events in a window; both ends are included. */
  function Selected(table: seq<UsageEvent>, tenant: Str, since: Option<int>, until: Option<int>): seq<UsageEvent> {
    if table == [] then []
    else
      var e, before := table[|table| - 1], Selected(table[..|table| - 1], tenant, since, until);
      if InWindow(e, tenant, since, until) then before + [e] else before
  }

  function OfKind(events: seq<UsageEvent>, kind: Str): seq<UsageEvent> {
    if events == [] then []
    else
      var e, before := events[|events| - 1], OfKind(events[..|events| - 1], kind);
      if e.kind == kind then before + [e] else before
  }

  function KindsOf(events: seq<UsageEvent>): seq<Str> {
    seq(|events|, i requires 0 <= i < |events| => events[i].kind)
  }

  function CostByKind(kinds: seq<Str>, events: seq<UsageEvent>): int {
    if kinds == [] then 0
    else CostByKind(kinds[..|kinds| - 1], events) + CostOf(OfKind(events, kinds[|kinds| - 1]))
  }

  lemma {:induction false} CostByKindStep(kinds: seq<Str>, events: seq<UsageEvent>)
    requires events != [] && Ascending(kinds)
    ensures var e, before := events[|events| - 1], events[..|events| - 1];
            CostByKind(kinds, events) == CostByKind(kinds, before) + if e.kind in kinds then e.cost else 0
  {
    if kinds != [] {
      var n := |kinds| - 1;
      CostByKindStep(kinds[..n], events);
      LessTotal(kinds[n], kinds[n]);
      assert kinds == kinds[..n] + [kinds[n]];
      forall i | 0 <= i < n ensures kinds[..n][i] != kinds[n] { assert Less(kinds[i], kinds[n]); }
    }
  }

  /** Grouping by kind loses nothing: the costs of the kinds present add up to the cost of all events. */
  lemma {:induction false} KindsConserveCost(kinds: seq<Str>, events: seq<UsageEvent>)
    requires Ascending(kinds) && forall e :: e in events ==> e.kind in kinds
    ensures CostByKind(kinds, events) == CostOf(events)
  {
    if events == [] {
      NoEventsNoCost(kinds);
    } else {
      CostByKindStep(kinds, events);
      assert events[|events| - 1] in events;
      KindsConserveCost(kinds, events[..|events| - 1]);
    }
  }

  lemma {:induction false} NoEventsNoCost(kinds: seq<Str>)
    ensures CostByKind(kinds, []) == 0
  {
    if kinds != [] { NoEventsNoCost(kinds[..|kinds| - 1]); }
  }

  function WindowCost(table: seq<UsageEvent>, tenant: Str, since: int, until: int): int {
    CostOf(Selected(table, tenant, Some(since), Some(until)))
  }

  lemma WindowStep(table: seq<UsageEvent>, tenant: Str, since: int, until: int)
    requires table != []
    ensures var e, before := table[|table| - 1], table[..|table| - 1];
            WindowCost(table, tenant, since, until) ==
            WindowCost(before, tenant, since, until)
            + if e.tenant == tenant && since <= e.at <= until then e.cost else 0
  {
    CostSnoc(Selected(table[..|table| - 1], tenant, Some(since), Some(until)), table[|table| - 1]);
  }

  /** Windows include both ends, so windows that meet at one instant count the events of that instant twice. */
  lemma {:induction false} MeetingWindowsShareTheInstant(table: seq<UsageEvent>, tenant: Str, a: int, b: int, c: int)
    requires a <= b <= c
    ensures WindowCost(table, tenant, a, b) + WindowCost(table, tenant, b, c)
            == WindowCost(table, tenant, a, c) + WindowCost(table, tenant, b, b)
  {
    if table != [] {
      MeetingWindowsShareTheInstant(table[..|table| - 1], tenant, a, b, c);
      WindowStep(table, tenant, a, b);
      WindowStep(table, tenant, b, c);
      WindowStep(table, tenant, a, c);
      WindowStep(table, tenant, b, b);
    }
  }

  /** Disjoint adjacent windows add up. */
  lemma {:induction false} AdjacentWindowsAddUp(table: seq<UsageEvent>, tenant: Str, a: int, b: int, c: int)
    requires a <= b < c
    ensures WindowCost(table, tenant, a, b) + WindowCost(table, tenant, b + 1, c) == WindowCost(table, tenant, a, c)
  {
    if table != [] {
      AdjacentWindowsAddUp(table[..|table| - 1], tenant, a, b, c);
      WindowStep(table, tenant, a, b);
      WindowStep(table, tenant, b + 1, c);
      WindowStep(table, tenant, a, c);
    }
  }

  datatype Line = Line(quantity: int, cost: int)

  datatype Rollup = Rollup(byKind: map<Str, Line>, total: int)

  datatype Tenant = Tenant(id: Str, name: Str)

  /** The events of a set of tenants. */
  function OfTenants(table: seq<UsageEvent>, ids: set<Str>): seq<UsageEvent> {
    if table == [] then []
    else
      var e, before := table[|table| - 1], OfTenants(table[..|table| - 1], ids);
      if e.tenant in ids then before + [e] else before
  }

  function Billed(tenants: seq<Tenant>): set<Str> {
    set t | t in tenants && t.name != Lit(PLATFORM_TENANT) :: t.id
  }

  /** What the provider is shown: each tenant but the platform's own, in order, with the cost of all its events. */
  function UsageRows(tenants: seq<Tenant>, table: seq<UsageEvent>): seq<(Str, int)> {
    if tenants == [] then []
    else
      var before, t := UsageRows(tenants[..|tenants| - 1], table), tenants[|tenants| - 1];
      if t.name == Lit(PLATFORM_TENANT) then before else before + [(t.id, CostOf(Selected(table, t.id, None, None)))]
  }

  /** One row for each listed tenant that is not the platform's, with the cost of all its events. */
  lemma {:induction false} UsageRowsExact(tenants: seq<Tenant>, table: seq<UsageEvent>, id: Str, cost: int)
    ensures (id, cost) in UsageRows(tenants, table) <==>
              && cost == CostOf(Selected(table, id, None, None))
              && exists t :: t in tenants && t.id == id && t.name != Lit("__platform__")
  {
    if tenants != [] {
      var init, last := tenants[..|tenants| - 1], tenants[|tenants| - 1];
      UsageRowsExact(init, table, id, cost);
      UsageRowsSnoc(init, last, table);
      assert tenants == init + [last];
    }
  }

  lemma UsageRowsSnoc(tenants: seq<Tenant>, t: Tenant, table: seq<UsageEvent>)
    ensures UsageRows(tenants + [t], table) ==
            if t.name == Lit(PLATFORM_TENANT) then UsageRows(tenants, table)
            else UsageRows(tenants, table) + [(t.id, CostOf(Selected(table, t.id, None, None)))]
  {
    assert (tenants + [t])[..|tenants|] == tenants;
  }

  lemma {:induction false} OneMoreTenant(table: seq<UsageEvent>, ids: set<Str>, id: Str)
    requires id !in ids
    ensures CostOf(OfTenants(table, ids + {id})) == CostOf(OfTenants(table, ids))
            + CostOf(Selected(table, id, None, None))
  {
    if table != [] {
      var n := |table| - 1;
      OneMoreTenant(table[..n], ids, id);
      CostSnoc(OfTenants(table[..n], ids + {id}), table[n]);
      CostSnoc(OfTenants(table[..n], ids), table[n]);
      CostSnoc(Selected(table[..n], id, None, None), table[n]);
    }
  }

  lemma CostSnoc(events: seq<UsageEvent>, e: UsageEvent)
    ensures CostOf(events + [e]) == CostOf(events) + e.cost
  {
    assert (events + [e])[..|events|] == events;
  }

  lemma {:induction false} NoTenantsNoCost(table: seq<UsageEvent>)
    ensures OfTenants(table, {}) == []
  {
    if table != [] { NoTenantsNoCost(table[..|table| - 1]); }
  }

  /** The kinds present, each listed once. */
  lemma KindsPresent(events: seq<UsageEvent>)
    ensures Ascending(Sorted(KindsOf(events)))
    ensures forall k :: k in Sorted(KindsOf(events)) <==> exists e :: e in events && e.kind == k
  {
    var kinds := Sorted(KindsOf(events));
    SortedExact(KindsOf(events));
    forall k ensures k in kinds <==> exists e :: e in events && e.kind == k {
      if k in kinds {
        var i :| 0 <= i < |KindsOf(events)| && KindsOf(events)[i] == k;
        assert events[i] in events;
      }
      if e :| e in events && e.kind == k {
        var i :| 0 <= i < |events| && events[i] == e;
        assert KindsOf(events)[i] == k;
      }
    }
  }

  function LineOf(events: seq<UsageEvent>, kind: Str): Line {
    Line(QuantityOf(OfKind(events, kind)), CostOf(OfKind(events, kind)))
  }

  /** One more tenant of the listing: what it adds to the rows and to the grand total. */
  lemma ProviderStep(tenants: seq<Tenant>, i: nat, table: seq<UsageEvent>)
    requires i < |tenants| && forall j, k :: 0 <= j < k < |tenants| ==> tenants[j].id != tenants[k].id
    ensures var t, own := tenants[i], CostOf(Selected(table, tenants[i].id, None, None));
            var before, after := tenants[..i], tenants[..i + 1];
            if t.name == Lit(PLATFORM_TENANT)
            then Billed(after) == Billed(before) && UsageRows(after, table) == UsageRows(before, table)
            else && CostOf(OfTenants(table, Billed(after))) == CostOf(OfTenants(table, Billed(before))) + own
                 && UsageRows(after, table) == UsageRows(before, table) + [(t.id, own)]
  {
    var t, before := tenants[i], tenants[..i];
    assert tenants[..i + 1] == before + [t];
    UsageRowsSnoc(before, t, table);
    BilledSnoc(before, t);
    if t.name != Lit(PLATFORM_TENANT) {
      assert t.id !in Billed(before);
      OneMoreTenant(table, Billed(before), t.id);
    }
  }

  lemma BilledSnoc(tenants: seq<Tenant>, t: Tenant)
    ensures Billed(tenants + [t]) ==
            if t.name == Lit(PLATFORM_TENANT) then Billed(tenants) else Billed(tenants) + {t.id}
  {
  }

  class MeteringService {
    const prices: PriceBook
    var table: seq<UsageEvent>

    constructor (prices: PriceBook)
      ensures this.prices == prices && table == []
    {
      this.prices := prices;
      table := [];
    }

    /** Append a priced event; an unknown kind records nothing. */
    method Record(tenant: Str, kind: Str, quantity: int, now: int) returns (row: Option<UsageEvent>)
      modifies this
      ensures !ValidKind(kind) ==> row == None && table == old(table)
      ensures ValidKind(kind) ==>
                && row == Some(UsageEvent(tenant, kind, quantity, CostCents(prices, kind, quantity), now))
                && table == old(table) + [row.value]
    {
      if !ValidKind(kind) { return None; }
      var event := UsageEvent(tenant, kind, quantity, CostCents(prices, kind, quantity), now);
      table := table + [event];
      return Some(event);
    }

    /** Usage and cost of a tenant by kind; the total is the cost of all its events in the window. */
    method RollUp(tenant: Str, since: Option<int>, until: Option<int>) returns (r: Rollup)
      ensures var events := Selected(table, tenant, since, until);
              && r.total == CostOf(events)
              && (forall k :: k in r.byKind <==> exists e :: e in events && e.kind == k)
              && (forall k :: k in r.byKind ==> r.byKind[k] == LineOf(events, k))
    {
      var events := Selected(table, tenant, since, until);
      var kinds := Sorted(KindsOf(events));
      KindsPresent(events);
      var byKind: map<Str, Line> := map[];
      var total := 0;
      for i := 0 to |kinds|
        invariant total == CostByKind(kinds[..i], events)
        invariant forall k :: k in byKind <==> k in kinds[..i]
        invariant forall k :: k in byKind ==> byKind[k] == LineOf(events, k)
      {
        var line := LineOf(events, kinds[i]);
        assert kinds[..i + 1] == kinds[..i] + [kinds[i]];
        assert kinds[..i + 1][..i] == kinds[..i];
        byKind := byKind[kinds[i] := line];
        total := total + line.cost;
      }
      assert kinds[..|kinds|] == kinds;
      KindsConserveCost(kinds, events);
      r := Rollup(byKind, total);
    }

    /** One row per listed tenant but the platform's own, and the cost of every event of all of them. */
    method ProviderUsage(tenants: seq<Tenant>) returns (rows: seq<(Str, int)>, grand: int)
      requires forall i, j :: 0 <= i < j < |tenants| ==> tenants[i].id != tenants[j].id
      ensures grand == CostOf(OfTenants(table, Billed(tenants)))
      ensures rows == UsageRows(tenants, table)
    {
      rows, grand := [], 0;
      NoTenantsNoCost(table);
      assert Billed(tenants[..0]) == {};
      for i := 0 to |tenants|
        invariant grand == CostOf(OfTenants(table, Billed(tenants[..i])))
        invariant rows == UsageRows(tenants[..i], table)
      {
        var t := tenants[i];
        ProviderStep(tenants, i, table);
        if t.name == Lit(PLATFORM_TENANT) { continue; }
        var rollup := RollUp(t.id, None, None);
        grand := grand + rollup.total;
        rows := rows + [(t.id, rollup.total)];
      }
      assert tenants[..|tenants|] == tenants;
    }
  }
}
