/** What a run does with the stored cases: list the worst page of them, correlate it, and replace the incidents. */
module Reporting {
  import opened Basics
  import opened Domain
  import opened Risk
  import opened Cases
  import opened Correlation

  const PAGE := 50

  ghost predicate Distinct(page: seq<Key>) {
    forall i, j :: 0 <= i < j < |page| ==> page[i] != page[j]
  }

  ghost predicate Descending(rows: map<Key, Row>, page: seq<Key>)
    requires forall k :: k in page ==> k in rows
  {
    forall i, j :: 0 <= i < j < |page| ==> rows[page[i]].riskScore >= rows[page[j]].riskScore
  }

  /** No case outside the page scores higher than one on it. */
  ghost predicate NoneWorse(rows: map<Key, Row>, page: seq<Key>, rest: set<Key>)
    requires (forall k :: k in page ==> k in rows) && (forall k :: k in rest ==> k in rows)
  {
    forall i, k :: 0 <= i < |page| && k in rest ==> rows[page[i]].riskScore >= rows[k].riskScore
  }

  /** A listing of the tenant's cases by the risk column, worst first, up to some length; ties in any order. */
  ghost predicate IsListing(rows: map<Key, Row>, tenant: Str, page: seq<Key>, rest: set<Key>) {
    && (forall k :: k in page ==> k in rows) && (forall k :: k in rest ==> k in rows)
    && Distinct(page) && (forall k :: k in StoredOf(rows, tenant) <==> k in page || k in rest)
    && (forall k :: k in rest ==> k !in page)
    && |page| + |rest| == |StoredOf(rows, tenant)|
    && Descending(rows, page) && NoneWorse(rows, page, rest)
  }

  /** The first page: everything when it fits, otherwise the fifty worst. */
  ghost predicate IsFirstPage(rows: map<Key, Row>, tenant: Str, page: seq<Key>) {
    |page| == Min(50, |StoredOf(rows, tenant)|) && exists rest :: IsListing(rows, tenant, page, rest)
  }

  /** The first page spelled out: at most fifty of the tenant's cases, worst first, none left out that scores higher. */
  lemma FirstPageExact(rows: map<Key, Row>, tenant: Str, page: seq<Key>)
    requires IsFirstPage(rows, tenant, page)
    ensures |page| == if |StoredOf(rows, tenant)| <= 50 then |StoredOf(rows, tenant)| else 50
    ensures forall i :: 0 <= i < |page| ==> page[i] in rows && page[i].tenant == tenant
    ensures forall i, j :: 0 <= i < j < |page| ==>
              page[i] != page[j] && rows[page[i]].riskScore >= rows[page[j]].riskScore
    ensures forall i, key :: 0 <= i < |page| && key in rows && key.tenant == tenant && key !in page ==>
              rows[page[i]].riskScore >= rows[key].riskScore
  {
    var rest :| IsListing(rows, tenant, page, rest);
    forall i | 0 <= i < |page| ensures page[i] in rows && page[i].tenant == tenant {
      assert page[i] in page;
      assert page[i] in StoredOf(rows, tenant);
    }
    forall key | key in rows && key.tenant == tenant && key !in page ensures key in rest {
      assert key in StoredOf(rows, tenant);
    }
  }

  function Payloads(rows: map<Key, Row>, page: seq<Key>): (items: seq<Investigation>)
    requires forall k :: k in page ==> k in rows
    ensures |items| == |page| && forall i :: 0 <= i < |page| ==> items[i] == rows[page[i]].payload
  {
    seq(|page|, i requires 0 <= i < |page| => rows[page[i]].payload)
  }

  /** One incident per group of the listed cases, summarising it and carrying its worst score. */
  ghost predicate Reports(incidents: seq<Incident>, items: seq<Investigation>) {
    && |incidents| == |Groups(items)|
    && Matched((inc, members) => IsReport(inc, members, items), incidents, Groups(items))
  }

  ghost predicate IsReport(inc: Incident, members: seq<Investigation>, items: seq<Investigation>) {
    Summarises(inc, members) && inc.riskScore == IncidentRisk(inc, items)
  }

  lemma ReportOf(inc: Incident, members: seq<Investigation>, items: seq<Investigation>)
    requires RolledUp(inc, members)
    ensures IsReport(inc.(riskScore := IncidentRisk(inc, items)), members, items)
  {
  }

  /** An incident carries the highest score among its own members, and one of them has it. */
  ghost predicate HasWorstScore(inc: Incident, members: seq<Investigation>) {
    && (exists m :: m in members && RiskFrom(m) == inc.riskScore)
    && (forall m :: m in members ==> RiskFrom(m) <= inc.riskScore)
  }

  ghost predicate WorstScores(incidents: seq<Incident>, items: seq<Investigation>) {
    |incidents| == |Groups(items)| && Matched(HasWorstScore, incidents, Groups(items))
  }

  lemma ReportsHaveWorstScores(incidents: seq<Incident>, items: seq<Investigation>)
    requires Reports(incidents, items) && UniqueIds(items)
    ensures WorstScores(incidents, items)
  {
    forall g | 0 <= g < |incidents| ensures HasWorstScore(incidents[g], Groups(items)[g]) {
      assert IsReport(incidents[g], Groups(items)[g], items);
      IncidentRiskIsWorstMember(items, g, incidents[g]);
    }
  }

  /** The cases of a page have different ids, because payloads carry the ids of their rows. */
  lemma PageIdsUnique(rows: map<Key, Row>, tenant: Str, page: seq<Key>)
    requires IdsMatch(rows) && IsFirstPage(rows, tenant, page) && forall k :: k in page ==> k in rows
    ensures UniqueIds(Payloads(rows, page))
  {
    var rest :| IsListing(rows, tenant, page, rest);
    forall i, j | 0 <= i < j < |page| ensures rows[page[i]].payload.id != rows[page[j]].payload.id {
      assert page[i] in page && page[j] in page;
      assert page[i] in StoredOf(rows, tenant) && page[j] in StoredOf(rows, tenant);
    }
  }

  /** The incidents stored after a run: those of the tenant's first page. */
  ghost predicate ReportsFirstPage(incidents: seq<Incident>, rows: map<Key, Row>, tenant: Str) {
    exists page :: IsFirstPage(rows, tenant, page) && (forall k :: k in page ==> k in rows)
                   && Reports(incidents, Payloads(rows, page))
                   && (IdsMatch(rows) ==> WorstScores(incidents, Payloads(rows, page)))
  }

  /** A highest-scoring key of a set. */
  method Worst(rows: map<Key, Row>, keys: set<Key>) returns (worst: Key)
    requires keys != {} && forall k :: k in keys ==> k in rows
    ensures worst in keys && forall k :: k in keys ==> rows[worst].riskScore >= rows[k].riskScore
  {
    worst :| worst in keys;
    var todo := keys - {worst};
    while todo != {}
      invariant todo <= keys && worst in keys
      invariant forall k :: k in keys && k !in todo ==> rows[worst].riskScore >= rows[k].riskScore
      decreases todo
    {
      var k :| k in todo;
      if rows[k].riskScore > rows[worst].riskScore { worst := k; }
      todo := todo - {k};
    }
  }

  lemma ListOne(rows: map<Key, Row>, tenant: Str, page: seq<Key>, rest: set<Key>, k: Key)
    requires IsListing(rows, tenant, page, rest) && k in rest
    requires forall j :: j in rest ==> rows[k].riskScore >= rows[j].riskScore
    ensures IsListing(rows, tenant, page + [k], rest - {k})
  {
  }

  method FirstPage(rows: map<Key, Row>, tenant: Str) returns (page: seq<Key>)
    ensures IsFirstPage(rows, tenant, page) && forall k :: k in page ==> k in rows
  {
    var rest := StoredOf(rows, tenant);
    page := [];
    while rest != {} && |page| < PAGE
      invariant IsListing(rows, tenant, page, rest) && |page| <= PAGE
      decreases rest
    {
      var k := Worst(rows, rest);
      ListOne(rows, tenant, page, rest, k);
      page := page + [k];
      rest := rest - {k};
    }
  }

  /** Correlate the listed cases and give every incident the worst score of its members. */
  method Report(items: seq<Investigation>) returns (incidents: seq<Incident>)
    ensures Reports(incidents, items)
  {
    var found := Correlate(items);
    incidents := [];
    ghost var isReport := (inc, members) => IsReport(inc, members, items);
    for g := 0 to |found|
      invariant |incidents| == g && Matched(isReport, incidents, Groups(items))
    {
      var inc := found[g].(riskScore := IncidentRisk(found[g], items));
      assert RolledUp(found[g], Groups(items)[g]);
      ReportOf(found[g], Groups(items)[g], items);
      MatchedSnoc(isReport, incidents, Groups(items), inc);
      incidents := incidents + [inc];
    }
  }

  class IncidentRepository {
    var incidents: map<Str, seq<Incident>>

    constructor ()
      ensures incidents == map[]
    {
      incidents := map[];
    }

    /** Clear the tenant's incidents and store the new ones. */
    method ReplaceAll(tenant: Str, found: seq<Incident>)
      modifies this
      ensures incidents == old(incidents)[tenant := found]
    {
      incidents := incidents[tenant := found];
    }
  }
}
