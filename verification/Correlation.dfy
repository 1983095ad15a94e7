/**
 Incident correlation: a first-fit loop over growing key sets, compared with the connected components
 of "same entity or a shared indicator".
 */
module Correlation {
  import opened Basics
  import opened Domain
  import opened Json
  import opened Risk

  datatype Incident = Incident(
    title: Str,
    entity: Str,
    severity: Severity,
    riskScore: int,
    investigationIds: seq<Str>,
    indicators: seq<Str>,
    tactics: seq<Str>)

  function IndicatorsOf(inv: Investigation): set<Str> {
    var raw := inv.detection.context.indicators;
    (if raw.Some? then set x | x in raw.value else {}) + (set x | x in inv.detection.srcIps)
  }

  /** An address of the detection, or an indicator that enrichment stored with it. */
  predicate Indicates(m: Investigation, x: Str) {
    x in m.detection.srcIps || (m.detection.context.indicators.Some? && x in m.detection.context.indicators.value)
  }

  predicate Related(a: Investigation, b: Investigation) {
    a.detection.entity == b.detection.entity || IndicatorsOf(a) * IndicatorsOf(b) != {}
  }

  // ----- First fit -----

  /** The number of groups opened so far, from each investigation's group number. */
  function GroupCount(labels: seq<nat>): nat {
    if labels == [] then 0
    else var c, l := GroupCount(labels[..|labels| - 1]), labels[|labels| - 1]; if l < c then c else l + 1
  }

  /** The arriving investigation is related to some member of group g. */
  ghost predicate Joins(invs: seq<Investigation>, labels: seq<nat>, g: nat, inv: Investigation)
    requires |labels| <= |invs|
  {
    exists p :: 0 <= p < |labels| && labels[p] == g && Related(invs[p], inv)
  }

  /** The first group from g on that the investigation joins, or a new one. */
  ghost function FirstFit(invs: seq<Investigation>, labels: seq<nat>, inv: Investigation, g: nat): (r: nat)
    requires |labels| <= |invs|
    decreases GroupCount(labels) - g
  {
    if g >= GroupCount(labels) then GroupCount(labels)
    else if Joins(invs, labels, g, inv) then g
    else FirstFit(invs, labels, inv, g + 1)
  }

  /** The group number of every investigation, in order of arrival. */
  ghost function Labels(invs: seq<Investigation>): (labels: seq<nat>)
    ensures |labels| == |invs|
  {
    if invs == [] then []
    else
      var init, last := invs[..|invs| - 1], invs[|invs| - 1];
      Labels(init) + [FirstFit(init, Labels(init), last, 0)]
  }

  function Members(invs: seq<Investigation>, labels: seq<nat>, g: nat): seq<Investigation>
    requires |labels| == |invs|
  {
    if invs == [] then []
    else
      var n := |invs| - 1;
      Members(invs[..n], labels[..n], g) + (if labels[n] == g then [invs[n]] else [])
  }

  ghost function Groups(invs: seq<Investigation>): seq<seq<Investigation>> {
    seq(GroupCount(Labels(invs)), g requires 0 <= g => Members(invs, Labels(invs), g))
  }

  lemma {:induction false} FirstFitShape(invs: seq<Investigation>, labels: seq<nat>, inv: Investigation, g: nat)
    requires |labels| <= |invs| && g <= GroupCount(labels)
    ensures var f := FirstFit(invs, labels, inv, g);
            && g <= f <= GroupCount(labels)
            && (f < GroupCount(labels) ==> Joins(invs, labels, f, inv))
            && (forall h :: g <= h < f ==> !Joins(invs, labels, h, inv))
    decreases GroupCount(labels) - g
  {
    if g < GroupCount(labels) && !Joins(invs, labels, g, inv) { FirstFitShape(invs, labels, inv, g + 1); }
  }

  lemma JoinsLocal(invs: seq<Investigation>, more: seq<Investigation>, labels: seq<nat>, g: nat, inv: Investigation)
    requires |labels| <= |invs| <= |more| && more[..|invs|] == invs
    ensures Joins(invs, labels, g, inv) <==> Joins(more, labels, g, inv)
  {
    forall p | 0 <= p < |labels| ensures invs[p] == more[p] { assert more[p] == more[..|invs|][p]; }
  }

  /** Group g is where the investigation goes: the first that it joins, or a new one. */
  ghost predicate FirstFits(invs: seq<Investigation>, labels: seq<nat>, inv: Investigation, g: nat)
    requires |labels| <= |invs|
  {
    && g <= GroupCount(labels)
    && (g < GroupCount(labels) ==> Joins(invs, labels, g, inv))
    && (forall h :: 0 <= h < g ==> !Joins(invs, labels, h, inv))
  }

  lemma FirstFitsLocal(invs: seq<Investigation>, labels: seq<nat>, inv: Investigation, g: nat)
    requires |labels| < |invs| && FirstFits(invs[..|invs| - 1], labels, inv, g)
    ensures FirstFits(invs, labels, inv, g)
  {
    forall h: nat ensures Joins(invs[..|invs| - 1], labels, h, inv) <==> Joins(invs, labels, h, inv) {
      JoinsLocal(invs[..|invs| - 1], invs, labels, h, inv);
    }
  }

  /** Every label in place: a prefix is labelled as before, and each label is the first fit among earlier ones. */
  lemma {:induction false} LabelsShape(invs: seq<Investigation>, p: nat)
    requires p < |invs|
    ensures Labels(invs)[..p] == Labels(invs[..p])
    ensures FirstFits(invs, Labels(invs)[..p], invs[p], Labels(invs)[p])
  {
    var init := invs[..|invs| - 1];
    if p == |init| {
      assert Labels(invs)[..p] == Labels(init);
      FirstFitShape(init, Labels(init), invs[p], 0);
    } else {
      LabelsShape(init, p);
      LabelsOfPrefix(invs, p);
    }
    FirstFitsLocal(invs, Labels(invs)[..p], invs[p], Labels(invs)[p]);
  }

  lemma LabelsOfPrefix(invs: seq<Investigation>, p: nat)
    requires p < |invs| - 1
    ensures var n := |invs| - 1;
            && invs[..n][..p] == invs[..p] && Labels(invs[..n])[..p] == Labels(invs)[..p]
            && Labels(invs[..n])[p] == Labels(invs)[p]
  {
  }

  lemma {:induction false} LabelBelowCount(labels: seq<nat>, p: nat)
    requires p < |labels|
    ensures labels[p] < GroupCount(labels)
  {
    var n := |labels| - 1;
    if p < n { LabelBelowCount(labels[..n], p); }
  }

  // ----- Groups and connected components -----

  /** A walk over investigations in which neighbours are related. */
  ghost predicate Path(invs: seq<Investigation>, path: seq<nat>) {
    && path != []
    && (forall i :: 0 <= i < |path| ==> path[i] < |invs|)
    && (forall i :: 0 <= i < |path| - 1 ==> Related(invs[path[i]], invs[path[i + 1]]))
  }

  ghost predicate Connects(invs: seq<Investigation>, path: seq<nat>, p: nat, q: nat) {
    Path(invs, path) && path[0] == p && path[|path| - 1] == q
  }

  ghost predicate Connected(invs: seq<Investigation>, p: nat, q: nat) {
    exists path :: Connects(invs, path, p, q)
  }

  ghost predicate Within(labels: seq<nat>, path: seq<nat>, g: nat) {
    forall i :: 0 <= i < |path| ==> path[i] < |labels| && labels[path[i]] == g
  }

  /** Related investigations are all in one group. */
  ghost predicate GroupsAreComponents(invs: seq<Investigation>) {
    forall p, q :: 0 <= p < |invs| && 0 <= q < |invs| ==>
      (Labels(invs)[p] == Labels(invs)[q] <==> Connected(invs, p, q))
  }

  /** Any two earlier investigations that an arriving one is related to were connected without it. */
  ghost predicate NeverBridges(invs: seq<Investigation>) {
    forall p, r, s ::
      0 <= r < p < |invs| && 0 <= s < p && Related(invs[r], invs[p]) && Related(invs[s], invs[p]) ==>
        Connected(invs[..p], r, s)
  }

  /** No arriving investigation is related to members of two existing groups. */
  ghost predicate NeverJoinsTwo(invs: seq<Investigation>) {
    forall p, g, h ::
      && 0 <= p < |invs| && 0 <= g && 0 <= h
      && Joins(invs, Labels(invs)[..p], g, invs[p]) && Joins(invs, Labels(invs)[..p], h, invs[p])
      ==> g == h
  }

  function Reversed(path: seq<nat>): (r: seq<nat>)
    ensures |r| == |path| && forall i :: 0 <= i < |path| ==> r[i] == path[|path| - 1 - i]
  {
    seq(|path|, i requires 0 <= i < |path| => path[|path| - 1 - i])
  }

  lemma EarlierMember(invs: seq<Investigation>, p: nat) returns (r: nat)
    requires p < |invs| && FirstFits(invs, Labels(invs)[..p], invs[p], Labels(invs)[p])
    requires Labels(invs)[p] != GroupCount(Labels(invs)[..p])
    ensures r < p && Labels(invs)[r] == Labels(invs)[p] && Related(invs[r], invs[p])
  {
    var l := Labels(invs)[..p];
    r :| 0 <= r < p && l[r] == Labels(invs)[p] && Related(invs[r], invs[p]);
  }

  /** A walk inside its group from any investigation back to the one that opened the group. */
  lemma {:induction false} PathToOpener(invs: seq<Investigation>, p: nat) returns (path: seq<nat>, opener: nat)
    requires p < |invs|
    ensures Connects(invs, path, p, opener) && Within(Labels(invs), path, Labels(invs)[p])
    ensures opener <= p && Labels(invs)[opener] == GroupCount(Labels(invs)[..opener])
    decreases p
  {
    var l := Labels(invs);
    LabelsShape(invs, p);
    if l[p] == GroupCount(l[..p]) {
      path, opener := [p], p;
    } else {
      var r := EarlierMember(invs, p);
      var rest;
      rest, opener := PathToOpener(invs, r);
      path := [p] + rest;
      WalkFrom(invs, p, r, rest, opener);
    }
  }

  lemma WalkFrom(invs: seq<Investigation>, p: nat, r: nat, rest: seq<nat>, q: nat)
    requires p < |invs| && r < |invs| && Related(invs[r], invs[p]) && Connects(invs, rest, r, q)
    ensures Connects(invs, [p] + rest, p, q)
  {
    var path := [p] + rest;
    RelatedSymmetric(invs[r], invs[p]);
    forall i | 0 <= i < |path| - 1 ensures Related(invs[path[i]], invs[path[i + 1]]) {
      if i > 0 { assert Related(invs[rest[i - 1]], invs[rest[i - 1 + 1]]); }
    }
  }

  /** A group is opened once. */
  lemma OpenerUnique(labels: seq<nat>, a: nat, b: nat)
    requires a < |labels| && b < |labels| && labels[a] == labels[b]
    requires labels[a] == GroupCount(labels[..a]) && labels[b] == GroupCount(labels[..b])
    ensures a == b
  {
    var i, j := if a < b then a else b, if a < b then b else a;
    if i < j {
      LabelBelowCount(labels[..j], i);
    }
  }

  /** All members of an incident lie in one connected component, and the walk between them stays in the incident. */
  lemma MembersConnected(invs: seq<Investigation>, p: nat, q: nat) returns (path: seq<nat>)
    requires p < |invs| && q < |invs| && Labels(invs)[p] == Labels(invs)[q]
    ensures Connects(invs, path, p, q) && Within(Labels(invs), path, Labels(invs)[p])
  {
    var there, a := PathToOpener(invs, p);
    var back, b := PathToOpener(invs, q);
    OpenerUnique(Labels(invs), a, b);
    path := there + Reversed(back)[1..];
    forall i | 0 <= i < |path| - 1 ensures Related(invs[path[i]], invs[path[i + 1]]) {
      if i >= |there| - 1 {
        var k := |back| - 1 - (i - (|there| - 1));
        assert path[i] == back[k] && path[i + 1] == back[k - 1];
        assert Related(invs[back[k - 1]], invs[back[k - 1 + 1]]);
      }
    }
  }

  lemma RelatedSymmetric(a: Investigation, b: Investigation)
    ensures Related(a, b) <==> Related(b, a)
  {
    assert IndicatorsOf(a) * IndicatorsOf(b) == IndicatorsOf(b) * IndicatorsOf(a);
  }

  lemma LaterSharesLabel(invs: seq<Investigation>, i: nat, j: nat)
    requires NeverJoinsTwo(invs) && i < j < |invs| && Related(invs[i], invs[j])
    ensures Labels(invs)[i] == Labels(invs)[j]
  {
    var l := Labels(invs);
    assert l[..j][i] == l[i];
    assert Joins(invs, l[..j], l[i], invs[j]);
    LabelBelowCount(l[..j], i);
    LabelsShape(invs, j);
    assert l[j] <= l[i];
    assert Joins(invs, l[..j], l[j], invs[j]);
  }

  lemma RelatedShareLabel(invs: seq<Investigation>, r: nat, p: nat)
    requires NeverJoinsTwo(invs) && r < |invs| && p < |invs| && Related(invs[r], invs[p])
    ensures Labels(invs)[r] == Labels(invs)[p]
  {
    RelatedSymmetric(invs[r], invs[p]);
    if r < p { LaterSharesLabel(invs, r, p); }
    if p < r { LaterSharesLabel(invs, p, r); }
  }

  lemma {:induction false} PathSharesLabel(invs: seq<Investigation>, path: seq<nat>)
    requires NeverJoinsTwo(invs) && Path(invs, path)
    ensures Labels(invs)[path[0]] == Labels(invs)[path[|path| - 1]]
  {
    if |path| > 1 {
      assert Related(invs[path[0]], invs[path[0 + 1]]);
      RelatedShareLabel(invs, path[0], path[1]);
      forall i | 0 <= i < |path[1..]| - 1 ensures Related(invs[path[1..][i]], invs[path[1..][i + 1]]) {
        assert Related(invs[path[i + 1]], invs[path[i + 1 + 1]]);
      }
      PathSharesLabel(invs, path[1..]);
    }
  }

  /** Groups are components exactly when nothing that arrives joins two of them. */
  lemma ComponentsIffNeverJoinsTwo(invs: seq<Investigation>)
    ensures GroupsAreComponents(invs) <==> NeverJoinsTwo(invs)
  {
    var l := Labels(invs);
    if NeverJoinsTwo(invs) {
      forall p, q | 0 <= p < |invs| && 0 <= q < |invs| ensures l[p] == l[q] <==> Connected(invs, p, q) {
        if l[p] == l[q] { var path := MembersConnected(invs, p, q); }
        if path :| Connects(invs, path, p, q) { PathSharesLabel(invs, path); }
      }
    }
    if GroupsAreComponents(invs) {
      forall p, g, h | && 0 <= p < |invs| && 0 <= g && 0 <= h
                       && Joins(invs, l[..p], g, invs[p]) && Joins(invs, l[..p], h, invs[p])
        ensures g == h
      {
        var r :| 0 <= r < p && l[..p][r] == g && Related(invs[r], invs[p]);
        var s :| 0 <= s < p && l[..p][s] == h && Related(invs[s], invs[p]);
        assert Connects(invs, [r, p, s], r, s);
        assert l[r] == l[s];
      }
    }
  }

  lemma NeverJoinsTwoEarlier(invs: seq<Investigation>, p: nat)
    requires NeverJoinsTwo(invs) && p < |invs|
    ensures NeverJoinsTwo(invs[..p])
  {
    LabelsShape(invs, p);
    var l, init := Labels(invs), invs[..p];
    forall q, g, h | && 0 <= q < p && 0 <= g && 0 <= h
                     && Joins(init, Labels(init)[..q], g, init[q]) && Joins(init, Labels(init)[..q], h, init[q])
      ensures g == h
    {
      assert Labels(init)[..q] == l[..q];
      JoinsLocal(init, invs, l[..q], g, init[q]);
      JoinsLocal(init, invs, l[..q], h, init[q]);
    }
  }

  /** What joins two groups is related to two earlier investigations that were not connected, and conversely. */
  lemma {:induction false} BridgesAreJoins(invs: seq<Investigation>)
    ensures NeverBridges(invs) <==> NeverJoinsTwo(invs)
    decreases |invs|
  {
    if NeverBridges(invs) {
      forall p, g, h | && 0 <= p < |invs| && 0 <= g && 0 <= h
                       && Joins(invs, Labels(invs)[..p], g, invs[p]) && Joins(invs, Labels(invs)[..p], h, invs[p])
        ensures g == h
      {
        NeverBridgesEarlier(invs, p);
        BridgesAreJoins(invs[..p]);
        RelatedInOneGroup(invs, p);
        JoinsSameGroup(invs, p, g, h);
      }
    }
    if NeverJoinsTwo(invs) {
      forall p, r, s |
        0 <= r < p < |invs| && 0 <= s < p && Related(invs[r], invs[p]) && Related(invs[s], invs[p])
        ensures Connected(invs[..p], r, s)
      {
        EarlierConnected(invs, p, r, s);
      }
    }
  }

  lemma NeverBridgesEarlier(invs: seq<Investigation>, p: nat)
    requires NeverBridges(invs) && p < |invs|
    ensures NeverBridges(invs[..p])
  {
    var init := invs[..p];
    forall q, r, s | 0 <= r < q < p && 0 <= s < q && Related(init[r], init[q]) && Related(init[s], init[q])
      ensures Connected(init[..q], r, s)
    {
      assert init[..q] == invs[..q];
      assert Related(invs[r], invs[q]) && Related(invs[s], invs[q]);
    }
  }

  lemma ConnectedShareLabel(invs: seq<Investigation>, p: nat, r: nat, s: nat)
    requires p < |invs| && r < p && s < p && NeverJoinsTwo(invs[..p])
    ensures Connected(invs[..p], r, s) <==> Labels(invs)[r] == Labels(invs)[s]
  {
    LabelsShape(invs, p);
    ComponentsIffNeverJoinsTwo(invs[..p]);
    assert Labels(invs[..p])[r] == Labels(invs)[r] && Labels(invs[..p])[s] == Labels(invs)[s];
  }

  /** The earlier investigations that p is related to are all in one group. */
  ghost predicate OneGroup(invs: seq<Investigation>, p: nat)
    requires p < |invs|
  {
    forall r, s :: 0 <= r < p && 0 <= s < p && Related(invs[r], invs[p]) && Related(invs[s], invs[p]) ==>
      Labels(invs)[r] == Labels(invs)[s]
  }

  lemma JoinsSameGroup(invs: seq<Investigation>, p: nat, g: nat, h: nat)
    requires p < |invs| && OneGroup(invs, p)
    requires Joins(invs, Labels(invs)[..p], g, invs[p]) && Joins(invs, Labels(invs)[..p], h, invs[p])
    ensures g == h
  {
    var l := Labels(invs)[..p];
    var r :| 0 <= r < p && l[r] == g && Related(invs[r], invs[p]);
    var s :| 0 <= s < p && l[s] == h && Related(invs[s], invs[p]);
    assert Labels(invs)[r] == g && Labels(invs)[s] == h;
  }

  lemma RelatedInOneGroup(invs: seq<Investigation>, p: nat)
    requires NeverBridges(invs) && p < |invs| && NeverJoinsTwo(invs[..p])
    ensures OneGroup(invs, p)
  {
    forall r, s | 0 <= r < p && 0 <= s < p && Related(invs[r], invs[p]) && Related(invs[s], invs[p])
      ensures Labels(invs)[r] == Labels(invs)[s]
    {
      EarlierShareLabel(invs, p, r, s);
    }
  }

  lemma EarlierShareLabel(invs: seq<Investigation>, p: nat, r: nat, s: nat)
    requires NeverBridges(invs) && p < |invs| && NeverJoinsTwo(invs[..p])
    requires r < p && s < p && Related(invs[r], invs[p]) && Related(invs[s], invs[p])
    ensures Labels(invs)[r] == Labels(invs)[s]
  {
    assert Connected(invs[..p], r, s);
    ConnectedShareLabel(invs, p, r, s);
  }

  lemma EarlierConnected(invs: seq<Investigation>, p: nat, r: nat, s: nat)
    requires NeverJoinsTwo(invs) && r < p < |invs| && s < p && Related(invs[r], invs[p]) && Related(invs[s], invs[p])
    ensures Connected(invs[..p], r, s)
  {
    var l := Labels(invs);
    NeverJoinsTwoEarlier(invs, p);
    ConnectedShareLabel(invs, p, r, s);
    assert l[..p][r] == l[r] && l[..p][s] == l[s];
    assert Joins(invs, l[..p], l[r], invs[p]) && Joins(invs, l[..p], l[s], invs[p]);
  }

  /**
   Incidents are exactly the connected components if and only if no arriving investigation bridges: whenever it is
   related to two earlier ones, those two were connected already.
   */
  lemma ComponentsIffNeverBridging(invs: seq<Investigation>)
    ensures GroupsAreComponents(invs) <==> NeverBridges(invs)
  {
    ComponentsIffNeverJoinsTwo(invs);
    BridgesAreJoins(invs);
  }

  /** The failing case: a third investigation related to two unrelated ones does not merge their groups. */
  lemma BridgeLeavesGroupsApart(a: Investigation, b: Investigation, c: Investigation)
    requires !Related(a, b) && Related(a, c) && Related(b, c)
    ensures !GroupsAreComponents([a, b, c])
  {
    var invs := [a, b, c];
    LabelsShape(invs, 0);
    LabelsShape(invs, 1);
    assert Labels(invs)[0] != Labels(invs)[1];
    RelatedSymmetric(b, c);
    assert Connects(invs, [0, 2, 1], 0, 1);
  }

  /**
   Such an investigation exists for any two: it shares one's entity and the other's address, under an id of
   its own.
   */
  lemma BridgeExample(a: Investigation, b: Investigation)
    requires !Related(a, b) && IndicatorsOf(b) != {}
    ensures exists c: Investigation ::
              c.id != a.id && c.id != b.id && Related(a, c) && Related(b, c) && !GroupsAreComponents([a, b, c])
  {
    var shared := a.detection.(srcIps := b.detection.srcIps, context := b.detection.context);
    var c := a.(id := a.id + b.id + Lit("-"), detection := shared);
    assert |c.id| > |a.id| && |c.id| > |b.id|;
    assert IndicatorsOf(c) == IndicatorsOf(b);
    BridgeLeavesGroupsApart(a, b, c);
  }

  ghost predicate NoIndicators(invs: seq<Investigation>) {
    forall i :: 0 <= i < |invs| ==> IndicatorsOf(invs[i]) == {}
  }

  lemma {:induction false} WalkKeepsEntity(invs: seq<Investigation>, path: seq<nat>)
    requires NoIndicators(invs) && Path(invs, path)
    ensures invs[path[0]].detection.entity == invs[path[|path| - 1]].detection.entity
  {
    if |path| > 1 {
      var rest := path[1..];
      assert Related(invs[path[0]], invs[path[0 + 1]]);
      forall i | 0 <= i < |rest| - 1 ensures Related(invs[rest[i]], invs[rest[i + 1]]) {
        assert Related(invs[path[i + 1]], invs[path[i + 1 + 1]]);
      }
      WalkKeepsEntity(invs, rest);
    }
  }

  lemma GroupIsEntity(invs: seq<Investigation>, p: nat, q: nat)
    requires NoIndicators(invs) && p < |invs| && q < |invs|
    ensures Labels(invs)[p] == Labels(invs)[q] <==> invs[p].detection.entity == invs[q].detection.entity
  {
    if Labels(invs)[p] == Labels(invs)[q] {
      var path := MembersConnected(invs, p, q);
      WalkKeepsEntity(invs, path);
    }
    if invs[p].detection.entity == invs[q].detection.entity { SameEntitySameLabel(invs, p, q); }
  }

  lemma EntityNeverBridges(invs: seq<Investigation>)
    requires NoIndicators(invs)
    ensures NeverBridges(invs)
  {
    forall p, r, s | 0 <= r < p < |invs| && 0 <= s < p && Related(invs[r], invs[p]) && Related(invs[s], invs[p])
      ensures Connected(invs[..p], r, s)
    {
      assert Connects(invs[..p], [r, s], r, s);
    }
  }

  /** Without indicators an investigation can never bridge, and incidents are exactly the entities. */
  lemma NoIndicatorsNeverBridge(invs: seq<Investigation>)
    requires NoIndicators(invs)
    ensures NeverBridges(invs)
    ensures forall p, q :: 0 <= p < |invs| && 0 <= q < |invs| ==>
              (Labels(invs)[p] == Labels(invs)[q] <==> invs[p].detection.entity == invs[q].detection.entity)
  {
    EntityNeverBridges(invs);
    forall p, q | 0 <= p < |invs| && 0 <= q < |invs|
      ensures Labels(invs)[p] == Labels(invs)[q] <==> invs[p].detection.entity == invs[q].detection.entity
    {
      GroupIsEntity(invs, p, q);
    }
  }

  lemma {:induction false} SameEntitySameLabel(invs: seq<Investigation>, r: nat, s: nat)
    requires NoIndicators(invs)
    requires r < |invs| && s < |invs| && invs[r].detection.entity == invs[s].detection.entity
    ensures Labels(invs)[r] == Labels(invs)[s]
    decreases r + s
  {
    var l := Labels(invs);
    var i, j := if r < s then r else s, if r < s then s else r;
    if i < j {
      assert l[..j][i] == l[i];
      assert Joins(invs, l[..j], l[i], invs[j]);
      LabelsShape(invs, j);
      LabelBelowCount(l[..j], i);
      var t :| 0 <= t < j && l[..j][t] == l[j] && Related(invs[t], invs[j]);
      SameEntitySameLabel(invs, t, i);
    }
  }

  // ----- The partition -----

  function Concat<T>(xss: seq<seq<T>>): seq<T> {
    if xss == [] then [] else Concat(xss[..|xss| - 1]) + xss[|xss| - 1]
  }

  lemma {:induction false} ConcatUpdate<T>(xss: seq<seq<T>>, g: nat, x: T)
    requires g < |xss|
    ensures multiset(Concat(xss[g := xss[g] + [x]])) == multiset(Concat(xss)) + multiset{x}
  {
    var n := |xss| - 1;
    var more := xss[g := xss[g] + [x]];
    if g == n {
      assert more[..n] == xss[..n];
    } else {
      ConcatUpdate(xss[..n], g, x);
      assert more[..n] == xss[..n][g := xss[..n][g] + [x]];
    }
  }

  /** The groups after one more investigation is placed in group g. */
  ghost function Placed(groups: seq<seq<Investigation>>, g: nat, inv: Investigation): seq<seq<Investigation>>
    requires g <= |groups|
  {
    if g == |groups| then groups + [[inv]] else groups[g := groups[g] + [inv]]
  }

  lemma MembersStep(invs: seq<Investigation>, labels: seq<nat>, g: nat)
    requires |labels| == |invs| > 0
    ensures var n := |invs| - 1;
            Members(invs, labels, g) ==
            Members(invs[..n], labels[..n], g) + (if labels[n] == g then [invs[n]] else [])
  {
  }

  /** How the groups change when one more investigation arrives. */
  lemma GroupsStep(invs: seq<Investigation>)
    requires invs != []
    ensures var n := |invs| - 1;
            && Labels(invs)[n] <= |Groups(invs[..n])|
            && Groups(invs) == Placed(Groups(invs[..n]), Labels(invs)[n], invs[n])
  {
    var n := |invs| - 1;
    var l, before := Labels(invs), Labels(invs[..n]);
    LabelsShape(invs, n);
    assert l[..n] == before;
    var g, count := l[n], GroupCount(before);
    assert GroupCount(l) == if g < count then count else g + 1;
    forall h | 0 <= h < GroupCount(l) ensures Groups(invs)[h] == Placed(Groups(invs[..n]), g, invs[n])[h] {
      MembersStep(invs, l, h);
      if h == count { UnusedGroupEmpty(invs[..n], before, h); }
    }
  }

  lemma {:induction false} UnusedGroupEmpty(invs: seq<Investigation>, labels: seq<nat>, g: nat)
    requires |labels| == |invs| && GroupCount(labels) <= g
    ensures Members(invs, labels, g) == []
  {
    if invs != [] {
      var n := |invs| - 1;
      LabelBelowCount(labels, n);
      UnusedGroupEmpty(invs[..n], labels[..n], g);
    }
  }

  lemma PlacedConcat(groups: seq<seq<Investigation>>, g: nat, inv: Investigation)
    requires g <= |groups|
    ensures multiset(Concat(Placed(groups, g, inv))) == multiset(Concat(groups)) + multiset{inv}
  {
    if g == |groups| {
      assert Placed(groups, g, inv)[..|groups|] == groups;
    } else {
      ConcatUpdate(groups, g, inv);
    }
  }

  lemma {:induction false} NoGroupEmpty(invs: seq<Investigation>)
    ensures forall g :: 0 <= g < |Groups(invs)| ==> Groups(invs)[g] != []
  {
    if invs != [] {
      NoGroupEmpty(invs[..|invs| - 1]);
      GroupsStep(invs);
    }
  }

  lemma {:induction false} NothingLost(invs: seq<Investigation>)
    ensures multiset(Concat(Groups(invs))) == multiset(invs)
  {
    if invs != [] {
      NothingLost(invs[..|invs| - 1]);
      OneMoreKept(invs);
    }
  }

  lemma OneMoreKept(invs: seq<Investigation>)
    requires invs != []
    requires multiset(Concat(Groups(invs[..|invs| - 1]))) == multiset(invs[..|invs| - 1])
    ensures multiset(Concat(Groups(invs))) == multiset(invs)
  {
    var init, last := invs[..|invs| - 1], invs[|invs| - 1];
    assert invs == init + [last];
    GroupsStep(invs);
    OneMorePlaced(Groups(init), Groups(invs), Labels(invs)[|init|], init, last);
  }

  lemma OneMorePlaced(
      groups: seq<seq<Investigation>>, more: seq<seq<Investigation>>, g: nat,
      init: seq<Investigation>, last: Investigation)
    requires g <= |groups| && more == Placed(groups, g, last) && multiset(Concat(groups)) == multiset(init)
    ensures multiset(Concat(more)) == multiset(init + [last])
  {
    PlacedConcat(groups, g, last);
  }

  /** Correlation partitions its input: every investigation is in exactly one group, as often as it arrived. */
  lemma GroupsPartition(invs: seq<Investigation>)
    ensures multiset(Concat(Groups(invs))) == multiset(invs)
    ensures forall g :: 0 <= g < |Groups(invs)| ==> Groups(invs)[g] != []
  {
    NothingLost(invs);
    NoGroupEmpty(invs);
  }

  // ----- The loops -----

  datatype Keys = Keys(entities: set<Str>, indicators: set<Str>)

  function Widened(k: Keys, m: Investigation): Keys {
    Keys(k.entities + {m.detection.entity}, k.indicators + IndicatorsOf(m))
  }

  ghost function KeysOf(members: seq<Investigation>): Keys {
    if members == [] then Keys({}, {})
    else
      var k, m := KeysOf(members[..|members| - 1]), members[|members| - 1];
      Widened(k, m)
  }

  /** The keys of a group match an investigation exactly when one of its members is related to it. */
  lemma {:induction false} KeysMatch(members: seq<Investigation>, inv: Investigation)
    ensures (inv.detection.entity in KeysOf(members).entities || IndicatorsOf(inv) * KeysOf(members).indicators != {})
            <==> exists m :: m in members && Related(m, inv)
  {
    if members != [] {
      var n := |members| - 1;
      KeysMatch(members[..n], inv);
      assert members == members[..n] + [members[n]];
      var before, last := KeysOf(members[..n]), members[n];
      assert IndicatorsOf(inv) * KeysOf(members).indicators ==
             IndicatorsOf(inv) * before.indicators + IndicatorsOf(last) * IndicatorsOf(inv);
      if m :| m in members && Related(m, inv) {
        if m != last { assert m in members[..n]; }
      }
      if Related(last, inv) { assert last in members; }
    }
  }

  lemma {:induction false} MembersAt(invs: seq<Investigation>, labels: seq<nat>, g: nat, m: Investigation)
    requires |labels| == |invs|
    ensures m in Members(invs, labels, g) <==> exists p :: 0 <= p < |invs| && labels[p] == g && invs[p] == m
  {
    if invs != [] {
      var n := |invs| - 1;
      MembersAt(invs[..n], labels[..n], g, m);
      if p :| 0 <= p < |invs| && labels[p] == g && invs[p] == m {
        if p < n { assert labels[..n][p] == g && invs[..n][p] == m; }
      }
      if p :| 0 <= p < n && labels[..n][p] == g && invs[..n][p] == m { assert labels[p] == g && invs[p] == m; }
    }
  }

  lemma JoinsByKeys(invs: seq<Investigation>, labels: seq<nat>, g: nat, inv: Investigation)
    requires |labels| == |invs|
    ensures var k := KeysOf(Members(invs, labels, g));
            (inv.detection.entity in k.entities || IndicatorsOf(inv) * k.indicators != {})
            <==> Joins(invs, labels, g, inv)
  {
    var members := Members(invs, labels, g);
    KeysMatch(members, inv);
    if m :| m in members && Related(m, inv) {
      MembersAt(invs, labels, g, m);
      var p :| 0 <= p < |invs| && labels[p] == g && invs[p] == m;
      assert Joins(invs, labels, g, inv);
    }
    if Joins(invs, labels, g, inv) {
      var p :| 0 <= p < |labels| && labels[p] == g && Related(invs[p], inv);
      MembersAt(invs, labels, g, invs[p]);
    }
  }

  lemma {:induction false} FirstFitFound(invs: seq<Investigation>, labels: seq<nat>, inv: Investigation, g: nat, f: nat)
    requires |labels| <= |invs| && g <= f <= GroupCount(labels)
    requires forall h :: g <= h < f ==> !Joins(invs, labels, h, inv)
    requires f < GroupCount(labels) ==> Joins(invs, labels, f, inv)
    ensures FirstFit(invs, labels, inv, g) == f
    decreases f - g
  {
    if g < f { FirstFitFound(invs, labels, inv, g + 1, f); }
  }

  ghost predicate KeysKept(groupKeys: seq<Keys>, groups: seq<seq<Investigation>>) {
    |groupKeys| == |groups| && forall g :: 0 <= g < |groups| ==> groupKeys[g] == KeysOf(groups[g])
  }

  /** The scan for the first group whose keys match; its length when there is none. */
  method FindGroup(groupKeys: seq<Keys>, inv: Investigation, ghost invs: seq<Investigation>) returns (i: nat)
    requires KeysKept(groupKeys, Groups(invs))
    ensures i == FirstFit(invs, Labels(invs), inv, 0) <= |groupKeys|
  {
    var indicators := IndicatorsOf(inv);
    i := 0;
    while i < |groupKeys|
      invariant 0 <= i <= |groupKeys|
      invariant forall h :: 0 <= h < i ==> !Joins(invs, Labels(invs), h, inv)
    {
      JoinsByKeys(invs, Labels(invs), i, inv);
      assert groupKeys[i] == KeysOf(Groups(invs)[i]);
      if inv.detection.entity in groupKeys[i].entities
         || (indicators != {} && indicators * groupKeys[i].indicators != {})
      {
        break;
      }
      i := i + 1;
    }
    FirstFitFound(invs, Labels(invs), inv, 0, i);
  }

  lemma KeysKeptByPlacing(groupKeys: seq<Keys>, groups: seq<seq<Investigation>>, g: nat, inv: Investigation)
    requires KeysKept(groupKeys, groups) && g <= |groups|
    ensures g == |groups| ==>
            KeysKept(groupKeys + [Keys({inv.detection.entity}, IndicatorsOf(inv))], Placed(groups, g, inv))
    ensures g < |groups| ==>
              KeysKept(groupKeys[g := Widened(groupKeys[g], inv)], Placed(groups, g, inv))
  {
    if g == |groups| {
      assert [inv][..0] == [];
      assert KeysOf([inv]) == Keys({inv.detection.entity}, IndicatorsOf(inv));
    } else {
      var more := groups[g] + [inv];
      assert more[..|more| - 1] == groups[g];
    }
  }

  /** The grouping loop: group keys are kept equal to the union of their members' entities and indicators. */
  method GroupInvestigations(invs: seq<Investigation>) returns (groups: seq<seq<Investigation>>)
    ensures groups == Groups(invs)
  {
    groups := [];
    var groupKeys: seq<Keys> := [];
    for n := 0 to |invs|
      invariant groups == Groups(invs[..n])
      invariant KeysKept(groupKeys, groups)
    {
      var inv := invs[n];
      var i := FindGroup(groupKeys, inv, invs[..n]);
      assert invs[..n + 1][..n] == invs[..n];
      GroupsStep(invs[..n + 1]);
      KeysKeptByPlacing(groupKeys, groups, i, inv);
      if i < |groups| {
        groups := groups[i := groups[i] + [inv]];
        groupKeys := groupKeys[i := Widened(groupKeys[i], inv)];
      } else {
        groups := groups + [[inv]];
        groupKeys := groupKeys + [Keys({inv.detection.entity}, IndicatorsOf(inv))];
      }
    }
    assert invs[..|invs|] == invs;
  }

  function Ids(members: seq<Investigation>): (ids: seq<Str>)
    ensures |ids| == |members| && forall i :: 0 <= i < |ids| ==> ids[i] == members[i].id
  {
    seq(|members|, i requires 0 <= i < |members| => members[i].id)
  }

  /** The first of the most severe members. */
  ghost predicate IsTop(members: seq<Investigation>, k: nat) {
    && k < |members|
    && (forall j :: 0 <= j < |members| ==>
          SeverityOrder(members[j].detection.severity) <= SeverityOrder(members[k].detection.severity))
    && (forall j :: 0 <= j < k ==>
          SeverityOrder(members[j].detection.severity) < SeverityOrder(members[k].detection.severity))
  }

  /** An incident rolls its members up: worst severity, exact sorted unions, members in input order. */
  ghost predicate Summarises(inc: Incident, members: seq<Investigation>) {
    && (exists k: nat :: IsTop(members, k)
          && inc.severity == members[k].detection.severity
          && inc.entity == members[k].detection.entity
          && inc.title == if |members| == 1 then members[k].detection.title
                          else members[k].detection.title + Lit(" (+") + Lit(IntText(|members| - 1)) + Lit(" related)"))
    && inc.investigationIds == Ids(members)
    && DictionarySorted(inc.indicators) && DictionarySorted(inc.tactics)
    && (forall x :: x in inc.indicators <==> exists m :: m in members && Indicates(m, x))
    && (forall x :: x in inc.tactics <==> exists m :: m in members && x in m.detection.tactics)
  }

  /** An incident is named after its most severe member, the earliest of several. */
  lemma NamedAfterFirstWorst(inc: Incident, members: seq<Investigation>, k: nat)
    requires Summarises(inc, members) && k < |members|
    requires forall j :: 0 <= j < |members| ==>
               var own := SeverityOrder(members[j].detection.severity);
               var worst := SeverityOrder(members[k].detection.severity);
               own < worst || (own == worst && j >= k)
    ensures inc.entity == members[k].detection.entity && inc.severity == members[k].detection.severity
    ensures members[k].detection.title <= inc.title
  {
    var top: nat :| IsTop(members, top)
                    && inc.severity == members[top].detection.severity
                    && inc.entity == members[top].detection.entity
                    && inc.title == if |members| == 1 then members[top].detection.title
                                    else members[top].detection.title
                                         + Lit(" (+") + Lit(IntText(|members| - 1)) + Lit(" related)");
    assert top == k;
  }

  /** The first of the most severe members, as `max` picks it. */
  method MostSevere(members: seq<Investigation>) returns (top: nat)
    requires members != []
    ensures IsTop(members, top)
  {
    top := 0;
    for i := 1 to |members|
      invariant IsTop(members[..i], top)
    {
      if SeverityOrder(members[i].detection.severity) > SeverityOrder(members[top].detection.severity) { top := i; }
    }
    assert members[..|members|] == members;
  }

  lemma IndicatorsExact(m: Investigation)
    ensures forall x :: x in IndicatorsOf(m) <==> Indicates(m, x)
  {
  }

  /** The union of the members' indicators and that of their tactics, each sorted. */
  method Unions(members: seq<Investigation>) returns (indicators: seq<Str>, tactics: seq<Str>)
    ensures DictionarySorted(indicators) && DictionarySorted(tactics)
    ensures forall x :: x in indicators <==> exists m :: m in members && Indicates(m, x)
    ensures forall x :: x in tactics <==> exists m :: m in members && x in m.detection.tactics
  {
    var allIndicators, allTactics: set<Str> := {}, {};
    for i := 0 to |members|
      invariant forall x :: x in allIndicators <==> exists m :: m in members[..i] && Indicates(m, x)
      invariant forall x :: x in allTactics <==> exists m :: m in members[..i] && x in m.detection.tactics
    {
      assert members[..i + 1] == members[..i] + [members[i]];
      IndicatorsExact(members[i]);
      allIndicators := allIndicators + IndicatorsOf(members[i]);
      allTactics := allTactics + (set x | x in members[i].detection.tactics);
    }
    assert members[..|members|] == members;
    indicators := SortedList(allIndicators);
    tactics := SortedList(allTactics);
    AscendingIsDictionarySorted(indicators);
    AscendingIsDictionarySorted(tactics);
  }

  method RollUp(members: seq<Investigation>) returns (inc: Incident)
    requires members != []
    ensures RolledUp(inc, members)
  {
    var top := MostSevere(members);
    var indicators, tactics := Unions(members);
    var d := members[top].detection;
    var title := if |members| == 1 then d.title
                 else d.title + Lit(" (+") + Lit(IntText(|members| - 1)) + Lit(" related)");
    inc := Incident(title, d.entity, d.severity, 0, Ids(members), indicators, tactics);
  }

  /** As the roll-up leaves it: the risk score is filled in later. */
  ghost predicate RolledUp(inc: Incident, members: seq<Investigation>) {
    Summarises(inc, members) && inc.riskScore == 0
  }

  /** Group the investigations and roll every group up into one incident. */
  method Correlate(invs: seq<Investigation>) returns (incidents: seq<Incident>)
    ensures |incidents| == |Groups(invs)|
    ensures Matched(RolledUp, incidents, Groups(invs))
  {
    var groups := GroupInvestigations(invs);
    NoGroupEmpty(invs);
    incidents := [];
    for g := 0 to |groups|
      invariant |incidents| == g
      invariant Matched(RolledUp, incidents, groups)
    {
      var inc := RollUp(groups[g]);
      MatchedSnoc(RolledUp, incidents, groups, inc);
      incidents := incidents + [inc];
    }
  }

  // ----- Incident risk -----

  function MaxRisk(members: seq<Investigation>): Option<int> {
    if members == [] then None
    else
      var m, r := MaxRisk(members[..|members| - 1]), RiskFrom(members[|members| - 1]);
      if m.None? then Some(r) else Some(Max(m.value, r))
  }

  /** The worst score among the listed investigations that have one of these ids, or 0 when there is none. */
  function WorstOf(ids: seq<Str>, items: seq<Investigation>): int {
    var worst := MaxRisk(Filter((i: Investigation) => i.id in ids, items));
    if worst.None? then 0 else worst.value
  }

  function IncidentRisk(inc: Incident, items: seq<Investigation>): int {
    WorstOf(inc.investigationIds, items)
  }

  ghost predicate UniqueIds(invs: seq<Investigation>) {
    forall i, j :: 0 <= i < j < |invs| ==> invs[i].id != invs[j].id
  }

  lemma {:induction false} MaxRiskIsMaximum(members: seq<Investigation>)
    ensures MaxRisk(members).None? <==> members == []
    ensures members != [] ==> exists m :: m in members && RiskFrom(m) == MaxRisk(members).value
    ensures forall m :: m in members ==> RiskFrom(m) <= MaxRisk(members).value
  {
    if members != [] {
      var n := |members| - 1;
      MaxRiskIsMaximum(members[..n]);
      assert members == members[..n] + [members[n]];
      assert members[n] in members;
      if m :| m in members[..n] && RiskFrom(m) == MaxRisk(members[..n]).value { assert m in members; }
    }
  }

  lemma {:induction false} FilterElements(ids: seq<Str>, items: seq<Investigation>)
    ensures forall m :: m in Filter((i: Investigation) => i.id in ids, items) <==> m in items && m.id in ids
  {
    if items != [] {
      FilterElements(ids, items[..|items| - 1]);
      assert items == items[..|items| - 1] + [items[|items| - 1]];
    }
  }

  /** With unique ids an incident's risk is the highest score among its own members, and one of them has it. */
  lemma IncidentRiskIsWorstMember(invs: seq<Investigation>, g: nat, inc: Incident)
    requires UniqueIds(invs) && g < |Groups(invs)| && inc.investigationIds == Ids(Groups(invs)[g])
    ensures exists m :: m in Groups(invs)[g] && RiskFrom(m) == IncidentRisk(inc, invs)
    ensures forall m :: m in Groups(invs)[g] ==> RiskFrom(m) <= IncidentRisk(inc, invs)
  {
    var members := Groups(invs)[g];
    var ids := inc.investigationIds;
    var named := Filter((i: Investigation) => i.id in ids, invs);
    forall m ensures m in named <==> m in members { NamedIffMember(invs, g, ids, m); }
    NoGroupEmpty(invs);
    assert members[0] in named;
    MaxRiskIsMaximum(named);
  }

  /** With unique ids, the listed investigations that have a member's id are the members. */
  lemma NamedIffMember(invs: seq<Investigation>, g: nat, ids: seq<Str>, m: Investigation)
    requires UniqueIds(invs) && g < |Groups(invs)| && ids == Ids(Groups(invs)[g])
    ensures m in Filter((i: Investigation) => i.id in ids, invs) <==> m in Groups(invs)[g]
  {
    var members := Groups(invs)[g];
    FilterElements(ids, invs);
    MembersAt(invs, Labels(invs), g, m);
    if m in members {
      var k :| 0 <= k < |members| && members[k] == m;
      assert ids[k] == m.id;
    }
    if m in invs && m.id in ids {
      var k :| 0 <= k < |members| && ids[k] == m.id;
      MembersAt(invs, Labels(invs), g, members[k]);
      assert members[k] in invs;
    }
  }
}
