/**
 Two requests on one case at once. A request reads a row, works on its own copy, and on commit writes those columns
 whose value it changed over the row as it is stored by then. What others committed in between is neither seen nor
 merged: the payload is one column.
 */
module Overlap {
  import opened Basics
  import opened Domain
  import opened Risk
  import opened Cases

  function Written<T(==)>(read: T, after: T, stored: T): T {
    if after == read then stored else after
  }

  /** The row after a commit. */
  function Merged(read: Row, after: Row, stored: Row): Row {
    Row(
      Written(read.title, after.title, stored.title),
      Written(read.severity, after.severity, stored.severity),
      Written(read.status, after.status, stored.status),
      Written(read.entity, after.entity, stored.entity),
      Written(read.riskScore, after.riskScore, stored.riskScore),
      Written(read.isTruePositive, after.isTruePositive, stored.isTruePositive),
      Written(read.assignee, after.assignee, stored.assignee),
      Written(read.acknowledgedAt, after.acknowledgedAt, stored.acknowledgedAt),
      Written(read.containedAt, after.containedAt, stored.containedAt),
      Written(read.payload, after.payload, stored.payload))
  }

  /** Two versions of one case: alike but for status, assignee, stamps, and the progress of its actions. */
  ghost predicate SameCase(a: Row, b: Row) {
    && a.title == b.title && a.severity == b.severity && a.entity == b.entity
    && a.riskScore == b.riskScore && a.isTruePositive == b.isTruePositive
    && a.payload.id == b.payload.id && a.payload.verdict == b.payload.verdict
    && a.payload.detection.(status := New) == b.payload.detection.(status := New)
    && |a.payload.actions| == |b.payload.actions|
    && forall i :: 0 <= i < |a.payload.actions| ==>
         && a.payload.actions[i].actionType == b.payload.actions[i].actionType
         && a.payload.actions[i].target == b.payload.actions[i].target
  }

  lemma EffectSameCase(r: Row, op: Op)
    ensures SameCase(r, RowAfter(r, op))
  {
  }

  lemma MergedSameCase(read: Row, op: Op, stored: Row)
    requires SameCase(read, stored)
    ensures SameCase(stored, Merged(read, RowAfter(read, op), stored))
  {
    EffectSameCase(read, op);
  }

  /** With nothing committed in between, a commit stores exactly what the request made of the row. */
  lemma UndisturbedCommit(read: Row, after: Row)
    ensures Merged(read, after, read) == after
  {
  }

  // ----- When the header stays in agreement -----

  /**
   A request that rewrites the payload writes into it the status and the assignee of the row it read. So those of
   the two columns that it does not write must still be as it read them.
   */
  predicate HeaderCurrent(read: Row, after: Row, stored: Row) {
    after.payload != read.payload ==>
      && (after.status == read.status ==> stored.status == read.status)
      && (after.assignee == read.assignee ==> stored.assignee == read.assignee)
  }

  /** A commit keeps header and payload in agreement if and only if the columns it copies are current. */
  lemma CommitAgreesIff(read: Row, op: Op, stored: Row)
    requires HeaderAgrees(read) && HeaderAgrees(stored) && SameCase(read, stored)
    ensures HeaderAgrees(Merged(read, RowAfter(read, op), stored)) <==>
              HeaderCurrent(read, RowAfter(read, op), stored)
  {
    var after := RowAfter(read, op);
    var merged := Merged(read, after, stored);
    EffectKeepsHeader(read, op);
    EffectSameCase(read, op);
    assert SameCase(stored, merged) by { MergedSameCase(read, op, stored); }
    SameRisk(stored, merged);
    if after.payload == read.payload {
      assert merged.payload == stored.payload && merged.status == stored.status && merged.assignee == stored.assignee;
    } else {
      assert merged.payload == after.payload;
    }
  }

  lemma SameRisk(a: Row, b: Row)
    requires SameCase(a, b)
    ensures RiskFrom(a.payload) == RiskFrom(b.payload) && VerdictColumn(a.payload) == VerdictColumn(b.payload)
    ensures a.payload.detection.title == b.payload.detection.title
    ensures a.payload.detection.severity == b.payload.detection.severity
    ensures a.payload.detection.entity == b.payload.detection.entity
  {
    var x, y := a.payload.detection.(status := New), b.payload.detection.(status := New);
    assert x.severity == y.severity && x.context == y.context && x.title == y.title && x.entity == y.entity;
  }

  // ----- When progress is kept -----

  /** Since the read, others approved and executed no action but the one this request approves or executes. */
  predicate NoOthersProgress(read: Row, op: Op, stored: Row) {
    var a, b := read.payload.actions, stored.payload.actions;
    |a| == |b| &&
    forall i :: 0 <= i < |a| ==>
      && (a[i].requiresApproval && !b[i].requiresApproval ==> op.Approve? && op.index == i)
      && (!a[i].executed && b[i].executed ==> op.Execute? && op.index == i)
  }

  predicate StampCurrent(read: Option<int>, after: Option<int>, stored: Option<int>) {
    after != read ==> stored.None? || stored == after
  }

  /**
   What a commit would have to check again: that the workflow allows its status change from the status now stored,
   that nobody else advanced an action it is about to overwrite, and that nobody else has set a stamp it sets.
   */
  predicate ProgressCurrent(read: Row, op: Op, stored: Row) {
    var after := RowAfter(read, op);
    && (after.status != read.status ==> stored.status == after.status || CanTransition(stored.status, after.status))
    && (after.payload != read.payload ==> NoOthersProgress(read, op, stored))
    && StampCurrent(read.acknowledgedAt, after.acknowledgedAt, stored.acknowledgedAt)
    && StampCurrent(read.containedAt, after.containedAt, stored.containedAt)
  }

  /** A commit is a legal step of the stored row if and only if those checks would pass. */
  lemma CommitEvolvesIff(read: Row, op: Op, stored: Row)
    requires SameCase(read, stored)
    ensures RowEvolves(stored, Merged(read, RowAfter(read, op), stored)) <==> ProgressCurrent(read, op, stored)
  {
    var after := RowAfter(read, op);
    EffectEvolves(read, op);
    MergedSameCase(read, op, stored);
    StampsOnlySet(read, op);
    if after.payload != read.payload { ActionsEvolveIff(read, op, stored); }
  }

  lemma StampsOnlySet(read: Row, op: Op)
    ensures var after := RowAfter(read, op);
            && (after.acknowledgedAt != read.acknowledgedAt ==> after.acknowledgedAt.Some?)
            && (after.containedAt != read.containedAt ==> after.containedAt.Some?)
  {
  }

  ghost predicate ActionsEvolve(a: seq<Action>, b: seq<Action>) {
    |a| == |b| &&
    forall i :: 0 <= i < |a| ==>
      (b[i].requiresApproval ==> a[i].requiresApproval) && (a[i].executed ==> b[i].executed)
  }

  lemma ActionsEvolveIff(read: Row, op: Op, stored: Row)
    requires SameCase(read, stored) && RowAfter(read, op).payload != read.payload
    ensures ActionsEvolve(stored.payload.actions, RowAfter(read, op).payload.actions) <==>
              NoOthersProgress(read, op, stored)
  {
    var a, b, c := read.payload.actions, stored.payload.actions, RowAfter(read, op).payload.actions;
    forall i | 0 <= i < |a|
      ensures c[i].requiresApproval <==> a[i].requiresApproval && !(op.Approve? && op.index == i)
      ensures c[i].executed <==> a[i].executed || (op.Execute? && op.index == i)
    {
    }
  }

  /** With nothing committed in between both checks pass. */
  lemma UndisturbedIsCurrent(read: Row, op: Op)
    ensures HeaderCurrent(read, RowAfter(read, op), read) && ProgressCurrent(read, op, read)
  {
    EffectEvolves(read, op);
  }

  // ----- When containment is stamped -----

  /** A transition request to contained that the row it read allows. */
  predicate ToContained(read: Row, op: Op) {
    op.Transition? && ParseStatus(op.target) == Some(Contained) && CanTransition(read.status, Contained)
  }

  /** A commit leaves a containment time if and only if one was stored or the request is such a transition. */
  lemma CommitStampsIff(read: Row, op: Op, stored: Row)
    requires read.containedAt.Some? ==> stored.containedAt.Some?
    ensures Merged(read, RowAfter(read, op), stored).containedAt.Some? <==>
              stored.containedAt.Some? || ToContained(read, op)
  {
  }
}
