/** The full pipeline: detect, then enrich, judge and plan for every detection, in order. */
module Pipeline {
  import opened Basics
  import opened Domain
  import opened Risk
  import opened Cases
  import Resilience
  import opened Detecting

  function UserOf(d: Detection): Option<Str> {
    if d.users != [] then Some(d.users[0]) else None
  }

  function IdentityOf(p: Provider, d: Detection): map<Str, Str> {
    if d.users != [] && d.users[0] != [] then p.user(d.users[0]) else map[]
  }

  /** The multiplier a detection gets, malicious exactly when some listed source address is. */
  ghost function BoostFor(p: Provider, d: Detection): real {
    Multiplier(p.host(d.entity), AnyMalicious(p, d.srcIps), Privileged(IdentityOf(p, d)))
  }

  /** The investigation of one detection under one verdict. */
  ghost function Investigated(p: Provider, id: Str, d: Detection, v: Verdict): Investigation {
    var context := Context(Some(Flagged(p, d.srcIps)), Some(Round3(BoostFor(p, d))));
    var status := if v.isTruePositive then Investigating else FalsePositive;
    Investigation(id, d.(context := context, status := status, severity := v.recommended), Some(v),
                  if v.isTruePositive then Planned(v.suggested, d.entity) else [], None)
  }

  /** The investigations of a list of detections: one each, in order. */
  ghost function AllInvestigated(
      p: Provider, ids: nat -> Str, verdicts: nat -> Verdict, detections: seq<Detection>): (found: seq<Investigation>)
    ensures |found| == |detections|
    ensures forall i :: 0 <= i < |found| ==> found[i] == Investigated(p, ids(i), detections[i], verdicts(i))
  {
    seq(|detections|, i requires 0 <= i < |detections| => Investigated(p, ids(i), detections[i], verdicts(i)))
  }

  lemma {:induction false} PlannedAsGated(suggested: seq<Str>, entity: Str)
    ensures forall a :: a in Planned(suggested, entity) ==>
              !a.executed && (a.requiresApproval <==> MustBeApproved(a.actionType))
  {
    if suggested != [] { PlannedAsGated(suggested[..|suggested| - 1], entity); }
  }

  /** What the pipeline hands on is planned, unexecuted, unassigned and in an opening status. */
  lemma InvestigatedAsPlanned(p: Provider, id: Str, d: Detection, v: Verdict)
    ensures AsPlanned(Investigated(p, id, d, v))
  {
    PlannedAsGated(v.suggested, d.entity);
  }

  /**
   What a detection becomes, told by what the provider and the verdict say: the addresses called malicious are its
   indicators; the multiplier weighs its host, any malicious address and its first user; the verdict decides status,
   severity and actions.
   */
  lemma InvestigatedExactly(p: Provider, id: Str, d: Detection, v: Verdict)
    ensures var inv := Investigated(p, id, d, v);
            var malicious := (ip: Str) => Lit("verdict") in p.ip(ip) && p.ip(ip)[Lit("verdict")] == Lit("malicious");
            var privileged := d.users != [] && d.users[0] != [] && Privileged(p.user(d.users[0]));
            && inv.id == id && inv.verdict == Some(v) && inv.assignee == None
            && inv.detection.severity == v.recommended
            && inv.detection.status == (if v.isTruePositive then Investigating else FalsePositive)
            && inv.detection.context.indicators == Some(Filter(malicious, d.srcIps))
            && inv.detection.context.riskBoost ==
               Some(Round3(Multiplier(p.host(d.entity), exists ip :: ip in d.srcIps && malicious(ip), privileged)))
            && inv.detection.title == d.title && inv.detection.entity == d.entity
            && inv.detection.eventCount == d.eventCount
            && (inv.detection.tactics, inv.detection.srcIps, inv.detection.users) == (d.tactics, d.srcIps, d.users)
            && TypesOf(inv.actions) ==
               if v.isTruePositive
               then Filter((s: Str) => s != Lit("monitor") && s != Lit("close_as_fp") && s != Lit("manual_review"),
                           v.suggested)
               else []
  {
    FlaggedIsFilter(p, d.srcIps);
    PlannedExactly(v.suggested, d.entity);
    var malicious := (ip: Str) => Lit("verdict") in p.ip(ip) && p.ip(ip)[Lit("verdict")] == Lit("malicious");
    SameFlags(p, d.srcIps, malicious);
  }

  lemma SameFlags(p: Provider, ips: seq<Str>, malicious: Str -> bool)
    requires forall ip :: malicious(ip) <==> Malicious(p.ip(ip))
    ensures AnyMalicious(p, ips) <==> exists ip :: ip in ips && malicious(ip)
  {
  }

  class Orchestrator {
    const detector: DetectionAgent
    const provider: Provider

    constructor (rules: seq<Rule>, provider: Provider)
      ensures this.provider == provider && fresh(detector) && fresh(detector.breaker) && detector.rules == rules
      ensures detector.breaker.State() == Resilience.Fresh(FAILURE_THRESHOLD, RESET_AFTER)
    {
      detector := new DetectionAgent(rules);
      this.provider := provider;
    }

    /** Enrich one detection and turn it, under its verdict, into an investigation. */
    method InvestigateOne(id: Str, d: Detection, verdict: Verdict) returns (inv: Investigation)
      ensures inv == Investigated(provider, id, d, verdict)
    {
      var e := Enrich(provider, d.entity, UserOf(d), d.srcIps);
      inv := Investigate(id, d, e, verdict);
    }

    method InvestigateAll(detections: seq<Detection>, ids: nat -> Str, verdicts: nat -> Verdict)
      returns (found: seq<Investigation>)
      ensures found == AllInvestigated(provider, ids, verdicts, detections)
    {
      found := [];
      for i := 0 to |detections|
        invariant |found| == i
        invariant forall k :: 0 <= k < i ==> found[k] == Investigated(provider, ids(k), detections[k], verdicts(k))
      {
        var inv := InvestigateOne(ids(i), detections[i], verdicts(i));
        found := found + [inv];
      }
    }

    /** Detect, then investigate every detection; an exception of the detection loop ends the run with nothing. */
    method RunFullPipeline(
        disabled: set<Str>, start: int, world: World, ids: nat -> Str, verdicts: nat -> Verdict)
      returns (found: seq<Investigation>, failed: bool)
      modifies detector.breaker
      ensures var rules, breaker := detector.rules, old(detector.breaker.State());
              var s := Sweeping(breaker, rules, disabled, start, world, |rules|);
              && failed == s.failure.Some?
              && (!failed ==> found == AllInvestigated(provider, ids, verdicts, s.detections))
    {
      var detections, answered, failure, clock := detector.Run(disabled, start, world);
      if failure.Some? { return [], true; }
      found := InvestigateAll(detections, ids, verdicts);
      failed := false;
    }
  }

  /**
   A fresh pipeline yields one planned investigation per expected detection, in rule order, or fails exactly when some
   enabled rule is not answered.
   */
  lemma FreshPipeline(
      p: Provider, rules: seq<Rule>, disabled: set<Str>, start: int, world: World, ids: nat -> Str,
      verdicts: nat -> Verdict)
    ensures var s := Sweeping(Resilience.Fresh(FAILURE_THRESHOLD, RESET_AFTER), rules, disabled, start, world, |rules|);
            && (s.failure.None? <==> Answered(rules, disabled, world, |rules|))
            && (s.failure.None? ==>
                  var found := AllInvestigated(p, ids, verdicts, s.detections);
                  && DetectsFirings(s.detections, rules, disabled, world)
                  && forall i :: 0 <= i < |found| ==> AsPlanned(found[i]))
  {
    var s := Sweeping(Resilience.Fresh(FAILURE_THRESHOLD, RESET_AFTER), rules, disabled, start, world, |rules|);
    FreshRunNeverShortCircuits(FAILURE_THRESHOLD, RESET_AFTER, rules, disabled, start, world, |rules|);
    if s.failure.None? {
      CompletedRunDetects(Resilience.Fresh(FAILURE_THRESHOLD, RESET_AFTER), rules, disabled, start, world);
    }
    forall i | 0 <= i < |s.detections| ensures AsPlanned(AllInvestigated(p, ids, verdicts, s.detections)[i]) {
      InvestigatedAsPlanned(p, ids(i), s.detections[i], verdicts(i));
    }
  }
}
