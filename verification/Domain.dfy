/** The entities passed between the agents, the repositories and the routes. */
module Domain {
  import opened Basics

  datatype Severity = Info | Low | Medium | High | Critical

  datatype Status = New | Triaged | Investigating | Contained | Resolved | FalsePositive

  /** The two enrichment entries that later code reads; None when absent or of another type. */
  datatype Context = Context(indicators: Option<seq<Str>>, riskBoost: Option<real>)

  datatype Detection = Detection(
    title: Str,
    severity: Severity,
    status: Status,
    entity: Str,
    eventCount: int,
    tactics: seq<Str>,
    srcIps: seq<Str>,
    users: seq<Str>,
    context: Context)

  datatype Verdict = Verdict(isTruePositive: bool, confidence: real, recommended: Severity, suggested: seq<Str>)

  datatype Action = Action(
    actionType: Str,
    target: Str,
    requiresApproval: bool,
    executed: bool,
    executionStatus: Option<Str>,
    executionDetail: Option<Str>,
    rollbackToken: Option<Str>)

  datatype Investigation = Investigation(
    id: Str,
    detection: Detection,
    verdict: Option<Verdict>,
    actions: seq<Action>,
    assignee: Option<Str>)

  function SeverityOrder(s: Severity): int {
    match s
    case Info => 0
    case Low => 1
    case Medium => 2
    case High => 3
    case Critical => 4
  }
}
