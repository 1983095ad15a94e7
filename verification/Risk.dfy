/** Enrichment and the risk score, in exact arithmetic. */
module Risk {
  import opened Basics
  import opened Domain

  /** A provider answers each lookup the same way every time it is asked. */
  datatype Provider = Provider(ip: Str -> map<Str, Str>, host: Str -> Str, user: Str -> map<Str, Str>)

  predicate Malicious(intel: map<Str, Str>) {
    Lit("verdict") in intel && intel[Lit("verdict")] == Lit("malicious")
  }

  predicate Privileged(identity: map<Str, Str>) {
    Lit("privileged") in identity && identity[Lit("privileged")] == Lit("true")
  }

  function CriticalityFactor(criticality: Str): real {
    if criticality == Lit("low") then 0.95
    else if criticality == Lit("medium") then 1.05
    else if criticality == Lit("high") then 1.15
    else if criticality == Lit("crown_jewel") then 1.3
    else 1.0
  }

  /** The multiplier of a context: its criticality factor, a quarter more if malicious, 15% more if privileged. */
  function Multiplier(criticality: Str, malicious: bool, privileged: bool): real {
    CriticalityFactor(criticality) * (if malicious then 1.25 else 1.0) * (if privileged then 1.15 else 1.0)
  }

  /** The multiplier, entry by entry: the four known criticalities, and the factors of the two findings. */
  lemma MultiplierExact(criticality: Str, intel: map<Str, Str>, identity: map<Str, Str>)
    ensures var known := {Lit("low"), Lit("medium"), Lit("high"), Lit("crown_jewel")};
            var neutral := Multiplier(criticality, false, false);
            && (criticality == Lit("low") ==> neutral == 0.95) && (criticality == Lit("medium") ==> neutral == 1.05)
            && (criticality == Lit("high") ==> neutral == 1.15)
            && (criticality == Lit("crown_jewel") ==> neutral == 1.3)
            && (criticality !in known ==> neutral == 1.0)
            && Multiplier(criticality, Malicious(intel), Privileged(identity)) ==
               neutral
               * (if Lit("verdict") in intel && intel[Lit("verdict")] == Lit("malicious") then 1.25 else 1.0)
               * (if Lit("privileged") in identity && identity[Lit("privileged")] == Lit("true") then 1.15 else 1.0)
  {
    assert |Lit("low")| == 3 && |Lit("medium")| == 6 && |Lit("high")| == 4 && |Lit("crown_jewel")| == 11;
  }

  class Enrichment {
    var threatIntel: map<Str, Str>
    var assetCriticality: Str
    var identityContext: map<Str, Str>
    var indicators: seq<Str>

    constructor ()
      ensures threatIntel == map[] && identityContext == map[] && indicators == []
      ensures assetCriticality == Lit("unknown")
    {
      threatIntel, identityContext, indicators, assetCriticality := map[], map[], [], Lit("unknown");
    }

    /** The risk multiplier that the context contributes. */
    method Boost() returns (mult: real)
      ensures mult == Multiplier(assetCriticality, Malicious(threatIntel), Privileged(identityContext))
      ensures 0.95 <= mult <= 1.86875
    {
      mult := 1.0;
      mult := mult * CriticalityFactor(assetCriticality);
      if Malicious(threatIntel) { mult := mult * 1.25; }
      if Privileged(identityContext) { mult := mult * 1.15; }
    }
  }

  /** The listed addresses that the provider calls malicious, in order. */
  function Flagged(p: Provider, ips: seq<Str>): seq<Str> {
    if ips == [] then []
    else
      var ip := ips[|ips| - 1];
      Flagged(p, ips[..|ips| - 1]) + (if Malicious(p.ip(ip)) then [ip] else [])
  }

  /** The flagged addresses are those answered with a malicious verdict, in order and with repetitions. */
  lemma {:induction false} FlaggedIsFilter(p: Provider, ips: seq<Str>)
    ensures Flagged(p, ips) ==
            Filter((ip: Str) => Lit("verdict") in p.ip(ip) && p.ip(ip)[Lit("verdict")] == Lit("malicious"), ips)
  {
    if ips != [] { FlaggedIsFilter(p, ips[..|ips| - 1]); }
  }

  lemma {:induction false} FlaggedExactly(p: Provider, ips: seq<Str>)
    ensures forall ip :: ip in Flagged(p, ips) <==> ip in ips && Malicious(p.ip(ip))
  {
    if ips != [] {
      FlaggedExactly(p, ips[..|ips| - 1]);
      assert ips == ips[..|ips| - 1] + [ips[|ips| - 1]];
    }
  }

  ghost predicate AnyMalicious(p: Provider, ips: seq<Str>) {
    exists ip :: ip in ips && Malicious(p.ip(ip))
  }

  /** The intelligence kept for a list of addresses: that of the last flagged one, or else of the first. */
  function Intel(p: Provider, ips: seq<Str>): map<Str, Str> {
    var flagged := Flagged(p, ips);
    if flagged != [] then p.ip(flagged[|flagged| - 1]) else if ips != [] then p.ip(ips[0]) else map[]
  }

  lemma FlaggedStep(p: Provider, ips: seq<Str>, i: nat)
    requires i < |ips|
    ensures Flagged(p, ips[..i + 1]) == Flagged(p, ips[..i]) + (if Malicious(p.ip(ips[i])) then [ips[i]] else [])
  {
    assert ips[..i + 1][..i] == ips[..i];
  }

  /** Look the addresses up in turn, keeping the malicious ones and the intelligence of the last of them. */
  method LookUp(p: Provider, ips: seq<Str>) returns (intel: map<Str, Str>, indicators: seq<Str>)
    ensures indicators == Flagged(p, ips) && intel == Intel(p, ips)
  {
    intel, indicators := map[], [];
    for i := 0 to |ips|
      invariant indicators == Flagged(p, ips[..i])
      invariant intel == if indicators == [] then map[] else p.ip(indicators[|indicators| - 1])
    {
      var answer := p.ip(ips[i]);
      FlaggedStep(p, ips, i);
      if Malicious(answer) {
        intel := answer;
        indicators := indicators + [ips[i]];
      }
    }
    assert ips[..|ips|] == ips;
    IntelDecides(p, ips);
    if intel == map[] && ips != [] { intel := p.ip(ips[0]); }
  }

  /** Look everything up; the context counts as malicious exactly when some listed address is. */
  method Enrich(p: Provider, host: Str, user: Option<Str>, ips: seq<Str>) returns (e: Enrichment)
    ensures fresh(e)
    ensures e.assetCriticality == p.host(host)
    ensures e.identityContext == if user.Some? && user.value != [] then p.user(user.value) else map[]
    ensures e.indicators == Flagged(p, ips)
    ensures Malicious(e.threatIntel) <==> AnyMalicious(p, ips)
    ensures e.threatIntel == if e.indicators != [] then p.ip(e.indicators[|e.indicators| - 1])
                             else if ips != [] then p.ip(ips[0]) else map[]
  {
    e := new Enrichment();
    e.assetCriticality := p.host(host);
    if user.Some? && user.value != [] { e.identityContext := p.user(user.value); }
    e.threatIntel, e.indicators := LookUp(p, ips);
    IntelDecides(p, ips);
  }

  /** The kept intelligence is malicious exactly when some address is; a malicious answer is never empty. */
  lemma IntelDecides(p: Provider, ips: seq<Str>)
    ensures Malicious(Intel(p, ips)) <==> AnyMalicious(p, ips)
    ensures Flagged(p, ips) != [] ==> Intel(p, ips) != map[]
  {
    var flagged := Flagged(p, ips);
    FlaggedExactly(p, ips);
    assert flagged != [] ==> flagged[|flagged| - 1] in flagged;
    assert ips != [] ==> ips[0] in ips;
  }

  /** Rounding to three decimals, ties to even. */
  function Round3(x: real): real {
    var below := (x * 1000.0).Floor;
    var part := x * 1000.0 - below as real;
    (if part < 0.5 || (part == 0.5 && below % 2 == 0) then below else below + 1) as real / 1000.0
  }

  lemma Round3Bounds(x: real, y: real)
    ensures x - 0.0005 <= Round3(x) <= x + 0.0005
    ensures x <= y ==> Round3(x) <= Round3(y)
  {
    var fx, fy := (x * 1000.0).Floor, (y * 1000.0).Floor;
    if x <= y {
      assert x * 1000.0 <= y * 1000.0;
      assert fx <= fy;
    }
  }

  /** The result is the nearest multiple of a thousandth, the even one of two that are equally near. */
  lemma Round3Exact(x: real, k: int)
    ensures Round3(x) == k as real / 1000.0 <==>
              && -0.5 <= x * 1000.0 - k as real <= 0.5
              && (x * 1000.0 - k as real == 0.5 || x * 1000.0 - k as real == -0.5 ==> k % 2 == 0)
  {
    var scaled := x * 1000.0;
    var below := scaled.Floor;
    var part := scaled - below as real;
    var rounded := if part < 0.5 || (part == 0.5 && below % 2 == 0) then below else below + 1;
    assert Round3(x) == rounded as real / 1000.0;
    if k < below { assert scaled - k as real >= 1.0; }
    if k > below + 1 { assert scaled - k as real <= -1.0; }
  }

  /** The multiplier stored with a detection lies between its two extremes, rounded. */
  lemma StoredBoostBounds(mult: real)
    requires 0.95 <= mult <= 1.86875
    ensures 0.95 <= Round3(mult) <= 1.869
  {
    Round3Bounds(0.95, mult);
    Round3Bounds(mult, 1.86875);
    assert (0.95 * 1000.0).Floor == 950;
    assert (1.86875 * 1000.0).Floor == 1868;
  }

  function SeverityWeight(s: Severity): real {
    match s
    case Info => 10.0
    case Low => 30.0
    case Medium => 55.0
    case High => 80.0
    case Critical => 95.0
  }

  /** Conversion to an integer, towards zero. */
  function Truncate(x: real): int {
    if x >= 0.0 then x.Floor else -((-x).Floor)
  }

  function BoostOf(inv: Investigation): real {
    if inv.detection.context.riskBoost.Some? then inv.detection.context.riskBoost.value else 1.0
  }

  /** The score of a true positive. */
  function TrueScore(base: real, confidence: real, boost: real): int {
    Min(100, Truncate(base * (0.6 + 0.4 * confidence) * boost))
  }

  /** The score without a verdict. */
  function UnjudgedScore(base: real, boost: real): int {
    Min(100, Truncate(base * boost))
  }

  /** The score of an investigation from its severity, triage confidence and enrichment. */
  function RiskFrom(inv: Investigation): int {
    Score(inv.detection.severity, inv.verdict, BoostOf(inv))
  }

  function Score(severity: Severity, verdict: Option<Verdict>, boost: real): int {
    var base := SeverityWeight(severity);
    if verdict.Some? then
      if !verdict.value.isTruePositive then Max(0, Truncate(base * 0.2))
      else TrueScore(base, verdict.value.confidence, boost)
    else UnjudgedScore(base, boost)
  }

  lemma TruncateReaches(x: real, n: int)
    requires n > 0
    ensures Truncate(x) >= n <==> x >= n as real
  {
  }

  lemma CappedReaches(x: real, n: int)
    requires 0 < n <= 100
    ensures Min(100, Truncate(x)) >= n <==> x >= n as real
  {
    TruncateReaches(x, n);
  }

  lemma TrueScoreReaches(base: real, confidence: real, boost: real, n: int)
    requires 0 < n <= 100
    ensures TrueScore(base, confidence, boost) >= n <==> base * (0.6 + 0.4 * confidence) * boost >= n as real
  {
    CappedReaches(base * (0.6 + 0.4 * confidence) * boost, n);
  }

  lemma UnjudgedScoreReaches(base: real, boost: real, n: int)
    requires 0 < n <= 100
    ensures UnjudgedScore(base, boost) >= n <==> base * boost >= n as real
  {
    CappedReaches(base * boost, n);
  }

  /** The weight of a severity and the stored multiplier, a missing one counting as 1. */
  ghost predicate Weighs(inv: Investigation, weight: real, boost: real) {
    && weight == (match inv.detection.severity
                  case Info => 10.0 case Low => 30.0 case Medium => 55.0 case High => 80.0 case Critical => 95.0)
    && boost == match inv.detection.context.riskBoost case Some(b) => b case None => 1.0
  }

  /** A true positive scores at least n exactly when weight, confidence and multiplier together reach n. */
  lemma TruePositiveReaches(inv: Investigation, weight: real, boost: real, n: int)
    requires Weighs(inv, weight, boost) && 0 < n <= 100 && inv.verdict.Some? && inv.verdict.value.isTruePositive
    ensures RiskFrom(inv) >= n <==> weight * (0.6 + 0.4 * inv.verdict.value.confidence) * boost >= n as real
  {
    var confidence := inv.verdict.value.confidence;
    assert RiskFrom(inv) == TrueScore(weight, confidence, boost);
    TrueScoreReaches(weight, confidence, boost, n);
  }

  /** A false positive keeps a fifth of its weight, whatever else was found. */
  lemma FalsePositiveReaches(inv: Investigation, weight: real, boost: real, n: int)
    requires Weighs(inv, weight, boost) && 0 < n <= 100 && inv.verdict.Some? && !inv.verdict.value.isTruePositive
    ensures RiskFrom(inv) >= n <==> weight * 0.2 >= n as real
  {
    assert RiskFrom(inv) == Max(0, Truncate(weight * 0.2));
    TruncateReaches(weight * 0.2, n);
  }

  lemma UnjudgedReaches(inv: Investigation, weight: real, boost: real, n: int)
    requires Weighs(inv, weight, boost) && 0 < n <= 100 && inv.verdict.None?
    ensures RiskFrom(inv) >= n <==> weight * boost >= n as real
  {
    assert RiskFrom(inv) == UnjudgedScore(weight, boost);
    UnjudgedScoreReaches(weight, boost, n);
  }

  lemma TruncateMonotone(x: real, y: real)
    requires x <= y
    ensures Truncate(x) <= Truncate(y)
    ensures Truncate(x) >= 0 <==> x > -1.0
  {
  }

  ghost predicate ValidConfidence(inv: Investigation) {
    inv.verdict.Some? ==> 0.0 <= inv.verdict.value.confidence <= 1.0
  }

  lemma ScaleMonotone(a: real, b: real, c: real, d: real)
    requires 0.0 <= a <= b && 0.0 <= c <= d
    ensures 0.0 <= a * c <= b * d
  {
    assert a * c <= b * c <= b * d;
  }

  /** The score lies in 0..100 for every investigation whose stored multiplier is not negative. */
  lemma RiskInRange(inv: Investigation)
    requires ValidConfidence(inv) && BoostOf(inv) >= 0.0
    ensures 0 <= RiskFrom(inv) <= 100
  {
    var base := SeverityWeight(inv.detection.severity);
    if inv.verdict.Some? {
      var factor := 0.6 + 0.4 * inv.verdict.value.confidence;
      ScaleMonotone(0.0, base, 0.0, factor);
      ScaleMonotone(0.0, base * factor, 0.0, BoostOf(inv));
    } else {
      ScaleMonotone(0.0, base, 0.0, BoostOf(inv));
    }
  }

  lemma TrueScoreMonotone(a: real, b: real, p: real, q: real, x: real, y: real)
    requires 0.0 <= a <= b && 0.0 <= p <= q && 0.0 <= x <= y
    ensures TrueScore(a, p, x) <= TrueScore(b, q, y)
  {
    var c, d := 0.6 + 0.4 * p, 0.6 + 0.4 * q;
    ScaleMonotone(a, b, c, d);
    ScaleMonotone(a * c, b * d, x, y);
    TruncateMonotone(a * c * x, b * d * y);
  }

  /** For true positives the score grows with severity, with confidence and with the multiplier. */
  lemma RiskMonotone(x: Investigation, y: Investigation)
    requires x.verdict.Some? && y.verdict.Some?
    requires x.verdict.value.isTruePositive && y.verdict.value.isTruePositive
    requires ValidConfidence(x) && ValidConfidence(y) && BoostOf(x) >= 0.0
    requires SeverityOrder(x.detection.severity) <= SeverityOrder(y.detection.severity)
    requires x.verdict.value.confidence <= y.verdict.value.confidence
    requires BoostOf(x) <= BoostOf(y)
    ensures RiskFrom(x) <= RiskFrom(y)
  {
    TrueScoreMonotone(SeverityWeight(x.detection.severity), SeverityWeight(y.detection.severity),
      x.verdict.value.confidence, y.verdict.value.confidence, BoostOf(x), BoostOf(y));
  }

  lemma FalseScoreBound(base: real)
    requires base >= 0.0
    ensures Truncate(base * 0.2) <= Truncate(base * (0.6 + 0.4 * 0.0) * 0.95)
  {
    TruncateMonotone(base * 0.2, base * (0.6 + 0.4 * 0.0) * 0.95);
  }

  /** At equal severity a false positive never outscores a true positive with a stored multiplier. */
  lemma FalsePositiveNeverOutscores(fp: Investigation, tp: Investigation)
    requires fp.verdict.Some? && !fp.verdict.value.isTruePositive
    requires tp.verdict.Some? && tp.verdict.value.isTruePositive
    requires ValidConfidence(tp) && BoostOf(tp) >= 0.95
    requires fp.detection.severity == tp.detection.severity
    ensures RiskFrom(fp) <= RiskFrom(tp)
  {
    var base := SeverityWeight(tp.detection.severity);
    FalseScoreBound(base);
    TrueScoreMonotone(base, base, 0.0, tp.verdict.value.confidence, 0.95, BoostOf(tp));
    assert 0.0 <= base * 0.2 <= 19.0;
  }
}
