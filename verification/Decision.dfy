/**
 * The correlation-gated decision engine (response/decision.py): what evidence becomes a signed
 * command, and under which identity.
 *
 * Content digests, signatures and text normalization are parameters. Field sets, types and finite
 * numbers are assumed; every value check is modelled.
 */
module Decision {
  import opened Wrappers
  import opened Policy
  import opened Sorting
  import opened Texts

  // ----- evidence as it arrives --------------------------------------------------------------------------

  datatype RawKind = Ai | Unsupported | Known(kind: SignalKind)

  datatype RawTarget = RawTarget(kind: Option<TargetKind>, value: string)

  datatype RawSignal = RawSignal(
    kind: RawKind, reference: string, observedAt: Option<int>, target: RawTarget,
    severity: Option<real>, count: Option<real>, confidence: Option<int>)

  datatype RawAnomaly = RawAnomaly(
    eventId: string, modelId: string, score: real, threshold: real, isAnomaly: bool,
    observedAt: Option<int>, target: RawTarget)

  datatype Anomaly = Anomaly(
    eventId: string, modelId: string, score: real, threshold: real, isAnomaly: bool,
    observedAt: int, target: Target)

  // ----- identities --------------------------------------------------------------------------------------

  datatype Material = Material(
    policyId: string, policySha256: string, eventId: string, target: Target, signals: seq<Signal>)

  datatype RequestMaterial = RequestMaterial(decisionId: string, material: Material)

  /** An engine; `one` is how many smallest steps make a confidence of 1. */
  datatype Engine = Engine(
    one: nat, text: Text, strip: string -> string, catalog: Catalog,
    decisionId: Material -> string, correlationId: Material -> string,
    requestId: RequestMaterial -> string, key: RequestMaterial -> string,
    signingKey: string, sign: Unsigned -> string)

  // ----- normalization -----------------------------------------------------------------------------------

  function NormalTarget(e: Engine, raw: RawTarget): Option<Target> {
    var value := e.strip(raw.value);
    if raw.kind.None? || value == "" || |value| > 255 then None
    else if raw.kind.value.IpTarget? then
      if e.text.ip(value).Some? then Some(Target(IpTarget, e.text.ip(value).value.canonical)) else None
    else Some(Target(HostTarget, e.text.host(value)))
  }

  predicate Integral(n: Option<real>) {
    n.Some? ==> n.value >= 0.0 && n.value.Floor as real == n.value
  }

  function AsNat(n: Option<real>): Option<nat>
    requires Integral(n)
  {
    if n.Some? then Some(n.value.Floor) else None
  }

  function NormalSignal(e: Engine, raw: RawSignal): Option<Signal> {
    var target := NormalTarget(e, raw.target);
    if !raw.kind.Known? || e.strip(raw.reference) == "" || raw.observedAt.None? || target.None?
       || !Integral(raw.severity) || !Integral(raw.count)
       || (raw.confidence.Some? && !(0 <= raw.confidence.value <= e.one)) then None
    else Some(Signal(raw.kind.kind, e.strip(raw.reference), FloorMs(raw.observedAt.value), target.value,
                     AsNat(raw.severity), AsNat(raw.count), raw.confidence))
  }

  /** All signals normalized, in the order given; none when one is malformed or two share a reference. */
  function NormalSignals(e: Engine, raws: seq<RawSignal>): Option<seq<Signal>> {
    if raws == [] then Some([])
    else
      var before := NormalSignals(e, raws[..|raws| - 1]);
      var last := NormalSignal(e, raws[|raws| - 1]);
      if before.None? || last.None? || (exists s :: s in before.value && s.reference == last.value.reference) then None
      else Some(before.value + [last.value])
  }

  function NormalAnomaly(e: Engine, raw: RawAnomaly): Option<Anomaly> {
    var target := NormalTarget(e, raw.target);
    if raw.eventId == "" || raw.modelId == "" || !(0.0 <= raw.score <= 1.0) || !(0.0 <= raw.threshold <= 1.0)
       || raw.isAnomaly != (raw.score >= raw.threshold) || raw.observedAt.None? || target.None? then None
    else Some(Anomaly(raw.eventId, raw.modelId, raw.score, raw.threshold, raw.isAnomaly,
                      FloorMs(raw.observedAt.value), target.value))
  }

  // ----- the order of signals ----------------------------------------------------------------------------

  /** The alphabetical order of the type names. */
  function KindRank(k: SignalKind): nat {
    match k
    case Authentication => 0
    case Honeypot => 1
    case ProtectedAsset => 2
    case Suricata => 3
    case ThreatIntel => 4
    case Wazuh => 5
  }

  predicate Before(a: Signal, b: Signal) {
    KindRank(a.kind) < KindRank(b.kind) || (a.kind == b.kind && TextLess(a.reference, b.reference))
  }

  function SortSignals(s: seq<Signal>): seq<Signal> {
    if s == [] then [] else Insert(Before, s[|s| - 1], SortSignals(s[..|s| - 1]))
  }

  predicate DistinctReferences(s: seq<Signal>) {
    forall i, j :: 0 <= i < j < |s| ==> s[i].reference != s[j].reference
  }

  lemma BeforeIsStrict()
    ensures Strict(Before)
  {
    forall a, b {:trigger Before(a, b)} | Before(a, b) ensures !Before(b, a) {
      TextOrder(a.reference, b.reference);
    }
    forall a, b, c {:trigger Before(a, b), Before(b, c)} | Before(a, b) && Before(b, c) ensures Before(a, c) {
      if a.kind == b.kind == c.kind { TextLessTransitive(a.reference, b.reference, c.reference); }
    }
  }

  lemma {:induction false} SortKeeps(s: seq<Signal>)
    requires DistinctReferences(s)
    ensures Ascending(Before, SortSignals(s)) && multiset(SortSignals(s)) == multiset(s)
  {
    if s != [] {
      var init, last := s[..|s| - 1], s[|s| - 1];
      assert s == init + [last];
      SortKeeps(init);
      forall t | t in SortSignals(init) ensures Before(last, t) || Before(t, last) {
        assert t in multiset(SortSignals(init));
        assert t in init;
        TextOrder(t.reference, last.reference);
      }
      BeforeIsStrict();
      InsertAdds(Before, last, SortSignals(init));
      InsertKeeps(Before, last, SortSignals(init));
    }
  }

  /** Sorting forgets the order of arrival. */
  lemma SortForgetsOrder(a: seq<Signal>, b: seq<Signal>)
    requires DistinctReferences(a) && DistinctReferences(b) && multiset(a) == multiset(b)
    ensures SortSignals(a) == SortSignals(b)
  {
    SortKeeps(a);
    SortKeeps(b);
    BeforeIsStrict();
    var x, y := SortSignals(a), SortSignals(b);
    forall t ensures t in x <==> t in y { assert t in multiset(x) <==> t in multiset(y); }
    AscendingIsUnique(Before, x, y);
  }

  // ----- validation forgets the order of arrival -----------------------------------------------------------

  function Reference(e: Engine, raw: RawSignal): string {
    e.strip(raw.reference)
  }

  predicate Independent(e: Engine, raws: seq<RawSignal>) {
    && (forall r :: r in raws ==> NormalSignal(e, r).Some?)
    && (forall i, j :: 0 <= i < j < |raws| ==> Reference(e, raws[i]) != Reference(e, raws[j]))
  }

  /** The result of a validation that succeeds has the normalized signals, one for one. */
  lemma {:induction false} NormalSignalsAre(e: Engine, raws: seq<RawSignal>)
    requires NormalSignals(e, raws).Some?
    ensures var signals := NormalSignals(e, raws).value;
            && |signals| == |raws| && DistinctReferences(signals)
            && forall i :: 0 <= i < |raws| ==> NormalSignal(e, raws[i]) == Some(signals[i])
  {
    if raws != [] { NormalSignalsAre(e, raws[..|raws| - 1]); }
  }

  /** Validation succeeds exactly when every signal is well formed and no two share a reference. */
  lemma {:induction false} NormalSignalsExactly(e: Engine, raws: seq<RawSignal>)
    ensures NormalSignals(e, raws).Some? <==> Independent(e, raws)
  {
    if NormalSignals(e, raws).Some? {
      NormalSignalsAre(e, raws);
    } else {
      var n := |raws| - 1;
      var init, last := raws[..n], raws[n];
      NormalSignalsExactly(e, init);
      assert raws == init + [last];
      if Independent(e, raws) {
        IndependentPrefix(e, init, last);
        NormalSignalsAre(e, init);
      }
    }
  }

  lemma IndependentPrefix(e: Engine, init: seq<RawSignal>, last: RawSignal)
    requires Independent(e, init + [last])
    ensures Independent(e, init)
    ensures forall i :: 0 <= i < |init| ==> Reference(e, init[i]) != Reference(e, last)
  {
    var raws := init + [last];
    assert forall r :: r in init ==> r in raws;
    assert forall i :: 0 <= i < |init| ==> raws[i] == init[i];
    assert raws[|init|] == last;
  }

  lemma {:induction false} TwiceIsTwo<T>(s: seq<T>, i: nat, j: nat)
    requires i < j < |s| && s[i] == s[j]
    ensures multiset(s)[s[i]] >= 2
  {
    assert s == s[..j] + s[j..];
    assert s[i] in s[..j] && s[i] in s[j..] by { assert s[..j][i] == s[i] && s[j..][0] == s[i]; }
    assert multiset(s) == multiset(s[..j]) + multiset(s[j..]);
  }

  lemma {:induction false} OnceIsOne(s: seq<Signal>, x: Signal)
    requires DistinctReferences(s)
    ensures multiset(s)[x] == if x in s then 1 else 0
  {
    if s != [] {
      var init, last := s[..|s| - 1], s[|s| - 1];
      assert s == init + [last];
      OnceIsOne(init, x);
      if x == last { assert x !in init; }
    }
  }

  lemma {:induction false} OnceEach(e: Engine, raws: seq<RawSignal>, x: RawSignal)
    requires Independent(e, raws)
    ensures multiset(raws)[x] <= 1
  {
    if raws != [] {
      var init, last := raws[..|raws| - 1], raws[|raws| - 1];
      assert raws == init + [last];
      assert forall r :: r in init ==> r in raws;
      OnceEach(e, init, x);
      assert x == last ==> x !in init;
    }
  }

  lemma IndependenceForgetsOrder(e: Engine, a: seq<RawSignal>, b: seq<RawSignal>)
    requires multiset(a) == multiset(b) && Independent(e, a)
    ensures Independent(e, b)
  {
    forall r | r in b ensures NormalSignal(e, r).Some? { assert r in multiset(b); }
    forall i, j | 0 <= i < j < |b| ensures Reference(e, b[i]) != Reference(e, b[j]) {
      if b[i] == b[j] {
        TwiceIsTwo(b, i, j);
        OnceEach(e, a, b[i]);
      } else {
        assert b[i] in multiset(a) && b[j] in multiset(a);
        var p :| 0 <= p < |a| && a[p] == b[i];
        var q :| 0 <= q < |a| && a[q] == b[j];
      }
    }
  }

  /** The signals an evaluation works on. */
  function Evidence(e: Engine, raws: seq<RawSignal>): Option<seq<Signal>> {
    var signals := NormalSignals(e, raws);
    if signals.None? then None else Some(SortSignals(signals.value))
  }

  lemma EvidenceForgetsOrder(e: Engine, a: seq<RawSignal>, b: seq<RawSignal>)
    requires multiset(a) == multiset(b)
    ensures Evidence(e, a) == Evidence(e, b)
  {
    NormalSignalsExactly(e, a);
    NormalSignalsExactly(e, b);
    if Independent(e, a) || Independent(e, b) {
      if Independent(e, a) { IndependenceForgetsOrder(e, a, b); } else { IndependenceForgetsOrder(e, b, a); }
      var s, t := NormalSignals(e, a).value, NormalSignals(e, b).value;
      NormalSignalsAre(e, a);
      NormalSignalsAre(e, b);
      forall x ensures x in s <==> x in t {
        SignalsCarryOver(e, a, b, x);
        SignalsCarryOver(e, b, a, x);
      }
      forall x ensures multiset(s)[x] == multiset(t)[x] {
        OnceIsOne(s, x);
        OnceIsOne(t, x);
      }
      SortForgetsOrder(s, t);
    }
  }

  lemma SignalsCarryOver(e: Engine, a: seq<RawSignal>, b: seq<RawSignal>, x: Signal)
    requires multiset(a) == multiset(b) && Independent(e, a) && Independent(e, b)
    requires NormalSignals(e, a).Some? && NormalSignals(e, b).Some?
    ensures x in NormalSignals(e, a).value ==> x in NormalSignals(e, b).value
  {
    NormalSignalsAre(e, a);
    NormalSignalsAre(e, b);
    var s := NormalSignals(e, a).value;
    if x in s {
      var i :| 0 <= i < |s| && s[i] == x;
      assert a[i] in multiset(b);
      var j :| 0 <= j < |b| && b[j] == a[i];
    }
  }

  /** The validation loop: references seen so far, signals normalized so far. */
  method ValidateSignals(e: Engine, raws: seq<RawSignal>) returns (r: Option<seq<Signal>>)
    ensures r == Evidence(e, raws)
  {
    var normalized: seq<Signal>, seen: set<string> := [], {};
    var i := 0;
    while i < |raws|
      invariant 0 <= i <= |raws|
      invariant NormalSignals(e, raws[..i]) == Some(normalized)
      invariant forall ref :: ref in seen <==> exists s :: s in normalized && s.reference == ref
    {
      assert raws[..i + 1][..i] == raws[..i];
      var signal := NormalSignal(e, raws[i]);
      if signal.None? || signal.value.reference in seen {
        RejectedStaysRejected(e, raws, i + 1);
        return None;
      }
      seen := seen + {signal.value.reference};
      normalized := normalized + [signal.value];
      i := i + 1;
    }
    assert raws[..i] == raws;
    r := Some(SortSignals(normalized));
  }

  lemma {:induction false} RejectedStaysRejected(e: Engine, raws: seq<RawSignal>, n: nat)
    requires n <= |raws| && NormalSignals(e, raws[..n]).None?
    ensures NormalSignals(e, raws).None?
    decreases |raws|
  {
    if n < |raws| {
      assert raws[..|raws| - 1][..n] == raws[..n];
      RejectedStaysRejected(e, raws[..|raws| - 1], n);
    } else {
      assert raws[..n] == raws;
    }
  }

  // ----- the verdict -------------------------------------------------------------------------------------

  datatype Rejection = TooOld | FromFuture | NotAnomalous | LowScore | NoCorroboration | Protected

  datatype Conclusion = StoreOnly | AlertOnly | Denied | ResponseRequested

  datatype DecisionEvent = DecisionEvent(
    id: string, correlation: string, at: int, conclusion: Conclusion, requestId: Option<string>)

  datatype Verdict =
    | AnomalyOnly
    | Rejected(reason: Rejection, event: DecisionEvent)
    | Eligible(event: DecisionEvent, command: Command)

  /** The first piece of evidence outside the freshness window decides. */
  function Staleness(times: seq<int>, oldest: int, latest: int): Option<Rejection> {
    if times == [] then None
    else if times[0] < oldest then Some(TooOld)
    else if times[0] > latest then Some(FromFuture)
    else Staleness(times[1..], oldest, latest)
  }

  predicate Corroborated(policy: ResponsePolicy, signals: seq<Signal>) {
    exists r, s :: r in policy.requireAny && s in signals && Matches(r, s)
  }

  function Times(signals: seq<Signal>): seq<int> {
    seq(|signals|, i requires 0 <= i < |signals| => signals[i].observedAt)
  }

  function RejectionReason(e: Engine, policy: ResponsePolicy, a: Anomaly, signals: seq<Signal>, now: int)
    : Option<Rejection>
  {
    var stale := Staleness([a.observedAt] + Times(signals),
                           now - e.catalog.evidenceMaxAgeSeconds * SECOND, now + CLOCK_SKEW);
    if stale.Some? then stale
    else if !a.isAnomaly then Some(NotAnomalous)
    else if a.score < policy.minScore then Some(LowScore)
    else if !Corroborated(policy, signals) then Some(NoCorroboration)
    else if !TargetAllowed(e.text, e.catalog.protections, policy.action, a.target) then Some(Protected)
    else None
  }

  function UnsignedCommand(e: Engine, policy: ResponsePolicy, m: Material, correlation: string, now: int): Unsigned {
    var request := RequestMaterial(e.decisionId(m), m);
    Unsigned(e.requestId(request), e.decisionId(m), correlation, policy.id, policy.version, policy.sha256,
             m.target, policy.action, policy.ttlSeconds, true, true, e.key(request),
             Authorization("decision_engine", e.signingKey, FloorMs(now),
                           FloorMs(now + e.catalog.validForSeconds * SECOND)))
  }

  /** The tracing label: the caller's, or a digest of the evidence. */
  function Correlation(e: Engine, m: Material, tag: Option<string>): Option<string> {
    if tag.None? then Some(e.correlationId(m))
    else if e.strip(tag.value) == "" || |e.strip(tag.value)| > 256 then None
    else Some(e.strip(tag.value))
  }

  /** Every check that raises: the inputs are well formed and about one target, and no signal is the
      anomaly again under another name. */
  predicate Consistent(a: Anomaly, signals: seq<Signal>, target: Target) {
    a.target == target && forall s :: s in signals ==> s.target == target && s.reference != a.eventId
  }

  function Decide(e: Engine, policy: ResponsePolicy, a: Anomaly, signals: seq<Signal>, m: Material,
                  correlation: string, now: int): Verdict
  {
    var reason := RejectionReason(e, policy, a, signals, now);
    var event := DecisionEvent(e.decisionId(m), correlation, FloorMs(now), ResponseRequested, None);
    if reason.Some? then
      var conclusion := if reason.value.Protected? then Denied else if a.isAnomaly then AlertOnly else StoreOnly;
      Rejected(reason.value, event.(conclusion := conclusion))
    else
      var body := UnsignedCommand(e, policy, m, correlation, now);
      Eligible(event.(requestId := Some(body.requestId)), Command(body, e.sign(body)))
  }

  function Evaluate(e: Engine, policyId: string, anomaly: RawAnomaly, raws: seq<RawSignal>, target: RawTarget,
                    now: int, tag: Option<string>): Result<Verdict>
  {
    var a, t, signals := NormalAnomaly(e, anomaly), NormalTarget(e, target), Evidence(e, raws);
    if policyId !in e.catalog.policies || a.None? || t.None? || signals.None?
       || !Consistent(a.value, signals.value, t.value) then Raised
    else if signals.value == [] then Ok(AnomalyOnly)
    else
      var policy := e.catalog.policies[policyId];
      var m := Material(policy.id, policy.sha256, a.value.eventId, t.value, signals.value);
      var correlation := Correlation(e, m, tag);
      if correlation.None? then Raised
      else Ok(Decide(e, policy, a.value, signals.value, m, correlation.value, now))
  }

  // ----- what an evaluation guarantees -------------------------------------------------------------------

  /** The verdict does not depend on the order in which signals arrive: not its identities, not its
      reason, not whether it raises. */
  lemma VerdictForgetsOrder(e: Engine, policyId: string, anomaly: RawAnomaly, a: seq<RawSignal>, b: seq<RawSignal>,
                            target: RawTarget, now: int, tag: Option<string>)
    requires multiset(a) == multiset(b)
    ensures Evaluate(e, policyId, anomaly, a, target, now, tag)
            == Evaluate(e, policyId, anomaly, b, target, now, tag)
  {
    EvidenceForgetsOrder(e, a, b);
  }

  /** Digests of different material differ. */
  ghost predicate Injective(e: Engine) {
    && (forall m, n {:trigger e.decisionId(m), e.decisionId(n)} :: e.decisionId(m) == e.decisionId(n) ==> m == n)
    && (forall m, n {:trigger e.key(m), e.key(n)} :: e.key(m) == e.key(n) ==> m == n)
  }

  /** What an evaluation is about, apart from when it runs and how it is labelled. */
  function MaterialOf(e: Engine, policyId: string, anomaly: RawAnomaly, raws: seq<RawSignal>, target: RawTarget)
    : Option<Material>
  {
    var t, signals := NormalTarget(e, target), Evidence(e, raws);
    if policyId !in e.catalog.policies || t.None? || signals.None? then None
    else
      var policy := e.catalog.policies[policyId];
      Some(Material(policy.id, policy.sha256, anomaly.eventId, t.value, signals.value))
  }

  datatype Ask = Ask(policyId: string, anomaly: RawAnomaly, raws: seq<RawSignal>, target: RawTarget,
                     now: int, tag: Option<string>)

  function Answer(e: Engine, q: Ask): Result<Verdict> {
    Evaluate(e, q.policyId, q.anomaly, q.raws, q.target, q.now, q.tag)
  }

  function About(e: Engine, q: Ask): Option<Material> {
    MaterialOf(e, q.policyId, q.anomaly, q.raws, q.target)
  }

  /** Two questions about one anomaly, policy and target rest on the same material exactly when they rest on
      the same evidence. */
  lemma AboutIsEvidence(e: Engine, p: Ask, q: Ask)
    requires p.policyId == q.policyId && p.anomaly.eventId == q.anomaly.eventId && p.target == q.target
    requires About(e, p).Some? && About(e, q).Some?
    ensures About(e, p) == About(e, q) <==> Evidence(e, p.raws) == Evidence(e, q.raws)
  {
  }

  predicate Commands(r: Result<Verdict>) {
    r.Ok? && r.value.Eligible?
  }

  /** The material of a command's request, the input of its digests. */
  lemma CommandRestsOn(e: Engine, q: Ask)
    requires Commands(Answer(e, q))
    ensures About(e, q).Some?
    ensures var c, m := Answer(e, q).value.command.body, About(e, q).value;
            && c.decisionId == e.decisionId(m)
            && c.requestId == e.requestId(RequestMaterial(e.decisionId(m), m))
            && c.key == e.key(RequestMaterial(e.decisionId(m), m))
  {
  }

  /** Whatever the digests: the same evidence gives the same decision, request and idempotency key, no
      matter when it was judged, how it was labelled and in what order the signals came. */
  lemma SameEvidenceSameIdentity(e: Engine, p: Ask, q: Ask)
    requires Commands(Answer(e, p)) && Commands(Answer(e, q))
    requires p.policyId == q.policyId && p.anomaly.eventId == q.anomaly.eventId
    requires NormalTarget(e, p.target) == NormalTarget(e, q.target) && multiset(p.raws) == multiset(q.raws)
    ensures var c, d := Answer(e, p).value.command.body, Answer(e, q).value.command.body;
            c.key == d.key && c.requestId == d.requestId && c.decisionId == d.decisionId
  {
    EvidenceForgetsOrder(e, p.raws, q.raws);
    CommandRestsOn(e, p);
    CommandRestsOn(e, q);
  }

  /** When digests do not collide, two commands have the same idempotency key exactly when they rest on
      the same evidence: policy, anomaly, target and signals. */
  lemma SameKeyIffSameEvidence(e: Engine, p: Ask, q: Ask)
    requires Injective(e) && Commands(Answer(e, p)) && Commands(Answer(e, q))
    ensures Answer(e, p).value.command.body.key == Answer(e, q).value.command.body.key
            <==> About(e, p) == About(e, q)
  {
    CommandRestsOn(e, p);
    CommandRestsOn(e, q);
    KeysDecide(e, About(e, p).value, About(e, q).value);
  }

  lemma KeysDecide(e: Engine, m: Material, n: Material)
    requires Injective(e)
    ensures e.key(RequestMaterial(e.decisionId(m), m)) == e.key(RequestMaterial(e.decisionId(n), n)) <==> m == n
  {
  }

  lemma {:induction false} FreshExactly(times: seq<int>, oldest: int, latest: int)
    ensures Staleness(times, oldest, latest).None? <==> forall t :: t in times ==> oldest <= t <= latest
  {
    if times != [] {
      FreshExactly(times[1..], oldest, latest);
      assert times[0] in times;
      assert forall t :: t in times <==> t == times[0] || t in times[1..];
    }
  }

  predicate Fresh(e: Engine, at: int, now: int) {
    now - e.catalog.evidenceMaxAgeSeconds * SECOND <= at <= now + CLOCK_SKEW
  }

  /** Exactly when evidence passes every policy check. */
  lemma PassesExactly(e: Engine, policy: ResponsePolicy, a: Anomaly, signals: seq<Signal>, now: int)
    ensures RejectionReason(e, policy, a, signals, now).None? <==>
              && Fresh(e, a.observedAt, now) && (forall s :: s in signals ==> Fresh(e, s.observedAt, now))
              && a.isAnomaly && a.score >= policy.minScore && Corroborated(policy, signals)
              && TargetAllowed(e.text, e.catalog.protections, policy.action, a.target)
  {
    FreshExactly([a.observedAt] + Times(signals), now - e.catalog.evidenceMaxAgeSeconds * SECOND, now + CLOCK_SKEW);
    AllFresh(e, a, signals, now);
  }

  lemma AnswerExactly(e: Engine, q: Ask)
    ensures Commands(Answer(e, q)) <==>
              var a, t, signals := NormalAnomaly(e, q.anomaly), NormalTarget(e, q.target), Evidence(e, q.raws);
              && q.policyId in e.catalog.policies && a.Some? && t.Some? && signals.Some? && signals.value != []
              && Consistent(a.value, signals.value, t.value)
              && RejectionReason(e, e.catalog.policies[q.policyId], a.value, signals.value, q.now).None?
              && (q.tag.Some? ==> 0 < |e.strip(q.tag.value)| <= 256)
  {
  }

  /** Exactly when an evaluation commands a containment: all evidence is well formed, fresh and about
      one target; the signals are at least one, with references different from each other and from the
      anomaly's; one of them satisfies the policy; the anomaly is flagged and scores enough; the target
      is not protected. */
  lemma CommandsExactly(e: Engine, q: Ask)
    ensures Commands(Answer(e, q)) <==>
              var a, t := NormalAnomaly(e, q.anomaly), NormalTarget(e, q.target);
              && q.policyId in e.catalog.policies && a.Some? && t.Some? && Independent(e, q.raws)
              && q.raws != []
              && a.value.target == t.value && a.value.isAnomaly && Fresh(e, a.value.observedAt, q.now)
              && (forall r :: r in q.raws ==>
                    && NormalSignal(e, r).value.target == t.value
                    && Reference(e, r) != a.value.eventId
                    && Fresh(e, NormalSignal(e, r).value.observedAt, q.now))
              && var policy := e.catalog.policies[q.policyId];
                 && a.value.score >= policy.minScore
                 && (exists need, r :: need in policy.requireAny && r in q.raws
                                       && Matches(need, NormalSignal(e, r).value))
                 && TargetAllowed(e.text, e.catalog.protections, policy.action, t.value)
                 && (q.tag.Some? ==> 0 < |e.strip(q.tag.value)| <= 256)
  {
    NormalSignalsExactly(e, q.raws);
    AnswerExactly(e, q);
    if Independent(e, q.raws) && NormalAnomaly(e, q.anomaly).Some? && NormalTarget(e, q.target).Some?
       && q.policyId in e.catalog.policies {
      EvidenceHas(e, q.raws);
      ConsistentExactly(e, q.raws, NormalAnomaly(e, q.anomaly).value, NormalTarget(e, q.target).value);
      SignalsPassExactly(e, e.catalog.policies[q.policyId], q.raws, NormalAnomaly(e, q.anomaly).value, q.now);
    }
  }

  /** Consistency, told from the signals as they arrive. */
  lemma ConsistentExactly(e: Engine, raws: seq<RawSignal>, a: Anomaly, target: Target)
    requires Independent(e, raws) && Evidence(e, raws).Some?
    requires forall r :: r in raws ==> NormalSignal(e, r).value in Evidence(e, raws).value
    requires forall s :: s in Evidence(e, raws).value ==> exists r :: r in raws && NormalSignal(e, r) == Some(s)
    ensures Consistent(a, Evidence(e, raws).value, target) <==>
              && a.target == target
              && forall r :: r in raws ==> NormalSignal(e, r).value.target == target && Reference(e, r) != a.eventId
  {
  }

  /** The policy checks, told from the signals as they arrive. */
  lemma SignalsPassExactly(e: Engine, policy: ResponsePolicy, raws: seq<RawSignal>, a: Anomaly, now: int)
    requires Independent(e, raws) && Evidence(e, raws).Some?
    requires forall r :: r in raws ==> NormalSignal(e, r).value in Evidence(e, raws).value
    requires forall s :: s in Evidence(e, raws).value ==> exists r :: r in raws && NormalSignal(e, r) == Some(s)
    ensures RejectionReason(e, policy, a, Evidence(e, raws).value, now).None? <==>
              && Fresh(e, a.observedAt, now)
              && (forall r :: r in raws ==> Fresh(e, NormalSignal(e, r).value.observedAt, now))
              && a.isAnomaly && a.score >= policy.minScore
              && (exists need, r :: need in policy.requireAny && r in raws && Matches(need, NormalSignal(e, r).value))
              && TargetAllowed(e.text, e.catalog.protections, policy.action, a.target)
  {
    PassesExactly(e, policy, a, Evidence(e, raws).value, now);
  }

  /** Sorting loses no signal and invents none. */
  lemma EvidenceHas(e: Engine, raws: seq<RawSignal>)
    requires Independent(e, raws)
    ensures Evidence(e, raws).Some? && (Evidence(e, raws).value == [] <==> raws == [])
    ensures forall r :: r in raws ==> NormalSignal(e, r).Some? && NormalSignal(e, r).value in Evidence(e, raws).value
    ensures forall s :: s in Evidence(e, raws).value ==> exists r :: r in raws && NormalSignal(e, r) == Some(s)
  {
    NormalSignalsExactly(e, raws);
    NormalSignalsAre(e, raws);
    var signals := NormalSignals(e, raws).value;
    SortKeeps(signals);
    var sorted := SortSignals(signals);
    assert |sorted| == |multiset(sorted)| == |signals|;
    forall s ensures s in sorted <==> s in signals { assert s in multiset(sorted) <==> s in multiset(signals); }
    forall r | r in raws ensures NormalSignal(e, r).Some? && NormalSignal(e, r).value in sorted {
      var i :| 0 <= i < |raws| && raws[i] == r;
      assert signals[i] in signals;
    }
    forall s | s in sorted ensures exists r :: r in raws && NormalSignal(e, r) == Some(s) {
      var i :| 0 <= i < |signals| && signals[i] == s;
      assert raws[i] in raws;
    }
  }

  lemma AllFresh(e: Engine, a: Anomaly, signals: seq<Signal>, now: int)
    ensures (forall t :: t in [a.observedAt] + Times(signals) ==> Fresh(e, t, now))
            <==> Fresh(e, a.observedAt, now) && forall s :: s in signals ==> Fresh(e, s.observedAt, now)
  {
    var times := [a.observedAt] + Times(signals);
    if forall t :: t in times ==> Fresh(e, t, now) {
      assert times[0] in times;
      forall s | s in signals ensures Fresh(e, s.observedAt, now) {
        var i :| 0 <= i < |signals| && signals[i] == s;
        assert times[i + 1] in times;
      }
    }
  }
}
