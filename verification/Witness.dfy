/**
 * A concrete deployment: it meets every assumption the theorems about decisions make, it issues a
 * command that the orchestrator never accepts, and it issues two commands about one anomaly that stand
 * in each other's way.
 */
module Witness {
  import opened Wrappers
  import opened Policy
  import opened Store
  import D = Decision
  import T = Telemetry
  import R = DecisionRunner
  import opened Canonical
  import opened HandOff
  import Lifecycle
  import opened LifecycleTheorems
  import opened Service

  /** Lower case of the capital I with a dot is two characters, an i and a combining dot. */
  function Lower(s: string): string {
    if s == "" then ""
    else (if s[0] == '\U{0130}' then ['i', '\U{0307}'] else [s[0]]) + Lower(s[1..])
  }

  function Rules(): Text {
    Text(_ => None, Lower, (_, _) => false)
  }

  function Policies(name: string): Catalog {
    Catalog(ProtectionPolicy({}, [], {}, [], {}, {Lower(Lower(name))}, true),
            10, 60, 60, 60, 60,
            map["COR-002" := ResponsePolicy("COR-002", "1", "digest", IsolateHost, 600, 0.9,
                                            [Requirement(Authentication, None, None)])])
  }

  /** An engine whose digests are canonical texts. */
  function Engine(name: string): D.Engine {
    D.Engine(1, Rules(), s => s, Policies(name),
             m => "dec-" + MaterialText(m), m => "cor-" + MaterialText(m),
             r => "req-" + RequestText(r), r => "idemp-" + RequestText(r),
             "key", _ => "signature")
  }

  function Deployment(name: string): Config {
    Config(Rules(), Policies(name), (_, signature) => signature == "signature")
  }

  lemma MaterialBehindPrefix(prefix: string, m: D.Material, n: D.Material)
    requires prefix + MaterialText(m) == prefix + MaterialText(n)
    ensures m == n
  {
    assert (prefix + MaterialText(m))[|prefix|..] == MaterialText(m);
    assert (prefix + MaterialText(n))[|prefix|..] == MaterialText(n);
    MaterialIsReadable(m, n);
  }

  lemma RequestBehindPrefix(prefix: string, r: D.RequestMaterial, q: D.RequestMaterial)
    requires prefix + RequestText(r) == prefix + RequestText(q)
    ensures r == q
  {
    assert (prefix + RequestText(r))[|prefix|..] == RequestText(r);
    assert (prefix + RequestText(q))[|prefix|..] == RequestText(q);
    RequestIsReadable(r, q);
  }

  /** Digests without collisions exist, and both sides can trust each other. */
  lemma AssumptionsCanBeMet(name: string)
    ensures D.Injective(Engine(name)) && Trusting(Deployment(name), Engine(name))
  {
    var e := Engine(name);
    forall m, n {:trigger e.decisionId(m), e.decisionId(n)} | e.decisionId(m) == e.decisionId(n) ensures m == n {
      MaterialBehindPrefix("dec-", m, n);
    }
    forall r, q {:trigger e.key(r), e.key(q)} | e.key(r) == e.key(q) ensures r == q {
      RequestBehindPrefix("idemp-", r, q);
    }
  }

  // ----- a command that is issued and never valid ----------------------------------------------------------

  /** As many strokes as there are. */
  function Strokes(n: nat): string {
    seq(n, _ => '1')
  }

  function Reference(n: nat): string {
    "auth-failures:" + Strokes(n)
  }

  /** A flagged anomaly about a host, corroborated by a number of failed logins. */
  function Question(name: string, eventId: string, n: nat): D.Ask {
    var target := D.RawTarget(Some(HostTarget), name);
    D.Ask("COR-002", D.RawAnomaly(eventId, "model", 0.95, 0.9, true, Some(0), target),
          [D.RawSignal(D.Known(Authentication), Reference(n), Some(0), target, None, Some(n as real), None)],
          target, 0, None)
  }

  function CommandAbout(name: string, eventId: string, n: nat): Command
    requires 0 < |name| <= 255 && eventId != "" && eventId != Reference(n)
  {
    IsIssued(name, eventId, n);
    D.Answer(Engine(name), Question(name, eventId, n)).value.command
  }

  /** A host name that is admitted but whose lower case has more than 255 characters: the engine commands
      its containment, and the orchestrator never accepts the command, at any instant. */
  lemma IssuedAndNeverValid(name: string, eventId: string, at: int)
    requires 0 < |name| <= 255 < |Lower(name)| && eventId != "" && eventId != Reference(1)
    ensures D.Commands(D.Answer(Engine(name), Question(name, eventId, 1)))
    ensures !ValidCommand(Deployment(name), CommandAbout(name, eventId, 1), at)
  {
    NormalParts(name, eventId, 1);
    IsIssued(name, eventId, 1);
    AssumptionsCanBeMet(name);
    ValidExactly(Deployment(name), Engine(name), Question(name, eventId, 1), at);
  }

  lemma NormalTargetIsLower(name: string)
    requires 0 < |name| <= 255
    ensures D.NormalTarget(Engine(name), D.RawTarget(Some(HostTarget), name)) == Some(Target(HostTarget, Lower(name)))
  {
  }

  lemma NormalSignalOf(e: D.Engine, target: D.RawTarget, t: Target, reference: string, n: nat)
    requires D.NormalTarget(e, target) == Some(t) && e.strip(reference) == reference && reference != ""
    ensures D.NormalSignal(e, D.RawSignal(D.Known(Authentication), reference, Some(0), target, None, Some(n as real), None))
            == Some(Signal(Authentication, reference, 0, t, None, Some(n), None))
  {
  }

  lemma NormalAnomalyOf(e: D.Engine, eventId: string, target: D.RawTarget, t: Target)
    requires D.NormalTarget(e, target) == Some(t) && eventId != ""
    ensures D.NormalAnomaly(e, D.RawAnomaly(eventId, "model", 0.95, 0.9, true, Some(0), target))
            == Some(D.Anomaly(eventId, "model", 0.95, 0.9, true, 0, t))
  {
  }

  /** What normalization makes of the question. */
  lemma NormalParts(name: string, eventId: string, n: nat)
    requires 0 < |name| <= 255 && eventId != ""
    ensures var e, q, target := Engine(name), Question(name, eventId, n), Target(HostTarget, Lower(name));
            && D.NormalTarget(e, q.target) == Some(target)
            && D.NormalAnomaly(e, q.anomaly) == Some(D.Anomaly(eventId, "model", 0.95, 0.9, true, 0, target))
            && D.NormalSignal(e, q.raws[0]) == Some(Signal(Authentication, Reference(n), 0, target, None, Some(n), None))
  {
    var e, q, target := Engine(name), Question(name, eventId, n), Target(HostTarget, Lower(name));
    NormalTargetIsLower(name);
    NormalAnomalyOf(e, eventId, q.target, target);
    NormalSignalOf(e, q.target, target, Reference(n), n);
  }

  lemma TargetIsAllowed(name: string)
    requires name != ""
    ensures var catalog := Policies(name);
            TargetAllowed(Rules(), catalog.protections, catalog.policies["COR-002"].action,
                          Target(HostTarget, Lower(name)))
  {
    LowerTwiceIsNotEmpty(name);
  }

  lemma IsIndependent(name: string, eventId: string, n: nat)
    requires 0 < |name| <= 255 && eventId != ""
    ensures D.Independent(Engine(name), Question(name, eventId, n).raws)
  {
    NormalParts(name, eventId, n);
  }

  lemma PolicyIsSatisfied(name: string, eventId: string, n: nat)
    requires 0 < |name| <= 255 && eventId != ""
    ensures var e, q := Engine(name), Question(name, eventId, n);
            exists need, r :: need in e.catalog.policies["COR-002"].requireAny && r in q.raws
                              && D.NormalSignal(e, r).Some? && Matches(need, D.NormalSignal(e, r).value)
  {
    NormalParts(name, eventId, n);
    var e, q := Engine(name), Question(name, eventId, n);
    assert Requirement(Authentication, None, None) in e.catalog.policies["COR-002"].requireAny && q.raws[0] in q.raws;
  }

  lemma IsIssued(name: string, eventId: string, n: nat)
    requires 0 < |name| <= 255 && eventId != "" && eventId != Reference(n)
    ensures D.Commands(D.Answer(Engine(name), Question(name, eventId, n)))
  {
    NormalParts(name, eventId, n);
    TargetIsAllowed(name);
    IsIndependent(name, eventId, n);
    PolicyIsSatisfied(name, eventId, n);
    D.CommandsExactly(Engine(name), Question(name, eventId, n));
  }

  lemma LowerTwiceIsNotEmpty(s: string)
    requires s != ""
    ensures Lower(s) != "" && Lower(Lower(s)) != ""
  {
  }

  function LongName(length: nat): string {
    if length == 0 then "" else ['\U{0130}'] + LongName(length - 1)
  }

  /** Such names exist: from 128 of these capitals on. */
  lemma {:induction false} LowerDoubles(length: nat)
    ensures |LongName(length)| == length && |Lower(LongName(length))| == 2 * length
  {
    if length > 0 {
      assert LongName(length)[1..] == LongName(length - 1);
      LowerDoubles(length - 1);
    }
  }

  // ----- one anomaly, two commands ---------------------------------------------------------------------------

  function Runner(name: string): R.Setup {
    R.Setup(Engine(name), map[HostTarget := "COR-002"],
            T.Setup({}, "", {}, bag => Strokes(|bag|), _ => Some(0), _ => ""))
  }

  function Anomaly(name: string, eventId: string): R.AnomalyDoc {
    R.AnomalyDoc(eventId, Some(HostTarget), name, Some(0), Some(0), Some(R.Score("model", 0.95, 0.9, true)))
  }

  /** Nothing but failed logins. */
  function Failures(n: nat): T.Answers {
    T.Answers([], [], [], seq(n, _ => T.Alert("", "", T.Absent)), [])
  }

  lemma {:induction false} OneIdEach(alerts: seq<T.Alert>)
    ensures |T.Ids(alerts)| == |alerts|
  {
    if alerts != [] { OneIdEach(alerts[..|alerts| - 1]); }
  }

  lemma SignalsAre(name: string, eventId: string, n: nat)
    requires n > 0
    ensures T.SignalsOf(Runner(name).evidence, T.Subject(HostTarget, name, 0), Failures(n))
            == Some(Question(name, eventId, n).raws)
  {
    var s, of, t := Runner(name).evidence, T.Subject(HostTarget, name, 0), Failures(n);
    OneIdEach(t.failures);
    var failures := T.FailureSignals(s, of, t.failures);
    assert failures == Question(name, eventId, n).raws;
    assert T.WazuhSignals(s, of, t.wazuh) == Some([]);
    assert [] + [] + [] + failures + [] + [] == failures;
  }

  /** What the runner asks when it finds failed logins. */
  lemma AsksTheQuestion(name: string, eventId: string, n: nat)
    requires 0 < |name| && n > 0
    ensures R.Question(Runner(name), Anomaly(name, eventId), Failures(n), 0) == Some(Question(name, eventId, n))
  {
    SignalsAre(name, eventId, n);
  }

  lemma CommandIsOn(name: string, eventId: string, n: nat)
    requires 0 < |name| <= 255 && n > 0 && eventId != "" && eventId != Reference(n)
    ensures R.CommandOn(Runner(name), Anomaly(name, eventId), Failures(n), 0, CommandAbout(name, eventId, n))
  {
    AsksTheQuestion(name, eventId, n);
    IsIssued(name, eventId, n);
  }

  lemma EvidenceOfOne(e: D.Engine, raw: D.RawSignal)
    requires D.NormalSignal(e, raw).Some?
    ensures D.Evidence(e, [raw]) == Some([D.NormalSignal(e, raw).value])
  {
    var x := D.NormalSignal(e, raw).value;
    assert [raw][..0] == [] && [x][..0] == [];
    assert D.NormalSignals(e, [raw]) == Some([] + [x]);
    assert [] + [x] == [x] && [x] + [] == [x];
    assert D.SortSignals([x][..0]) == [];
  }

  lemma EvidenceIs(name: string, eventId: string, n: nat)
    requires 0 < |name| <= 255 && n > 0 && eventId != ""
    ensures R.EvidenceOf(Runner(name), Anomaly(name, eventId), Failures(n))
            == Some([Signal(Authentication, Reference(n), 0, Target(HostTarget, Lower(name)), None, Some(n), None)])
  {
    SignalsAre(name, eventId, n);
    NormalParts(name, eventId, n);
    var raw := Question(name, eventId, n).raws[0];
    EvidenceWhen(Runner(name), Anomaly(name, eventId), Failures(n), [raw]);
    EvidenceOfOne(Engine(name), raw);
  }

  lemma EvidenceWhen(s: R.Setup, doc: R.AnomalyDoc, answers: T.Answers, raws: seq<D.RawSignal>)
    requires R.Supported(s, doc) && doc.windowEnd.Some?
    requires T.SignalsOf(s.evidence, T.Subject(doc.kind.value, doc.entity, doc.windowEnd.value), answers) == Some(raws)
    ensures R.EvidenceOf(s, doc, answers) == D.Evidence(s.engine, raws)
  {
  }

  lemma DifferentStrokes(m: nat, n: nat)
    requires m != n
    ensures Reference(m) != Reference(n)
  {
    assert |Reference(m)| == |"auth-failures:"| + m && |Reference(n)| == |"auth-failures:"| + n;
  }

  /** An anomaly that is handled again after one more failed login is commanded under another key. */
  lemma OneAnomalyTwoKeys(name: string, eventId: string, n: nat)
    requires 0 < |name| <= 255 && n > 0 && eventId != "" && eventId !in {Reference(n), Reference(n + 1)}
    ensures CommandAbout(name, eventId, n).body.key != CommandAbout(name, eventId, n + 1).body.key
  {
    CommandIsOn(name, eventId, n);
    CommandIsOn(name, eventId, n + 1);
    AssumptionsCanBeMet(name);
    EvidenceIs(name, eventId, n);
    EvidenceIs(name, eventId, n + 1);
    DifferentStrokes(n, n + 1);
    R.RetrySharesKeyExactly(Runner(name), Anomaly(name, eventId), Failures(n), Failures(n + 1), 0, 0,
                            CommandAbout(name, eventId, n), CommandAbout(name, eventId, n + 1));
  }

  /** What the orchestrator makes of such a command. */
  lemma CommandIsAccepted(name: string, eventId: string, n: nat)
    requires 0 < |name| <= 255 && |Lower(name)| <= 255 && eventId != "" && eventId != Reference(n)
    ensures var cfg, c := Deployment(name), CommandAbout(name, eventId, n);
            && ValidCommand(cfg, c, 0) && Lifecycle.Allowed(cfg, c) && c.body.ttlSeconds == 600
            && c.body.action == IsolateHost && c.body.target == Target(HostTarget, Lower(name))
  {
    NormalParts(name, eventId, n);
    IsIssued(name, eventId, n);
    AssumptionsCanBeMet(name);
    ValidExactly(Deployment(name), Engine(name), Question(name, eventId, n), 0);
    CommandFields(Engine(name), Question(name, eventId, n));
    TargetIsAllowed(name);
  }

  lemma SameTargetSameIdentity(cfg: Config, c: Command, d: Command)
    requires c.body.action == d.body.action && c.body.target == d.body.target
    ensures IdentityOf(cfg, c) == IdentityOf(cfg, d)
  {
  }

  /** And the two commands about one anomaly congest the queue of the orchestrator. */
  lemma OneAnomalyCongests(name: string, eventId: string, n: nat, peers: seq<set<Addr>>) returns (s: Lifecycle.Sys)
    requires 0 < |name| <= 255 && |Lower(name)| <= 255 && n > 0 && |peers| >= 2
    requires eventId != "" && eventId !in {Reference(n), Reference(n + 1)}
    ensures Reachable(Deployment(name), s) && s.ram.Live? && s.flight.Idle?
    ensures forall rid :: rid in s.ram.records ==>
              s.ram.records[rid].command in {CommandAbout(name, eventId, n), CommandAbout(name, eventId, n + 1)}
    ensures Congested(Deployment(name), s.ram.records, 0)
  {
    hide Congested, Lifecycle.Run;
    CommandIsAccepted(name, eventId, n);
    CommandIsAccepted(name, eventId, n + 1);
    OneAnomalyTwoKeys(name, eventId, n);
    var c, d := CommandAbout(name, eventId, n), CommandAbout(name, eventId, n + 1);
    SameTargetSameIdentity(Deployment(name), c, d);
    s := TwoForOneTargetCongest(Deployment(name), peers, c, d, 0);
  }
}
