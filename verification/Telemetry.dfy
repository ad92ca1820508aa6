/**
 * The corroborating signals around an anomaly (DecisionRunner._signals in
 * response/service/decision_runner.py): what the answers of the evidence queries become.
 *
 * Timestamps and digests are texts; what instant a timestamp names and what a digest is are
 * parameters. A digest forgets the order of its parts.
 */
module Telemetry {
  import opened Wrappers
  import opened Policy
  import opened Sorting
  import opened Texts
  import D = Decision

  /** A severity field: not there, there but empty, a whole number, or anything else. */
  datatype Figure = Absent | Blank | Whole(n: int) | Unreadable

  datatype Alert = Alert(id: string, at: string, severity: Figure)

  /** The answers of the queries about one entity and window; a flow is the asset it went to. */
  datatype Answers = Answers(
    suricata: seq<Alert>, wazuh: seq<Alert>, honeypot: seq<Alert>, failures: seq<Alert>, flows: seq<string>)

  datatype Setup = Setup(
    intel: set<string>, intelHash: string, assets: set<string>,
    digest: multiset<string> -> string, instant: string -> Option<int>, text: int -> string)

  /** What the queries are about. */
  datatype Subject = Subject(kind: TargetKind, entity: string, windowEnd: int) {
    function Target(): D.RawTarget { D.RawTarget(Some(kind), entity) }
  }

  const MAX_SIGNALS_PER_TYPE := 3

  function OrZero(f: Figure): int {
    if f.Whole? then f.n else 0
  }

  // ----- the first few by rank ---------------------------------------------------------------------------

  function Closer(rank: Alert -> int): (Alert, Alert) -> bool {
    (a, b) => rank(a) < rank(b)
  }

  /** Alerts by rank; equal ranks stay in order of arrival. */
  function Ranked(alerts: seq<Alert>, rank: Alert -> int): seq<Alert> {
    if alerts == [] then []
    else Insert(Closer(rank), alerts[|alerts| - 1], Ranked(alerts[..|alerts| - 1], rank))
  }

  function Top(alerts: seq<Alert>, rank: Alert -> int): seq<Alert> {
    var ranked := Ranked(alerts, rank);
    ranked[..Min(MAX_SIGNALS_PER_TYPE, |ranked|)]
  }

  predicate InRankOrder(alerts: seq<Alert>, rank: Alert -> int) {
    forall i, j :: 0 <= i < j < |alerts| ==> rank(alerts[i]) <= rank(alerts[j])
  }

  lemma {:induction false} InsertByRank(a: Alert, sorted: seq<Alert>, rank: Alert -> int)
    requires InRankOrder(sorted, rank)
    ensures InRankOrder(Insert(Closer(rank), a, sorted), rank)
  {
    if sorted != [] && rank(a) >= rank(sorted[0]) {
      assert sorted == [sorted[0]] + sorted[1..];
      InsertByRank(a, sorted[1..], rank);
      InsertAdds(Closer(rank), a, sorted[1..]);
      var rest := Insert(Closer(rank), a, sorted[1..]);
      forall j | 0 <= j < |rest| ensures rank(sorted[0]) <= rank(rest[j]) {
        assert rest[j] in rest;
      }
    }
  }

  lemma {:induction false} RankedKeeps(alerts: seq<Alert>, rank: Alert -> int)
    ensures InRankOrder(Ranked(alerts, rank), rank) && multiset(Ranked(alerts, rank)) == multiset(alerts)
  {
    if alerts != [] {
      var init, last := alerts[..|alerts| - 1], alerts[|alerts| - 1];
      assert alerts == init + [last];
      RankedKeeps(init, rank);
      InsertByRank(last, Ranked(init, rank), rank);
      InsertAdds(Closer(rank), last, Ranked(init, rank));
    }
  }

  /** What is cut off ranks behind everything that is kept, and nothing is cut off before the limit. */
  lemma TopIsBest(alerts: seq<Alert>, rank: Alert -> int)
    ensures |Top(alerts, rank)| == Min(MAX_SIGNALS_PER_TYPE, |alerts|)
    ensures forall a :: a in Top(alerts, rank) ==> a in alerts
    ensures forall a, kept :: a in alerts && a !in Top(alerts, rank) && kept in Top(alerts, rank) ==> rank(kept) <= rank(a)
  {
    RankedKeeps(alerts, rank);
    var ranked, top := Ranked(alerts, rank), Top(alerts, rank);
    assert |ranked| == |multiset(ranked)| == |multiset(alerts)| == |alerts|;
    forall a | a in top ensures a in alerts { assert a in multiset(ranked); }
    forall a, kept | a in alerts && a !in top && kept in top ensures rank(kept) <= rank(a) {
      assert a in multiset(ranked);
      var i :| 0 <= i < |ranked| && ranked[i] == a;
      var j :| 0 <= j < |top| && top[j] == kept;
      assert forall k :: 0 <= k < |top| ==> ranked[k] == top[k] && ranked[k] in top;
    }
  }

  // ----- one signal for a crowd --------------------------------------------------------------------------

  function Ids(alerts: seq<Alert>): multiset<string> {
    if alerts == [] then multiset{} else Ids(alerts[..|alerts| - 1]) + multiset{alerts[|alerts| - 1].id}
  }

  function Worst(alerts: seq<Alert>): int
    requires alerts != []
  {
    var last := OrZero(alerts[|alerts| - 1].severity);
    if |alerts| == 1 then last
    else
      var before := Worst(alerts[..|alerts| - 1]);
      if before < last then last else before
  }

  function Latest(alerts: seq<Alert>): string
    requires alerts != []
  {
    var last := alerts[|alerts| - 1].at;
    if |alerts| == 1 then last
    else
      var before := Latest(alerts[..|alerts| - 1]);
      if TextLess(before, last) then last else before
  }

  lemma {:induction false} WorstIsMaximum(alerts: seq<Alert>)
    requires alerts != []
    ensures exists a :: a in alerts && OrZero(a.severity) == Worst(alerts)
    ensures forall a :: a in alerts ==> OrZero(a.severity) <= Worst(alerts)
  {
    var init, last := alerts[..|alerts| - 1], alerts[|alerts| - 1];
    assert alerts == init + [last];
    if init != [] { WorstIsMaximum(init); }
  }

  lemma {:induction false} LatestIsMaximum(alerts: seq<Alert>)
    requires alerts != []
    ensures exists a :: a in alerts && a.at == Latest(alerts)
    ensures forall a :: a in alerts ==> !TextLess(Latest(alerts), a.at)
  {
    var init, last := alerts[..|alerts| - 1], alerts[|alerts| - 1];
    assert alerts == init + [last];
    TextOrder(last.at, last.at);
    if init != [] {
      LatestIsMaximum(init);
      TextOrder(Latest(init), last.at);
      forall a | a in init && TextLess(Latest(init), last.at) ensures !TextLess(last.at, a.at) {
        if TextLess(last.at, a.at) { TextLessTransitive(Latest(init), last.at, a.at); }
      }
    }
  }

  lemma {:induction false} IdsSplit(a: seq<Alert>, b: seq<Alert>)
    ensures Ids(a + b) == Ids(a) + Ids(b)
  {
    if b == [] {
      assert a + b == a;
    } else {
      assert (a + b)[..|a + b| - 1] == a + b[..|b| - 1];
      IdsSplit(a, b[..|b| - 1]);
    }
  }

  lemma IdsMiddle(front: seq<Alert>, a: Alert, rest: seq<Alert>)
    ensures Ids(front + [a] + rest) == Ids(front + rest) + multiset{a.id}
  {
    IdsSplit(front + [a], rest);
    IdsSplit(front, [a]);
    IdsSplit(front, rest);
    assert Ids([a]) == multiset{a.id};
  }

  lemma Locate(alerts: seq<Alert>, a: Alert) returns (front: seq<Alert>, rest: seq<Alert>)
    requires a in alerts
    ensures alerts == front + [a] + rest
  {
    var i :| 0 <= i < |alerts| && alerts[i] == a;
    front, rest := alerts[..i], alerts[i + 1..];
  }

  lemma {:induction false} IdsForgetOrder(a: seq<Alert>, b: seq<Alert>)
    requires multiset(a) == multiset(b)
    ensures Ids(a) == Ids(b)
  {
    if a == [] {
      assert |b| == |multiset(b)|;
    } else {
      var init, last := a[..|a| - 1], a[|a| - 1];
      assert a == init + [last];
      assert last in multiset(b);
      var front, rest := Locate(b, last);
      assert multiset(front + rest) == multiset(b) - multiset{last} == multiset(init);
      IdsForgetOrder(init, front + rest);
      IdsMiddle(front, last, rest);
    }
  }

  // ----- the signals -------------------------------------------------------------------------------------

  /** One signal for each alert. */
  function Each(s: Setup, of: Subject, kind: SignalKind, alerts: seq<Alert>, severity: Alert -> int): seq<D.RawSignal> {
    if alerts == [] then []
    else
      var last := alerts[|alerts| - 1];
      Each(s, of, kind, alerts[..|alerts| - 1], severity)
      + [D.RawSignal(D.Known(kind), last.id, s.instant(last.at), of.Target(), Some(severity(last) as real), None, None)]
  }

  function Shown(alerts: seq<Alert>): seq<Alert> {
    if alerts == [] then []
    else
      var before, last := Shown(alerts[..|alerts| - 1]), alerts[|alerts| - 1];
      if last.severity.Absent? then before else before + [last]
  }

  /** Suricata counts down from 1; policies count up. */
  function Inverted(a: Alert): int {
    if OrZero(a.severity) > 4 then 0 else 4 - OrZero(a.severity)
  }

  function Plain(a: Alert): int {
    OrZero(a.severity)
  }

  function Negated(a: Alert): int {
    -OrZero(a.severity)
  }

  predicate Reads(alerts: seq<Alert>) {
    forall a :: a in alerts ==> !a.severity.Unreadable?
  }

  /** The most severe alerts that have a severity; none at all when one of them cannot be read. */
  function SuricataSignals(s: Setup, of: Subject, alerts: seq<Alert>): Option<seq<D.RawSignal>> {
    var shown := Shown(alerts);
    if exists a :: a in shown && !a.severity.Whole? then None
    else Some(Each(s, of, Suricata, Top(shown, Plain), Inverted))
  }

  /** The most severe alerts, those without a severity dropped afterwards. */
  function WazuhSignals(s: Setup, of: Subject, alerts: seq<Alert>): Option<seq<D.RawSignal>> {
    if !Reads(alerts) || (exists a :: a in Top(alerts, Negated) && a.severity.Blank?) then None
    else Some(Each(s, of, Wazuh, Shown(Top(alerts, Negated)), Plain))
  }

  /** However many interactions with a honeypot: one signal. */
  function HoneypotSignals(s: Setup, of: Subject, alerts: seq<Alert>): Option<seq<D.RawSignal>> {
    if alerts == [] then Some([])
    else if !Reads(alerts) then None
    else Some([D.RawSignal(D.Known(Honeypot), "honeypot:" + s.digest(Ids(alerts)), s.instant(Latest(alerts)),
                           of.Target(), Some(Worst(alerts) as real), Some(|alerts| as real), None)])
  }

  /** However many failed logins: one signal. */
  function FailureSignals(s: Setup, of: Subject, alerts: seq<Alert>): seq<D.RawSignal> {
    if alerts == [] then []
    else [D.RawSignal(D.Known(Authentication), "auth-failures:" + s.digest(Ids(alerts)), s.instant(Latest(alerts)),
                      of.Target(), None, Some(|alerts| as real), None)]
  }

  function IntelSignals(s: Setup, of: Subject): seq<D.RawSignal> {
    if of.entity !in s.intel then []
    else [D.RawSignal(D.Known(ThreatIntel), "intel:" + s.intelHash[..Min(12, |s.intelHash|)] + ":" + of.entity,
                      Some(of.windowEnd), of.Target(), None, None, None)]
  }

  function AssetSignals(s: Setup, of: Subject, flows: seq<string>): seq<D.RawSignal> {
    if of.kind.HostTarget? || s.assets == {} || flows == [] then []
    else [D.RawSignal(D.Known(ProtectedAsset), "asset:" + flows[0] + ":" + s.text(of.windowEnd),
                      Some(of.windowEnd), of.Target(), None, None, None)]
  }

  /** Only an address is looked for in network alerts and honeypots. */
  function SuricataPart(s: Setup, of: Subject, t: Answers): Option<seq<D.RawSignal>> {
    if of.kind.IpTarget? then SuricataSignals(s, of, t.suricata) else Some([])
  }

  function HoneypotPart(s: Setup, of: Subject, t: Answers): Option<seq<D.RawSignal>> {
    if of.kind.IpTarget? then HoneypotSignals(s, of, t.honeypot) else Some([])
  }

  /** All signals, in the order they are collected; none when a severity cannot be read. */
  function SignalsOf(s: Setup, of: Subject, t: Answers): Option<seq<D.RawSignal>> {
    var suricata, honeypot, wazuh := SuricataPart(s, of, t), HoneypotPart(s, of, t), WazuhSignals(s, of, t.wazuh);
    if suricata.None? || honeypot.None? || wazuh.None? then None
    else Some(suricata.value + honeypot.value + wazuh.value + FailureSignals(s, of, t.failures)
              + IntelSignals(s, of) + AssetSignals(s, of, t.flows))
  }

  // ----- what the signals are ------------------------------------------------------------------------------

  /** How many signals of a kind there can be about an entity. */
  function Cap(of: Subject, kind: SignalKind): nat {
    match kind
    case Suricata => if of.kind.IpTarget? then MAX_SIGNALS_PER_TYPE else 0
    case Wazuh => MAX_SIGNALS_PER_TYPE
    case Honeypot => if of.kind.IpTarget? then 1 else 0
    case ProtectedAsset => if of.kind.IpTarget? then 1 else 0
    case Authentication => 1
    case ThreatIntel => 1
  }

  function OfKind(signals: seq<D.RawSignal>, kind: SignalKind): nat {
    if signals == [] then 0
    else OfKind(signals[..|signals| - 1], kind) + (if signals[|signals| - 1].kind == D.Known(kind) then 1 else 0)
  }

  lemma {:induction false} OfKindSplits(a: seq<D.RawSignal>, b: seq<D.RawSignal>, kind: SignalKind)
    ensures OfKind(a + b, kind) == OfKind(a, kind) + OfKind(b, kind)
  {
    if b == [] {
      assert a + b == a;
    } else {
      assert (a + b)[..|a + b| - 1] == a + b[..|b| - 1];
      OfKindSplits(a, b[..|b| - 1], kind);
    }
  }

  /** A signal about an entity, with a count only of what was really counted. */
  predicate Faithful(of: Subject, t: Answers, x: D.RawSignal) {
    && x.target == of.Target()
    && (x.count.Some? ==>
          || (x.kind == D.Known(Honeypot) && x.count.value == |t.honeypot| as real)
          || (x.kind == D.Known(Authentication) && x.count.value == |t.failures| as real))
  }

  /** Some signals of one kind, each of them faithful. */
  predicate Sample(of: Subject, t: Answers, kind: SignalKind, signals: seq<D.RawSignal>) {
    forall x :: x in signals ==> x.kind == D.Known(kind) && Faithful(of, t, x)
  }

  lemma {:induction false} EachIsSample(s: Setup, of: Subject, t: Answers, kind: SignalKind, alerts: seq<Alert>,
                                       severity: Alert -> int)
    ensures var signals := Each(s, of, kind, alerts, severity);
            |signals| == |alerts| && Sample(of, t, kind, signals)
  {
    if alerts != [] { EachIsSample(s, of, t, kind, alerts[..|alerts| - 1], severity); }
  }

  lemma {:induction false} ShownAreSome(alerts: seq<Alert>)
    ensures |Shown(alerts)| <= |alerts|
    ensures forall a :: a in Shown(alerts) <==> a in alerts && !a.severity.Absent?
  {
    if alerts != [] {
      var init, last := alerts[..|alerts| - 1], alerts[|alerts| - 1];
      assert alerts == init + [last];
      ShownAreSome(init);
    }
  }

  lemma {:induction false} SampleCounts(of: Subject, t: Answers, kind: SignalKind, signals: seq<D.RawSignal>,
                                       other: SignalKind)
    requires Sample(of, t, kind, signals)
    ensures OfKind(signals, other) == if other == kind then |signals| else 0
  {
    if signals != [] {
      var init := signals[..|signals| - 1];
      assert forall x :: x in init ==> x in signals;
      SampleCounts(of, t, kind, init, other);
      assert signals[|signals| - 1] in signals;
    }
  }

  lemma SuricataFits(s: Setup, of: Subject, t: Answers)
    requires SuricataPart(s, of, t).Some?
    ensures var part := SuricataPart(s, of, t).value; Sample(of, t, Suricata, part) && |part| <= Cap(of, Suricata)
  {
    TopIsBest(Shown(t.suricata), Plain);
    EachIsSample(s, of, t, Suricata, Top(Shown(t.suricata), Plain), Inverted);
  }

  lemma HoneypotFits(s: Setup, of: Subject, t: Answers)
    requires HoneypotPart(s, of, t).Some?
    ensures var part := HoneypotPart(s, of, t).value; Sample(of, t, Honeypot, part) && |part| <= Cap(of, Honeypot)
  {
  }

  lemma WazuhFits(s: Setup, of: Subject, t: Answers)
    requires WazuhSignals(s, of, t.wazuh).Some?
    ensures var part := WazuhSignals(s, of, t.wazuh).value; Sample(of, t, Wazuh, part) && |part| <= Cap(of, Wazuh)
  {
    TopIsBest(t.wazuh, Negated);
    ShownAreSome(Top(t.wazuh, Negated));
    EachIsSample(s, of, t, Wazuh, Shown(Top(t.wazuh, Negated)), Plain);
  }

  lemma SinglesFit(s: Setup, of: Subject, t: Answers)
    ensures Sample(of, t, Authentication, FailureSignals(s, of, t.failures))
    ensures Sample(of, t, ThreatIntel, IntelSignals(s, of))
    ensures Sample(of, t, ProtectedAsset, AssetSignals(s, of, t.flows))
  {
  }

  /** One more part of a collection. */
  lemma PartCounts(of: Subject, t: Answers, before: seq<D.RawSignal>, part: seq<D.RawSignal>, source: SignalKind,
                   kind: SignalKind)
    requires (forall x :: x in before ==> Faithful(of, t, x)) && Sample(of, t, source, part)
    ensures OfKind(before + part, kind) == OfKind(before, kind) + if kind == source then |part| else 0
    ensures forall x :: x in before + part ==> Faithful(of, t, x)
  {
    SampleCounts(of, t, source, part, kind);
    OfKindSplits(before, part, kind);
  }

  lemma PartsAddUp(of: Subject, t: Answers, a: seq<D.RawSignal>, b: seq<D.RawSignal>, c: seq<D.RawSignal>,
                   d: seq<D.RawSignal>, e: seq<D.RawSignal>, f: seq<D.RawSignal>, kind: SignalKind)
    requires Sample(of, t, Suricata, a) && Sample(of, t, Honeypot, b) && Sample(of, t, Wazuh, c)
    requires Sample(of, t, Authentication, d) && Sample(of, t, ThreatIntel, e) && Sample(of, t, ProtectedAsset, f)
    ensures OfKind(a + b + c + d + e + f, kind) == match kind
                                                   case Suricata => |a|
                                                   case Honeypot => |b|
                                                   case Wazuh => |c|
                                                   case Authentication => |d|
                                                   case ThreatIntel => |e|
                                                   case ProtectedAsset => |f|
    ensures forall x :: x in a + b + c + d + e + f ==> Faithful(of, t, x)
  {
    SampleCounts(of, t, Suricata, a, kind);
    PartCounts(of, t, a, b, Honeypot, kind);
    PartCounts(of, t, a + b, c, Wazuh, kind);
    PartCounts(of, t, a + b + c, d, Authentication, kind);
    PartCounts(of, t, a + b + c + d, e, ThreatIntel, kind);
    PartCounts(of, t, a + b + c + d + e, f, ProtectedAsset, kind);
  }

  /** However much telemetry there is about an entity, it becomes at most a few signals of each kind, all
      about that entity; what they count is what the queries found. */
  lemma SignalsAreBounded(s: Setup, of: Subject, t: Answers, kind: SignalKind)
    requires SignalsOf(s, of, t).Some?
    ensures OfKind(SignalsOf(s, of, t).value, kind) <= Cap(of, kind)
    ensures forall x :: x in SignalsOf(s, of, t).value ==> Faithful(of, t, x)
  {
    SuricataFits(s, of, t);
    HoneypotFits(s, of, t);
    WazuhFits(s, of, t);
    SinglesFit(s, of, t);
    var a, b := SuricataPart(s, of, t).value, HoneypotPart(s, of, t).value;
    PartsAddUp(of, t, a, b, WazuhSignals(s, of, t.wazuh).value, FailureSignals(s, of, t.failures),
               IntelSignals(s, of), AssetSignals(s, of, t.flows), kind);
  }

  /** A crowd leaves no trace of its order: shuffled honeypot interactions and failed logins give the
      same signals, identities included. */
  lemma CrowdsForgetOrder(s: Setup, of: Subject, t: Answers, u: Answers)
    requires t.suricata == u.suricata && t.wazuh == u.wazuh && t.flows == u.flows
    requires multiset(t.honeypot) == multiset(u.honeypot) && multiset(t.failures) == multiset(u.failures)
    ensures SignalsOf(s, of, t) == SignalsOf(s, of, u)
  {
    HoneypotForgetsOrder(s, of, t.honeypot, u.honeypot);
    FailuresForgetOrder(s, of, t.failures, u.failures);
  }

  lemma HoneypotForgetsOrder(s: Setup, of: Subject, a: seq<Alert>, b: seq<Alert>)
    requires multiset(a) == multiset(b)
    ensures HoneypotSignals(s, of, a) == HoneypotSignals(s, of, b)
  {
    CrowdForgetsOrder(a, b);
  }

  lemma FailuresForgetOrder(s: Setup, of: Subject, a: seq<Alert>, b: seq<Alert>)
    requires multiset(a) == multiset(b)
    ensures FailureSignals(s, of, a) == FailureSignals(s, of, b)
  {
    CrowdForgetsOrder(a, b);
  }

  lemma CrowdForgetsOrder(a: seq<Alert>, b: seq<Alert>)
    requires multiset(a) == multiset(b)
    ensures |a| == |b| && Ids(a) == Ids(b) && (Reads(a) <==> Reads(b))
    ensures a != [] ==> b != [] && Worst(a) == Worst(b) && Latest(a) == Latest(b)
  {
    assert |a| == |multiset(a)| && |b| == |multiset(b)|;
    IdsForgetOrder(a, b);
    forall x ensures x in a <==> x in b { assert x in multiset(a) <==> x in multiset(b); }
    if a != [] {
      WorstIsMaximum(a);
      WorstIsMaximum(b);
      LatestIsMaximum(a);
      LatestIsMaximum(b);
      TextOrder(Latest(a), Latest(b));
    }
  }

  // ----- collecting --------------------------------------------------------------------------------------

  /** A collection ends with signals, without an answer to one of its queries, or with a severity that
      cannot be read, which is not caught. */
  datatype Collected = Signals(raws: seq<D.RawSignal>) | Unanswered(retryable: bool) | Escaped

  /** A query may fail at any time, in a way that is worth a retry or not, unless all is calm. */
  method Ask(calm: bool) returns (failed: Option<bool>)
    ensures calm ==> failed.None?
  {
    failed := *;
    if calm { failed := None; }
  }

  method Report(s: Setup, of: Subject, kind: SignalKind, alerts: seq<Alert>, severity: Alert -> int,
                before: seq<D.RawSignal>)
    returns (signals: seq<D.RawSignal>)
    ensures signals == before + Each(s, of, kind, alerts, severity)
  {
    signals := before;
    var i := 0;
    while i < |alerts|
      invariant 0 <= i <= |alerts|
      invariant signals == before + Each(s, of, kind, alerts[..i], severity)
    {
      assert alerts[..i + 1][..i] == alerts[..i];
      signals := signals + [D.RawSignal(D.Known(kind), alerts[i].id, s.instant(alerts[i].at), of.Target(),
                                        Some(severity(alerts[i]) as real), None, None)];
      i := i + 1;
    }
    assert alerts[..i] == alerts;
  }

  method CollectSuricata(s: Setup, of: Subject, t: Answers, calm: bool) returns (c: Collected)
    ensures calm ==> !c.Unanswered?
    ensures c.Signals? ==> SuricataPart(s, of, t) == Some(c.raws)
    ensures c.Escaped? ==> SuricataPart(s, of, t).None?
  {
    if of.kind.HostTarget? { return Signals([]); }
    var failed := Ask(calm);
    if failed.Some? { return Unanswered(failed.value); }
    var shown := Shown(t.suricata);
    if exists a :: a in shown && !a.severity.Whole? { return Escaped; }
    var signals := Report(s, of, Suricata, Top(shown, Plain), Inverted, []);
    assert signals == Each(s, of, Suricata, Top(shown, Plain), Inverted);
    c := Signals(signals);
  }

  method CollectHoneypot(s: Setup, of: Subject, t: Answers, calm: bool) returns (c: Collected)
    ensures calm ==> !c.Unanswered?
    ensures c.Signals? ==> HoneypotPart(s, of, t) == Some(c.raws)
    ensures c.Escaped? ==> HoneypotPart(s, of, t).None?
  {
    if of.kind.HostTarget? { return Signals([]); }
    var failed := Ask(calm);
    if failed.Some? { return Unanswered(failed.value); }
    if t.honeypot != [] && !Reads(t.honeypot) { return Escaped; }
    c := Signals(HoneypotSignals(s, of, t.honeypot).value);
  }

  /** Query after query, signal after signal; when all is calm, every query is answered. */
  method Collect(s: Setup, of: Subject, t: Answers, calm: bool) returns (c: Collected)
    ensures calm ==> !c.Unanswered?
    ensures c.Signals? ==> SignalsOf(s, of, t) == Some(c.raws)
    ensures c.Escaped? ==> SignalsOf(s, of, t).None?
  {
    c := CollectSuricata(s, of, t, calm);
    if !c.Signals? { return; }
    var signals := c.raws;
    var failed := Ask(calm);
    if failed.Some? { return Unanswered(failed.value); }
    c := CollectHoneypot(s, of, t, calm);
    if !c.Signals? { return; }
    signals := signals + c.raws;
    if !Reads(t.wazuh) { return Escaped; }
    var top := Top(t.wazuh, Negated);
    if exists a :: a in top && a.severity.Blank? { return Escaped; }
    signals := Report(s, of, Wazuh, Shown(top), Plain, signals);
    failed := Ask(calm);
    if failed.Some? { return Unanswered(failed.value); }
    signals := signals + FailureSignals(s, of, t.failures) + IntelSignals(s, of);
    if of.kind.IpTarget? && s.assets != {} {
      failed := Ask(calm);
      if failed.Some? { return Unanswered(failed.value); }
      signals := signals + AssetSignals(s, of, t.flows);
    } else {
      assert signals + AssetSignals(s, of, t.flows) == signals;
    }
    c := Signals(signals);
  }
}
