/**
 * The runner that turns scored anomalies into verdicts and commands behind a durable cursor
 * (response/service/decision_runner.py). Evidence queries, the outcome table, the decision stream and
 * the delivery of commands may fail at every call, with or without having taken effect, and some of
 * these failures are not caught.
 */
module DecisionRunner {
  import opened Wrappers
  import opened Policy
  import opened Store
  import opened ResponseStores
  import opened Paging
  import D = Decision
  import T = Telemetry

  /** The scores of an anomaly. */
  datatype Score = Score(modelId: string, score: real, threshold: real, isAnomaly: bool)

  /** What the runner reads of an anomaly document: its identity, the entity it is about, the instants
      of its window, and the scores; each but the identity may be missing or malformed. */
  datatype AnomalyDoc = AnomalyDoc(
    id: string, kind: Option<TargetKind>, entity: string,
    windowStart: Option<int>, windowEnd: Option<int>, score: Option<Score>)

  datatype Recorded =
    | UnsupportedEntity | NoPolicy | EvidenceError | EvaluationRejected | AnomalyOnly | DeliveryFailed
    | Concluded(conclusion: D.Conclusion, decisionId: string)

  /** A delivery works or fails; a failure may be worth a retry, final, or not caught at all. */
  datatype Delivery = Delivered | Retryable | Final | Uncaught

  /** How the handling of an anomaly ends: with an outcome, to be repeated, or with an exception. */
  datatype Handled = Done | Later | Escaped

  datatype Judgement = NoEvidence(retryable: bool) | NoVerdict | Judged(verdict: D.Verdict) | Broken

  /** A deployment of the runner. */
  datatype Setup = Setup(engine: D.Engine, policies: map<TargetKind, string>, evidence: T.Setup)

  predicate Supported(s: Setup, doc: AnomalyDoc) {
    doc.kind.Some? && doc.entity != "" && doc.kind.value in s.policies
  }

  /** The question an anomaly puts to the engine, when the evidence is `answers` and the time `now`. */
  function Question(s: Setup, doc: AnomalyDoc, answers: T.Answers, now: int): Option<D.Ask>
    requires Supported(s, doc)
  {
    if doc.windowEnd.None? || doc.score.None? then None
    else
      var of := T.Subject(doc.kind.value, doc.entity, doc.windowEnd.value);
      var signals := T.SignalsOf(s.evidence, of, answers);
      if signals.None? then None
      else
        var a := doc.score.value;
        Some(D.Ask(s.policies[doc.kind.value],
                   D.RawAnomaly(doc.id, a.modelId, a.score, a.threshold, a.isAnomaly, Some(of.windowEnd), of.Target()),
                   signals.value, of.Target(), now, None))
  }

  /** An anomaly that no calm pass gets past. */
  predicate Blocking(s: Setup, doc: AnomalyDoc, answers: T.Answers) {
    Supported(s, doc) && Unreadable(s, doc, answers)
  }

  /** Nothing up to the cursor lacks an outcome. */
  ghost predicate Covered(index: seq<Hit<AnomalyDoc>>, cursor: Option<int>, outcomes: map<string, Recorded>) {
    forall h :: h in index && cursor.Some? && h.sort <= cursor.value ==> h.doc.id in outcomes
  }

  /** The engine commands this about an anomaly when it is asked on the evidence of these answers. */
  predicate CommandOn(s: Setup, doc: AnomalyDoc, answers: T.Answers, now: int, c: Command) {
    && Supported(s, doc) && Question(s, doc, answers, now).Some?
    && var r := D.Answer(s.engine, Question(s, doc, answers, now).value);
       D.Commands(r) && r.value.command == c
  }

  /** Evidence that no verdict can come from, whatever the engine: an instant of the window is malformed,
      or a severity. */
  predicate Unreadable(s: Setup, doc: AnomalyDoc, answers: T.Answers)
    requires Supported(s, doc)
  {
    || doc.windowStart.None? || doc.windowEnd.None?
    || T.SignalsOf(s.evidence, T.Subject(doc.kind.value, doc.entity, doc.windowEnd.value), answers).None?
  }

  lemma QuestionIsPut(s: Setup, doc: AnomalyDoc, answers: T.Answers, now: int)
    requires Supported(s, doc) && doc.score.Some? && !Unreadable(s, doc, answers)
    ensures Question(s, doc, answers, now).Some?
  {
  }

  lemma RejectionsRequestNothing(e: D.Engine, q: D.Ask)
    ensures var r := D.Answer(e, q); r.Ok? && r.value.Rejected? ==> !r.value.event.conclusion.ResponseRequested?
  {
  }

  /** Two commands about one anomaly, perhaps of two passes between which the telemetry changed: when
      digests do not collide they share their idempotency key, and with it their lifecycle, exactly when
      the signals of both passes are the same evidence. */
  lemma RetrySharesKeyExactly(s: Setup, doc: AnomalyDoc, a: T.Answers, b: T.Answers, now: int, later: int,
                              c: Command, d: Command)
    requires D.Injective(s.engine) && CommandOn(s, doc, a, now, c) && CommandOn(s, doc, b, later, d)
    ensures c.body.key == d.body.key <==> EvidenceOf(s, doc, a) == EvidenceOf(s, doc, b)
  {
    var p := CommandAnswers(s, doc, a, now, c);
    var q := CommandAnswers(s, doc, b, later, d);
    D.SameKeyIffSameEvidence(s.engine, p, q);
    D.CommandRestsOn(s.engine, p);
    D.CommandRestsOn(s.engine, q);
    D.AboutIsEvidence(s.engine, p, q);
  }

  /** The question behind a command. */
  lemma CommandAnswers(s: Setup, doc: AnomalyDoc, answers: T.Answers, now: int, c: Command) returns (q: D.Ask)
    requires CommandOn(s, doc, answers, now, c)
    ensures D.Commands(D.Answer(s.engine, q)) && D.Answer(s.engine, q).value.command == c
    ensures q.policyId == s.policies[doc.kind.value] && q.anomaly.eventId == doc.id
    ensures q.target == D.RawTarget(doc.kind, doc.entity)
    ensures EvidenceOf(s, doc, answers) == D.Evidence(s.engine, q.raws)
  {
    q := Question(s, doc, answers, now).value;
  }

  /** The normalized and sorted signals of an anomaly, whatever their order and whenever they were judged. */
  function EvidenceOf(s: Setup, doc: AnomalyDoc, answers: T.Answers): Option<seq<Signal>> {
    if !Supported(s, doc) || doc.windowEnd.None? then None
    else if T.SignalsOf(s.evidence, T.Subject(doc.kind.value, doc.entity, doc.windowEnd.value), answers).None? then None
    else
      D.Evidence(s.engine, T.SignalsOf(s.evidence, T.Subject(doc.kind.value, doc.entity, doc.windowEnd.value),
                                       answers).value)
  }

  /** Behind every command: an anomaly that scored enough for the policy of its kind of entity, and an
      independent signal about that very entity that satisfies the policy. */
  lemma CommandsAreCorroborated(s: Setup, doc: AnomalyDoc, answers: T.Answers, now: int, c: Command)
    requires CommandOn(s, doc, answers, now, c)
    ensures var q := Question(s, doc, answers, now).value;
            && q.policyId in s.engine.catalog.policies
            && var policy := s.engine.catalog.policies[q.policyId];
               && doc.score.value.isAnomaly && doc.score.value.score >= policy.minScore
               && exists need, r :: && need in policy.requireAny && r in q.raws
                                    && r.target == q.target && D.Reference(s.engine, r) != doc.id
                                    && D.NormalSignal(s.engine, r).Some?
                                    && Matches(need, D.NormalSignal(s.engine, r).value)
  {
    var q := Question(s, doc, answers, now).value;
    D.CommandsExactly(s.engine, q);
    var of := T.Subject(doc.kind.value, doc.entity, doc.windowEnd.value);
    T.SignalsAreBounded(s.evidence, of, answers, Suricata);
    var policy := s.engine.catalog.policies[q.policyId];
    var need, r :| need in policy.requireAny && r in q.raws && Matches(need, D.NormalSignal(s.engine, r).value);
    assert T.Faithful(of, answers, r);
  }

  class DecisionRunner {
    const setup: Setup
    const mode: ServiceMode
    /** Which commands the engine issues about which anomalies, on which answers and when. */
    ghost const issued: (AnomalyDoc, T.Answers, int, Command) -> bool
    /** Which anomalies are blocking, on which answers. */
    ghost const blocking: (AnomalyDoc, T.Answers) -> bool
    var outcomes: map<string, Recorded>
    var cursor: Option<int>
    /** The decision stream and the commands the orchestrator received. */
    var written: set<string>
    var sent: set<Command>

    constructor (setup: Setup, mode: ServiceMode)
      ensures this.setup == setup && this.mode == mode
      ensures outcomes == map[] && cursor == None && written == {} && sent == {} && Valid()
    {
      this.setup, this.mode := setup, mode;
      this.issued := (doc, answers, now, c) => CommandOn(setup, doc, answers, now, c);
      this.blocking := (doc, answers) => Blocking(setup, doc, answers);
      outcomes, cursor, written, sent := map[], None, {}, {};
    }

    /** No command without a written decision, none at all in observe mode, and none that the decision
        engine did not issue about an anomaly. */
    ghost predicate Valid()
      reads this
    {
      && Linked()
      && (mode.Observe? ==> sent == {})
      && (forall c :: c in sent ==> c.body.decisionId in written && exists doc, answers, now :: issued(doc, answers, now, c))
    }

    ghost predicate Linked() {
      && (forall doc, answers, now, c {:trigger CommandOn(setup, doc, answers, now, c)} ::
            issued(doc, answers, now, c) <==> CommandOn(setup, doc, answers, now, c))
      && (forall doc, answers {:trigger Blocking(setup, doc, answers)} ::
            blocking(doc, answers) <==> Blocking(setup, doc, answers))
    }

    /** Nothing but the outcome of one anomaly may differ, and after `Done` it has one. */
    twostate predicate Answered(doc: AnomalyDoc, end: Handled)
      reads this
    {
      && (end.Done? ==> doc.id in outcomes)
      && (outcomes == old(outcomes) || (doc.id in outcomes && outcomes == old(outcomes)[doc.id := outcomes[doc.id]]))
      && (end.Later? ==> outcomes == old(outcomes))
    }

    /** A transaction may raise with or without having committed, unless all is calm. */
    method Transact(calm: bool) returns (io: Io)
      ensures calm ==> io.Commits?
    {
      io := ChooseIo();
      if calm { io := Commits; }
    }

    /** One transaction on the outcome table. */
    method Record(doc: AnomalyDoc, outcome: Recorded, calm: bool) returns (end: Handled)
      modifies this`outcomes
      ensures end.Done? || end.Escaped?
      ensures calm ==> end.Done?
      ensures outcomes == old(outcomes)[doc.id := outcome] || (end.Escaped? && outcomes == old(outcomes))
    {
      var io := Transact(calm);
      if io != LostBefore { outcomes := outcomes[doc.id := outcome]; }
      end := if io == Commits then Done else Escaped;
    }

    /** Collect the evidence, which the queries answer if they do, and evaluate it at an instant. */
    method Judge(doc: AnomalyDoc, answers: T.Answers, now: int, calm: bool) returns (j: Judgement)
      requires Supported(setup, doc) && Linked()
      ensures calm ==> !j.NoEvidence?
      ensures !j.NoEvidence? ==> (j.Broken? <==> blocking(doc, answers))
      ensures j.Judged? && j.verdict.Eligible? ==> issued(doc, answers, now, j.verdict.command)
      ensures j.Judged? && j.verdict.Rejected? ==> !j.verdict.event.conclusion.ResponseRequested?
    {
      assert blocking(doc, answers) <==> Blocking(setup, doc, answers);
      if doc.windowStart.None? || doc.windowEnd.None? { return Broken; }
      var of := T.Subject(doc.kind.value, doc.entity, doc.windowEnd.value);
      var c := T.Collect(setup.evidence, of, answers, calm);
      match c
      case Unanswered(retryable) => j := NoEvidence(retryable);
      case Escaped => j := Broken;
      case Signals(raws) =>
        if doc.score.None? { return NoVerdict; }
        QuestionIsPut(setup, doc, answers, now);
        var q := Question(setup, doc, answers, now).value;
        RejectionsRequestNothing(setup.engine, q);
        var r := D.Answer(setup.engine, q);
        assert D.Commands(r) ==> CommandOn(setup, doc, answers, now, r.value.command);
        j := if r.Ok? then Judged(r.value) else NoVerdict;
    }

    method ChooseDelivery(calm: bool) returns (d: Delivery, happened: bool)
      ensures d.Delivered? ==> happened
      ensures calm ==> d.Delivered?
    {
      d := *;
      happened := *;
      if calm { d := Delivered; }
      if d.Delivered? { happened := true; }
    }

    method WriteDecision(id: string, calm: bool) returns (d: Delivery)
      modifies this`written
      ensures calm ==> d.Delivered?
      ensures old(written) <= written <= old(written) + {id}
      ensures d.Delivered? ==> id in written
    {
      var happened;
      d, happened := ChooseDelivery(calm);
      if happened { written := written + {id}; }
    }

    method Send(c: Command, calm: bool) returns (d: Delivery)
      modifies this`sent
      ensures calm ==> d.Delivered?
      ensures old(sent) <= sent <= old(sent) + {c}
      ensures d.Delivered? ==> c in sent
    {
      var happened;
      d, happened := ChooseDelivery(calm);
      if happened { sent := sent + {c}; }
    }

    /** The outcome table says of an anomaly that a response was requested. */
    predicate Requested(doc: AnomalyDoc)
      reads this`outcomes
    {
      doc.id in outcomes && outcomes[doc.id].Concluded? && outcomes[doc.id].conclusion.ResponseRequested?
    }

    /** Its decision is in the stream, and its command was sent. */
    ghost predicate Carried(doc: AnomalyDoc)
      requires Requested(doc)
      reads this
    {
      && mode.Enforce? && outcomes[doc.id].decisionId in written
      && exists c :: c in sent && c.body.decisionId == outcomes[doc.id].decisionId
    }

    /** One anomaly: it gets an outcome, is left for a later pass, or an exception escapes. When every query
        is answered, every transaction commits and every delivery is made, it gets its outcome exactly
        when it is not blocking, and otherwise an exception escapes. */
    method Handle(doc: AnomalyDoc, answers: T.Answers, now: int, calm: bool) returns (end: Handled)
      requires Valid()
      modifies this`outcomes, this`written, this`sent
      ensures Valid() && old(written) <= written && old(sent) <= sent && Answered(doc, end)
      ensures forall c :: c in sent - old(sent) ==> issued(doc, answers, now, c)
      ensures end.Done? && Requested(doc) ==> Carried(doc)
      ensures calm ==> end == if Blocking(setup, doc, answers) then Escaped else Done
      ensures end.Done? && !Supported(setup, doc) ==>
                && outcomes[doc.id] == (if doc.kind.None? || doc.entity == "" then UnsupportedEntity else NoPolicy)
                && sent == old(sent) && written == old(written)
      ensures Blocking(setup, doc, answers) ==>
                && (end.Done? ==> outcomes[doc.id] == EvidenceError)
                && sent == old(sent) && written == old(written)
    {
      UnsupportedNeverBlocks(doc, answers);
      if doc.kind.None? || doc.entity == "" { end := Record(doc, UnsupportedEntity, calm); return; }
      if doc.kind.value !in setup.policies { end := Record(doc, NoPolicy, calm); return; }
      var j := Judge(doc, answers, now, calm);
      match j
      case Broken => end := Escaped;
      case NoEvidence(retryable) => if retryable { end := Later; } else { end := Record(doc, EvidenceError, calm); }
      case NoVerdict => end := Record(doc, EvaluationRejected, calm);
      case Judged(verdict) =>
        if verdict.AnomalyOnly? {
          end := Record(doc, AnomalyOnly, calm);
        } else if verdict.Eligible? && mode.Enforce? {
          end := Request(doc, answers, now, verdict, calm);
        } else {
          end := Note(doc, verdict, calm);
        }
    }

    lemma UnsupportedNeverBlocks(doc: AnomalyDoc, answers: T.Answers)
      requires Linked()
      ensures blocking(doc, answers) ==> Supported(setup, doc)
    {
      assert blocking(doc, answers) ==> Blocking(setup, doc, answers);
    }

    /** What a delivery that did not work comes to. */
    method Undelivered(doc: AnomalyDoc, d: Delivery, calm: bool) returns (end: Handled)
      requires !d.Delivered?
      modifies this`outcomes
      ensures Answered(doc, end)
      ensures end.Done? ==> !Requested(doc)
    {
      match d
      case Retryable => end := Later;
      case Uncaught => end := Escaped;
      case Final => end := Record(doc, DeliveryFailed, calm);
    }

    method Deliver(ghost doc: AnomalyDoc, ghost answers: T.Answers, ghost now: int, c: Command, calm: bool)
      returns (d: Delivery)
      requires Valid() && mode.Enforce? && issued(doc, answers, now, c)
      modifies this`written, this`sent
      ensures Valid() && old(written) <= written && old(sent) <= sent <= old(sent) + {c}
      ensures d.Delivered? ==> c in sent && c.body.decisionId in written
      ensures calm ==> d.Delivered?
    {
      d := WriteDecision(c.body.decisionId, calm);
      if d.Delivered? { d := Send(c, calm); }
    }

    /** The decision is written before the command is sent, and the outcome recorded after both. */
    method Request(doc: AnomalyDoc, ghost answers: T.Answers, ghost now: int, verdict: D.Verdict, calm: bool)
      returns (end: Handled)
      requires Valid() && mode.Enforce? && verdict.Eligible? && issued(doc, answers, now, verdict.command)
      modifies this`outcomes, this`written, this`sent
      ensures Valid() && old(written) <= written && old(sent) <= sent && Answered(doc, end)
      ensures forall c :: c in sent - old(sent) ==> issued(doc, answers, now, c)
      ensures end.Done? && Requested(doc) ==> Carried(doc)
      ensures calm ==> end.Done?
    {
      var d := Deliver(doc, answers, now, verdict.command, calm);
      if d.Delivered? {
        end := Record(doc, Concluded(D.ResponseRequested, verdict.command.body.decisionId), calm);
      } else {
        end := Undelivered(doc, d, calm);
      }
    }

    /** The decision is written under its conclusion; in observe mode a request is written as an alert. */
    method Note(doc: AnomalyDoc, verdict: D.Verdict, calm: bool) returns (end: Handled)
      requires Valid() && !verdict.AnomalyOnly? && (verdict.Eligible? ==> mode.Observe?)
      requires verdict.Rejected? ==> !verdict.event.conclusion.ResponseRequested?
      modifies this`outcomes, this`written
      ensures Valid() && old(written) <= written && Answered(doc, end)
      ensures end.Done? ==> !Requested(doc)
      ensures calm ==> end.Done?
    {
      var event := verdict.event;
      var conclusion := if verdict.Eligible? then D.AlertOnly else event.conclusion;
      var d := WriteDecision(event.id, calm);
      if d.Delivered? {
        end := Record(doc, Concluded(conclusion, event.id), calm);
      } else {
        end := Undelivered(doc, d, calm);
      }
    }

    /** Move the cursor past an anomaly that has an outcome. */
    method MoveOn(ghost index: seq<Hit<AnomalyDoc>>, ghost was: Option<int>, hits: seq<Hit<AnomalyDoc>>, i: nat,
                  calm: bool)
      returns (end: Handled)
      requires Ordered(index) && i < |hits| && hits <= Beyond(index, was) && cursor == LastSort(hits[..i], was)
      requires Covered(index, cursor, outcomes) && hits[i].doc.id in outcomes
      modifies this`cursor
      ensures Covered(index, cursor, outcomes)
      ensures calm ==> end.Done?
      ensures end.Done? ==> cursor == LastSort(hits[..i + 1], was)
      ensures !end.Done? ==> end.Escaped? && cursor in {old(cursor), LastSort(hits[..i + 1], was)}
    {
      NextIsNext(index, was, hits, i);
      LastSortNext(hits, i, was);
      var io := Transact(calm);
      if io != LostBefore { cursor := Some(hits[i].sort); }
      end := if io == Commits then Done else Escaped;
    }

    /** One hit of a page, and the cursor past it. */
    method HandleNext(ghost index: seq<Hit<AnomalyDoc>>, ghost was: Option<int>, hits: seq<Hit<AnomalyDoc>>, i: nat,
                      answers: T.Answers, now: int, calm: bool)
      returns (end: Handled)
      requires Valid() && Ordered(index) && Covered(index, cursor, outcomes)
      requires i < |hits| && hits <= Beyond(index, was) && cursor == LastSort(hits[..i], was)
      modifies this
      ensures Valid() && Covered(index, cursor, outcomes)
      ensures forall id :: id in old(outcomes) ==> id in outcomes
      ensures end.Done? ==> cursor == LastSort(hits[..i + 1], was)
      ensures end.Later? ==> cursor == old(cursor)
      ensures end.Escaped? ==> cursor in {old(cursor), LastSort(hits[..i + 1], was)}
      ensures calm ==> if blocking(hits[i].doc, answers) then end.Escaped? && cursor == old(cursor) else end.Done?
    {
      end := Handle(hits[i].doc, answers, now, calm);
      if end.Done? { end := MoveOn(index, was, hits, i, calm); }
    }

    /** The hits of a page, one by one. */
    method HandleAll(ghost index: seq<Hit<AnomalyDoc>>, hits: seq<Hit<AnomalyDoc>>, evidence: nat -> T.Answers,
                     clock: nat -> int, calm: bool)
      returns (processed: nat, end: Handled)
      requires Valid() && Ordered(index) && Covered(index, cursor, outcomes) && hits <= Beyond(index, cursor)
      modifies this
      ensures Valid() && Covered(index, cursor, outcomes) && processed <= |hits|
      ensures forall id :: id in old(outcomes) ==> id in outcomes
      ensures end.Done? ==> processed == |hits|
      ensures cursor == LastSort(hits[..processed], old(cursor))
              || (end.Escaped? && processed < |hits| && cursor == LastSort(hits[..processed + 1], old(cursor)))
      ensures calm ==> FirstBlocked(blocking, hits, evidence, processed)
                       && end == (if processed < |hits| then Escaped else Done)
                       && cursor == LastSort(hits[..processed], old(cursor))
    {
      ghost var was := cursor;
      processed := 0;
      while processed < |hits|
        invariant 0 <= processed <= |hits|
        invariant Valid() && Covered(index, cursor, outcomes)
        invariant cursor == LastSort(hits[..processed], was)
        invariant calm ==> NoneBlocked(blocking, hits, evidence, processed)
        invariant forall id :: id in old(outcomes) ==> id in outcomes
      {
        end := HandleNext(index, was, hits, processed, evidence(processed), clock(processed), calm);
        if !end.Done? { return; }
        processed := processed + 1;
      }
      end := Done;
    }

    /** One pass. Whatever fails, the cursor never moves past an anomaly without an outcome; a pass that
        ends moves it past everything it read, one that has to be repeated past everything it handled.
        An exception may leave it there too, or one further: its own transaction may have committed. A
        calm pass gets past everything it read exactly when nothing in it is blocking, and otherwise an
        exception stops it at the first blocking anomaly. `evidence` and `clock` say what the queries
        about each anomaly answer, and when. */
    method RunOnce(index: seq<Hit<AnomalyDoc>>, limit: nat, evidence: nat -> T.Answers, clock: nat -> int, calm: bool)
      returns (processed: nat, end: Handled)
      requires Valid() && Ordered(index) && Covered(index, cursor, outcomes)
      modifies this
      ensures Valid() && Covered(index, cursor, outcomes)
      ensures processed <= |Search(index, old(cursor), limit)|
      ensures forall id :: id in old(outcomes) ==> id in outcomes
      ensures end.Done? ==> processed == |Search(index, old(cursor), limit)|
      ensures cursor == LastSort(Search(index, old(cursor), processed), old(cursor))
              || (end.Escaped? && cursor == LastSort(Search(index, old(cursor), processed + 1), old(cursor)))
      ensures calm ==> FirstBlocking(setup, Search(index, old(cursor), limit), evidence, processed)
                       && end == (if processed < |Search(index, old(cursor), limit)| then Escaped else Done)
                       && cursor == LastSort(Search(index, old(cursor), processed), old(cursor))
    {
      ghost var was := cursor;
      var answered: bool := *;
      if !answered && !calm { return 0, Escaped; }
      var hits := Search(index, cursor, limit);
      processed, end := HandleAll(index, hits, evidence, clock, calm);
      FirstOfHits(index, was, limit, processed);
      if calm { BlockedIsBlocking(hits, evidence, processed); }
    }

    lemma BlockedIsBlocking(hits: seq<Hit<AnomalyDoc>>, evidence: nat -> T.Answers, n: nat)
      requires Linked() && FirstBlocked(blocking, hits, evidence, n)
      ensures FirstBlocking(setup, hits, evidence, n)
    {
      forall i: nat | i < n && i < |hits| ensures !Blocking(setup, hits[i].doc, evidence(i)) {
        assert !blocking(hits[i].doc, evidence(i));
      }
    }
  }

  ghost predicate NoneBlocked(blocking: (AnomalyDoc, T.Answers) -> bool, hits: seq<Hit<AnomalyDoc>>,
                              evidence: nat -> T.Answers, n: nat)
  {
    forall i: nat :: i < n && i < |hits| ==> !blocking(hits[i].doc, evidence(i))
  }

  ghost predicate FirstBlocked(blocking: (AnomalyDoc, T.Answers) -> bool, hits: seq<Hit<AnomalyDoc>>,
                               evidence: nat -> T.Answers, n: nat)
  {
    n <= |hits| && NoneBlocked(blocking, hits, evidence, n) && (n < |hits| ==> blocking(hits[n].doc, evidence(n)))
  }

  /** The position of the first blocking hit, or the end. */
  ghost predicate FirstBlocking(s: Setup, hits: seq<Hit<AnomalyDoc>>, evidence: nat -> T.Answers, n: nat) {
    && n <= |hits|
    && (forall i: nat :: i < n && i < |hits| ==> !Blocking(s, hits[i].doc, evidence(i)))
    && (n < |hits| ==> Blocking(s, hits[n].doc, evidence(n)))
  }

  /** A pass that was stopped is followed by one that reads from the same anomaly on, however the index has
      grown behind it: as long as that anomaly blocks, nothing behind it is handled. */
  lemma NextPassStartsThere(index: seq<Hit<AnomalyDoc>>, grown: seq<Hit<AnomalyDoc>>, was: Option<int>, limit: nat,
                            n: nat, size: nat)
    requires Ordered(grown) && index <= grown && n < |Search(index, was, limit)| && size > 0
    ensures var next := Search(grown, LastSort(Search(index, was, n), was), size);
            next != [] && next[0] == Search(index, was, limit)[n]
  {
    assert grown == index + grown[|index|..];
    BeyondGrown(index, grown[|index|..], was);
    FirstOfHits(index, was, limit, n);
    if n > 0 { BeyondHit(grown, was, n - 1); }
  }

  lemma FirstOfHits(index: seq<Hit<AnomalyDoc>>, was: Option<int>, limit: nat, n: nat)
    requires n <= |Search(index, was, limit)|
    ensures Search(index, was, n) == Search(index, was, limit)[..n]
    ensures n < |Search(index, was, limit)| ==> Search(index, was, n + 1) == Search(index, was, limit)[..n + 1]
  {
  }

  lemma LastSortNext(hits: seq<Hit<AnomalyDoc>>, i: nat, was: Option<int>)
    requires i < |hits|
    ensures LastSort(hits[..i + 1], was) == Some(hits[i].sort)
  {
    assert hits[..i + 1][i] == hits[i];
  }

  /** Between a cursor and the next hit behind it there is nothing. */
  lemma NextIsNext(index: seq<Hit<AnomalyDoc>>, was: Option<int>, hits: seq<Hit<AnomalyDoc>>, i: nat)
    requires Ordered(index) && i < |hits| && hits <= Beyond(index, was)
    ensures var cursor := LastSort(hits[..i], was);
            forall h :: h in index && h.sort <= hits[i].sort ==> h == hits[i] || (cursor.Some? && h.sort <= cursor.value)
  {
    var n := HitAt(index, was, hits, i);
    forall h | h in index && h.sort <= hits[i].sort
      ensures h == hits[i] || (LastSort(hits[..i], was).Some? && h.sort <= LastSort(hits[..i], was).value)
    {
      var j :| 0 <= j < |index| && index[j] == h;
      NothingBetween(index, was, n, i, j);
    }
  }

  lemma HitAt(index: seq<Hit<AnomalyDoc>>, was: Option<int>, hits: seq<Hit<AnomalyDoc>>, i: nat) returns (n: nat)
    requires Ordered(index) && i < |hits| && hits <= Beyond(index, was)
    ensures n + i < |index| && hits[i] == index[n + i]
    ensures LastSort(hits[..i], was) == if i == 0 then was else Some(index[n + i - 1].sort)
    ensures forall m :: 0 <= m < n ==> !After(index[m].sort, was)
  {
    n := BeyondIsSuffix(index, was);
    assert hits[i] == Beyond(index, was)[i] == index[n..][i];
    if i > 0 { assert hits[..i][i - 1] == Beyond(index, was)[i - 1] == index[n..][i - 1]; }
  }

  lemma NothingBetween(index: seq<Hit<AnomalyDoc>>, was: Option<int>, n: nat, i: nat, j: nat)
    requires Ordered(index) && n + i < |index| && j < |index| && index[j].sort <= index[n + i].sort
    requires forall m :: 0 <= m < n ==> !After(index[m].sort, was)
    ensures var cursor := if i == 0 then was else Some(index[n + i - 1].sort);
            j == n + i || (cursor.Some? && index[j].sort <= cursor.value)
  {
  }

  /** Anomalies that arrive behind the cursor keep the promise... */
  lemma CoveredWhenGrown(index: seq<Hit<AnomalyDoc>>, more: seq<Hit<AnomalyDoc>>, cursor: Option<int>,
                         outcomes: map<string, Recorded>)
    requires Covered(index, cursor, outcomes)
    ensures Covered(index + more, cursor, outcomes) <==>
              forall h :: h in more ==> After(h.sort, cursor) || cursor.None? || h.doc.id in outcomes
  {
    if Covered(index + more, cursor, outcomes) {
      forall h | h in more ensures After(h.sort, cursor) || cursor.None? || h.doc.id in outcomes {
        assert h in index + more;
      }
    }
  }

  /** ...and one that sorts before it is never read again. */
  lemma LateArrivalIsNeverRead(index: seq<Hit<AnomalyDoc>>, cursor: Option<int>, h: Hit<AnomalyDoc>, size: nat)
    requires cursor.Some? && h.sort <= cursor.value
    ensures h !in Search(index, cursor, size)
  {
    BeyondHas(index, cursor, h);
  }
}
