/** From the decision engine to the orchestrator: the commands of the one under the checks of the other. */
module HandOff {
  import opened Policy
  import opened Audit
  import opened Store
  import D = Decision
  import Lifecycle
  import opened LifecycleTheorems

  /** Both sides run the same catalog and text rules, the orchestrator trusts the engine's key, and
      digests and normalized texts are not empty. */
  ghost predicate Trusting(cfg: Config, e: D.Engine) {
    && cfg.text == e.text && cfg.catalog == e.catalog
    && (forall u :: cfg.genuine(u, e.sign(u)))
    && (forall id :: id in e.catalog.policies ==> e.catalog.policies[id].id == id)
    && e.catalog.validForSeconds > 0
    && (forall m :: e.decisionId(m) != "" && e.correlationId(m) != "")
    && (forall m :: e.requestId(m) != "" && e.key(m) != "")
    && (forall s :: e.text.ip(s).Some? ==> e.text.ip(s).value.canonical != "")
    && e.text.host("") == ""
  }

  lemma WholeMilliseconds(t: int, seconds: nat)
    ensures FloorMs(t + seconds * SECOND) == FloorMs(t) + seconds * SECOND
  {
    assert (t + seconds * SECOND) % MILLISECOND == t % MILLISECOND;
  }

  /** A command of the engine passes the orchestrator's checks exactly from one minute before its
      issuance, rounded down to the millisecond, until its authorization expires. The one exception is
      a target whose normalized text outgrew the 255 characters the orchestrator admits: such a command
      is never valid. */
  lemma ValidExactly(cfg: Config, e: D.Engine, q: D.Ask, at: int)
    requires Trusting(cfg, e) && D.Commands(D.Answer(e, q))
    ensures ValidCommand(cfg, D.Answer(e, q).value.command, at) <==>
              && |D.NormalTarget(e, q.target).value.value| <= 255
              && FloorMs(q.now) - CLOCK_SKEW <= at < FloorMs(q.now) + e.catalog.validForSeconds * SECOND
  {
    D.AnswerExactly(e, q);
    var a, signals := D.NormalAnomaly(e, q.anomaly).value, D.Evidence(e, q.raws).value;
    D.PassesExactly(e, e.catalog.policies[q.policyId], a, signals, q.now);
    WholeMilliseconds(q.now, e.catalog.validForSeconds);
    CommandFields(e, q);
  }

  /** What the command of an evaluation says. */
  lemma CommandFields(e: D.Engine, q: D.Ask)
    requires D.Commands(D.Answer(e, q))
    ensures var c, policy := D.Answer(e, q).value.command, e.catalog.policies[q.policyId];
            && c.signature == e.sign(c.body)
            && c.body.policyId == policy.id && c.body.policyVersion == policy.version
            && c.body.policySha256 == policy.sha256 && c.body.action == policy.action
            && c.body.ttlSeconds == policy.ttlSeconds && c.body.allowlistChecked && c.body.rollbackRequired
            && c.body.target == D.NormalTarget(e, q.target).value
            && c.body.authorization == Authorization("decision_engine", e.signingKey, FloorMs(q.now),
                                                     FloorMs(q.now + e.catalog.validForSeconds * SECOND))
            && (exists m :: c.body.decisionId == e.decisionId(m))
            && (exists m :: c.body.requestId == e.requestId(m) && c.body.key == e.key(m))
            && (c.body.correlationId == "" ==> exists m :: c.body.correlationId == e.correlationId(m))
  {
    var m := D.About(e, q).value;
    var c := D.Answer(e, q).value.command;
    assert c.body.decisionId == e.decisionId(m);
    assert c.body.requestId == e.requestId(D.RequestMaterial(e.decisionId(m), m));
    assert q.tag.None? ==> c.body.correlationId == e.correlationId(m);
  }

  /** The same evidence judged again, later, relabelled or shuffled, never starts a second lifecycle:
      once a response is recorded for it, submitting the new command changes nothing. */
  lemma SameEvidenceOneLifecycle(cfg: Config, s: Lifecycle.Sys, e: D.Engine, p: D.Ask, q: D.Ask, now: int, io: Io)
    requires Reachable(cfg, s)
    requires D.Commands(D.Answer(e, p)) && D.Commands(D.Answer(e, q)) && D.About(e, p) == D.About(e, q)
    requires Rid(D.Answer(e, p).value.command.body.key) in s.tables.records
    ensures var s' := Lifecycle.Do(cfg, s, Lifecycle.Submit(D.Answer(e, q).value.command, now, io));
            && s'.tables == s.tables && s'.peers == s.peers && s'.calls == s.calls && s'.flight == s.flight
  {
    D.CommandRestsOn(e, p);
    D.CommandRestsOn(e, q);
    ResubmissionChangesNothing(cfg, s, D.Answer(e, q).value.command, now, io);
  }
}
