/** The service around the orchestrator (response/service/runner.py): intake and scheduler passes. */
module Service {
  import opened Wrappers
  import opened Policy
  import opened Store
  import opened Audit
  import opened Lifecycle
  import opened LifecycleSteps
  import opened LifecycleTheorems
  import opened Engine

  /** What a pass did: the outcomes of its expiry sweep and of its recovery sweep. */
  datatype Pass = Pass(expired: map<Rid, Report>, recovered: map<Rid, Report>)

  predicate AllAccepted(reports: map<Rid, Report>) {
    forall rid :: rid in reports ==> reports[rid].accepted
  }

  /** Queued, and nothing but a competitor would keep apply from trying it. */
  predicate Waiting(cfg: Config, r: Record, now: int) {
    Queued(r) && r.pending.None? && StillAuthorized(cfg, r, now)
  }

  /** A waiting command whose target another response holds. */
  predicate Stuck(cfg: Config, records: map<Rid, Record>, rid: Rid, now: int) {
    && rid in records && Waiting(cfg, records[rid], now)
    && Busy(cfg, records, rid, records[rid].command)
  }

  /** Two waiting commands for one target: whichever comes first will hold it against the other. */
  predicate Compete(cfg: Config, records: map<Rid, Record>, x: Rid, y: Rid, now: int) {
    && x != y && x in records && y in records
    && Waiting(cfg, records[x], now) && Waiting(cfg, records[y], now)
    && IdentityOf(cfg, records[x].command) == IdentityOf(cfg, records[y].command)
  }

  /** What a pass cannot get through, told from the records before it. */
  ghost predicate Congested(cfg: Config, records: map<Rid, Record>, now: int) {
    || (exists x {:trigger Stuck(cfg, records, x, now)} :: Stuck(cfg, records, x, now))
    || (exists x, y {:trigger Compete(cfg, records, x, y, now)} :: Compete(cfg, records, x, y, now))
  }

  predicate Keyed(records: map<Rid, Record>) {
    forall rid :: rid in records ==> records[rid].rid == rid
  }

  predicate NothingOverdue(records: map<Rid, Record>, now: int) {
    forall rid :: rid in records && records[rid].expiresAt <= now ==> !Unresolved(records[rid])
  }

  /** How long a stuck command stays stuck: exactly while its target stays taken, and no later than its
      expiry and the expiry of its authorization. */
  lemma StuckExactly(cfg: Config, records: map<Rid, Record>, rid: Rid, now: int, after: map<Rid, Record>, later: int)
    requires Stuck(cfg, records, rid, now) && now <= later
    requires rid in after && after[rid] == records[rid]
    ensures Stuck(cfg, after, rid, later) <==>
              && later < records[rid].expiresAt && later < records[rid].command.body.authorization.expiresAt
              && Busy(cfg, after, rid, records[rid].command)
  {
    AuthorizedUntilDeadlines(cfg, records[rid], now, later);
  }

  /** Trying one response that is not refused neither clears a congestion nor causes one: a competitor
      is stuck afterwards exactly when it competed before. */
  lemma TryingKeepsCongestion(cfg: Config, before: map<Rid, Record>, after: map<Rid, Record>, rid: Rid, now: int)
    requires Keyed(before) && Keyed(after) && rid in before && rid in after && after - {rid} == before - {rid}
    requires Queued(before[rid]) && before[rid].pending.None? && !Refused(cfg, before, rid, now)
    requires Tried(cfg, before[rid], after[rid], now)
    ensures Congested(cfg, before, now) <==> Congested(cfg, after, now)
  {
    OthersUnchanged(before, after, rid);
    forall x {:trigger Stuck(cfg, before, x, now)} | Stuck(cfg, before, x, now) ensures Stuck(cfg, after, x, now) {
      StuckStaysStuck(cfg, before, after, rid, x, now);
    }
    forall x, y {:trigger Compete(cfg, before, x, y, now)} | Compete(cfg, before, x, y, now)
      ensures Congested(cfg, after, now)
    {
      CompetitorsClash(cfg, before, after, rid, x, y, now);
    }
    forall x {:trigger Stuck(cfg, after, x, now)} | Stuck(cfg, after, x, now) ensures Congested(cfg, before, now) {
      StuckWasCongested(cfg, before, after, rid, x, now);
    }
    forall x, y {:trigger Compete(cfg, after, x, y, now)} | Compete(cfg, after, x, y, now)
      ensures Compete(cfg, before, x, y, now)
    {
    }
  }

  lemma RefusedIsStuck(cfg: Config, before: map<Rid, Record>, rid: Rid, now: int)
    requires Refused(cfg, before, rid, now) && rid in before && Queued(before[rid]) && before[rid].pending.None?
    ensures Congested(cfg, before, now)
  {
    assert Stuck(cfg, before, rid, now);
  }

  lemma EmptyQueueFlows(cfg: Config, records: map<Rid, Record>, now: int)
    requires (set rid | rid in records && Queued(records[rid]) && records[rid].pending.None?) == {}
    ensures !Congested(cfg, records, now)
  {
    var queue := set rid | rid in records && Queued(records[rid]) && records[rid].pending.None?;
    forall x ensures !(x in records && Waiting(cfg, records[x], now)) { assert x !in queue; }
  }

  /** The records of one try: only `rid` differs. */
  ghost predicate OneTry(cfg: Config, before: map<Rid, Record>, after: map<Rid, Record>, rid: Rid, now: int) {
    && Keyed(before) && Keyed(after) && rid in before && rid in after
    && (forall other :: other != rid ==>
          (other in after <==> other in before) && (other in before ==> after[other] == before[other]))
    && Queued(before[rid]) && before[rid].pending.None? && !Refused(cfg, before, rid, now)
    && Tried(cfg, before[rid], after[rid], now)
  }

  lemma StuckStaysStuck(cfg: Config, before: map<Rid, Record>, after: map<Rid, Record>, rid: Rid, x: Rid, now: int)
    requires OneTry(cfg, before, after, rid, now) && Stuck(cfg, before, x, now)
    ensures Stuck(cfg, after, x, now)
  {
    var c := before[x].command;
    var other :| other in before && before[other].rid != x && Unresolved(before[other])
                 && IdentityOf(cfg, before[other].command) == IdentityOf(cfg, c);
    assert other in after && after[other] == before[other];
  }

  lemma CompetitorsClash(cfg: Config, before: map<Rid, Record>, after: map<Rid, Record>, rid: Rid, x: Rid, y: Rid,
                         now: int)
    requires OneTry(cfg, before, after, rid, now) && Compete(cfg, before, x, y, now)
    ensures Congested(cfg, after, now)
  {
    if x == rid {
      assert after[x].rid == x && Unresolved(after[x]);
      assert Stuck(cfg, after, y, now);
    } else if y == rid {
      assert after[y].rid == y && Unresolved(after[y]);
      assert Stuck(cfg, after, x, now);
    } else {
      assert Compete(cfg, after, x, y, now);
    }
  }

  lemma StuckWasCongested(cfg: Config, before: map<Rid, Record>, after: map<Rid, Record>, rid: Rid, x: Rid, now: int)
    requires OneTry(cfg, before, after, rid, now) && Stuck(cfg, after, x, now)
    ensures Congested(cfg, before, now)
  {
    var other :| other in after && after[other].rid != x && Unresolved(after[other])
                 && IdentityOf(cfg, after[other].command) == IdentityOf(cfg, after[x].command);
    if other == rid {
      assert Compete(cfg, before, rid, x, now);
    } else {
      assert before[other] == after[other];
      assert Stuck(cfg, before, x, now);
    }
  }

  // ----- how a queue comes to be congested -----------------------------------------------------------------

  /** The record of an accepted and authorized submission. */
  function Accepted(c: Command, now: int): Record {
    Moved(FirstRecord(c, now), Requested, false).(authorized := true)
  }

  /** A checkpoint that the process survived. */
  lemma SavedRecord(s: Sys, r: Record, event: Option<Event>, flight: Flight, calls: map<Rid, seq<CallEvent>>)
    requires s.ram.Live? && Save(s, r, event, Commits, flight, calls).ram.Live?
    ensures var s' := Save(s, r, event, Commits, flight, calls);
            && s'.flight == flight && s'.ram.records == s.ram.records[r.rid := r]
            && s'.tables.records.Keys == s.tables.records.Keys + {r.rid}
            && s'.tables.admissions == (if event.Some? && event.value.number == 1
                                        then Admit(s.tables.admissions, event.value) else s.tables.admissions)
  {
  }

  lemma OneStep(cfg: Config, s: Sys, step: Step) returns (s': Sys)
    requires Reachable(cfg, s) && s.ram.Live? && IoOf(step).Commits?
    ensures s' == Do(cfg, s, step) && Reachable(cfg, s') && s'.ram.Live?
  {
    s' := Do(cfg, s, step);
    RunsCompose(cfg, s, Then(Trace.Start, step));
    assert Run(cfg, s, Then(Trace.Start, step)) == Do(cfg, Run(cfg, s, Trace.Start), step);
    NoCheckpointRefused(cfg, s, step);
  }

  lemma OpeningStep(cfg: Config, s: Sys, c: Command, now: int)
    requires s.ram.Live? && s.flight.Idle? && ValidCommand(cfg, c, now)
    requires c.body.key !in Prune(s.ram.dedup, now) && Rid(c.body.key) !in s.ram.records
    ensures var s' := Do(cfg, s, Submit(c, now, Commits));
            s'.ram.Live? ==>
              && s'.flight == Submitting(Rid(c.body.key), now)
              && s'.ram.records == s.ram.records[Rid(c.body.key) := Moved(FirstRecord(c, now), Requested, false)]
              && s'.tables.records.Keys == s.tables.records.Keys + {Rid(c.body.key)}
              && |s'.tables.admissions| <= |s.tables.admissions| + 1
  {
    var pruned := s.(ram := Live(s.ram.records, Prune(s.ram.dedup, now)));
    NewSubmission(cfg, s, c, now, pruned);
    if Do(cfg, s, Submit(c, now, Commits)).ram.Live? { AcceptResult(cfg, pruned, c, now); }
  }

  lemma AcceptResult(cfg: Config, s: Sys, c: Command, now: int)
    requires s.ram.Live? && Accept(cfg, s, c, now, s.ram.dedup, Commits).ram.Live?
    ensures var s' := Accept(cfg, s, c, now, s.ram.dedup, Commits);
            && s'.flight == Submitting(Rid(c.body.key), now)
            && s'.ram.records == s.ram.records[Rid(c.body.key) := Moved(FirstRecord(c, now), Requested, false)]
            && s'.tables.records.Keys == s.tables.records.Keys + {Rid(c.body.key)}
            && |s'.tables.admissions| <= |s.tables.admissions| + 1
  {
    var event := NextEvent(FirstRecord(c, now), Requested, now, NoDetail);
    var known := s.(ram := Live(s.ram.records, s.ram.dedup[c.body.key := now + cfg.catalog.dedupSeconds * SECOND]));
    AdmitsOne(s.tables.admissions, event);
    SavedRecord(known, Moved(FirstRecord(c, now), Requested, false), Some(event),
                Submitting(Rid(c.body.key), now), s.calls);
  }

  lemma SubmissionOpens(cfg: Config, s: Sys, c: Command, now: int) returns (s': Sys)
    requires Reachable(cfg, s) && s.ram.Live? && s.flight.Idle?
    requires ValidCommand(cfg, c, now) && Rid(c.body.key) !in s.tables.records
    ensures Reachable(cfg, s') && s'.ram.Live?
    ensures s'.flight == Submitting(Rid(c.body.key), now)
    ensures s'.ram.records == s.ram.records[Rid(c.body.key) := Moved(FirstRecord(c, now), Requested, false)]
    ensures s'.tables.records.Keys == s.tables.records.Keys + {Rid(c.body.key)}
    ensures |s'.tables.admissions| <= |s.tables.admissions| + 1
  {
    s' := OneStep(cfg, s, Submit(c, now, Commits));
    CacheIsRecorded(cfg, s, c.body.key, now);
    OpeningStep(cfg, s, c, now);
  }

  lemma AuthorizingStep(cfg: Config, s: Sys, r: Record, now: int)
    requires s.ram.Live? && s.flight == Submitting(r.rid, now)
    requires r.rid in s.ram.records && s.ram.records[r.rid] == r && Allowed(cfg, r.command)
    requires |s.tables.admissions| <= cfg.catalog.maxActions
    ensures Do(cfg, s, Decide(Commits)) == Save(s, r.(authorized := true), None, Commits, Idle, s.calls)
  {
    CountsAtMostAll(s.tables.admissions, r.command.body.policyId, now - cfg.catalog.windowSeconds * SECOND);
  }

  lemma DecisionAuthorizes(cfg: Config, s: Sys, r: Record, now: int) returns (s': Sys)
    requires Reachable(cfg, s) && s.ram.Live? && s.flight == Submitting(r.rid, now)
    requires r.rid in s.ram.records && s.ram.records[r.rid] == r && Allowed(cfg, r.command)
    requires |s.tables.admissions| <= cfg.catalog.maxActions
    ensures Reachable(cfg, s') && s'.ram.Live? && s'.flight.Idle?
    ensures s'.ram.records == s.ram.records[r.rid := r.(authorized := true)]
    ensures s'.tables.records.Keys == s.tables.records.Keys + {r.rid}
    ensures s'.tables.admissions == s.tables.admissions
  {
    s' := OneStep(cfg, s, Decide(Commits));
    AuthorizingStep(cfg, s, r, now);
    SavedRecord(s, r.(authorized := true), None, Idle, s.calls);
  }

  lemma FirstOf(c: Command, now: int) returns (r: Record)
    ensures r == Moved(FirstRecord(c, now), Requested, false)
    ensures r.rid == Rid(c.body.key) && r.command == c && r.(authorized := true) == Accepted(c, now)
  {
    r := Moved(FirstRecord(c, now), Requested, false);
  }

  /** A command that is valid and allowed, within the budget and not yet stored, joins the queue. */
  lemma SubmissionQueues(cfg: Config, s: Sys, c: Command, now: int) returns (s': Sys)
    requires Reachable(cfg, s) && s.ram.Live? && s.flight.Idle?
    requires ValidCommand(cfg, c, now) && Allowed(cfg, c) && Rid(c.body.key) !in s.tables.records
    requires |s.tables.admissions| < cfg.catalog.maxActions
    ensures Reachable(cfg, s') && s'.ram.Live? && s'.flight.Idle?
    ensures s'.ram.records == s.ram.records[Rid(c.body.key) := Accepted(c, now)]
    ensures s'.tables.records.Keys == s.tables.records.Keys + {Rid(c.body.key)}
    ensures |s'.tables.admissions| <= |s.tables.admissions| + 1
  {
    hide Run;
    var first := FirstOf(c, now);
    s' := SubmissionOpens(cfg, s, c, now);
    s' := DecisionAuthorizes(cfg, s', first, now);
  }

  lemma AdmitsOne(admissions: map<Rid, Admission>, e: Event)
    ensures |Admit(admissions, e)| <= |admissions| + 1
  {
    assert Admit(admissions, e).Keys == admissions.Keys + {e.rid};
  }

  lemma CountsAtMostAll(admissions: map<Rid, Admission>, policyId: string, since: int)
    ensures RequestedSince(admissions, policyId, since) <= |admissions|
  {
    Subset(Counted(admissions, policyId, since), admissions.Keys);
  }

  lemma {:induction false} Subset(a: set<Rid>, b: set<Rid>)
    requires a <= b
    ensures |a| <= |b|
    decreases |a|
  {
    if a != {} {
      var x :| x in a;
      Subset(a - {x}, b - {x});
    }
  }

  /** Two valid commands for one target, submitted one after the other to a new store, leave a congested
      queue: the next pass will not get through. */
  lemma TwoForOneTargetCongest(cfg: Config, peers: seq<set<Addr>>, c: Command, d: Command, now: int)
    returns (s: Sys)
    requires |peers| >= 2 && cfg.catalog.maxActions >= 2
    requires ValidCommand(cfg, c, now) && ValidCommand(cfg, d, now) && Allowed(cfg, c) && Allowed(cfg, d)
    requires c.body.key != d.body.key && IdentityOf(cfg, c) == IdentityOf(cfg, d)
    requires c.body.ttlSeconds > 0 && d.body.ttlSeconds > 0
    ensures Reachable(cfg, s) && s.ram.Live? && s.flight.Idle?
    ensures s.ram.records == map[Rid(c.body.key) := Accepted(c, now), Rid(d.body.key) := Accepted(d, now)]
    ensures Congested(cfg, s.ram.records, now)
  {
    BootIsReachable(cfg, peers);
    s := SubmissionQueues(cfg, Boot(peers), c, now);
    s := SubmissionQueues(cfg, s, d, now);
    AcceptedWaits(cfg, c, now);
    AcceptedWaits(cfg, d, now);
    AreCongested(cfg, s.ram.records, c, d, now);
  }

  lemma AreCongested(cfg: Config, records: map<Rid, Record>, c: Command, d: Command, now: int)
    requires records == map[Rid(c.body.key) := Accepted(c, now), Rid(d.body.key) := Accepted(d, now)]
    requires c.body.key != d.body.key && IdentityOf(cfg, c) == IdentityOf(cfg, d)
    requires Waiting(cfg, Accepted(c, now), now) && Waiting(cfg, Accepted(d, now), now)
    ensures Congested(cfg, records, now)
  {
    assert Compete(cfg, records, Rid(c.body.key), Rid(d.body.key), now);
  }

  lemma BootIsReachable(cfg: Config, peers: seq<set<Addr>>)
    requires |peers| >= 2
    ensures Reachable(cfg, Boot(peers))
  {
    assert Run(cfg, Boot(peers), Trace.Start) == Boot(peers);
  }

  lemma AcceptedWaits(cfg: Config, c: Command, now: int)
    requires ValidCommand(cfg, c, now) && Allowed(cfg, c) && c.body.ttlSeconds > 0
    ensures Waiting(cfg, Accepted(c, now), now) && Accepted(c, now).command == c
  {
  }

  // ----- sweeps ----------------------------------------------------------------------------------------------

  /** Recovery after a clean expiry sweep touches nothing that was due. */
  lemma RecoveryKeepsNothingOverdue(before: map<Rid, Record>, now: int, after: map<Rid, Record>,
                                    reports: map<Rid, Report>)
    requires Swept(before, before.Keys, RecoveryGoals(before), now, after, reports)
    ensures NothingOverdue(before, now) ==> NothingOverdue(after, now)
  {
    if NothingOverdue(before, now) {
      forall rid | rid in after && after[rid].expiresAt <= now ensures !Unresolved(after[rid]) {
        assert after[rid] == SweptRecord(before[rid], rid, RecoveryGoals(before), reports, now);
      }
    }
  }

  lemma SweepLeavesNothingOverdue(before: map<Rid, Record>, now: int, after: map<Rid, Record>, reports: map<Rid, Report>)
    requires Swept(before, before.Keys, ExpiryGoals(before, now), now, after, reports)
    ensures AllAccepted(reports) ==> NothingOverdue(after, now)
  {
    if AllAccepted(reports) { SweepMeetsTtl(before, now, after, reports); }
  }

  lemma OthersUnchanged(before: map<Rid, Record>, after: map<Rid, Record>, rid: Rid)
    requires after - {rid} == before - {rid}
    ensures forall other :: other != rid ==>
              (other in after <==> other in before) && (other in before ==> after[other] == before[other])
  {
    forall other | other != rid
      ensures (other in after <==> other in before) && (other in before ==> after[other] == before[other])
    {
      assert other in after - {rid} <==> other in before - {rid};
      if other in before { assert (after - {rid})[other] == (before - {rid})[other]; }
    }
  }

  class ResponseService {
    const orchestrator: ResponseOrchestrator
    const mode: ServiceMode
    const recoverEvery: nat
    var ticks: nat
    var started: bool

    constructor (orchestrator: ResponseOrchestrator, mode: ServiceMode, recoverEvery: int)
      ensures this.orchestrator == orchestrator && this.mode == mode && !started && ticks == 0
      ensures this.recoverEvery == if recoverEvery < 1 then 1 else recoverEvery
    {
      this.orchestrator, this.mode, ticks, started := orchestrator, mode, 0, false;
      this.recoverEvery := if recoverEvery < 1 then 1 else recoverEvery;
    }

    ghost predicate Valid()
      reads orchestrator, orchestrator.store, orchestrator.adapter.Footprint()
    {
      orchestrator.Valid() && recoverEvery > 0
    }

    /** The recovery sweep; only a sweep that ran to its end counts as a start. */
    method Start(now: int) returns (res: Result<map<Rid, Report>>, ghost t: SysTrail)
      requires Valid()
      modifies this`started, orchestrator, orchestrator.store, orchestrator.adapter.Footprint()
      ensures Valid() && orchestrator.Traced(old(orchestrator.Abs()), t)
      ensures started == (old(started) || res.Ok?)
      ensures res.Ok? ==> Swept(old(orchestrator.records), old(orchestrator.records).Keys,
                                RecoveryGoals(old(orchestrator.records)), now, orchestrator.records, res.value)
    {
      res, t := orchestrator.RecoverPending(now);
      if res.Ok? { started := true; }
    }

    /** Intake: nothing is accepted in observe mode or before recovery. */
    method Accept(c: Command, now: int) returns (res: Result<Report>, ghost t: SysTrail)
      requires Valid()
      modifies orchestrator, orchestrator.store
      ensures Valid() && orchestrator.Traced(old(orchestrator.Abs()), t)
      ensures mode.Observe? || !started ==> res.Raised? && orchestrator.Abs() == old(orchestrator.Abs())
      ensures res.Ok? ==> ValidCommand(orchestrator.cfg, c, now)
    {
      if mode.Observe? || !started { return Raised, SysBegin(orchestrator.cfg, orchestrator.Abs()); }
      res, t := orchestrator.Submit(c, now);
    }

    /** One response of the queue: it leaves the queue, or the queue is congested. */
    method ApplyOne(rid: Rid, now: int) returns (ok: bool, ghost t: SysTrail)
      requires Valid() && !orchestrator.storageFailed && rid in orchestrator.PendingApply()
      modifies orchestrator, orchestrator.store, orchestrator.adapter.Footprint()
      ensures Valid() && orchestrator.Traced(old(orchestrator.Abs()), t)
      ensures ok ==> && !orchestrator.storageFailed
                     && orchestrator.PendingApply() == old(orchestrator.PendingApply()) - {rid}
                     && (Congested(orchestrator.cfg, orchestrator.records, now)
                         <==> Congested(orchestrator.cfg, old(orchestrator.records), now))
      ensures !ok && !orchestrator.storageFailed ==> Congested(orchestrator.cfg, old(orchestrator.records), now)
    {
      hide Run;
      ghost var before := orchestrator.records;
      orchestrator.ValidFacts();
      var res;
      res, t := orchestrator.Apply(rid, now);
      ok := res.Ok?;
      if ok {
        orchestrator.ValidFacts();
        OthersUnchanged(before, orchestrator.records, rid);
        TryingKeepsCongestion(orchestrator.cfg, before, orchestrator.records, rid, now);
      } else if !orchestrator.storageFailed {
        RefusedIsStuck(orchestrator.cfg, before, rid, now);
      }
    }

    /** Apply every queued response. Short of a storage failure the loop fails exactly on a congested
        queue, in whatever order it runs. */
    method ApplyQueued(now: int) returns (done: bool, ghost t: SysTrail)
      requires Valid()
      modifies orchestrator, orchestrator.store, orchestrator.adapter.Footprint()
      ensures Valid() && orchestrator.Traced(old(orchestrator.Abs()), t)
      ensures done ==> !orchestrator.storageFailed && orchestrator.PendingApply() == {}
      ensures !orchestrator.storageFailed ==>
                (done <==> !Congested(orchestrator.cfg, old(orchestrator.records), now))
    {
      ghost var s := orchestrator.Abs();
      t := SysBegin(orchestrator.cfg, s);
      if orchestrator.storageFailed { return false, t; }
      var todo := orchestrator.PendingApply();
      while todo != {}
        invariant Valid() && orchestrator.Traced(s, t) && !orchestrator.storageFailed
        invariant todo == orchestrator.PendingApply()
        invariant Congested(orchestrator.cfg, orchestrator.records, now)
                  <==> Congested(orchestrator.cfg, old(orchestrator.records), now)
        decreases todo
      {
        var rid :| rid in todo;
        var ok;
        ghost var one;
        ok, one := ApplyOne(rid, now);
        t := SysJoin(orchestrator.cfg, t, one);
        if !ok { return false, t; }
        todo := todo - {rid};
      }
      EmptyQueueFlows(orchestrator.cfg, orchestrator.records, now);
      done := true;
    }

    /** Verify every applied response; only a storage failure stops the loop. */
    method VerifyApplied(now: int) returns (done: bool, ghost t: SysTrail)
      requires Valid() && !orchestrator.storageFailed
      modifies orchestrator, orchestrator.store, orchestrator.adapter.Footprint()
      ensures Valid() && orchestrator.Traced(old(orchestrator.Abs()), t)
      ensures done == !orchestrator.storageFailed
      ensures done ==> orchestrator.AwaitingVerification() == {}
    {
      ghost var s := orchestrator.Abs();
      t := SysBegin(orchestrator.cfg, s);
      var todo := orchestrator.AwaitingVerification();
      while todo != {}
        invariant Valid() && orchestrator.Traced(s, t) && !orchestrator.storageFailed
        invariant todo == orchestrator.AwaitingVerification()
        decreases todo
      {
        var rid :| rid in todo;
        ghost var before := orchestrator.records;
        var res;
        ghost var one;
        res, one := orchestrator.Verify(rid, now);
        t := SysJoin(orchestrator.cfg, t, one);
        if res.Raised? { return false, t; }
        OthersUnchanged(before, orchestrator.records, rid);
        todo := todo - {rid};
      }
      done := true;
    }

    /** One scheduler pass. Short of a storage failure it is aborted exactly by a congested queue; a
        completed pass whose sweeps were all accepted leaves nothing overdue. */
    method Tick(now: int) returns (res: Result<Pass>, ghost t: SysTrail)
      requires Valid()
      modifies this`ticks, orchestrator, orchestrator.store, orchestrator.adapter.Footprint()
      ensures Valid() && orchestrator.Traced(old(orchestrator.Abs()), t)
      ensures mode.Observe? ==> res == Ok(Pass(map[], map[])) && orchestrator.Abs() == old(orchestrator.Abs())
      ensures mode.Enforce? && !orchestrator.storageFailed ==>
                (res.Raised? <==> Congested(orchestrator.cfg, old(orchestrator.records), now))
      ensures mode.Enforce? && res.Ok? ==> !orchestrator.storageFailed
      ensures mode.Enforce? && res.Ok? && AllAccepted(res.value.expired) ==> NothingOverdue(orchestrator.records, now)
    {
      ghost var s, one := orchestrator.Abs(), SysBegin(orchestrator.cfg, orchestrator.Abs());
      t := one;
      if mode.Observe? { return Ok(Pass(map[], map[])), t; }
      var done;
      done, t := ApplyQueued(now);
      if !done { return Raised, t; }
      done, one := VerifyApplied(now);
      t := SysJoin(orchestrator.cfg, t, one);
      if !done { return Raised, t; }
      res, one := SweepAll(now);
      t := SysJoin(orchestrator.cfg, t, one);
    }

    /** The expiry sweep and, once in a while, the recovery sweep. */
    method SweepAll(now: int) returns (res: Result<Pass>, ghost t: SysTrail)
      requires Valid() && !orchestrator.storageFailed
      modifies this`ticks, orchestrator, orchestrator.store, orchestrator.adapter.Footprint()
      ensures Valid() && orchestrator.Traced(old(orchestrator.Abs()), t)
      ensures res.Ok? <==> !orchestrator.storageFailed
      ensures res.Ok? && AllAccepted(res.value.expired) ==> NothingOverdue(orchestrator.records, now)
    {
      ghost var before := orchestrator.records;
      var expired;
      expired, t := orchestrator.ExpireDue(now);
      if expired.Raised? { return Raised, t; }
      SweepLeavesNothingOverdue(before, now, orchestrator.records, expired.value);
      var recovered;
      ghost var one;
      recovered, one := BackedOffRecovery(now);
      t := SysJoin(orchestrator.cfg, t, one);
      res := if recovered.Ok? then Ok(Pass(expired.value, recovered.value)) else Raised;
    }

    /** The recovery sweep on every `recoverEvery`-th tick, nothing on the others. */
    method BackedOffRecovery(now: int) returns (res: Result<map<Rid, Report>>, ghost t: SysTrail)
      requires Valid() && !orchestrator.storageFailed
      modifies this`ticks, orchestrator, orchestrator.store, orchestrator.adapter.Footprint()
      ensures Valid() && orchestrator.Traced(old(orchestrator.Abs()), t)
      ensures res.Ok? <==> !orchestrator.storageFailed
      ensures res.Ok? && NothingOverdue(old(orchestrator.records), now) ==> NothingOverdue(orchestrator.records, now)
      ensures ticks == old(ticks) + 1
      ensures ticks % recoverEvery != 0 ==> res == Ok(map[]) && orchestrator.Abs() == old(orchestrator.Abs())
    {
      ticks := ticks + 1;
      if ticks % recoverEvery != 0 { return Ok(map[]), SysBegin(orchestrator.cfg, orchestrator.Abs()); }
      ghost var before := orchestrator.records;
      res, t := orchestrator.RecoverPending(now);
      if res.Ok? { RecoveryKeepsNothingOverdue(before, now, orchestrator.records, res.value); }
    }
  }
}
