/**
 * The sliding-window rate limit (response/orchestrator/engine.py, submit) over whole runs: restarts,
 * failed checkpoints and clocks that step backwards included.
 */
module RateLimit {
  import opened Wrappers
  import opened Policy
  import opened Blocklist
  import opened Audit
  import opened Store
  import opened Lifecycle
  import opened LifecycleInv
  import opened LifecycleSteps
  import opened LifecycleTheorems

  function Window(cfg: Config): int {
    cfg.catalog.windowSeconds * SECOND
  }

  /** When a response was admitted there were few enough admissions in the window before it. */
  predicate WithinBudget(cfg: Config, firsts: seq<Event>, i: nat)
    requires i < |firsts|
  {
    CountSince(firsts[..i + 1], firsts[i].policyId, firsts[i].at - Window(cfg)) <= cfg.catalog.maxActions
  }

  predicate AuthorizedAt(t: Tables, i: nat)
    requires i < |Firsts(t.audit)|
  {
    var rid := Firsts(t.audit)[i].rid;
    rid in t.records && t.records[rid].authorized
  }

  ghost predicate RateInv(cfg: Config, t: Tables) {
    var firsts := Firsts(t.audit);
    && Distinct(firsts)
    && (forall e :: e in firsts ==> FloorMs(e.at) == e.at)
    && (forall i {:trigger AuthorizedAt(t, i)} :: 0 <= i < |firsts| && AuthorizedAt(t, i) ==>
          WithinBudget(cfg, firsts, i))
  }

  /** A submission that is not yet decided is the newest admission. */
  ghost predicate NewestUndecided(s: Sys) {
    s.ram.Live? && s.flight.Submitting? ==>
      var firsts := Firsts(s.tables.audit);
      && s.flight.rid in s.ram.records
      && firsts != []
      && var e := firsts[|firsts| - 1];
         && e.rid == s.flight.rid && e.at == FloorMs(s.flight.at)
         && e.policyId == s.ram.records[s.flight.rid].command.body.policyId
  }

  ghost predicate RateSys(cfg: Config, s: Sys) {
    RateInv(cfg, s.tables) && NewestUndecided(s)
  }

  // ----- steps ---------------------------------------------------------------------------------------

  /** A checkpoint that neither opens a response nor authorizes one. */
  lemma LaterSaveKeepsRate(cfg: Config, s: Sys, r: Record, event: Option<Event>, io: Io, flight: Flight,
                           calls: map<Rid, seq<CallEvent>>)
    requires RateInv(cfg, s.tables) && s.ram.Live?
    requires event.Some? ==> event.value.number != 1
    requires r.rid in s.tables.records && r.authorized == s.tables.records[r.rid].authorized
    requires !flight.Submitting?
    ensures RateSys(cfg, Save(s, r, event, io, flight, calls))
  {
    var t, t' := s.tables, Committed(s.tables, Snapshot(r), event);
    if event.Some? { ScanAppend(t.audit, event.value); }
    forall i {:trigger AuthorizedAt(t', i)} | 0 <= i < |Firsts(t'.audit)| && AuthorizedAt(t', i)
      ensures WithinBudget(cfg, Firsts(t'.audit), i)
    {
      assert AuthorizedAt(t, i);
    }
  }

  /** In whole milliseconds nothing lies between an instant and its rounding. */
  lemma {:induction false} CountIgnoresMicroseconds(firsts: seq<Event>, policyId: string, at: int, window: int)
    requires forall e :: e in firsts ==> FloorMs(e.at) == e.at
    requires window % MILLISECOND == 0
    ensures CountSince(firsts, policyId, FloorMs(at) - window) == CountSince(firsts, policyId, at - window)
  {
    if firsts != [] {
      var init, last := firsts[..|firsts| - 1], firsts[|firsts| - 1];
      assert forall e :: e in init ==> e in firsts;
      assert last in firsts;
      CountIgnoresMicroseconds(init, policyId, at, window);
    }
  }

  /** Authorizing the newest admission, after its budget check. */
  lemma AuthorizeKeepsRate(cfg: Config, t: Tables, r: Record, at: int)
    requires RateInv(cfg, t) && t.admissions == Scan(t.audit)
    requires var firsts := Firsts(t.audit);
             firsts != [] && var e := firsts[|firsts| - 1];
             e.rid == r.rid && e.at == FloorMs(at) && e.policyId == r.command.body.policyId
    requires !OverBudget(cfg, t, r.command.body.policyId, at)
    ensures RateInv(cfg, Committed(t, r, None))
  {
    var policyId, firsts, t' := r.command.body.policyId, Firsts(t.audit), Committed(t, r, None);
    IndexCountsLikeScan(t.audit, policyId, at - Window(cfg));
    CountIgnoresMicroseconds(firsts, policyId, at, Window(cfg));
    assert firsts[..|firsts|] == firsts;
    forall i {:trigger AuthorizedAt(t', i)} | 0 <= i < |firsts| && AuthorizedAt(t', i)
      ensures WithinBudget(cfg, firsts, i)
    {
      if i < |firsts| - 1 { assert AuthorizedAt(t, i); }
    }
  }

  lemma DecideKeepsRate(cfg: Config, s: Sys, io: Io)
    requires RateSys(cfg, s) && s.ram.Live? && s.flight.Submitting? && s.tables.admissions == Scan(s.tables.audit)
    requires s.flight.rid in s.ram.records && s.flight.rid in s.tables.records
    requires var r := s.ram.records[s.flight.rid];
             r.rid == s.flight.rid && r.number >= 1 && r.authorized == s.tables.records[r.rid].authorized
    ensures RateSys(cfg, DoDecide(cfg, s, io))
  {
    var r, at := s.ram.records[s.flight.rid], s.flight.at;
    if !Allowed(cfg, r.command) {
      FailKeepsRate(cfg, s, r, at, "TARGET_PROTECTED", io);
    } else if OverBudget(cfg, s.tables, r.command.body.policyId, at) {
      FailKeepsRate(cfg, s, r, at, "RATE_LIMITED", io);
    } else {
      AuthorizeKeepsRate(cfg, s.tables, Snapshot(r.(authorized := true)), at);
    }
  }

  /** Opening a response that is not authorized yet. */
  lemma AdmitKeepsRate(cfg: Config, t: Tables, r: Record, event: Event)
    requires RateInv(cfg, t) && !r.authorized && r.rid !in t.records
    requires event.number == 1 && event.rid == r.rid && FloorMs(event.at) == event.at
    requires forall e :: e in t.audit ==> e.rid in t.records
    ensures RateInv(cfg, Committed(t, r, Some(event)))
    ensures Firsts(Committed(t, r, Some(event)).audit) == Firsts(t.audit) + [event]
  {
    ScanAppend(t.audit, event);
    AdmittedStaysDistinct(t.audit, event);
    EarlierStayWithin(cfg, t, r, event);
  }

  /** Budgets look back, so those of earlier admissions are what they were. */
  lemma EarlierStayWithin(cfg: Config, t: Tables, r: Record, event: Event)
    requires RateInv(cfg, t) && !r.authorized && event.rid == r.rid
    requires Firsts(Committed(t, r, Some(event)).audit) == Firsts(t.audit) + [event]
    requires Distinct(Firsts(t.audit) + [event])
    ensures var t' := Committed(t, r, Some(event));
            forall i {:trigger AuthorizedAt(t', i)} :: 0 <= i < |Firsts(t'.audit)| && AuthorizedAt(t', i) ==>
              WithinBudget(cfg, Firsts(t'.audit), i)
  {
    var t' := Committed(t, r, Some(event));
    var firsts, firsts' := Firsts(t.audit), Firsts(t'.audit);
    forall i {:trigger AuthorizedAt(t', i)} | 0 <= i < |firsts'| && AuthorizedAt(t', i)
      ensures WithinBudget(cfg, firsts', i)
    {
      if i < |firsts| {
        assert firsts'[i].rid != firsts'[|firsts|].rid;
        assert firsts'[..i + 1] == firsts[..i + 1];
        assert AuthorizedAt(t, i);
      }
    }
  }

  lemma AdmittedStaysDistinct(audit: seq<Event>, event: Event)
    requires Distinct(Firsts(audit)) && forall e :: e in audit ==> e.rid != event.rid
    ensures Distinct(Firsts(audit) + [event])
  {
    forall i | 0 <= i < |Firsts(audit)| ensures Firsts(audit)[i].rid != event.rid {
      FirstsAreEvents(audit, i);
    }
  }

  lemma AcceptKeepsRate(cfg: Config, s: Sys, c: Command, now: int, dedup: map<Key, int>, io: Io)
    requires RateSys(cfg, s) && s.ram.Live? && Rid(c.body.key) !in s.tables.records
    requires forall e :: e in s.tables.audit ==> e.rid in s.tables.records
    ensures RateSys(cfg, Accept(cfg, s, c, now, dedup, io))
  {
    var first := FirstRecord(c, now);
    FloorMsBasics(now, now);
    AdmitKeepsRate(cfg, s.tables, Snapshot(Moved(first, Requested, false)), NextEvent(first, Requested, now, NoDetail));
  }

  lemma {:induction false} FirstsAreEvents(audit: seq<Event>, i: nat)
    requires i < |Firsts(audit)|
    ensures Firsts(audit)[i] in audit
  {
    if i < |Firsts(audit[..|audit| - 1])| { FirstsAreEvents(audit[..|audit| - 1], i); }
  }

  lemma FinishKeepsRate(cfg: Config, s: Sys, io: Io)
    requires SysInv(cfg, s) && RateSys(cfg, s) && s.ram.Live? && s.flight.Calling?
    ensures RateSys(cfg, DoFinish(s, io))
  {
    if s.flight.saga.Returned? {
      var f, r, o := s.flight, s.ram.records[s.flight.rid], s.flight.saga.outcome;
      Stored(cfg, s, f.rid);
      EndKeepsRate(cfg, s.(calls := Log(s.calls, f.rid, Ended(f.op, o, f.at))), f, r, o, io);
    }
  }

  lemma EndKeepsRate(cfg: Config, s: Sys, f: Flight, r: Record, o: Outcome, io: Io)
    requires RateInv(cfg, s.tables) && s.ram.Live? && f.Calling? && r.number >= 1
    requires r.rid in s.tables.records && r.authorized == s.tables.records[r.rid].authorized
    ensures RateSys(cfg, match f.op
                         case CallApply => FinishApply(s, r, f.at, o, io)
                         case CallVerify => FinishVerify(s, r, f.at, o, io)
                         case CallRevert => FinishRevert(s, r, f.at, f.goal, o, io))
  {
    FailKeepsRate(cfg, s, r, f.at, "ADAPTER_APPLY_FAILED", io);
    FailKeepsRate(cfg, s, r, f.at, RevertCode(f.goal), io);
    var application := LastApplication(Events(s.tables, r.rid));
    match f.op
    case CallApply =>
      var r' := r.(reference := o.reference);
      var detail := NoDetail.(application := Some(Application(FloorMs(f.at), o.reference)));
      LaterSaveKeepsRate(cfg, s, Moved(r', Applied, true), Some(NextEvent(r', Applied, f.at, detail)), io, Idle, s.calls);
    case CallVerify =>
      if !Proved(o) {
        BeginRevertKeepsRate(cfg, s, r, f.at, Goal(RolledBack, FailedVerification, Some("VERIFICATION_FAILED")), io);
      } else if application.Some? {
        var detail := NoDetail.(application := Some(Application(application.value.appliedAt, r.reference)),
                                verification := Some(Verification(FloorMs(f.at), o.evidence)));
        LaterSaveKeepsRate(cfg, s, Moved(r, Verified, false), Some(NextEvent(r, Verified, f.at, detail)), io, Idle, s.calls);
      }
    case CallRevert =>
      var detail := Detail(application, None, Some(Reversal(FloorMs(f.at), f.goal.cause, o.evidence)), f.goal.failure);
      LaterSaveKeepsRate(cfg, s, Moved(r, f.goal.terminal, true), Some(NextEvent(r, f.goal.terminal, f.at, detail)),
                         io, Idle, s.calls);
  }

  lemma FailKeepsRate(cfg: Config, s: Sys, r: Record, at: int, code: string, io: Io)
    requires RateInv(cfg, s.tables) && s.ram.Live? && r.number >= 1
    requires r.rid in s.tables.records && r.authorized == s.tables.records[r.rid].authorized
    ensures RateSys(cfg, Fail(s, r, at, code, io))
  {
    LaterSaveKeepsRate(cfg, s, Moved(r, FailedState, false),
                       Some(NextEvent(r, FailedState, at, NoDetail.(failure := Some(code)))), io, Idle, s.calls);
  }

  lemma BeginRevertKeepsRate(cfg: Config, s: Sys, r: Record, at: int, goal: Goal, io: Io)
    requires RateInv(cfg, s.tables) && s.ram.Live?
    requires r.rid in s.tables.records && r.authorized == s.tables.records[r.rid].authorized
    ensures RateSys(cfg, BeginRevert(s, r, at, goal, io))
  {
    LaterSaveKeepsRate(cfg, s, Begun(r, OpRevert, at), None, io,
                       Calling(CallRevert, r.rid, at, goal, StartSaga(r.command, CallRevert)),
                       Log(s.calls, r.rid, Began(CallRevert)));
  }

  lemma BeginApplyKeepsRate(cfg: Config, s: Sys, r: Record, at: int, io: Io)
    requires RateInv(cfg, s.tables) && s.ram.Live?
    requires r.rid in s.tables.records && r.authorized == s.tables.records[r.rid].authorized
    ensures RateSys(cfg, BeginApply(s, r, at, io))
  {
    var r' := r.(reference := RecoveryReference(r.command.body.action, r.command.body.key));
    LaterSaveKeepsRate(cfg, s, Begun(r', OpApply, at), None, io,
                       Calling(CallApply, r.rid, at, NoGoal, StartSaga(r.command, CallApply)),
                       Log(s.calls, r.rid, Began(CallApply)));
  }

  lemma ApplyKeepsRate(cfg: Config, s: Sys, rid: Rid, now: int, io: Io)
    requires RateSys(cfg, s) && s.ram.Live? && s.flight.Idle? && (rid in s.ram.records ==> Known(s, rid))
    ensures RateSys(cfg, DoApply(cfg, s, rid, now, io))
  {
    if rid in s.ram.records {
      var r := s.ram.records[rid];
      ApplyCases(cfg, s, rid, now, io);
      FailKeepsRate(cfg, s, r, now, "EXPIRED_BEFORE_APPLY", io);
      FailKeepsRate(cfg, s, r, now, "REAUTHORIZATION_FAILED", io);
      BeginApplyKeepsRate(cfg, s, r, now, io);
    }
  }

  lemma ApplyCases(cfg: Config, s: Sys, rid: Rid, now: int, io: Io)
    requires s.ram.Live? && rid in s.ram.records
    ensures var r, s' := s.ram.records[rid], DoApply(cfg, s, rid, now, io);
            || s' == s || s' == BeginApply(s, r, now, io)
            || s' == Fail(s, r, now, "EXPIRED_BEFORE_APPLY", io) || s' == Fail(s, r, now, "REAUTHORIZATION_FAILED", io)
  {
  }

  lemma RevertingKeepsRate(cfg: Config, s: Sys, step: Step)
    requires RateSys(cfg, s) && s.ram.Live? && s.flight.Idle?
    requires step.Verify? || step.Expire? || step.Rollback? || step.Recover?
    requires step.rid in s.ram.records ==> Known(s, step.rid)
    ensures RateSys(cfg, Do(cfg, s, step))
  {
    if step.rid in s.ram.records {
      var r := s.ram.records[step.rid];
      var goal := match step
        case Expire(_, _, _) => Goal(if r.state.Verified? then Expired else RolledBack, TtlExpired, None)
        case Rollback(_, _, cause, _) => Goal(RolledBack, cause, None)
        case Recover(_, _, _) => Goal(RolledBack, Recovery, None)
        case _ => Goal(RolledBack, TtlExpired, None);
      BeginRevertKeepsRate(cfg, s, r, step.now, goal, step.io);
    }
  }

  /** A record in memory is stored under its name, has a trail, and is authorized as its snapshot says. */
  predicate Known(s: Sys, rid: Rid)
    requires s.ram.Live? && rid in s.ram.records
  {
    var r := s.ram.records[rid];
    r.rid == rid && r.number >= 1 && rid in s.tables.records && r.authorized == s.tables.records[rid].authorized
  }

  lemma MemoryIsKnown(cfg: Config, s: Sys, rid: Rid)
    requires Core(cfg, s) && s.ram.Live? && rid in s.ram.records
    ensures Known(s, rid)
  {
    Stored(cfg, s, rid);
  }

  lemma SubmissionKeepsRate(cfg: Config, s: Sys, step: Step)
    requires SysInv(cfg, s) && RateSys(cfg, s) && s.ram.Live?
    requires (step.Submit? && s.flight.Idle?) || (step.Decide? && s.flight.Submitting?)
    ensures RateSys(cfg, Do(cfg, s, step))
  {
    hide RespInv;
    if step.Decide? {
      MemoryIsKnown(cfg, s, s.flight.rid);
      DecideKeepsRate(cfg, s, step.io);
    } else if Rid(step.command.body.key) !in s.ram.records {
      AcceptKeepsRate(cfg, s, step.command, step.now, Prune(s.ram.dedup, step.now), step.io);
    }
  }

  /** Steps without a transaction. */
  predicate NoTransaction(step: Step) {
    step.Adapter? || step.HostReply? || step.Escape? || step.Interrupt? || step.Backstop? || step.Meddle?
  }

  lemma NoTransactionKeepsRate(cfg: Config, s: Sys, step: Step)
    requires RateSys(cfg, s) && NoTransaction(step)
    ensures RateSys(cfg, Do(cfg, s, step))
  {
    assert Do(cfg, s, step).tables == s.tables;
  }

  lemma IdleStepKeepsRate(cfg: Config, s: Sys, step: Step)
    requires SysInv(cfg, s) && RateSys(cfg, s) && s.ram.Live? && s.flight.Idle?
    requires step.Apply? || step.Verify? || step.Expire? || step.Rollback? || step.Recover?
    ensures RateSys(cfg, Do(cfg, s, step))
  {
    if step.rid in s.ram.records { MemoryIsKnown(cfg, s, step.rid); }
    if step.Apply? {
      ApplyKeepsRate(cfg, s, step.rid, step.now, step.io);
    } else {
      RevertingKeepsRate(cfg, s, step);
    }
  }

  lemma StepKeepsRate(cfg: Config, s: Sys, step: Step)
    requires SysInv(cfg, s) && RateSys(cfg, s)
    ensures RateSys(cfg, Do(cfg, s, step))
  {
    hide RateSys, SysInv, Do;
    if NoTransaction(step) {
      NoTransactionKeepsRate(cfg, s, step);
    } else if step.Crash? {
      CrashKeepsRate(cfg, s);
    } else if s.ram.Live? {
      LiveStepKeepsRate(cfg, s, step);
    } else {
      DeadStep(cfg, s, step);
    }
  }

  lemma CrashKeepsRate(cfg: Config, s: Sys)
    requires SysInv(cfg, s) && RateSys(cfg, s)
    ensures RateSys(cfg, Do(cfg, s, Crash))
  {
    hide Core, FlightInv, RateInv, DoCrash;
    assert Core(cfg, s);
    ReopenYieldsCommitted(cfg, s);
  }

  lemma DeadStep(cfg: Config, s: Sys, step: Step)
    requires !s.ram.Live? && !step.Crash? && !NoTransaction(step)
    ensures Do(cfg, s, step) == s
  {
  }

  lemma LiveStepKeepsRate(cfg: Config, s: Sys, step: Step)
    requires SysInv(cfg, s) && RateSys(cfg, s) && s.ram.Live? && !NoTransaction(step) && !step.Crash?
    ensures RateSys(cfg, Do(cfg, s, step))
  {
    hide RateSys, SysInv;
    match step
    case Submit(_, _, _) => if s.flight.Idle? { SubmissionKeepsRate(cfg, s, step); }
    case Decide(_) => if s.flight.Submitting? { SubmissionKeepsRate(cfg, s, step); }
    case Finish(io) => if s.flight.Calling? { FinishKeepsRate(cfg, s, io); }
    case _ => if s.flight.Idle? { IdleStepKeepsRate(cfg, s, step); }
  }

  lemma {:induction false} RunKeepsRate(cfg: Config, peers: seq<set<Addr>>, steps: Trace<Step>)
    requires |peers| >= 2
    ensures RateSys(cfg, Run(cfg, Boot(peers), steps))
  {
    if steps.Then? {
      RunKeepsRate(cfg, peers, steps.before);
      BootHolds(cfg, peers);
      RunKeeps(cfg, Boot(peers), steps.before);
      StepKeepsRate(cfg, Run(cfg, Boot(peers), steps.before), steps.step);
    }
  }

  // ----- the theorem -----------------------------------------------------------------------------------

  /** Responses of a policy that were authorized, by audited time, in the window ending at `t`. */
  function AuthorizedIn(t: Tables, policyId: string, from: int, to: int): set<Rid> {
    set rid | rid in t.records && rid in t.admissions && t.records[rid].authorized
              && t.admissions[rid].policyId == policyId && from < t.admissions[rid].at <= to
  }

  function RidsSince(firsts: seq<Event>, policyId: string, since: int): set<Rid> {
    set e | e in firsts && Counts(e, policyId, since) :: e.rid
  }

  lemma {:induction false} RidsAreCounted(firsts: seq<Event>, policyId: string, since: int)
    requires Distinct(firsts)
    ensures |RidsSince(firsts, policyId, since)| == CountSince(firsts, policyId, since)
  {
    hide Counts, Distinct;
    if firsts != [] {
      var init, last := firsts[..|firsts| - 1], firsts[|firsts| - 1];
      assert init + [last] == firsts;
      DistinctPrefix(init, last);
      RidsAreCounted(init, policyId, since);
      var before := RidsSince(init, policyId, since);
      assert RidsSince(firsts, policyId, since)
             == if Counts(last, policyId, since) then before + {last.rid} else before;
    }
  }

  lemma {:induction false} ScanEntry(audit: seq<Event>, rid: Rid) returns (i: nat)
    requires rid in Scan(audit)
    ensures i < |Firsts(audit)| && Firsts(audit)[i].rid == rid
    ensures Scan(audit)[rid] == Admission(Firsts(audit)[i].policyId, Firsts(audit)[i].at)
  {
    var init, last := audit[..|audit| - 1], audit[|audit| - 1];
    if rid in Scan(init) {
      i := ScanEntry(init, rid);
    } else {
      i := |Firsts(init)|;
    }
  }

  lemma {:induction false} LastMember(firsts: seq<Event>, rids: set<Rid>) returns (i: nat)
    requires exists j :: 0 <= j < |firsts| && firsts[j].rid in rids
    ensures i < |firsts| && firsts[i].rid in rids
    ensures forall j :: i < j < |firsts| ==> firsts[j].rid !in rids
  {
    i := |firsts| - 1;
    while firsts[i].rid !in rids
      invariant i < |firsts|
      invariant forall j :: i < j < |firsts| ==> firsts[j].rid !in rids
      invariant exists j :: 0 <= j <= i && firsts[j].rid in rids
      decreases i
    {
      i := i - 1;
    }
  }

  lemma SubsetIsSmaller<T>(a: set<T>, b: set<T>)
    requires a <= b
    ensures |a| <= |b|
  {
    assert b == a + (b - a);
  }

  /** Every window of audited time, wherever it ends, holds at most the budget of authorized
      responses of a policy. */
  lemma NoWindowOverBudget(cfg: Config, s: Sys, policyId: string, to: int)
    requires Reachable(cfg, s)
    ensures |AuthorizedIn(s.tables, policyId, to - Window(cfg), to)| <= cfg.catalog.maxActions
  {
    var peers: seq<set<Addr>>, steps :| |peers| >= 2 && Run(cfg, Boot(peers), steps) == s;
    RunKeepsRate(cfg, peers, steps);
    ReachableHolds(cfg, s);
    BudgetFollows(cfg, s.tables, policyId, to);
  }

  /** Exactly when a submission is over budget: the journal has more than `maxActions` first events of
      its policy in the window, its own and denied ones included. The check never refuses for any other
      reason, such as a stale or incomplete index. */
  lemma OverBudgetExactly(cfg: Config, s: Sys, policyId: string, at: int)
    requires Reachable(cfg, s)
    ensures OverBudget(cfg, s.tables, policyId, at) <==>
              CountSince(Firsts(s.tables.audit), policyId, at - Window(cfg)) > cfg.catalog.maxActions
  {
    hide Run, Accounted;
    var peers: seq<set<Addr>>, steps :| |peers| >= 2 && Run(cfg, Boot(peers), steps) == s;
    RunKeepsRate(cfg, peers, steps);
    ReachableHolds(cfg, s);
    IndexCountsLikeScan(s.tables.audit, policyId, at - Window(cfg));
  }

  lemma BudgetFollows(cfg: Config, t: Tables, policyId: string, to: int)
    requires RateInv(cfg, t) && t.admissions == Scan(t.audit)
    ensures |AuthorizedIn(t, policyId, to - Window(cfg), to)| <= cfg.catalog.maxActions
  {
    var rids := AuthorizedIn(t, policyId, to - Window(cfg), to);
    if rids != {} {
      var firsts := Firsts(t.audit);
      var i := LastAuthorized(t, policyId, to - Window(cfg), to);
      CoveredByLast(t, policyId, to - Window(cfg), to, i);
      BudgetAt(cfg, t, i);
      assert to - (to - Window(cfg)) == Window(cfg);
    }
  }

  lemma BudgetAt(cfg: Config, t: Tables, i: nat)
    requires RateInv(cfg, t) && i < |Firsts(t.audit)| && AuthorizedAt(t, i)
    ensures WithinBudget(cfg, Firsts(t.audit), i)
  {
  }

  lemma LastAuthorized(t: Tables, policyId: string, from: int, to: int) returns (i: nat)
    requires t.admissions == Scan(t.audit) && Distinct(Firsts(t.audit))
    requires AuthorizedIn(t, policyId, from, to) != {}
    ensures i < |Firsts(t.audit)|
    ensures var firsts, rids := Firsts(t.audit), AuthorizedIn(t, policyId, from, to);
            && firsts[i].rid in rids && firsts[i].at <= to && firsts[i].policyId == policyId && AuthorizedAt(t, i)
            && forall j :: i < j < |firsts| ==> firsts[j].rid !in rids
  {
    var rids, firsts := AuthorizedIn(t, policyId, from, to), Firsts(t.audit);
    var some :| some in rids;
    var j := ScanEntry(t.audit, some);
    assert firsts[j].rid in rids;
    i := LastMember(firsts, rids);
    EntryOf(t, firsts, i);
  }

  /** Everything authorized in a window was admitted by the time of the last of it, no longer ago
      than the window is wide. */
  lemma CoveredByLast(t: Tables, policyId: string, from: int, to: int, i: nat)
    requires t.admissions == Scan(t.audit) && Distinct(Firsts(t.audit)) && i < |Firsts(t.audit)|
    requires var firsts, rids := Firsts(t.audit), AuthorizedIn(t, policyId, from, to);
             && firsts[i].rid in rids && firsts[i].at <= to
             && forall j :: i < j < |firsts| ==> firsts[j].rid !in rids
    ensures var prefix, since := Firsts(t.audit)[..i + 1], Firsts(t.audit)[i].at - (to - from);
            |AuthorizedIn(t, policyId, from, to)| <= CountSince(prefix, policyId, since)
  {
    var firsts := Firsts(t.audit);
    var rids := AuthorizedIn(t, policyId, from, to);
    var prefix, since := firsts[..i + 1], firsts[i].at - (to - from);
    forall rid | rid in rids ensures rid in RidsSince(prefix, policyId, since) {
      var n := ScanEntry(t.audit, rid);
      assert firsts[n].rid in rids;
      assert prefix[n] == firsts[n];
      assert Counts(firsts[n], policyId, since);
    }
    forall x, y | 0 <= x < y < |prefix| ensures prefix[x].rid != prefix[y].rid {
      assert prefix[x] == firsts[x] && prefix[y] == firsts[y];
    }
    RidsAreCounted(prefix, policyId, since);
    SubsetIsSmaller(rids, RidsSince(prefix, policyId, since));
  }

  lemma EntryOf(t: Tables, firsts: seq<Event>, i: nat)
    requires t.admissions == Scan(t.audit) && firsts == Firsts(t.audit) && Distinct(firsts) && i < |firsts|
    requires firsts[i].rid in t.admissions
    ensures t.admissions[firsts[i].rid] == Admission(firsts[i].policyId, firsts[i].at)
  {
    var j := ScanEntry(t.audit, firsts[i].rid);
  }
}
