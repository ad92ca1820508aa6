/** Every step of the lifecycle machine keeps the invariant, and no checkpoint is ever refused. */
module LifecycleSteps {
  import opened Wrappers
  import opened Policy
  import opened Ownership
  import opened Blocklist
  import opened Audit
  import opened Store
  import opened Lifecycle
  import opened LifecycleInv
  import opened LifecycleRecord

  /** What is stored about a record in memory. */
  lemma Stored(cfg: Config, s: Sys, rid: Rid)
    requires Core(cfg, s) && s.ram.Live? && rid in s.ram.records
    ensures rid in s.tables.records && s.tables.records[rid] == Snapshot(s.ram.records[rid])
    ensures s.ram.records[rid].rid == rid == Rid(s.ram.records[rid].command.body.key)
    ensures RespInv(cfg, Snapshot(s.ram.records[rid]), Events(s.tables, rid), rid in s.tables.intents,
                    CallsOf(s.calls, rid))
  {
    assert RespAt(cfg, s.tables, s.calls, rid);
  }

  lemma UnresolvedHasReference(cfg: Config, r: Record, h: seq<Event>, intent: bool, calls: seq<CallEvent>)
    requires RespInv(cfg, r, h, intent, calls)
    ensures Unresolved(r) <==> r.reference != "" && !Terminal(r.state)
  {
  }

  lemma OwnershipIsAccounted(cfg: Config, s: Sys, i: nat, a: Addr, k: Key)
    requires Accounted(cfg, s.tables, s.peers) && i < |s.peers|
    ensures Owns(s.peers[i], a, k) ==> BlocksFor(cfg, s.tables, a, k)
  {
  }

  /** A response with nothing to undo owns nothing. */
  lemma OwnsNothing(cfg: Config, s: Sys, r: Record)
    requires Core(cfg, s)
    requires r.rid in s.tables.records && !Unresolved(s.tables.records[r.rid])
    ensures forall i, a {:trigger Owns(s.peers[i], a, r.rid.key)} ::
              0 <= i < |s.peers| ==> !Owns(s.peers[i], a, r.rid.key)
  {
    forall i, a {:trigger Owns(s.peers[i], a, r.rid.key)} | 0 <= i < |s.peers|
      ensures !Owns(s.peers[i], a, r.rid.key)
    {
      OwnershipIsAccounted(cfg, s, i, a, r.rid.key);
    }
  }

  /** Extending the log of one response. */
  lemma LogKeepsCore(cfg: Config, s: Sys, rid: Rid, c: CallEvent)
    requires Core(cfg, s) && rid in s.tables.records
    requires !Terminal(s.tables.records[rid].state) && s.tables.records[rid].reference != ""
    requires c != Began(CallApply)
    ensures Core(cfg, s.(calls := Log(s.calls, rid, c)))
  {
    var calls' := Log(s.calls, rid, c);
    assert RespAt(cfg, s.tables, s.calls, rid);
    LogKeepsHonest(s.tables.records[rid], Events(s.tables, rid), CallsOf(s.calls, rid), c);
    forall other | other in s.tables.records ensures RespAt(cfg, s.tables, calls', other) {
      assert RespAt(cfg, s.tables, s.calls, other);
    }
  }

  lemma StartSagaFits(cfg: Config, peers: seq<Peer>, c: Command, op: CallOp)
    requires |peers| >= 2
    ensures SagaFits(cfg, peers, c, op, StartSaga(c, op))
  {
  }

  /** A checkpoint that launches a call puts the call in flight. */
  lemma LaunchFits(cfg: Config, s: Sys, r: Record, at: int, op: CallOp, goal: Goal, io: Io)
    requires s.ram.Live? && |s.peers| >= 2
    requires FlightFits(op, at, goal, r, CallsOf(s.calls, r.rid) + [Began(op)])
    ensures FlightInv(cfg, Save(s, r, None, io, Calling(op, r.rid, at, goal, StartSaga(r.command, op)),
                                Log(s.calls, r.rid, Began(op))))
  {
    StartSagaFits(cfg, s.peers, r.command, op);
  }

  /** A step keeps the invariant, and the process stays alive unless the storage itself fails: the
      checkpoint inside the step is never refused. */
  ghost predicate Kept(cfg: Config, s': Sys, io: Io) {
    SysInv(cfg, s') && (io.Commits? ==> s'.ram.Live?)
  }

  /** A checkpoint after which the operation is over. */
  lemma SettleKeeps(cfg: Config, s: Sys, r: Record, event: Option<Event>, io: Io)
    requires Core(cfg, s) && s.ram.Live? && Considerate(cfg, s, r)
    requires event.Some? ==> event.value.rid == r.rid
    requires event.None? && r.pending == Some(OpApply) ==> r.rid !in s.tables.intents
    requires RespInv(cfg, Snapshot(r), TrailAfter(s.tables, r, event),
                     r.rid in Committed(s.tables, r, event).intents, CallsOf(s.calls, r.rid))
    ensures Kept(cfg, Save(s, r, event, io, Idle, s.calls), io)
  {
    hide Core, Mirrors, RespInv;
    SaveKeeps(cfg, s, r, event, io, Idle, s.calls);
  }

  // ----- saves used by several operations ---------------------------------------------------------------

  lemma FailKeeps(cfg: Config, s: Sys, rid: Rid, at: int, code: string, io: Io)
    requires Core(cfg, s) && s.ram.Live? && rid in s.ram.records
    requires var r := s.ram.records[rid];
             && !Terminal(r.state)
             && (r.reference != "" ==> r.pending.Some?)
             && (r.state.FailedState? ==> r.pending.Some?)
    ensures Kept(cfg, Fail(s, s.ram.records[rid], at, code, io), io)
  {
    hide Mirrors, TablesInv, SysInv;
    var r := s.ram.records[rid];
    var detail := NoDetail.(failure := Some(code));
    Stored(cfg, s, rid);
    EventOfSnapshot(r, FailedState, at, detail);
    FailedResponse(cfg, Snapshot(r), Events(s.tables, rid), rid in s.tables.intents, CallsOf(s.calls, rid), at, code);
    if !Unresolved(s.tables.records[rid]) { OwnsNothing(cfg, s, r); }
    SettleKeeps(cfg, s, Moved(r, FailedState, false), Some(NextEvent(r, FailedState, at, detail)), io);
  }

  /** A checkpoint of an intent, followed by the call it announces. */
  lemma LaunchKeeps(cfg: Config, s: Sys, r: Record, at: int, op: CallOp, goal: Goal, io: Io)
    requires Core(cfg, s) && s.ram.Live? && Considerate(cfg, s, r)
    requires r.pending == Some(OpApply) ==> r.rid !in s.tables.intents
    requires var h, calls := Events(s.tables, r.rid), CallsOf(s.calls, r.rid);
             var intent := r.rid in s.tables.intents || r.pending == Some(OpApply);
             && RespInv(cfg, Snapshot(r), h, intent, calls)
             && RespInv(cfg, Snapshot(r), h, intent, calls + [Began(op)])
             && FlightFits(op, at, goal, r, calls + [Began(op)])
    ensures Kept(cfg, Save(s, r, None, io, Calling(op, r.rid, at, goal, StartSaga(r.command, op)),
                           Log(s.calls, r.rid, Began(op))), io)
  {
    hide TablesInv, Mirrors, Accounted, RespInv, Considerate;
    SaveKeeps(cfg, s, r, None, io, Calling(op, r.rid, at, goal, StartSaga(r.command, op)),
              Log(s.calls, r.rid, Began(op)));
    LaunchFits(cfg, s, r, at, op, goal, io);
  }

  lemma BeginRevertKeeps(cfg: Config, s: Sys, rid: Rid, at: int, goal: Goal, io: Io)
    requires Core(cfg, s) && s.ram.Live? && rid in s.ram.records && Unresolved(s.ram.records[rid])
    requires Terminal(goal.terminal) && (goal.terminal.Expired? ==> s.ram.records[rid].state.Verified?)
    ensures Kept(cfg, BeginRevert(s, s.ram.records[rid], at, goal, io), io)
  {
    hide Core, RespInv;
    var r := s.ram.records[rid];
    var h, intent, calls := Events(s.tables, rid), rid in s.tables.intents, CallsOf(s.calls, rid);
    Stored(cfg, s, rid);
    UnresolvedHasReference(cfg, Snapshot(r), h, intent, calls);
    RevertingResponse(cfg, Snapshot(r), h, intent, calls, at);
    LaunchKeeps(cfg, s, Begun(r, OpRevert, at), at, CallRevert, goal, io);
  }

  // ----- one lemma for each operation --------------------------------------------------------------------

  lemma SubmitKeeps(cfg: Config, s: Sys, c: Command, now: int, io: Io)
    requires SysInv(cfg, s) && s.ram.Live? && s.flight.Idle?
    ensures Kept(cfg, DoSubmit(cfg, s, c, now, io), io)
  {
    var dedup := Prune(s.ram.dedup, now);
    if ValidCommand(cfg, c, now) {
      if c.body.key in dedup || Rid(c.body.key) in s.ram.records {
        PruneKeeps(cfg, s, dedup);
      } else {
        AcceptKeeps(cfg, s, c, now, dedup, io);
      }
    }
  }

  lemma PruneKeeps(cfg: Config, s: Sys, dedup: map<Key, int>)
    requires SysInv(cfg, s) && s.ram.Live? && s.flight.Idle?
    requires forall k :: k in dedup ==> k in s.ram.dedup
    ensures SysInv(cfg, s.(ram := Live(s.ram.records, dedup)))
  {
  }

  lemma AcceptKeeps(cfg: Config, s: Sys, c: Command, now: int, dedup: map<Key, int>, io: Io)
    requires Core(cfg, s) && s.ram.Live? && Rid(c.body.key) !in s.ram.records
    requires ValidCommand(cfg, c, now)
    requires forall k :: k in dedup ==> k in s.ram.dedup
    ensures Kept(cfg, Accept(cfg, s, c, now, dedup, io), io)
  {
    AcceptedResponse(cfg, c, now);
    AcceptSaveKeeps(cfg, s, c, now, dedup, io);
  }

  lemma AcceptSaveKeeps(cfg: Config, s: Sys, c: Command, now: int, dedup: map<Key, int>, io: Io)
    requires Core(cfg, s) && s.ram.Live? && Rid(c.body.key) !in s.ram.records
    requires forall k :: k in dedup ==> k in s.ram.dedup
    requires var first := FirstRecord(c, now);
             RespInv(cfg, Snapshot(Moved(first, Requested, false)), [NextEvent(first, Requested, now, NoDetail)], false, [])
    ensures Kept(cfg, Accept(cfg, s, c, now, dedup, io), io)
  {
    var first := FirstRecord(c, now);
    var r, event := Moved(first, Requested, false), NextEvent(first, Requested, now, NoDetail);
    var dedup' := dedup[c.body.key := now + cfg.catalog.dedupSeconds * SECOND];
    NoEventsOfUnknown(cfg, s, first.rid);
    AcceptIsSave(cfg, s, c, now, dedup, io);
    FirstSaveKeeps(cfg, s, dedup', r, event, now, io);
  }

  lemma AcceptIsSave(cfg: Config, s: Sys, c: Command, now: int, dedup: map<Key, int>, io: Io)
    requires s.ram.Live?
    ensures var first := FirstRecord(c, now);
            Accept(cfg, s, c, now, dedup, io)
            == Save(s.(ram := Live(s.ram.records, dedup[c.body.key := now + cfg.catalog.dedupSeconds * SECOND])),
                    Moved(first, Requested, false), Some(NextEvent(first, Requested, now, NoDetail)), io,
                    Submitting(first.rid, now), s.calls)
  {
  }

  lemma FirstSaveKeeps(cfg: Config, s: Sys, dedup: map<Key, int>, r: Record, event: Event, at: int, io: Io)
    requires Core(cfg, s) && s.ram.Live? && r.rid !in s.ram.records
    requires forall k :: k in dedup ==> k in s.ram.dedup || Rid(k) == r.rid
    requires !Unresolved(r) && r.pending.None? && event.rid == r.rid
    requires Events(s.tables, r.rid) == [] && CallsOf(s.calls, r.rid) == [] && r.rid !in s.tables.intents
    requires RespInv(cfg, Snapshot(r), [event], false, [])
    requires r.state.Requested? && !r.authorized && r.reference == "" && r.number == 1 && event.at == FloorMs(at)
    ensures Kept(cfg, Save(s.(ram := Live(s.ram.records, dedup)), r, Some(event), io, Submitting(r.rid, at), s.calls), io)
  {
    FirstCommitKeeps(cfg, s, dedup, r, event);
    NewSystems(cfg, s, dedup, r, event, at, io);
  }

  /** However the first checkpoint ends. */
  lemma NewSystems(cfg: Config, s: Sys, dedup: map<Key, int>, r: Record, event: Event, at: int, io: Io)
    requires |s.peers| >= 2 && PeersInv(s.peers) && s.ram.Live?
    requires TablesInv(cfg, s.tables, s.calls) && Accounted(cfg, s.tables, s.peers) && Exclusive(cfg, s.tables)
    requires CheckpointAccepts(s.tables, Snapshot(r), Some(event))
    requires var t' := Committed(s.tables, Snapshot(r), Some(event));
             && TablesInv(cfg, t', s.calls) && Accounted(cfg, t', s.peers) && Exclusive(cfg, t')
             && Mirrors(Live(s.ram.records[r.rid := r], dedup), t')
             && Events(t', r.rid) == [event]
    requires r.state.Requested? && !r.authorized && r.reference == "" && r.number == 1 && event.at == FloorMs(at)
    ensures Kept(cfg, Save(s.(ram := Live(s.ram.records, dedup)), r, Some(event), io, Submitting(r.rid, at), s.calls), io)
  {
    hide Mirrors, TablesInv, Accounted;
    var t' := Committed(s.tables, Snapshot(r), Some(event));
    if io.Commits? {
      NewSystem(cfg, s, t', Live(s.ram.records[r.rid := r], dedup), Submitting(r.rid, at));
    } else if io.LostAfter? {
      NewSystem(cfg, s, t', Poisoned, Idle);
    } else {
      NewSystem(cfg, s, s.tables, Poisoned, Idle);
    }
  }

  lemma NewSystem(cfg: Config, s: Sys, t: Tables, ram: Ram, flight: Flight)
    requires |s.peers| >= 2 && PeersInv(s.peers)
    requires TablesInv(cfg, t, s.calls) && Accounted(cfg, t, s.peers) && Exclusive(cfg, t) && Mirrors(ram, t)
    requires FlightInv(cfg, Sys(t, ram, flight, s.peers, s.calls))
    ensures SysInv(cfg, Sys(t, ram, flight, s.peers, s.calls))
  {
  }

  lemma NoEventsOfUnknown(cfg: Config, s: Sys, rid: Rid)
    requires Core(cfg, s) && rid !in s.tables.records
    ensures Events(s.tables, rid) == [] && rid !in s.tables.intents && CallsOf(s.calls, rid) == []
  {
    if Events(s.tables, rid) != [] { HistoryIsOfResponse(s.tables.audit, rid, 0); }
  }

  /** The first checkpoint of a response; the memory it starts from already knows the key. */
  lemma FirstCommitKeeps(cfg: Config, s: Sys, dedup: map<Key, int>, r: Record, event: Event)
    requires Core(cfg, s) && s.ram.Live? && r.rid !in s.ram.records
    requires forall k :: k in dedup ==> k in s.ram.dedup || Rid(k) == r.rid
    requires !Unresolved(r) && r.pending.None? && event.rid == r.rid
    requires Events(s.tables, r.rid) == [] && CallsOf(s.calls, r.rid) == [] && r.rid !in s.tables.intents
    requires RespInv(cfg, Snapshot(r), [event], false, [])
    ensures CheckpointAccepts(s.tables, Snapshot(r), Some(event))
    ensures var t' := Committed(s.tables, Snapshot(r), Some(event));
            && TablesInv(cfg, t', s.calls)
            && Accounted(cfg, t', s.peers) && Exclusive(cfg, t')
            && Mirrors(Live(s.ram.records[r.rid := r], dedup), t')
            && Events(t', r.rid) == [event]
  {
    var snapshot := Snapshot(r);
    assert Events(s.tables, r.rid) + [event] == [event];
    FittingCheckpointAccepted(s.tables, snapshot, Some(event));
    CommitKeepsTables(cfg, s.tables, s.calls, snapshot, Some(event), s.calls);
    CommitKeepsAccounts(cfg, s, r, Some(event));
    TablesAreNamed(cfg, s.tables, s.calls);
    CommitKeepsExclusive(cfg, s, r, Some(event));
    CommitMirrors(s.ram, s.tables, dedup, r, Some(event));
    EventsAfter(s.tables, snapshot, Some(event), r.rid);
  }

  lemma DecideKeeps(cfg: Config, s: Sys, io: Io)
    requires SysInv(cfg, s) && s.ram.Live? && s.flight.Submitting?
    ensures Kept(cfg, DoDecide(cfg, s, io), io)
  {
    hide Mirrors;
    var rid, at := s.flight.rid, s.flight.at;
    var r := s.ram.records[rid];
    if !Allowed(cfg, r.command) {
      FailKeeps(cfg, s, rid, at, "TARGET_PROTECTED", io);
    } else if OverBudget(cfg, s.tables, r.command.body.policyId, at) {
      FailKeeps(cfg, s, rid, at, "RATE_LIMITED", io);
    } else {
      Stored(cfg, s, rid);
      AuthorizedResponse(cfg, Snapshot(r), Events(s.tables, rid), rid in s.tables.intents, CallsOf(s.calls, rid));
      SettleKeeps(cfg, s, r.(authorized := true), None, io);
    }
  }

  lemma ApplyKeeps(cfg: Config, s: Sys, rid: Rid, now: int, io: Io)
    requires SysInv(cfg, s) && s.ram.Live? && s.flight.Idle?
    ensures Kept(cfg, DoApply(cfg, s, rid, now, io), io)
  {
    hide Mirrors, TablesInv;
    if rid in s.ram.records && Queued(s.ram.records[rid]) {
      var r := s.ram.records[rid];
      Stored(cfg, s, rid);
      if now >= r.expiresAt {
        FailKeeps(cfg, s, rid, now, "EXPIRED_BEFORE_APPLY", io);
      } else if !StillAuthorized(cfg, r, now) {
        FailKeeps(cfg, s, rid, now, "REAUTHORIZATION_FAILED", io);
      } else if !Busy(cfg, s.ram.records, r.rid, r.command) {
        ApplyBeginKeeps(cfg, s, rid, now, io);
      }
    }
  }

  lemma ApplyBeginKeeps(cfg: Config, s: Sys, rid: Rid, now: int, io: Io)
    requires Core(cfg, s) && s.ram.Live? && rid in s.ram.records
    requires var r := s.ram.records[rid]; Queued(r) && !Busy(cfg, s.ram.records, r.rid, r.command)
    ensures Kept(cfg, BeginApply(s, s.ram.records[rid], now, io), io)
  {
    hide Core, Save;
    var r := s.ram.records[rid];
    var h, intent, calls := Events(s.tables, rid), rid in s.tables.intents, CallsOf(s.calls, rid);
    Stored(cfg, s, rid);
    ApplyingResponse(cfg, Snapshot(r), h, intent, calls, now);
    var r' := Begun(r.(reference := RecoveryReference(r.command.body.action, r.command.body.key)), OpApply, now);
    LaunchKeeps(cfg, s, r', now, CallApply, NoGoal, io);
  }

  lemma VerifyKeeps(cfg: Config, s: Sys, rid: Rid, now: int, io: Io)
    requires SysInv(cfg, s) && s.ram.Live? && s.flight.Idle?
    ensures Kept(cfg, DoVerify(s, rid, now, io), io)
  {
    if rid in s.ram.records && s.ram.records[rid].state.Applied? && s.ram.records[rid].pending.None? {
      var r := s.ram.records[rid];
      if now >= r.expiresAt {
        BeginRevertKeeps(cfg, s, rid, now, Goal(RolledBack, TtlExpired, None), io);
      } else {
        VerifyBeginKeeps(cfg, s, rid, now);
      }
    }
  }

  /** Verification needs no intent: it changes nothing. */
  lemma VerifyBeginKeeps(cfg: Config, s: Sys, rid: Rid, now: int)
    requires Core(cfg, s) && s.ram.Live? && rid in s.ram.records
    requires var r := s.ram.records[rid]; r.state.Applied? && r.pending.None? && now < r.expiresAt
    ensures var r := s.ram.records[rid];
            SysInv(cfg, s.(flight := Calling(CallVerify, r.rid, now, NoGoal, StartSaga(r.command, CallVerify)),
                           calls := Log(s.calls, r.rid, Began(CallVerify))))
  {
    var r := s.ram.records[rid];
    Stored(cfg, s, rid);
    LogKeepsCore(cfg, s, rid, Began(CallVerify));
    StartSagaFits(cfg, s.peers, r.command, CallVerify);
    FlightChangeKeeps(cfg, s.(calls := Log(s.calls, rid, Began(CallVerify))),
                      Calling(CallVerify, rid, now, NoGoal, StartSaga(r.command, CallVerify)));
  }

  // ----- the end of a call -------------------------------------------------------------------------------

  lemma FinishKeeps(cfg: Config, s: Sys, io: Io)
    requires SysInv(cfg, s) && s.ram.Live? && s.flight.Calling?
    ensures Kept(cfg, DoFinish(s, io), io)
  {
    hide TablesInv, Mirrors;
    if s.flight.saga.Returned? {
      var f, r, o := s.flight, s.ram.records[s.flight.rid], s.flight.saga.outcome;
      var s' := s.(calls := Log(s.calls, f.rid, Ended(f.op, o, f.at)));
      Stored(cfg, s, f.rid);
      LogKeepsCore(cfg, s, f.rid, Ended(f.op, o, f.at));
      match f.op
      case CallApply =>
        if ApplySucceeded(o) {
          FinishApplyKeeps(cfg, s', f.rid, f.at, o, io);
        } else {
          FailKeeps(cfg, s', f.rid, f.at, "ADAPTER_APPLY_FAILED", io);
        }
      case CallVerify =>
        if Proved(o) {
          FinishVerifyKeeps(cfg, s', f.rid, f.at, o, io);
        } else {
          BeginRevertKeeps(cfg, s', f.rid, f.at, Goal(RolledBack, FailedVerification, Some("VERIFICATION_FAILED")), io);
        }
      case CallRevert =>
        if Proved(o) {
          RevertedOwnsNothing(cfg, s);
          FinishRevertKeeps(cfg, s', f.rid, f.at, f.goal, o, io);
        } else {
          FailKeeps(cfg, s', f.rid, f.at, RevertCode(f.goal), io);
        }
    }
  }

  lemma FinishApplyKeeps(cfg: Config, s: Sys, rid: Rid, at: int, o: Outcome, io: Io)
    requires Core(cfg, s) && s.ram.Live? && rid in s.ram.records
    requires s.ram.records[rid].state.Requested? && s.ram.records[rid].pending == Some(OpApply)
    requires ApplySucceeded(o) && CallsOf(s.calls, rid) == [Began(CallApply), Ended(CallApply, o, at)]
    ensures Kept(cfg, FinishApply(s, s.ram.records[rid], at, o, io), io)
  {
    hide Core;
    var r := s.ram.records[rid];
    var r1 := r.(reference := o.reference);
    var detail := NoDetail.(application := Some(Application(FloorMs(at), o.reference)));
    Stored(cfg, s, rid);
    EventOfSnapshot(r1, Applied, at, detail);
    AppliedResponse(cfg, Snapshot(r), Events(s.tables, rid), rid in s.tables.intents, CallsOf(s.calls, rid), at, o);
    SettleKeeps(cfg, s, Moved(r1, Applied, true), Some(NextEvent(r1, Applied, at, detail)), io);
  }

  lemma FinishVerifyKeeps(cfg: Config, s: Sys, rid: Rid, at: int, o: Outcome, io: Io)
    requires Core(cfg, s) && s.ram.Live? && rid in s.ram.records
    requires s.ram.records[rid].state.Applied? && s.ram.records[rid].pending.None? && at < s.ram.records[rid].expiresAt
    requires var calls := CallsOf(s.calls, rid); calls != [] && calls[|calls| - 1] == Ended(CallVerify, o, at)
    requires Proved(o)
    ensures Kept(cfg, FinishVerify(s, s.ram.records[rid], at, o, io), io)
  {
    hide TablesInv, RespInv;
    var r := s.ram.records[rid];
    var h := Events(s.tables, rid);
    Stored(cfg, s, rid);
    VerifiedResponse(cfg, Snapshot(r), h, rid in s.tables.intents, CallsOf(s.calls, rid), at, o, r.expiresAt);
    var detail := NoDetail.(application := Some(Application(LastApplication(h).value.appliedAt, r.reference)),
                            verification := Some(Verification(FloorMs(at), o.evidence)));
    EventOfSnapshot(r, Verified, at, detail);
    SettleKeeps(cfg, s, Moved(r, Verified, false), Some(NextEvent(r, Verified, at, detail)), io);
  }

  /** A revert that proved itself leaves its key owning nothing anywhere. */
  lemma RevertedOwnsNothing(cfg: Config, s: Sys)
    requires SysInv(cfg, s) && s.ram.Live? && s.flight.Calling? && s.flight.op.CallRevert?
    requires s.flight.saga.Returned? && Proved(s.flight.saga.outcome)
    ensures forall i, a {:trigger Owns(s.peers[i], a, s.flight.rid.key)} ::
              0 <= i < |s.peers| ==> !Owns(s.peers[i], a, s.flight.rid.key)
  {
    hide RespInv, Mirrors, TablesInv;
    var r := s.ram.records[s.flight.rid];
    Stored(cfg, s, s.flight.rid);
    forall i, a {:trigger Owns(s.peers[i], a, s.flight.rid.key)} | 0 <= i < |s.peers|
      ensures !Owns(s.peers[i], a, s.flight.rid.key)
    {
      OwnershipIsAccounted(cfg, s, i, a, s.flight.rid.key);
    }
  }

  lemma FinishRevertKeeps(cfg: Config, s: Sys, rid: Rid, at: int, goal: Goal, o: Outcome, io: Io)
    requires Core(cfg, s) && s.ram.Live? && rid in s.ram.records
    requires var r := s.ram.records[rid];
             && r.pending == Some(OpRevert) && !Terminal(r.state) && Terminal(goal.terminal)
             && (goal.terminal.Expired? ==> r.state.Verified?)
    requires var calls := CallsOf(s.calls, rid); calls != [] && calls[|calls| - 1] == Ended(CallRevert, o, at)
    requires Proved(o)
    requires forall i, a {:trigger Owns(s.peers[i], a, rid.key)} :: 0 <= i < |s.peers| ==> !Owns(s.peers[i], a, rid.key)
    ensures Kept(cfg, FinishRevert(s, s.ram.records[rid], at, goal, o, io), io)
  {
    hide Core, RespInv;
    var r := s.ram.records[rid];
    var h := Events(s.tables, rid);
    var detail := Detail(LastApplication(h), None, Some(Reversal(FloorMs(at), goal.cause, o.evidence)), goal.failure);
    Stored(cfg, s, rid);
    EventOfSnapshot(r, goal.terminal, at, detail);
    RevertedResponse(cfg, Snapshot(r), h, rid in s.tables.intents, CallsOf(s.calls, rid), at, o, goal);
    SettleKeeps(cfg, s, Moved(r, goal.terminal, true), Some(NextEvent(r, goal.terminal, at, detail)), io);
  }

  // ----- during a call, and around the process -----------------------------------------------------------

  lemma AdapterKeeps(cfg: Config, s: Sys, luck: Luck)
    requires SysInv(cfg, s) && s.ram.Live? && s.flight.Calling?
    ensures SysInv(cfg, DoAdapter(cfg, s, luck))
  {
    var r := s.ram.records[s.flight.rid];
    if r.command.body.action.BlockIp? {
      var a, k, op := AddressOf(cfg, r.command), r.command.body.key, s.flight.op;
      var s' := DoAdapter(cfg, s, luck);
      Stored(cfg, s, s.flight.rid);
      SagaStepKeeps(s.peers, a, k, r.reference, op, s.flight.saga, luck);
      forall i, b, j {:trigger Owns(s'.peers[i], b, j)} | 0 <= i < |s'.peers| && Owns(s'.peers[i], b, j)
        ensures BlocksFor(cfg, s.tables, b, j)
      {
        assert b != a ==> Get(s'.peers[i], b) == Get(s.peers[i], b);
        if b != a || j != k || op != CallApply {
          assert Owns(s.peers[i], b, j);
        }
      }
    }
  }

  lemma EnvironmentStepKeeps(cfg: Config, s: Sys, i: nat, b: Addr, c: Cell)
    requires SysInv(cfg, s) && i < |s.peers|
    requires CellInv(c) && c.owners == Get(s.peers[i], b).owners
    requires s.ram.Live? && s.flight.Calling? && s.flight.rid in s.ram.records
             && AddressOf(cfg, s.ram.records[s.flight.rid].command) == b && PeerOf(s.flight.saga) == i
             && s.ram.records[s.flight.rid].command.body.action.BlockIp? && ClientPc(s.flight.saga).Some? ==>
               PcInv(c, s.ram.records[s.flight.rid].command.body.key, ClientPc(s.flight.saga).value)
    ensures SysInv(cfg, OnCell(s, i, b, c))
  {
    var s' := OnCell(s, i, b, c);
    PutGet(s.peers[i], b, c);
    PutKeepsPeer(s.peers[i], b, c);
    forall j, a, k {:trigger Owns(s'.peers[j], a, k)} | 0 <= j < |s'.peers| && Owns(s'.peers[j], a, k)
      ensures BlocksFor(cfg, s.tables, a, k)
    {
      assert a != b ==> Get(Put(s.peers[i], b, c), a) == Get(s.peers[i], a);
      assert Owns(s.peers[j], a, k);
    }
    if s.ram.Live? && s.flight.Calling? && s.ram.records[s.flight.rid].command.body.action.BlockIp? {
      var r := s.ram.records[s.flight.rid];
      EnvironmentKeeps(s.peers, AddressOf(cfg, r.command), r.command.body.key, s.flight.op, s.flight.saga, i, b, c);
    }
  }

  /** What the client call in flight relies on, on its own cell. */
  lemma InFlightPc(cfg: Config, s: Sys)
    requires SysInv(cfg, s) && s.ram.Live? && s.flight.Calling? && ClientPc(s.flight.saga).Some?
    requires s.ram.records[s.flight.rid].command.body.action.BlockIp?
    ensures var r := s.ram.records[s.flight.rid];
            && PeerOf(s.flight.saga) < |s.peers|
            && PcInv(Get(s.peers[PeerOf(s.flight.saga)], AddressOf(cfg, r.command)), r.command.body.key,
                     ClientPc(s.flight.saga).value)
  {
  }

  lemma BackstopKeeps(cfg: Config, s: Sys, i: nat, b: Addr)
    requires SysInv(cfg, s) && i < |s.peers|
    ensures SysInv(cfg, OnCell(s, i, b, Timeout(Get(s.peers[i], b))))
  {
    var c := Get(s.peers[i], b);
    assert CellInv(c);
    if s.ram.Live? && s.flight.Calling? && s.flight.rid in s.ram.records
       && s.ram.records[s.flight.rid].command.body.action.BlockIp? && ClientPc(s.flight.saga).Some? {
      InFlightPc(cfg, s);
      if PeerOf(s.flight.saga) == i && AddressOf(cfg, s.ram.records[s.flight.rid].command) == b {
        TimeoutKeepsCell(c, s.ram.records[s.flight.rid].command.body.key, ClientPc(s.flight.saga).value);
      }
    }
    EnvironmentStepKeeps(cfg, s, i, b, Timeout(c));
  }

  lemma MeddleKeeps(cfg: Config, s: Sys, i: nat, b: Addr, present: bool)
    requires SysInv(cfg, s) && i < |s.peers| && !DecidingAt(cfg, s, i, b)
    ensures SysInv(cfg, OnCell(s, i, b, Outsider(Get(s.peers[i], b), present)))
  {
    var c := Get(s.peers[i], b);
    assert CellInv(c);
    if s.ram.Live? && s.flight.Calling? && s.flight.rid in s.ram.records
       && s.ram.records[s.flight.rid].command.body.action.BlockIp? && ClientPc(s.flight.saga).Some? {
      InFlightPc(cfg, s);
      if PeerOf(s.flight.saga) == i && AddressOf(cfg, s.ram.records[s.flight.rid].command) == b {
        OutsiderKeepsCell(c, s.ram.records[s.flight.rid].command.body.key, ClientPc(s.flight.saga).value, present);
      }
    }
    EnvironmentStepKeeps(cfg, s, i, b, Outsider(c, present));
  }

  /** Reopening: the consistency checks pass, the index needs no backfill, and memory is exactly
      what was last committed. */
  lemma ReopenYieldsCommitted(cfg: Config, s: Sys)
    requires Core(cfg, s)
    ensures Backfill(s.tables) == s.tables
    ensures OpenAccepts(cfg, s.tables)
    ensures DoCrash(cfg, s) == s.(ram := Live(s.tables.records, map[]), flight := Idle)
  {
    forall rid | rid in s.tables.records
      ensures var r := s.tables.records[rid];
              var h := Events(s.tables, r.rid);
              && h != [] && h[|h| - 1].number == r.number
    {
      assert RespAt(cfg, s.tables, s.calls, rid);
      LegalShape(Events(s.tables, rid), |Events(s.tables, rid)| - 1);
    }
    forall rid | rid in s.tables.records ensures RespAt(cfg, s.tables, s.calls, rid) {}
  }

  lemma CrashKeeps(cfg: Config, s: Sys)
    requires Core(cfg, s)
    ensures SysInv(cfg, DoCrash(cfg, s)) && DoCrash(cfg, s).ram.Live?
  {
    ReopenYieldsCommitted(cfg, s);
    forall rid | rid in s.tables.records
      ensures Snapshot(s.tables.records[rid]) == s.tables.records[rid]
    {
      assert RespAt(cfg, s.tables, s.calls, rid);
    }
  }

  // ----- every step -----------------------------------------------------------------------------------------

  /** How the transaction of a step ends; steps without one count as committing. */
  function IoOf(step: Step): Io {
    match step
    case Submit(_, _, io) => io
    case Decide(io) => io
    case Apply(_, _, io) => io
    case Verify(_, _, io) => io
    case Expire(_, _, io) => io
    case Rollback(_, _, _, io) => io
    case Recover(_, _, io) => io
    case Finish(io) => io
    case _ => Commits
  }

  lemma OperationKeeps(cfg: Config, s: Sys, step: Step)
    requires SysInv(cfg, s) && s.ram.Live? && s.flight.Idle?
    requires step.Submit? || step.Apply? || step.Verify? || step.Expire? || step.Rollback? || step.Recover?
    ensures Kept(cfg, Do(cfg, s, step), IoOf(step))
  {
    hide Core;
    match step
    case Submit(c, now, io) => SubmitKeeps(cfg, s, c, now, io);
    case Apply(rid, now, io) => ApplyKeeps(cfg, s, rid, now, io);
    case Verify(rid, now, io) => VerifyKeeps(cfg, s, rid, now, io);
    case Expire(rid, now, io) =>
      if rid in s.ram.records && Unresolved(s.ram.records[rid]) {
        var terminal := if s.ram.records[rid].state.Verified? then Expired else RolledBack;
        BeginRevertKeeps(cfg, s, rid, now, Goal(terminal, TtlExpired, None), io);
      }
    case Rollback(rid, now, cause, io) =>
      if rid in s.ram.records && Unresolved(s.ram.records[rid]) {
        BeginRevertKeeps(cfg, s, rid, now, Goal(RolledBack, cause, None), io);
      }
    case Recover(rid, now, io) =>
      if rid in s.ram.records && Unresolved(s.ram.records[rid]) {
        BeginRevertKeeps(cfg, s, rid, now, Goal(RolledBack, Recovery, None), io);
      }
  }

  lemma StepKeeps(cfg: Config, s: Sys, step: Step)
    requires SysInv(cfg, s)
    ensures SysInv(cfg, Do(cfg, s, step))
    ensures s.ram.Live? && IoOf(step).Commits? ==> Do(cfg, s, step).ram.Live?
  {
    hide Core, DoApply;
    match step
    case Decide(io) => if s.ram.Live? && s.flight.Submitting? { DecideKeeps(cfg, s, io); }
    case Adapter(luck) => if s.ram.Live? && s.flight.Calling? { AdapterKeeps(cfg, s, luck); }
    case HostReply(o) =>
      if s.ram.Live? && s.flight.Calling? && s.flight.saga.AtHost? { ReplyKeeps(cfg, s, o); }
    case Escape =>
      if s.ram.Live? && s.flight.Calling? && !s.flight.saga.Returned? { ReplyKeeps(cfg, s, Outcome(false, "", 0)); }
    case Interrupt => FlightChangeKeeps(cfg, s, Idle);
    case Finish(io) => if s.ram.Live? && s.flight.Calling? { FinishKeeps(cfg, s, io); }
    case Crash => CrashKeeps(cfg, s);
    case Backstop(i, a) => if i < |s.peers| { BackstopKeeps(cfg, s, i, a); }
    case Meddle(i, a, present) =>
      if i < |s.peers| && !DecidingAt(cfg, s, i, a) { MeddleKeeps(cfg, s, i, a, present); }
    case _ => if s.ram.Live? && s.flight.Idle? { OperationKeeps(cfg, s, step); }
  }

  /** A call that ends on its own: a host adapter answers, or an exception escapes. */
  lemma ReplyKeeps(cfg: Config, s: Sys, o: Outcome)
    requires SysInv(cfg, s) && s.ram.Live? && s.flight.Calling?
    requires s.flight.saga.AtHost? || !o.ok
    ensures SysInv(cfg, s.(flight := s.flight.(saga := Returned(o))))
  {
    var flight := s.flight.(saga := Returned(o));
    assert SagaFits(cfg, s.peers, s.ram.records[flight.rid].command, flight.op, flight.saga);
    FlightChangeKeeps(cfg, s, flight);
  }

  lemma FlightChangeKeeps(cfg: Config, s: Sys, flight: Flight)
    requires Core(cfg, s) && FlightInv(cfg, s.(flight := flight))
    ensures SysInv(cfg, s.(flight := flight))
  {
  }

  lemma BootHolds(cfg: Config, peers: seq<set<Addr>>)
    requires |peers| >= 2
    ensures SysInv(cfg, Boot(peers))
  {
  }

  /** The invariant of every run, from a new store or from any state that satisfies it. */
  lemma {:induction false} RunKeeps(cfg: Config, s: Sys, steps: Trace<Step>)
    requires SysInv(cfg, s)
    ensures SysInv(cfg, Run(cfg, s, steps))
  {
    if steps.Then? {
      RunKeeps(cfg, s, steps.before);
      StepKeeps(cfg, Run(cfg, s, steps.before), steps.step);
    }
  }
}
