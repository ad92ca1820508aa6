/** What holds in every run of the lifecycle machine, with crashes and failures anywhere. */
module LifecycleTheorems {
  import opened Wrappers
  import opened Policy
  import opened Ownership
  import opened Blocklist
  import opened Audit
  import opened Store
  import opened Lifecycle
  import opened LifecycleInv
  import opened LifecycleSteps

  /** A state some run from a new store leads to. */
  ghost predicate Reachable(cfg: Config, s: Sys) {
    exists peers: seq<set<Addr>>, steps :: |peers| >= 2 && Run(cfg, Boot(peers), steps) == s
  }

  lemma ReachableHolds(cfg: Config, s: Sys)
    requires Reachable(cfg, s)
    ensures SysInv(cfg, s)
  {
    var peers: seq<set<Addr>>, steps :| |peers| >= 2 && Run(cfg, Boot(peers), steps) == s;
    BootHolds(cfg, peers);
    RunKeeps(cfg, Boot(peers), steps);
  }

  // ----- no orphaned block ---------------------------------------------------------------------------

  /** Whoever is responsible for an address on a peer. */
  ghost predicate Explained(cfg: Config, s: Sys, i: nat, a: Addr)
    requires i < |s.peers|
  {
    || a in s.peers[i].outside
    || exists rid :: rid in s.tables.records && Unresolved(s.tables.records[rid])
                     && s.tables.records[rid].command.body.action.BlockIp?
                     && AddressOf(cfg, s.tables.records[rid].command) == a
  }

  /** At every instant, whatever crashed, raised or timed out: an address on a peer was put there by
      an outsider or is the target of a response that the durable snapshot still has to undo; and
      what an outsider put there is still there. */
  lemma NoOrphanedBlock(cfg: Config, s: Sys, i: nat, a: Addr)
    requires Reachable(cfg, s) && i < |s.peers|
    ensures a in s.peers[i].present ==> Explained(cfg, s, i, a)
    ensures a in s.peers[i].outside ==> a in s.peers[i].present
  {
    ReachableHolds(cfg, s);
    var c := Get(s.peers[i], a);
    assert CellInv(c);
    if c.owners != map[] {
      var k :| k in c.owners;
      assert Owns(s.peers[i], a, k);
      assert BlocksFor(cfg, s.tables, a, k);
    }
  }

  predicate Undisturbed(steps: Trace<Step>) {
    steps.Then? ==> !steps.step.Meddle? && Undisturbed(steps.before)
  }

  lemma {:induction false} OutsideIsInitial(cfg: Config, peers: seq<set<Addr>>, steps: Trace<Step>)
    requires |peers| >= 2 && Undisturbed(steps)
    ensures var s := Run(cfg, Boot(peers), steps);
            |s.peers| == |peers| && forall i :: 0 <= i < |peers| ==> s.peers[i].outside == peers[i]
  {
    if steps.Then? {
      OutsideIsInitial(cfg, peers, steps.before);
      BootHolds(cfg, peers);
      RunKeeps(cfg, Boot(peers), steps.before);
      StepKeepsOutside(cfg, Run(cfg, Boot(peers), steps.before), steps.step);
    }
  }

  lemma StepKeepsOutside(cfg: Config, s: Sys, step: Step)
    requires SysInv(cfg, s) && !step.Meddle?
    ensures |Do(cfg, s, step).peers| == |s.peers|
    ensures forall i :: 0 <= i < |s.peers| ==> Do(cfg, s, step).peers[i].outside == s.peers[i].outside
  {
    hide TablesInv;
    if step.Adapter? {
      if s.ram.Live? && s.flight.Calling? && s.ram.records[s.flight.rid].command.body.action.BlockIp? {
        var r := s.ram.records[s.flight.rid];
        SagaStepKeeps(s.peers, AddressOf(cfg, r.command), r.command.body.key, r.reference, s.flight.op,
                      s.flight.saga, step.luck);
      }
    } else if step.Backstop? {
      if step.peer < |s.peers| {
        var p := s.peers[step.peer];
        assert Put(p, step.addr, Timeout(Get(p, step.addr))).outside == p.outside;
      }
    } else {
      OthersLeavePeersAlone(cfg, s, step);
    }
  }

  lemma OthersLeavePeersAlone(cfg: Config, s: Sys, step: Step)
    requires !step.Adapter? && !step.Backstop? && !step.Meddle?
    ensures Do(cfg, s, step).peers == s.peers
  {
  }

  /** Without outsiders: what is on a peer was there before the first claim, or is being undone. */
  lemma NoOrphanWithoutOutsiders(cfg: Config, peers: seq<set<Addr>>, steps: Trace<Step>, i: nat, a: Addr)
    requires |peers| >= 2 && i < |peers| && Undisturbed(steps)
    ensures var s := Run(cfg, Boot(peers), steps);
            && |s.peers| == |peers|
            && (a in peers[i] ==> a in s.peers[i].present)
            && (a in s.peers[i].present ==>
                  || a in peers[i]
                  || exists rid :: rid in s.tables.records && Unresolved(s.tables.records[rid])
                                   && s.tables.records[rid].command.body.action.BlockIp?
                                   && AddressOf(cfg, s.tables.records[rid].command) == a)
  {
    OutsideIsInitial(cfg, peers, steps);
    NoOrphanedBlock(cfg, Run(cfg, Boot(peers), steps), i, a);
  }

  // ----- crash consistency -----------------------------------------------------------------------------

  /** A crash between any two steps: reopening refuses nothing, backfills nothing, and restores
      exactly the committed snapshots, which is what memory held up to the millisecond unless a
      checkpoint had raised. */
  lemma CrashRestoresCommitted(cfg: Config, s: Sys)
    requires Reachable(cfg, s)
    ensures Do(cfg, s, Crash) == s.(ram := Live(s.tables.records, map[]), flight := Idle)
    ensures s.ram.Live? ==>
              && s.ram.records.Keys == s.tables.records.Keys
              && forall rid :: rid in s.ram.records ==> s.tables.records[rid] == Snapshot(s.ram.records[rid])
  {
    ReachableHolds(cfg, s);
    CrashRestores(cfg, s);
    MemoryMirrors(cfg, s);
  }

  lemma CrashRestores(cfg: Config, s: Sys)
    requires SysInv(cfg, s)
    ensures Do(cfg, s, Crash) == s.(ram := Live(s.tables.records, map[]), flight := Idle)
  {
    CrashStep(cfg, s);
    ReopenYieldsCommitted(cfg, s);
  }

  lemma CrashStep(cfg: Config, s: Sys)
    ensures Do(cfg, s, Crash) == DoCrash(cfg, s)
  {
  }

  lemma MemoryMirrors(cfg: Config, s: Sys)
    requires SysInv(cfg, s)
    ensures Mirrors(s.ram, s.tables)
  {
  }

  /** A response whose adapter was ever called to apply is over, or the durable snapshot knows that
      something is left to undo and under which reference. */
  lemma AppliedIsRecoverable(cfg: Config, s: Sys, rid: Rid)
    requires Reachable(cfg, s) && CallsOf(s.calls, rid) != []
    ensures rid in s.tables.records
    ensures var r := s.tables.records[rid];
            r.reference != "" && (Terminal(r.state) || Unresolved(r))
  {
    ReachableHolds(cfg, s);
    assert RespAt(cfg, s.tables, s.calls, rid);
  }

  // ----- target exclusivity ----------------------------------------------------------------------------

  lemma TargetsAreExclusive(cfg: Config, s: Sys, x: Rid, y: Rid)
    requires Reachable(cfg, s) && x in s.tables.records && y in s.tables.records && x != y
    requires Unresolved(s.tables.records[x]) && Unresolved(s.tables.records[y])
    ensures IdentityOf(cfg, s.tables.records[x].command) != IdentityOf(cfg, s.tables.records[y].command)
  {
    ReachableHolds(cfg, s);
    assert Apart(cfg, s.tables, x, y);
  }

  // ----- one lifecycle and one apply for each key ------------------------------------------------------

  function Applies(calls: seq<CallEvent>): nat {
    if calls == [] then 0
    else Applies(calls[..|calls| - 1]) + (if calls[|calls| - 1] == Began(CallApply) then 1 else 0)
  }

  lemma {:induction false} AppliesOnlyFirst(calls: seq<CallEvent>)
    requires forall i :: 1 <= i < |calls| ==> calls[i] != Began(CallApply)
    ensures Applies(calls) <= 1
    ensures Applies(calls) == 1 ==> calls[0] == Began(CallApply)
  {
    if calls != [] { AppliesOnlyFirst(calls[..|calls| - 1]); }
  }

  /** Over a whole run the adapter is called to apply at most once for an idempotency key, and never
      without a durable intent. */
  lemma AtMostOneApply(cfg: Config, s: Sys, k: Key)
    requires Reachable(cfg, s)
    ensures Applies(CallsOf(s.calls, Rid(k))) <= 1
    ensures Applies(CallsOf(s.calls, Rid(k))) == 1 ==> Rid(k) in s.tables.intents
  {
    ReachableHolds(cfg, s);
    if Rid(k) in s.calls {
      assert RespAt(cfg, s.tables, s.calls, Rid(k));
      AppliesOnlyFirst(CallsOf(s.calls, Rid(k)));
    }
  }

  /** The dedup cache never decides anything: it is equivalent to "already recorded". */
  lemma CacheIsRecorded(cfg: Config, s: Sys, k: Key, now: int)
    requires Reachable(cfg, s) && s.ram.Live?
    ensures k in Prune(s.ram.dedup, now) || Rid(k) in s.ram.records <==> Rid(k) in s.tables.records
  {
    ReachableHolds(cfg, s);
  }

  /** A key that was ever recorded, in this process or before a restart, is never recorded again:
      resubmitting it changes no record, no audit event, no peer and no call. */
  lemma ResubmissionChangesNothing(cfg: Config, s: Sys, c: Command, now: int, io: Io)
    requires Reachable(cfg, s) && Rid(c.body.key) in s.tables.records
    ensures var s' := Do(cfg, s, Submit(c, now, io));
            && s'.tables == s.tables && s'.peers == s.peers && s'.calls == s.calls && s'.flight == s.flight
            && (s.ram.Live? ==> s'.ram.Live? && s'.ram.records == s.ram.records)
  {
    ReachableHolds(cfg, s);
  }

  // ----- transitions are always legal ------------------------------------------------------------------

  /** No transition the engine attempts is ever refused by the store: as long as the storage itself
      works, no operation ends with a poisoned process. */
  lemma NoCheckpointRefused(cfg: Config, s: Sys, step: Step)
    requires Reachable(cfg, s) && s.ram.Live? && IoOf(step).Commits?
    ensures Do(cfg, s, step).ram.Live?
  {
    ReachableHolds(cfg, s);
    StepKeeps(cfg, s, step);
  }

  /** Every trail in the journal is one the transition check accepts event by event. */
  lemma TrailsAreLegal(cfg: Config, s: Sys, rid: Rid)
    requires Reachable(cfg, s)
    ensures LegalHistory(Events(s.tables, rid))
  {
    ReachableHolds(cfg, s);
    if Events(s.tables, rid) != [] {
      HistoryIsOfResponse(s.tables.audit, rid, 0);
      assert RespAt(cfg, s.tables, s.calls, rid);
    }
  }

  /** No record is wedged: from any idle state a revert of an unresolved response can begin... */
  lemma RevertCanBegin(cfg: Config, s: Sys, rid: Rid, now: int)
    requires Reachable(cfg, s) && s.ram.Live? && s.flight.Idle?
    requires rid in s.ram.records && Unresolved(s.ram.records[rid])
    ensures var s' := Do(cfg, s, Rollback(rid, now, Manual, Commits));
            && s'.ram.Live? && s'.flight.Calling? && s'.flight.op.CallRevert? && s'.flight.rid == rid
            && s'.tables.records[rid] == Snapshot(Begun(s.ram.records[rid], OpRevert, now))
  {
    hide Core, Mirrors, RespInv;
    ReachableHolds(cfg, s);
    Stored(cfg, s, rid);
    BeginRevertLives(cfg, s, rid, now, Goal(RolledBack, Manual, None));
  }

  lemma BeginRevertLives(cfg: Config, s: Sys, rid: Rid, at: int, goal: Goal)
    requires Core(cfg, s) && s.ram.Live? && rid in s.ram.records && Unresolved(s.ram.records[rid])
    requires Terminal(goal.terminal) && (goal.terminal.Expired? ==> s.ram.records[rid].state.Verified?)
    ensures BeginRevert(s, s.ram.records[rid], at, goal, Commits).ram.Live?
  {
    BeginRevertKeeps(cfg, s, rid, at, goal, Commits);
  }

  /** ...and when the adapter proves the revert, the response ends in the state it was headed for. */
  lemma ProvenRevertEnds(cfg: Config, s: Sys)
    requires Reachable(cfg, s) && s.ram.Live? && s.flight.Calling? && s.flight.op.CallRevert?
    requires s.flight.saga.Returned? && Proved(s.flight.saga.outcome)
    ensures var rid := s.flight.rid;
            var s' := Do(cfg, s, Finish(Commits));
            && s'.ram.Live? && s'.flight.Idle?
            && rid in s'.tables.records
            && s'.tables.records[rid].state == s.flight.goal.terminal && Terminal(s.flight.goal.terminal)
            && !Unresolved(s'.tables.records[rid])
  {
    ReachableHolds(cfg, s);
    FinishLives(cfg, s);
    RevertResult(cfg, s);
    FinishStep(cfg, s);
  }

  lemma FinishStep(cfg: Config, s: Sys)
    requires s.ram.Live? && s.flight.Calling?
    ensures Do(cfg, s, Finish(Commits)) == DoFinish(s, Commits)
  {
  }

  lemma FinishLives(cfg: Config, s: Sys)
    requires SysInv(cfg, s) && s.ram.Live? && s.flight.Calling?
    ensures DoFinish(s, Commits).ram.Live?
  {
    FinishKeeps(cfg, s, Commits);
  }

  lemma RevertResult(cfg: Config, s: Sys)
    requires s.ram.Live? && s.flight.Calling? && s.flight.op.CallRevert? && s.flight.rid in s.ram.records
    requires s.ram.records[s.flight.rid].rid == s.flight.rid && Terminal(s.flight.goal.terminal)
    requires s.flight.saga.Returned? && Proved(s.flight.saga.outcome)
    ensures var rid := s.flight.rid;
            var s' := DoFinish(s, Commits);
            s'.ram.Live? ==>
              && rid in s'.tables.records && s'.flight.Idle?
              && s'.tables.records[rid].state == s.flight.goal.terminal && !Unresolved(s'.tables.records[rid])
  {
  }

  // ----- what a revert can achieve -----------------------------------------------------------------------

  /** A response with nothing left to undo owns no address on any peer. */
  lemma ResolvedOwnsNothing(cfg: Config, s: Sys, rid: Rid, i: nat, a: Addr)
    requires Reachable(cfg, s) && rid in s.tables.records && !Unresolved(s.tables.records[rid]) && i < |s.peers|
    ensures !Owns(s.peers[i], a, rid.key)
  {
    ReachableHolds(cfg, s);
    OwnershipIsAccounted(cfg, s, i, a, rid.key);
  }

  /** Because targets are exclusive, an address has at most one owner: the unresolved response it is
      the target of. */
  lemma OnlyOwner(cfg: Config, s: Sys, rid: Rid, i: nat, k: Key)
    requires Reachable(cfg, s) && i < |s.peers| && rid in s.tables.records && Unresolved(s.tables.records[rid])
    requires s.tables.records[rid].command.body.action.BlockIp?
    requires Owns(s.peers[i], AddressOf(cfg, s.tables.records[rid].command), k)
    ensures Rid(k) == rid
  {
    ReachableHolds(cfg, s);
    OwnershipIsAccounted(cfg, s, i, AddressOf(cfg, s.tables.records[rid].command), k);
    if Rid(k) != rid { TargetsAreExclusive(cfg, s, Rid(k), rid); }
  }

  /** Exactly when a peer that answers lets the revert of a stored block succeed: the address was not
      placed there by an outsider, or this response came to own it. Then nothing but an outsider's
      entry is left. Other responses never stand in the way. */
  lemma RevertConvergesExactly(cfg: Config, s: Sys, rid: Rid, i: nat)
    requires Reachable(cfg, s) && i < |s.peers| && rid in s.tables.records && Unresolved(s.tables.records[rid])
    requires s.tables.records[rid].command.body.action.BlockIp?
    ensures var a, p := AddressOf(cfg, s.tables.records[rid].command), s.peers[i];
            && (Revertible(p, a, rid.key) <==> a !in p.outside || Owns(p, a, rid.key))
            && (Revertible(p, a, rid.key) ==>
                  Get(Released(p, a, rid.key), a) == Cell(a in p.outside, map[], false, a in p.outside))
  {
    ReachableHolds(cfg, s);
    var a, p := AddressOf(cfg, s.tables.records[rid].command), s.peers[i];
    forall k | k in Get(p, a).owners ensures k == rid.key {
      assert Owns(p, a, k);
      OnlyOwner(cfg, s, rid, i, k);
    }
    SoleOwnerReleased(p, a, rid.key);
  }

  lemma SoleOwnerReleased(p: Peer, a: Addr, k: Key)
    requires PeerInv(p) && Get(p, a).owners.Keys <= {k}
    ensures Revertible(p, a, k) <==> a !in p.outside || Owns(p, a, k)
    ensures Revertible(p, a, k) ==> Get(Released(p, a, k), a) == Cell(a in p.outside, map[], false, a in p.outside)
  {
    var c := Get(p, a);
    assert CellInv(c);
    RemoveCompletes(c, k);
    PutGet(p, a, Complete(c, k, RemoveRead).0);
    assert c.owners - {k} == map[];
  }

  // ----- honest histories --------------------------------------------------------------------------------

  /** VERIFIED directly follows APPLIED; the one apply call had succeeded, and a later verify call
      had ended with evidence at the recorded instant, not after the expiry. */
  lemma VerifiedIsProven(cfg: Config, s: Sys, rid: Rid, i: nat)
    requires Reachable(cfg, s) && i < |Events(s.tables, rid)| && Events(s.tables, rid)[i].state == Verified
    ensures i > 0 && Events(s.tables, rid)[i - 1].state == Applied
    ensures var calls := CallsOf(s.calls, rid);
            && |calls| >= 2 && calls[0] == Began(CallApply)
            && calls[1].Ended? && calls[1].op.CallApply? && ApplySucceeded(calls[1].outcome)
            && exists j :: 2 <= j < |calls| && Witnesses(calls[j], Events(s.tables, rid)[i])
  {
    ReachableHolds(cfg, s);
    HistoryIsOfResponse(s.tables.audit, rid, i);
    assert RespAt(cfg, s.tables, s.calls, rid);
    LegalShape(Events(s.tables, rid), i);
    assert HasApplication(Events(s.tables, rid));
  }

  /** EXPIRED directly follows VERIFIED. */
  lemma ExpiredFollowsVerified(cfg: Config, s: Sys, rid: Rid, i: nat)
    requires Reachable(cfg, s) && i < |Events(s.tables, rid)| && Events(s.tables, rid)[i].state == Expired
    ensures i > 0 && Events(s.tables, rid)[i - 1].state == Verified
  {
    TrailsAreLegal(cfg, s, rid);
    LegalShape(Events(s.tables, rid), i);
  }

  /** A response that is over ended with a proven revert, the last privileged call made for it; one
      without an adapter reference was never touched. */
  lemma EndsAreProven(cfg: Config, s: Sys, rid: Rid)
    requires Reachable(cfg, s) && rid in s.tables.records
    ensures var calls := CallsOf(s.calls, rid);
            && (Terminal(s.tables.records[rid].state) ==>
                  && calls != []
                  && var c := calls[|calls| - 1]; c.Ended? && c.op.CallRevert? && Proved(c.outcome))
            && (s.tables.records[rid].reference == "" ==> calls == [])
  {
    ReachableHolds(cfg, s);
    assert RespAt(cfg, s.tables, s.calls, rid);
  }

  // ----- queued commands ---------------------------------------------------------------------------------

  /** Exactly when apply of a queued command changes nothing, whatever the storage does: it is still
      authorized and another response holds its target. */
  lemma BusyRefusals(cfg: Config, s: Sys, rid: Rid, now: int)
    requires s.ram.Live? && s.flight.Idle? && rid in s.ram.records && Queued(s.ram.records[rid])
    ensures var r := s.ram.records[rid];
            (forall io {:trigger Do(cfg, s, Apply(rid, now, io))} :: Do(cfg, s, Apply(rid, now, io)) == s)
            <==> StillAuthorized(cfg, r, now) && Busy(cfg, s.ram.records, r.rid, r.command)
  {
    if forall io {:trigger Do(cfg, s, Apply(rid, now, io))} :: Do(cfg, s, Apply(rid, now, io)) == s {
      assert Do(cfg, s, Apply(rid, now, LostBefore)) == s;
    }
  }

  /** A command that is authorized now stays so exactly until the first of its two deadlines. */
  lemma AuthorizedUntilDeadlines(cfg: Config, r: Record, now: int, later: int)
    requires StillAuthorized(cfg, r, now) && now <= later
    ensures StillAuthorized(cfg, r, later) <==>
              later < r.expiresAt && later < r.command.body.authorization.expiresAt
  {
  }

  /** After either deadline apply takes the command out of the queue, for good and without calling
      any adapter. */
  lemma StarvationEnds(cfg: Config, s: Sys, rid: Rid, now: int)
    requires Reachable(cfg, s) && s.ram.Live? && s.flight.Idle?
    requires rid in s.ram.records && Queued(s.ram.records[rid])
    requires var r := s.ram.records[rid];
             now >= r.expiresAt || now >= r.command.body.authorization.expiresAt
    ensures var s' := Do(cfg, s, Apply(rid, now, Commits));
            && s'.ram.Live? && s'.calls == s.calls && s'.peers == s.peers
            && s'.ram.records == s.ram.records[rid := Moved(s.ram.records[rid], FailedState, false)]
            && !Queued(s'.ram.records[rid]) && !Unresolved(s'.ram.records[rid])
  {
    ReachableHolds(cfg, s);
    Stored(cfg, s, rid);
    ApplyAfterDeadline(cfg, s, rid, now);
    var code := if now >= s.ram.records[rid].expiresAt then "EXPIRED_BEFORE_APPLY" else "REAUTHORIZATION_FAILED";
    FailCommits(cfg, s, rid, now, code);
  }

  lemma ApplyAfterDeadline(cfg: Config, s: Sys, rid: Rid, now: int)
    requires s.ram.Live? && s.flight.Idle? && rid in s.ram.records && Queued(s.ram.records[rid])
    requires var r := s.ram.records[rid];
             now >= r.expiresAt || now >= r.command.body.authorization.expiresAt
    ensures var r := s.ram.records[rid];
            var code := if now >= r.expiresAt then "EXPIRED_BEFORE_APPLY" else "REAUTHORIZATION_FAILED";
            Do(cfg, s, Apply(rid, now, Commits)) == Fail(s, r, now, code, Commits)
  {
  }

  lemma FailCommits(cfg: Config, s: Sys, rid: Rid, at: int, code: string)
    requires Core(cfg, s) && s.ram.Live? && rid in s.ram.records && Queued(s.ram.records[rid])
    requires Shape(Snapshot(s.ram.records[rid]), rid in s.tables.intents)
    ensures var s' := Fail(s, s.ram.records[rid], at, code, Commits);
            var r' := Moved(s.ram.records[rid], FailedState, false);
            && s'.ram == Live(s.ram.records[rid := r'], s.ram.dedup)
            && s'.calls == s.calls && s'.peers == s.peers && !Queued(r') && !Unresolved(r')
  {
    hide Core, SysInv, RespInv;
    FailKeeps(cfg, s, rid, at, code, Commits);
    Stored(cfg, s, rid);
  }

  // ----- what a stored block is aimed at ------------------------------------------------------------------

  /** A block names an address. */
  predicate Aimed(cfg: Config, c: Command) {
    c.body.action.BlockIp? ==> c.body.target.kind.IpTarget? && cfg.text.ip(c.body.target.value).Some?
  }

  predicate AllAimed(cfg: Config, records: map<Rid, Record>) {
    forall rid :: rid in records ==> Aimed(cfg, records[rid].command)
  }

  predicate SysAimed(cfg: Config, s: Sys) {
    AllAimed(cfg, s.tables.records) && (s.ram.Live? ==> AllAimed(cfg, s.ram.records))
  }

  lemma SaveKeepsAim(cfg: Config, s: Sys, r: Record, event: Option<Event>, io: Io, flight: Flight,
                     calls: map<Rid, seq<CallEvent>>)
    requires s.ram.Live? && SysAimed(cfg, s) && Aimed(cfg, r.command)
    ensures SysAimed(cfg, Save(s, r, event, io, flight, calls))
  {
    hide CheckpointAccepts, Aimed;
  }

  lemma FailKeepsAim(cfg: Config, s: Sys, rid: Rid, at: int, code: string, io: Io)
    requires s.ram.Live? && SysAimed(cfg, s) && rid in s.ram.records
    ensures SysAimed(cfg, Fail(s, s.ram.records[rid], at, code, io))
  {
    hide Save, Aimed;
    var r := s.ram.records[rid];
    var event := NextEvent(r, FailedState, at, NoDetail.(failure := Some(code)));
    SaveKeepsAim(cfg, s, Moved(r, FailedState, false), Some(event), io, Idle, s.calls);
  }

  lemma BeginRevertKeepsAim(cfg: Config, s: Sys, rid: Rid, at: int, goal: Goal, io: Io)
    requires s.ram.Live? && SysAimed(cfg, s) && rid in s.ram.records
    ensures SysAimed(cfg, BeginRevert(s, s.ram.records[rid], at, goal, io))
  {
    hide Save, Aimed;
    var r := s.ram.records[rid];
    SaveKeepsAim(cfg, s, Begun(r, OpRevert, at), None, io,
                 Calling(CallRevert, r.rid, at, goal, StartSaga(r.command, CallRevert)),
                 Log(s.calls, r.rid, Began(CallRevert)));
  }

  lemma SubmitKeepsAim(cfg: Config, s: Sys, c: Command, now: int, io: Io)
    requires s.ram.Live? && SysAimed(cfg, s)
    ensures SysAimed(cfg, DoSubmit(cfg, s, c, now, io))
  {
    hide Save;
    if ValidCommand(cfg, c, now) {
      var first := FirstRecord(c, now);
      var dedup := Prune(s.ram.dedup, now)[c.body.key := now + cfg.catalog.dedupSeconds * SECOND];
      SaveKeepsAim(cfg, s.(ram := Live(s.ram.records, dedup)), Moved(first, Requested, false),
                   Some(NextEvent(first, Requested, now, NoDetail)), io, Submitting(first.rid, now), s.calls);
    }
  }

  lemma DecideKeepsAim(cfg: Config, s: Sys, io: Io)
    requires s.ram.Live? && s.flight.Submitting? && SysAimed(cfg, s)
    ensures SysAimed(cfg, DoDecide(cfg, s, io))
  {
    hide Save, Fail, Aimed;
    if s.flight.rid in s.ram.records {
      var r := s.ram.records[s.flight.rid];
      FailKeepsAim(cfg, s, s.flight.rid, s.flight.at, "TARGET_PROTECTED", io);
      FailKeepsAim(cfg, s, s.flight.rid, s.flight.at, "RATE_LIMITED", io);
      assert Aimed(cfg, r.(authorized := true).command);
      SaveKeepsAim(cfg, s, r.(authorized := true), None, io, Idle, s.calls);
    }
  }

  lemma ApplyKeepsAim(cfg: Config, s: Sys, rid: Rid, now: int, io: Io)
    requires s.ram.Live? && SysAimed(cfg, s)
    ensures SysAimed(cfg, DoApply(cfg, s, rid, now, io))
  {
    hide Save, Fail, Aimed;
    if rid in s.ram.records {
      var r := s.ram.records[rid];
      FailKeepsAim(cfg, s, rid, now, "EXPIRED_BEFORE_APPLY", io);
      FailKeepsAim(cfg, s, rid, now, "REAUTHORIZATION_FAILED", io);
      var r' := Begun(r.(reference := RecoveryReference(r.command.body.action, r.command.body.key)), OpApply, now);
      SaveKeepsAim(cfg, s, r', None, io, Calling(CallApply, r.rid, now, NoGoal, StartSaga(r.command, CallApply)),
                   Log(s.calls, r.rid, Began(CallApply)));
    }
  }

  lemma RevertingKeepsAim(cfg: Config, s: Sys, step: Step)
    requires s.ram.Live? && s.flight.Idle? && SysAimed(cfg, s)
    requires step.Verify? || step.Expire? || step.Rollback? || step.Recover?
    ensures SysAimed(cfg, Do(cfg, s, step))
  {
    hide BeginRevert, Aimed;
    if step.rid in s.ram.records {
      forall goal ensures SysAimed(cfg, BeginRevert(s, s.ram.records[step.rid], step.now, goal, step.io)) {
        BeginRevertKeepsAim(cfg, s, step.rid, step.now, goal, step.io);
      }
    }
  }

  lemma FinishKeepsAim(cfg: Config, s: Sys, io: Io)
    requires s.ram.Live? && s.flight.Calling? && SysAimed(cfg, s)
    ensures SysAimed(cfg, DoFinish(s, io))
  {
    hide Save, Fail, BeginRevert, Aimed;
    var f := s.flight;
    if f.rid in s.ram.records && f.saga.Returned? {
      var r, o := s.ram.records[f.rid], f.saga.outcome;
      var ended := s.(calls := Log(s.calls, f.rid, Ended(f.op, o, f.at)));
      FailKeepsAim(cfg, ended, f.rid, f.at, if f.op.CallApply? then "ADAPTER_APPLY_FAILED" else RevertCode(f.goal), io);
      BeginRevertKeepsAim(cfg, ended, f.rid, f.at, Goal(RolledBack, FailedVerification, Some("VERIFICATION_FAILED")), io);
      forall r': Record, event | r'.command == r.command
        ensures SysAimed(cfg, Save(ended, r', event, io, Idle, ended.calls))
      {
        SaveKeepsAim(cfg, ended, r', event, io, Idle, ended.calls);
      }
    }
  }

  lemma StepKeepsAim(cfg: Config, s: Sys, step: Step)
    requires SysAimed(cfg, s)
    ensures SysAimed(cfg, Do(cfg, s, step))
  {
    hide DoSubmit, DoDecide, DoApply, DoFinish, SagaStep, Put, OpenAccepts, Aimed;
    match step
    case Submit(c, now, io) => if s.ram.Live? && s.flight.Idle? { SubmitKeepsAim(cfg, s, c, now, io); }
    case Decide(io) => if s.ram.Live? && s.flight.Submitting? { DecideKeepsAim(cfg, s, io); }
    case Apply(rid, now, io) => if s.ram.Live? && s.flight.Idle? { ApplyKeepsAim(cfg, s, rid, now, io); }
    case Finish(io) => if s.ram.Live? && s.flight.Calling? { FinishKeepsAim(cfg, s, io); }
    case Verify(_, _, _) => if s.ram.Live? && s.flight.Idle? { RevertingKeepsAim(cfg, s, step); }
    case Expire(_, _, _) => if s.ram.Live? && s.flight.Idle? { RevertingKeepsAim(cfg, s, step); }
    case Rollback(_, _, _, _) => if s.ram.Live? && s.flight.Idle? { RevertingKeepsAim(cfg, s, step); }
    case Recover(_, _, _) => if s.ram.Live? && s.flight.Idle? { RevertingKeepsAim(cfg, s, step); }
    case _ =>
  }

  lemma {:induction false} RunKeepsAim(cfg: Config, peers: seq<set<Addr>>, steps: Trace<Step>)
    ensures SysAimed(cfg, Run(cfg, Boot(peers), steps))
  {
    if steps.Then? {
      RunKeepsAim(cfg, peers, steps.before);
      StepKeepsAim(cfg, Run(cfg, Boot(peers), steps.before), steps.step);
    }
  }

  /** In every run a stored block names an address, so that a call for it reaches the firewalls. */
  lemma StoredBlocksAreAimed(cfg: Config, s: Sys, rid: Rid)
    requires Reachable(cfg, s) && s.ram.Live? && rid in s.ram.records
    ensures Aimed(cfg, s.ram.records[rid].command)
  {
    var peers: seq<set<Addr>>, steps :| |peers| >= 2 && Run(cfg, Boot(peers), steps) == s;
    RunKeepsAim(cfg, peers, steps);
  }
}
