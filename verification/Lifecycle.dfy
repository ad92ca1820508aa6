/**
 * The response lifecycle with crash recovery (response/orchestrator/engine.py), as a machine.
 *
 * One step of the machine is one durable transaction, one step of an adapter call, or one thing
 * that happens to the process or to a firewall. The process may stop between any two steps, any
 * transaction may raise with or without having committed, and any adapter call may raise anywhere.
 * A step that is not enabled, or that the engine refuses by raising, changes nothing.
 */
module Lifecycle {
  import opened Wrappers
  import opened Policy
  import opened Ownership
  import opened Blocklist
  import opened Audit
  import opened Store

  /** Memory of the process. After a checkpoint that raised, memory may be stale and is never read
      again. */
  datatype Ram = Live(records: map<Rid, Record>, dedup: map<Key, int>) | Poisoned

  /** What a revert will record when it succeeds. */
  datatype Goal = Goal(terminal: State, cause: Cause, failure: Option<string>)

  const NoGoal := Goal(RolledBack, Recovery, None)

  datatype Flight =
    | Idle
    | Submitting(rid: Rid, at: int)
    | Calling(op: CallOp, rid: Rid, at: int, goal: Goal, saga: Saga)

  /** The observer's trace of privileged calls; the process does not store it. */
  datatype CallEvent = Began(op: CallOp) | Ended(op: CallOp, outcome: Outcome, at: int)

  datatype Sys = Sys(
    tables: Tables, ram: Ram, flight: Flight, peers: seq<Peer>, calls: map<Rid, seq<CallEvent>>)

  datatype Step =
    | Submit(command: Command, now: int, io: Io)
    | Decide(io: Io)
    | Apply(rid: Rid, now: int, io: Io)
    | Verify(rid: Rid, now: int, io: Io)
    | Expire(rid: Rid, now: int, io: Io)
    | Rollback(rid: Rid, now: int, cause: Cause, io: Io)
    | Recover(rid: Rid, now: int, io: Io)
    | Adapter(luck: Luck)
    | HostReply(outcome: Outcome)
    | Escape
    | Finish(io: Io)
    | Interrupt
    | Crash
    | Backstop(peer: nat, addr: Addr)
    | Meddle(peer: nat, addr: Addr, present: bool)

  function CallsOf(calls: map<Rid, seq<CallEvent>>, rid: Rid): seq<CallEvent> {
    if rid in calls then calls[rid] else []
  }

  function Log(calls: map<Rid, seq<CallEvent>>, rid: Rid, e: CallEvent): map<Rid, seq<CallEvent>> {
    calls[rid := CallsOf(calls, rid) + [e]]
  }

  // Nothing below touches a peer until an adapter call steps.

  // ----- transitions -------------------------------------------------------------------------------

  /** AuditEventFactory.build for the next transition of a record. */
  function NextEvent(r: Record, state: State, at: int, detail: Detail): Event {
    var b := r.command.body;
    Event(r.rid, r.number + 1, state, if r.number == 0 then None else Some(r.state),
          FloorMs(at), b.policyId, b.key, b.target, b.action, FloorMs(r.expiresAt), detail,
          if r.pending.Some? then Some(Intent(r.pending.value, r.startedAt, r.reference)) else None)
  }

  function Moved(r: Record, state: State, clearIntent: bool): Record {
    var moved := r.(state := state, number := r.number + 1);
    if clearIntent then moved.(pending := None, startedAt := None) else moved
  }

  function Begun(r: Record, operation: Operation, at: int): Record {
    r.(pending := Some(operation), startedAt := Some(FloorMs(at)))
  }

  /** Checkpoint a record. Only a commit lets the process go on, to `flight` and with `calls`. */
  function Save(s: Sys, r: Record, event: Option<Event>, io: Io, flight: Flight,
                calls: map<Rid, seq<CallEvent>>): (s': Sys)
    requires s.ram.Live?
    ensures s'.peers == s.peers
  {
    var snapshot := Snapshot(r);
    if !CheckpointAccepts(s.tables, snapshot, event) || io.LostBefore? then
      s.(ram := Poisoned, flight := Idle)
    else if io.LostAfter? then
      s.(tables := Committed(s.tables, snapshot, event), ram := Poisoned, flight := Idle)
    else
      s.(tables := Committed(s.tables, snapshot, event),
         ram := Live(s.ram.records[r.rid := r], s.ram.dedup), flight := flight, calls := calls)
  }

  function Fail(s: Sys, r: Record, at: int, code: string, io: Io): (s': Sys)
    requires s.ram.Live?
    ensures s'.peers == s.peers
  {
    Save(s, Moved(r, FailedState, false),
         Some(NextEvent(r, FailedState, at, NoDetail.(failure := Some(code)))), io, Idle, s.calls)
  }

  function StartSaga(c: Command, op: CallOp): Saga {
    if c.body.action.BlockIp? then StartOf(op) else AtHost
  }

  function BeginRevert(s: Sys, r: Record, at: int, goal: Goal, io: Io): (s': Sys)
    requires s.ram.Live?
    ensures s'.peers == s.peers
  {
    Save(s, Begun(r, OpRevert, at), None, io,
         Calling(CallRevert, r.rid, at, goal, StartSaga(r.command, CallRevert)),
         Log(s.calls, r.rid, Began(CallRevert)))
  }

  /** The reference and the intent are durable before the adapter is called. */
  function BeginApply(s: Sys, r: Record, at: int, io: Io): (s': Sys)
    requires s.ram.Live?
    ensures s'.peers == s.peers
  {
    var r' := r.(reference := RecoveryReference(r.command.body.action, r.command.body.key));
    Save(s, Begun(r', OpApply, at), None, io,
         Calling(CallApply, r.rid, at, NoGoal, StartSaga(r.command, CallApply)),
         Log(s.calls, r.rid, Began(CallApply)))
  }

  // ----- the public operations, up to their first privileged call ----------------------------------

  function Prune(dedup: map<Key, int>, now: int): map<Key, int> {
    map k | k in dedup && dedup[k] > now :: dedup[k]
  }

  /** The record of a new response before its first transition. */
  function FirstRecord(c: Command, now: int): Record {
    Record(Rid(c.body.key), c, now + c.body.ttlSeconds * SECOND, Requested, 0, "", false, None, None)
  }

  /** The first checkpoint of a new response; `dedup` is the pruned cache. */
  function Accept(cfg: Config, s: Sys, c: Command, now: int, dedup: map<Key, int>, io: Io): (s': Sys)
    requires s.ram.Live?
    ensures s'.peers == s.peers
  {
    var first := FirstRecord(c, now);
    var dedup' := dedup[c.body.key := now + cfg.catalog.dedupSeconds * SECOND];
    Save(s.(ram := Live(s.ram.records, dedup')), Moved(first, Requested, false),
         Some(NextEvent(first, Requested, now, NoDetail)), io, Submitting(first.rid, now), s.calls)
  }

  function DoSubmit(cfg: Config, s: Sys, c: Command, now: int, io: Io): (s': Sys)
    requires s.ram.Live?
    ensures s'.peers == s.peers
  {
    if !ValidCommand(cfg, c, now) then s
    else
      var dedup := Prune(s.ram.dedup, now);
      if c.body.key in dedup || Rid(c.body.key) in s.ram.records then s.(ram := Live(s.ram.records, dedup))
      else Accept(cfg, s, c, now, dedup, io)
  }

  predicate OverBudget(cfg: Config, t: Tables, policyId: string, at: int) {
    RequestedSince(t.admissions, policyId, at - cfg.catalog.windowSeconds * SECOND) > cfg.catalog.maxActions
  }

  predicate Allowed(cfg: Config, c: Command) {
    TargetAllowed(cfg.text, cfg.catalog.protections, c.body.action, c.body.target)
  }

  function DoDecide(cfg: Config, s: Sys, io: Io): (s': Sys)
    requires s.ram.Live? && s.flight.Submitting?
    ensures s'.peers == s.peers
  {
    if s.flight.rid !in s.ram.records then s
    else
      var r, at := s.ram.records[s.flight.rid], s.flight.at;
      if !Allowed(cfg, r.command) then Fail(s, r, at, "TARGET_PROTECTED", io)
      else if OverBudget(cfg, s.tables, r.command.body.policyId, at) then Fail(s, r, at, "RATE_LIMITED", io)
      else Save(s, r.(authorized := true), None, io, Idle, s.calls)
  }

  /** Another response holds the same target and has something left to undo. */
  predicate Busy(cfg: Config, records: map<Rid, Record>, rid: Rid, c: Command) {
    exists other :: other in records && records[other].rid != rid && Unresolved(records[other])
                    && IdentityOf(cfg, records[other].command) == IdentityOf(cfg, c)
  }

  /** The queue test of apply: the only records whose adapter may be called to apply. */
  predicate Queued(r: Record) {
    r.state.Requested? && r.authorized && r.reference == ""
  }

  predicate StillAuthorized(cfg: Config, r: Record, now: int) {
    now < r.expiresAt && ValidCommand(cfg, r.command, now) && Allowed(cfg, r.command)
  }

  function DoApply(cfg: Config, s: Sys, rid: Rid, now: int, io: Io): (s': Sys)
    requires s.ram.Live?
    ensures s'.peers == s.peers
  {
    if rid !in s.ram.records || !Queued(s.ram.records[rid]) then s
    else
      var r := s.ram.records[rid];
      if now >= r.expiresAt then Fail(s, r, now, "EXPIRED_BEFORE_APPLY", io)
      else if !StillAuthorized(cfg, r, now) then Fail(s, r, now, "REAUTHORIZATION_FAILED", io)
      else if Busy(cfg, s.ram.records, r.rid, r.command) then s
      else BeginApply(s, r, now, io)
  }

  function DoVerify(s: Sys, rid: Rid, now: int, io: Io): (s': Sys)
    requires s.ram.Live?
    ensures s'.peers == s.peers
  {
    if rid !in s.ram.records then s
    else
      var r := s.ram.records[rid];
      if !r.state.Applied? || r.pending.Some? then s
      else if now >= r.expiresAt then BeginRevert(s, r, now, Goal(RolledBack, TtlExpired, None), io)
      else s.(flight := Calling(CallVerify, r.rid, now, NoGoal, StartSaga(r.command, CallVerify)),
              calls := Log(s.calls, r.rid, Began(CallVerify)))
  }

  function DoExpire(s: Sys, rid: Rid, now: int, io: Io): (s': Sys)
    requires s.ram.Live?
    ensures s'.peers == s.peers
  {
    if rid !in s.ram.records then s
    else
      var r := s.ram.records[rid];
      if !Unresolved(r) || now < r.expiresAt then s
      else
        var terminal := if r.state.Verified? then Expired else RolledBack;
        BeginRevert(s, r, now, Goal(terminal, TtlExpired, None), io)
  }

  function DoRollback(s: Sys, rid: Rid, now: int, cause: Cause, io: Io): (s': Sys)
    requires s.ram.Live?
    ensures s'.peers == s.peers
  {
    if rid !in s.ram.records || cause !in {Manual, Recovery} then s
    else
      var r := s.ram.records[rid];
      if !Unresolved(r) then s else BeginRevert(s, r, now, Goal(RolledBack, cause, None), io)
  }

  function DoRecover(s: Sys, rid: Rid, now: int, io: Io): (s': Sys)
    requires s.ram.Live?
    ensures s'.peers == s.peers
  {
    if rid !in s.ram.records then s
    else
      var r := s.ram.records[rid];
      if r.pending.None? then s else BeginRevert(s, r, now, Goal(RolledBack, Recovery, None), io)
  }

  // ----- during and after a privileged call -----------------------------------------------------------

  function DoAdapter(cfg: Config, s: Sys, luck: Luck): Sys
    requires s.ram.Live? && s.flight.Calling?
  {
    if s.flight.rid !in s.ram.records then s
    else
      var r := s.ram.records[s.flight.rid];
      if !r.command.body.action.BlockIp? then s
      else
        var (peers', saga') := SagaStep(s.peers, AddressOf(cfg, r.command), r.command.body.key,
                                        r.reference, s.flight.saga, luck);
        s.(peers := peers', flight := s.flight.(saga := saga'))
  }

  /** The application on record, if the trail has one. */
  function LastApplication(h: seq<Event>): Option<Application> {
    if h == [] then None
    else if h[|h| - 1].detail.application.Some? then h[|h| - 1].detail.application
    else LastApplication(h[..|h| - 1])
  }

  predicate ApplySucceeded(o: Outcome) {
    o.ok && o.reference != ""
  }

  predicate Proved(o: Outcome) {
    o.ok && o.evidence > 0
  }

  function FinishApply(s: Sys, r: Record, at: int, o: Outcome, io: Io): (s': Sys)
    requires s.ram.Live?
    ensures s'.peers == s.peers
  {
    if !ApplySucceeded(o) then Fail(s, r, at, "ADAPTER_APPLY_FAILED", io)
    else
      var r' := r.(reference := o.reference);
      var detail := NoDetail.(application := Some(Application(FloorMs(at), o.reference)));
      Save(s, Moved(r', Applied, true), Some(NextEvent(r', Applied, at, detail)), io, Idle, s.calls)
  }

  function FinishVerify(s: Sys, r: Record, at: int, o: Outcome, io: Io): (s': Sys)
    requires s.ram.Live?
    ensures s'.peers == s.peers
  {
    var application := LastApplication(Events(s.tables, r.rid));
    if !Proved(o) then
      BeginRevert(s, r, at, Goal(RolledBack, FailedVerification, Some("VERIFICATION_FAILED")), io)
    else if application.None? then s.(flight := Idle)
    else
      var detail := NoDetail.(application := Some(Application(application.value.appliedAt, r.reference)),
                              verification := Some(Verification(FloorMs(at), o.evidence)));
      Save(s, Moved(r, Verified, false), Some(NextEvent(r, Verified, at, detail)), io, Idle, s.calls)
  }

  function RevertCode(goal: Goal): string {
    if goal.cause.FailedVerification? then "VERIFY_AND_ROLLBACK_FAILED" else "ADAPTER_REVERT_FAILED"
  }

  function FinishRevert(s: Sys, r: Record, at: int, goal: Goal, o: Outcome, io: Io): (s': Sys)
    requires s.ram.Live?
    ensures s'.peers == s.peers
  {
    if !Proved(o) then Fail(s, r, at, RevertCode(goal), io)
    else
      var detail := Detail(LastApplication(Events(s.tables, r.rid)), None,
                           Some(Reversal(FloorMs(at), goal.cause, o.evidence)), goal.failure);
      Save(s, Moved(r, goal.terminal, true), Some(NextEvent(r, goal.terminal, at, detail)), io, Idle, s.calls)
  }

  function DoFinish(s: Sys, io: Io): (s': Sys)
    requires s.ram.Live? && s.flight.Calling?
    ensures s'.peers == s.peers
  {
    if s.flight.rid !in s.ram.records || !s.flight.saga.Returned? then s
    else
      var f, r, o := s.flight, s.ram.records[s.flight.rid], s.flight.saga.outcome;
      var ended := s.(calls := Log(s.calls, f.rid, Ended(f.op, o, f.at)));
      match f.op
      case CallApply => FinishApply(ended, r, f.at, o, io)
      case CallVerify => FinishVerify(ended, r, f.at, o, io)
      case CallRevert => FinishRevert(ended, r, f.at, f.goal, o, io)
  }

  // ----- the world around the process --------------------------------------------------------------------

  /** Stop at any point; reopen the store, which refuses a journal it cannot explain. */
  function DoCrash(cfg: Config, s: Sys): (s': Sys)
    ensures s'.peers == s.peers
  {
    var t := Backfill(s.tables);
    s.(tables := t, flight := Idle,
       ram := if OpenAccepts(cfg, t) then Live(t.records, map[]) else Poisoned)
  }

  /** The peer and address on which a first claim is between its check and its claim. */
  predicate DecidingAt(cfg: Config, s: Sys, i: nat, a: Addr) {
    && s.ram.Live? && s.flight.Calling? && s.flight.rid in s.ram.records
    && AddressOf(cfg, s.ram.records[s.flight.rid].command) == a
    && PeerOf(s.flight.saga) == i
    && ClientPc(s.flight.saga).Some? && Deciding(ClientPc(s.flight.saga).value)
  }

  function OnCell(s: Sys, i: nat, a: Addr, c: Cell): Sys
    requires i < |s.peers|
  {
    s.(peers := s.peers[i := Put(s.peers[i], a, c)])
  }

  function Do(cfg: Config, s: Sys, step: Step): Sys {
    match step
    case Submit(c, now, io) => if s.ram.Live? && s.flight.Idle? then DoSubmit(cfg, s, c, now, io) else s
    case Decide(io) => if s.ram.Live? && s.flight.Submitting? then DoDecide(cfg, s, io) else s
    case Apply(rid, now, io) => if s.ram.Live? && s.flight.Idle? then DoApply(cfg, s, rid, now, io) else s
    case Verify(rid, now, io) => if s.ram.Live? && s.flight.Idle? then DoVerify(s, rid, now, io) else s
    case Expire(rid, now, io) => if s.ram.Live? && s.flight.Idle? then DoExpire(s, rid, now, io) else s
    case Rollback(rid, now, cause, io) =>
      if s.ram.Live? && s.flight.Idle? then DoRollback(s, rid, now, cause, io) else s
    case Recover(rid, now, io) => if s.ram.Live? && s.flight.Idle? then DoRecover(s, rid, now, io) else s
    case Adapter(luck) => if s.ram.Live? && s.flight.Calling? then DoAdapter(cfg, s, luck) else s
    case HostReply(o) =>
      if s.ram.Live? && s.flight.Calling? && s.flight.saga.AtHost?
      then s.(flight := s.flight.(saga := Returned(o))) else s
    case Escape =>
      if s.ram.Live? && s.flight.Calling? && !s.flight.saga.Returned?
      then s.(flight := s.flight.(saga := Failure(0))) else s
    case Finish(io) => if s.ram.Live? && s.flight.Calling? then DoFinish(s, io) else s
    case Interrupt => s.(flight := Idle)
    case Crash => DoCrash(cfg, s)
    case Backstop(i, a) => if i < |s.peers| then OnCell(s, i, a, Timeout(Get(s.peers[i], a))) else s
    case Meddle(i, a, present) =>
      if i < |s.peers| && !DecidingAt(cfg, s, i, a)
      then OnCell(s, i, a, Outsider(Get(s.peers[i], a), present)) else s
  }

  function Run(cfg: Config, s: Sys, steps: Trace<Step>): Sys {
    match steps
    case Start => s
    case Then(before, step) => Do(cfg, Run(cfg, s, before), step)
  }

  /** A new store, and peers on which the response plane has never claimed anything. */
  function Boot(peers: seq<set<Addr>>): Sys {
    Sys(EmptyTables, Live(map[], map[]), Idle,
        seq(|peers|, i requires 0 <= i < |peers| => Peer(peers[i], map[], {}, peers[i])), map[])
  }
}
