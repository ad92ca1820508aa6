/**
 * The response orchestrator as the source writes it (response/orchestrator/engine.py): an object
 * over the durable store and the adapters. What each public method does is recorded as a run of the
 * lifecycle machine, so everything proved of runs holds of the object.
 */
module Engine {
  import opened Wrappers
  import opened Policy
  import opened Ownership
  import opened Blocklist
  import opened BlocklistAdapters
  import opened Audit
  import opened Store
  import opened ResponseStores
  import opened Lifecycle
  import opened LifecycleSteps
  import opened LifecycleTheorems

  /** A recorded run of the machine: where it began, its steps, and where it stands. */
  datatype SysTrail = SysTrail(was: Sys, steps: Trace<Step>, sys: Sys)

  predicate SysSound(cfg: Config, t: SysTrail) {
    Run(cfg, t.was, t.steps) == t.sys
  }

  function SysBegin(cfg: Config, s: Sys): (t: SysTrail)
    ensures SysSound(cfg, t) && t.was == t.sys == s
  {
    SysTrail(s, Trace.Start, s)
  }

  function SysNext(cfg: Config, t: SysTrail, step: Step): (t': SysTrail)
    requires SysSound(cfg, t)
    ensures SysSound(cfg, t') && t'.was == t.was && t'.sys == Do(cfg, t.sys, step)
  {
    SysTrail(t.was, Then(t.steps, step), Do(cfg, t.sys, step))
  }

  /** One run after another. */
  lemma SysJoin(cfg: Config, t: SysTrail, u: SysTrail) returns (t': SysTrail)
    requires SysSound(cfg, t) && SysSound(cfg, u) && u.was == t.sys
    ensures SysSound(cfg, t') && t'.was == t.was && t'.sys == u.sys
  {
    RunAppend(cfg, t.was, t.steps, u.steps);
    t' := SysTrail(t.was, Append(t.steps, u.steps), u.sys);
  }

  // ----- a whole adapter call inside a run --------------------------------------------------------------

  function AdapterSteps(lucks: Trace<Luck>): Trace<Step> {
    match lucks
    case Start => Trace.Start
    case Then(before, luck) => Then(AdapterSteps(before), Adapter(luck))
  }

  lemma {:induction false} RunAppend(cfg: Config, s: Sys, first: Trace<Step>, second: Trace<Step>)
    ensures Run(cfg, s, Append(first, second)) == Run(cfg, Run(cfg, s, first), second)
  {
    if second.Then? { RunAppend(cfg, s, first, second.before); }
  }

  lemma RunsCompose(cfg: Config, s: Sys, steps: Trace<Step>)
    requires Reachable(cfg, s)
    ensures Reachable(cfg, Run(cfg, s, steps))
  {
    var peers: seq<set<Addr>>, first :| |peers| >= 2 && Run(cfg, Boot(peers), first) == s;
    RunAppend(cfg, Boot(peers), first, steps);
  }

  lemma ReachableFacts(cfg: Config, s: Sys)
    requires Reachable(cfg, s)
    ensures PeersInv(s.peers)
    ensures s.ram.Live? ==> && (forall rid :: rid in s.ram.records ==> s.ram.records[rid].rid == rid)
                            && (forall k :: k in s.ram.dedup ==> Rid(k) in s.ram.records)
  {
    ReachableHolds(cfg, s);
    if s.ram.Live? {
      forall rid | rid in s.ram.records ensures s.ram.records[rid].rid == rid { Stored(cfg, s, rid); }
    }
  }

  /** A response in state APPLIED has its application on record. */
  lemma AppliedHasApplication(cfg: Config, s: Sys, rid: Rid)
    requires Reachable(cfg, s) && s.ram.Live? && rid in s.ram.records && s.ram.records[rid].state.Applied?
    ensures LastApplication(Events(s.tables, rid)).Some?
  {
    ReachableHolds(cfg, s);
    Stored(cfg, s, rid);
    assert HasApplication(Events(s.tables, rid));
  }

  lemma ReopenIsAccepted(cfg: Config, s: Sys)
    requires Reachable(cfg, s)
    ensures Backfill(s.tables) == s.tables && OpenAccepts(cfg, s.tables)
  {
    ReachableHolds(cfg, s);
    ReopenYieldsCommitted(cfg, s);
  }

  /** The saga of a block command, replayed inside the machine. */
  lemma {:induction false} SagaInside(cfg: Config, s: Sys, lucks: Trace<Luck>)
    requires s.ram.Live? && s.flight.Calling? && s.flight.rid in s.ram.records
    requires s.ram.records[s.flight.rid].command.body.action.BlockIp?
    ensures var r := s.ram.records[s.flight.rid];
            var (peers', saga') := SagaRun(s.peers, AddressOf(cfg, r.command), r.command.body.key, r.reference,
                                           s.flight.saga, lucks);
            Run(cfg, s, AdapterSteps(lucks)) == s.(peers := peers', flight := s.flight.(saga := saga'))
  {
    if lucks.Then? { SagaInside(cfg, s, lucks.before); }
  }

  lemma SysCall(cfg: Config, t: SysTrail, c: SagaTrail) returns (t': SysTrail)
    requires SysSound(cfg, t) && SagaSound(c)
    requires t.sys.ram.Live? && t.sys.flight.Calling? && t.sys.flight.rid in t.sys.ram.records
    requires var r := t.sys.ram.records[t.sys.flight.rid];
             && r.command.body.action.BlockIp?
             && c.Of(t.sys.peers, AddressOf(cfg, r.command), r.command.body.key, r.reference, t.sys.flight.op)
             && t.sys.flight.saga == StartOf(t.sys.flight.op)
    ensures SysSound(cfg, t') && t'.was == t.was
    ensures t'.sys == t.sys.(peers := c.peers, flight := t.sys.flight.(saga := c.saga))
  {
    SagaInside(cfg, t.sys, c.lucks);
    RunAppend(cfg, t.was, t.steps, AdapterSteps(c.lucks));
    t' := SysTrail(t.was, Append(t.steps, AdapterSteps(c.lucks)),
                   t.sys.(peers := c.peers, flight := t.sys.flight.(saga := c.saga)));
  }

  /** The first step of a new submission, over the state in which the cache is already pruned. */
  lemma NewSubmission(cfg: Config, s: Sys, c: Command, now: int, pruned: Sys)
    requires s.ram.Live? && s.flight.Idle? && ValidCommand(cfg, c, now)
    requires pruned == s.(ram := Live(s.ram.records, Prune(s.ram.dedup, now)))
    requires c.body.key !in pruned.ram.dedup && Rid(c.body.key) !in s.ram.records
    ensures forall io {:trigger Do(cfg, s, Step.Submit(c, now, io))} ::
              Do(cfg, s, Step.Submit(c, now, io)) == Accept(cfg, pruned, c, now, pruned.ram.dedup, io)
  {
  }

  /** The step that decides on a submission. */
  lemma DecidedStep(cfg: Config, s: Sys, r: Record, at: int)
    requires s.ram.Live? && s.flight == Submitting(r.rid, at) && r.rid in s.ram.records && s.ram.records[r.rid] == r
    ensures forall io {:trigger Do(cfg, s, Decide(io))} ::
              Do(cfg, s, Decide(io))
              == if !Allowed(cfg, r.command) then Fail(s, r, at, "TARGET_PROTECTED", io)
                 else if OverBudget(cfg, s.tables, r.command.body.policyId, at) then Fail(s, r, at, "RATE_LIMITED", io)
                 else Save(s, r.(authorized := true), None, io, Idle, s.calls)
  {
  }

  /** The step after a call that returned, over the state in which the end of the call is logged. */
  lemma FinishedCall(cfg: Config, s: Sys, r: Record, ended: Sys)
    requires s.ram.Live? && s.flight.Calling? && s.flight.saga.Returned?
    requires s.flight.rid in s.ram.records && r == s.ram.records[s.flight.rid]
    requires var f := s.flight; ended == s.(calls := Log(s.calls, f.rid, Ended(f.op, f.saga.outcome, f.at)))
    ensures forall io {:trigger Do(cfg, s, Finish(io))} ::
              var f := s.flight;
              Do(cfg, s, Finish(io)) == match f.op
                                        case CallApply => FinishApply(ended, r, f.at, f.saga.outcome, io)
                                        case CallVerify => FinishVerify(ended, r, f.at, f.saga.outcome, io)
                                        case CallRevert => FinishRevert(ended, r, f.at, f.goal, f.saga.outcome, io)
  {
  }

  /** What a caller is told about a response. */
  datatype Report = Report(state: State, accepted: bool, deduplicated: bool)

  /** The endpoint adapter is not part of this model: it answers anything. */
  method HostAnswers() returns (o: Outcome) {
    o := *;
  }

  /** A record after a revert that did or did not prove itself. */
  function Reverted(r: Record, goal: Goal, proved: bool): Record {
    if proved then Moved(r, goal.terminal, true) else Moved(r, FailedState, false)
  }

  /** A record after the decision on its submission. */
  function Decided(r: Record, accepted: bool): Record {
    if accepted then r.(authorized := true) else Moved(r, FailedState, false)
  }

  /** What an adapter call that succeeded leaves on the peers. */
  predicate Effective(op: CallOp, peers: seq<Peer>, a: Addr, k: Key) {
    match op
    case CallApply => forall i :: 0 <= i < |peers| ==> Owns(peers[i], a, k) && a in peers[i].present
    case CallVerify => forall i :: 0 <= i < |peers| ==> a in peers[i].present
    case CallRevert => forall i :: 0 <= i < |peers| ==> !Owns(peers[i], a, k)
  }

  /** A block of an address: a call for it reaches the firewalls. */
  predicate BlocksAddress(cfg: Config, c: Command) {
    c.body.action.BlockIp? && Aimed(cfg, c)
  }

  /** What a call for a command leaves alone on the peers: everything but its own address and key. */
  ghost predicate Spares(cfg: Config, c: Command, before: seq<Peer>, after: seq<Peer>) {
    if c.body.action.BlockIp? then OnlyTouches(before, after, AddressOf(cfg, c), c.body.key) else after == before
  }

  /** Every peer lets the block of a command be taken back. */
  ghost predicate CanRevert(cfg: Config, c: Command, peers: seq<Peer>) {
    AllRevertible(peers, AddressOf(cfg, c), c.body.key)
  }

  /** What the outcome of a revert says of the peers before it, when they are steady. */
  ghost predicate RevertTells(cfg: Config, c: Command, steady: bool, before: seq<Peer>, accepted: bool) {
    BlocksAddress(cfg, c) ==>
      && (accepted ==> CanRevert(cfg, c, before))
      && (steady && CanRevert(cfg, c, before) ==> accepted)
  }

  lemma CallTouches(peers: seq<Peer>, a: Addr, k: Key, reference: string, op: CallOp, t: SagaTrail)
    requires PeersInv(peers) && peers != [] && SagaSound(t) && t.Of(peers, a, k, reference, op)
    ensures OnlyTouches(peers, t.peers, a, k)
  {
    SagaRunKeeps(peers, a, k, reference, op, StartOf(op), t.lucks);
  }

  /** Why and how each response of a sweep is taken back. */
  function ExpiryGoals(records: map<Rid, Record>, now: int): map<Rid, Goal> {
    map rid | rid in records && Unresolved(records[rid]) && now >= records[rid].expiresAt ::
      Goal(if records[rid].state.Verified? then Expired else RolledBack, TtlExpired, None)
  }

  function RecoveryGoals(records: map<Rid, Record>): map<Rid, Goal> {
    map rid | rid in records && records[rid].pending.Some? :: Goal(RolledBack, Recovery, None)
  }

  /** One record after a sweep. */
  function SweptRecord(r: Record, rid: Rid, goals: map<Rid, Goal>, reports: map<Rid, Report>, now: int): Record {
    if rid in goals && rid in reports then Reverted(Begun(r, OpRevert, now), goals[rid], reports[rid].accepted) else r
  }

  /** After a sweep that got as far as `done`: exactly the responses with a goal were taken back, each
      with its report, and every other record is as it was. */
  ghost predicate Swept(before: map<Rid, Record>, done: set<Rid>, goals: map<Rid, Goal>, now: int,
                        after: map<Rid, Record>, reports: map<Rid, Report>) {
    && after.Keys == before.Keys
    && reports.Keys == goals.Keys * done
    && forall rid :: rid in before ==> after[rid] == SweptRecord(before[rid], rid, goals, reports, now)
  }

  /** A sweep over everything that is due, with every revert accepted, leaves nothing unresolved that
      is past its expiry. */
  lemma SweepMeetsTtl(before: map<Rid, Record>, now: int, after: map<Rid, Record>, reports: map<Rid, Report>)
    requires Swept(before, before.Keys, ExpiryGoals(before, now), now, after, reports)
    requires forall rid :: rid in reports ==> reports[rid].accepted
    ensures forall rid :: rid in after && after[rid].expiresAt <= now ==> !Unresolved(after[rid])
  {
    var goals := ExpiryGoals(before, now);
    forall rid | rid in after && after[rid].expiresAt <= now ensures !Unresolved(after[rid]) {
      assert after[rid] == SweptRecord(before[rid], rid, goals, reports, now);
      if rid in goals { assert rid in reports; }
    }
  }

  // ----- what a sweep can achieve ----------------------------------------------------------------------------

  /** Unresolved responses of some records do not compete for a target. */
  ghost predicate Rivalless(cfg: Config, records: map<Rid, Record>) {
    forall x, y {:trigger records[x], records[y]} ::
      x in records && y in records && x != y && Unresolved(records[x]) && Unresolved(records[y]) ==>
        IdentityOf(cfg, records[x].command) != IdentityOf(cfg, records[y].command)
  }

  lemma RecordsAreRivalless(cfg: Config, s: Sys)
    requires Reachable(cfg, s) && s.ram.Live?
    ensures Rivalless(cfg, s.ram.records)
  {
    forall x, y {:trigger s.ram.records[x], s.ram.records[y]}
      | x in s.ram.records && y in s.ram.records && x != y && Unresolved(s.ram.records[x]) && Unresolved(s.ram.records[y])
      ensures IdentityOf(cfg, s.ram.records[x].command) != IdentityOf(cfg, s.ram.records[y].command)
    {
      CrashRestoresCommitted(cfg, s);
      assert Snapshot(s.ram.records[x]) == s.tables.records[x] && Snapshot(s.ram.records[y]) == s.tables.records[y];
      TargetsAreExclusive(cfg, s, x, y);
    }
  }

  ghost predicate SameAt(before: seq<Peer>, after: seq<Peer>, a: Addr) {
    |after| == |before| && forall i {:trigger Get(after[i], a)} :: 0 <= i < |before| ==> Get(after[i], a) == Get(before[i], a)
  }

  /** The addresses of the responses a sweep has still to come to are as they were. */
  ghost predicate Ahead(cfg: Config, records: map<Rid, Record>, todo: set<Rid>, was: seq<Peer>, peers: seq<Peer>) {
    forall rid :: rid in todo && rid in records && Unresolved(records[rid]) && records[rid].command.body.action.BlockIp?
      ==> SameAt(was, peers, AddressOf(cfg, records[rid].command))
  }

  /** Taking one response back leaves the addresses of the others alone. */
  lemma SparedStayAhead(cfg: Config, records: map<Rid, Record>, todo: set<Rid>, rid: Rid,
                        was: seq<Peer>, peers: seq<Peer>, after: seq<Peer>)
    requires Rivalless(cfg, records) && Ahead(cfg, records, todo, was, peers)
    requires rid in records && Unresolved(records[rid]) && Spares(cfg, records[rid].command, peers, after)
    ensures Ahead(cfg, records, todo - {rid}, was, after)
  {
    forall x | x in todo - {rid} && x in records && Unresolved(records[x]) && records[x].command.body.action.BlockIp?
      ensures SameAt(was, after, AddressOf(cfg, records[x].command))
    {
      var a := AddressOf(cfg, records[x].command);
      assert SameAt(was, peers, a);
      assert IdentityOf(cfg, records[x].command) != IdentityOf(cfg, records[rid].command);
      SparedAddress(cfg, records[rid].command, was, peers, after, a);
    }
  }

  lemma SparedAddress(cfg: Config, c: Command, was: seq<Peer>, peers: seq<Peer>, after: seq<Peer>, a: Addr)
    requires SameAt(was, peers, a) && Spares(cfg, c, peers, after)
    requires c.body.action.BlockIp? ==> AddressOf(cfg, c) != a
    ensures SameAt(was, after, a)
  {
    if c.body.action.BlockIp? {
      forall i {:trigger Get(after[i], a)} | 0 <= i < |was| ensures Get(after[i], a) == Get(was[i], a) {
        assert Get(after[i], a) == Get(peers[i], a);
      }
    }
  }

  /** The reports of a sweep, told from the peers before it. */
  ghost predicate Told(cfg: Config, records: map<Rid, Record>, steady: bool, was: seq<Peer>,
                       reports: map<Rid, Report>)
  {
    forall rid :: rid in reports && rid in records ==>
      RevertTells(cfg, records[rid].command, steady, was, reports[rid].accepted)
  }

  lemma TellsOfTheStart(cfg: Config, c: Command, steady: bool, was: seq<Peer>, peers: seq<Peer>, accepted: bool)
    requires c.body.action.BlockIp? ==> SameAt(was, peers, AddressOf(cfg, c))
    requires RevertTells(cfg, c, steady, peers, accepted)
    ensures RevertTells(cfg, c, steady, was, accepted)
  {
    if BlocksAddress(cfg, c) {
      var a := AddressOf(cfg, c);
      forall i | 0 <= i < |was| ensures Revertible(peers[i], a, c.body.key) <==> Revertible(was[i], a, c.body.key) {
        assert Get(peers[i], a) == Get(was[i], a);
      }
    }
  }

  lemma ToldOneMore(cfg: Config, records: map<Rid, Record>, steady: bool, was: seq<Peer>,
                    reports: map<Rid, Report>, more: map<Rid, Report>, rid: Rid)
    requires Told(cfg, records, steady, was, reports) && more.Keys == reports.Keys + {rid} && rid in records
    requires forall other :: other in reports && other != rid ==> more[other] == reports[other]
    requires RevertTells(cfg, records[rid].command, steady, was, more[rid].accepted)
    ensures Told(cfg, records, steady, was, more)
  {
  }

  lemma SweepMovesOn(cfg: Config, records: map<Rid, Record>, done: set<Rid>, rid: Rid, steady: bool,
                     was: seq<Peer>, peers: seq<Peer>, after: seq<Peer>,
                     reports: map<Rid, Report>, more: map<Rid, Report>)
    requires rid in records && rid !in done && Rivalless(cfg, records) && Unresolved(records[rid])
    requires Told(cfg, records, steady, was, reports) && Ahead(cfg, records, records.Keys - done, was, peers)
    requires Spares(cfg, records[rid].command, peers, after)
    requires more.Keys == reports.Keys + {rid}
    requires forall other :: other in reports && other != rid ==> more[other] == reports[other]
    requires RevertTells(cfg, records[rid].command, steady, peers, more[rid].accepted)
    ensures Told(cfg, records, steady, was, more) && Ahead(cfg, records, records.Keys - done - {rid}, was, after)
  {
    SparedStayAhead(cfg, records, records.Keys - done, rid, was, peers, after);
    TellsOfTheStart(cfg, records[rid].command, steady, was, peers, more[rid].accepted);
    ToldOneMore(cfg, records, steady, was, reports, more, rid);
  }

  /** Exactly which due blocks a sweep over steady peers takes back for good: those whose address no
      outsider placed on any peer the response does not own it on. */
  lemma ExpiryExactly(cfg: Config, s: Sys, rid: Rid, now: int, after: map<Rid, Record>, reports: map<Rid, Report>)
    requires Reachable(cfg, s) && s.ram.Live? && rid in s.ram.records
    requires Unresolved(s.ram.records[rid]) && s.ram.records[rid].expiresAt <= now
    requires s.ram.records[rid].command.body.action.BlockIp?
    requires Swept(s.ram.records, s.ram.records.Keys, ExpiryGoals(s.ram.records, now), now, after, reports)
    requires Told(cfg, s.ram.records, true, s.peers, reports)
    ensures var c := s.ram.records[rid].command;
            !Unresolved(after[rid]) <==>
              forall i :: 0 <= i < |s.peers| ==>
                AddressOf(cfg, c) !in s.peers[i].outside || Owns(s.peers[i], AddressOf(cfg, c), c.body.key)
  {
    hide Do, Aimed;
    var r := s.ram.records[rid];
    assert rid in ExpiryGoals(s.ram.records, now) && rid in reports;
    assert after[rid] == SweptRecord(r, rid, ExpiryGoals(s.ram.records, now), reports, now);
    StoredBlocksAreAimed(cfg, s, rid);
    CrashRestoresCommitted(cfg, s);
    assert Snapshot(r) == s.tables.records[rid];
    RevertedIsResolved(r, ExpiryGoals(s.ram.records, now)[rid], reports[rid].accepted, now);
    StoredKey(cfg, s, rid);
    forall i | 0 <= i < |s.peers|
      ensures Revertible(s.peers[i], AddressOf(cfg, r.command), r.command.body.key) <==>
                AddressOf(cfg, r.command) !in s.peers[i].outside
                || Owns(s.peers[i], AddressOf(cfg, r.command), r.command.body.key)
    {
      RevertConvergesExactly(cfg, s, rid, i);
    }
  }

  lemma StoredKey(cfg: Config, s: Sys, rid: Rid)
    requires Reachable(cfg, s) && s.ram.Live? && rid in s.ram.records
    ensures rid == Rid(s.ram.records[rid].command.body.key)
  {
    ReachableHolds(cfg, s);
    Stored(cfg, s, rid);
  }

  lemma RevertedIsResolved(r: Record, goal: Goal, accepted: bool, now: int)
    requires Terminal(goal.terminal)
    ensures Unresolved(Reverted(Begun(r, OpRevert, now), goal, accepted)) <==> !accepted
  {
  }

  lemma RecoverStep(cfg: Config, s: Sys, rid: Rid, now: int)
    requires s.ram.Live? && s.flight.Idle? && rid in s.ram.records && s.ram.records[rid].pending.Some?
    ensures forall io {:trigger Do(cfg, s, Step.Recover(rid, now, io))} ::
              Do(cfg, s, Step.Recover(rid, now, io))
              == BeginRevert(s, s.ram.records[rid], now, Goal(RolledBack, Recovery, None), io)
  {
  }

  lemma ApplyStep(cfg: Config, s: Sys, r: Record, now: int)
    requires s.ram.Live? && s.flight.Idle? && r.rid in s.ram.records && s.ram.records[r.rid] == r && Queued(r)
    ensures forall io {:trigger Do(cfg, s, Step.Apply(r.rid, now, io))} ::
              Do(cfg, s, Step.Apply(r.rid, now, io))
              == if now >= r.expiresAt then Fail(s, r, now, "EXPIRED_BEFORE_APPLY", io)
                 else if !StillAuthorized(cfg, r, now) then Fail(s, r, now, "REAUTHORIZATION_FAILED", io)
                 else if Busy(cfg, s.ram.records, r.rid, r.command) then s
                 else BeginApply(s, r, now, io)
  {
  }

  /** What apply refuses without an outcome: a response that is not in the queue, or one that still has
      its authorization but not its target. */
  predicate Refused(cfg: Config, records: map<Rid, Record>, rid: Rid, now: int) {
    rid in records && Queued(records[rid]) ==>
      StillAuthorized(cfg, records[rid], now) && Busy(cfg, records, rid, records[rid].command)
  }

  /** A record that apply let through: it has something left to undo exactly when it was still
      authorized, and so reached the adapter. */
  predicate Tried(cfg: Config, before: Record, after: Record, now: int) {
    && after.command == before.command && !Queued(after)
    && (before.pending.None? ==> (Unresolved(after) <==> StillAuthorized(cfg, before, now)))
  }

  lemma ExpireStep(cfg: Config, s: Sys, rid: Rid, now: int, goal: Goal)
    requires s.ram.Live? && s.flight.Idle? && rid in s.ram.records
    requires rid in ExpiryGoals(s.ram.records, now) && goal == ExpiryGoals(s.ram.records, now)[rid]
    ensures forall io {:trigger Do(cfg, s, Step.Expire(rid, now, io))} ::
              Do(cfg, s, Step.Expire(rid, now, io)) == BeginRevert(s, s.ram.records[rid], now, goal, io)
  {
  }

  class ResponseOrchestrator {
    const cfg: Config
    const store: SQLiteResponseStore
    const adapter: BlocklistAdapter
    var records: map<Rid, Record>
    var dedup: map<Key, int>
    var storageFailed: bool
    ghost var flight: Flight
    ghost var calls: map<Rid, seq<CallEvent>>

    /** An object over records that were already checked. */
    constructor Over(cfg: Config, store: SQLiteResponseStore, adapter: BlocklistAdapter, records: map<Rid, Record>,
                     ghost calls: map<Rid, seq<CallEvent>>)
      ensures this.cfg == cfg && this.store == store && this.adapter == adapter
      ensures Abs() == Sys(store.Contents(), Live(records, map[]), Idle, adapter.States(), calls)
    {
      this.cfg, this.store, this.adapter := cfg, store, adapter;
      this.records, this.dedup, this.storageFailed := records, map[], false;
      this.flight, this.calls := Idle, calls;
    }

    /** Open a store: take it, load every snapshot, and refuse a journal that does not explain one. A
        store is taken by the first attempt, so no second one succeeds. */
    static method Open(cfg: Config, store: SQLiteResponseStore, adapter: BlocklistAdapter,
                       ghost calls: map<Rid, seq<CallEvent>>)
      returns (r: Result<ResponseOrchestrator>)
      modifies store`claimed
      ensures r.Ok? <==> !old(store.claimed) && OpenAccepts(cfg, store.Contents())
      ensures r.Ok? ==> && fresh(r.value) && r.value.cfg == cfg && r.value.store == store && r.value.adapter == adapter
                        && r.value.Abs() == Sys(store.Contents(), Live(store.records, map[]), Idle,
                                                adapter.States(), calls)
      ensures store.claimed && store.Contents() == old(store.Contents())
    {
      var free := store.Take();
      if !free { return Raised; }
      var todo, loaded := store.records.Keys, map[];
      while todo != {}
        invariant todo <= store.records.Keys
        invariant loaded.Keys == store.records.Keys - todo
        invariant forall rid :: rid in loaded ==> loaded[rid] == store.records[rid]
        invariant forall rid :: rid in loaded ==> Consistent(cfg, store.Contents(), rid)
        decreases todo
      {
        var rid :| rid in todo;
        var record := store.records[rid];
        var h := History(store.audit, record.rid);
        if h == [] || h[|h| - 1].state != record.state || h[|h| - 1].number != record.number { return Raised; }
        if record.rid != Rid(record.command.body.key) || !Authentic(cfg, record.command, h[0].at) { return Raised; }
        if exists i :: 0 <= i < |h| && !EventMatches(h[i], record) { return Raised; }
        loaded := loaded[rid := record];
        todo := todo - {rid};
      }
      assert loaded == store.records;
      var o := new ResponseOrchestrator.Over(cfg, store, adapter, loaded, calls);
      r := Ok(o);
    }

    /** A restart after a stop at any point of any run: the store is never refused, and the new object
        is in the state the machine has after the crash. */
    static method Restart(cfg: Config, disk: Tables, adapter: BlocklistAdapter, ghost s: Sys)
      returns (r: Result<ResponseOrchestrator>)
      requires adapter.Wired() && Reachable(cfg, s) && s.tables == disk && s.peers == adapter.States()
      ensures r.Ok? && fresh(r.value) && r.value.cfg == cfg && r.value.adapter == adapter && r.value.Valid()
      ensures r.value.Abs() == Do(cfg, s, Crash)
    {
      CrashRestoresCommitted(cfg, s);
      ReopenIsAccepted(cfg, s);
      RunsCompose(cfg, s, Then(Trace.Start, Crash));
      assert Run(cfg, s, Then(Trace.Start, Crash)) == Do(cfg, Run(cfg, s, Trace.Start), Crash);
      var store := new SQLiteResponseStore(disk);
      r := Open(cfg, store, adapter, s.calls);
    }

    ghost function Abs(): Sys
      reads this, store, adapter.Footprint()
    {
      Sys(store.Contents(), if storageFailed then Poisoned else Live(records, dedup), flight, adapter.States(), calls)
    }

    /** Between two public calls. */
    ghost predicate Valid()
      reads this, store, adapter.Footprint()
    {
      adapter.Wired() && flight.Idle? && Reachable(cfg, Abs())
    }

    /** Everything a public call did is a run of the machine, from where it began to where it ended. */
    ghost predicate Traced(was: Sys, t: SysTrail)
      reads this, store, adapter.Footprint()
    {
      SysSound(cfg, t) && t.was == was && t.sys == Abs()
    }

    lemma TracedKeeps(was: Sys, t: SysTrail)
      requires Reachable(cfg, was) && Traced(was, t)
      ensures Reachable(cfg, Abs())
    {
      RunsCompose(cfg, was, t.steps);
    }

    /** What the public operations need to know about a valid object. */
    lemma ValidFacts()
      requires Valid()
      ensures PeersInv(adapter.States())
      ensures !storageFailed ==> && (forall rid :: rid in records ==> records[rid].rid == rid)
                                 && (forall k :: k in dedup ==> Rid(k) in records)
    {
      ReachableFacts(cfg, Abs());
    }

    /** The queue: what apply may still be tried on. */
    function PendingApply(): set<Rid>
      reads this
    {
      set rid | rid in records && Queued(records[rid]) && records[rid].pending.None?
    }

    /** What verify may be tried on. */
    function AwaitingVerification(): set<Rid>
      reads this
    {
      set rid | rid in records && records[rid].state.Applied? && records[rid].pending.None?
    }

    // ----- checkpoints ---------------------------------------------------------------------------------

    method Checkpoint(r: Record, event: Option<Event>, ghost next: Flight, ghost log: map<Rid, seq<CallEvent>>)
      returns (ok: bool, ghost io: Io)
      requires !storageFailed
      modifies this, store
      ensures Abs() == Save(old(Abs()), r, event, io, next, log)
      ensures ok == !storageFailed
    {
      ok, io := store.Checkpoint(Snapshot(r), event);
      if ok {
        records := records[r.rid := r];
        flight, calls := next, log;
      } else {
        storageFailed := true;  // memory may now differ from the tables
        flight := Idle;
      }
      assert adapter.States() == old(adapter.States());
    }

    method Transition(r: Record, state: State, at: int, detail: Detail, clearIntent: bool, ghost next: Flight)
      returns (ok: bool, ghost io: Io)
      requires !storageFailed
      modifies this, store
      ensures Abs() == Save(old(Abs()), Moved(r, state, clearIntent), Some(NextEvent(r, state, at, detail)),
                            io, next, old(calls))
      ensures ok == !storageFailed
    {
      var event := NextEvent(r, state, at, detail);
      ok, io := Checkpoint(Moved(r, state, clearIntent), Some(event), next, calls);
    }

    /** The application on record, searched from the latest event back. */
    method ApplicationOnRecord(rid: Rid) returns (a: Option<Application>)
      ensures a == LastApplication(Events(store.Contents(), rid))
    {
      var h := History(store.audit, rid);
      var i := |h|;
      assert h[..i] == h;
      while i > 0
        invariant 0 <= i <= |h|
        invariant LastApplication(h) == LastApplication(h[..i])
      {
        i := i - 1;
        assert h[..i + 1][..i] == h[..i];
        if h[i].detail.application.Some? { return h[i].detail.application; }
      }
      a := None;
    }

    // ----- privileged calls ------------------------------------------------------------------------------

    method Invoke(op: CallOp, r: Record, at: int, ghost goal: Goal, ghost t0: SysTrail)
      returns (o: Outcome, ghost t: SysTrail)
      requires adapter.Wired() && !storageFailed && PeersInv(adapter.States())
      requires r.rid in records && records[r.rid] == r
      requires flight == Calling(op, r.rid, at, goal, StartSaga(r.command, op))
      requires op.CallApply? ==> r.reference == RecoveryReference(r.command.body.action, r.command.body.key)
      requires Traced(t0.was, t0)
      modifies this`flight, adapter.Footprint()
      ensures Traced(t0.was, t) && PeersInv(adapter.States())
      ensures flight == Calling(op, r.rid, at, goal, Returned(o))
      ensures o.ok && r.command.body.action.BlockIp? ==>
                Effective(op, adapter.States(), AddressOf(cfg, r.command), r.command.body.key)
      ensures Spares(cfg, r.command, t0.sys.peers, t.sys.peers)
      ensures op.CallRevert? ==> RevertTells(cfg, r.command, adapter.Steady(), t0.sys.peers, Proved(o))
    {
      var b := r.command.body;
      TouchesNothing(t0.sys.peers, AddressOf(cfg, r.command), b.key);
      if b.action.IsolateHost? || !b.target.kind.IpTarget? || cfg.text.ip(b.target.value).None? {
        o, t := InvokeElsewhere(op, r, at, goal, t0);
        return;
      }
      o, t := InvokeFirewalls(op, r, at, goal, t0);
    }

    /** A call for an address: it is a run of the saga on the peers. */
    method InvokeFirewalls(op: CallOp, r: Record, at: int, ghost goal: Goal, ghost t0: SysTrail)
      returns (o: Outcome, ghost t: SysTrail)
      requires adapter.Wired() && !storageFailed && PeersInv(adapter.States())
      requires r.rid in records && records[r.rid] == r && BlocksAddress(cfg, r.command)
      requires flight == Calling(op, r.rid, at, goal, StartSaga(r.command, op))
      requires op.CallApply? ==> r.reference == RecoveryReference(BlockIp, r.command.body.key)
      requires Traced(t0.was, t0)
      modifies this`flight, adapter.Footprint()
      ensures Traced(t0.was, t) && PeersInv(adapter.States())
      ensures flight == Calling(op, r.rid, at, goal, Returned(o))
      ensures o.ok ==> Effective(op, adapter.States(), AddressOf(cfg, r.command), r.command.body.key)
      ensures OnlyTouches(t0.sys.peers, t.sys.peers, AddressOf(cfg, r.command), r.command.body.key)
      ensures op.CallRevert? ==> && (Proved(o) ==> CanRevert(cfg, r.command, t0.sys.peers))
                                 && (adapter.Steady() && CanRevert(cfg, r.command, t0.sys.peers) ==> Proved(o))
    {
      hide Do;
      var b := r.command.body;
      ghost var s := Abs();
      ghost var saga;
      o, saga := CallFirewalls(op, cfg.text.ip(b.target.value).value.canonical, b.key, r.reference);
      CallTouches(t0.sys.peers, AddressOf(cfg, r.command), b.key, r.reference, op, saga);
      t := SysCall(cfg, t0, saga);
      flight := Calling(op, r.rid, at, goal, Returned(o));
      assert t.sys == s.(peers := adapter.States(), flight := flight);
    }

    /** A call that never reaches a firewall: it is for the endpoint adapter, or the target is no
        address, which the adapter reports as a failure. */
    method InvokeElsewhere(op: CallOp, r: Record, at: int, ghost goal: Goal, ghost t0: SysTrail)
      returns (o: Outcome, ghost t: SysTrail)
      requires !storageFailed && r.rid in records && records[r.rid] == r
      requires flight == Calling(op, r.rid, at, goal, StartSaga(r.command, op))
      requires var b := r.command.body;
               b.action.IsolateHost? || !b.target.kind.IpTarget? || cfg.text.ip(b.target.value).None?
      requires Traced(t0.was, t0)
      modifies this`flight
      ensures Traced(t0.was, t) && flight == Calling(op, r.rid, at, goal, Returned(o))
      ensures o.ok ==> r.command.body.action.IsolateHost?
    {
      ghost var s := Abs();
      if r.command.body.action.IsolateHost? {
        o := HostAnswers();
        t := SysNext(cfg, t0, HostReply(o));
      } else {
        o := Outcome(false, "", 0);
        t := SysNext(cfg, t0, Escape);
      }
      flight := Calling(op, r.rid, at, goal, Returned(o));
      assert t.sys == s.(flight := flight);
    }

    method CallFirewalls(op: CallOp, a: Addr, k: Key, reference: string) returns (o: Outcome, ghost saga: SagaTrail)
      requires adapter.Wired() && PeersInv(adapter.States())
      requires op.CallApply? ==> reference == RecoveryReference(BlockIp, k)
      modifies adapter.Footprint()
      ensures SagaSound(saga) && saga.Of(old(adapter.States()), a, k, reference, op)
      ensures saga.peers == adapter.States() && saga.saga == Returned(o) && PeersInv(adapter.States())
      ensures o.ok ==> Effective(op, adapter.States(), a, k)
      ensures op.CallRevert? ==> && (Proved(o) ==> AllRevertible(saga.was, a, k))
                                 && (adapter.Steady() && AllRevertible(saga.was, a, k) ==> Proved(o))
    {
      ghost var clean;
      match op
      case CallApply => o, saga, clean := adapter.Apply(a, k);
      case CallVerify => o, saga := adapter.Verify(a, k, reference);
      case CallRevert => o, saga, clean := adapter.Revert(a, k, reference);
    }

    /** A transition that ends an operation; `first` is the machine's step. */
    method Settle(r: Record, state: State, now: int, detail: Detail, clearIntent: bool, accepted: bool,
                  ghost first: Io -> Step, ghost t0: SysTrail)
      returns (res: Result<Report>, ghost t: SysTrail)
      requires !storageFailed && SysSound(cfg, t0)
      requires forall io :: Do(cfg, t0.sys, first(io))
                 == Save(Abs(), Moved(r, state, clearIntent), Some(NextEvent(r, state, now, detail)), io, Idle, calls)
      modifies this, store
      ensures Traced(t0.was, t) && flight.Idle?
      ensures res.Ok? <==> !storageFailed
      ensures res.Ok? ==> res == Ok(Report(state, accepted, false))
                          && records == old(records)[r.rid := Moved(r, state, clearIntent)]
                          && (r.number > 0 ==> store.admissions == old(store.admissions))
    {
      var ok;
      ghost var io;
      ok, io := Transition(r, state, now, detail, clearIntent, Idle);
      t := SysNext(cfg, t0, first(io));
      res := if ok then Ok(Report(state, accepted, false)) else Raised;
    }

    /** The outcome of a revert becomes an event. */
    method EndRevert(rid: Rid, now: int, goal: Goal, o: Outcome, ghost t0: SysTrail)
      returns (res: Result<Report>, ghost t: SysTrail)
      requires !storageFailed && rid in records && records[rid].rid == rid
      requires flight == Calling(CallRevert, rid, now, goal, Returned(o))
      requires Traced(t0.was, t0)
      modifies this, store
      ensures Traced(t0.was, t) && flight.Idle?
      ensures res.Ok? <==> !storageFailed
      ensures res.Ok? ==> && records.Keys == old(records.Keys) && res.value.accepted == Proved(o)
                          && res.value.state == records[rid].state
                          && records == old(records)[rid := Reverted(old(records[rid]), goal, Proved(o))]
    {
      hide Do, SysSound;
      var r := records[rid];
      calls := Log(calls, rid, Ended(CallRevert, o, now));
      FinishedCall(cfg, t0.sys, r, Abs());
      if !Proved(o) {
        res, t := Settle(r, FailedState, now, NoDetail.(failure := Some(RevertCode(goal))), false, false,
                         io => Finish(io), t0);
        return;
      }
      var application := ApplicationOnRecord(rid);
      var detail := Detail(application, None, Some(Reversal(FloorMs(now), goal.cause, o.evidence)), goal.failure);
      res, t := Settle(r, goal.terminal, now, detail, true, true, io => Finish(io), t0);
    }

    /** The intent becomes durable, then the call is in flight; `first` is the machine's step. */
    method BeginOperation(r: Record, op: CallOp, operation: Operation, now: int, ghost goal: Goal,
                          ghost first: Io -> Step, ghost t0: SysTrail)
      returns (ok: bool, ghost t: SysTrail)
      requires !storageFailed && SysSound(cfg, t0)
      requires forall io :: Do(cfg, t0.sys, first(io))
                 == Save(Abs(), Begun(r, operation, now), None, io,
                         Calling(op, r.rid, now, goal, StartSaga(r.command, op)), Log(calls, r.rid, Began(op)))
      modifies this, store
      ensures Traced(t0.was, t)
      ensures ok == !storageFailed && (if ok then flight == Calling(op, r.rid, now, goal, StartSaga(r.command, op))
                                       else flight == Idle)
      ensures ok ==> records == old(records)[r.rid := Begun(r, operation, now)]
    {
      ghost var io;
      ok, io := Checkpoint(Begun(r, operation, now), None, Calling(op, r.rid, now, goal, StartSaga(r.command, op)),
                           Log(calls, r.rid, Began(op)));
      t := SysNext(cfg, t0, first(io));
    }

    /** Take one containment back. */
    method RevertRecord(rid: Rid, now: int, goal: Goal, ghost first: Io -> Step, ghost t0: SysTrail)
      returns (res: Result<Report>, ghost t: SysTrail)
      requires adapter.Wired() && !storageFailed && PeersInv(adapter.States())
      requires rid in records && records[rid].rid == rid
      requires SysSound(cfg, t0)
      requires forall io :: Do(cfg, t0.sys, first(io)) == BeginRevert(Abs(), records[rid], now, goal, io)
      modifies this, store, adapter.Footprint()
      ensures Traced(t0.was, t) && flight.Idle?
      ensures res.Ok? <==> !storageFailed
      ensures res.Ok? ==> && records.Keys == old(records.Keys) && res.value.state == records[rid].state
                          && records == old(records)[rid := Reverted(Begun(old(records[rid]), OpRevert, now), goal,
                                                                     res.value.accepted)]
      ensures res.Ok? ==> Spares(cfg, old(records[rid]).command, old(adapter.States()), t.sys.peers)
      ensures res.Ok? ==> RevertTells(cfg, old(records[rid]).command, adapter.Steady(), old(adapter.States()),
                                      res.value.accepted)
    {
      var r := records[rid];
      var ok;
      ok, t := BeginOperation(r, CallRevert, OpRevert, now, goal, first, t0);
      if !ok { return Raised, t; }
      res, t := CallRevertOn(rid, now, goal, t);
    }

    /** The call of a revert whose intent is durable, and its end. */
    method CallRevertOn(rid: Rid, now: int, goal: Goal, ghost t0: SysTrail)
      returns (res: Result<Report>, ghost t: SysTrail)
      requires adapter.Wired() && !storageFailed && PeersInv(adapter.States())
      requires rid in records && records[rid].rid == rid
      requires flight == Calling(CallRevert, rid, now, goal, StartSaga(records[rid].command, CallRevert))
      requires Traced(t0.was, t0)
      modifies this, store, adapter.Footprint()
      ensures Traced(t0.was, t) && flight.Idle?
      ensures res.Ok? <==> !storageFailed
      ensures res.Ok? ==> && records.Keys == old(records.Keys) && res.value.state == records[rid].state
                          && records == old(records)[rid := Reverted(old(records[rid]), goal, res.value.accepted)]
      ensures res.Ok? ==> Spares(cfg, old(records[rid]).command, t0.sys.peers, t.sys.peers)
      ensures res.Ok? ==> RevertTells(cfg, old(records[rid]).command, adapter.Steady(), t0.sys.peers,
                                      res.value.accepted)
    {
      hide BlocklistAdapter.States, Run, RevertTells;
      var o;
      o, t := Invoke(CallRevert, records[rid], now, goal, t0);
      res, t := EndRevert(rid, now, goal, o, t);
    }

    // ----- the public operations ---------------------------------------------------------------------------

    /** A command that passes the checks becomes a record, queued or failed; a key that is already stored
        changes nothing. No adapter is called. */
    method Submit(c: Command, now: int) returns (res: Result<Report>, ghost t: SysTrail)
      requires Valid()
      modifies this, store
      ensures Valid() && Traced(old(Abs()), t)
      ensures res.Raised? && !storageFailed ==> !ValidCommand(cfg, c, now) && Abs() == old(Abs())
      ensures res.Ok? ==> ValidCommand(cfg, c, now) && !storageFailed
      ensures res.Ok? ==> (res.value.deduplicated <==> Rid(c.body.key) in old(records))
      ensures res.Ok? && res.value.deduplicated ==>
                records == old(records) && store.Contents() == old(store.Contents())
      ensures res.Ok? && !res.value.deduplicated ==>
                && (res.value.accepted <==> Allowed(cfg, c) && !OverBudget(cfg, store.Contents(), c.body.policyId, now))
                && records == old(records)[Rid(c.body.key) := Decided(Moved(FirstRecord(c, now), Requested, false),
                                                                      res.value.accepted)]
    {
      hide ValidCommand, Reachable, SQLiteResponseStore.Contents, SysSound;
      ghost var s := Abs();
      t := SysBegin(cfg, s);
      if storageFailed || !ValidCommand(cfg, c, now) { return Raised, t; }
      ValidFacts();
      dedup := Prune(dedup, now);
      var rid := Rid(c.body.key);
      if c.body.key in dedup || rid in records {
        var r := records[rid];
        res := Ok(Report(r.state, r.authorized && r.state != FailedState && r.pending.None?, true));
        t := SysNext(cfg, t, Step.Submit(c, now, Commits));
      } else {
        NewSubmission(cfg, s, c, now, Abs());
        var ok;
        ok, t := Admit(c, now, t);
        if ok { res, t := DecideSubmission(rid, now, t); } else { res := Raised; }
      }
      TracedKeeps(s, t);
    }

    /** The first transition, then the entries in the records and in the dedup cache. */
    method Admit(c: Command, now: int, ghost t0: SysTrail) returns (ok: bool, ghost t: SysTrail)
      requires !storageFailed && SysSound(cfg, t0)
      requires forall io :: Do(cfg, t0.sys, Step.Submit(c, now, io)) == Accept(cfg, Abs(), c, now, dedup, io)
      modifies this, store
      ensures Traced(t0.was, t) && ok == !storageFailed
      ensures flight == if ok then Submitting(Rid(c.body.key), now) else Idle
      ensures ok ==> records == old(records)[Rid(c.body.key) := Moved(FirstRecord(c, now), Requested, false)]
    {
      hide Do, SysSound;
      ghost var io;
      ok, io := Transition(FirstRecord(c, now), Requested, now, NoDetail, false, Submitting(Rid(c.body.key), now));
      if ok { dedup := dedup[c.body.key := now + cfg.catalog.dedupSeconds * SECOND]; }
      t := SysNext(cfg, t0, Step.Submit(c, now, io));
    }

    /** The local target check and the rate limit, on a response that is already audited. */
    method DecideSubmission(rid: Rid, now: int, ghost t0: SysTrail) returns (res: Result<Report>, ghost t: SysTrail)
      requires !storageFailed && rid in records && records[rid].rid == rid && flight == Submitting(rid, now)
      requires Traced(t0.was, t0) && records[rid].number == 1
      modifies this, store
      ensures Traced(t0.was, t) && flight.Idle?
      ensures res.Ok? <==> !storageFailed
      ensures res.Ok? ==>
                && !res.value.deduplicated
                && store.admissions == old(store.admissions)
                && var r := old(records[rid]);
                   && (res.value.accepted <==>
                         Allowed(cfg, r.command) && !OverBudget(cfg, store.Contents(), r.command.body.policyId, now))
                   && records == old(records)[rid := Decided(r, res.value.accepted)]
    {
      var r := records[rid];
      DecidedStep(cfg, t0.sys, r, now);
      if !Allowed(cfg, r.command) {
        res, t := Settle(r, FailedState, now, NoDetail.(failure := Some("TARGET_PROTECTED")), false, false,
                         io => Decide(io), t0);
        return;
      }
      res, t := DecideOnBudget(rid, now, t0);
    }

    /** The rate limit, for a target that is allowed. */
    method DecideOnBudget(rid: Rid, now: int, ghost t0: SysTrail) returns (res: Result<Report>, ghost t: SysTrail)
      requires !storageFailed && rid in records && records[rid].rid == rid && records[rid].number == 1
      requires SysSound(cfg, t0)
      requires var r := records[rid];
               forall io :: Do(cfg, t0.sys, Decide(io))
                 == if OverBudget(cfg, store.Contents(), r.command.body.policyId, now)
                    then Fail(Abs(), r, now, "RATE_LIMITED", io)
                    else Save(Abs(), r.(authorized := true), None, io, Idle, calls)
      modifies this, store
      ensures Traced(t0.was, t) && flight.Idle?
      ensures res.Ok? <==> !storageFailed
      ensures res.Ok? ==>
                && !res.value.deduplicated
                && store.admissions == old(store.admissions)
                && var r := old(records[rid]);
                   && (res.value.accepted <==> !OverBudget(cfg, store.Contents(), r.command.body.policyId, now))
                   && records == old(records)[rid := Decided(r, res.value.accepted)]
    {
      var r := records[rid];
      var over := BudgetSpent(r.command.body.policyId, now);
      if over {
        res, t := Settle(r, FailedState, now, NoDetail.(failure := Some("RATE_LIMITED")), false, false,
                         io => Decide(io), t0);
        return;
      }
      res, t := Authorize(rid, t0);
    }

    method BudgetSpent(policyId: string, now: int) returns (over: bool)
      ensures over == OverBudget(cfg, store.Contents(), policyId, now)
    {
      var n := store.RequestsSince(policyId, now - cfg.catalog.windowSeconds * SECOND);
      over := n > cfg.catalog.maxActions;
    }

    method Authorize(rid: Rid, ghost t0: SysTrail) returns (res: Result<Report>, ghost t: SysTrail)
      requires !storageFailed && rid in records && records[rid].rid == rid && SysSound(cfg, t0)
      requires forall io :: Do(cfg, t0.sys, Decide(io))
                 == Save(Abs(), records[rid].(authorized := true), None, io, Idle, calls)
      modifies this, store
      ensures Traced(t0.was, t) && flight.Idle?
      ensures res.Ok? <==> !storageFailed
      ensures res.Ok? ==> && res == Ok(Report(Requested, true, false)) && store.admissions == old(store.admissions)
                          && records == old(records)[rid := old(records[rid]).(authorized := true)]
    {
      var ok;
      ghost var io;
      ok, io := Checkpoint(records[rid].(authorized := true), None, Idle, calls);
      t := SysNext(cfg, t0, Decide(io));
      res := if ok then Ok(Report(Requested, true, false)) else Raised;
    }

    /** Does another response hold the target of this one? */
    method TargetBusy(rid: Rid, c: Command) returns (busy: bool)
      ensures busy == Busy(cfg, records, rid, c)
    {
      busy := false;
      var todo := records.Keys;
      while todo != {}
        invariant todo <= records.Keys
        invariant forall other :: other in records && other !in todo ==>
                    !(records[other].rid != rid && Unresolved(records[other])
                      && IdentityOf(cfg, records[other].command) == IdentityOf(cfg, c))
        decreases todo
      {
        var other :| other in todo;
        if records[other].rid != rid && Unresolved(records[other])
           && IdentityOf(cfg, records[other].command) == IdentityOf(cfg, c) {
          return true;
        }
        todo := todo - {other};
      }
    }

    /** A queued response leaves the queue, towards APPLIED on every peer or towards FAILED, unless it is
        refused. */
    method Apply(rid: Rid, now: int) returns (res: Result<Report>, ghost t: SysTrail)
      requires Valid()
      modifies this, store, adapter.Footprint()
      ensures Valid() && Traced(old(Abs()), t)
      ensures !storageFailed ==> (res.Raised? <==> Refused(cfg, old(records), rid, now))
      ensures res.Raised? && !storageFailed ==> Abs() == old(Abs())
      ensures res.Ok? ==> !storageFailed && rid in old(records) && Queued(old(records[rid]))
      ensures res.Ok? ==> records - {rid} == old(records) - {rid} && rid in records
      ensures res.Ok? ==> Tried(cfg, old(records[rid]), records[rid], now)
      ensures res.Ok? ==> res.value.state == records[rid].state && records[rid].state in {Applied, FailedState}
      ensures res.Ok? ==> (res.value.accepted <==> records[rid].state.Applied?)
      ensures res.Ok? && res.value.accepted && old(records[rid]).command.body.action.BlockIp? ==>
                var c := old(records[rid]).command;
                Effective(CallApply, adapter.States(), AddressOf(cfg, c), c.body.key)
    {
      hide Do, Run, BlocklistAdapter.States, Reachable;
      ghost var s := Abs();
      t := SysBegin(cfg, s);
      if storageFailed || rid !in records || !Queued(records[rid]) { return Raised, t; }
      ValidFacts();
      var r := records[rid];
      ApplyStep(cfg, s, r, now);
      if now >= r.expiresAt {
        res, t := Settle(r, FailedState, now, NoDetail.(failure := Some("EXPIRED_BEFORE_APPLY")), false, false,
                         io => Step.Apply(rid, now, io), t);
      } else if !StillAuthorized(cfg, r, now) {
        res, t := Settle(r, FailedState, now, NoDetail.(failure := Some("REAUTHORIZATION_FAILED")), false, false,
                         io => Step.Apply(rid, now, io), t);
      } else {
        var busy := TargetBusy(rid, r.command);
        if busy { return Raised, t; }
        res, t := CallApplyOn(rid, now, t);
      }
      TracedKeeps(s, t);
    }

    method CallApplyOn(rid: Rid, now: int, ghost t0: SysTrail) returns (res: Result<Report>, ghost t: SysTrail)
      requires adapter.Wired() && !storageFailed && PeersInv(adapter.States())
      requires rid in records && records[rid].rid == rid
      requires SysSound(cfg, t0)
      requires forall io :: Do(cfg, t0.sys, Step.Apply(rid, now, io)) == BeginApply(Abs(), records[rid], now, io)
      modifies this, store, adapter.Footprint()
      ensures Traced(t0.was, t) && flight.Idle?
      ensures res.Ok? <==> !storageFailed
      ensures res.Ok? ==> && records - {rid} == old(records) - {rid} && rid in records
                          && res.value.state == records[rid].state && records[rid].state in {Applied, FailedState}
                          && (res.value.accepted <==> records[rid].state.Applied?)
                          && records[rid].command == old(records[rid].command) && Unresolved(records[rid])
      ensures res.Ok? && res.value.accepted && old(records[rid]).command.body.action.BlockIp? ==>
                var c := old(records[rid]).command;
                Effective(CallApply, adapter.States(), AddressOf(cfg, c), c.body.key)
    {
      hide Do, SQLiteResponseStore.Contents, BlocklistAdapter.States;
      var r := records[rid];
      r := r.(reference := RecoveryReference(r.command.body.action, r.command.body.key));
      var ok;
      ok, t := BeginOperation(r, CallApply, OpApply, now, NoGoal, io => Step.Apply(rid, now, io), t0);
      if !ok { return Raised, t; }
      var o;
      o, t := Invoke(CallApply, Begun(r, OpApply, now), now, NoGoal, t);
      res, t := EndApply(rid, now, o, t);
    }

    method EndApply(rid: Rid, now: int, o: Outcome, ghost t0: SysTrail) returns (res: Result<Report>, ghost t: SysTrail)
      requires !storageFailed && rid in records && records[rid].rid == rid && records[rid].pending.Some?
      requires flight == Calling(CallApply, rid, now, NoGoal, Returned(o))
      requires Traced(t0.was, t0)
      modifies this, store
      ensures Traced(t0.was, t) && flight.Idle?
      ensures res.Ok? <==> !storageFailed
      ensures res.Ok? ==> && records - {rid} == old(records) - {rid} && rid in records
                          && res.value.state == records[rid].state
                          && records[rid].state == (if ApplySucceeded(o) then Applied else FailedState)
                          && (res.value.accepted <==> ApplySucceeded(o))
                          && records[rid].command == old(records[rid].command) && Unresolved(records[rid])
    {
      var r := records[rid];
      calls := Log(calls, rid, Ended(CallApply, o, now));
      FinishedCall(cfg, t0.sys, r, Abs());
      if !ApplySucceeded(o) {
        res, t := Settle(r, FailedState, now, NoDetail.(failure := Some("ADAPTER_APPLY_FAILED")), false, false,
                         io => Finish(io), t0);
        return;
      }
      var detail := NoDetail.(application := Some(Application(FloorMs(now), o.reference)));
      res, t := Settle(r.(reference := o.reference), Applied, now, detail, true, true, io => Finish(io), t0);
    }

    /** An APPLIED response moves to VERIFIED, ROLLED_BACK or FAILED; after its expiry never to VERIFIED. */
    method Verify(rid: Rid, now: int) returns (res: Result<Report>, ghost t: SysTrail)
      requires Valid()
      modifies this, store, adapter.Footprint()
      ensures Valid() && Traced(old(Abs()), t)
      ensures res.Raised? && !storageFailed ==>
                && Abs() == old(Abs())
                && (rid in records ==> !records[rid].state.Applied? || records[rid].pending.Some?)
      ensures res.Ok? ==> && !storageFailed && rid in old(records) && old(records[rid]).state.Applied?
                          && old(records[rid]).pending.None?
      ensures res.Ok? ==> && records - {rid} == old(records) - {rid} && rid in records
                          && res.value.state == records[rid].state
                          && records[rid].state in {Verified, RolledBack, FailedState}
                          && (records[rid].state.Verified? ==> now < records[rid].expiresAt)
      ensures res.Ok? && records[rid].state.Verified? && old(records[rid]).command.body.action.BlockIp? ==>
                var c := old(records[rid]).command;
                Effective(CallVerify, adapter.States(), AddressOf(cfg, c), c.body.key)
    {
      ghost var s := Abs();
      t := SysBegin(cfg, s);
      if storageFailed || rid !in records || !records[rid].state.Applied? || records[rid].pending.Some? {
        return Raised, t;
      }
      ValidFacts();
      var r := records[rid];
      if now >= r.expiresAt {
        res, t := RevertRecord(rid, now, Goal(RolledBack, TtlExpired, None), io => Step.Verify(rid, now, io), t);
      } else {
        AppliedHasApplication(cfg, s, rid);
        res, t := CallVerifyOn(rid, now, t);
      }
      TracedKeeps(s, t);
    }

    method CallVerifyOn(rid: Rid, now: int, ghost t0: SysTrail) returns (res: Result<Report>, ghost t: SysTrail)
      requires adapter.Wired() && !storageFailed && PeersInv(adapter.States())
      requires rid in records && records[rid].rid == rid && records[rid].state.Applied? && records[rid].pending.None?
      requires flight.Idle? && now < records[rid].expiresAt
      requires LastApplication(Events(store.Contents(), rid)).Some?
      requires Traced(t0.was, t0)
      modifies this, store, adapter.Footprint()
      ensures Traced(t0.was, t) && flight.Idle?
      ensures res.Ok? <==> !storageFailed
      ensures res.Ok? ==> && records - {rid} == old(records) - {rid} && rid in records
                          && records[rid].expiresAt == old(records[rid].expiresAt)
                          && res.value.state == records[rid].state
                          && records[rid].state in {Verified, RolledBack, FailedState}
      ensures res.Ok? && records[rid].state.Verified? && old(records[rid]).command.body.action.BlockIp? ==>
                var c := old(records[rid]).command;
                Effective(CallVerify, adapter.States(), AddressOf(cfg, c), c.body.key)
    {
      hide BlocklistAdapter.States, Effective;
      var r := records[rid];
      flight := Calling(CallVerify, rid, now, NoGoal, StartSaga(r.command, CallVerify));
      calls := Log(calls, rid, Began(CallVerify));
      t := SysNext(cfg, t0, Step.Verify(rid, now, Commits));
      var o;
      o, t := Invoke(CallVerify, r, now, NoGoal, t);
      res, t := EndVerify(rid, now, o, t);
    }

    /** The evidence of a verification becomes an event. */
    method Promote(rid: Rid, now: int, o: Outcome, ghost t0: SysTrail) returns (res: Result<Report>, ghost t: SysTrail)
      requires !storageFailed && rid in records && records[rid].rid == rid && Proved(o) && SysSound(cfg, t0)
      requires LastApplication(Events(store.Contents(), rid)).Some?
      requires forall io :: Do(cfg, t0.sys, Finish(io)) == FinishVerify(Abs(), records[rid], now, o, io)
      modifies this, store
      ensures Traced(t0.was, t) && flight.Idle?
      ensures res.Ok? <==> !storageFailed
      ensures res.Ok? ==> && res.value.state == Verified
                          && records == old(records)[rid := Moved(old(records[rid]), Verified, false)]
    {
      var r := records[rid];
      var application := ApplicationOnRecord(rid);
      var detail := NoDetail.(application := Some(Application(application.value.appliedAt, r.reference)),
                              verification := Some(Verification(FloorMs(now), o.evidence)));
      res, t := Settle(r, Verified, now, detail, false, true, io => Finish(io), t0);
    }

    method EndVerify(rid: Rid, now: int, o: Outcome, ghost t0: SysTrail) returns (res: Result<Report>, ghost t: SysTrail)
      requires adapter.Wired() && !storageFailed && PeersInv(adapter.States())
      requires rid in records && records[rid].rid == rid && records[rid].state.Applied?
      requires flight == Calling(CallVerify, rid, now, NoGoal, Returned(o))
      requires LastApplication(Events(store.Contents(), rid)).Some?
      requires Traced(t0.was, t0)
      modifies this, store, adapter.Footprint()
      ensures Traced(t0.was, t) && flight.Idle?
      ensures res.Ok? <==> !storageFailed
      ensures res.Ok? ==> && records - {rid} == old(records) - {rid} && rid in records
                          && records[rid].expiresAt == old(records[rid].expiresAt)
                          && res.value.state == records[rid].state
                          && records[rid].state == (if Proved(o) then Verified
                                                    else if res.value.state.RolledBack? then RolledBack
                                                    else FailedState)
      ensures Proved(o) ==> adapter.States() == old(adapter.States())
    {
      hide Do, SQLiteResponseStore.Contents, Save;
      var r := records[rid];
      calls := Log(calls, rid, Ended(CallVerify, o, now));
      FinishedCall(cfg, t0.sys, r, Abs());
      if Proved(o) {
        res, t := Promote(rid, now, o, t0);
      } else {
        res, t := RevertRecord(rid, now, Goal(RolledBack, FailedVerification, Some("VERIFICATION_FAILED")),
                               io => Finish(io), t0);
        if res.Ok? { res := Ok(res.value.(accepted := false)); }
      }
    }

    /** An unresolved response is taken back, whatever state it is in; every other request is refused. */
    method Rollback(rid: Rid, cause: Cause, now: int) returns (res: Result<Report>, ghost t: SysTrail)
      requires Valid()
      modifies this, store, adapter.Footprint()
      ensures Valid() && Traced(old(Abs()), t)
      ensures res.Raised? && !storageFailed ==>
                && Abs() == old(Abs())
                && (cause !in {Manual, Recovery} || rid !in records || !Unresolved(records[rid]))
      ensures res.Ok? ==>
                && !storageFailed && rid in old(records) && Unresolved(old(records[rid]))
                && records == old(records)[rid := Reverted(Begun(old(records[rid]), OpRevert, now),
                                                           Goal(RolledBack, cause, None), res.value.accepted)]
    {
      ghost var s := Abs();
      t := SysBegin(cfg, s);
      if storageFailed || cause !in {Manual, Recovery} || rid !in records || !Unresolved(records[rid]) {
        return Raised, t;
      }
      ValidFacts();
      res, t := RevertRecord(rid, now, Goal(RolledBack, cause, None), io => Step.Rollback(rid, now, cause, io), t);
      TracedKeeps(s, t);
    }

    /** One response of a sweep. */
    method SweepOne(rid: Rid, goal: Goal, now: int, reports: map<Rid, Report>, ghost first: Io -> Step,
                    ghost before: map<Rid, Record>, ghost done: set<Rid>, ghost goals: map<Rid, Goal>,
                    ghost t0: SysTrail)
      returns (ok: bool, reports': map<Rid, Report>, ghost t: SysTrail)
      requires Valid() && !storageFailed && Reachable(cfg, t0.was) && Traced(t0.was, t0)
      requires Swept(before, done, goals, now, records, reports)
      requires rid in before && rid !in done && rid in goals && goals[rid] == goal
      requires records[rid] == before[rid] ==>
                 forall io :: Do(cfg, Abs(), first(io)) == BeginRevert(Abs(), records[rid], now, goal, io)
      modifies this, store, adapter.Footprint()
      ensures Valid() && Traced(t0.was, t)
      ensures ok == !storageFailed
      ensures ok ==> Swept(before, done + {rid}, goals, now, records, reports')
      ensures ok ==> && reports'.Keys == reports.Keys + {rid}
                     && (forall other :: other in reports && other != rid ==> reports'[other] == reports[other])
                     && Spares(cfg, before[rid].command, old(adapter.States()), t.sys.peers)
                     && RevertTells(cfg, before[rid].command, adapter.Steady(), old(adapter.States()),
                                    reports'[rid].accepted)
    {
      hide Do, Run, BlocklistAdapter.Footprint;
      ValidFacts();
      assert records[rid] == SweptRecord(before[rid], rid, goals, reports, now);
      var res;
      res, t := RevertRecord(rid, now, goal, first, t0);
      TracedKeeps(t0.was, t);
      ok := res.Ok?;
      reports' := if ok then reports[rid := res.value] else reports;
    }

    /** One record of the sweep at expiry, due or not. */
    method ExpireOne(rid: Rid, now: int, reports: map<Rid, Report>, ghost before: map<Rid, Record>,
                     ghost done: set<Rid>, ghost was: seq<Peer>, ghost t0: SysTrail)
      returns (ok: bool, reports': map<Rid, Report>, ghost t: SysTrail)
      requires Valid() && !storageFailed && Reachable(cfg, t0.was) && Traced(t0.was, t0)
      requires rid in before && rid !in done && Rivalless(cfg, before)
      requires Swept(before, done, ExpiryGoals(before, now), now, records, reports)
      requires Told(cfg, before, adapter.Steady(), was, reports)
      requires Ahead(cfg, before, before.Keys - done, was, adapter.States())
      modifies this, store, adapter.Footprint()
      ensures Valid() && Traced(t0.was, t)
      ensures ok == !storageFailed
      ensures ok ==> && Swept(before, done + {rid}, ExpiryGoals(before, now), now, records, reports')
                     && Told(cfg, before, adapter.Steady(), was, reports')
                     && Ahead(cfg, before, before.Keys - done - {rid}, was, t.sys.peers)
    {
      hide Rivalless, Do;
      assert records[rid] == SweptRecord(before[rid], rid, ExpiryGoals(before, now), reports, now);
      var r := records[rid];
      if !Unresolved(r) || now < r.expiresAt { return true, reports, t0; }
      var goal := Goal(if r.state.Verified? then Expired else RolledBack, TtlExpired, None);
      ghost var peers := adapter.States();
      ExpireStep(cfg, Abs(), rid, now, goal);
      ok, reports', t := SweepOne(rid, goal, now, reports, io => Step.Expire(rid, now, io), before, done,
                                  ExpiryGoals(before, now), t0);
      if ok {
        SweepMovesOn(cfg, before, done, rid, adapter.Steady(), was, peers, t.sys.peers, reports, reports');
      }
    }

    /** The sweep at expiry: exactly the unresolved records past it are taken back. What each report says
        of the peers before the sweep does not depend on the order of the sweep. */
    method ExpireDue(now: int) returns (res: Result<map<Rid, Report>>, ghost t: SysTrail)
      requires Valid()
      modifies this, store, adapter.Footprint()
      ensures Valid() && Traced(old(Abs()), t)
      ensures res.Ok? <==> !storageFailed
      ensures res.Ok? ==> Swept(old(records), old(records).Keys, ExpiryGoals(old(records), now), now, records, res.value)
      ensures res.Ok? ==> Told(cfg, old(records), adapter.Steady(), old(adapter.States()), res.value)
    {
      hide Do, BlocklistAdapter.Steady, Rivalless;
      ghost var s, before, was, done := Abs(), records, adapter.States(), {};
      t := SysBegin(cfg, s);
      if storageFailed { return Raised, t; }
      RecordsAreRivalless(cfg, s);
      var todo, reports := records.Keys, map[];
      while todo != {}
        invariant Valid() && Traced(s, t) && !storageFailed
        invariant done !! todo && done + todo == before.Keys
        invariant Swept(before, done, ExpiryGoals(before, now), now, records, reports)
        invariant Told(cfg, before, adapter.Steady(), was, reports)
        invariant Ahead(cfg, before, before.Keys - done, was, adapter.States())
        decreases todo
      {
        var rid :| rid in todo;
        var ok;
        ok, reports, t := ExpireOne(rid, now, reports, before, done, was, t);
        if !ok { return Raised, t; }
        assert before.Keys - done - {rid} == before.Keys - (done + {rid});
        todo, done := todo - {rid}, done + {rid};
      }
      res := Ok(reports);
    }

    /** The sweep after a restart: exactly the records with an unfinished operation are taken back; no
        adapter is asked to apply again. */
    method RecoverPending(now: int) returns (res: Result<map<Rid, Report>>, ghost t: SysTrail)
      requires Valid()
      modifies this, store, adapter.Footprint()
      ensures Valid() && Traced(old(Abs()), t)
      ensures res.Ok? <==> !storageFailed
      ensures res.Ok? ==> Swept(old(records), old(records).Keys, RecoveryGoals(old(records)), now, records, res.value)
    {
      hide Do, BlocklistAdapter.Footprint, SQLiteResponseStore.Contents, BeginRevert;
      ghost var s, before := Abs(), records;
      t := SysBegin(cfg, s);
      if storageFailed { return Raised, t; }
      ghost var goals, done := RecoveryGoals(records), {};
      var todo, reports := records.Keys, map[];
      while todo != {}
        invariant Valid() && Traced(s, t) && !storageFailed
        invariant done !! todo && done + todo == before.Keys && Swept(before, done, goals, now, records, reports)
        decreases todo
      {
        var rid :| rid in todo;
        assert records[rid] == SweptRecord(before[rid], rid, goals, reports, now);
        if records[rid].pending.Some? {
          RecoverStep(cfg, Abs(), rid, now);
          var ok;
          ok, reports, t := SweepOne(rid, Goal(RolledBack, Recovery, None), now, reports,
                                     io => Step.Recover(rid, now, io), before, done, goals, t);
          if !ok { return Raised, t; }
        }
        todo, done := todo - {rid}, done + {rid};
      }
      res := Ok(reports);
    }
  }
}
