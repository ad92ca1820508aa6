/** What every reachable state of the lifecycle machine satisfies, and the proof step by step. */
module LifecycleInv {
  import opened Wrappers
  import opened Policy
  import opened Ownership
  import opened Blocklist
  import opened Audit
  import opened Store
  import opened Lifecycle

  // ----- the invariant ---------------------------------------------------------------------------------

  /** Which combinations of state, reference, authorization and pending operation occur. */
  predicate Shape(r: Record, intent: bool) {
    && (intent <==> r.reference != "")
    && (r.reference != "" ==> r.authorized)
    && (r.pending.Some? ==> r.reference != "")
    && (r.reference == "" ==> r.state in {Requested, FailedState})
    && (r.state in {Requested, FailedState} && r.reference != "" ==> r.pending.Some?)
    && (Terminal(r.state) ==> r.pending.None?)
    && (r.state in {Applied, Verified} ==> r.pending != Some(OpApply))
  }

  /** A call that ended with evidence at the instant an event records, in time. */
  predicate Witnesses(c: CallEvent, e: Event) {
    c.Ended? && c.op.CallVerify? && Proved(c.outcome) && FloorMs(c.at) == e.at && e.at <= e.expiresAt
  }

  /** The audit trail tells the truth about the privileged calls. */
  predicate Honest(r: Record, h: seq<Event>, calls: seq<CallEvent>) {
    && (r.reference == "" ==> calls == [])
    && (forall i :: 1 <= i < |calls| ==> calls[i] != Began(CallApply))
    && (HasApplication(h) ==>
          && LastApplication(h).Some?
          && |calls| >= 2 && calls[0] == Began(CallApply)
          && calls[1].Ended? && calls[1].op.CallApply? && ApplySucceeded(calls[1].outcome))
    && (forall i :: 0 <= i < |h| && h[i].state == Verified ==>
          exists j :: 2 <= j < |calls| && Witnesses(calls[j], h[i]))
    && (Terminal(r.state) ==>
          && calls != [] && var c := calls[|calls| - 1];
             c.Ended? && c.op.CallRevert? && Proved(c.outcome))
  }

  /** A stored response with its audit trail, its apply intent and its privileged calls. */
  predicate RespInv(cfg: Config, r: Record, h: seq<Event>, intent: bool, calls: seq<CallEvent>) {
    && r.rid == Rid(r.command.body.key)
    && FloorMs(r.expiresAt) == r.expiresAt
    && h != [] && |h| == r.number && h[|h| - 1].state == r.state
    && LegalHistory(h)
    && (forall i :: 0 <= i < |h| ==> EventMatches(h[i], r))
    && Authentic(cfg, r.command, h[0].at)
    && Shape(r, intent)
    && Honest(r, h, calls)
  }

  ghost predicate RespAt(cfg: Config, t: Tables, calls: map<Rid, seq<CallEvent>>, rid: Rid)
    requires rid in t.records
  {
    t.records[rid].rid == rid
    && RespInv(cfg, t.records[rid], Events(t, rid), rid in t.intents, CallsOf(calls, rid))
  }

  /** Every row of every table belongs to a stored response, and the index is the scan. */
  ghost predicate TablesInv(cfg: Config, t: Tables, calls: map<Rid, seq<CallEvent>>) {
    && (forall rid {:trigger RespAt(cfg, t, calls, rid)} :: rid in t.records ==> RespAt(cfg, t, calls, rid))
    && (forall e :: e in t.audit ==> e.rid in t.records)
    && (forall rid :: rid in t.intents ==> rid in t.records)
    && (forall rid :: rid in calls ==> rid in t.records)
    && t.admissions == Scan(t.audit)
  }

  /** Memory mirrors the snapshots, up to the rounding of the expiry. */
  predicate Mirrors(ram: Ram, t: Tables) {
    ram.Live? ==>
      && ram.records.Keys == t.records.Keys
      && (forall rid :: rid in ram.records ==> Snapshot(ram.records[rid]) == t.records[rid])
      && (forall k :: k in ram.dedup ==> Rid(k) in ram.records)
  }

  predicate BlocksFor(cfg: Config, t: Tables, a: Addr, k: Key) {
    && Rid(k) in t.records
    && var r := t.records[Rid(k)];
       Unresolved(r) && r.command.body.action.BlockIp? && AddressOf(cfg, r.command) == a
  }

  /** Every ownership on every peer is the business of a stored, unresolved block. */
  ghost predicate Accounted(cfg: Config, t: Tables, peers: seq<Peer>) {
    forall i, a, k {:trigger Owns(peers[i], a, k)} ::
      0 <= i < |peers| && Owns(peers[i], a, k) ==> BlocksFor(cfg, t, a, k)
  }

  /** Two unresolved responses do not compete for a target. */
  predicate Apart(cfg: Config, t: Tables, x: Rid, y: Rid)
    requires x in t.records && y in t.records
  {
    x != y && Unresolved(t.records[x]) && Unresolved(t.records[y]) ==>
      IdentityOf(cfg, t.records[x].command) != IdentityOf(cfg, t.records[y].command)
  }

  ghost predicate Exclusive(cfg: Config, t: Tables) {
    forall x, y {:trigger Apart(cfg, t, x, y)} :: x in t.records && y in t.records ==> Apart(cfg, t, x, y)
  }

  /** The invariant without the operation in flight. */
  ghost predicate Core(cfg: Config, s: Sys) {
    && |s.peers| >= 2 && PeersInv(s.peers)
    && TablesInv(cfg, s.tables, s.calls)
    && Mirrors(s.ram, s.tables)
    && Accounted(cfg, s.tables, s.peers)
    && Exclusive(cfg, s.tables)
  }

  /** The record an operation in flight works on. */
  predicate FlightFits(op: CallOp, at: int, goal: Goal, r: Record, calls: seq<CallEvent>) {
    && calls != [] && calls[|calls| - 1] == Began(op)
    && match op
       case CallApply => r.state.Requested? && r.pending == Some(OpApply) && calls == [Began(CallApply)]
       case CallVerify => r.state.Applied? && r.pending.None? && at < r.expiresAt
       case CallRevert =>
         && r.pending == Some(OpRevert) && !Terminal(r.state) && Terminal(goal.terminal)
         && (goal.terminal.Expired? ==> r.state.Verified?)
  }

  predicate SagaFits(cfg: Config, peers: seq<Peer>, c: Command, op: CallOp, saga: Saga) {
    if c.body.action.BlockIp? then SagaInv(peers, AddressOf(cfg, c), c.body.key, op, saga)
    else saga.AtHost? || saga.Returned?
  }

  ghost predicate FlightInv(cfg: Config, s: Sys) {
    s.ram.Live? ==>
      match s.flight
      case Idle => true
      case Submitting(rid, at) =>
        && rid in s.ram.records
        && var r := s.ram.records[rid];
           && r.rid == rid && r.state.Requested? && !r.authorized && r.reference == "" && r.number == 1
           && Events(s.tables, rid) != [] && Events(s.tables, rid)[0].at == FloorMs(at)
      case Calling(op, rid, at, goal, saga) =>
        && rid in s.ram.records
        && var r := s.ram.records[rid];
           && r.rid == rid
           && FlightFits(op, at, goal, r, CallsOf(s.calls, rid))
           && SagaFits(cfg, s.peers, r.command, op, saga)
  }

  ghost predicate SysInv(cfg: Config, s: Sys) {
    Core(cfg, s) && FlightInv(cfg, s)
  }

  // ----- checkpoints ---------------------------------------------------------------------------------------

  /** The trail of a response after a checkpoint. */
  function TrailAfter(t: Tables, r: Record, event: Option<Event>): seq<Event> {
    if event.Some? then Events(t, r.rid) + [event.value] else Events(t, r.rid)
  }

  lemma EventsAfter(t: Tables, r: Record, event: Option<Event>, rid: Rid)
    requires event.Some? ==> event.value.rid == r.rid
    ensures Events(Committed(t, r, event), rid) == if rid == r.rid then TrailAfter(t, r, event) else Events(t, rid)
  {
    if event.Some? { HistoryAppend(t.audit, event.value, rid); }
  }

  /** Numbers in a legal trail are used up to its length. */
  lemma NextNumberIsFree(audit: seq<Event>, rid: Rid, e: Event)
    requires LegalHistory(History(audit, rid)) && e in audit && e.rid == rid
    ensures 1 <= e.number <= |History(audit, rid)|
  {
    var h := History(audit, rid);
    var i :| 0 <= i < |audit| && audit[i] == e;
    HistoryHasEvent(audit, i);
    var j :| 0 <= j < |h| && h[j] == e;
    LegalShape(h, j);
  }

  /** A checkpoint of a record that fits its trail is never refused. */
  lemma FittingCheckpointAccepted(t: Tables, r: Record, event: Option<Event>)
    requires event.Some? ==> event.value.rid == r.rid
    requires var h := TrailAfter(t, r, event);
             LegalHistory(h) && h != [] && |h| == r.number && h[|h| - 1].state == r.state
    requires r.rid in t.records ==>
               t.records[r.rid].command == r.command && t.records[r.rid].expiresAt == r.expiresAt
    requires event.None? && r.pending == Some(OpApply) ==> r.rid !in t.intents
    ensures CheckpointAccepts(t, r, event)
  {
    hide LegalHistory, ValidTransition, History;
    if event.Some? { NextEventFits(t.audit, r.rid, event.value); }
    LastNumber(TrailAfter(t, r, event));
  }

  lemma LastNumber(h: seq<Event>)
    requires LegalHistory(h) && h != []
    ensures h[|h| - 1].number == |h|
  {
    LegalShape(h, |h| - 1);
  }

  /** An event that makes a trail longer is acceptable, and its number is new. */
  lemma NextEventFits(audit: seq<Event>, rid: Rid, event: Event)
    requires LegalHistory(History(audit, rid) + [event])
    ensures ValidTransition(event, History(audit, rid))
    ensures forall e :: e in audit ==> !(e.rid == rid && e.number == event.number)
  {
    hide LegalHistory, ValidTransition, History;
    var h := History(audit, rid);
    LegalAppend(h, event);
    LastNumber(h + [event]);
    forall e | e in audit && e.rid == rid ensures e.number != event.number {
      NextNumberIsFree(audit, rid, e);
    }
  }

  /** What a checkpoint must respect of the responses it does not touch. */
  ghost predicate Considerate(cfg: Config, s: Sys, r: Record) {
    var known := r.rid in s.tables.records;
    && (known ==> s.tables.records[r.rid].command == r.command
                  && s.tables.records[r.rid].expiresAt == FloorMs(r.expiresAt))
    && (Unresolved(r) && !(known && Unresolved(s.tables.records[r.rid])) ==>
          s.ram.Live? && !Busy(cfg, s.ram.records, r.rid, r.command))
    && (known && !Unresolved(r) && Unresolved(s.tables.records[r.rid]) ==>
          forall i, a {:trigger Owns(s.peers[i], a, r.rid.key)} ::
            0 <= i < |s.peers| ==> !Owns(s.peers[i], a, r.rid.key))
  }

  lemma CommitKeepsTables(cfg: Config, t: Tables, calls: map<Rid, seq<CallEvent>>, r: Record,
                          event: Option<Event>, calls': map<Rid, seq<CallEvent>>)
    requires TablesInv(cfg, t, calls)
    requires event.Some? ==> event.value.rid == r.rid
    requires RespInv(cfg, r, TrailAfter(t, r, event), r.rid in Committed(t, r, event).intents,
                     CallsOf(calls', r.rid))
    requires forall rid :: rid != r.rid ==> CallsOf(calls', rid) == CallsOf(calls, rid)
    requires forall rid :: rid in calls' ==> rid in calls || rid == r.rid
    ensures TablesInv(cfg, Committed(t, r, event), calls')
  {
    var t' := Committed(t, r, event);
    forall rid | rid in t'.records ensures RespAt(cfg, t', calls', rid) {
      EventsAfter(t, r, event, rid);
      if rid != r.rid { assert RespAt(cfg, t, calls, rid); }
    }
    IndexIsScan(t, r, event);
  }

  lemma CommitKeepsAccounts(cfg: Config, s: Sys, r: Record, event: Option<Event>)
    requires Core(cfg, s) && Considerate(cfg, s, r)
    ensures Accounted(cfg, Committed(s.tables, Snapshot(r), event), s.peers)
  {
    forall i, a, k {:trigger Owns(s.peers[i], a, k)} | 0 <= i < |s.peers| && Owns(s.peers[i], a, k)
      ensures BlocksFor(cfg, Committed(s.tables, Snapshot(r), event), a, k)
    {
      assert BlocksFor(cfg, s.tables, a, k);
      if Rid(k) == r.rid { assert Owns(s.peers[i], a, r.rid.key); }
    }
  }

  predicate Named(t: Tables) {
    forall rid :: rid in t.records ==> t.records[rid].rid == rid
  }

  lemma TablesAreNamed(cfg: Config, t: Tables, calls: map<Rid, seq<CallEvent>>)
    requires TablesInv(cfg, t, calls)
    ensures Named(t)
  {
    forall rid | rid in t.records ensures t.records[rid].rid == rid {
      assert RespAt(cfg, t, calls, rid);
    }
  }

  /** The search for a competitor in memory sees every stored one. */
  lemma NotBusyMeansAlone(cfg: Config, s: Sys, r: Record, other: Rid)
    requires s.ram.Live? && Mirrors(s.ram, s.tables) && Named(s.tables) && !Busy(cfg, s.ram.records, r.rid, r.command)
    requires other in s.tables.records && other != r.rid && Unresolved(s.tables.records[other])
    ensures IdentityOf(cfg, s.tables.records[other].command) != IdentityOf(cfg, r.command)
  {
    assert Snapshot(s.ram.records[other]) == s.tables.records[other];
    assert s.ram.records[other].rid == other;
  }

  lemma ChangedRecordStaysExclusive(cfg: Config, t: Tables, r: Record, event: Option<Event>)
    requires Exclusive(cfg, t) && Named(t)
    requires r.rid in t.records ==> t.records[r.rid].command == r.command
    requires Unresolved(r) && !(r.rid in t.records && Unresolved(t.records[r.rid])) ==>
               forall other :: other in t.records && other != r.rid && Unresolved(t.records[other]) ==>
                 IdentityOf(cfg, t.records[other].command) != IdentityOf(cfg, r.command)
    ensures Exclusive(cfg, Committed(t, r, event))
  {
    var t' := Committed(t, r, event);
    forall x, y {:trigger Apart(cfg, t', x, y)} | x in t'.records && y in t'.records
      ensures Apart(cfg, t', x, y)
    {
      if x != r.rid && y != r.rid {
        assert Apart(cfg, t, x, y);
      } else if x != y && r.rid in t.records {
        assert Apart(cfg, t, x, y);
      }
    }
  }

  lemma CommitKeepsExclusive(cfg: Config, s: Sys, r: Record, event: Option<Event>)
    requires Exclusive(cfg, s.tables) && Named(s.tables) && Mirrors(s.ram, s.tables)
    requires s.ram.Live? && Considerate(cfg, s, r)
    ensures Exclusive(cfg, Committed(s.tables, Snapshot(r), event))
  {
    var t := s.tables;
    if Unresolved(r) && !(r.rid in t.records && Unresolved(t.records[r.rid])) {
      forall other | other in t.records && other != r.rid && Unresolved(t.records[other])
        ensures IdentityOf(cfg, t.records[other].command) != IdentityOf(cfg, r.command)
      {
        NotBusyMeansAlone(cfg, s, r, other);
      }
    }
    ChangedRecordStaysExclusive(cfg, t, Snapshot(r), event);
  }

  lemma CommitMirrors(ram: Ram, t: Tables, dedup: map<Key, int>, r: Record, event: Option<Event>)
    requires Mirrors(ram, t) && ram.Live?
    requires forall k :: k in dedup ==> k in ram.dedup || Rid(k) == r.rid
    ensures Mirrors(Live(ram.records[r.rid := r], dedup), Committed(t, Snapshot(r), event))
  {
  }

  /** One checkpoint: it is accepted, and whichever way it ends the invariant survives. */
  lemma SaveKeeps(cfg: Config, s: Sys, r: Record, event: Option<Event>, io: Io, flight: Flight,
                  calls: map<Rid, seq<CallEvent>>)
    requires Core(cfg, s) && s.ram.Live? && Considerate(cfg, s, r)
    requires event.Some? ==> event.value.rid == r.rid
    requires event.None? && r.pending == Some(OpApply) ==> r.rid !in s.tables.intents
    requires var snapshot := Snapshot(r);
             var h := TrailAfter(s.tables, snapshot, event);
             var intent := r.rid in Committed(s.tables, snapshot, event).intents;
             && RespInv(cfg, snapshot, h, intent, CallsOf(s.calls, r.rid))
             && RespInv(cfg, snapshot, h, intent, CallsOf(calls, r.rid))
    requires forall rid :: rid != r.rid ==> CallsOf(calls, rid) == CallsOf(s.calls, rid)
    requires forall rid :: rid in calls ==> rid in s.calls || rid == r.rid
    ensures CheckpointAccepts(s.tables, Snapshot(r), event)
    ensures Core(cfg, Save(s, r, event, io, flight, calls))
  {
    hide TablesInv, CheckpointAccepts;
    var snapshot := Snapshot(r);
    FittingCheckpointAccepted(s.tables, snapshot, event);
    if io.Commits? {
      CommitKeepsTables(cfg, s.tables, s.calls, snapshot, event, calls);
    } else if io.LostAfter? {
      CommitKeepsTables(cfg, s.tables, s.calls, snapshot, event, s.calls);
    }
    if !io.LostBefore? {
      CommitKeepsAccounts(cfg, s, r, event);
      TablesAreNamed(cfg, s.tables, s.calls);
      CommitKeepsExclusive(cfg, s, r, event);
      CommitMirrors(s.ram, s.tables, s.ram.dedup, r, event);
    }
  }
}
