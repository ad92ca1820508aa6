/** The blocklist adapter as the source writes it: loops over the peers' clients. */
module BlocklistAdapters {
  import opened Wrappers
  import opened Policy
  import opened Ownership
  import opened OwnershipClient
  import opened Blocklist

  /** The client steps of one call, replayed inside the saga that makes the call. */
  lemma {:induction false} LiftClient(peers: seq<Peer>, a: Addr, k: Key, reference: string, s: Saga, t: Trail)
    returns (lucks: Trace<Luck>)
    requires ClientPc(s).Some? && s.peer < |peers| && Tidy(peers[s.peer].owners)
    requires Sound(t) && t.Of(Get(peers[s.peer], a), k, ClientPc(s).value)
    ensures SagaRun(peers, a, k, reference, s, lucks)
            == (peers[s.peer := Put(peers[s.peer], a, t.cell)], AtPc(s, t.pc))
    decreases t.lucks
  {
    var p := peers[s.peer];
    if t.lucks.Start? {
      PutSame(p, a);
      assert peers[s.peer := p] == peers;
      lucks := Trace.Start;
    } else {
      var (c', pc') := ClientRun(t.was, k, t.start, t.lucks.before);
      var before := LiftClient(peers, a, k, reference, s, t.(lucks := t.lucks.before, cell := c', pc := pc'));
      if Finished(pc') {
        lucks := before;
      } else {
        lucks := Then(before, t.lucks.step);
        PutGet(p, a, c');
        PutTwice(p, a, c', t.cell);
        assert peers[s.peer := Put(p, a, c')][s.peer := Put(p, a, t.cell)]
               == peers[s.peer := Put(p, a, t.cell)];
      }
    }
  }

  /** A saga in progress: the run from where it began to where it stands. */
  datatype SagaTrail = SagaTrail(
    was: seq<Peer>, addr: Addr, key: Key, reference: string, start: Saga,
    lucks: Trace<Luck>, peers: seq<Peer>, saga: Saga)
  {
    predicate Of(peers0: seq<Peer>, a: Addr, k: Key, ref: string, op: CallOp) {
      was == peers0 && addr == a && key == k && reference == ref && start == StartOf(op)
    }
    predicate SameCall(t: SagaTrail) {
      was == t.was && addr == t.addr && key == t.key && reference == t.reference && start == t.start
    }
  }

  predicate SagaSound(t: SagaTrail) {
    SagaRun(t.was, t.addr, t.key, t.reference, t.start, t.lucks) == (t.peers, t.saga)
  }

  function BeginSaga(peers: seq<Peer>, a: Addr, k: Key, reference: string, op: CallOp): (t: SagaTrail)
    ensures SagaSound(t) && t.Of(peers, a, k, reference, op)
    ensures t.peers == peers && t.saga == StartOf(op)
  {
    SagaTrail(peers, a, k, reference, StartOf(op), Trace.Start, peers, StartOf(op))
  }

  function SagaNext(t: SagaTrail, luck: Luck): (t': SagaTrail)
    requires SagaSound(t)
    ensures SagaSound(t') && t'.SameCall(t)
    ensures (t'.peers, t'.saga) == SagaStep(t.peers, t.addr, t.key, t.reference, t.saga, luck)
  {
    var (peers', s') := SagaStep(t.peers, t.addr, t.key, t.reference, t.saga, luck);
    t.(lucks := Then(t.lucks, luck), peers := peers', saga := s')
  }

  /** The read-back of a revert. */
  lemma RevertMemberStep(t: SagaTrail, luck: Luck)
    requires SagaSound(t) && t.saga.RevertMember? && t.saga.peer < |t.peers|
    ensures var t', i := SagaNext(t, luck), t.saga.peer;
            var proved := luck.Works? && (t.addr !in t.peers[i].present || ReleasedWithoutRemoval(t.saga.tag));
            && t'.peers == t.peers
            && t'.saga == AfterRevert(|t.peers|, i, if proved then t.saga.evidence + 1 else t.saga.evidence,
                                      t.saga.failed || !proved, t.reference)
  {
  }

  lemma SagaClient(t: SagaTrail, c: Trail) returns (t': SagaTrail)
    requires SagaSound(t)
    requires ClientPc(t.saga).Some? && t.saga.peer < |t.peers| && Tidy(t.peers[t.saga.peer].owners)
    requires Sound(c) && c.Of(Get(t.peers[t.saga.peer], t.addr), t.key, ClientPc(t.saga).value)
    ensures SagaSound(t') && t'.SameCall(t)
    ensures t'.peers == t.peers[t.saga.peer := Put(t.peers[t.saga.peer], t.addr, c.cell)]
    ensures t'.saga == AtPc(t.saga, c.pc)
  {
    var more := LiftClient(t.peers, t.addr, t.key, t.reference, t.saga, c);
    SagaRunAppend(t.was, t.addr, t.key, t.reference, t.start, t.lucks, more);
    t' := t.(lucks := Append(t.lucks, more),
             peers := t.peers[t.saga.peer := Put(t.peers[t.saga.peer], t.addr, c.cell)],
             saga := AtPc(t.saga, c.pc));
  }

  /** A peer after a client call, wherever the call stopped. */
  lemma CalledPeer(p: Peer, a: Addr, c: Trail)
    requires PeerInv(p) && Sound(c) && c.was == Get(p, a) && c.start in {AddRead, RemoveRead}
    ensures PeerInv(Put(p, a, c.cell))
    ensures c.pc.AddDone? ==> Owns(Put(p, a, c.cell), a, c.key)
  {
    ClientRunKeepsCell(c.was, c.key, c.start, c.lucks);
    PutKeepsPeer(p, a, c.cell);
    PutGet(p, a, c.cell);
  }

  /** A peer after a remove that returned. */
  lemma ReleasedPeer(p: Peer, a: Addr, c: Trail)
    requires PeerInv(p) && Sound(c) && c.Of(Get(p, a), c.key, RemoveRead) && c.pc.RemoveDone?
    ensures Put(p, a, c.cell) == Released(p, a, c.key) && !Owns(Put(p, a, c.cell), a, c.key)
    ensures Revertible(p, a, c.key) <==> a !in Put(p, a, c.cell).present || ReleasedWithoutRemoval(c.pc.tag)
  {
    ReturnedIsComplete(c);
    SatisfiedWhenRevertible(p, a, c.key);
  }

  lemma ReleasedOwnNothing(was: seq<Peer>, peers: seq<Peer>, a: Addr, k: Key)
    requires PeersInv(was) && |peers| == |was|
    requires forall i :: 0 <= i < |peers| ==> peers[i] == Released(was[i], a, k)
    ensures forall i :: 0 <= i < |peers| ==> !Owns(peers[i], a, k)
  {
    forall i | 0 <= i < |peers| ensures !Owns(peers[i], a, k) {
      RemoveCompletes(Get(was[i], a), k);
      PutGet(was[i], a, Complete(Get(was[i], a), k, RemoveRead).0);
    }
  }

  /** The revert loop after `i` peers: whether it still succeeds, and what it left on them. */
  ghost predicate RevertedUpTo(was: seq<Peer>, now: seq<Peer>, a: Addr, k: Key, i: nat, answered: bool, failed: bool) {
    && i <= |was| == |now|
    && (!failed <==> answered && forall j :: 0 <= j < i ==> Revertible(was[j], a, k))
    && (answered ==> forall j :: 0 <= j < i ==> now[j] == Released(was[j], a, k))
    && (forall j :: i <= j < |was| ==> now[j] == was[j])
  }

  lemma RevertedNone(was: seq<Peer>, a: Addr, k: Key)
    ensures RevertedUpTo(was, was, a, k, 0, true, false)
  {
  }

  lemma RevertedNext(was: seq<Peer>, now: seq<Peer>, after: seq<Peer>, a: Addr, k: Key, i: nat,
                     answered: bool, failed: bool, here: bool, failed': bool)
    requires RevertedUpTo(was, now, a, k, i, answered, failed)
    requires i < |now| == |after| && after == now[i := after[i]]
    requires failed' <==> failed || !(here && Revertible(now[i], a, k))
    requires here ==> after[i] == Released(now[i], a, k)
    ensures RevertedUpTo(was, after, a, k, i + 1, answered && here, failed')
  {
    hide Revertible, Released;
  }

  lemma RevertedAll(was: seq<Peer>, now: seq<Peer>, a: Addr, k: Key, answered: bool, failed: bool)
    requires PeersInv(was) && RevertedUpTo(was, now, a, k, |was|, answered, failed)
    ensures !failed <==> answered && AllRevertible(was, a, k)
    ensures answered ==> forall i :: 0 <= i < |was| ==> now[i] == Released(was[i], a, k)
    ensures answered ==> forall i :: 0 <= i < |was| ==> !Owns(now[i], a, k)
  {
    hide Revertible, Released, Owns;
    if answered { ReleasedOwnNothing(was, now, a, k); }
  }

  class BlocklistAdapter {
    const peers: seq<OwnedBlocklistClient>

    constructor (peers: seq<OwnedBlocklistClient>)
      ensures this.peers == peers
    {
      this.peers := peers;
    }

    /** At least two peers, each with its own firewall set and ledger. */
    ghost predicate Wired() {
      && |peers| >= 2
      && forall i, j :: 0 <= i < j < |peers| ==>
           peers[i].raw != peers[j].raw && peers[i].ledger != peers[j].ledger
    }

    ghost function Footprint(): set<object> {
      (set i | 0 <= i < |peers| :: peers[i].raw as object) + (set i | 0 <= i < |peers| :: peers[i].ledger as object)
    }

    /** Every peer always answers. */
    predicate Steady() {
      forall i :: 0 <= i < |peers| ==> peers[i].Steady()
    }

    lemma SteadyAt(i: nat)
      requires i < |peers| && Steady()
      ensures peers[i].Steady()
    {
    }

    ghost function States(): seq<Peer>
      reads Footprint()
    {
      seq(|peers|, i requires 0 <= i < |peers| reads Footprint() => peers[i].State())
    }

    /** Add on one peer, as steps of the saga up to its conclusion. */
    method AddOn(i: nat, a: Addr, k: Key, ghost t0: SagaTrail)
      returns (r: Result<Tag>, ghost t: SagaTrail)
      requires Wired() && i < |peers| && SagaSound(t0) && t0.addr == a && t0.key == k
      requires t0.peers == States() && PeersInv(States())
      requires t0.saga.ApplyAdd? && t0.saga.peer == i && t0.saga.pc == AddRead
      modifies Footprint()
      ensures SagaSound(t) && t.SameCall(t0) && t.peers == States() && PeersInv(States())
      ensures States() == t0.peers[i := States()[i]]
      ensures t.saga == if r.Ok? then ApplyMember(i, t0.saga.evidence + 1)
                        else Compensate(i, t0.saga.evidence, RemoveRead)
      ensures r.Ok? ==> Owns(States()[i], a, k)
    {
      hide Owns, Get, Put;
      assert t0.peers[i] == peers[i].State();
      ghost var c;
      r, c := peers[i].Add(a, k);
      t := SagaClient(t0, c);
      assert States() == t.peers;
      CalledPeer(t0.peers[i], a, c);
      t := SagaNext(t, Works);
    }

    /** Remove on one peer, as steps of the saga up to its conclusion. */
    method RemoveOn(i: nat, a: Addr, k: Key, ghost t0: SagaTrail)
      returns (r: Result<Tag>, ghost t: SagaTrail)
      requires Wired() && i < |peers| && SagaSound(t0) && t0.addr == a && t0.key == k
      requires t0.peers == States() && PeersInv(States())
      requires (t0.saga.Compensate? || t0.saga.RevertRemove?) && t0.saga.peer == i && ClientPc(t0.saga) == Some(RemoveRead)
      modifies Footprint()
      ensures SagaSound(t) && t.SameCall(t0) && t.peers == States() && PeersInv(States())
      ensures States() == t0.peers[i := States()[i]]
      ensures t0.saga.Compensate? ==> t.saga == AfterCompensation(i, t0.saga.evidence + 1)
      ensures t0.saga.RevertRemove? ==>
                t.saga == if r.Ok? then RevertMember(i, t0.saga.evidence + 1, t0.saga.failed, r.value)
                          else AfterRevert(|peers|, i, t0.saga.evidence, true, t0.reference)
      ensures peers[i].Steady() ==> r.Ok?
      ensures r.Ok? ==> States()[i] == Released(t0.peers[i], a, k)
      ensures r.Ok? && t0.saga.Compensate? ==> !Owns(States()[i], a, k)
      ensures r.Ok? ==> (Revertible(t0.peers[i], a, k) <==>
                           a !in States()[i].present || ReleasedWithoutRemoval(r.value))
    {
      hide Released, Revertible, Owns, Get, Put;
      assert t0.peers[i] == peers[i].State();
      ghost var c;
      r, c := peers[i].Remove(a, k);
      t := SagaClient(t0, c);
      assert States() == t.peers;
      CalledPeer(t0.peers[i], a, c);
      t := SagaNext(t, Works);
      if r.Ok? { ReleasedPeer(t0.peers[i], a, c); }
    }

    /** Read membership back on one peer, as a step of the saga. */
    method MemberOn(i: nat, a: Addr, ghost t0: SagaTrail) returns (m: Result<bool>, ghost t: SagaTrail)
      requires i < |peers| && SagaSound(t0) && t0.addr == a && t0.peers == States()
      ensures m.Ok? ==> m.value == (a in States()[i].present)
      ensures peers[i].Steady() ==> m.Ok?
      ensures t == SagaNext(t0, if m.Ok? then Works else RaisesBefore)
    {
      assert States()[i] == peers[i].State();
      m := peers[i].ReportsMembership(a);
      t := SagaNext(t0, if m.Ok? then Works else RaisesBefore);
    }

    /** One round of the apply loop: add, then read membership back. */
    method ApplyOn(i: nat, a: Addr, k: Key, evidence: nat, ghost t0: SagaTrail)
      returns (ok: bool, evidence': nat, ghost t: SagaTrail)
      requires Wired() && i < |peers| && SagaSound(t0) && t0.addr == a && t0.key == k
      requires t0.peers == States() && PeersInv(States())
      requires t0.saga == ApplyAdd(i, evidence, AddRead)
      modifies Footprint()
      ensures SagaSound(t) && t.SameCall(t0) && t.peers == States() && PeersInv(States())
      ensures States() == t0.peers[i := States()[i]]
      ensures ok ==> evidence' == evidence + 2 && Owns(States()[i], a, k) && a in States()[i].present
      ensures t.saga == if !ok then Compensate(i, evidence', RemoveRead)
                        else if i + 1 < |peers| then ApplyAdd(i + 1, evidence', AddRead)
                        else Returned(Outcome(true, t0.reference, evidence'))
    {
      hide Owns;
      var r;
      r, t := AddOn(i, a, k, t0);
      if r.Raised? { return false, evidence, t; }
      var m;
      m, t := MemberOn(i, a, t);
      ok := m == Ok(true);
      evidence' := if ok then evidence + 2 else evidence + 1;
    }

    /** Release the peers touched so far, last one first; a release that raises is only noted. */
    method RollbackPeers(count: nat, a: Addr, k: Key, evidence: nat, ghost t0: SagaTrail)
      returns (evidence': nat, ghost t: SagaTrail, ghost clean: bool)
      requires Wired() && count <= |peers| && SagaSound(t0) && t0.addr == a && t0.key == k
      requires t0.peers == States() && PeersInv(States())
      requires t0.saga == AfterCompensation(count, evidence)
      modifies Footprint()
      ensures SagaSound(t) && t.SameCall(t0) && t.peers == States() && PeersInv(States())
      ensures t.saga == Failure(evidence')
      ensures clean ==> forall n :: 0 <= n < count ==> !Owns(States()[n], a, k)
      ensures forall n :: count <= n < |peers| ==> States()[n] == t0.peers[n]
    {
      t, clean, evidence' := t0, true, evidence;
      var j := count;
      while j > 0
        invariant 0 <= j <= count
        invariant SagaSound(t) && t.SameCall(t0)
        invariant t.peers == States() && PeersInv(States())
        invariant t.saga == AfterCompensation(j, evidence')
        invariant clean ==> forall n :: j <= n < count ==> !Owns(States()[n], a, k)
        invariant forall n :: count <= n < |peers| ==> States()[n] == t0.peers[n]
      {
        var r;
        j := j - 1;
        r, t := RemoveOn(j, a, k, t);
        evidence' := evidence' + 1;
        if r.Raised? { clean := false; }
      }
    }

    /** Block the address on all peers, or compensate the peers touched so far in reverse order. */
    method Apply(a: Addr, k: Key) returns (o: Outcome, ghost t: SagaTrail, ghost clean: bool)
      requires Wired() && PeersInv(States())
      modifies Footprint()
      ensures SagaSound(t) && t.Of(old(States()), a, k, RecoveryReference(BlockIp, k), CallApply)
      ensures t.peers == States() && t.saga == Returned(o) && PeersInv(States())
      ensures o.ok ==> o.reference == RecoveryReference(BlockIp, k) && o.evidence == 2 * |peers|
      ensures o.ok ==> forall i :: 0 <= i < |peers| ==> Owns(States()[i], a, k) && a in States()[i].present
      ensures !o.ok && clean && (forall i :: 0 <= i < |peers| ==> Get(old(States())[i], a).owners == map[])
              ==> States() == old(States())
    {
      ghost var was := States();
      t := BeginSaga(was, a, k, RecoveryReference(BlockIp, k), CallApply);
      var i, evidence, failed := 0, 0, false;
      while i < |peers| && !failed
        invariant 0 <= i <= |peers| && (failed ==> i < |peers|)
        invariant SagaSound(t) && t.Of(was, a, k, RecoveryReference(BlockIp, k), CallApply)
        invariant t.peers == States() && PeersInv(States())
        invariant t.saga == if failed then Compensate(i, evidence, RemoveRead)
                            else if i < |peers| then ApplyAdd(i, evidence, AddRead)
                            else Returned(Outcome(true, RecoveryReference(BlockIp, k), evidence))
        invariant !failed ==> evidence == 2 * i
        invariant forall j :: 0 <= j < i ==> Owns(States()[j], a, k) && a in States()[j].present
        invariant forall j :: i + (if failed then 1 else 0) <= j < |peers| ==> States()[j] == was[j]
        decreases |peers| - i, !failed
      {
        var ok;
        ok, evidence, t := ApplyOn(i, a, k, evidence, t);
        if ok { i := i + 1; } else { failed := true; }
      }
      if !failed { return Outcome(true, RecoveryReference(BlockIp, k), evidence), t, true; }
      evidence, t, clean := RollbackPeers(i + 1, a, k, evidence, t);
      o := Outcome(false, "", evidence);
      if clean && forall j :: 0 <= j < |peers| ==> Get(was[j], a).owners == map[] {
        SagaRunKeeps(was, a, k, RecoveryReference(BlockIp, k), CallApply, StartOf(CallApply), t.lucks);
        forall j | 0 <= j < |peers| ensures !Owns(States()[j], a, k) {
          if i < j { assert States()[j] == was[j]; }
        }
        CompensationRestores(was, States(), a, k);
      }
    }

    /** Evidence that every peer still reports the address. */
    method Verify(a: Addr, k: Key, reference: string) returns (o: Outcome, ghost t: SagaTrail)
      requires Wired()
      ensures SagaSound(t) && t.Of(States(), a, k, reference, CallVerify)
      ensures t.peers == States() && t.saga == Returned(o)
      ensures o.ok ==> o.evidence == |peers| && forall i :: 0 <= i < |peers| ==> a in States()[i].present
    {
      t := BeginSaga(States(), a, k, reference, CallVerify);
      var i, missing := 0, false;
      while i < |peers|
        invariant 0 <= i <= |peers|
        invariant SagaSound(t) && t.Of(States(), a, k, reference, CallVerify)
        invariant t.peers == States()
        invariant t.saga == if i < |peers| then VerifyMember(i, i, missing)
                            else if missing then Failure(i)
                            else Returned(Outcome(true, reference, i))
        invariant !missing ==> forall j :: 0 <= j < i ==> a in States()[j].present
      {
        var m;
        m, t := MemberOn(i, a, t);
        if m.Raised? { return Outcome(false, "", i), t; }
        if !m.value { missing := true; }
        i := i + 1;
      }
      o := if missing then Outcome(false, "", i) else Outcome(true, reference, i);
    }

    /** Read absence back; a release that says the address stays for somebody else is as good. */
    method ReadBackOn(i: nat, a: Addr, tag: Tag, ghost goal: bool, ghost t0: SagaTrail)
      returns (proved: bool, ghost t: SagaTrail, ghost answered: bool)
      requires i < |peers| && SagaSound(t0) && t0.addr == a && t0.peers == States()
      requires t0.saga.RevertMember? && t0.saga.peer == i && t0.saga.tag == tag
      requires goal <==> a !in States()[i].present || ReleasedWithoutRemoval(tag)
      ensures SagaSound(t) && t.SameCall(t0) && t.peers == t0.peers
      ensures proved <==> answered && goal
      ensures peers[i].Steady() ==> answered
      ensures t.saga == AfterRevert(|peers|, i, if proved then t0.saga.evidence + 1 else t0.saga.evidence,
                                    t0.saga.failed || !proved, t0.reference)
    {
      RevertMemberStep(t0, Works);
      RevertMemberStep(t0, RaisesBefore);
      var m;
      m, t := MemberOn(i, a, t0);
      answered := m.Ok?;
      proved := m.Ok? && (!m.value || ReleasedWithoutRemoval(tag));
    }

    /** One round of the revert loop: remove, then read absence back. */
    method RevertOn(i: nat, a: Addr, k: Key, evidence: nat, failed: bool, ghost t0: SagaTrail)
      returns (failed': bool, evidence': nat, ghost t: SagaTrail, ghost answered: bool)
      requires Wired() && i < |peers| && SagaSound(t0) && t0.addr == a && t0.key == k
      requires t0.peers == States() && PeersInv(States())
      requires t0.saga == RevertRemove(i, evidence, failed, RemoveRead)
      modifies Footprint()
      ensures SagaSound(t) && t.SameCall(t0) && t.peers == States() && PeersInv(States())
      ensures States() == t0.peers[i := States()[i]]
      ensures failed' <==> failed || !(answered && Revertible(t0.peers[i], a, k))
      ensures peers[i].Steady() ==> answered
      ensures !failed' ==> evidence' == evidence + 2
      ensures answered ==> States()[i] == Released(t0.peers[i], a, k)
      ensures t.saga == AfterRevert(|peers|, i, evidence', failed', t0.reference)
    {
      hide Revertible, Released;
      var r;
      r, t := RemoveOn(i, a, k, t0);
      if r.Raised? { return true, evidence, t, false; }
      var proved;
      proved, t, answered := ReadBackOn(i, a, r.value, Revertible(t0.peers[i], a, k), t);
      failed' := failed || !proved;
      evidence' := if proved then evidence + 2 else evidence + 1;
    }

    /** The revert loop: every peer once, whatever happened on the ones before it. */
    method RevertPeers(a: Addr, k: Key, ghost t0: SagaTrail)
      returns (failed: bool, evidence: nat, ghost t: SagaTrail, ghost answered: bool)
      requires Wired() && PeersInv(States()) && SagaSound(t0) && t0.addr == a && t0.key == k
      requires t0.peers == States() && t0.saga == StartOf(CallRevert)
      modifies Footprint()
      ensures SagaSound(t) && t.SameCall(t0) && t.peers == States() && PeersInv(States())
      ensures RevertedUpTo(old(States()), States(), a, k, |peers|, answered, failed)
      ensures Steady() ==> answered
      ensures !failed ==> evidence == 2 * |peers|
      ensures t.saga == if failed then Failure(evidence) else Returned(Outcome(true, t0.reference, evidence))
    {
      hide RevertedUpTo, Revertible, Released, SagaSound, BlocklistAdapter.Steady;
      ghost var was := States();
      t, answered, failed, evidence := t0, true, false, 0;
      RevertedNone(was, a, k);
      var i := 0;
      while i < |peers|
        invariant Steady() ==> answered
        invariant 0 <= i <= |peers|
        invariant SagaSound(t) && t.SameCall(t0)
        invariant t.peers == States() && PeersInv(States())
        invariant t.saga == if i < |peers| then RevertRemove(i, evidence, failed, RemoveRead)
                            else if failed then Failure(evidence)
                            else Returned(Outcome(true, t0.reference, evidence))
        invariant !failed ==> evidence == 2 * i
        invariant RevertedUpTo(was, States(), a, k, i, answered, failed)
      {
        ghost var here, now, past := false, States(), failed;
        failed, evidence, t, here := RevertOn(i, a, k, evidence, failed, t);
        RevertedNext(was, now, States(), a, k, i, answered, past, here, failed);
        if Steady() { SteadyAt(i); }
        answered := answered && here;
        i := i + 1;
      }
    }

    /** Give up the address on all peers. It succeeds exactly when every peer answers and, on every
        peer, this key held the address or nobody did. */
    method Revert(a: Addr, k: Key, reference: string)
      returns (o: Outcome, ghost t: SagaTrail, ghost answered: bool)
      requires Wired() && PeersInv(States())
      modifies Footprint()
      ensures SagaSound(t) && t.Of(old(States()), a, k, reference, CallRevert)
      ensures t.peers == States() && t.saga == Returned(o) && PeersInv(States())
      ensures o.ok <==> answered && AllRevertible(old(States()), a, k)
      ensures Steady() ==> answered
      ensures o.ok ==> o.reference == reference && o.evidence == 2 * |peers|
      ensures answered ==> forall i :: 0 <= i < |peers| ==> States()[i] == Released(old(States())[i], a, k)
      ensures answered ==> forall i :: 0 <= i < |peers| ==> !Owns(States()[i], a, k)
    {
      hide RevertedUpTo, Revertible, Released, Owns, SagaSound;
      ghost var was := States();
      t := BeginSaga(was, a, k, reference, CallRevert);
      var failed, evidence;
      failed, evidence, t, answered := RevertPeers(a, k, t);
      RevertedAll(was, States(), a, k, answered, failed);
      o := if failed then Outcome(false, "", evidence) else Outcome(true, reference, evidence);
    }
  }
}
