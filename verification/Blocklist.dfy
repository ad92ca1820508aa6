/**
 * The blocklist adapter (response/adapters/blocklist.py): one address on every peer, or on none.
 *
 * A call of the adapter is a machine over all peers. It walks the peers in order, runs one
 * client call at a time on each, reads membership back, and compensates in reverse order when
 * anything raises. The machine is stopped, failed or timed out at any of its steps.
 */
module Blocklist {
  import opened Wrappers
  import opened Policy
  import opened Ownership

  datatype CallOp = CallApply | CallVerify | CallRevert

  /** What an adapter call reports; evidence references are counted. An absent adapter reference
      is the empty string. */
  datatype Outcome = Outcome(ok: bool, reference: string, evidence: nat)

  /** The reference under which a command's operation can be recovered: a function of its action
      and idempotency key alone, known before any peer is contacted. */
  function RecoveryReference(action: Action, k: Key): (r: string)
    ensures r != ""
  {
    match action
    case BlockIp => "firewall-ha:SOC_BLOCKLIST:" + k
    case IsolateHost => "wazuh:cxyz-isolate-endpoint:" + k
  }

  datatype Saga =
    | ApplyAdd(peer: nat, evidence: nat, pc: Pc)
    | ApplyMember(peer: nat, evidence: nat)
    | Compensate(peer: nat, evidence: nat, pc: Pc)
    | VerifyMember(peer: nat, evidence: nat, missing: bool)
    | RevertRemove(peer: nat, evidence: nat, failed: bool, pc: Pc)
    | RevertMember(peer: nat, evidence: nat, failed: bool, tag: Tag)
    | AtHost
    | Returned(outcome: Outcome)

  function Failure(evidence: nat): Saga {
    Returned(Outcome(false, "", evidence))
  }

  function StartOf(op: CallOp): Saga {
    match op
    case CallApply => ApplyAdd(0, 0, AddRead)
    case CallVerify => VerifyMember(0, 0, false)
    case CallRevert => RevertRemove(0, 0, false, RemoveRead)
  }

  /** Ownership-aware clients say when an address stays for somebody else. */
  predicate ReleasedWithoutRemoval(tag: Tag) {
    tag.TagShared? || tag.TagPreexisting?
  }

  function AfterRevert(n: nat, i: nat, evidence: nat, failed: bool, reference: string): Saga {
    if i + 1 < n then RevertRemove(i + 1, evidence, failed, RemoveRead)
    else if failed then Failure(evidence)
    else Returned(Outcome(true, reference, evidence))
  }

  function AfterCompensation(i: nat, evidence: nat): Saga {
    if i == 0 then Failure(evidence) else Compensate(i - 1, evidence, RemoveRead)
  }

  /** The peer a saga is working on. */
  function PeerOf(s: Saga): nat {
    if s.AtHost? || s.Returned? then 0 else s.peer
  }

  /** The position of the client call in flight, if the saga is inside one. */
  function ClientPc(s: Saga): Option<Pc> {
    match s
    case ApplyAdd(_, _, pc) => Some(pc)
    case Compensate(_, _, pc) => Some(pc)
    case RevertRemove(_, _, _, pc) => Some(pc)
    case _ => None
  }

  /** The same saga with the client call in flight somewhere else. */
  function AtPc(s: Saga, pc: Pc): Saga {
    match s
    case ApplyAdd(i, e, _) => ApplyAdd(i, e, pc)
    case Compensate(i, e, _) => Compensate(i, e, pc)
    case RevertRemove(i, e, failed, _) => RevertRemove(i, e, failed, pc)
    case _ => s
  }

  function OnPeer(peers: seq<Peer>, i: nat, a: Addr, k: Key, pc: Pc, luck: Luck): (seq<Peer>, Pc)
    requires i < |peers|
  {
    var (c', pc') := ClientStep(Get(peers[i], a), k, pc, luck);
    (peers[i := Put(peers[i], a, c')], pc')
  }

  function SagaStep(peers: seq<Peer>, a: Addr, k: Key, reference: string, s: Saga, luck: Luck)
    : (seq<Peer>, Saga)
  {
    if s.AtHost? || s.Returned? || s.peer >= |peers| then (peers, s)
    else
      match s
      case ApplyAdd(i, e, pc) =>
        if pc.AddDone? then (peers, ApplyMember(i, e + 1))
        else if Finished(pc) then (peers, Compensate(i, e, RemoveRead))  // peer i itself comes first
        else
          var (peers', pc') := OnPeer(peers, i, a, k, pc, luck);
          (peers', ApplyAdd(i, e, pc'))
      case ApplyMember(i, e) =>
        if luck != Works || a !in peers[i].present then (peers, Compensate(i, e, RemoveRead))
        else if i + 1 < |peers| then (peers, ApplyAdd(i + 1, e + 1, AddRead))
        else (peers, Returned(Outcome(true, reference, e + 1)))
      case Compensate(i, e, pc) =>
        if Finished(pc) then (peers, AfterCompensation(i, e + 1))  // a failed one is only noted
        else
          var (peers', pc') := OnPeer(peers, i, a, k, pc, luck);
          (peers', Compensate(i, e, pc'))
      case VerifyMember(i, e, missing) =>
        if luck != Works then (peers, Failure(e))
        else
          var missing' := missing || a !in peers[i].present;
          if i + 1 < |peers| then (peers, VerifyMember(i + 1, e + 1, missing'))
          else if missing' then (peers, Failure(e + 1))
          else (peers, Returned(Outcome(true, reference, e + 1)))
      case RevertRemove(i, e, failed, pc) =>
        if pc.RemoveDone? then (peers, RevertMember(i, e + 1, failed, pc.tag))
        else if Finished(pc) then (peers, AfterRevert(|peers|, i, e, true, reference))
        else
          var (peers', pc') := OnPeer(peers, i, a, k, pc, luck);
          (peers', RevertRemove(i, e, failed, pc'))
      case RevertMember(i, e, failed, tag) =>
        if luck != Works then (peers, AfterRevert(|peers|, i, e, true, reference))
        else if a !in peers[i].present || ReleasedWithoutRemoval(tag) then
          (peers, AfterRevert(|peers|, i, e + 1, failed, reference))
        else (peers, AfterRevert(|peers|, i, e, true, reference))
  }

  function SagaRun(peers: seq<Peer>, a: Addr, k: Key, reference: string, s: Saga, lucks: Trace<Luck>)
    : (seq<Peer>, Saga)
  {
    match lucks
    case Start => (peers, s)
    case Then(before, luck) =>
      var (peers', s') := SagaRun(peers, a, k, reference, s, before);
      SagaStep(peers', a, k, reference, s', luck)
  }

  // ----- what every step keeps -------------------------------------------------------------------

  ghost predicate PeersInv(peers: seq<Peer>) {
    forall i :: 0 <= i < |peers| ==> PeerInv(peers[i])
  }

  predicate Owns(p: Peer, a: Addr, k: Key) {
    k in Get(p, a).owners
  }

  /** What a call in flight has achieved so far. */
  predicate SagaInv(peers: seq<Peer>, a: Addr, k: Key, op: CallOp, s: Saga) {
    match s
    case AtHost => false
    case ApplyAdd(i, _, pc) =>
      && op.CallApply? && i < |peers| && Adding?(pc) && PcInv(Get(peers[i], a), k, pc)
      && forall j :: 0 <= j < i ==> Owns(peers[j], a, k)
    case ApplyMember(i, _) =>
      && op.CallApply? && i < |peers|
      && forall j :: 0 <= j <= i ==> Owns(peers[j], a, k)
    case Compensate(i, _, pc) =>
      op.CallApply? && i < |peers| && Removing?(pc) && PcInv(Get(peers[i], a), k, pc)
    case VerifyMember(i, e, _) => op.CallVerify? && i < |peers| && e == i
    case RevertRemove(i, e, failed, pc) =>
      && op.CallRevert? && i < |peers| && Removing?(pc) && PcInv(Get(peers[i], a), k, pc)
      && (!failed ==> e >= i && forall j :: 0 <= j < i ==> !Owns(peers[j], a, k))
    case RevertMember(i, e, failed, _) =>
      && op.CallRevert? && i < |peers|
      && (!failed ==> e > i && forall j :: 0 <= j <= i ==> !Owns(peers[j], a, k))
    case Returned(o) =>
      o.ok ==>
        && o.evidence > 0
        && (op.CallApply? ==> forall j :: 0 <= j < |peers| ==> Owns(peers[j], a, k))
        && (op.CallRevert? ==> forall j :: 0 <= j < |peers| ==> !Owns(peers[j], a, k))
  }

  /** Nothing but the ownership of `k` over `a`, and the presence of `a`, may differ. */
  ghost predicate OnlyTouches(before: seq<Peer>, after: seq<Peer>, a: Addr, k: Key) {
    && |after| == |before|
    && (forall i, b {:trigger Get(after[i], b)} ::
          0 <= i < |before| && b != a ==> Get(after[i], b) == Get(before[i], b))
    && (forall i :: 0 <= i < |before| ==> after[i].outside == before[i].outside)
    && (forall i, j {:trigger Owns(after[i], a, j)} ::
          0 <= i < |before| && j != k ==> (Owns(after[i], a, j) <==> Owns(before[i], a, j)))
  }

  lemma OnPeerKeeps(peers: seq<Peer>, i: nat, a: Addr, k: Key, pc: Pc, luck: Luck)
    requires PeersInv(peers) && i < |peers| && PcInv(Get(peers[i], a), k, pc)
    ensures var (peers', pc') := OnPeer(peers, i, a, k, pc, luck);
            && PeersInv(peers') && PcInv(Get(peers'[i], a), k, pc')
            && OnlyTouches(peers, peers', a, k)
            && (forall j :: 0 <= j < |peers| && j != i ==> peers'[j] == peers[j])
            && (Adding?(pc) ==> Adding?(pc') && (Owns(peers[i], a, k) ==> Owns(peers'[i], a, k)))
            && (Removing?(pc) ==> Removing?(pc') && (Owns(peers'[i], a, k) ==> Owns(peers[i], a, k)))
  {
    var p := peers[i];
    var (c', _) := ClientStep(Get(p, a), k, pc, luck);
    StepKeepsCell(Get(p, a), k, pc, luck);
    PutGet(p, a, c');
    PutKeepsPeer(p, a, c');
    assert Put(p, a, c').outside == p.outside;
  }

  lemma TouchesNothing(peers: seq<Peer>, a: Addr, k: Key)
    ensures OnlyTouches(peers, peers, a, k)
  {
  }

  /** The promise of one saga step: the invariant of every peer and of the call itself survives,
      nothing else changes, and only an apply can add an ownership. */
  ghost predicate StepPromise(peers: seq<Peer>, a: Addr, k: Key, op: CallOp, peers': seq<Peer>, s': Saga) {
    && PeersInv(peers') && SagaInv(peers', a, k, op, s')
    && OnlyTouches(peers, peers', a, k)
    && (op != CallApply ==>
          forall j :: 0 <= j < |peers| && Owns(peers'[j], a, k) ==> Owns(peers[j], a, k))
  }

  lemma ApplyStepKeeps(peers: seq<Peer>, a: Addr, k: Key, reference: string, s: Saga, luck: Luck)
    requires PeersInv(peers) && SagaInv(peers, a, k, CallApply, s)
    requires s.ApplyAdd? || s.ApplyMember?
    ensures var (peers', s') := SagaStep(peers, a, k, reference, s, luck);
            StepPromise(peers, a, k, CallApply, peers', s')
  {
    TouchesNothing(peers, a, k);
    if s.ApplyAdd? && !Finished(s.pc) {
      OnPeerKeeps(peers, s.peer, a, k, s.pc, luck);
    }
  }

  lemma CompensateStepKeeps(peers: seq<Peer>, a: Addr, k: Key, reference: string, s: Saga, luck: Luck)
    requires PeersInv(peers) && SagaInv(peers, a, k, CallApply, s)
    requires s.Compensate?
    ensures var (peers', s') := SagaStep(peers, a, k, reference, s, luck);
            StepPromise(peers, a, k, CallApply, peers', s')
  {
    TouchesNothing(peers, a, k);
    if !Finished(s.pc) {
      OnPeerKeeps(peers, s.peer, a, k, s.pc, luck);
    }
  }

  lemma RevertRemoveKeeps(peers: seq<Peer>, a: Addr, k: Key, reference: string, s: Saga, luck: Luck)
    requires PeersInv(peers) && SagaInv(peers, a, k, CallRevert, s) && s.RevertRemove?
    ensures var (peers', s') := SagaStep(peers, a, k, reference, s, luck);
            StepPromise(peers, a, k, CallRevert, peers', s')
  {
    hide Get, PeerInv, Put, PeersInv, OnlyTouches;
    TouchesNothing(peers, a, k);
    if !Finished(s.pc) {
      OnPeerKeeps(peers, s.peer, a, k, s.pc, luck);
    }
  }

  lemma RevertMemberKeeps(peers: seq<Peer>, a: Addr, k: Key, reference: string, s: Saga, luck: Luck)
    requires PeersInv(peers) && SagaInv(peers, a, k, CallRevert, s) && s.RevertMember?
    ensures var (peers', s') := SagaStep(peers, a, k, reference, s, luck);
            StepPromise(peers, a, k, CallRevert, peers', s')
  {
    TouchesNothing(peers, a, k);
  }

  lemma SagaStepKeeps(peers: seq<Peer>, a: Addr, k: Key, reference: string, op: CallOp, s: Saga, luck: Luck)
    requires PeersInv(peers) && SagaInv(peers, a, k, op, s)
    ensures var (peers', s') := SagaStep(peers, a, k, reference, s, luck);
            StepPromise(peers, a, k, op, peers', s')
  {
    if s.ApplyAdd? || s.ApplyMember? {
      ApplyStepKeeps(peers, a, k, reference, s, luck);
    } else if s.Compensate? {
      CompensateStepKeeps(peers, a, k, reference, s, luck);
    } else if s.RevertRemove? {
      RevertRemoveKeeps(peers, a, k, reference, s, luck);
    } else if s.RevertMember? {
      RevertMemberKeeps(peers, a, k, reference, s, luck);
    } else {
      TouchesNothing(peers, a, k);
    }
  }

  // ----- the environment ---------------------------------------------------------------------------

  /** Somebody else changes the presence of one address on one peer, never its ownership. */
  lemma EnvironmentKeeps(peers: seq<Peer>, a: Addr, k: Key, op: CallOp, s: Saga, i: nat, b: Addr, c: Cell)
    requires PeersInv(peers) && SagaInv(peers, a, k, op, s) && i < |peers|
    requires CellInv(c) && c.owners == Get(peers[i], b).owners
    requires b == a && i == PeerOf(s) && ClientPc(s).Some? ==> PcInv(c, k, ClientPc(s).value)
    ensures var peers' := peers[i := Put(peers[i], b, c)];
            PeersInv(peers') && SagaInv(peers', a, k, op, s)
  {
    PutGet(peers[i], b, c);
    PutKeepsPeer(peers[i], b, c);
    var peers' := peers[i := Put(peers[i], b, c)];
    assert forall j :: 0 <= j < |peers| ==> Get(peers'[j], a).owners == Get(peers[j], a).owners;
  }

  // ----- whole calls ---------------------------------------------------------------------------------

  lemma {:induction false} SagaRunAppend(peers: seq<Peer>, a: Addr, k: Key, reference: string, s: Saga,
                                         first: Trace<Luck>, second: Trace<Luck>)
    ensures var (mid, s') := SagaRun(peers, a, k, reference, s, first);
            SagaRun(peers, a, k, reference, s, Append(first, second))
              == SagaRun(mid, a, k, reference, s', second)
  {
    if second.Then? { SagaRunAppend(peers, a, k, reference, s, first, second.before); }
  }

  lemma {:induction false} SagaRunKeeps(peers: seq<Peer>, a: Addr, k: Key, reference: string, op: CallOp,
                                        s: Saga, lucks: Trace<Luck>)
    requires PeersInv(peers) && SagaInv(peers, a, k, op, s)
    ensures var (peers', s') := SagaRun(peers, a, k, reference, s, lucks);
            StepPromise(peers, a, k, op, peers', s')
  {
    if lucks.Start? {
      TouchesNothing(peers, a, k);
    } else {
      SagaRunKeeps(peers, a, k, reference, op, s, lucks.before);
      var (mid, s') := SagaRun(peers, a, k, reference, s, lucks.before);
      SagaStepKeeps(mid, a, k, reference, op, s', lucks.step);
      var (peers', _) := SagaStep(mid, a, k, reference, s', lucks.step);
      forall i, b {:trigger Get(peers'[i], b)} | 0 <= i < |peers| && b != a
        ensures Get(peers'[i], b) == Get(peers[i], b)
      {
        assert Get(mid[i], b) == Get(peers[i], b);
      }
      forall i, j {:trigger Owns(peers'[i], a, j)} | 0 <= i < |peers| && j != k
        ensures Owns(peers'[i], a, j) <==> Owns(peers[i], a, j)
      {
        assert Owns(mid[i], a, j) <==> Owns(peers[i], a, j);
      }
    }
  }

  /** An address without owners is exactly what outsiders made of it, so giving up every
      ownership restores the cell. */
  lemma UnownedIsDetermined(c: Cell, d: Cell)
    requires CellInv(c) && CellInv(d) && c.owners == d.owners == map[] && c.outside == d.outside
    ensures c == d
  {
  }

  lemma SameCellsSamePeer(p: Peer, q: Peer)
    requires Tidy(p.owners) && Tidy(q.owners)
    requires forall a {:trigger Get(p, a)} :: Get(p, a) == Get(q, a)
    ensures p == q
  {
    forall a ensures a in p.owners <==> a in q.owners
    {
      assert Get(p, a) == Get(q, a);
    }
    forall a | a in p.owners ensures p.owners[a] == q.owners[a]
    {
      assert Get(p, a) == Get(q, a);
    }
    assert p.owners == q.owners;
    forall a ensures (a in p.present <==> a in q.present) && (a in p.foreign <==> a in q.foreign)
                     && (a in p.outside <==> a in q.outside)
    {
      assert Get(p, a) == Get(q, a);
    }
    assert p.present == q.present && p.foreign == q.foreign && p.outside == q.outside;
  }

  /** Compensation is complete: when nobody owned the address before an apply and this key owns it
      nowhere afterwards, every peer is exactly as it was: owners, foreign marks and membership. */
  lemma CompensationRestores(before: seq<Peer>, after: seq<Peer>, a: Addr, k: Key)
    requires PeersInv(before) && PeersInv(after) && OnlyTouches(before, after, a, k)
    requires forall i :: 0 <= i < |before| ==> Get(before[i], a).owners == map[] && !Owns(after[i], a, k)
    ensures after == before
  {
    forall i | 0 <= i < |before| ensures after[i] == before[i] {
      forall j ensures j !in Get(after[i], a).owners {
        if j != k { assert Owns(after[i], a, j) <==> Owns(before[i], a, j); }
      }
      assert Get(after[i], a).owners == map[];
      UnownedIsDetermined(Get(before[i], a), Get(after[i], a));
      SameCellsSamePeer(after[i], before[i]);
    }
  }

  /** Every interruption of an apply: while the call has not returned success, the only ownership
      it can have added is its own, and a success leaves this key as owner on every peer. */
  lemma ApplyOwnsEverywhere(peers: seq<Peer>, a: Addr, k: Key, reference: string, lucks: Trace<Luck>)
    requires PeersInv(peers) && |peers| > 0
    ensures var (peers', s') := SagaRun(peers, a, k, reference, StartOf(CallApply), lucks);
            && PeersInv(peers') && OnlyTouches(peers, peers', a, k)
            && (s'.Returned? && s'.outcome.ok ==>
                  s'.outcome.evidence > 0 && forall i :: 0 <= i < |peers| ==> Owns(peers'[i], a, k))
  {
    SagaRunKeeps(peers, a, k, reference, CallApply, StartOf(CallApply), lucks);
  }

  /** Every interruption of a revert: it never adds an ownership, and a success leaves this key
      owning the address nowhere. */
  lemma RevertReleasesEverywhere(peers: seq<Peer>, a: Addr, k: Key, reference: string, lucks: Trace<Luck>)
    requires PeersInv(peers) && |peers| > 0
    ensures var (peers', s') := SagaRun(peers, a, k, reference, StartOf(CallRevert), lucks);
            && PeersInv(peers') && OnlyTouches(peers, peers', a, k)
            && (forall i :: 0 <= i < |peers| && Owns(peers'[i], a, k) ==> Owns(peers[i], a, k))
            && (s'.Returned? && s'.outcome.ok ==>
                  s'.outcome.evidence > 0 && forall i :: 0 <= i < |peers| ==> !Owns(peers'[i], a, k))
  {
    SagaRunKeeps(peers, a, k, reference, CallRevert, StartOf(CallRevert), lucks);
  }

  // ----- exactly when a revert converges -----------------------------------------------------------

  /** A peer on which this key can be reverted: it holds the address, or nobody does. */
  predicate Revertible(p: Peer, a: Addr, k: Key) {
    Owns(p, a, k) || a !in p.present
  }

  ghost predicate AllRevertible(peers: seq<Peer>, a: Addr, k: Key) {
    forall i :: 0 <= i < |peers| ==> Revertible(peers[i], a, k)
  }

  /** A peer after an uninterrupted remove. */
  function Released(p: Peer, a: Addr, k: Key): Peer {
    Put(p, a, Complete(Get(p, a), k, RemoveRead).0)
  }

  /** Whether the revert loop is satisfied with one peer that answers. */
  predicate Satisfied(p: Peer, a: Addr, k: Key) {
    var (c, pc) := Complete(Get(p, a), k, RemoveRead);
    !c.present || (pc.RemoveDone? && ReleasedWithoutRemoval(pc.tag))
  }

  lemma SatisfiedWhenRevertible(p: Peer, a: Addr, k: Key)
    requires PeerInv(p)
    ensures Satisfied(p, a, k) <==> Revertible(p, a, k)
    ensures PeerInv(Released(p, a, k)) && !Owns(Released(p, a, k), a, k)
  {
    RemoveCompletes(Get(p, a), k);
    PutGet(p, a, Complete(Get(p, a), k, RemoveRead).0);
    PutKeepsPeer(p, a, Complete(Get(p, a), k, RemoveRead).0);
  }

  /** An address that an outsider blocked, and that this key never came to own, stays so whatever
      a revert does: such a response can never be reverted successfully. */
  lemma PreexistingWithoutClaimNeverConverges(p: Peer, a: Addr, k: Key)
    requires PeerInv(p) && a in p.outside && !Owns(p, a, k)
    ensures !Revertible(p, a, k)
    ensures Released(p, a, k) == p
  {
    RemoveCompletes(Get(p, a), k);
    assert Get(p, a).owners - {k} == Get(p, a).owners;
    assert Get(p, a).outside && Get(p, a).present;
    assert Complete(Get(p, a), k, RemoveRead) == (Get(p, a), RemoveDone(TagAbsent));
    PutSame(p, a);
  }

  /** Not pre-existing and nobody else's: revertible, however far earlier reverts got. */
  lemma SoleClaimIsRevertible(p: Peer, a: Addr, k: Key)
    requires PeerInv(p) && a !in p.outside && Get(p, a).owners.Keys <= {k}
    ensures Revertible(p, a, k)
    ensures Get(Released(p, a, k), a) == EmptyCell
  {
    RemoveCompletes(Get(p, a), k);
    PutGet(p, a, Complete(Get(p, a), k, RemoveRead).0);
    assert Get(p, a).owners - {k} == map[];
  }
}
