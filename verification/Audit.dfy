/**
 * Append-only response audit (response/orchestrator/audit.py) and the SQLite ledger that checks an
 * event by replaying the whole history (response/orchestrator/sqlite_audit.py).
 */
module Audit {
  import opened Wrappers
  import opened Policy

  /** A response identity is an injective function of the idempotency key. */
  datatype Rid = Rid(key: Key)

  datatype State = Requested | Applied | Verified | Expired | RolledBack | FailedState

  datatype Operation = OpApply | OpRevert

  datatype Cause = TtlExpired | Manual | Recovery | FailedVerification

  datatype Application = Application(appliedAt: int, reference: string)
  datatype Verification = Verification(verifiedAt: int, evidence: nat)
  datatype Reversal = Reversal(completedAt: int, cause: Cause, evidence: nat)
  datatype Intent = Intent(operation: Operation, startedAt: Option<int>, reference: string)

  /** What a transition adds to its event beside the state. */
  datatype Detail = Detail(
    application: Option<Application>,
    verification: Option<Verification>,
    rollback: Option<Reversal>,
    failure: Option<string>)

  const NoDetail := Detail(None, None, None, None)

  datatype Event = Event(
    rid: Rid, number: nat, state: State, previous: Option<State>,
    at: int, policyId: string, key: Key, target: Target, action: Action, expiresAt: int,
    detail: Detail, intent: Option<Intent>)

  /** The document identity of an event: an injective function of these three. */
  datatype AuditId = AuditId(rid: Rid, number: nat, state: State)

  function IdOf(e: Event): AuditId {
    AuditId(e.rid, e.number, e.state)
  }

  predicate Terminal(s: State) {
    s.Expired? || s.RolledBack?
  }

  predicate AllowedMove(from: Option<State>, to: State) {
    match from
    case None => to == Requested
    case Some(Requested) => to in {Applied, FailedState, RolledBack}
    case Some(Applied) => to in {Verified, RolledBack, FailedState}
    case Some(Verified) => to in {Expired, RolledBack, FailedState}
    case Some(FailedState) => to in {FailedState, RolledBack}
    case Some(_) => false
  }

  function LastState(h: seq<Event>): Option<State> {
    if h == [] then None else Some(h[|h| - 1].state)
  }

  predicate HasApplication(h: seq<Event>) {
    exists i :: 0 <= i < |h| && h[i].state == Applied
  }

  /** validate_transition: may `e` follow the history `h`? */
  predicate ValidTransition(e: Event, h: seq<Event>) {
    var last := LastState(h);
    && e.previous == last
    && AllowedMove(last, e.state)
    && (last == Some(FailedState) || (last == Some(Requested) && e.state == RolledBack) ==>
          HasApplication(h) || e.intent.Some?)
    && e.number == |h| + 1
  }

  /** A history in which every event was acceptable when it was appended. */
  predicate LegalHistory(h: seq<Event>) {
    h != [] ==> LegalHistory(h[..|h| - 1]) && ValidTransition(h[|h| - 1], h[..|h| - 1])
  }

  lemma NothingIsLegal()
    ensures LegalHistory([])
  {
  }

  lemma LegalAppend(h: seq<Event>, e: Event)
    ensures LegalHistory(h + [e]) <==> LegalHistory(h) && ValidTransition(e, h)
  {
    assert (h + [e])[..|h|] == h;
  }

  /** The shape of every legal history: numbered from one, opened by REQUESTED and by nothing else,
      VERIFIED only directly after APPLIED, EXPIRED only directly after VERIFIED, and nothing after
      a terminal state. */
  lemma {:induction false} LegalShape(h: seq<Event>, i: nat)
    requires LegalHistory(h) && i < |h|
    ensures h[i].number == i + 1
    ensures h[i].state == Requested <==> i == 0
    ensures h[i].state == Verified ==> i > 0 && h[i - 1].state == Applied
    ensures h[i].state == Expired ==> i > 0 && h[i - 1].state == Verified
    ensures i + 1 < |h| ==> !Terminal(h[i].state)
  {
    if i < |h| - 1 { LegalShape(h[..|h| - 1], i); }
    if i == |h| - 2 { assert h[..|h| - 1][i] == h[i]; }
  }

  /** Every event of a legal history was acceptable after the events before it. */
  lemma {:induction false} LegalAt(h: seq<Event>, i: nat)
    requires LegalHistory(h) && i < |h|
    ensures LegalHistory(h[..i]) && ValidTransition(h[i], h[..i])
  {
    if i < |h| - 1 {
      LegalAt(h[..|h| - 1], i);
      assert h[..|h| - 1][..i] == h[..i];
    }
  }

  // ----- histories inside a journal -------------------------------------------------------------------

  /** The events of one response, in the order they were inserted. */
  function History(audit: seq<Event>, rid: Rid): seq<Event> {
    if audit == [] then []
    else
      var last := audit[|audit| - 1];
      var before := History(audit[..|audit| - 1], rid);
      if last.rid == rid then before + [last] else before
  }

  lemma HistoryAppend(audit: seq<Event>, e: Event, rid: Rid)
    ensures History(audit + [e], rid) == if e.rid == rid then History(audit, rid) + [e] else History(audit, rid)
  {
    assert (audit + [e])[..|audit|] == audit;
  }

  lemma {:induction false} HistoryIsOfResponse(audit: seq<Event>, rid: Rid, i: nat)
    requires i < |History(audit, rid)|
    ensures History(audit, rid)[i].rid == rid && History(audit, rid)[i] in audit
  {
    if i < |History(audit[..|audit| - 1], rid)| {
      HistoryIsOfResponse(audit[..|audit| - 1], rid, i);
    }
  }

  lemma {:induction false} HistoryHasEvent(audit: seq<Event>, i: nat)
    requires i < |audit|
    ensures audit[i] in History(audit, audit[i].rid)
  {
    if i < |audit| - 1 { HistoryHasEvent(audit[..|audit| - 1], i); }
  }
}
