/**
 * The durable response store (response/orchestrator/store.py): five tables and the transactions on
 * them. A transaction that raises leaves the tables as they were.
 */
module Store {
  import opened Wrappers
  import opened Policy
  import opened Audit

  /** A response record. In memory the expiry has microseconds; a stored snapshot has milliseconds.
      An absent adapter reference is the empty string. */
  datatype Record = Record(
    rid: Rid, command: Command, expiresAt: int,
    state: State, number: nat,
    reference: string, authorized: bool,
    pending: Option<Operation>, startedAt: Option<int>)

  function Snapshot(r: Record): Record {
    r.(expiresAt := FloorMs(r.expiresAt))
  }

  /** An adapter operation may have left something behind that a revert still has to undo. */
  predicate Unresolved(r: Record) {
    r.pending.Some? || (r.state.FailedState? && r.reference != "") || r.state.Applied? || r.state.Verified?
  }

  datatype Admission = Admission(policyId: string, at: int)

  datatype Tables = Tables(
    records: map<Rid, Record>,
    audit: seq<Event>,
    intents: set<Rid>,
    admissions: map<Rid, Admission>,
    exported: set<AuditId>)

  const EmptyTables := Tables(map[], [], {}, map[], {})

  function Events(t: Tables, rid: Rid): seq<Event> {
    History(t.audit, rid)
  }

  /** How a transaction ends: it commits, or raises without or with having committed. */
  datatype Io = Commits | LostBefore | LostAfter

  /** The checks inside the checkpoint transaction, triggers and unique keys included. */
  predicate CheckpointAccepts(t: Tables, r: Record, event: Option<Event>) {
    var h := Events(t, r.rid);
    var h' := if event.Some? then h + [event.value] else h;
    && (event.None? && r.pending == Some(OpApply) ==> r.rid !in t.intents)
    && (event.Some? ==>
          && ValidTransition(event.value, h)
          && (forall e :: e in t.audit ==> !(e.rid == event.value.rid && e.number == event.value.number)))
    && h' != [] && h'[|h'| - 1].state == r.state && h'[|h'| - 1].number == r.number
    && (r.rid in t.records ==>
          t.records[r.rid].command == r.command && t.records[r.rid].expiresAt == r.expiresAt)
  }

  function Admit(admissions: map<Rid, Admission>, e: Event): map<Rid, Admission> {
    if e.rid in admissions then admissions else admissions[e.rid := Admission(e.policyId, e.at)]
  }

  /** The tables after the checkpoint transaction commits. */
  function Committed(t: Tables, r: Record, event: Option<Event>): Tables {
    Tables(
      t.records[r.rid := r],
      if event.Some? then t.audit + [event.value] else t.audit,
      if event.None? && r.pending == Some(OpApply) then t.intents + {r.rid} else t.intents,
      if event.Some? && event.value.number == 1 then Admit(t.admissions, event.value) else t.admissions,
      t.exported)
  }

  // ----- the admissions index -------------------------------------------------------------------------

  /** First events of a journal, in order: one for every accepted submission. */
  function Firsts(audit: seq<Event>): seq<Event> {
    if audit == [] then []
    else
      var last := audit[|audit| - 1];
      var before := Firsts(audit[..|audit| - 1]);
      if last.number == 1 then before + [last] else before
  }

  /** The index a scan of the journal would build. */
  function Scan(audit: seq<Event>): map<Rid, Admission> {
    if audit == [] then map[]
    else
      var last := audit[|audit| - 1];
      var before := Scan(audit[..|audit| - 1]);
      if last.number == 1 then Admit(before, last) else before
  }

  /** An empty index is replaced by the scan; any other is trusted. */
  function Backfill(t: Tables): Tables {
    if t.admissions == map[] then t.(admissions := Scan(t.audit)) else t
  }

  lemma ScanAppend(audit: seq<Event>, e: Event)
    ensures Scan(audit + [e]) == if e.number == 1 then Admit(Scan(audit), e) else Scan(audit)
    ensures Firsts(audit + [e]) == if e.number == 1 then Firsts(audit) + [e] else Firsts(audit)
  {
    assert (audit + [e])[..|audit|] == audit;
  }

  /** The index shows every response as its earliest first event: later ones of the same response are
      ignored, and other responses do not matter. */
  lemma {:induction false} ScanHasFirst(audit: seq<Event>, i: nat)
    requires i < |audit| && audit[i].number == 1
    requires forall j :: 0 <= j < i && audit[j].number == 1 ==> audit[j].rid != audit[i].rid
    ensures audit[i].rid in Scan(audit)
    ensures Scan(audit)[audit[i].rid] == Admission(audit[i].policyId, audit[i].at)
  {
    var init := audit[..|audit| - 1];
    if i < |init| {
      ScanHasFirst(init, i);
    } else {
      ScanKeys(init, audit[i].rid);
      FirstsAreOf(init);
    }
  }

  lemma {:induction false} FirstsAreOf(audit: seq<Event>)
    ensures forall e :: e in Firsts(audit) <==> e in audit && e.number == 1
  {
    if audit != [] {
      var init, last := audit[..|audit| - 1], audit[|audit| - 1];
      assert audit == init + [last];
      FirstsAreOf(init);
    }
  }

  /** A checkpoint keeps the index equal to the scan, and so opening the store changes nothing; a
      database that never had the index gets exactly the scan. */
  lemma IndexIsScan(t: Tables, r: Record, event: Option<Event>)
    requires t.admissions == Scan(t.audit)
    ensures var t' := Committed(t, r, event);
            t'.admissions == Scan(t'.audit) && Backfill(t') == t'
    ensures Backfill(t.(admissions := map[])) == t
  {
    if event.Some? { ScanAppend(t.audit, event.value); }
  }

  /** Admitted submissions of a policy newer than an instant. */
  function Counted(admissions: map<Rid, Admission>, policyId: string, since: int): set<Rid> {
    set rid | rid in admissions && admissions[rid].policyId == policyId && admissions[rid].at > since
  }

  /** SQLiteResponseStore.requested_since: counted in the index. */
  function RequestedSince(admissions: map<Rid, Admission>, policyId: string, since: int): nat {
    |Counted(admissions, policyId, since)|
  }

  predicate Counts(e: Event, policyId: string, since: int) {
    e.policyId == policyId && e.at > since
  }

  /** SQLiteAuditLedger.requested_since: counted in a scan over first events. */
  function CountSince(firsts: seq<Event>, policyId: string, since: int): nat {
    if firsts == [] then 0
    else
      var last := firsts[|firsts| - 1];
      CountSince(firsts[..|firsts| - 1], policyId, since) + (if Counts(last, policyId, since) then 1 else 0)
  }

  /** InMemoryAuditLedger.requested_since: counted in a scan over REQUESTED events. */
  function CountRequested(audit: seq<Event>, policyId: string, since: int): nat {
    if audit == [] then 0
    else
      var last := audit[|audit| - 1];
      CountRequested(audit[..|audit| - 1], policyId, since)
      + (if last.state == Requested && Counts(last, policyId, since) then 1 else 0)
  }

  /** No response is opened twice. */
  predicate Distinct(firsts: seq<Event>) {
    forall i, j :: 0 <= i < j < |firsts| ==> firsts[i].rid != firsts[j].rid
  }

  lemma CountSinceAppend(firsts: seq<Event>, e: Event, policyId: string, since: int)
    ensures CountSince(firsts + [e], policyId, since)
            == CountSince(firsts, policyId, since) + (if Counts(e, policyId, since) then 1 else 0)
  {
    assert (firsts + [e])[..|firsts|] == firsts;
  }

  lemma CountedAdmit(admissions: map<Rid, Admission>, e: Event, policyId: string, since: int)
    requires e.rid !in admissions
    ensures RequestedSince(Admit(admissions, e), policyId, since)
            == RequestedSince(admissions, policyId, since) + (if Counts(e, policyId, since) then 1 else 0)
  {
    var before, after := Counted(admissions, policyId, since), Counted(Admit(admissions, e), policyId, since);
    if Counts(e, policyId, since) {
      assert after == before + {e.rid};
    } else {
      assert after == before;
    }
  }

  lemma {:induction false} ScanKeys(audit: seq<Event>, rid: Rid)
    ensures rid in Scan(audit) <==> exists e :: e in Firsts(audit) && e.rid == rid
  {
    if audit != [] {
      var init, last := audit[..|audit| - 1], audit[|audit| - 1];
      ScanKeys(init, rid);
      if last.number == 1 {
        if last.rid == rid { assert last in Firsts(audit); }
        forall e | e in Firsts(init) ensures e in Firsts(audit) {}
      }
    }
  }

  lemma DistinctPrefix(firsts: seq<Event>, e: Event)
    requires Distinct(firsts + [e])
    ensures Distinct(firsts)
    ensures forall f :: f in firsts ==> f.rid != e.rid
  {
    var all := firsts + [e];
    forall i, j | 0 <= i < j < |firsts| ensures firsts[i].rid != firsts[j].rid {
      assert all[i] == firsts[i] && all[j] == firsts[j];
    }
    forall f | f in firsts ensures f.rid != e.rid {
      var i :| 0 <= i < |firsts| && firsts[i] == f;
      assert all[i].rid != all[|firsts|].rid;
    }
  }

  /** The index and the scan count the same submissions. */
  lemma {:induction false} IndexCountsLikeScan(audit: seq<Event>, policyId: string, since: int)
    requires Distinct(Firsts(audit))
    ensures RequestedSince(Scan(audit), policyId, since) == CountSince(Firsts(audit), policyId, since)
  {
    if audit != [] {
      var init, last := audit[..|audit| - 1], audit[|audit| - 1];
      if last.number == 1 {
        DistinctPrefix(Firsts(init), last);
        IndexCountsLikeScan(init, policyId, since);
        ScanKeys(init, last.rid);
        CountedAdmit(Scan(init), last, policyId, since);
        CountSinceAppend(Firsts(init), last, policyId, since);
      } else {
        IndexCountsLikeScan(init, policyId, since);
      }
    }
  }

  /** In a journal of legal histories the in-memory ledger counts the same submissions too. */
  lemma {:induction false} LedgersCountAlike(audit: seq<Event>, policyId: string, since: int)
    requires forall i :: 0 <= i < |audit| ==> (audit[i].state == Requested <==> audit[i].number == 1)
    ensures CountRequested(audit, policyId, since) == CountSince(Firsts(audit), policyId, since)
  {
    if audit != [] {
      var init, last := audit[..|audit| - 1], audit[|audit| - 1];
      LedgersCountAlike(init, policyId, since);
      if last.number == 1 { CountSinceAppend(Firsts(init), last, policyId, since); }
    }
  }

  // ----- opening the store ------------------------------------------------------------------------------

  /** The audit trail of a stored response is about its signed command. */
  predicate EventMatches(e: Event, r: Record) {
    && e.target == r.command.body.target
    && e.action == r.command.body.action
    && e.key == r.command.body.key
    && e.expiresAt == FloorMs(r.expiresAt)
  }

  /** The consistency checks of store.load and of the orchestrator's constructor, for one snapshot. */
  predicate Consistent(cfg: Config, t: Tables, rid: Rid)
    requires rid in t.records
  {
    var r := t.records[rid];
    var h := Events(t, r.rid);
    && h != [] && h[|h| - 1].state == r.state && h[|h| - 1].number == r.number
    && r.rid == Rid(r.command.body.key)
    && Authentic(cfg, r.command, h[0].at)
    && forall i :: 0 <= i < |h| ==> EventMatches(h[i], r)
  }

  predicate OpenAccepts(cfg: Config, t: Tables) {
    forall rid :: rid in t.records ==> Consistent(cfg, t, rid)
  }
}
