/** The durable response store as the source writes it: tables behind transactions. */
module ResponseStores {
  import opened Wrappers
  import opened Audit
  import opened Store

  method ChooseIo() returns (io: Io) {
    if {
      case true => io := Commits;
      case true => io := LostBefore;
      case true => io := LostAfter;
    }
  }

  class SQLiteResponseStore {
    var records: map<Rid, Record>
    var audit: seq<Event>
    var intents: set<Rid>
    var admissions: map<Rid, Admission>
    var exported: set<AuditId>
    var claimed: bool

    ghost function Contents(): Tables
      reads this
    {
      Tables(records, audit, intents, admissions, exported)
    }

    /** Open what is on disk. */
    constructor (disk: Tables)
      ensures Contents() == Backfill(disk) && !claimed
    {
      records, audit, intents := disk.records, disk.audit, disk.intents;
      admissions, exported, claimed := disk.admissions, disk.exported, false;
      new;
      BackfillAdmissions();
    }

    method BackfillAdmissions()
      modifies this`admissions
      ensures Contents() == Backfill(old(Contents()))
    {
      if admissions != map[] { return; }
      var i := 0;
      while i < |audit|
        invariant 0 <= i <= |audit|
        invariant admissions == Scan(audit[..i])
      {
        ScanAppend(audit[..i], audit[i]);
        assert audit[..i] + [audit[i]] == audit[..i + 1];
        if audit[i].number == 1 { RecordAdmission(audit[i]); }
        i := i + 1;
      }
      assert audit[..i] == audit;
    }

    /** A response that is in the index keeps its entry. */
    method RecordAdmission(e: Event)
      modifies this`admissions
      ensures admissions == Admit(old(admissions), e)
    {
      if e.rid !in admissions { admissions := admissions[e.rid := Admission(e.policyId, e.at)]; }
    }

    /** Only the first taker gets the store. */
    method Take() returns (ok: bool)
      modifies this`claimed
      ensures ok == !old(claimed) && claimed
    {
      ok := !claimed;
      claimed := true;
    }

    /** One transaction: the intent, the event, its admission and the snapshot, or nothing. A failed
        one may raise after it committed. */
    method Checkpoint(r: Record, event: Option<Event>) returns (ok: bool, ghost io: Io)
      modifies this
      ensures claimed == old(claimed)
      ensures ok <==> CheckpointAccepts(old(Contents()), r, event) && io.Commits?
      ensures Contents() == if CheckpointAccepts(old(Contents()), r, event) && !io.LostBefore?
                            then Committed(old(Contents()), r, event) else old(Contents())
    {
      if event.None? && r.pending == Some(OpApply) && r.rid in intents { return false, Commits; }
      var trail := History(audit, r.rid);
      if event.Some? {
        if !ValidTransition(event.value, trail) { return false, Commits; }
        if exists e :: e in audit && e.rid == event.value.rid && e.number == event.value.number {
          return false, Commits;
        }
        trail := trail + [event.value];
      }
      if trail == [] { return false, Commits; }
      var latest := trail[|trail| - 1];
      if latest.state != r.state || latest.number != r.number { return false, Commits; }
      if r.rid in records && !(records[r.rid].command == r.command && records[r.rid].expiresAt == r.expiresAt) {
        return false, Commits;
      }
      var end := ChooseIo();
      io := end;
      if end != LostBefore {
        if event.Some? {
          audit := audit + [event.value];
          if event.value.number == 1 { RecordAdmission(event.value); }
        } else if r.pending == Some(OpApply) {
          intents := intents + {r.rid};
        }
        records := records[r.rid := r];
      }
      ok := end == Commits;
    }

    /** The index query behind the rate limit: on a store whose index is the scan, the number of first
        events of the policy in the journal that are newer than the instant. */
    method RequestsSince(policyId: string, since: int) returns (n: nat)
      ensures n == RequestedSince(admissions, policyId, since)
      ensures admissions == Scan(audit) && Distinct(Firsts(audit)) ==> n == CountSince(Firsts(audit), policyId, since)
    {
      if admissions == Scan(audit) && Distinct(Firsts(audit)) { IndexCountsLikeScan(audit, policyId, since); }
      n := |set rid | rid in admissions && admissions[rid].policyId == policyId && admissions[rid].at > since|;
    }

    /** The first unmarked events of the journal, in its order. */
    method UnexportedEvents(limit: nat) returns (events: seq<Event>)
      ensures events == Unexported(audit, exported)[..Min(limit, |Unexported(audit, exported)|)]
    {
      events := [];
      var i := 0;
      while i < |audit| && |events| < limit
        invariant 0 <= i <= |audit|
        invariant events == Unexported(audit[..i], exported) && |events| <= limit
      {
        assert audit[..i + 1] == audit[..i] + [audit[i]];
        UnexportedSplit(audit[..i], [audit[i]], exported);
        if IdOf(audit[i]) !in exported { events := events + [audit[i]]; }
        i := i + 1;
      }
      assert audit == audit[..i] + audit[i..];
      UnexportedSplit(audit[..i], audit[i..], exported);
    }

    /** Mark an event as delivered; the transaction may raise with or without having committed. Once it
        took effect, what is left to deliver is what was left before, in order, without that event. */
    method MarkExported(id: AuditId) returns (io: Io)
      modifies this`exported
      ensures exported == if io.LostBefore? then old(exported) else old(exported) + {id}
      ensures Unexported(audit, exported) == if io.LostBefore? then Unexported(audit, old(exported))
                                             else Without(Unexported(audit, old(exported)), id)
    {
      MarkingLeavesTheRest(audit, exported, id);
      io := ChooseIo();
      if io != LostBefore { exported := exported + {id}; }
    }
  }

  function Unexported(audit: seq<Event>, exported: set<AuditId>): seq<Event> {
    if audit == [] then []
    else if IdOf(audit[0]) in exported then Unexported(audit[1..], exported)
    else [audit[0]] + Unexported(audit[1..], exported)
  }

  /** Some events without those of one identity. */
  function Without(events: seq<Event>, id: AuditId): seq<Event> {
    if events == [] then []
    else if IdOf(events[0]) == id then Without(events[1..], id)
    else [events[0]] + Without(events[1..], id)
  }

  lemma {:induction false} MarkingLeavesTheRest(audit: seq<Event>, exported: set<AuditId>, id: AuditId)
    ensures Unexported(audit, exported + {id}) == Without(Unexported(audit, exported), id)
  {
    if audit != [] {
      MarkingLeavesTheRest(audit[1..], exported, id);
      if IdOf(audit[0]) !in exported {
        var rest := Unexported(audit[1..], exported);
        assert ([audit[0]] + rest)[1..] == rest;
      }
    }
  }

  lemma {:induction false} UnexportedSplit(a: seq<Event>, b: seq<Event>, exported: set<AuditId>)
    ensures Unexported(a + b, exported) == Unexported(a, exported) + Unexported(b, exported)
  {
    if a == [] {
      assert a + b == b;
    } else {
      assert (a + b)[1..] == a[1..] + b;
      UnexportedSplit(a[1..], b, exported);
    }
  }
}
