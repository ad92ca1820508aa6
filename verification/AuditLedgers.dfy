/**
 * The two ledgers without response records: in memory (response/orchestrator/audit.py), and in
 * SQLite, where an event is checked by replaying its whole history through a fresh in-memory ledger
 * (response/orchestrator/sqlite_audit.py).
 */
module AuditLedgers {
  import opened Wrappers
  import opened Policy
  import opened Audit
  import opened Store

  function Rows(byResponse: map<Rid, seq<Event>>, rid: Rid): seq<Event> {
    if rid in byResponse then byResponse[rid] else []
  }

  /** The index over the histories of an in-memory ledger. */
  function Index(byResponse: map<Rid, seq<Event>>): map<Rid, Admission> {
    map rid | rid in byResponse && byResponse[rid] != [] ::
      Admission(byResponse[rid][0].policyId, byResponse[rid][0].at)
  }

  // ----- apply claims ------------------------------------------------------------------------------------

  /** One attempt to claim the apply of a response, and where its trail stood. */
  datatype Attempt = Attempt(rid: Rid, state: Option<State>)

  /** Both ledgers: the intents after an attempt, and whether it was granted. */
  function Claiming(intents: set<Rid>, a: Attempt): (set<Rid>, bool) {
    if a.rid !in intents && a.state == Some(Requested) then (intents + {a.rid}, true) else (intents, false)
  }

  /** The intents after a sequence of attempts, and how many of them were granted to a response. */
  function ClaimAll(intents: set<Rid>, attempts: seq<Attempt>, rid: Rid): (set<Rid>, nat) {
    if attempts == [] then (intents, 0)
    else
      var (held, granted) := ClaimAll(intents, attempts[..|attempts| - 1], rid);
      var last := attempts[|attempts| - 1];
      var (held', ok) := Claiming(held, last);
      (held', granted + (if ok && last.rid == rid then 1 else 0))
  }

  /** However often the apply of a response is claimed: at most one claim is ever granted, and one is
      exactly when none was before and some attempt came while the response was REQUESTED. */
  lemma {:induction false} OneClaimEver(intents: set<Rid>, attempts: seq<Attempt>, rid: Rid)
    ensures var (held, granted) := ClaimAll(intents, attempts, rid);
            && granted <= 1 && intents <= held
            && (rid in held <==> rid in intents || granted == 1)
            && (granted == 1 <==> rid !in intents && Attempt(rid, Some(Requested)) in attempts)
  {
    if attempts != [] {
      var init, last := attempts[..|attempts| - 1], attempts[|attempts| - 1];
      assert attempts == init + [last];
      OneClaimEver(intents, init, rid);
      assert Attempt(rid, Some(Requested)) in attempts
             <==> Attempt(rid, Some(Requested)) in init || last == Attempt(rid, Some(Requested));
    }
  }

  // ----- recovery commands ---------------------------------------------------------------------------------

  /** One attempt to store the command of a response. */
  datatype Saving = Saving(rid: Rid, command: Command)

  /** Both ledgers: the commands after an attempt, and whether it was accepted. */
  function SaveOne(commands: map<Rid, Command>, a: Saving): (map<Rid, Command>, bool) {
    if a.rid in commands then (commands, commands[a.rid] == a.command)
    else (commands[a.rid := a.command], true)
  }

  predicate Keeps(before: map<Rid, Command>, after: map<Rid, Command>) {
    forall rid :: rid in before ==> rid in after && after[rid] == before[rid]
  }

  function SaveAll(commands: map<Rid, Command>, attempts: seq<Saving>): map<Rid, Command> {
    if attempts == [] then commands
    else SaveOne(SaveAll(commands, attempts[..|attempts| - 1]), attempts[|attempts| - 1]).0
  }

  /** However often commands are saved: what was stored stays, a response that had none keeps the first one
      saved for it, and an attempt is accepted exactly when it saves that very command. */
  lemma {:induction false} FirstCommandStays(commands: map<Rid, Command>, attempts: seq<Saving>, i: nat)
    requires i < |attempts|
    ensures Keeps(commands, SaveAll(commands, attempts))
    ensures var a := attempts[i];
            && a.rid in SaveAll(commands, attempts)
            && (SaveOne(SaveAll(commands, attempts[..i]), a).1 <==> SaveAll(commands, attempts)[a.rid] == a.command)
            && (a.rid !in commands && (forall j :: 0 <= j < i ==> attempts[j].rid != a.rid) ==>
                  SaveAll(commands, attempts)[a.rid] == a.command)
  {
    var n := |attempts| - 1;
    var init := attempts[..n];
    if i < n {
      FirstCommandStays(commands, init, i);
      assert init[..i] == attempts[..i] && init[i] == attempts[i];
    } else {
      SavesOnlyTheirs(commands, init, attempts[i].rid);
    }
  }

  /** Saving for other responses stores nothing for this one. */
  lemma {:induction false} SavesOnlyTheirs(commands: map<Rid, Command>, attempts: seq<Saving>, rid: Rid)
    ensures Keeps(commands, SaveAll(commands, attempts))
    ensures rid !in commands && (forall j :: 0 <= j < |attempts| ==> attempts[j].rid != rid) ==>
              rid !in SaveAll(commands, attempts)
  {
    if attempts != [] { SavesOnlyTheirs(commands, attempts[..|attempts| - 1], rid); }
  }

  class InMemoryAuditLedger {
    var byResponse: map<Rid, seq<Event>>
    var applyIntents: set<Rid>
    var commands: map<Rid, Command>

    constructor ()
      ensures byResponse == map[] && applyIntents == {} && commands == map[]
    {
      byResponse, applyIntents, commands := map[], {}, map[];
    }

    ghost predicate Valid()
      reads this
    {
      forall rid :: rid in byResponse ==> LegalHistory(byResponse[rid])
    }

    method SaveCommand(rid: Rid, c: Command) returns (ok: bool)
      modifies this`commands
      ensures (commands, ok) == SaveOne(old(commands), Saving(rid, c))
    {
      if rid in commands && commands[rid] != c { return false; }
      assert rid in commands ==> commands[rid := c] == commands;
      commands := commands[rid := c];
      ok := true;
    }

    method ClaimApply(rid: Rid) returns (ok: bool)
      modifies this`applyIntents
      ensures (applyIntents, ok) == Claiming(old(applyIntents), Attempt(rid, LastState(Rows(byResponse, rid))))
    {
      ok := rid !in applyIntents && LastState(Rows(byResponse, rid)) == Some(Requested);
      if ok { applyIntents := applyIntents + {rid}; }
    }

    method Append(e: Event) returns (ok: bool)
      modifies this`byResponse
      ensures ok <==> ValidTransition(e, Rows(old(byResponse), e.rid))
      ensures byResponse == if ok then old(byResponse)[e.rid := Rows(old(byResponse), e.rid) + [e]]
                            else old(byResponse)
      ensures old(Valid()) ==> Valid()
    {
      var history := Rows(byResponse, e.rid);
      ok := ValidTransition(e, history);
      LegalAppend(history, e);
      if ok { byResponse := byResponse[e.rid := history + [e]]; }
    }

    /** A count over all REQUESTED events. Every legal history has exactly one, its first, so this is
        the count in the admissions index. */
    method RequestsSince(policyId: string, since: int) returns (n: nat)
      requires Valid()
      ensures n == RequestedSince(Index(byResponse), policyId, since)
    {
      n := 0;
      var todo := byResponse.Keys;
      ghost var counted := {};
      while todo != {}
        invariant todo <= byResponse.Keys && n == |counted|
        invariant counted == Counted(Index(byResponse), policyId, since) - todo
        decreases todo
      {
        var rid :| rid in todo;
        var one := CountOne(byResponse[rid], policyId, since);
        n := n + one;
        if one == 1 { counted := counted + {rid}; }
        todo := todo - {rid};
      }
    }

    method CountOne(h: seq<Event>, policyId: string, since: int) returns (n: nat)
      requires LegalHistory(h)
      ensures n == if h != [] && Counts(h[0], policyId, since) then 1 else 0
    {
      n := 0;
      var i := 0;
      while i < |h|
        invariant 0 <= i <= |h|
        invariant n == if i > 0 && Counts(h[0], policyId, since) then 1 else 0
      {
        LegalShape(h, i);
        if h[i].state == Requested && Counts(h[i], policyId, since) { n := n + 1; }
        i := i + 1;
      }
    }
  }

  class SQLiteAuditLedger {
    var commands: map<Rid, Command>
    var intents: set<Rid>
    var audit: seq<Event>

    constructor ()
      ensures commands == map[] && intents == {} && audit == []
    {
      commands, intents, audit := map[], {}, [];
    }

    ghost predicate Valid()
      reads this
    {
      forall rid {:trigger History(audit, rid)} :: LegalHistory(History(audit, rid))
    }

    method SaveCommand(rid: Rid, c: Command) returns (ok: bool)
      modifies this`commands
      ensures (commands, ok) == SaveOne(old(commands), Saving(rid, c))
    {
      if rid in commands { return commands[rid] == c; }
      commands := commands[rid := c];
      ok := true;
    }

    method ClaimApply(rid: Rid) returns (ok: bool)
      modifies this`intents
      ensures (intents, ok) == Claiming(old(intents), Attempt(rid, LastState(History(audit, rid))))
    {
      ok := LastState(History(audit, rid)) == Some(Requested) && rid !in intents;
      if ok { intents := intents + {rid}; }
    }

    /** Replay the stored history of the response, then the event. An event is accepted exactly when
        the extended history is legal from its beginning; on a table whose histories are legal that is
        exactly the one-step check, and the table stays legal. */
    method Append(e: Event) returns (ok: bool)
      modifies this`audit
      ensures ok <==> LegalHistory(History(old(audit), e.rid) + [e])
      ensures audit == if ok then old(audit) + [e] else old(audit)
      ensures old(Valid()) ==> Valid() && (ok <==> ValidTransition(e, History(old(audit), e.rid)))
    {
      var h := History(audit, e.rid);
      forall i | 0 <= i < |h| ensures h[i].rid == e.rid { HistoryIsOfResponse(audit, e.rid, i); }
      ok := Replay(h, e);
      LegalAppend(h, e);
      if ok {
        forall rid | old(Valid()) ensures LegalHistory(History(audit + [e], rid)) {
          HistoryAppend(audit, e, rid);
          assert LegalHistory(History(audit, rid));
        }
        audit := audit + [e];
      }
    }

    method Replay(h: seq<Event>, e: Event) returns (ok: bool)
      requires forall i :: 0 <= i < |h| ==> h[i].rid == e.rid
      ensures ok <==> LegalHistory(h + [e])
    {
      hide LegalHistory, ValidTransition;
      var reference := new InMemoryAuditLedger();
      LegalAppend(h, e);
      NothingIsLegal();
      var i := 0;
      assert h[..i] == [];
      while i < |h|
        invariant 0 <= i <= |h|
        invariant Rows(reference.byResponse, e.rid) == h[..i] && LegalHistory(h[..i])
      {
        var fits := reference.Append(h[i]);
        LegalAppend(h[..i], h[i]);
        assert h[..i] + [h[i]] == h[..i + 1];
        if !fits {
          if LegalHistory(h) { LegalAt(h, i); }
          return false;
        }
        i := i + 1;
      }
      assert h[..i] == h;
      ok := reference.Append(e);
    }

    /** A count over first events. */
    method RequestsSince(policyId: string, since: int) returns (n: nat)
      ensures n == CountSince(Firsts(audit), policyId, since)
    {
      n := 0;
      var i := 0;
      while i < |audit|
        invariant 0 <= i <= |audit|
        invariant n == CountSince(Firsts(audit[..i]), policyId, since)
      {
        CountNext(audit, i, policyId, since);
        if audit[i].number == 1 && Counts(audit[i], policyId, since) { n := n + 1; }
        i := i + 1;
      }
      assert audit[..i] == audit;
    }

    /** The responses whose apply was claimed and whose trail has not reached a terminal state. */
    method RecoveryQueue() returns (pending: map<Rid, Event>)
      ensures pending.Keys == set rid | rid in intents && History(audit, rid) != []
                                        && !Terminal(LastState(History(audit, rid)).value)
      ensures forall rid :: rid in pending ==>
                var h := History(audit, rid); h != [] && pending[rid] == h[|h| - 1]
    {
      pending := map[];
      var todo := intents;
      while todo != {}
        invariant todo <= intents
        invariant pending.Keys == set rid | rid in intents - todo && History(audit, rid) != []
                                            && !Terminal(LastState(History(audit, rid)).value)
        invariant forall rid :: rid in pending ==>
                    var h := History(audit, rid); h != [] && pending[rid] == h[|h| - 1]
        decreases todo
      {
        var rid :| rid in todo;
        var h := History(audit, rid);
        if h != [] && !Terminal(h[|h| - 1].state) { pending := pending[rid := h[|h| - 1]]; }
        todo := todo - {rid};
      }
    }
  }

  /** All three ledgers count alike: the index of the store, the scan over first events, and the count
      over REQUESTED events, for a journal of legal histories. */
  lemma ThreeLedgersCountAlike(audit: seq<Event>, policyId: string, since: int)
    requires forall rid {:trigger History(audit, rid)} :: LegalHistory(History(audit, rid))
    ensures RequestedSince(Scan(audit), policyId, since) == CountSince(Firsts(audit), policyId, since)
    ensures CountRequested(audit, policyId, since) == CountSince(Firsts(audit), policyId, since)
  {
    FirstsOfLegalAreDistinct(audit);
    IndexCountsLikeScan(audit, policyId, since);
    forall i | 0 <= i < |audit| ensures audit[i].state == Requested <==> audit[i].number == 1 {
      HistoryHasEvent(audit, i);
      var h := History(audit, audit[i].rid);
      var j :| 0 <= j < |h| && h[j] == audit[i];
      LegalShape(h, j);
    }
    LedgersCountAlike(audit, policyId, since);
  }

  lemma CountNext(audit: seq<Event>, i: nat, policyId: string, since: int)
    requires i < |audit|
    ensures CountSince(Firsts(audit[..i + 1]), policyId, since)
            == CountSince(Firsts(audit[..i]), policyId, since)
               + (if audit[i].number == 1 && Counts(audit[i], policyId, since) then 1 else 0)
  {
    assert audit[..i + 1] == audit[..i] + [audit[i]];
    ScanAppend(audit[..i], audit[i]);
    CountSinceAppend(Firsts(audit[..i]), audit[i], policyId, since);
  }

  lemma {:induction false} FirstsOfLegalAreDistinct(audit: seq<Event>)
    requires forall rid {:trigger History(audit, rid)} :: LegalHistory(History(audit, rid))
    ensures Distinct(Firsts(audit))
  {
    if audit != [] {
      var init, last := audit[..|audit| - 1], audit[|audit| - 1];
      assert audit == init + [last];
      LegalWithoutLast(init, last);
      FirstsOfLegalAreDistinct(init);
      if last.number == 1 { FirstIsNew(init, last); }
    }
  }

  lemma LegalWithoutLast(init: seq<Event>, last: Event)
    requires forall rid {:trigger History(init + [last], rid)} :: LegalHistory(History(init + [last], rid))
    ensures forall rid {:trigger History(init, rid)} :: LegalHistory(History(init, rid))
  {
    forall rid {:trigger History(init, rid)} ensures LegalHistory(History(init, rid)) {
      HistoryAppend(init, last, rid);
      if rid == last.rid { LegalAppend(History(init, rid), last); }
      assert LegalHistory(History(init + [last], rid));
    }
  }

  /** An event with number 1 opens a response that had no event before. */
  lemma FirstIsNew(init: seq<Event>, last: Event)
    requires LegalHistory(History(init + [last], last.rid)) && last.number == 1
    ensures forall i :: 0 <= i < |Firsts(init)| ==> Firsts(init)[i].rid != last.rid
  {
    HistoryAppend(init, last, last.rid);
    LegalShape(History(init + [last], last.rid), |History(init, last.rid)|);
    assert History(init, last.rid) == [];
    forall i | 0 <= i < |Firsts(init)| ensures Firsts(init)[i].rid != last.rid {
      FirstHasHistory(init, i);
    }
  }

  lemma {:induction false} FirstHasHistory(audit: seq<Event>, i: nat)
    requires i < |Firsts(audit)|
    ensures History(audit, Firsts(audit)[i].rid) != []
  {
    if i < |Firsts(audit[..|audit| - 1])| { FirstHasHistory(audit[..|audit| - 1], i); }
  }
}
