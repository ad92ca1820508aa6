/**
 * Ordered delivery of the audit journal to an external stream (AuditExporter.export in
 * response/service/runner.py over the delivery marks of response/orchestrator/store.py and the
 * create-if-absent of soc/workers/common.py).
 *
 * A pass reads a batch of unmarked events and, for each, creates the remote document and then marks
 * the event. The process may stop between any two of these, a request may time out with or without
 * having taken effect, and the journal grows all the while.
 */
module AuditExport {
  import opened Wrappers
  import opened Ownership
  import opened OwnershipClient
  import opened Audit
  import opened Store
  import opened ResponseStores

  datatype Export = Export(
    audit: seq<Event>, exported: set<AuditId>, remote: map<AuditId, Event>,
    batch: Option<seq<Event>>, created: bool)

  datatype ExportStep =
    | Journal(event: Event)
    | Begin(limit: nat)
    | Create(luck: Luck)
    | Mark(io: Io)
    | Stop

  function Ids(events: seq<Event>): set<AuditId> {
    set e | e in events :: IdOf(e)
  }

  /** Create one document; an existing one is never overwritten. */
  function PutDocument(remote: map<AuditId, Event>, e: Event): map<AuditId, Event> {
    if IdOf(e) in remote then remote else remote[IdOf(e) := e]
  }

  function Do(s: Export, step: ExportStep): Export {
    match step
    case Journal(e) => if IdOf(e) in Ids(s.audit) then s else s.(audit := s.audit + [e])
    case Begin(limit) =>
      if s.batch.Some? then s
      else
        var todo := Unexported(s.audit, s.exported);
        s.(batch := Some(todo[..Min(limit, |todo|)]), created := false)
    case Create(luck) =>
      if s.batch.None? || s.batch.value == [] || s.created then s
      else
        var remote' := PutDocument(s.remote, s.batch.value[0]);
        (match luck
         case Works => s.(remote := remote', created := true)
         case RaisesBefore => s.(batch := None)
         case RaisesAfter => s.(remote := remote', batch := None))
    case Mark(io) =>
      if s.batch.None? || s.batch.value == [] || !s.created then s
      else
        var exported' := s.exported + {IdOf(s.batch.value[0])};
        (match io
         case Commits => s.(exported := exported', batch := Some(s.batch.value[1..]), created := false)
         case LostBefore => s.(batch := None, created := false)
         case LostAfter => s.(exported := exported', batch := None, created := false))
    case Stop => s.(batch := None, created := false)
  }

  function Run(s: Export, steps: Trace<ExportStep>): Export {
    match steps
    case Start => s
    case Then(before, step) => Do(Run(s, before), step)
  }

  const Fresh := Export([], {}, map[], None, false)

  /** The documents of a journal without repeated identities. */
  function Documents(events: seq<Event>): map<AuditId, Event> {
    if events == [] then map[]
    else
      var last := events[|events| - 1];
      Documents(events[..|events| - 1])[IdOf(last) := last]
  }

  predicate NoRepeats(events: seq<Event>) {
    forall i, j :: 0 <= i < j < |events| ==> IdOf(events[i]) != IdOf(events[j])
  }

  /** The marks are the first `n` events; the remote stream has them and perhaps the next one. */
  predicate InStep(s: Export, n: nat) {
    && NoRepeats(s.audit) && n <= |s.audit|
    && s.exported == Ids(s.audit[..n])
    && (s.remote == Documents(s.audit[..n]) || (n < |s.audit| && s.remote == Documents(s.audit[..n + 1])))
    && (s.batch.Some? ==> s.batch.value <= s.audit[n..])
    && (s.created ==> s.batch.Some? && s.batch.value != [] && s.remote == Documents(s.audit[..n + 1]))
  }

  ghost predicate ExportInv(s: Export) {
    exists n: nat :: InStep(s, n)
  }

  lemma {:induction false} DocumentsHave(events: seq<Event>)
    requires NoRepeats(events)
    ensures Documents(events).Keys == Ids(events)
    ensures forall e :: e in events ==> Documents(events)[IdOf(e)] == e
  {
    if events != [] {
      var init, last := events[..|events| - 1], events[|events| - 1];
      assert events == init + [last];
      DocumentsHave(init);
      assert Ids(events) == Ids(init) + {IdOf(last)};
      forall e | e in init ensures IdOf(e) != IdOf(last) {
        var i :| 0 <= i < |init| && init[i] == e;
      }
    }
  }

  lemma PrefixHasNoRepeats(events: seq<Event>, n: nat)
    requires NoRepeats(events) && n <= |events|
    ensures NoRepeats(events[..n])
    ensures n < |events| ==> IdOf(events[n]) !in Ids(events[..n])
  {
  }

  lemma {:induction false} NothingUnexported(events: seq<Event>, exported: set<AuditId>)
    requires Ids(events) <= exported
    ensures Unexported(events, exported) == []
  {
    if events != [] {
      assert events[0] in events;
      assert Ids(events[1..]) <= Ids(events);
      NothingUnexported(events[1..], exported);
    }
  }

  lemma {:induction false} AllUnexported(events: seq<Event>, exported: set<AuditId>)
    requires Ids(events) !! exported
    ensures Unexported(events, exported) == events
  {
    if events != [] {
      assert IdOf(events[0]) in Ids(events);
      assert Ids(events[1..]) <= Ids(events);
      AllUnexported(events[1..], exported);
    }
  }

  /** What is left to deliver is the rest of the journal, in order. */
  lemma UnexportedIsRest(s: Export, n: nat)
    requires InStep(s, n)
    ensures Unexported(s.audit, s.exported) == s.audit[n..]
  {
    var a := s.audit;
    assert a == a[..n] + a[n..];
    UnexportedSplit(a[..n], a[n..], s.exported);
    NothingUnexported(a[..n], s.exported);
    forall e | e in a[n..] ensures IdOf(e) !in Ids(a[..n]) {
      var i :| n <= i < |a| && a[i] == e;
    }
    AllUnexported(a[n..], s.exported);
  }

  /** Creating the next document, again or for the first time. */
  lemma PutNext(s: Export, n: nat)
    requires InStep(s, n) && n < |s.audit|
    ensures PutDocument(s.remote, s.audit[n]) == Documents(s.audit[..n + 1])
  {
    NextDocument(s.audit, n);
  }

  lemma NextDocument(audit: seq<Event>, n: nat)
    requires NoRepeats(audit) && n < |audit|
    ensures var e, before, after := audit[n], Documents(audit[..n]), Documents(audit[..n + 1]);
            IdOf(e) !in before && after == before[IdOf(e) := e]
  {
    PrefixHasNoRepeats(audit, n);
    DocumentsHave(audit[..n]);
    assert audit[..n + 1][..n] == audit[..n];
  }

  lemma JournalKeepsInStep(s: Export, n: nat, e: Event)
    requires InStep(s, n)
    ensures InStep(Do(s, Journal(e)), n)
  {
    if IdOf(e) !in Ids(s.audit) {
      var a' := s.audit + [e];
      forall i | 0 <= i < |s.audit| ensures IdOf(s.audit[i]) != IdOf(e) {
        assert s.audit[i] in s.audit;
      }
      assert a'[..n] == s.audit[..n];
      if n < |s.audit| { assert a'[..n + 1] == s.audit[..n + 1]; }
      assert a'[n..] == s.audit[n..] + [e];
    }
  }

  lemma CreateKeepsInStep(s: Export, n: nat, luck: Luck)
    requires InStep(s, n)
    ensures InStep(Do(s, Create(luck)), n)
  {
    if s.batch.Some? && s.batch.value != [] && !s.created {
      assert s.batch.value[0] == s.audit[n..][0] == s.audit[n];
      PutNext(s, n);
    }
  }

  /** A batch that is what comes next in the journal, before and after its first event. */
  lemma BatchMovesOn(audit: seq<Event>, n: nat, batch: seq<Event>)
    requires n <= |audit| && batch <= audit[n..] && batch != []
    ensures n < |audit| && batch[0] == audit[n] && batch[1..] <= audit[n + 1..]
  {
    assert audit[n..][0] == audit[n];
    assert audit[n..][1..] == audit[n + 1..];
  }

  lemma NextMark(audit: seq<Event>, n: nat)
    requires n < |audit|
    ensures Ids(audit[..n + 1]) == Ids(audit[..n]) + {IdOf(audit[n])}
  {
    assert audit[..n + 1] == audit[..n] + [audit[n]];
  }

  lemma MarkKeepsInStep(s: Export, n: nat, io: Io) returns (n': nat)
    requires InStep(s, n)
    ensures InStep(Do(s, Mark(io)), n') && n <= n' <= n + 1
  {
    hide Ids, Documents, NoRepeats;
    n' := n;
    if s.batch.Some? && s.batch.value != [] && s.created && io != LostBefore {
      BatchMovesOn(s.audit, n, s.batch.value);
      NextMark(s.audit, n);
      n' := n + 1;
    }
  }

  lemma StepKeepsInStep(s: Export, n: nat, step: ExportStep) returns (n': nat)
    requires InStep(s, n)
    ensures InStep(Do(s, step), n') && n <= n' <= n + 1
  {
    n' := n;
    match step
    case Journal(e) => JournalKeepsInStep(s, n, e);
    case Begin(_) => UnexportedIsRest(s, n);
    case Create(luck) => CreateKeepsInStep(s, n, luck);
    case Mark(io) => n' := MarkKeepsInStep(s, n, io);
    case Stop =>
  }

  /** Over any run, with stops and ambiguous timeouts anywhere: the marks are a prefix of the journal,
      and the remote stream is that prefix or has the one next event more, every document identical
      to its event. */
  lemma {:induction false} RunStaysInStep(steps: Trace<ExportStep>) returns (n: nat)
    ensures InStep(Run(Fresh, steps), n)
  {
    if steps.Start? {
      n := 0;
    } else {
      n := RunStaysInStep(steps.before);
      n := StepKeepsInStep(Run(Fresh, steps.before), n, steps.step);
    }
  }

  // ----- passes that nothing blocks ----------------------------------------------------------------------

  /** One event delivered and marked. */
  function Deliver(s: Export, e: Event): Export {
    s.(exported := s.exported + {IdOf(e)}, remote := PutDocument(s.remote, e))
  }

  function DeliverAll(s: Export, events: seq<Event>): Export
    decreases |events|
  {
    if events == [] then s else DeliverAll(Deliver(s, events[0]), events[1..])
  }

  /** A whole pass. */
  function Pass(s: Export, limit: nat): Export {
    var todo := Unexported(s.audit, s.exported);
    DeliverAll(s, todo[..Min(limit, |todo|)])
  }

  function Passes(s: Export, limit: nat, count: nat): Export
    decreases count
  {
    if count == 0 then s else Passes(Pass(s, limit), limit, count - 1)
  }

  lemma DeliverAdvances(s: Export, n: nat)
    requires InStep(s, n) && s.batch.None? && n < |s.audit|
    ensures InStep(Deliver(s, s.audit[n]), n + 1)
  {
    hide Ids, Documents, NoRepeats;
    PutNext(s, n);
    NextMark(s.audit, n);
  }

  lemma {:induction false} DeliverAllAdvances(s: Export, n: nat, count: nat)
    requires InStep(s, n) && s.batch.None? && n + count <= |s.audit|
    ensures var s' := DeliverAll(s, s.audit[n..n + count]);
            InStep(s', n + count) && s'.batch.None? && s'.audit == s.audit
    decreases count
  {
    hide InStep;
    if count == 0 {
      assert s.audit[n..n + count] == [];
    } else {
      DeliverAdvances(s, n);
      DeliverAllAdvances(Deliver(s, s.audit[n]), n + 1, count - 1);
      NextSlice(s.audit, n, count);
    }
  }

  lemma NextSlice(audit: seq<Event>, n: nat, count: nat)
    requires 0 < count && n + count <= |audit|
    ensures audit[n..n + count][0] == audit[n]
    ensures audit[n..n + count][1..] == audit[n + 1..n + 1 + (count - 1)]
  {
  }

  lemma PassAdvances(s: Export, n: nat, limit: nat)
    requires InStep(s, n) && s.batch.None? && limit > 0
    ensures var s', n' := Pass(s, limit), n + Min(limit, |s.audit| - n);
            InStep(s', n') && s'.batch.None? && s'.audit == s.audit
  {
    hide InStep, DeliverAll;
    InStepBounds(s, n);
    UnexportedIsRest(s, n);
    OldestOf(s.audit, n, limit);
    DeliverAllAdvances(s, n, Min(limit, |s.audit| - n));
  }

  lemma InStepBounds(s: Export, n: nat)
    requires InStep(s, n)
    ensures n <= |s.audit|
    ensures n == |s.audit| ==> s.exported == Ids(s.audit) && s.remote == Documents(s.audit)
  {
    if n == |s.audit| { assert s.audit[..n] == s.audit; }
  }

  lemma OldestOf(audit: seq<Event>, n: nat, limit: nat)
    requires n <= |audit|
    ensures var step := Min(limit, |audit| - n);
            audit[n..][..Min(limit, |audit[n..]|)] == audit[n..n + step]
  {
  }

  lemma OnePassLess(limit: nat, count: nat)
    requires count > 0
    ensures limit * count == limit * (count - 1) + limit
  {
  }

  /** Enough passes that nothing blocks deliver everything: the marks and the remote stream are the
      whole journal. */
  lemma {:induction false} PassesFinish(s: Export, n: nat, limit: nat, count: nat)
    requires InStep(s, n) && s.batch.None? && limit > 0
    requires |s.audit| - n <= limit * count
    ensures var s' := Passes(s, limit, count);
            s'.exported == Ids(s.audit) && s'.remote == Documents(s.audit) && s'.audit == s.audit
    decreases count
  {
    hide InStep, Pass;
    InStepBounds(s, n);
    if count > 0 {
      PassAdvances(s, n, limit);
      OnePassLess(limit, count);
      PassesFinish(Pass(s, limit), n + Min(limit, |s.audit| - n), limit, count - 1);
    }
  }

  // ----- the exporter ------------------------------------------------------------------------------------

  /** The external index: create-if-absent, with timeouts that may hide a success. */
  class RemoteIndex {
    var documents: map<AuditId, Event>

    constructor ()
      ensures documents == map[]
    {
      documents := map[];
    }

    method Create(e: Event) returns (luck: Luck)
      modifies this
      ensures documents == if luck.RaisesBefore? then old(documents) else PutDocument(old(documents), e)
    {
      luck := ChooseLuck(false);
      if luck != RaisesBefore { documents := PutDocument(documents, e); }
    }
  }

  /** How a pass ends. */
  datatype ExportEnd = Complete(delivered: nat) | Blocked(delivered: nat) | Raised

  /** Exactly the marks of the oldest `n` unmarked events were added. */
  predicate Marked(n: nat, before: Export, after: Export) {
    var todo := Unexported(before.audit, before.exported);
    n <= |todo| && after.exported == before.exported + Ids(todo[..n])
  }

  lemma NextMarked(s: Export, n: nat)
    requires n < |Unexported(s.audit, s.exported)|
    ensures var todo := Unexported(s.audit, s.exported);
            Ids(todo[..n + 1]) == Ids(todo[..n]) + {IdOf(todo[n])}
  {
    var todo := Unexported(s.audit, s.exported);
    assert todo[..n + 1] == todo[..n] + [todo[n]];
  }

  class AuditExporter {
    const store: SQLiteResponseStore
    const index: RemoteIndex

    constructor (store: SQLiteResponseStore, index: RemoteIndex)
      ensures this.store == store && this.index == index
    {
      this.store, this.index := store, index;
    }

    ghost function Abs(): Export
      reads store, index
    {
      Export(store.audit, store.exported, index.documents, None, false)
    }

    /** One event of a batch: create its document, then mark it. */
    method DeliverNext(e: Event, ghost batch: seq<Event>) returns (luck: Luck, io: Io)
      requires batch != [] && batch[0] == e
      modifies store`exported, index
      ensures var s := old(Abs()).(batch := Some(batch));
              if luck != Works then Do(s, Create(luck)) == Abs()
              else if io != Commits then Do(Do(s, Create(luck)), Mark(io)) == Abs()
              else && Do(Do(s, Create(luck)), Mark(io)) == Abs().(batch := Some(batch[1..]))
                   && Abs() == Deliver(old(Abs()), e)
      ensures luck != Works ==> store.exported == old(store.exported)
    {
      io := Commits;
      luck := index.Create(e);
      if luck == Works { io := store.MarkExported(IdOf(e)); }
    }

    /** One pass. Whatever fails, it was a run of the machine. A pass that delivers completely moves the
        oldest unmarked events, up to the limit; a refused document ends it early with a report, and a
        mark that raises ends it with no report. */
    method ExportBatch(limit: nat) returns (end: ExportEnd, ghost steps: Trace<ExportStep>)
      modifies store`exported, index
      ensures Abs() == Run(old(Abs()), steps)
      ensures end.Complete? ==> && Abs() == Pass(old(Abs()), limit)
                                && end.delivered == Min(limit, |Unexported(store.audit, old(store.exported))|)
      ensures end.Blocked? ==> && end.delivered < Min(limit, |Unexported(store.audit, old(store.exported))|)
                               && Marked(end.delivered, old(Abs()), Abs())
      ensures old(ExportInv(Abs())) ==> ExportInv(Abs())
    {
      hide Unexported, PutDocument, InStep;
      ghost var s := Abs();
      var batch := store.UnexportedEvents(limit);
      steps := Then(Trace.Start, Begin(limit));
      assert Run(s, steps) == Do(Run(s, Trace.Start), Begin(limit));
      var delivered := 0;
      while delivered < |batch|
        invariant 0 <= delivered <= |batch|
        invariant Run(s, steps) == Abs().(batch := Some(batch[delivered..]))
        invariant DeliverAll(s, batch) == DeliverAll(Abs(), batch[delivered..])
        invariant Marked(delivered, s, Abs())
        invariant store.audit == s.audit
      {
        var luck, io := DeliverNext(batch[delivered], batch[delivered..]);
        steps := Then(steps, Create(luck));
        if luck != Works {
          RunKeepsInv(s, steps);
          return Blocked(delivered), steps;
        }
        steps := Then(steps, Mark(io));
        if io != Commits {
          RunKeepsInv(s, steps);
          return ExportEnd.Raised, steps;
        }
        assert batch[delivered..][1..] == batch[delivered + 1..];
        NextMarked(s, delivered);
        delivered := delivered + 1;
      }
      steps := Then(steps, ExportStep.Stop);
      RunKeepsInv(s, steps);
      end := Complete(delivered);
    }
  }

  lemma {:induction false} RunKeepsInv(s: Export, steps: Trace<ExportStep>)
    ensures ExportInv(s) ==> ExportInv(Run(s, steps))
  {
    if ExportInv(s) && steps.Then? {
      RunKeepsInv(s, steps.before);
      var n: nat :| InStep(Run(s, steps.before), n);
      var n' := StepKeepsInStep(Run(s, steps.before), n, steps.step);
    }
  }
}
