/** The journal of any run of the lifecycle, delivered while it grows. */
module ExportedRuns {
  import opened Wrappers
  import opened Policy
  import opened Audit
  import opened Store
  import Lifecycle
  import AuditExport

  /** The journal after a step: untouched, or longer by an event with an identity of its own. */
  predicate Grows(before: seq<Event>, after: seq<Event>) {
    || after == before
    || (|after| == |before| + 1 && after[..|before|] == before && IdOf(after[|before|]) !in AuditExport.Ids(before))
  }

  lemma SaveGrows(s: Lifecycle.Sys, r: Record, event: Option<Event>, io: Io, flight: Lifecycle.Flight,
                  calls: map<Rid, seq<Lifecycle.CallEvent>>)
    requires s.ram.Live?
    ensures Grows(s.tables.audit, Lifecycle.Save(s, r, event, io, flight, calls).tables.audit)
  {
    if event.Some? && CheckpointAccepts(s.tables, Snapshot(r), event) {
      var a' := s.tables.audit + [event.value];
      assert a'[..|s.tables.audit|] == s.tables.audit;
    }
  }

  /** Whatever the engine does, the exporter only ever sees the journal grow by fresh events. */
  lemma StepFeedsExport(cfg: Config, s: Lifecycle.Sys, step: Lifecycle.Step, x: AuditExport.Export)
    requires x.audit == s.tables.audit
    ensures var after := Lifecycle.Do(cfg, s, step).tables.audit;
            || after == x.audit
            || (after != [] && AuditExport.Do(x, AuditExport.Journal(after[|after| - 1])) == x.(audit := after))
  {
    StepGrows(cfg, s, step);
    var after := Lifecycle.Do(cfg, s, step).tables.audit;
    if after != x.audit { assert after == x.audit + [after[|after| - 1]]; }
  }

  /** Every checkpoint of a state. */
  ghost predicate SavesGrow(s: Lifecycle.Sys)
    requires s.ram.Live?
  {
    forall r, event, io, flight, calls {:trigger Lifecycle.Save(s, r, event, io, flight, calls)} ::
      Grows(s.tables.audit, Lifecycle.Save(s, r, event, io, flight, calls).tables.audit)
  }

  lemma AllSavesGrow(s: Lifecycle.Sys)
    requires s.ram.Live?
    ensures SavesGrow(s)
  {
    forall r, event, io, flight, calls {:trigger Lifecycle.Save(s, r, event, io, flight, calls)}
      ensures Grows(s.tables.audit, Lifecycle.Save(s, r, event, io, flight, calls).tables.audit)
    {
      SaveGrows(s, r, event, io, flight, calls);
    }
  }

  lemma FinishGrows(s: Lifecycle.Sys, io: Io)
    requires s.ram.Live? && s.flight.Calling?
    ensures Grows(s.tables.audit, Lifecycle.DoFinish(s, io).tables.audit)
  {
    if s.flight.rid in s.ram.records && s.flight.saga.Returned? {
      var f := s.flight;
      AllSavesGrow(s.(calls := Lifecycle.Log(s.calls, f.rid, Lifecycle.Ended(f.op, f.saga.outcome, f.at))));
    }
  }

  lemma SubmitGrows(cfg: Config, s: Lifecycle.Sys, c: Command, now: int, io: Io)
    requires s.ram.Live?
    ensures Grows(s.tables.audit, Lifecycle.DoSubmit(cfg, s, c, now, io).tables.audit)
  {
    var dedup := Lifecycle.Prune(s.ram.dedup, now)[c.body.key := now + cfg.catalog.dedupSeconds * SECOND];
    AllSavesGrow(s.(ram := Lifecycle.Live(s.ram.records, dedup)));
  }

  lemma StepGrows(cfg: Config, s: Lifecycle.Sys, step: Lifecycle.Step)
    ensures Grows(s.tables.audit, Lifecycle.Do(cfg, s, step).tables.audit)
  {
    if s.ram.Live? {
      AllSavesGrow(s);
      if step.Finish? && s.flight.Calling? { FinishGrows(s, step.io); }
      if step.Submit? && s.flight.Idle? { SubmitGrows(cfg, s, step.command, step.now, step.io); }
    }
  }
}
