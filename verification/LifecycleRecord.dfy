/** One response on its own: what each kind of checkpoint does to the record and its trail. */
module LifecycleRecord {
  import opened Wrappers
  import opened Policy
  import opened Blocklist
  import opened Audit
  import opened Store
  import opened Lifecycle
  import opened LifecycleInv

  lemma EventOfSnapshot(r: Record, state: State, at: int, detail: Detail)
    ensures NextEvent(r, state, at, detail) == NextEvent(Snapshot(r), state, at, detail)
    ensures Snapshot(Snapshot(r)) == Snapshot(r)
  {
    FloorMsBasics(r.expiresAt, 0);
  }

  /** A trail with one more event, when the event is built from the record. */
  lemma TrailGrows(r: Record, h: seq<Event>, state: State, at: int, detail: Detail)
    requires h != [] && |h| == r.number && h[|h| - 1].state == r.state && LegalHistory(h)
    requires AllowedMove(Some(r.state), state)
    requires r.state.FailedState? || (r.state.Requested? && state.RolledBack?) ==> r.pending.Some?
    ensures var h' := h + [NextEvent(r, state, at, detail)];
            && LegalHistory(h')
            && (HasApplication(h') <==> HasApplication(h) || state == Applied)
            && LastApplication(h') == if detail.application.Some? then detail.application else LastApplication(h)
  {
    var e := NextEvent(r, state, at, detail);
    var h' := h + [e];
    assert h'[..|h|] == h;
    LegalAppend(h, e);
    if HasApplication(h) {
      var i :| 0 <= i < |h| && h[i].state == Applied;
      assert h'[i].state == Applied;
    }
    if state == Applied { assert h'[|h|].state == Applied; }
  }

  lemma MatchesGrow(cfg: Config, r: Record, r': Record, h: seq<Event>, state: State, at: int, detail: Detail)
    requires r'.command == r.command && r'.expiresAt == r.expiresAt
    requires forall i :: 0 <= i < |h| ==> EventMatches(h[i], r)
    ensures var h' := h + [NextEvent(r, state, at, detail)];
            forall i :: 0 <= i < |h'| ==> EventMatches(h'[i], r')
  {
  }

  /** More calls on the log: harmless while the response is not terminal. */
  lemma LogKeepsHonest(r: Record, h: seq<Event>, calls: seq<CallEvent>, c: CallEvent)
    requires Honest(r, h, calls) && !Terminal(r.state) && r.reference != ""
    requires c == Began(CallApply) ==> calls == []
    ensures Honest(r, h, calls + [c])
  {
    var calls' := calls + [c];
    forall i | 0 <= i < |h| && h[i].state == Verified
      ensures exists j :: 2 <= j < |calls'| && Witnesses(calls'[j], h[i])
    {
      var j :| 2 <= j < |calls| && Witnesses(calls[j], h[i]);
      assert Witnesses(calls'[j], h[i]);
    }
  }

  /** The trail grows by an event that is neither APPLIED nor VERIFIED. */
  lemma HonestAfter(r: Record, r': Record, h: seq<Event>, calls: seq<CallEvent>, e: Event)
    requires Honest(r, h, calls)
    requires e.state != Applied && e.state != Verified
    requires r'.reference == "" ==> r.reference == ""
    requires HasApplication(h + [e]) ==> HasApplication(h) && LastApplication(h + [e]).Some?
    requires Terminal(r'.state) ==>
               && calls != [] && var c := calls[|calls| - 1];
                  c.Ended? && c.op.CallRevert? && Proved(c.outcome)
    ensures Honest(r', h + [e], calls)
  {
    var h' := h + [e];
    forall i | 0 <= i < |h'| && h'[i].state == Verified
      ensures exists j :: 2 <= j < |calls| && Witnesses(calls[j], h'[i])
    {
      assert h'[i] == h[i];
    }
  }

  lemma AcceptedResponse(cfg: Config, c: Command, now: int)
    requires ValidCommand(cfg, c, now)
    ensures var first := FirstRecord(c, now);
            RespInv(cfg, Snapshot(Moved(first, Requested, false)), [NextEvent(first, Requested, now, NoDetail)], false, [])
  {
    var first := FirstRecord(c, now);
    var e := NextEvent(first, Requested, now, NoDetail);
    FloorMsBasics(first.expiresAt, now);
    AuthenticAtTheMillisecond(cfg, c, now);
    assert [e][..0] == [];
    assert !HasApplication([e]);
  }

  lemma FailedResponse(cfg: Config, r: Record, h: seq<Event>, intent: bool, calls: seq<CallEvent>, at: int, code: string)
    requires RespInv(cfg, r, h, intent, calls) && !Terminal(r.state)
    requires r.reference != "" ==> r.pending.Some?
    requires r.state.FailedState? ==> r.pending.Some?
    ensures var e := NextEvent(r, FailedState, at, NoDetail.(failure := Some(code)));
            RespInv(cfg, Moved(r, FailedState, false), h + [e], intent, calls)
  {
    var detail := NoDetail.(failure := Some(code));
    TrailGrows(r, h, FailedState, at, detail);
    MatchesGrow(cfg, r, Moved(r, FailedState, false), h, FailedState, at, detail);
    HonestAfter(r, Moved(r, FailedState, false), h, calls, NextEvent(r, FailedState, at, detail));
  }

  lemma AuthorizedResponse(cfg: Config, r: Record, h: seq<Event>, intent: bool, calls: seq<CallEvent>)
    requires RespInv(cfg, r, h, intent, calls)
    ensures RespInv(cfg, r.(authorized := true), h, intent, calls)
  {
  }

  /** Before the adapter is called: the reference and the intent are durable, no call is. */
  lemma ApplyingResponse(cfg: Config, r: Record, h: seq<Event>, intent: bool, calls: seq<CallEvent>, at: int)
    requires RespInv(cfg, r, h, intent, calls) && Queued(r)
    ensures !intent && calls == [] && !HasApplication(h)
    ensures var r' := Begun(r.(reference := RecoveryReference(r.command.body.action, r.command.body.key)), OpApply, at);
            && RespInv(cfg, r', h, true, calls)
            && RespInv(cfg, r', h, true, calls + [Began(CallApply)])
  {
    LegalShape(h, |h| - 1);
    assert |h| == 1;
  }

  lemma RevertingResponse(cfg: Config, r: Record, h: seq<Event>, intent: bool, calls: seq<CallEvent>, at: int)
    requires RespInv(cfg, r, h, intent, calls) && r.reference != "" && !Terminal(r.state)
    ensures RespInv(cfg, Begun(r, OpRevert, at), h, intent, calls)
    ensures RespInv(cfg, Begun(r, OpRevert, at), h, intent, calls + [Began(CallRevert)])
  {
    LogKeepsHonest(r, h, calls, Began(CallRevert));
  }

  lemma AppliedResponse(cfg: Config, r: Record, h: seq<Event>, intent: bool, calls: seq<CallEvent>, at: int, o: Outcome)
    requires RespInv(cfg, r, h, intent, calls) && r.state.Requested? && r.reference != ""
    requires ApplySucceeded(o) && calls == [Began(CallApply), Ended(CallApply, o, at)]
    ensures var r1 := r.(reference := o.reference);
            var detail := NoDetail.(application := Some(Application(FloorMs(at), o.reference)));
            RespInv(cfg, Moved(r1, Applied, true), h + [NextEvent(r1, Applied, at, detail)], intent, calls)
  {
    var r1 := r.(reference := o.reference);
    var detail := NoDetail.(application := Some(Application(FloorMs(at), o.reference)));
    TrailGrows(r1, h, Applied, at, detail);
    MatchesGrow(cfg, r1, Moved(r1, Applied, true), h, Applied, at, detail);
    LegalShape(h, |h| - 1);
    assert |h| == 1;
  }

  lemma VerifiedResponse(cfg: Config, r: Record, h: seq<Event>, intent: bool, calls: seq<CallEvent>, at: int,
                         o: Outcome, expiry: int)
    requires RespInv(cfg, r, h, intent, calls) && r.state.Applied? && r.pending.None?
    requires Proved(o) && calls != [] && calls[|calls| - 1] == Ended(CallVerify, o, at)
    requires at < expiry && FloorMs(expiry) == r.expiresAt
    ensures LastApplication(h).Some?
    ensures var detail := NoDetail.(application := Some(Application(LastApplication(h).value.appliedAt, r.reference)),
                                    verification := Some(Verification(FloorMs(at), o.evidence)));
            RespInv(cfg, Moved(r, Verified, false), h + [NextEvent(r, Verified, at, detail)], intent, calls)
  {
    assert HasApplication(h);
    var detail := NoDetail.(application := Some(Application(LastApplication(h).value.appliedAt, r.reference)),
                            verification := Some(Verification(FloorMs(at), o.evidence)));
    var e := NextEvent(r, Verified, at, detail);
    var h' := h + [e];
    TrailGrows(r, h, Verified, at, detail);
    MatchesGrow(cfg, r, Moved(r, Verified, false), h, Verified, at, detail);
    FloorMsBasics(at, expiry);
    assert |calls| >= 3;
    assert Witnesses(calls[|calls| - 1], e);
    forall i | 0 <= i < |h'| && h'[i].state == Verified
      ensures exists j :: 2 <= j < |calls| && Witnesses(calls[j], h'[i])
    {
      if i < |h| { assert h'[i] == h[i]; }
    }
  }

  lemma RevertedResponse(cfg: Config, r: Record, h: seq<Event>, intent: bool, calls: seq<CallEvent>, at: int,
                         o: Outcome, goal: Goal)
    requires RespInv(cfg, r, h, intent, calls) && !Terminal(r.state) && r.pending == Some(OpRevert)
    requires Terminal(goal.terminal) && (goal.terminal.Expired? ==> r.state.Verified?)
    requires Proved(o) && calls != [] && calls[|calls| - 1] == Ended(CallRevert, o, at)
    ensures var detail := Detail(LastApplication(h), None, Some(Reversal(FloorMs(at), goal.cause, o.evidence)), goal.failure);
            RespInv(cfg, Moved(r, goal.terminal, true), h + [NextEvent(r, goal.terminal, at, detail)], intent, calls)
  {
    var detail := Detail(LastApplication(h), None, Some(Reversal(FloorMs(at), goal.cause, o.evidence)), goal.failure);
    TrailGrows(r, h, goal.terminal, at, detail);
    MatchesGrow(cfg, r, Moved(r, goal.terminal, true), h, goal.terminal, at, detail);
    HonestAfter(r, Moved(r, goal.terminal, true), h, calls, NextEvent(r, goal.terminal, at, detail));
  }
}
