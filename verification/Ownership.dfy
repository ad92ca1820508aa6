/**
 * The ownership-tracked client of one firewall set (response/transports/ownership.py).
 *
 * One peer holds a raw set of addresses and a durable ledger with two tables: who owns an
 * address, and which owned addresses were already there before the first claim. Every call
 * touches a single address, so a call is a small machine over the `Cell` of that address.
 * Each step of the machine is one ledger transaction or one raw operation; it may succeed, or
 * raise before or after taking effect, and the process may stop between any two steps.
 */
module Ownership {
  import opened Wrappers
  import opened Policy

  datatype ClaimMode = Adding | Owned

  /** Everything one peer knows about one address. `outside` says that somebody other than the
      response plane placed the entry; no table stores it. */
  datatype Cell = Cell(present: bool, owners: map<Key, ClaimMode>, foreign: bool, outside: bool)

  const EmptyCell := Cell(false, map[], false, false)

  /** The tag in the opaque reference that add and remove return. */
  datatype Tag = TagOwned | TagPreexisting | TagAdded | TagShared | TagAbsent | TagRemoved

  /** Where a call stands. */
  datatype Pc =
    | AddRead
    | OwnedCheck | OwnedAdd | OwnedClaim
    | FirstCheck | ForeignClaim | IntentClaim | FirstAdd | FirstClaim
    | SharedClaim | SharedCheck | SharedAdd
    | AddDone(tag: Tag)
    | RemoveRead
    | Release(tag: Tag)
    | RawRemove | ForgetOwner
    | RemoveDone(tag: Tag)
    | Failed

  /** How one step ends: it works, or raises without or with its effect. */
  datatype Luck = Works | RaisesBefore | RaisesAfter

  predicate Adding?(pc: Pc) {
    pc in {AddRead, OwnedCheck, OwnedAdd, OwnedClaim, FirstCheck, ForeignClaim, IntentClaim,
           FirstAdd, FirstClaim, SharedClaim, SharedCheck, SharedAdd} || pc.AddDone? || pc.Failed?
  }

  predicate Removing?(pc: Pc) {
    pc in {RemoveRead, RawRemove, ForgetOwner} || pc.Release? || pc.RemoveDone? || pc.Failed?
  }

  predicate Finished(pc: Pc) {
    pc.AddDone? || pc.RemoveDone? || pc.Failed?
  }

  /** OwnershipLedger.claim, one transaction. */
  function Claim(c: Cell, k: Key, mode: ClaimMode, foreign: bool): Cell {
    c.(owners := c.owners[k := mode], foreign := c.foreign || foreign)
  }

  /** OwnershipLedger.release, one transaction: the last owner takes the foreign mark along. */
  function ReleaseOwner(c: Cell, k: Key): Cell {
    var rest := c.owners - {k};
    c.(owners := rest, foreign := c.foreign && rest != map[])
  }

  /** The state and the next position when the step at `pc` takes effect. */
  function Effect(c: Cell, k: Key, pc: Pc): (Cell, Pc) {
    match pc
    case AddRead =>
      (c, if k in c.owners then OwnedCheck
          else if c.owners == map[] && !c.foreign then FirstCheck
          else SharedClaim)
    case OwnedCheck => (c, if c.present then OwnedClaim else OwnedAdd)
    case OwnedAdd => (c.(present := true), OwnedClaim)
    case OwnedClaim => (Claim(c, k, Owned, false), AddDone(TagOwned))
    case FirstCheck => (c, if c.present then ForeignClaim else IntentClaim)
    case ForeignClaim => (Claim(c, k, Owned, true), AddDone(TagPreexisting))
    case IntentClaim => (Claim(c, k, Adding, false), FirstAdd)
    case FirstAdd => (c.(present := true), FirstClaim)
    case FirstClaim => (Claim(c, k, Owned, false), AddDone(TagAdded))
    case SharedClaim => (Claim(c, k, Owned, false), SharedCheck)
    case SharedCheck => (c, if c.present then AddDone(TagShared) else SharedAdd)
    case SharedAdd => (c.(present := true), AddDone(TagShared))
    case RemoveRead =>
      (c, if k !in c.owners then RemoveDone(TagAbsent)
          else if c.owners.Keys - {k} != {} then Release(TagShared)
          else if c.foreign then Release(TagPreexisting)
          else RawRemove)
    case Release(tag) => (ReleaseOwner(c, k), RemoveDone(tag))
    case RawRemove => (c.(present := false), ForgetOwner)
    case ForgetOwner => (ReleaseOwner(c, k), RemoveDone(TagRemoved))
    case AddDone(_) => (c, pc)
    case RemoveDone(_) => (c, pc)
    case Failed => (c, pc)
  }

  function ClientStep(c: Cell, k: Key, pc: Pc, luck: Luck): (Cell, Pc) {
    if Finished(pc) then (c, pc)
    else match luck
      case Works => Effect(c, k, pc)
      case RaisesBefore => (c, Failed)
      case RaisesAfter => (Effect(c, k, pc).0, Failed)
  }

  /** What the ledger promises about an address at every instant. */
  predicate CellInv(c: Cell) {
    && (c.outside ==> c.present)
    && (c.present ==> c.outside || c.owners != map[])
    && (c.foreign <==> c.outside && c.owners != map[])
  }

  /** What a call in flight relies on between two of its steps. */
  predicate PcInv(c: Cell, k: Key, pc: Pc) {
    match pc
    case AddRead => true
    case OwnedCheck => k in c.owners
    case OwnedAdd => k in c.owners
    case OwnedClaim => k in c.owners
    case FirstCheck => c.owners == map[] && !c.foreign
    case ForeignClaim => c.owners == map[] && c.present
    case IntentClaim => c.owners == map[] && !c.present
    case FirstAdd => k in c.owners
    case FirstClaim => k in c.owners
    case SharedClaim => c.owners != map[]
    case SharedCheck => k in c.owners
    case SharedAdd => k in c.owners
    case AddDone(_) => k in c.owners
    case RemoveRead => true
    case Release(_) => k in c.owners && (c.owners.Keys - {k} != {} || c.foreign)
    case RawRemove => c.owners.Keys == {k} && !c.foreign
    case ForgetOwner => c.owners.Keys == {k} && !c.foreign && !c.present
    case RemoveDone(_) => k !in c.owners
    case Failed => true
  }

  /** An address a step may not be hit by an outsider at: between the membership check of a first
      claim and the claim that depends on what it saw. */
  predicate Deciding(pc: Pc) {
    pc.ForeignClaim? || pc.IntentClaim?
  }

  /** The firewall's own timeout drops an entry that the response plane added. */
  function Timeout(c: Cell): Cell {
    if c.outside then c else c.(present := false)
  }

  /** An outsider adds or removes an address nobody owns. */
  function Outsider(c: Cell, present: bool): Cell {
    if c.owners == map[] then c.(present := present, outside := present) else c
  }

  lemma StepKeepsCell(c: Cell, k: Key, pc: Pc, luck: Luck)
    requires CellInv(c) && PcInv(c, k, pc)
    ensures var (c', pc') := ClientStep(c, k, pc, luck);
            && CellInv(c') && PcInv(c', k, pc')
            && c'.outside == c.outside
            && (forall j :: j != k ==> (j in c'.owners <==> j in c.owners))
            && (Adding?(pc) ==> Adding?(pc') && (k in c.owners ==> k in c'.owners))
            && (Removing?(pc) ==> Removing?(pc') && (k in c'.owners ==> k in c.owners))
  {
    var (e, pc') := Effect(c, k, pc);
    if pc.Release? || pc.ForgetOwner? {
      assert (c.owners - {k}).Keys == c.owners.Keys - {k};
    }
    if pc.RawRemove? || pc.ForgetOwner? || pc.OwnedAdd? || pc.FirstAdd? || pc.SharedAdd? {
      assert k in c.owners;
    }
  }

  lemma TimeoutKeepsCell(c: Cell, k: Key, pc: Pc)
    requires CellInv(c) && PcInv(c, k, pc)
    ensures CellInv(Timeout(c)) && PcInv(Timeout(c), k, pc)
    ensures Timeout(c).owners == c.owners && Timeout(c).outside == c.outside
  {
  }

  /** Exactly when a call in flight survives an outsider at an unclaimed address: anywhere but in the
      gap of a first claim, unless nothing changes. */
  lemma OutsiderKeepsCell(c: Cell, k: Key, pc: Pc, present: bool)
    requires CellInv(c) && PcInv(c, k, pc)
    ensures CellInv(Outsider(c, present)) && PcInv(Outsider(c, present), k, pc)
            <==> !Deciding(pc) || present == c.present
    ensures Outsider(c, present).owners == c.owners
  {
  }

  /** Somebody else adds or removes the address, at any time, owned or not. */
  function Intruded(c: Cell, present: bool): Cell {
    c.(present := present, outside := present)
  }

  /** An intrusion that the ledger can cope with: at an address nobody owns, outside the gap of a first
      claim; at an owned one, only the removal of what the response plane added itself. */
  predicate Harmless(c: Cell, call: Option<(Key, Pc)>, present: bool) {
    if c.owners == map[] then (call.Some? && Deciding(call.value.1) ==> present == c.present)
    else present == c.outside
  }

  /** A harmless intrusion is a step the machine of the lifecycle has too: an outsider at an unclaimed
      address, a timeout, or nothing. */
  lemma HarmlessIsModelled(c: Cell, call: Option<(Key, Pc)>, present: bool)
    requires CellInv(c) && Harmless(c, call, present)
    ensures Intruded(c, present) in {Outsider(c, present), Timeout(c), c}
  {
  }

  // ----- a call that nothing interrupts ------------------------------------------------------

  function Rank(pc: Pc): nat {
    match pc
    case AddRead => 5
    case FirstCheck => 4
    case IntentClaim => 3
    case FirstAdd => 2
    case FirstClaim => 1
    case ForeignClaim => 1
    case OwnedCheck => 3
    case OwnedAdd => 2
    case OwnedClaim => 1
    case SharedClaim => 3
    case SharedCheck => 2
    case SharedAdd => 1
    case RemoveRead => 3
    case RawRemove => 2
    case ForgetOwner => 1
    case Release(_) => 1
    case AddDone(_) => 0
    case RemoveDone(_) => 0
    case Failed => 0
  }

  /** The whole call from `pc` on when no step raises. */
  function Complete(c: Cell, k: Key, pc: Pc): (Cell, Pc)
    decreases Rank(pc)
  {
    if Finished(pc) then (c, pc)
    else
      var (c', pc') := Effect(c, k, pc);
      Complete(c', k, pc')
  }

  /** An uninterrupted add: the address ends up blocked, this key joins the owners, and the
      foreign mark says exactly that the entry was somebody else's. */
  lemma AddCompletes(c: Cell, k: Key)
    requires CellInv(c)
    ensures var (c', pc') := Complete(c, k, AddRead);
            && CellInv(c')
            && pc'.AddDone?
            && c'.present && c'.outside == c.outside
            && c'.owners.Keys == c.owners.Keys + {k}
            && c'.owners[k] == Owned
            && (pc'.tag == TagOwned <==> k in c.owners)
            && (pc'.tag == TagPreexisting <==> c.owners == map[] && c.present)
            && (pc'.tag == TagAdded <==> c.owners == map[] && !c.present)
            && (pc'.tag == TagShared <==> c.owners != map[] && k !in c.owners)
  {
    if k !in c.owners && c.owners != map[] {
      assert CellInv(Claim(c, k, Owned, false));
    }
    var step1 := Effect(c, k, AddRead);
    var step2 := Effect(step1.0, k, step1.1);
    var step3 := Effect(step2.0, k, step2.1);
    assert Complete(c, k, AddRead) == Complete(step2.0, k, step2.1);
    if !Finished(step3.1) {
      var step4 := Effect(step3.0, k, step3.1);
      assert Complete(step3.0, k, step3.1) == Complete(step4.0, k, step4.1);
    }
    assert k in Complete(c, k, AddRead).0.owners;
  }

  /** An uninterrupted remove: only this key leaves; the address stays blocked exactly when
      another owner or an outsider still wants it, or when this key never held it. */
  lemma RemoveCompletes(c: Cell, k: Key)
    requires CellInv(c)
    ensures var (c', pc') := Complete(c, k, RemoveRead);
            && CellInv(c')
            && pc'.RemoveDone?
            && c'.outside == c.outside
            && c'.owners == c.owners - {k}
            && (c'.present <==> c.present && (c.outside || c.owners.Keys != {k}))
            && (pc'.tag == TagAbsent <==> k !in c.owners)
            && (pc'.tag == TagShared <==> k in c.owners && c.owners.Keys != {k})
            && (pc'.tag == TagPreexisting <==> c.owners.Keys == {k} && c.outside)
            && (pc'.tag == TagRemoved <==> c.owners.Keys == {k} && !c.outside)
  {
    var step1 := Effect(c, k, RemoveRead);
    if k !in c.owners {
      assert c.owners - {k} == c.owners;
    } else {
      assert c.owners.Keys - {k} != {} <==> c.owners.Keys != {k};
      assert (c.owners - {k}).Keys == c.owners.Keys - {k};
      var step2 := Effect(step1.0, k, step1.1);
      assert Complete(c, k, RemoveRead) == Complete(step2.0, k, step2.1);
    }
  }

  // ----- the ledger as a reference-counted set -------------------------------------------------

  /** The specification: an address is blocked while somebody outside or some key wants it. */
  datatype RefCount = RefCount(outside: bool, keys: set<Key>) {
    predicate Blocked() { outside || keys != {} }
  }

  function Abstract(c: Cell): RefCount {
    RefCount(c.outside, c.owners.Keys)
  }

  /** The firewall shows exactly what the reference count says. */
  predicate Exact(c: Cell) {
    CellInv(c) && (c.present <==> Abstract(c).Blocked())
  }

  /** Uninterrupted calls refine the reference-counted set, and undo each other. */
  lemma CallsRefineRefCount(c: Cell, k: Key)
    requires Exact(c)
    ensures var (added, _) := Complete(c, k, AddRead);
            Exact(added) && Abstract(added) == RefCount(c.outside, c.owners.Keys + {k})
    ensures var (removed, _) := Complete(c, k, RemoveRead);
            Exact(removed) && Abstract(removed) == RefCount(c.outside, c.owners.Keys - {k})
    ensures k !in c.owners ==> Complete(Complete(c, k, AddRead).0, k, RemoveRead).0 == c
  {
    AddCompletes(c, k);
    RemoveCompletes(c, k);
    var added := Complete(c, k, AddRead).0;
    RemoveCompletes(added, k);
    assert (c.owners - {k}).Keys == c.owners.Keys - {k};
    if k !in c.owners {
      OthersKeepTheirRows(c, k, AddRead);
      assert added.owners - {k} == c.owners;
    }
  }

  lemma {:induction false} OthersKeepTheirRows(c: Cell, k: Key, pc: Pc)
    requires Adding?(pc)
    ensures Complete(c, k, pc).0.owners - {k} == c.owners - {k}
    decreases Rank(pc)
  {
    if !Finished(pc) {
      var (c', pc') := Effect(c, k, pc);
      assert c'.owners - {k} == c.owners - {k};
      OthersKeepTheirRows(c', k, pc');
    }
  }

  // ----- every run ---------------------------------------------------------------------------

  /** One peer and one address: the stored cell and the call in flight, if any. */
  datatype Site = Site(cell: Cell, call: Option<(Key, Pc)>)

  datatype SiteStep =
    | BeginAdd(key: Key)
    | BeginRemove(key: Key)
    | Go(luck: Luck)
    | Stop
    | Expire
    | Intrude(present: bool)

  /** The client lock admits one call at a time; a step that is not enabled changes nothing. */
  function SiteDo(s: Site, step: SiteStep): Site {
    match step
    case BeginAdd(k) => if s.call.None? then s.(call := Some((k, AddRead))) else s
    case BeginRemove(k) => if s.call.None? then s.(call := Some((k, RemoveRead))) else s
    case Go(luck) =>
      if s.call.None? then s
      else
        var (k, pc) := s.call.value;
        var (c', pc') := ClientStep(s.cell, k, pc, luck);
        Site(c', if Finished(pc') then None else Some((k, pc')))
    case Stop => s.(call := None)
    case Expire => s.(cell := Timeout(s.cell))
    case Intrude(present) => s.(cell := Intruded(s.cell, present))
  }

  function SiteRun(s: Site, steps: Trace<SiteStep>): Site {
    match steps
    case Start => s
    case Then(before, step) => SiteDo(SiteRun(s, before), step)
  }

  /** An address before the response plane has ever claimed it. */
  function Unclaimed(present: bool): Site {
    Site(Cell(present, map[], false, present), None)
  }

  predicate SiteInv(s: Site) {
    CellInv(s.cell) && (s.call.Some? ==> PcInv(s.cell, s.call.value.0, s.call.value.1))
  }

  /** A step that is no intrusion, or a harmless one. */
  predicate PoliteStep(s: Site, step: SiteStep) {
    step.Intrude? ==> Harmless(s.cell, s.call, step.present)
  }

  predicate Polite(s: Site, steps: Trace<SiteStep>) {
    steps.Then? ==> Polite(s, steps.before) && PoliteStep(SiteRun(s, steps.before), steps.step)
  }

  lemma SiteStepKeeps(s: Site, step: SiteStep)
    requires SiteInv(s) && PoliteStep(s, step)
    ensures SiteInv(SiteDo(s, step))
  {
    match step
    case Go(luck) =>
      if s.call.Some? { StepKeepsCell(s.cell, s.call.value.0, s.call.value.1, luck); }
    case Expire =>
      if s.call.Some? { TimeoutKeepsCell(s.cell, s.call.value.0, s.call.value.1); }
    case Intrude(present) => IntrusionExactly(s, present);
    case _ =>
  }

  /** What the ledger promises about the address, now and once the call in flight has taken its next
      step. */
  predicate Safe(s: Site) {
    CellInv(s.cell) && CellInv(SiteDo(s, Go(Works)).cell)
  }

  /** Exactly the harmless intrusions leave an address safe; they also leave the call its assumptions. */
  lemma IntrusionExactly(s: Site, present: bool)
    requires SiteInv(s)
    ensures var after := SiteDo(s, Intrude(present));
            (Safe(after) <==> Harmless(s.cell, s.call, present)) && (SiteInv(after) <==> Safe(after))
  {
    var after := SiteDo(s, Intrude(present));
    if s.call.Some? && SiteInv(after) { StepKeepsCell(after.cell, s.call.value.0, s.call.value.1, Works); }
    if s.cell.owners == map[] && s.call.Some? && Deciding(s.call.value.1) {
      assert s.call.value.0 in Effect(after.cell, s.call.value.0, s.call.value.1).0.owners;
    }
  }

  lemma InvIsSafe(s: Site)
    requires SiteInv(s)
    ensures Safe(s)
  {
    if s.call.Some? { StepKeepsCell(s.cell, s.call.value.0, s.call.value.1, Works); }
  }

  predicate SafeThroughout(s: Site, steps: Trace<SiteStep>) {
    Safe(SiteRun(s, steps)) && (steps.Then? ==> SafeThroughout(s, steps.before))
  }

  /** Whatever keys call in whatever order, whatever raises, stops or times out, and whatever outsiders
      do: the run is safe throughout exactly when every intrusion in it is harmless. */
  lemma {:induction false} SafeExactly(present: bool, steps: Trace<SiteStep>)
    ensures SafeThroughout(Unclaimed(present), steps) <==> Polite(Unclaimed(present), steps)
    ensures Polite(Unclaimed(present), steps) ==> SiteInv(SiteRun(Unclaimed(present), steps))
  {
    if steps.Start? {
      InvIsSafe(Unclaimed(present));
    } else {
      SafeExactly(present, steps.before);
      var s := SiteRun(Unclaimed(present), steps.before);
      if Polite(Unclaimed(present), steps.before) {
        if steps.step.Intrude? { IntrusionExactly(s, steps.step.present); }
        if PoliteStep(s, steps.step) {
          SiteStepKeeps(s, steps.step);
          InvIsSafe(SiteDo(s, steps.step));
        }
      }
    }
  }

  /** In such a run an outsider's entry is never lifted, nothing stays blocked that nobody wants, and
      the foreign mark is right. */
  lemma LedgerSafe(present: bool, steps: Trace<SiteStep>)
    requires Polite(Unclaimed(present), steps)
    ensures var s := SiteRun(Unclaimed(present), steps);
            && SiteInv(s)
            && (s.cell.outside ==> s.cell.present)
            && (s.cell.present ==> Abstract(s.cell).Blocked())
            && (s.cell.foreign <==> s.cell.outside && s.cell.owners != map[])
  {
    SafeExactly(present, steps);
  }

  /** A step that neither raises, stops nor times out, and takes nothing from an owner. */
  predicate Smooth(s: Site, step: SiteStep) {
    && !step.Stop? && !step.Expire? && (step.Go? ==> step.luck.Works?)
    && (step.Intrude? && !step.present ==> s.cell.owners == map[])
  }

  predicate AllSmooth(s: Site, steps: Trace<SiteStep>) {
    steps.Then? ==> AllSmooth(s, steps.before) && Smooth(SiteRun(s, steps.before), steps.step)
  }

  predicate ExactAt(s: Site) {
    SiteInv(s) && ((s.call.Some? && s.call.value.1 in {FirstAdd, ForgetOwner}) || Exact(s.cell))
  }

  /** Without failures and timeouts the firewall shows the reference count between any two calls. */
  lemma {:induction false} SmoothRunsAreExact(present: bool, steps: Trace<SiteStep>)
    requires Polite(Unclaimed(present), steps) && AllSmooth(Unclaimed(present), steps)
    ensures var s := SiteRun(Unclaimed(present), steps);
            ExactAt(s) && (s.call.None? ==> Exact(s.cell))
  {
    if steps.Then? {
      SmoothRunsAreExact(present, steps.before);
      SiteStepKeeps(SiteRun(Unclaimed(present), steps.before), steps.step);
    }
  }

  // ----- a peer with all its addresses ---------------------------------------------------------

  /** One peer: the firewall set, the two ledger tables, and who is responsible for an entry. */
  datatype Peer = Peer(
    present: set<Addr>,
    owners: map<Addr, map<Key, ClaimMode>>,
    foreign: set<Addr>,
    outside: set<Addr>)

  function OwnersOf(owners: map<Addr, map<Key, ClaimMode>>, a: Addr): map<Key, ClaimMode> {
    if a in owners then owners[a] else map[]
  }

  /** The owners table with the rows of one address replaced. */
  function WithOwners(owners: map<Addr, map<Key, ClaimMode>>, a: Addr, rows: map<Key, ClaimMode>)
    : map<Addr, map<Key, ClaimMode>>
  {
    if rows == map[] then owners - {a} else owners[a := rows]
  }

  function Toggle(s: set<Addr>, a: Addr, on: bool): set<Addr> {
    if on then s + {a} else s - {a}
  }

  function Get(p: Peer, a: Addr): Cell {
    Cell(a in p.present, OwnersOf(p.owners, a), a in p.foreign, a in p.outside)
  }

  function Put(p: Peer, a: Addr, c: Cell): Peer {
    Peer(Toggle(p.present, a, c.present), WithOwners(p.owners, a, c.owners),
         Toggle(p.foreign, a, c.foreign), Toggle(p.outside, a, c.outside))
  }

  /** Every address obeys its invariant, and the owners table has no address without rows. */
  ghost predicate PeerInv(p: Peer) {
    && (forall a {:trigger Get(p, a)} :: CellInv(Get(p, a)))
    && Tidy(p.owners)
  }

  predicate Tidy(owners: map<Addr, map<Key, ClaimMode>>) {
    forall a :: a in owners ==> owners[a] != map[]
  }

  lemma PutGet(p: Peer, a: Addr, c: Cell)
    ensures Get(Put(p, a, c), a) == c
    ensures forall b {:trigger Get(Put(p, a, c), b)} :: b != a ==> Get(Put(p, a, c), b) == Get(p, b)
    ensures Tidy(p.owners) ==> Tidy(Put(p, a, c).owners)
  {
  }

  lemma PutSame(p: Peer, a: Addr)
    requires Tidy(p.owners)
    ensures Put(p, a, Get(p, a)) == p
  {
  }

  lemma PutTwice(p: Peer, a: Addr, c: Cell, d: Cell)
    ensures Put(Put(p, a, c), a, d) == Put(p, a, d)
  {
  }

  lemma PutKeepsPeer(p: Peer, a: Addr, c: Cell)
    requires PeerInv(p) && CellInv(c)
    ensures PeerInv(Put(p, a, c))
  {
    PutGet(p, a, c);
    forall b ensures CellInv(Get(Put(p, a, c), b)) {
      if b != a { assert Get(Put(p, a, c), b) == Get(p, b); }
    }
  }

  /** A run of client steps, each with its own luck. */
  function ClientRun(c: Cell, k: Key, pc: Pc, lucks: Trace<Luck>): (Cell, Pc) {
    match lucks
    case Start => (c, pc)
    case Then(before, luck) =>
      var (c', pc') := ClientRun(c, k, pc, before);
      ClientStep(c', k, pc', luck)
  }

  /** A run that did not raise worked at every step, so it is the uninterrupted call. */
  lemma {:induction false} FinishedRunIsComplete(c: Cell, k: Key, pc: Pc, lucks: Trace<Luck>)
    ensures var (c', pc') := ClientRun(c, k, pc, lucks);
            pc' != Failed ==> Complete(c', k, pc') == Complete(c, k, pc)
  {
    if lucks.Then? { FinishedRunIsComplete(c, k, pc, lucks.before); }
  }

  lemma {:induction false} ClientRunKeepsCell(c: Cell, k: Key, pc: Pc, lucks: Trace<Luck>)
    requires CellInv(c) && PcInv(c, k, pc)
    ensures var (c', pc') := ClientRun(c, k, pc, lucks);
            CellInv(c') && PcInv(c', k, pc')
  {
    if lucks.Then? {
      ClientRunKeepsCell(c, k, pc, lucks.before);
      var (c', pc') := ClientRun(c, k, pc, lucks.before);
      StepKeepsCell(c', k, pc', lucks.step);
    }
  }

  // ----- what an intrusion that is not harmless comes to ----------------------------------------

  /** An outsider who blocks the address between the membership check and the claim of a first
      add is not seen: the release then lifts that block. */
  lemma OutsiderRaceLiftsForeignBlock(k: Key)
    ensures var checked := ClientStep(EmptyCell, k, FirstCheck, Works);
            var raced := Intruded(checked.0, true);
            var called := Some((k, checked.1));
            var added := Complete(raced, k, checked.1);
            var released := Complete(added.0, k, RemoveRead);
            && !Harmless(checked.0, called, true) && checked.1.IntentClaim? && added.1.AddDone? && released.1 == RemoveDone(TagRemoved)
            && released.0.outside && !released.0.present
  {
    var raced := Intruded(EmptyCell, true);
    var claimed := Effect(raced, k, IntentClaim).0;
    var added := Complete(raced, k, IntentClaim);
    assert added == Complete(claimed, k, FirstAdd);
    assert added.0.owners.Keys == {k};
    assert (added.0.owners - {k}) == map[];
    var removed := Effect(added.0, k, RawRemove).0;
    assert Complete(added.0, k, RemoveRead) == Complete(removed, k, ForgetOwner);
  }

  /** An outsider who blocks an address that a key already holds is not noticed either: the last release
      takes the entry away. */
  lemma OutsiderJoinIsForgotten(k: Key)
    ensures var held := Complete(EmptyCell, k, AddRead).0;
            var joined := Intruded(held, true);
            var released := Complete(joined, k, RemoveRead).0;
            !Harmless(held, None, true) && released.outside && !released.present
  {
    assert Complete(EmptyCell, k, AddRead) == Complete(EmptyCell, k, FirstCheck);
    var held := Cell(true, map[k := Owned], false, false);
    assert Complete(EmptyCell, k, FirstCheck) == Complete(Claim(EmptyCell, k, Adding, false), k, FirstAdd);
    assert Complete(EmptyCell, k, AddRead).0 == held;
    assert held.owners.Keys - {k} == {} && held.owners - {k} == map[];
    var joined := Intruded(held, true);
    assert Complete(joined, k, RemoveRead) == Complete(joined.(present := false), k, ForgetOwner);
  }

  /** An outsider who lifts a pre-existing block while a key holds it leaves an orphan: the next
      add of another key restores the entry, and the last release keeps it for nobody. */
  lemma OutsiderLiftWhileClaimedOrphans(j: Key, k: Key)
    requires j != k
    ensures var held := Complete(Cell(true, map[], false, true), j, AddRead).0;
            var lifted := Intruded(held, false);
            var again := Complete(lifted, k, AddRead).0;
            var left := Complete(Complete(again, j, RemoveRead).0, k, RemoveRead).0;
            !Harmless(held, None, false) && left.present && left.owners == map[] && !left.outside
  {
    var held := Complete(Cell(true, map[], false, true), j, AddRead).0;
    assert held == Cell(true, map[j := Owned], true, true);
    var lifted := Intruded(held, false);
    var again := Complete(lifted, k, AddRead).0;
    AddRestores(lifted, j, k);
    LeavingKeepsForeign(again, j, k);
  }

  /** A second owner finds the entry gone and restores it. */
  lemma AddRestores(c: Cell, j: Key, k: Key)
    requires j != k && c == Cell(false, map[j := Owned], true, false)
    ensures Complete(c, k, AddRead).0 == Cell(true, map[j := Owned, k := Owned], true, false)
  {
    assert Complete(c, k, AddRead) == Complete(Claim(c, k, Owned, false), k, SharedCheck);
  }

  lemma LeavingKeepsForeign(c: Cell, j: Key, k: Key)
    requires j != k && c == Cell(true, map[j := Owned, k := Owned], true, false)
    ensures Complete(Complete(c, j, RemoveRead).0, k, RemoveRead).0 == Cell(true, map[], false, false)
  {
    assert k in c.owners.Keys - {j};
    var one := Complete(c, j, RemoveRead).0;
    assert one.owners == map[k := Owned];
    assert one.owners.Keys - {k} == {};
    assert one.owners - {k} == map[];
  }
}
