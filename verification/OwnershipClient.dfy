/** The ownership-tracked client as the source writes it: a ledger, a raw set and two calls. */
module OwnershipClient {
  import opened Wrappers
  import opened Policy
  import opened Ownership

  /** A recorded run of one client call: where it began, its luck, and where it stands. */
  datatype Trail = Trail(was: Cell, key: Key, start: Pc, lucks: Trace<Luck>, cell: Cell, pc: Pc) {
    predicate Of(c: Cell, k: Key, pc0: Pc) { was == c && key == k && start == pc0 }
    predicate SameCall(t: Trail) { Of(t.was, t.key, t.start) }
  }

  predicate Sound(t: Trail) {
    ClientRun(t.was, t.key, t.start, t.lucks) == (t.cell, t.pc)
  }

  function Begin(c: Cell, k: Key, pc: Pc): (t: Trail)
    ensures Sound(t)
  {
    Trail(c, k, pc, Trace.Start, c, pc)
  }

  function Next(t: Trail, luck: Luck): (t': Trail)
    requires Sound(t)
    ensures Sound(t') && t'.SameCall(t)
    ensures (t'.cell, t'.pc) == ClientStep(t.cell, t.key, t.pc, luck)
  {
    var (c', pc') := ClientStep(t.cell, t.key, t.pc, luck);
    t.(lucks := Then(t.lucks, luck), cell := c', pc := pc')
  }

  /** A call that returned is the whole call, uninterrupted. */
  lemma ReturnedIsComplete(t: Trail)
    requires Sound(t) && Finished(t.pc) && t.pc != Failed
    ensures (t.cell, t.pc) == Complete(t.was, t.key, t.start)
  {
    FinishedRunIsComplete(t.was, t.key, t.start, t.lucks);
  }

  /** An operation may raise before or after its effect, unless what it works on is steady. */
  method ChooseLuck(steady: bool) returns (luck: Luck)
    ensures steady ==> luck.Works?
  {
    if steady { return Works; }
    if {
      case true => luck := Works;
      case true => luck := RaisesBefore;
      case true => luck := RaisesAfter;
    }
  }

  /** The three operations of a firewall backend; each may raise without or with its effect. */
  class RawSet {
    /** The firewall always answers. */
    const steady: bool
    var present: set<Addr>
    ghost var outside: set<Addr>

    constructor (initial: set<Addr>, steady: bool)
      ensures present == initial && outside == initial && this.steady == steady
    {
      this.steady, present, outside := steady, initial, initial;
    }

    method Contains(a: Addr) returns (found: bool, luck: Luck)
      ensures luck.Works? ==> found == (a in present)
      ensures steady ==> luck.Works?
    {
      luck := ChooseLuck(steady);
      found := a in present;
    }

    method Add(a: Addr) returns (luck: Luck)
      modifies this`present
      ensures present == if luck.RaisesBefore? then old(present) else old(present) + {a}
      ensures steady ==> luck.Works?
    {
      luck := ChooseLuck(steady);
      if luck != RaisesBefore { present := present + {a}; }
    }

    method Remove(a: Addr) returns (luck: Luck)
      modifies this`present
      ensures present == if luck.RaisesBefore? then old(present) else old(present) - {a}
      ensures steady ==> luck.Works?
    {
      luck := ChooseLuck(steady);
      if luck != RaisesBefore { present := present - {a}; }
    }
  }

  /** The two durable tables of one peer; each method is one transaction. */
  class OwnershipLedger {
    /** The database always commits. */
    const steady: bool
    var owners: map<Addr, map<Key, ClaimMode>>
    var foreign: set<Addr>

    constructor (steady: bool)
      ensures owners == map[] && foreign == {} && this.steady == steady
    {
      this.steady, owners, foreign := steady, map[], {};
    }

    method Claim(a: Addr, k: Key, mode: ClaimMode, mark: bool) returns (luck: Luck)
      modifies this
      ensures luck.RaisesBefore? ==> owners == old(owners) && foreign == old(foreign)
      ensures !luck.RaisesBefore? ==>
                && owners == old(owners)[a := OwnersOf(old(owners), a)[k := mode]]
                && foreign == if mark then old(foreign) + {a} else old(foreign)
      ensures steady ==> luck.Works?
    {
      luck := ChooseLuck(steady);
      if luck != RaisesBefore {
        owners := owners[a := OwnersOf(owners, a)[k := mode]];
        if mark { foreign := foreign + {a}; }
      }
    }

    method Release(a: Addr, k: Key) returns (luck: Luck)
      modifies this
      ensures luck.RaisesBefore? ==> owners == old(owners) && foreign == old(foreign)
      ensures !luck.RaisesBefore? ==>
                && owners == old(WithOwners(owners, a, OwnersOf(owners, a) - {k}))
                && foreign == if old(OwnersOf(owners, a)) - {k} == map[] then old(foreign) - {a}
                              else old(foreign)
      ensures steady ==> luck.Works?
    {
      luck := ChooseLuck(steady);
      if luck != RaisesBefore {
        var rows := OwnersOf(owners, a) - {k};
        owners := WithOwners(owners, a, rows);
        if rows == map[] { foreign := foreign - {a}; }
      }
    }
  }

  /** A released row, seen as a change of one cell. */
  lemma ReleaseIsLocal(was: Peer, a: Addr, c: Cell, k: Key)
    ensures var p := Put(was, a, c);
            var rows := OwnersOf(p.owners, a) - {k};
            p.(owners := WithOwners(p.owners, a, rows),
               foreign := if rows == map[] then p.foreign - {a} else p.foreign)
            == Put(was, a, ReleaseOwner(c, k))
  {
    hide Get;
    PutGet(was, a, c);
    assert OwnersOf(Put(was, a, c).owners, a) == c.owners;
  }

  class OwnedBlocklistClient {
    const raw: RawSet
    const ledger: OwnershipLedger

    constructor (raw: RawSet, ledger: OwnershipLedger)
      ensures this.raw == raw && this.ledger == ledger
    {
      this.raw, this.ledger := raw, ledger;
    }

    /** Nothing this client does ever raises. */
    predicate Steady() {
      raw.steady && ledger.steady
    }

    ghost function State(): Peer
      reads raw, ledger
    {
      Peer(raw.present, ledger.owners, ledger.foreign, raw.outside)
    }

    /** The state during a call that has only touched the cell of one address. */
    ghost predicate At(was: Peer, a: Addr, c: Cell)
      reads raw, ledger
    {
      State() == Put(was, a, c)
    }

    /** One raw or ledger operation of a call, seen as a change of the one cell it touches. */
    method RawContains(a: Addr, ghost was: Peer, ghost c: Cell) returns (found: bool, luck: Luck)
      requires At(was, a, c)
      ensures luck.Works? ==> found == c.present
      ensures Steady() ==> luck.Works?
    {
      found, luck := raw.Contains(a);
    }

    method RawAdd(a: Addr, ghost was: Peer, ghost c: Cell) returns (luck: Luck)
      requires At(was, a, c)
      modifies raw`present
      ensures At(was, a, if luck.RaisesBefore? then c else c.(present := true))
    {
      luck := raw.Add(a);
    }

    method RawRemove(a: Addr, ghost was: Peer, ghost c: Cell) returns (luck: Luck)
      requires At(was, a, c)
      modifies raw`present
      ensures At(was, a, if luck.RaisesBefore? then c else c.(present := false))
      ensures Steady() ==> luck.Works?
    {
      luck := raw.Remove(a);
    }

    method LedgerClaim(a: Addr, k: Key, mode: ClaimMode, mark: bool, ghost was: Peer, ghost c: Cell)
      returns (luck: Luck)
      requires At(was, a, c)
      modifies ledger
      ensures At(was, a, if luck.RaisesBefore? then c else Claim(c, k, mode, mark))
    {
      PutGet(was, a, c);
      luck := ledger.Claim(a, k, mode, mark);
      assert k in c.owners[k := mode];
    }

    method LedgerRelease(a: Addr, k: Key, ghost was: Peer, ghost c: Cell) returns (luck: Luck)
      requires At(was, a, c)
      modifies ledger
      ensures At(was, a, if luck.RaisesBefore? then c else ReleaseOwner(c, k))
      ensures Steady() ==> luck.Works?
    {
      hide Put, WithOwners, OwnersOf;
      ReleaseIsLocal(was, a, c, k);
      luck := ledger.Release(a, k);
    }

    /** Claim ownership of an address and make sure the firewall has it. Whatever fails, what
        happened is a run of the client machine. */
    method Add(a: Addr, k: Key) returns (r: Result<Tag>, ghost t: Trail)
      requires Tidy(ledger.owners)
      modifies raw`present, ledger
      ensures Sound(t) && t.Of(old(Get(State(), a)), k, AddRead)
      ensures At(old(State()), a, t.cell) && t.pc == (if r.Ok? then AddDone(r.value) else Failed)
    {
      ghost var was := State();
      PutSame(was, a);
      var owners := OwnersOf(ledger.owners, a);
      var foreign := a in ledger.foreign;
      t := Next(Begin(Get(was, a), k, AddRead), Works);
      if k in owners {
        r, t := AddAsOwner(a, k, was, t);
      } else if owners == map[] && !foreign {
        r, t := AddFirst(a, k, was, t);
      } else {
        r, t := AddShared(a, k, was, t);
      }
    }

    method AddAsOwner(a: Addr, k: Key, ghost was: Peer, ghost t0: Trail)
      returns (r: Result<Tag>, ghost t: Trail)
      requires Sound(t0) && At(was, a, t0.cell) && t0.key == k && t0.pc == OwnedCheck
      modifies raw`present, ledger
      ensures Sound(t) && t.SameCall(t0)
      ensures At(was, a, t.cell) && t.pc == (if r.Ok? then AddDone(r.value) else Failed)
    {
      var found, luck := RawContains(a, was, t0.cell);
      t := Next(t0, luck);
      if luck != Works { return Raised, t; }
      if !found {
        luck := RawAdd(a, was, t.cell);
        t := Next(t, luck);
        if luck != Works { return Raised, t; }
      }
      luck := LedgerClaim(a, k, Owned, false, was, t.cell);
      t := Next(t, luck);
      r := if luck == Works then Ok(TagOwned) else Raised;
    }

    method AddFirst(a: Addr, k: Key, ghost was: Peer, ghost t0: Trail)
      returns (r: Result<Tag>, ghost t: Trail)
      requires Sound(t0) && At(was, a, t0.cell) && t0.key == k && t0.pc == FirstCheck
      modifies raw`present, ledger
      ensures Sound(t) && t.SameCall(t0)
      ensures At(was, a, t.cell) && t.pc == (if r.Ok? then AddDone(r.value) else Failed)
    {
      hide OwnedBlocklistClient.At, WithOwners, Put;
      var found, luck := RawContains(a, was, t0.cell);
      t := Next(t0, luck);
      if luck != Works { return Raised, t; }
      if found {
        luck := LedgerClaim(a, k, Owned, true, was, t.cell);
        t := Next(t, luck);
        return if luck == Works then Ok(TagPreexisting) else Raised, t;
      }
      luck := LedgerClaim(a, k, ClaimMode.Adding, false, was, t.cell);  // from here on the tables explain the entry
      t := Next(t, luck);
      if luck != Works { return Raised, t; }
      luck := RawAdd(a, was, t.cell);
      t := Next(t, luck);
      if luck != Works { return Raised, t; }
      luck := LedgerClaim(a, k, Owned, false, was, t.cell);
      t := Next(t, luck);
      r := if luck == Works then Ok(TagAdded) else Raised;
    }

    method AddShared(a: Addr, k: Key, ghost was: Peer, ghost t0: Trail)
      returns (r: Result<Tag>, ghost t: Trail)
      requires Sound(t0) && At(was, a, t0.cell) && t0.key == k && t0.pc == SharedClaim
      modifies raw`present, ledger
      ensures Sound(t) && t.SameCall(t0)
      ensures At(was, a, t.cell) && t.pc == (if r.Ok? then AddDone(r.value) else Failed)
    {
      var luck := LedgerClaim(a, k, Owned, false, was, t0.cell);
      t := Next(t0, luck);
      if luck != Works { return Raised, t; }
      var found;
      found, luck := RawContains(a, was, t.cell);
      t := Next(t, luck);
      if luck != Works { return Raised, t; }
      if !found {
        luck := RawAdd(a, was, t.cell);
        t := Next(t, luck);
      }
      r := if luck == Works then Ok(TagShared) else Raised;
    }

    /** This key leaves the owners of the address, and nobody else does. The address itself goes when no
        owner is left and the mark says that nobody had placed it before. */
    method Remove(a: Addr, k: Key) returns (r: Result<Tag>, ghost t: Trail)
      requires Tidy(ledger.owners)
      modifies raw`present, ledger
      ensures Sound(t) && t.Of(old(Get(State(), a)), k, RemoveRead)
      ensures At(old(State()), a, t.cell) && t.pc == (if r.Ok? then RemoveDone(r.value) else Failed)
      ensures Steady() ==> r.Ok?
    {
      ghost var was := State();
      PutSame(was, a);
      var owners := OwnersOf(ledger.owners, a);
      t := Next(Begin(Get(was, a), k, RemoveRead), Works);
      if k !in owners { return Ok(TagAbsent), t; }
      var others := owners.Keys - {k};
      if others != {} || a in ledger.foreign {
        r, t := LeaveShared(a, k, if others != {} then TagShared else TagPreexisting, was, t);
      } else {
        r, t := LeaveLast(a, k, was, t);
      }
    }

    method LeaveShared(a: Addr, k: Key, tag: Tag, ghost was: Peer, ghost t0: Trail)
      returns (r: Result<Tag>, ghost t: Trail)
      requires Sound(t0) && At(was, a, t0.cell) && t0.key == k && t0.pc == Release(tag)
      modifies ledger
      ensures Sound(t) && t.SameCall(t0)
      ensures At(was, a, t.cell) && t.pc == (if r.Ok? then RemoveDone(r.value) else Failed)
      ensures Steady() ==> r.Ok?
    {
      var luck := LedgerRelease(a, k, was, t0.cell);
      t := Next(t0, luck);
      r := if luck == Works then Ok(tag) else Raised;
    }

    /** The address goes before its row: whenever the call stops, an address without a row is not present. */
    method LeaveLast(a: Addr, k: Key, ghost was: Peer, ghost t0: Trail)
      returns (r: Result<Tag>, ghost t: Trail)
      requires Sound(t0) && At(was, a, t0.cell) && t0.key == k && t0.pc == Pc.RawRemove
      modifies raw`present, ledger
      ensures Sound(t) && t.SameCall(t0)
      ensures At(was, a, t.cell) && t.pc == (if r.Ok? then RemoveDone(r.value) else Failed)
      ensures Steady() ==> r.Ok?
    {
      var luck := RawRemove(a, was, t0.cell);
      t := Next(t0, luck);
      if luck != Works { return Raised, t; }
      luck := LedgerRelease(a, k, was, t.cell);
      t := Next(t, luck);
      r := if luck == Works then Ok(TagRemoved) else Raised;
    }

    /** A value that is returned is the membership in the raw set. */
    method ReportsMembership(a: Addr) returns (r: Result<bool>)
      ensures r.Ok? ==> r.value == (a in raw.present)
      ensures Steady() ==> r.Ok?
    {
      var found, luck := raw.Contains(a);
      r := if luck == Works then Ok(found) else Raised;
    }
  }
}
