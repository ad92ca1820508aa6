/**
 * The separation of a dataset into train, validation and test (ai/training/partitions.py): bounds in
 * order, every vector inside its partition and bound to its membership, and no source event or session
 * in two partitions. Digests are parameters, one for each kind of material; an identifier list is
 * digested as the set it is.
 */
module Partitions {
  datatype Vector = Vector(
    schema: string, entity: string, windowStart: int, windowEnd: int, sourceDigest: string)

  datatype Member = Member(vectorDigest: string, sources: seq<string>, sessions: seq<string>)

  datatype Part = Part(fileDigest: string, members: seq<Member>)

  datatype Bounds = Bounds(
    start: int, end: int, vectorCount: nat, benignBiased: bool, sessionsDigest: string)

  datatype Manifest = Manifest(start: int, end: int, schema: string, assignmentDigest: string, split: seq<Bounds>)

  /** Everything under validation; position 0 is train, 1 validation, 2 test. `ledgerDigest` is the digest of
      the file the ledger was read from. */
  datatype Dataset = Dataset(
    manifest: Manifest, ledgerDigest: string, ledger: seq<Part>, vectors: seq<seq<Vector>>, fileDigests: seq<string>,
    valid: Vector -> bool, vectorDigest: Vector -> string,
    sourcesDigest: set<string> -> string, sessionsDigest: set<string> -> string)

  const PARTS := 3

  predicate Complete(d: Dataset) {
    |d.manifest.split| == |d.ledger| == |d.vectors| == |d.fileDigests| == PARTS
  }

  /** The manifest names the very ledger that is used. */
  predicate Bound(d: Dataset) {
    d.ledgerDigest == d.manifest.assignmentDigest
  }

  // ----- what is accepted --------------------------------------------------------------------------------

  predicate Identifiers(ids: seq<string>) {
    && ids != [] && "" !in ids
    && forall i, j :: 0 <= i < j < |ids| ==> ids[i] != ids[j]
  }

  function AsSet(ids: seq<string>): set<string> {
    set id | id in ids
  }

  predicate RowAccepted(d: Dataset, b: Bounds, v: Vector, m: Member) {
    && d.valid(v) && v.schema == d.manifest.schema
    && b.start <= v.windowStart < v.windowEnd <= b.end
    && m.vectorDigest == d.vectorDigest(v)
    && Identifiers(m.sources) && Identifiers(m.sessions)
    && d.sourcesDigest(AsSet(m.sources)) == v.sourceDigest
  }

  predicate SameWindow(v: Vector, w: Vector) {
    v.entity == w.entity && v.windowStart == w.windowStart && v.windowEnd == w.windowEnd
  }

  datatype Field = Sources | Sessions

  function IdsOf(m: Member, f: Field): seq<string> {
    if f.Sources? then m.sources else m.sessions
  }

  /** The identifiers in some memberships. */
  function AllIds(members: seq<Member>, f: Field): set<string> {
    if members == [] then {} else AllIds(members[..|members| - 1], f) + AsSet(IdsOf(members[|members| - 1], f))
  }

  predicate BoundsAccepted(d: Dataset, p: nat)
    requires Complete(d) && p < PARTS
  {
    var b := d.manifest.split[p];
    && (if p == 0 then d.manifest.start else d.manifest.split[p - 1].end) <= b.start < b.end <= d.manifest.end
    && (p == 0 ==> b.benignBiased)
    && d.fileDigests[p] == d.ledger[p].fileDigest
    && |d.vectors[p]| == b.vectorCount && |d.vectors[p]| == |d.ledger[p].members|
  }

  predicate RowsAccepted(d: Dataset, p: nat, n: nat)
    requires Complete(d) && p < PARTS && n <= |d.vectors[p]| && n <= |d.ledger[p].members|
  {
    && (forall i :: 0 <= i < n ==> RowAccepted(d, d.manifest.split[p], d.vectors[p][i], d.ledger[p].members[i]))
    && (forall i, j :: 0 <= i < j < n ==> !SameWindow(d.vectors[p][i], d.vectors[p][j]))
  }

  /** One partition on its own. */
  predicate PartAccepted(d: Dataset, p: nat)
    requires Complete(d) && p < PARTS
  {
    && BoundsAccepted(d, p)
    && RowsAccepted(d, p, |d.vectors[p]|)
    && d.sessionsDigest(AllIds(d.ledger[p].members, Sessions)) == d.manifest.split[p].sessionsDigest
  }

  /** No identifier in this partition and in an earlier one. */
  predicate NoLeak(d: Dataset, p: nat, f: Field)
    requires Complete(d) && p < PARTS
  {
    forall q :: 0 <= q < p ==> AllIds(d.ledger[p].members, f) !! AllIds(d.ledger[q].members, f)
  }

  predicate Accepted(d: Dataset, n: nat)
    requires Complete(d) && n <= PARTS
  {
    forall p :: 0 <= p < n ==> PartAccepted(d, p) && NoLeak(d, p, Sources) && NoLeak(d, p, Sessions)
  }

  // ----- what acceptance guarantees ------------------------------------------------------------------------

  lemma {:induction false} InAllIds(members: seq<Member>, f: Field, i: nat, id: string)
    requires i < |members| && id in IdsOf(members[i], f)
    ensures id in AllIds(members, f)
  {
    if i < |members| - 1 { InAllIds(members[..|members| - 1], f, i, id); }
  }

  /** No source event and no session is in two partitions. */
  lemma NothingLeaks(d: Dataset, p: nat, i: nat, q: nat, j: nat, f: Field, id: string)
    requires Complete(d) && Accepted(d, PARTS) && p < PARTS && q < PARTS
    requires i < |d.ledger[p].members| && j < |d.ledger[q].members|
    requires id in IdsOf(d.ledger[p].members[i], f) && id in IdsOf(d.ledger[q].members[j], f)
    ensures p == q
  {
    InAllIds(d.ledger[p].members, f, i, id);
    InAllIds(d.ledger[q].members, f, j, id);
    assert NoLeak(d, p, f) && NoLeak(d, q, f);
  }

  lemma {:induction false} BoundsInOrder(d: Dataset, p: nat, q: nat)
    requires Complete(d) && Accepted(d, PARTS) && p < q < PARTS
    ensures d.manifest.split[p].end <= d.manifest.split[q].start
  {
    assert PartAccepted(d, q);
    if p < q - 1 {
      BoundsInOrder(d, p, q - 1);
      assert PartAccepted(d, q - 1);
    }
  }

  /** Every window of an earlier partition ends before any window of a later one starts. */
  lemma TimeIsSeparated(d: Dataset, p: nat, i: nat, q: nat, j: nat)
    requires Complete(d) && Accepted(d, PARTS) && p < q < PARTS
    requires i < |d.vectors[p]| && j < |d.vectors[q]|
    ensures d.vectors[p][i].windowEnd <= d.vectors[q][j].windowStart
  {
    BoundsInOrder(d, p, q);
    assert PartAccepted(d, p) && PartAccepted(d, q);
  }

  /** An entity and window occur at most once in the whole dataset, although the check only looks
      within a partition. */
  lemma WindowsAreUnique(d: Dataset, p: nat, i: nat, q: nat, j: nat)
    requires Complete(d) && Accepted(d, PARTS) && p < PARTS && q < PARTS
    requires i < |d.vectors[p]| && j < |d.vectors[q]| && SameWindow(d.vectors[p][i], d.vectors[q][j])
    ensures p == q && i == j
  {
    assert PartAccepted(d, p) && PartAccepted(d, q);
    if p < q { TimeIsSeparated(d, p, i, q, j); }
    if q < p { TimeIsSeparated(d, q, j, p, i); }
  }

  // ----- the check -----------------------------------------------------------------------------------------

  /** The partition that claimed each identifier first. */
  ghost predicate OwnersAre(owners: map<string, nat>, d: Dataset, n: nat, f: Field)
    requires Complete(d) && n <= PARTS
  {
    && (forall id :: id in owners ==> owners[id] < n && id in AllIds(d.ledger[owners[id]].members, f))
    && (forall q, id :: 0 <= q < n && id in AllIds(d.ledger[q].members, f) ==> id in owners)
  }

  /** In the middle of partition p: its first members have claimed theirs too. */
  ghost predicate ClaimedSoFar(owners: map<string, nat>, before: map<string, nat>, ids: set<string>, p: nat) {
    && (forall id :: id in owners <==> id in before || id in ids)
    && (forall id :: id in before ==> owners[id] == before[id])
    && (forall id :: id in ids ==> owners[id] == p)
  }

  /** Claim identifiers for a partition; refused exactly when another partition holds one. */
  method ClaimIds(ids: seq<string>, owners: map<string, nat>, p: nat) returns (ok: bool, owners': map<string, nat>)
    ensures ok <==> forall id :: id in ids && id in owners ==> owners[id] == p
    ensures ok ==> ClaimedSoFar(owners', owners, AsSet(ids), p)
  {
    owners' := owners;
    var i := 0;
    while i < |ids|
      invariant 0 <= i <= |ids|
      invariant forall j :: 0 <= j < i && ids[j] in owners ==> owners[ids[j]] == p
      invariant ClaimedSoFar(owners', owners, AsSet(ids[..i]), p)
    {
      assert AsSet(ids[..i + 1]) == AsSet(ids[..i]) + {ids[i]} by { assert ids[..i + 1] == ids[..i] + [ids[i]]; }
      if ids[i] in owners' {
        if owners'[ids[i]] != p { return false, owners'; }
      } else {
        owners' := owners'[ids[i] := p];
      }
      i := i + 1;
    }
    assert ids[..i] == ids;
    ok := true;
  }

  /** Claiming the identifiers of the next member: what it means for all members so far. */
  lemma ClaimNext(owners: map<string, nat>, before: map<string, nat>, members: seq<Member>, i: nat, f: Field, p: nat)
    requires i < |members| && (forall id :: id in before ==> before[id] < p)
    requires ClaimedSoFar(owners, before, AllIds(members[..i], f), p)
    requires before.Keys !! AllIds(members[..i], f)
    ensures (forall id :: id in IdsOf(members[i], f) && id in owners ==> owners[id] == p)
            <==> before.Keys !! AllIds(members[..i + 1], f)
    ensures AllIds(members[..i + 1], f) == AllIds(members[..i], f) + AsSet(IdsOf(members[i], f))
    ensures before.Keys !! AllIds(members, f) ==> before.Keys !! AllIds(members[..i + 1], f)
  {
    NextIds(members, i, f);
  }

  /** The rows of one partition. */
  method CheckRows(d: Dataset, p: nat, sources: map<string, nat>, sessions: map<string, nat>)
    returns (ok: bool, sources': map<string, nat>, sessions': map<string, nat>)
    requires Complete(d) && p < PARTS && BoundsAccepted(d, p)
    requires forall id :: id in sources ==> sources[id] < p
    requires forall id :: id in sessions ==> sessions[id] < p
    ensures ok <==>
              && PartAccepted(d, p)
              && sources.Keys !! AllIds(d.ledger[p].members, Sources)
              && sessions.Keys !! AllIds(d.ledger[p].members, Sessions)
    ensures ok ==> && ClaimedSoFar(sources', sources, AllIds(d.ledger[p].members, Sources), p)
                   && ClaimedSoFar(sessions', sessions, AllIds(d.ledger[p].members, Sessions), p)
  {
    var rows, members, b := d.vectors[p], d.ledger[p].members, d.manifest.split[p];
    var seen: set<(string, int, int)>, held: set<string> := {}, {};
    sources', sessions' := sources, sessions;
    var i := 0;
    while i < |rows|
      invariant 0 <= i <= |rows|
      invariant RowsAccepted(d, p, i)
      invariant SeenAre(seen, rows[..i]) && held == AllIds(members[..i], Sessions)
      invariant sources.Keys !! AllIds(members[..i], Sources) && sessions.Keys !! AllIds(members[..i], Sessions)
      invariant ClaimedSoFar(sources', sources, AllIds(members[..i], Sources), p)
      invariant ClaimedSoFar(sessions', sessions, AllIds(members[..i], Sessions), p)
    {
      NextRow(d, p, i, seen);
      if !RowAccepted(d, b, rows[i], members[i]) || Key(rows[i]) in seen { return false, sources', sessions'; }
      ClaimNext(sources', sources, members, i, Sources, p);
      ClaimNext(sessions', sessions, members, i, Sessions, p);
      var fits;
      fits, sources' := ClaimIds(members[i].sources, sources', p);
      if !fits { return false, sources', sessions'; }
      fits, sessions' := ClaimIds(members[i].sessions, sessions', p);
      if !fits { return false, sources', sessions'; }
      seen, held := seen + {Key(rows[i])}, held + AsSet(members[i].sessions);
      i := i + 1;
    }
    assert members[..i] == members;
    ok := d.sessionsDigest(held) == b.sessionsDigest;
  }

  ghost predicate SeenAre(seen: set<(string, int, int)>, rows: seq<Vector>) {
    forall k :: k in seen <==> exists v :: v in rows && k == Key(v)
  }

  /** The next row fits exactly when it is accepted and its window is new. */
  lemma NextRow(d: Dataset, p: nat, i: nat, seen: set<(string, int, int)>)
    requires Complete(d) && p < PARTS && i < |d.vectors[p]| && |d.vectors[p]| == |d.ledger[p].members|
    requires RowsAccepted(d, p, i) && SeenAre(seen, d.vectors[p][..i])
    ensures RowsAccepted(d, p, i + 1) <==>
              && RowAccepted(d, d.manifest.split[p], d.vectors[p][i], d.ledger[p].members[i])
              && Key(d.vectors[p][i]) !in seen
    ensures RowsAccepted(d, p, |d.vectors[p]|) ==> RowsAccepted(d, p, i + 1)
    ensures SeenAre(seen + {Key(d.vectors[p][i])}, d.vectors[p][..i + 1])
  {
    var rows := d.vectors[p];
    SeenMeansSame(seen, rows, i);
    assert rows[..i + 1] == rows[..i] + [rows[i]];
    assert RowsAccepted(d, p, i + 1) <==>
             && RowAccepted(d, d.manifest.split[p], rows[i], d.ledger[p].members[i])
             && forall j :: 0 <= j < i ==> !SameWindow(rows[j], rows[i]);
  }

  lemma SeenMeansSame(seen: set<(string, int, int)>, rows: seq<Vector>, i: nat)
    requires i < |rows| && SeenAre(seen, rows[..i])
    ensures Key(rows[i]) in seen <==> exists j :: 0 <= j < i && SameWindow(rows[j], rows[i])
  {
    assert forall j :: 0 <= j < i ==> rows[j] in rows[..i];
    if Key(rows[i]) in seen {
      var v :| v in rows[..i] && Key(rows[i]) == Key(v);
      var j :| 0 <= j < i && rows[..i][j] == v;
      assert SameWindow(rows[j], rows[i]);
    }
  }

  function Key(v: Vector): (string, int, int) {
    (v.entity, v.windowStart, v.windowEnd)
  }

  lemma NextIds(members: seq<Member>, i: nat, f: Field)
    requires i < |members|
    ensures AllIds(members[..i + 1], f) == AllIds(members[..i], f) + AsSet(IdsOf(members[i], f))
    ensures AllIds(members[..i + 1], f) <= AllIds(members, f)
  {
    assert members[..i + 1][..i] == members[..i];
    PrefixIds(members, i + 1, f);
  }

  lemma {:induction false} PrefixIds(members: seq<Member>, n: nat, f: Field)
    requires n <= |members|
    ensures AllIds(members[..n], f) <= AllIds(members, f)
    decreases |members|
  {
    if n < |members| {
      assert members[..|members| - 1][..n] == members[..n];
      PrefixIds(members[..|members| - 1], n, f);
    } else {
      assert members[..n] == members;
    }
  }

  /** The whole check: it passes exactly the datasets bound to their ledger whose partitions are each in
      order and leak nothing into each other. */
  method ValidatePartitions(d: Dataset) returns (ok: bool)
    ensures ok <==> Bound(d) && Complete(d) && Accepted(d, PARTS)
  {
    if !Bound(d) || !Complete(d) { return false; }
    var previousEnd := d.manifest.start;
    var sources: map<string, nat>, sessions: map<string, nat> := map[], map[];
    var p := 0;
    while p < PARTS
      invariant 0 <= p <= PARTS
      invariant Accepted(d, p)
      invariant previousEnd == if p == 0 then d.manifest.start else d.manifest.split[p - 1].end
      invariant OwnersAre(sources, d, p, Sources) && OwnersAre(sessions, d, p, Sessions)
    {
      var b := d.manifest.split[p];
      PartNeeded(d, p);
      if !(previousEnd <= b.start < b.end <= d.manifest.end) { return false; }
      previousEnd := b.end;
      if p == 0 && !b.benignBiased { return false; }
      if d.fileDigests[p] != d.ledger[p].fileDigest { return false; }
      if |d.vectors[p]| != b.vectorCount || |d.vectors[p]| != |d.ledger[p].members| { return false; }
      OwnersMeanNoLeak(sources, d, p, Sources);
      OwnersMeanNoLeak(sessions, d, p, Sessions);
      ghost var sourcesBefore, sessionsBefore := sources, sessions;
      ok, sources, sessions := CheckRows(d, p, sources, sessions);
      if !ok { return; }
      OwnersGrow(sources, sourcesBefore, d, p, Sources);
      OwnersGrow(sessions, sessionsBefore, d, p, Sessions);
      p := p + 1;
    }
    ok := true;
  }

  lemma PartNeeded(d: Dataset, p: nat)
    requires Complete(d) && p < PARTS
    ensures Accepted(d, PARTS) ==> PartAccepted(d, p) && NoLeak(d, p, Sources) && NoLeak(d, p, Sessions)
    ensures Accepted(d, p) && PartAccepted(d, p) && NoLeak(d, p, Sources) && NoLeak(d, p, Sessions) ==> Accepted(d, p + 1)
  {
  }

  /** After a partition its identifiers have their owner. */
  lemma OwnersGrow(owners: map<string, nat>, before: map<string, nat>, d: Dataset, p: nat, f: Field)
    requires Complete(d) && p < PARTS && OwnersAre(before, d, p, f)
    requires ClaimedSoFar(owners, before, AllIds(d.ledger[p].members, f), p)
    ensures OwnersAre(owners, d, p + 1, f)
  {
  }

  lemma OwnersMeanNoLeak(owners: map<string, nat>, d: Dataset, p: nat, f: Field)
    requires Complete(d) && p < PARTS && OwnersAre(owners, d, p, f)
    ensures owners.Keys !! AllIds(d.ledger[p].members, f) <==> NoLeak(d, p, f)
  {
    if NoLeak(d, p, f) {
      forall id | id in owners ensures id !in AllIds(d.ledger[p].members, f) {
        assert id in AllIds(d.ledger[owners[id]].members, f);
      }
    }
  }
}
