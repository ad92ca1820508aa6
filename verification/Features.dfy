/**
 * Feature extraction from normalized events (ai/features/engine.py) and the feature contract it has
 * to meet (ai/features/contracts.py).
 *
 * An event carries the fields that extraction reads, already lower-cased where extraction lower-cases
 * them; an absent text is empty. `rest` is the canonical form of everything else in the event, so two
 * events with the same canonical form are the same event.
 */
module Features {
  import opened Wrappers
  import Policy
  import opened Sorting
  import opened Texts

  /** A byte field: the number it is read as, zero when it is absent, or no number at all. */
  datatype Bytes = Number(n: int) | NotANumber

  datatype Event = Event(
    schema: string, at: Option<int>, id: string,
    dataset: string, kind: string, action: string, categories: set<string>, outcome: string,
    source: string, host: string, destination: string, port: Option<nat>,
    toServer: Bytes, toClient: Bytes, networkBytes: Bytes,
    domain: string, dnsType: Option<string>, hasAlert: bool,
    process: string, text: string, rest: string)

  const FIVE_MINUTES := 300 * Policy.SECOND

  // ----- selection ---------------------------------------------------------------------------------------

  predicate InWindow(e: Event, start: int, end: int) {
    e.at.Some? && start <= e.at.value < end
  }

  /** Events that make any selection fail, whatever else is there. */
  predicate Malformed(e: Event, start: int, end: int) {
    e.schema != "soc-event-v1" || e.at.None? || (InWindow(e, start, end) && e.id == "")
  }

  /** Events in the order of their identities. */
  predicate IdLess(e: Event, f: Event) {
    TextLess(e.id, f.id)
  }

  /** The events of a half-open window, one for each identity, in the order of identities. Refused when
      an event is malformed or an identity resolves to two different events. */
  function Select(events: seq<Event>, start: int, end: int): Result<seq<Event>> {
    if events == [] then Ok([])
    else
      var before, e := Select(events[..|events| - 1], start, end), events[|events| - 1];
      if before.Raised? || Malformed(e, start, end) then Raised
      else if !InWindow(e, start, end) || e in before.value then before
      else if exists x :: x in before.value && x.id == e.id then Raised
      else Ok(Insert(IdLess, e, before.value))
  }

  /** A set of events a window can be selected from. */
  predicate Agreeing(events: seq<Event>, start: int, end: int) {
    && (forall e :: e in events ==> !Malformed(e, start, end))
    && (forall e, f ::
          e in events && f in events && InWindow(e, start, end) && InWindow(f, start, end) && e.id == f.id ==> e == f)
  }

  lemma IdLessIsStrict()
    ensures Strict(IdLess)
  {
    forall e, f {:trigger IdLess(e, f)} | IdLess(e, f) ensures !IdLess(f, e) { TextOrder(e.id, f.id); }
    forall e, f, g {:trigger IdLess(e, f), IdLess(f, g)} | IdLess(e, f) && IdLess(f, g) ensures IdLess(e, g) {
      TextLessTransitive(e.id, f.id, g.id);
    }
  }

  lemma InsertByIdKeeps(e: Event, sorted: seq<Event>)
    requires Ascending(IdLess, sorted) && forall x :: x in sorted ==> x.id != e.id
    ensures Ascending(IdLess, Insert(IdLess, e, sorted))
    ensures forall x :: x in Insert(IdLess, e, sorted) <==> x == e || x in sorted
  {
    IdLessIsStrict();
    forall x | x in sorted ensures IdLess(e, x) || IdLess(x, e) { TextOrder(e.id, x.id); }
    InsertAdds(IdLess, e, sorted);
    InsertKeeps(IdLess, e, sorted);
  }

  /** Selection succeeds exactly on agreeing events, and yields exactly the events of the window. */
  lemma {:induction false} SelectExactly(events: seq<Event>, start: int, end: int)
    ensures Select(events, start, end).Ok? <==> Agreeing(events, start, end)
    ensures Select(events, start, end).Ok? ==>
              var selected := Select(events, start, end).value;
              && Ascending(IdLess, selected)
              && forall e :: e in selected <==> e in events && InWindow(e, start, end)
  {
    if events != [] {
      var init, e := events[..|events| - 1], events[|events| - 1];
      assert events == init + [e];
      SelectExactly(init, start, end);
      assert forall x :: x in events <==> x in init || x == e;
      if Select(events, start, end).Ok? {
        var before := Select(init, start, end).value;
        if InWindow(e, start, end) && e !in before { InsertByIdKeeps(e, before); }
      }
    }
  }

  /** Selection depends on the set of events alone: any order, any number of exact copies, and what is
      refused in one order is refused in every order. */
  lemma SelectForgetsOrder(a: seq<Event>, b: seq<Event>, start: int, end: int)
    requires forall e :: e in a <==> e in b
    ensures Select(a, start, end) == Select(b, start, end)
  {
    SelectExactly(a, start, end);
    SelectExactly(b, start, end);
    if Agreeing(a, start, end) {
      IdLessIsStrict();
      AscendingIsUnique(IdLess, Select(a, start, end).value, Select(b, start, end).value);
    }
  }

  /** The selection loop over a dictionary of events by identity. */
  method SelectEvents(events: seq<Event>, start: int, end: int) returns (r: Result<seq<Event>>)
    ensures r == Select(events, start, end)
  {
    var selected: map<string, Event> := map[];
    var i := 0;
    while i < |events|
      invariant 0 <= i <= |events|
      invariant Agreeing(events[..i], start, end)
      invariant forall id :: id in selected ==>
                  selected[id].id == id && selected[id] in events[..i] && InWindow(selected[id], start, end)
      invariant forall e :: e in events[..i] && InWindow(e, start, end) ==> e.id in selected && selected[e.id] == e
    {
      var e := events[i];
      SelectExactly(events, start, end);
      assert e in events && forall x :: x in events[..i + 1] <==> x in events[..i] || x == e;
      if Malformed(e, start, end) { return Raised; }
      if InWindow(e, start, end) {
        if e.id in selected && selected[e.id] != e { return Raised; }
        selected := selected[e.id := e];
      }
      i := i + 1;
    }
    assert events[..i] == events;
    var sorted := SortById(selected);
    SelectExactly(events, start, end);
    IdLessIsStrict();
    AscendingIsUnique(IdLess, sorted, Select(events, start, end).value);
    r := Ok(sorted);
  }

  method SortById(selected: map<string, Event>) returns (sorted: seq<Event>)
    requires forall id :: id in selected ==> selected[id].id == id
    ensures Ascending(IdLess, sorted)
    ensures forall e :: e in sorted <==> e.id in selected && selected[e.id] == e
  {
    sorted := [];
    var todo := selected.Keys;
    while todo != {}
      invariant todo <= selected.Keys && Ascending(IdLess, sorted)
      invariant forall e :: e in sorted <==> e.id in selected && e.id !in todo && selected[e.id] == e
      decreases todo
    {
      var id :| id in todo;
      InsertByIdKeeps(selected[id], sorted);
      sorted := Insert(IdLess, selected[id], sorted);
      todo := todo - {id};
    }
  }

  // ----- features ----------------------------------------------------------------------------------------

  predicate Suricata(e: Event, kind: string) {
    e.dataset == "suricata.eve" && e.kind == kind
  }

  /** The events that network counts, peers and bytes are taken from. */
  predicate Connection(e: Event) {
    e.dataset == "firewall.syslog" || Suricata(e, "flow")
  }

  predicate DnsQuery(e: Event) {
    Suricata(e, "dns") && (e.dnsType.None? || e.dnsType.value in {"query", "request"})
  }

  predicate SuricataAlert(e: Event) {
    e.dataset == "suricata.eve" && (e.kind == "alert" || e.hasAlert)
  }

  predicate FailedAuthentication(e: Event) {
    "authentication" in e.categories && e.outcome == "failure"
  }

  predicate Blocked(e: Event) {
    e.action in {"block", "blocked", "deny", "denied", "drop", "reject"}
  }

  function NonNegative(b: Bytes): nat {
    if b.NotANumber? || b.n < 0 then 0 else b.n
  }

  /** The byte fields that the network features read of an event are numbers. */
  predicate Readable(e: Event) {
    && (Suricata(e, "flow") ==> e.toServer.Number? && e.toClient.Number?)
    && (e.dataset == "firewall.syslog" ==> e.networkBytes.Number?)
  }

  /** What an event adds to the bytes sent and received by its source. */
  function EventBytes(e: Event): (nat, nat) {
    if e.dataset == "suricata.eve" then
      if e.kind == "flow" then (NonNegative(e.toServer), NonNegative(e.toClient)) else (0, 0)
    else (NonNegative(e.networkBytes), 0)
  }

  function CountIf(events: seq<Event>, p: Event -> bool): nat {
    if events == [] then 0 else CountIf(events[..|events| - 1], p) + (if p(events[|events| - 1]) then 1 else 0)
  }

  function BytesOf(events: seq<Event>): (nat, nat) {
    if events == [] then (0, 0)
    else
      var (sent, received) := BytesOf(events[..|events| - 1]);
      var e := events[|events| - 1];
      if Connection(e) then (sent + EventBytes(e).0, received + EventBytes(e).1) else (sent, received)
  }

  function BlockedRatio(events: seq<Event>): real {
    var connections := CountIf(events, Connection);
    if connections == 0 then 0.0
    else CountIf(events, e => Connection(e) && Blocked(e)) as real / connections as real
  }

  function NetworkFeatures(events: seq<Event>): map<string, real> {
    var destinations := set e | e in events && Connection(e) && e.destination != "" :: e.destination;
    var ports := set e | e in events && Connection(e) && e.port.Some? :: e.port.value;
    var domains := set e | e in events && DnsQuery(e) && e.domain != "" :: e.domain;
    map["connection_count" := CountIf(events, Connection) as real,
        "unique_dst_ip" := |destinations| as real,
        "unique_dst_port" := |ports| as real,
        "bytes_out" := BytesOf(events).0 as real,
        "bytes_in" := BytesOf(events).1 as real,
        "blocked_ratio" := BlockedRatio(events),
        "dns_query_count" := CountIf(events, DnsQuery) as real,
        "unique_domain_count" := |domains| as real,
        "tls_count" := CountIf(events, e => Suricata(e, "tls")) as real,
        "suricata_alert_count" := CountIf(events, SuricataAlert) as real,
        "failed_auth_count" := CountIf(events, FailedAuthentication) as real]
  }

  predicate Process(e: Event) {
    "process" in e.categories
  }

  predicate Mentions(e: Event, tokens: set<string>) {
    exists token :: token in tokens && Contains(e.text, token)
  }

  /** A process that is rare by definition or, with a baseline, unknown to it. */
  predicate RareProcess(e: Event, rare: set<string>, baseline: Option<set<string>>) {
    Process(e) && e.process != "" && (e.process in rare || (baseline.Some? && e.process !in baseline.value))
  }

  function EndpointFeatures(events: seq<Event>, rare: set<string>, baseline: Option<set<string>>): map<string, real> {
    map["process_count" := CountIf(events, Process) as real,
        "rare_process_count" := CountIf(events, e => RareProcess(e, rare, baseline)) as real,
        "powershell_count" := CountIf(events, e => Process(e) && Mentions(e, {"powershell", "pwsh"})) as real,
        "failed_login_count" := CountIf(events, FailedAuthentication) as real,
        "fim_change_count" := CountIf(events, (e: Event) => "file" in e.categories) as real,
        "account_change_count" := CountIf(events, e => Mentions(e, {"account", "useradd", "usermod", "userdel"})) as real,
        "privilege_change_count" := CountIf(events, e => Mentions(e, {"privilege", "sudo", "setuid", "capability"})) as real]
  }

  // ----- the contract of a feature row -------------------------------------------------------------------

  const NETWORK_FEATURES: set<string> := {
    "connection_count", "unique_dst_ip", "unique_dst_port", "bytes_out", "bytes_in", "blocked_ratio",
    "dns_query_count", "unique_domain_count", "tls_count", "suricata_alert_count", "failed_auth_count"}

  const ENDPOINT_FEATURES: set<string> := {
    "process_count", "rare_process_count", "powershell_count", "failed_login_count", "fim_change_count",
    "account_change_count", "privilege_change_count"}

  /** require_exact_features: true where the source returns, false where it raises. */
  predicate ExactFeatures(names: set<string>, features: map<string, real>) {
    && features.Keys == names
    && forall name :: name in names ==>
         if name == "blocked_ratio" then 0.0 <= features[name] <= 1.0 else Whole(features[name])
  }

  predicate Whole(x: real) {
    x >= 0.0 && x.Floor as real == x
  }

  lemma {:induction false} FewerIf(events: seq<Event>, p: Event -> bool, q: Event -> bool)
    requires forall e :: p(e) ==> q(e)
    ensures CountIf(events, p) <= CountIf(events, q)
  {
    if events != [] { FewerIf(events[..|events| - 1], p, q); }
  }

  lemma RatioInUnit(part: nat, whole: nat)
    requires part <= whole && whole > 0
    ensures 0.0 <= part as real / whole as real <= 1.0
  {
  }

  lemma BlockedRatioInUnit(events: seq<Event>)
    ensures 0.0 <= BlockedRatio(events) <= 1.0
  {
    var blocked := (e: Event) => Connection(e) && Blocked(e);
    FewerIf(events, blocked, Connection);
    if CountIf(events, Connection) > 0 { RatioInUnit(CountIf(events, blocked), CountIf(events, Connection)); }
  }

  /** Every network row meets the contract of its schema. */
  lemma NetworkRowsAreExact(events: seq<Event>)
    ensures ExactFeatures(NETWORK_FEATURES, NetworkFeatures(events))
  {
    BlockedRatioInUnit(events);
    var row := NetworkFeatures(events);
    assert row.Keys == NETWORK_FEATURES;
    forall name | name in NETWORK_FEATURES && name != "blocked_ratio" ensures Whole(row[name]) {
      NetworkCounts(events, name);
    }
  }

  lemma NetworkCounts(events: seq<Event>, name: string)
    requires name in NETWORK_FEATURES && name != "blocked_ratio"
    ensures Whole(NetworkFeatures(events)[name])
  {
  }

  /** Every endpoint row meets the contract of its schema, and rare or suspicious processes are among
      the processes. */
  lemma EndpointRowsAreExact(events: seq<Event>, rare: set<string>, baseline: Option<set<string>>)
    ensures var row := EndpointFeatures(events, rare, baseline);
            && ExactFeatures(ENDPOINT_FEATURES, row)
            && row["rare_process_count"] <= row["process_count"]
            && row["powershell_count"] <= row["process_count"]
  {
    FewerIf(events, e => RareProcess(e, rare, baseline), Process);
    FewerIf(events, e => Process(e) && Mentions(e, {"powershell", "pwsh"}), Process);
  }

  // ----- vectors -----------------------------------------------------------------------------------------

  /** How a family of vectors is built: who an event is about, which names are acceptable and how they
      are ranked before their text, which events features can be taken from, and the features of a
      group. */
  datatype Family = Family(
    entity: Event -> string, acceptable: string -> bool, rank: string -> nat, readable: Event -> bool,
    features: seq<Event> -> map<string, real>)

  datatype Vector = Vector(
    entity: string, start: int, end: int, sourceEvents: set<string>, sourceEventCount: nat,
    features: map<string, real>)

  /** One vector for each source address. */
  function NetworkFamily(version: string -> Option<nat>): Family {
    Family((e: Event) => e.source, (s: string) => version(s).Some?,
           (s: string) => if version(s).Some? then version(s).value else 0, Readable, NetworkFeatures)
  }

  /** One vector for each host. */
  function EndpointFamily(rare: set<string>, baseline: Option<set<string>>): Family {
    Family((e: Event) => e.host, (s: string) => true, (s: string) => 0, (e: Event) => true,
           (events: seq<Event>) => EndpointFeatures(events, rare, baseline))
  }

  function GroupOf(events: seq<Event>, f: Family, entity: string): seq<Event> {
    if events == [] then []
    else
      var before, e := GroupOf(events[..|events| - 1], f, entity), events[|events| - 1];
      if f.entity(e) == entity then before + [e] else before
  }

  function Entities(events: seq<Event>, f: Family): set<string> {
    set e | e in events && f.entity(e) != "" :: f.entity(e)
  }

  predicate EntityLess(f: Family, a: string, b: string) {
    f.rank(a) < f.rank(b) || (f.rank(a) == f.rank(b) && TextLess(a, b))
  }

  function EntityOrder(f: Family): (string, string) -> bool {
    (a, b) => EntityLess(f, a, b)
  }

  function VectorOf(f: Family, events: seq<Event>, entity: string, start: int, end: int): Vector {
    var group := GroupOf(events, f, entity);
    Vector(entity, start, end, set e | e in group :: e.id, |group|, f.features(group))
  }

  /** The vectors of a window: of every entity of the selected events, in order. */
  ghost predicate BuiltFrom(f: Family, selected: seq<Event>, start: int, end: int, vectors: seq<Vector>) {
    && (forall i, j :: 0 <= i < j < |vectors| ==> EntityLess(f, vectors[i].entity, vectors[j].entity))
    && (forall name :: name in Entities(selected, f) <==> exists v :: v in vectors && v.entity == name)
    && (forall v :: v in vectors ==> v == VectorOf(f, selected, v.entity, start, end))
  }

  /** A window that can be built: no identity conflicts, every entity is acceptable, and every event
      about an entity can be read. */
  predicate Buildable(f: Family, events: seq<Event>, start: int, end: int) {
    && end - start == FIVE_MINUTES
    && Select(events, start, end).Ok?
    && forall e :: e in Select(events, start, end).value && f.entity(e) != "" ==>
         f.acceptable(f.entity(e)) && f.readable(e)
  }

  /** What building a window comes to: refused exactly when it must be, and otherwise its vectors. */
  ghost predicate Built(f: Family, events: seq<Event>, start: int, end: int, r: Result<seq<Vector>>) {
    && (r.Ok? <==> Buildable(f, events, start, end))
    && (r.Ok? ==> BuiltFrom(f, Select(events, start, end).value, start, end, r.value))
  }

  lemma EntityOrderIsStrict(f: Family)
    ensures Strict(EntityOrder(f))
  {
    var less := EntityOrder(f);
    forall a, b {:trigger less(a, b)} | less(a, b) ensures !less(b, a) { TextOrder(a, b); }
    forall a, b, c {:trigger less(a, b), less(b, c)} | less(a, b) && less(b, c) ensures less(a, c) {
      if TextLess(a, b) && TextLess(b, c) { TextLessTransitive(a, b, c); }
    }
  }

  method SortNames(f: Family, names: set<string>) returns (sorted: seq<string>)
    ensures Ascending(EntityOrder(f), sorted) && forall n :: n in sorted <==> n in names
  {
    sorted := [];
    var todo := names;
    EntityOrderIsStrict(f);
    while todo != {}
      invariant todo <= names && Ascending(EntityOrder(f), sorted)
      invariant forall n :: n in sorted <==> n in names - todo
      decreases todo
    {
      var n :| n in todo;
      forall m | m in sorted ensures EntityOrder(f)(n, m) || EntityOrder(f)(m, n) { TextOrder(n, m); }
      InsertAdds(EntityOrder(f), n, sorted);
      InsertKeeps(EntityOrder(f), n, sorted);
      sorted := Insert(EntityOrder(f), n, sorted);
      todo := todo - {n};
    }
  }

  /** The groups of the first `n` selected events. */
  ghost predicate GroupedAs(f: Family, selected: seq<Event>, n: nat, grouped: map<string, seq<Event>>)
    requires n <= |selected|
  {
    && grouped.Keys == Entities(selected[..n], f)
    && forall name :: name in grouped ==> f.acceptable(name) && grouped[name] == GroupOf(selected[..n], f, name)
  }

  /** Group the selected events by entity, then build a vector for each group. */
  method BuildVectors(f: Family, events: seq<Event>, start: int, end: int) returns (r: Result<seq<Vector>>)
    ensures Built(f, events, start, end, r)
  {
    if end - start != FIVE_MINUTES { return Raised; }
    var selection := SelectEvents(events, start, end);
    if selection.Raised? { return Raised; }
    var selected := selection.value;
    var grouped: map<string, seq<Event>> := map[];
    var i := 0;
    while i < |selected|
      invariant 0 <= i <= |selected| && GroupedAs(f, selected, i, grouped)
    {
      var name := f.entity(selected[i]);
      GroupNext(f, selected, i);
      if name != "" {
        if !f.acceptable(name) { return Raised; }
        grouped := grouped[name := (if name in grouped then grouped[name] else []) + [selected[i]]];
      }
      i := i + 1;
    }
    assert selected[..i] == selected;
    AllAcceptable(f, selected, grouped);
    var names := SortNames(f, grouped.Keys);
    r := BuildGroups(f, selected, grouped, names, start, end);
  }

  lemma AllAcceptable(f: Family, selected: seq<Event>, grouped: map<string, seq<Event>>)
    requires GroupedAs(f, selected, |selected|, grouped)
    ensures forall e :: e in selected && f.entity(e) != "" ==> f.acceptable(f.entity(e))
  {
    assert selected[..|selected|] == selected;
    forall e | e in selected && f.entity(e) != "" ensures f.acceptable(f.entity(e)) {
      assert f.entity(e) in Entities(selected, f);
    }
  }

  /** The vectors of the groups; refused exactly when an event of a group cannot be read. */
  method BuildGroups(f: Family, selected: seq<Event>, grouped: map<string, seq<Event>>, names: seq<string>,
                     start: int, end: int)
    returns (r: Result<seq<Vector>>)
    requires GroupedAs(f, selected, |selected|, grouped)
    requires Ascending(EntityOrder(f), names) && forall n :: n in names <==> n in grouped
    ensures r.Ok? <==> forall e :: e in selected && f.entity(e) != "" ==> f.readable(e)
    ensures r.Ok? ==> BuiltFrom(f, selected, start, end, r.value)
  {
    assert selected[..|selected|] == selected;
    var vectors: seq<Vector> := [];
    var n := 0;
    while n < |names|
      invariant 0 <= n <= |names| && |vectors| == n
      invariant forall m :: 0 <= m < n ==> vectors[m] == VectorOf(f, selected, names[m], start, end)
      invariant forall m :: 0 <= m < n ==> ReadableGroup(f, selected, names[m])
    {
      assert names[n] in names;
      var group := grouped[names[n]];
      GroupHas(f, selected, names[n]);
      if exists e :: e in group && !f.readable(e) { return Raised; }
      vectors := vectors + [Vector(names[n], start, end, set e | e in group :: e.id, |group|, f.features(group))];
      n := n + 1;
    }
    NamesCover(f, selected, names);
    VectorsOfNames(f, selected, names, start, end, vectors);
    r := Ok(vectors);
  }

  ghost predicate ReadableGroup(f: Family, selected: seq<Event>, name: string) {
    forall e :: e in selected && f.entity(e) == name ==> f.readable(e)
  }

  lemma {:induction false} GroupHas(f: Family, events: seq<Event>, name: string)
    ensures forall e :: e in GroupOf(events, f, name) <==> e in events && f.entity(e) == name
  {
    if events != [] {
      GroupHas(f, events[..|events| - 1], name);
      assert events == events[..|events| - 1] + [events[|events| - 1]];
    }
  }

  lemma NamesCover(f: Family, selected: seq<Event>, names: seq<string>)
    requires forall n :: n in names <==> n in Entities(selected, f)
    requires forall m :: 0 <= m < |names| ==> ReadableGroup(f, selected, names[m])
    ensures forall e :: e in selected && f.entity(e) != "" ==> f.readable(e)
  {
    forall e | e in selected && f.entity(e) != "" ensures f.readable(e) {
      assert f.entity(e) in Entities(selected, f);
      var m :| 0 <= m < |names| && names[m] == f.entity(e);
      assert ReadableGroup(f, selected, names[m]);
    }
  }

  lemma VectorsOfNames(f: Family, selected: seq<Event>, names: seq<string>, start: int, end: int,
                       vectors: seq<Vector>)
    requires Ascending(EntityOrder(f), names) && forall n :: n in names <==> n in Entities(selected, f)
    requires |vectors| == |names|
    requires forall m :: 0 <= m < |names| ==> vectors[m] == VectorOf(f, selected, names[m], start, end)
    ensures BuiltFrom(f, selected, start, end, vectors)
  {
    forall i, j | 0 <= i < j < |vectors| ensures EntityLess(f, vectors[i].entity, vectors[j].entity) {
      assert EntityOrder(f)(names[i], names[j]);
    }
    forall name ensures name in Entities(selected, f) <==> exists v :: v in vectors && v.entity == name {
      if name in names {
        var n :| 0 <= n < |names| && names[n] == name;
        assert vectors[n] in vectors;
      }
    }
  }

  /** One more selected event. */
  lemma GroupNext(f: Family, selected: seq<Event>, i: nat)
    requires i < |selected|
    ensures var name := f.entity(selected[i]);
            && Entities(selected[..i + 1], f) == Entities(selected[..i], f) + (if name != "" then {name} else {})
            && Entities(selected[..i + 1], f) <= Entities(selected, f)
    ensures forall name :: GroupOf(selected[..i + 1], f, name)
                           == GroupOf(selected[..i], f, name) + if f.entity(selected[i]) == name then [selected[i]] else []
    ensures f.entity(selected[i]) !in Entities(selected[..i], f) && f.entity(selected[i]) != "" ==>
              GroupOf(selected[..i], f, f.entity(selected[i])) == []
  {
    assert selected[..i + 1][..i] == selected[..i];
    assert selected[..i + 1] == selected[..i] + [selected[i]];
    assert forall e :: e in selected[..i + 1] <==> e in selected[..i] || e == selected[i];
    GroupIsEmpty(f, selected[..i], f.entity(selected[i]));
  }

  lemma {:induction false} GroupIsEmpty(f: Family, events: seq<Event>, name: string)
    ensures name != "" && name !in Entities(events, f) ==> GroupOf(events, f, name) == []
  {
    if events != [] {
      GroupIsEmpty(f, events[..|events| - 1], name);
      assert events[|events| - 1] in events;
    }
  }

  // ----- conservation ------------------------------------------------------------------------------------

  function TotalCount(vectors: seq<Vector>): nat {
    if vectors == [] then 0 else TotalCount(vectors[..|vectors| - 1]) + vectors[|vectors| - 1].sourceEventCount
  }

  /** Events about one of some entities. */
  function About(events: seq<Event>, f: Family, names: set<string>): nat {
    CountIf(events, e => f.entity(e) in names)
  }

  lemma {:induction false} GroupIsCount(events: seq<Event>, f: Family, name: string)
    ensures |GroupOf(events, f, name)| == About(events, f, {name})
  {
    if events != [] { GroupIsCount(events[..|events| - 1], f, name); }
  }

  lemma {:induction false} AboutSplits(events: seq<Event>, f: Family, names: set<string>, name: string)
    requires name !in names
    ensures About(events, f, names + {name}) == About(events, f, names) + About(events, f, {name})
  {
    if events != [] { AboutSplits(events[..|events| - 1], f, names, name); }
  }

  function NamesOf(vectors: seq<Vector>): set<string> {
    set v | v in vectors :: v.entity
  }

  predicate DistinctEntities(vectors: seq<Vector>) {
    forall i, j :: 0 <= i < j < |vectors| ==> vectors[i].entity != vectors[j].entity
  }

  lemma {:induction false} CountsAddUp(f: Family, selected: seq<Event>, start: int, end: int, vectors: seq<Vector>)
    requires forall v :: v in vectors ==> v == VectorOf(f, selected, v.entity, start, end)
    requires DistinctEntities(vectors)
    ensures TotalCount(vectors) == About(selected, f, NamesOf(vectors))
  {
    if vectors == [] {
      assert NamesOf(vectors) == {};
      NoneAbout(selected, f);
    } else {
      var init, v := vectors[..|vectors| - 1], vectors[|vectors| - 1];
      CountsAddUp(f, selected, start, end, init);
      OneMoreName(init, v, vectors);
      AboutSplits(selected, f, NamesOf(init), v.entity);
      GroupIsCount(selected, f, v.entity);
      assert v in vectors;
    }
  }

  lemma OneMoreName(init: seq<Vector>, v: Vector, vectors: seq<Vector>)
    requires vectors == init + [v] && DistinctEntities(vectors)
    ensures v.entity !in NamesOf(init) && NamesOf(vectors) == NamesOf(init) + {v.entity}
  {
    forall w | w in init ensures w.entity != v.entity {
      var i :| 0 <= i < |init| && init[i] == w;
      assert vectors[i] == w && vectors[|init|] == v;
    }
    assert forall w :: w in vectors <==> w in init || w == v;
  }

  lemma {:induction false} NoneAbout(events: seq<Event>, f: Family)
    ensures About(events, f, {}) == 0
  {
    if events != [] { NoneAbout(events[..|events| - 1], f); }
  }

  /** Events of a window that can be attributed to an entity. */
  function Attributable(events: seq<Event>, f: Family): nat {
    CountIf(events, e => f.entity(e) != "")
  }

  lemma {:induction false} AttributableIsAbout(events: seq<Event>, f: Family, names: set<string>)
    requires forall e :: e in events ==> (f.entity(e) in names <==> f.entity(e) != "")
    ensures About(events, f, names) == Attributable(events, f)
  {
    if events != [] {
      assert events[|events| - 1] in events;
      AttributableIsAbout(events[..|events| - 1], f, names);
    }
  }

  lemma OrderedAreDistinct(f: Family, vectors: seq<Vector>)
    requires forall i, j :: 0 <= i < j < |vectors| ==> EntityLess(f, vectors[i].entity, vectors[j].entity)
    ensures DistinctEntities(vectors)
  {
    forall i, j | 0 <= i < j < |vectors| ensures vectors[i].entity != vectors[j].entity {
      TextOrder(vectors[i].entity, vectors[i].entity);
      assert EntityLess(f, vectors[i].entity, vectors[j].entity);
    }
  }

  /** No selected event is lost and none is counted twice: the counts of a window's vectors add up to
      its attributable events. */
  lemma WindowConserves(f: Family, selected: seq<Event>, start: int, end: int, vectors: seq<Vector>)
    requires BuiltFrom(f, selected, start, end, vectors)
    ensures TotalCount(vectors) == Attributable(selected, f)
  {
    OrderedAreDistinct(f, vectors);
    CountsAddUp(f, selected, start, end, vectors);
    forall e | e in selected ensures f.entity(e) in NamesOf(vectors) <==> f.entity(e) != "" {
      if f.entity(e) != "" { assert f.entity(e) in Entities(selected, f); }
      if f.entity(e) in NamesOf(vectors) { assert f.entity(e) in Entities(selected, f); }
    }
    AttributableIsAbout(selected, f, NamesOf(vectors));
  }

  /** Attributable events of a window, as a set. */
  function AttributableSet(events: seq<Event>, f: Family, start: int, end: int): set<Event> {
    set e | e in events && InWindow(e, start, end) && f.entity(e) != ""
  }

  function WithEntity(selected: seq<Event>, f: Family): set<Event> {
    set e | e in selected && f.entity(e) != ""
  }

  lemma {:induction false} AscendingCountsOnce(selected: seq<Event>, f: Family)
    requires Ascending(IdLess, selected)
    ensures Attributable(selected, f) == |WithEntity(selected, f)|
  {
    if selected != [] {
      var init, last := selected[..|selected| - 1], selected[|selected| - 1];
      assert selected == init + [last];
      AscendingCountsOnce(init, f);
      LastIsNew(init, last);
      OneMoreEntity(init, last, f);
    }
  }

  lemma OneMoreEntity(init: seq<Event>, last: Event, f: Family)
    requires last !in init
    ensures |WithEntity(init + [last], f)| == |WithEntity(init, f)| + if f.entity(last) != "" then 1 else 0
  {
    assert WithEntity(init + [last], f)
           == if f.entity(last) != "" then WithEntity(init, f) + {last} else WithEntity(init, f);
  }

  lemma LastIsNew(init: seq<Event>, last: Event)
    requires Ascending(IdLess, init + [last])
    ensures last !in init
  {
    TextOrder(last.id, last.id);
    assert forall i :: 0 <= i < |init| ==> (init + [last])[i] == init[i];
    assert (init + [last])[|init|] == last;
  }

  lemma SelectedIsSet(events: seq<Event>, f: Family, start: int, end: int)
    requires Select(events, start, end).Ok?
    ensures Attributable(Select(events, start, end).value, f) == |AttributableSet(events, f, start, end)|
  {
    SelectExactly(events, start, end);
    var selected := Select(events, start, end).value;
    AscendingCountsOnce(selected, f);
    assert WithEntity(selected, f) == AttributableSet(events, f, start, end);
  }

  /** The counts of the windows [t0, t0 + 5 min), [t0 + 5 min, t0 + 10 min), ... */
  function TiledCount(f: Family, tiles: seq<seq<Vector>>): nat {
    if tiles == [] then 0 else TiledCount(f, tiles[..|tiles| - 1]) + TotalCount(tiles[|tiles| - 1])
  }

  function TileStart(t0: int, k: nat): int {
    t0 + k * FIVE_MINUTES
  }

  ghost predicate TileBuilt(f: Family, events: seq<Event>, start: int, end: int, vectors: seq<Vector>) {
    Select(events, start, end).Ok? && BuiltFrom(f, Select(events, start, end).value, start, end, vectors)
  }

  /** Over tiled windows every attributable event is counted exactly once, provided identities are
      unique over the whole range. */
  lemma {:induction false} TilesConserve(f: Family, events: seq<Event>, t0: int, tiles: seq<seq<Vector>>)
    requires Select(events, t0, TileStart(t0, |tiles|)).Ok?
    requires forall k :: 0 <= k < |tiles| ==> TileBuilt(f, events, TileStart(t0, k), TileStart(t0, k + 1), tiles[k])
    ensures TiledCount(f, tiles) == |AttributableSet(events, f, t0, TileStart(t0, |tiles|))|
  {
    if tiles == [] {
      assert AttributableSet(events, f, t0, t0) == {};
    } else {
      var n := |tiles| - 1;
      var init, middle, end := tiles[..n], TileStart(t0, n), TileStart(t0, n + 1);
      SubrangeAgrees(events, t0, middle, end);
      TilesConserve(f, events, t0, init);
      assert TileBuilt(f, events, middle, end, tiles[n]);
      WindowConserves(f, Select(events, middle, end).value, middle, end, tiles[n]);
      SelectedIsSet(events, f, middle, end);
      RangeSplits(events, f, t0, middle, end);
    }
  }

  lemma RangeSplits(events: seq<Event>, f: Family, start: int, middle: int, end: int)
    requires start <= middle <= end
    ensures |AttributableSet(events, f, start, end)|
            == |AttributableSet(events, f, start, middle)| + |AttributableSet(events, f, middle, end)|
  {
    assert AttributableSet(events, f, start, end)
           == AttributableSet(events, f, start, middle) + AttributableSet(events, f, middle, end);
    assert AttributableSet(events, f, start, middle) !! AttributableSet(events, f, middle, end);
  }

  lemma SubrangeAgrees(events: seq<Event>, start: int, middle: int, end: int)
    requires start <= middle <= end && Select(events, start, end).Ok?
    ensures Select(events, start, middle).Ok?
  {
    SelectExactly(events, start, end);
    SelectExactly(events, start, middle);
  }

  // ----- order independence of whole vectors ---------------------------------------------------------------

  function NamesInOrder(vectors: seq<Vector>): seq<string> {
    seq(|vectors|, i requires 0 <= i < |vectors| => vectors[i].entity)
  }

  /** A selection has one list of vectors. */
  lemma VectorsAreUnique(f: Family, selected: seq<Event>, start: int, end: int, a: seq<Vector>, b: seq<Vector>)
    requires BuiltFrom(f, selected, start, end, a) && BuiltFrom(f, selected, start, end, b)
    ensures a == b
  {
    NamesOfBuilt(f, selected, start, end, a);
    NamesOfBuilt(f, selected, start, end, b);
    EntityOrderIsStrict(f);
    AscendingIsUnique(EntityOrder(f), NamesInOrder(a), NamesInOrder(b));
    forall i | 0 <= i < |a| && i < |b| ensures a[i] == b[i] {
      assert a[i].entity == NamesInOrder(a)[i] == NamesInOrder(b)[i] == b[i].entity;
      assert a[i] in a && b[i] in b;
    }
    assert |NamesInOrder(a)| == |a| && |NamesInOrder(b)| == |b|;
  }

  lemma NamesOfBuilt(f: Family, selected: seq<Event>, start: int, end: int, vectors: seq<Vector>)
    requires BuiltFrom(f, selected, start, end, vectors)
    ensures Ascending(EntityOrder(f), NamesInOrder(vectors))
    ensures forall n :: n in NamesInOrder(vectors) <==> n in Entities(selected, f)
  {
    forall n ensures n in NamesInOrder(vectors) <==> n in Entities(selected, f) {
      if n in Entities(selected, f) {
        var v :| v in vectors && v.entity == n;
        var i :| 0 <= i < |vectors| && vectors[i] == v;
        assert NamesInOrder(vectors)[i] == n;
      }
      if n in NamesInOrder(vectors) {
        var i :| 0 <= i < |vectors| && NamesInOrder(vectors)[i] == n;
        assert vectors[i] in vectors;
      }
    }
  }

  /** Extraction is a function of the set of events: however they are ordered and repeated, a window is
      refused both times or gives the same vectors. */
  lemma SameEventsSameVectors(f: Family, a: seq<Event>, b: seq<Event>, start: int, end: int,
                              r: Result<seq<Vector>>, s: Result<seq<Vector>>)
    requires forall e :: e in a <==> e in b
    requires Built(f, a, start, end, r) && Built(f, b, start, end, s)
    ensures r == s
  {
    SelectForgetsOrder(a, b, start, end);
    if r.Ok? { VectorsAreUnique(f, Select(a, start, end).value, start, end, r.value, s.value); }
  }
}
