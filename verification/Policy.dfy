/**
 * Policies, target protections and signed commands (response/policy.py and the command checks of
 * response/orchestrator/engine.py). Times are integer microseconds since the epoch.
 *
 * What the model does not open is a parameter: how an address text is parsed, how a host name is
 * normalized, which networks contain an address, and whether a signature is genuine.
 */
module Policy {
  import opened Wrappers

  type Key = string
  type Addr = string
  type Network = string

  const SECOND := 1_000_000
  const MILLISECOND := 1_000
  const CLOCK_SKEW := 60 * SECOND

  /** Timestamps are written with millisecond precision, rounded down. */
  function FloorMs(t: int): int {
    t - t % MILLISECOND
  }

  /** A service in observe mode reports and never acts. */
  datatype ServiceMode = Observe | Enforce

  datatype Action = BlockIp | IsolateHost
  datatype TargetKind = IpTarget | HostTarget
  datatype Target = Target(kind: TargetKind, value: string)

  /** What parsing tells about an IP address text. */
  datatype IpInfo = IpInfo(canonical: Addr, specialUse: bool, reserved: bool, isPrivate: bool)

  datatype Text = Text(
    ip: string -> Option<IpInfo>,
    host: string -> string,
    inNetwork: (Addr, Network) -> bool)

  datatype ProtectionPolicy = ProtectionPolicy(
    allowlistedIps: set<Addr>,
    allowlistedNetworks: seq<Network>,
    protectedIps: set<Addr>,
    protectedNetworks: seq<Network>,
    protectedHosts: set<string>,
    isolationHosts: set<string>,
    blockPrivate: bool)

  /** ProtectionPolicy.assert_target_allowed: true where the source returns, false where it raises. */
  predicate TargetAllowed(text: Text, p: ProtectionPolicy, action: Action, target: Target) {
    match action
    case BlockIp =>
      && target.kind.IpTarget?
      && text.ip(target.value).Some?
      && var info := text.ip(target.value).value;
         && !info.specialUse && !info.reserved
         && !(p.blockPrivate && info.isPrivate)
         && info.canonical !in p.allowlistedIps && info.canonical !in p.protectedIps
         && (forall n :: n in p.allowlistedNetworks ==> !text.inNetwork(info.canonical, n))
         && (forall n :: n in p.protectedNetworks ==> !text.inNetwork(info.canonical, n))
    case IsolateHost =>
      && target.kind.HostTarget?
      && text.host(target.value) != ""
      && text.host(target.value) !in p.protectedHosts
      && text.host(target.value) in p.isolationHosts
  }

  datatype SignalKind = Suricata | Wazuh | Authentication | ThreatIntel | ProtectedAsset | Honeypot

  /** One independently observed condition; severities and counts may be absent. A confidence is a
      number of the smallest steps that a floating-point number can take, so it is always whole. */
  datatype Signal = Signal(
    kind: SignalKind,
    reference: string,
    observedAt: int,
    target: Target,
    severity: Option<nat>,
    count: Option<nat>,
    confidence: Option<int>)

  datatype Requirement = Requirement(kind: SignalKind, minSeverity: Option<nat>, minCount: Option<nat>)

  predicate AtLeast(bound: Option<nat>, value: Option<nat>) {
    bound.Some? ==> value.Some? && value.value >= bound.value
  }

  predicate Matches(r: Requirement, s: Signal) {
    s.kind == r.kind && AtLeast(r.minSeverity, s.severity) && AtLeast(r.minCount, s.count)
  }

  datatype ResponsePolicy = ResponsePolicy(
    id: string, version: string, sha256: string,
    action: Action, ttlSeconds: nat, minScore: real, requireAny: seq<Requirement>)

  datatype Catalog = Catalog(
    protections: ProtectionPolicy,
    maxActions: nat, windowSeconds: nat,
    dedupSeconds: nat, validForSeconds: nat, evidenceMaxAgeSeconds: nat,
    policies: map<string, ResponsePolicy>)

  // ----- signed commands ---------------------------------------------------------------------------

  datatype Authorization = Authorization(issuer: string, keyId: string, issuedAt: int, expiresAt: int)

  /** The input of the signature: a command without its signature text. */
  datatype Unsigned = Unsigned(
    requestId: string, decisionId: string, correlationId: string,
    policyId: string, policyVersion: string, policySha256: string,
    target: Target, action: Action, ttlSeconds: int,
    allowlistChecked: bool, rollbackRequired: bool,
    key: Key, authorization: Authorization)

  datatype Command = Command(body: Unsigned, signature: string)

  /** The parts of a deployment that a command is checked against. */
  datatype Config = Config(
    text: Text,
    catalog: Catalog,
    genuine: (Unsigned, string) -> bool)

  /** CommandAuthenticator.verify at an instant. */
  predicate Authentic(cfg: Config, c: Command, now: int) {
    && cfg.genuine(c.body, c.signature)
    && c.body.authorization.issuedAt < c.body.authorization.expiresAt
    && now < c.body.authorization.expiresAt
  }

  /** ResponseOrchestrator._validate_command: true where the source returns, false where it raises. */
  predicate ValidCommand(cfg: Config, c: Command, now: int) {
    var b := c.body;
    var auth := b.authorization;
    && b.requestId != "" && b.decisionId != "" && b.correlationId != "" && b.key != ""
    && b.allowlistChecked && b.rollbackRequired
    && b.policyId in cfg.catalog.policies
    && var policy := cfg.catalog.policies[b.policyId];
       && b.policyId == policy.id && b.policyVersion == policy.version && b.policySha256 == policy.sha256
       && b.action == policy.action
       && b.ttlSeconds == policy.ttlSeconds
       && 0 < |b.target.value| <= 255
       && (b.action.BlockIp? ==> b.target.kind.IpTarget? && cfg.text.ip(b.target.value).Some?)
       && (b.action.IsolateHost? ==> b.target.kind.HostTarget?)
       && auth.issuer == "decision_engine"
       && auth.issuedAt < auth.expiresAt
       && auth.issuedAt <= now + CLOCK_SKEW
       && auth.expiresAt - auth.issuedAt <= cfg.catalog.validForSeconds * SECOND
       && Authentic(cfg, c, now)
  }

  /** The target a command competes for: two commands clash when their identities are equal. */
  datatype Identity = Identity(action: Action, value: string)

  function IdentityOf(cfg: Config, c: Command): Identity {
    var t := c.body.target;
    Identity(c.body.action,
             if t.kind.IpTarget? && cfg.text.ip(t.value).Some? then cfg.text.ip(t.value).value.canonical
             else cfg.text.host(t.value))
  }

  /** The address a block command puts on the peers. */
  function AddressOf(cfg: Config, c: Command): Addr {
    IdentityOf(cfg, c).value
  }

  /** Rounding an instant down keeps a command authentic, so a restart that checks the signature at
      the audited millisecond never turns against a command that was accepted. */
  lemma AuthenticAtTheMillisecond(cfg: Config, c: Command, now: int)
    requires Authentic(cfg, c, now)
    ensures Authentic(cfg, c, FloorMs(now))
  {
  }

  lemma FloorMsBasics(t: int, u: int)
    ensures FloorMs(t) <= t < FloorMs(t) + MILLISECOND
    ensures FloorMs(FloorMs(t)) == FloorMs(t)
    ensures t <= u ==> FloorMs(t) <= FloorMs(u)
  {
  }
}
