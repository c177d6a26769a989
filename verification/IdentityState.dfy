/**
 The rows behind Agent credentials and CLI account switches.

 Hashes and keyed hashes are collision free by construction: a token is the term it is derived
 from, and storing a token stands for storing its hash. Unique indexes of the schema are kept
 as maps, so a lookup by a unique column is a map lookup and a unique violation is a key that is
 already present.
 */
module IdentityState {
  import opened Common

  /** What the provision receipt is derived from: key fingerprint, idempotency key, request hash. */
  datatype Seed = Seed(fingerprint: string, key: string, requestHash: string)

  /** The value `refreshRotationHash` hashes. */
  datatype Rotation = Rotation(token: RefreshToken, fingerprint: string, requestId: string)

  /** A linked device's tokens and family id are random; `draw` names what one call draws for all three. */
  datatype RefreshToken =
    | ProvisionRefresh(seed: Seed)
    | LinkedRefresh(draw: string)
    | RotatedRefresh(rotation: Rotation)

  datatype AccessToken = ProvisionAccess(seed: Seed) | LinkedAccess(draw: string) | RotatedAccess(rotation: Rotation)

  datatype Family = ProvisionFamily(seed: Seed) | LinkedFamily(draw: string)

  /** The content of rotation_request_hash, which a linked device's first session leaves NULL. */
  datatype Receipt = NoReceipt | ProvisionReceipt(requestHash: string) | RotationReceipt(rotation: Rotation)

  datatype Session = Session(
    principal: int,
    family: Family,
    access: AccessToken,
    refresh: RefreshToken,
    counter: nat,
    expiresAt: int,
    absoluteExpiresAt: int,
    replacedBy: Option<int>,
    revokedAt: Option<int>,
    refreshRequired: bool,
    requestId: Option<string>,
    receipt: Receipt)

  datatype PrincipalStatus = Limited | Active | Suspended | PrincipalRevoked

  datatype KeyType = Ed25519 | EmailRecovery

  datatype Principal = Principal(
    agentId: int,
    keyType: KeyType,
    fingerprint: string,
    status: PrincipalStatus,
    revokedAt: Option<int>)

  datatype Onboarding = OnboardingMissing | OnboardingOpen | OnboardingCompleted

  datatype Agent = Agent(identityActive: bool, onboarding: Onboarding)

  /** A device nonce also names the agent and the console session it was drawn for. */
  datatype NonceDomain = RefreshNonce | ProvisionNonce | DeviceNonce(agentId: int, console: string)

  datatype Nonce = Nonce(domain: NonceDomain, fingerprint: string, expiresAt: int, consumedAt: Option<int>)

  /** An entitlement hash: grants of the recovery channel are keyed with a secret of their own. */
  datatype Entitlement = Entitlement(recovery: bool, id: string)

  /** What the bootstrap grant handed to a client is derived from. */
  datatype GrantToken = GrantToken(entitlement: Entitlement, requestId: string, fingerprint: string)

  /** A bootstrap grant; `consumedBy` is the agent it was used for. */
  datatype Grant = Grant(
    fingerprint: string,
    requestId: string,
    channel: string,
    policy: string,
    subject: Option<int>,
    expiresAt: int,
    consumedBy: Option<int>)

  datatype SwitchStatus = PendingTarget | PendingOnboarding | Completed | CompletedNoop | Expired | Revoked

  datatype Switch = Switch(
    source: int,
    target: Option<int>,
    principal: int,
    sourceConsole: string,
    targetConsole: string,
    status: SwitchStatus,
    verifiedAt: Option<int>,
    expiresAt: int,
    completedAt: Option<int>)

  datatype AuditResult =
    | AuditPendingOnboarding
    | AuditCompleted
    | AuditCompletedNoop
    | AuditExpired
    | AuditRevoked
    | AuditRejected

  datatype AuditRow = AuditRow(switchId: string, source: int, target: Option<int>, principal: int, result: AuditResult,
                               at: int)

  datatype People = People(
    agents: map<int, Agent>,
    principals: map<int, Principal>,
    nextPrincipal: int,
    byFingerprint: map<string, int>)

  datatype Creds = Creds(
    sessions: map<int, Session>,
    byRefresh: map<RefreshToken, int>,
    byRequest: map<(int, string), int>,
    nextSession: int)

  datatype Ledger = Ledger(
    switches: map<string, Switch>,
    pendingOf: map<int, string>,
    audit: seq<AuditRow>)

  datatype State = State(
    people: People,
    creds: Creds,
    nonces: map<string, Nonce>,
    grants: map<Entitlement, Grant>,
    ledger: Ledger)

  const RECOVERY_CHANNEL: string := "existing_recovery"
  const ACCESS_TTL: int := 15 * 60 * 1000
  const REFRESH_TTL: int := 30 * 24 * 60 * 60 * 1000
  const NONCE_TTL: int := 2 * 60 * 1000
  const GRANT_TTL: int := 5 * 60 * 1000
  const SWITCH_TTL: int := 24 * 60 * 60 * 1000

  predicate Usable(p: Principal) {
    p.status == Limited || p.status == Active
  }

  predicate Pending(status: SwitchStatus) {
    status == PendingTarget || status == PendingOnboarding
  }

  /** UPDATE ... SET revoked_at = COALESCE(revoked_at, now) WHERE family_id = family. */
  function RevokeFamily(sessions: map<int, Session>, family: Family, now: int): (r: map<int, Session>)
    ensures r.Keys == sessions.Keys
  {
    map id | id in sessions ::
      if sessions[id].family == family
      then sessions[id].(revokedAt := Coalesce(sessions[id].revokedAt, now))
      else sessions[id]
  }

  /** UPDATE ... SET revoked_at = COALESCE(revoked_at, now) WHERE principal_id = principal. */
  function RevokePrincipalSessions(sessions: map<int, Session>, principal: int, now: int): (r: map<int, Session>)
    ensures r.Keys == sessions.Keys
  {
    map id | id in sessions ::
      if sessions[id].principal == principal
      then sessions[id].(revokedAt := Coalesce(sessions[id].revokedAt, now))
      else sessions[id]
  }

  /** UPDATE ... SET access_refresh_required = TRUE WHERE principal_id = principal AND revoked_at IS NULL. */
  function RequireRefresh(sessions: map<int, Session>, principal: int): (r: map<int, Session>)
    ensures r.Keys == sessions.Keys
  {
    map id | id in sessions ::
      if sessions[id].principal == principal && sessions[id].revokedAt.None?
      then sessions[id].(refreshRequired := true)
      else sessions[id]
  }
}
