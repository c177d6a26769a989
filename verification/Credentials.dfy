/**
 Agent credentials: provisioning, refresh challenges and refresh rotation.

 Each function is one database transaction over the rows of `IdentityState.State`. Proof
 checks that only inspect the request (format, clock skew, Ed25519 signature, CLI version) are
 booleans of the request.
 */
module Credentials {
  import opened Common
  import opened IdentityState

  // ----------------------------------------------------------------- access check

  /** The joined row that `agentAuthAny` reads for a bearer token. */
  datatype AccessRow = AccessRow(
    sessionId: int,
    agentId: int,
    audience: string,
    revokedAt: Option<int>,
    principalRevokedAt: Option<int>,
    status: PrincipalStatus,
    identityActive: bool,
    refreshRequired: bool,
    expiresAt: int)

  datatype Rejection =
    | CredentialNotFound
    | AudienceInvalid
    | CredentialRevoked
    | PrincipalIsRevoked
    | PrincipalInactive
    | IdentityInactive
    | AccessRefreshRequired
    | AccessExpired

  function AccessRejectionReason(row: AccessRow, now: int): (r: Option<Rejection>) {
    if row.sessionId == 0 || row.agentId == 0 then Some(CredentialNotFound)
    else if row.audience != "agent_v2" then Some(AudienceInvalid)
    else if row.revokedAt.Some? then Some(CredentialRevoked)
    else if row.principalRevokedAt.Some? then Some(PrincipalIsRevoked)
    else if row.status != Limited && row.status != Active then Some(PrincipalInactive)
    else if !row.identityActive then Some(IdentityInactive)
    else if row.refreshRequired then Some(AccessRefreshRequired)
    else if row.expiresAt <= now then Some(AccessExpired)
    else None
  }

  /** A bearer of session `id` passes authentication at gateway time `now`. */
  predicate Accepted(s: State, id: int, now: int) {
    && id in s.creds.sessions
    && s.creds.sessions[id].principal in s.people.principals
    && s.people.principals[s.creds.sessions[id].principal].agentId in s.people.agents
    && var row := s.creds.sessions[id];
       var p := s.people.principals[row.principal];
       AccessRejectionReason(
         AccessRow(id, p.agentId, "agent_v2", row.revokedAt, p.revokedAt, p.status,
                   s.people.agents[p.agentId].identityActive, row.refreshRequired, row.expiresAt), now).None?
  }

  // ----------------------------------------------------------------- provision

  datatype ProvisionRequest = ProvisionRequest(
    fingerprint: string,
    key: string,
    requestHash: string,
    expectedAgent: int,
    grant: GrantToken,
    nonce: string,
    newAgent: int)

  datatype ProvisionReply =
    | Provisioned(agentId: int, principal: int, access: AccessToken, refresh: RefreshToken)
    | ProvisionConflict
    | ProvisionUnauthorized
    | ProvisionUnavailable

  function ProvisionRequestId(key: string): string {
    "provision:" + key
  }

  /** The unique columns of a row about to be inserted into agent_credential_sessions are free. */
  predicate CanInsert(c: Creds, row: Session) {
    && row.refresh !in c.byRefresh
    && (row.requestId.Some? ==> (row.principal, row.requestId.value) !in c.byRequest)
  }

  function InsertSession(c: Creds, row: Session): Creds {
    Creds(c.sessions[c.nextSession := row], c.byRefresh[row.refresh := c.nextSession],
          if row.requestId.Some? then c.byRequest[(row.principal, row.requestId.value) := c.nextSession]
          else c.byRequest, c.nextSession + 1)
  }

  function ProvisionedSession(principal: int, req: ProvisionRequest, now: int): Session {
    var seed := Seed(req.fingerprint, req.key, req.requestHash);
    Session(principal, ProvisionFamily(seed), ProvisionAccess(seed), ProvisionRefresh(seed), 0, now + ACCESS_TTL,
            now + REFRESH_TTL, None, None, false, Some(ProvisionRequestId(req.key)),
            ProvisionReceipt(req.requestHash))
  }

  function InsertPrincipal(people: People, row: Principal): People {
    people.(principals := people.principals[people.nextPrincipal := row],
            byFingerprint := if row.keyType == Ed25519
                then people.byFingerprint[row.fingerprint := people.nextPrincipal] else people.byFingerprint,
            nextPrincipal := people.nextPrincipal + 1)
  }

  /** What a provision request amounts to: an answer, or a credential for an old or a new principal. */
  datatype ProvisionPlan =
    | Answer(reply: ProvisionReply)
    | ForExisting(agentId: int, principal: int)
    | ForNew(agents: map<int, Agent>, row: Principal)

  /** ensureLegacyConsoleV2State: an account from before onboarding existed gets its row. */
  function EnsureOnboarding(agents: map<int, Agent>, agentId: int): (r: map<int, Agent>)
    requires agentId in agents
    ensures r.Keys == agents.Keys && !r[agentId].onboarding.OnboardingMissing?
    ensures forall a <- agents ::
        r[a].identityActive == agents[a].identityActive && (!agents[a].onboarding.OnboardingMissing? ==>
                                                              r[a] == agents[a])
  {
    if agents[agentId].onboarding.OnboardingMissing?
    then agents[agentId := agents[agentId].(onboarding := OnboardingOpen)] else agents
  }

  predicate ProvisionNonceUsable(s: State, nonce: string, fingerprint: string, now: int) {
    && nonce in s.nonces
    && s.nonces[nonce].domain == ProvisionNonce
    && s.nonces[nonce].fingerprint == fingerprint
    && s.nonces[nonce].consumedAt.None?
    && s.nonces[nonce].expiresAt >= now
  }

  /** The lookup by the hash of the presented grant. */
  predicate IsStored(grants: map<Entitlement, Grant>, token: GrantToken) {
    && token.entitlement in grants
    && grants[token.entitlement].requestId == token.requestId
    && grants[token.entitlement].fingerprint == token.fingerprint
  }

  /** The grant was issued to this key, is unused and unexpired, and a recovery grant names the expected agent. */
  predicate GrantUsable(s: State, req: ProvisionRequest, now: int) {
    && IsStored(s.grants, req.grant)
    && var grant := s.grants[req.grant.entitlement];
       && grant.fingerprint == req.fingerprint && grant.consumedBy.None? && grant.expiresAt >= now
       && (grant.channel == RECOVERY_CHANNEL ==> req.expectedAgent != 0 && grant.subject == Some(req.expectedAgent))
       && ProvisionNonceUsable(s, req.nonce, req.fingerprint, now)
  }

  function PlanProvision(s: State, req: ProvisionRequest, now: int): (plan: ProvisionPlan)
    ensures !plan.Answer? ==> GrantUsable(s, req, now)
    ensures plan.ForExisting? ==>
        req.fingerprint in s.people.byFingerprint && plan.principal == s.people.byFingerprint[req.fingerprint]
                                  && plan.principal in s.people.principals
                                  && plan.agentId == s.people.principals[plan.principal].agentId
    ensures plan.ForNew? ==> && req.fingerprint !in s.people.byFingerprint && plan.row.fingerprint == req.fingerprint
                             && plan.row.keyType == Ed25519 && s.people.agents.Keys <= plan.agents.Keys
                             && plan.row.agentId in plan.agents
                             && forall a <- s.people.agents ::
                                 plan.agents[a].identityActive == s.people.agents[a].identityActive
  {
    if req.fingerprint in s.people.byFingerprint then
      var pid := s.people.byFingerprint[req.fingerprint];
      if pid !in s.people.principals || s.people.principals[pid].agentId !in s.people.agents
      then Answer(ProvisionUnavailable)
      else
        var p := s.people.principals[pid];
        var usable := p.revokedAt.None? && Usable(p) && s.people.agents[p.agentId].identityActive;
        if (pid, ProvisionRequestId(req.key)) in s.creds.byRequest
            && s.creds.byRequest[(pid, ProvisionRequestId(req.key))] in s.creds.sessions then
          var receipt := s.creds.sessions[s.creds.byRequest[(pid, ProvisionRequestId(req.key))]];
          var seed := Seed(req.fingerprint, req.key, req.requestHash);
          if receipt.receipt != ProvisionReceipt(req.requestHash) then Answer(ProvisionConflict)
          else if receipt.revokedAt.Some? || receipt.absoluteExpiresAt <= now || !usable
          then Answer(ProvisionUnauthorized)
          else if req.expectedAgent != 0 && p.agentId != req.expectedAgent then Answer(ProvisionUnauthorized)
          else Answer(Provisioned(p.agentId, pid, ProvisionAccess(seed), ProvisionRefresh(seed)))
        else if !GrantUsable(s, req, now) || !usable then Answer(ProvisionUnauthorized)
        else
          var subject := s.grants[req.grant.entitlement].subject;
          if (subject.Some? && p.agentId != subject.value) || (req.expectedAgent != 0 && p.agentId != req.expectedAgent)
          then Answer(ProvisionUnauthorized)
          else ForExisting(p.agentId, pid)
    else if !GrantUsable(s, req, now) || s.grants[req.grant.entitlement].channel == RECOVERY_CHANNEL
    then Answer(ProvisionUnauthorized)
    else if s.grants[req.grant.entitlement].subject.Some? then
      var agentId := s.grants[req.grant.entitlement].subject.value;
      if req.expectedAgent != 0 && agentId != req.expectedAgent then Answer(ProvisionUnauthorized)
      else if agentId !in s.people.agents then Answer(ProvisionUnavailable)
      else
        var agents := EnsureOnboarding(s.people.agents, agentId);
        var status := if agents[agentId].onboarding.OnboardingCompleted? then Active else Limited;
        ForNew(agents, Principal(agentId, Ed25519, req.fingerprint, status, None))
    else if req.expectedAgent != 0 then Answer(ProvisionUnauthorized)
    else if req.newAgent in s.people.agents then Answer(ProvisionUnavailable)
    else ForNew(s.people.agents[req.newAgent := Agent(true, OnboardingOpen)],
                Principal(req.newAgent, Ed25519, req.fingerprint, Limited, None))
  }

  /** Consumes the grant and the nonce of a provision. */
  function ConsumeGrant(s: State, req: ProvisionRequest, agentId: int, now: int): State
    requires req.grant.entitlement in s.grants && req.nonce in s.nonces
  {
    var id := req.grant.entitlement;
    s.(grants := s.grants[id := s.grants[id].(consumedBy := Some(agentId))],
       nonces := s.nonces[req.nonce := s.nonces[req.nonce].(consumedAt := Some(now))])
  }

  /** The grant and nonce updates and the credential insert; a unique violation rolls the transaction back. */
  function InsertCredential(s: State, people: People, agentId: int, principal: int, req: ProvisionRequest,
                            now: int): (State, ProvisionReply)
    requires GrantUsable(s, req, now)
  {
    var row := ProvisionedSession(principal, req, now);
    if CanInsert(s.creds, row)
    then (ConsumeGrant(s, req, agentId, now).(people := people, creds := InsertSession(s.creds, row)),
          Provisioned(agentId, principal, row.access, row.refresh))
    else (s, ProvisionUnavailable)
  }

  /** provision; `now` is the database clock. */
  function Provision(s: State, req: ProvisionRequest, now: int): (State, ProvisionReply) {
    match PlanProvision(s, req, now)
    case Answer(reply) => (s, reply)
    case ForExisting(agentId, principal) => InsertCredential(s, s.people, agentId, principal, req, now)
    case ForNew(agents, row) =>
      InsertCredential(s, InsertPrincipal(s.people.(agents := agents), row), row.agentId, s.people.nextPrincipal, req,
                       now)
  }

  datatype GrantRequest = GrantRequest(
    entitlement: string,
    requestId: string,
    fingerprint: string,
    channel: string,
    policy: string,
    subject: Option<int>)

  function EntitlementOf(req: GrantRequest): Entitlement {
    Entitlement(req.channel == RECOVERY_CHANNEL, req.entitlement)
  }

  /** An entitlement is bound to the request that first used it. */
  predicate SameGrantRequest(grant: Grant, req: GrantRequest) {
    && grant.fingerprint == req.fingerprint && grant.requestId == req.requestId
    && grant.channel == req.channel && grant.policy == req.policy && grant.subject == req.subject
  }

  /** The unique index on request ids. */
  predicate RequestIdTaken(grants: map<Entitlement, Grant>, requestId: string) {
    exists id <- grants :: grants[id].requestId == requestId
  }

  /**
   issueBootstrapGrantRecord: a new grant with its nonce; asking again for an unused one renews both.
   Nonces derived for grants never meet drawn nonces.
   */
  function IssueGrant(s: State, req: GrantRequest, nonce: string, now: int): (State, Option<GrantToken>) {
    var id := EntitlementOf(req);
    var token := Some(GrantToken(id, req.requestId, req.fingerprint));
    var row := Nonce(ProvisionNonce, req.fingerprint, now + GRANT_TTL, None);
    if nonce in s.nonces && s.nonces[nonce].domain != ProvisionNonce then (s, None)
    else if id in s.grants then
      var grant := s.grants[id];
      if !SameGrantRequest(grant, req) then (s, None)
      else if grant.consumedBy.Some? then (s, token)
      else
        (s.(grants := s.grants[id := grant.(expiresAt := now + GRANT_TTL)], nonces := s.nonces[nonce := row]), token)
    else if RequestIdTaken(s.grants, req.requestId) || nonce in s.nonces then (s, None)
    else
      var grant := Grant(req.fingerprint, req.requestId, req.channel, req.policy, req.subject, now + GRANT_TTL, None);
      (s.(grants := s.grants[id := grant], nonces := s.nonces[nonce := row]), token)
  }

  // ----------------------------------------------------------------- device linking

  /** `authOk` stands for the recent email sign-in, the format and skew of the request and its signature. */
  datatype LinkRequest = LinkRequest(
    agentId: int,
    console: string,
    fingerprint: string,
    nonce: string,
    draw: string,
    authOk: bool)

  datatype LinkReply =
    | Linked(principal: int, created: bool, session: int, access: AccessToken, refresh: RefreshToken)
    | LinkRefused
    | LinkConflict
    | LinkFailed

  /** createPrincipalChallenge: a nonce for one agent, console session and device key. */
  function DeviceChallenge(s: State, agentId: int, console: string, fingerprint: string, nonce: string,
                           recentAuth: bool,
                           now: int): (State, bool) {
    if !recentAuth || nonce in s.nonces then (s, false)
    else (s.(nonces := s.nonces[nonce := Nonce(DeviceNonce(agentId, console), fingerprint, now + NONCE_TTL, None)]),
          true)
  }

  predicate DeviceNonceUsable(s: State, req: LinkRequest, now: int) {
    && req.nonce in s.nonces
    && s.nonces[req.nonce].domain == DeviceNonce(req.agentId, req.console)
    && s.nonces[req.nonce].fingerprint == req.fingerprint
    && s.nonces[req.nonce].consumedAt.None?
    && s.nonces[req.nonce].expiresAt >= now
  }

  function LinkedSession(principal: int, draw: string, now: int): Session {
    Session(principal, LinkedFamily(draw), LinkedAccess(draw), LinkedRefresh(draw), 0, now + ACCESS_TTL,
            now + REFRESH_TTL, None, None, false, None, NoReceipt)
  }

  /** The nonce update and the credential insert; a unique violation rolls the transaction back. */
  function InsertLinked(s: State, people: People, principal: int, created: bool, req: LinkRequest,
                        now: int): (State, LinkReply)
    requires req.nonce in s.nonces
  {
    var row := LinkedSession(principal, req.draw, now);
    if CanInsert(s.creds, row)
    then (s.(people := people, creds := InsertSession(s.creds, row),
             nonces := s.nonces[req.nonce := s.nonces[req.nonce].(consumedAt := Some(now))]),
          Linked(principal, created, s.creds.nextSession, row.access, row.refresh))
    else (s, LinkConflict)
  }

  function NewDevice(s: State, req: LinkRequest): Principal
    requires req.agentId in s.people.agents
  {
    var status := if s.people.agents[req.agentId].onboarding.OnboardingCompleted? then Active else Limited;
    Principal(req.agentId, Ed25519, req.fingerprint, status, None)
  }

  /** addPrincipal; `now` is the gateway clock. */
  function LinkDevice(s: State, req: LinkRequest, now: int): (State, LinkReply) {
    if !req.authOk || !DeviceNonceUsable(s, req, now) then (s, LinkRefused)
    else if req.fingerprint in s.people.byFingerprint then
      var pid := s.people.byFingerprint[req.fingerprint];
      if pid !in s.people.principals then (s, LinkFailed)
      else if s.people.principals[pid].agentId != req.agentId || !Usable(s.people.principals[pid])
      then (s, LinkConflict)
      else InsertLinked(s, s.people, pid, false, req, now)
    else if req.agentId !in s.people.agents then (s, LinkFailed)
    else InsertLinked(s, InsertPrincipal(s.people, NewDevice(s, req)), s.people.nextPrincipal, true, req, now)
  }

  // ----------------------------------------------------------------- refresh

  datatype RefreshRequest = RefreshRequest(
    token: RefreshToken,
    requestId: string,
    nonce: string,
    fingerprint: string,
    proofOk: bool,
    cliOk: bool)

  datatype RefreshReply =
    | Issued(agentId: int, principal: int, session: int, family: Family, access: AccessToken, refresh: RefreshToken,
             expiresAt: int)
    | Reuse
    | RefreshInvalid
    | RefreshExpired
    | CLIUpgradeRequired
    | RefreshUnavailable

  predicate NonceUsable(s: State, nonce: string, fingerprint: string, now: int) {
    && nonce in s.nonces
    && s.nonces[nonce].domain == RefreshNonce
    && s.nonces[nonce].fingerprint == fingerprint
    && s.nonces[nonce].consumedAt.None?
    && s.nonces[nonce].expiresAt >= now
  }

  function ConsumeNonce(s: State, nonce: string, now: int): State
    requires nonce in s.nonces
  {
    s.(nonces := s.nonces[nonce := s.nonces[nonce].(consumedAt := Some(now))])
  }

  /** The checks of the refresh transaction before it looks at replacement and revocation. */
  predicate RefreshChecks(s: State, req: RefreshRequest) {
    && req.proofOk
    && req.token in s.creds.byRefresh
    && s.creds.byRefresh[req.token] in s.creds.sessions
    && var prior := s.creds.sessions[s.creds.byRefresh[req.token]];
       && prior.principal in s.people.principals
       && s.people.principals[prior.principal].agentId in s.people.agents
       && var p := s.people.principals[prior.principal];
          && p.fingerprint == req.fingerprint
          && s.people.agents[p.agentId].identityActive
          && p.revokedAt.None?
          && Usable(p)
  }

  /** The stored successor is the unused product of exactly this rotation request. */
  predicate RotationMatches(prior: Session, successor: Session, req: RefreshRequest) {
    && successor.revokedAt.None?
    && successor.replacedBy.None?
    && successor.principal == prior.principal
    && successor.family == prior.family
    && successor.requestId == Some(req.requestId)
    && successor.receipt == RotationReceipt(Rotation(req.token, req.fingerprint, req.requestId))
  }

  function RotatedSession(prior: Session, req: RefreshRequest, now: int): Session {
    var rotation := Rotation(req.token, req.fingerprint, req.requestId);
    Session(prior.principal, prior.family, RotatedAccess(rotation), RotatedRefresh(rotation), prior.counter + 1,
            now + ACCESS_TTL, now + REFRESH_TTL, None, None, false, Some(req.requestId), RotationReceipt(rotation))
  }

  /** What a refresh request amounts to once every guard has been evaluated. */
  datatype RefreshPlan = Rotate(id: int) | Replay(next: int) | RevokeAll(family: Family) | Refuse(reply: RefreshReply)

  function PlanRefresh(s: State, req: RefreshRequest, now: int): (plan: RefreshPlan)
    ensures plan.Refuse? ==> !plan.reply.Issued? && plan.reply != Reuse
    ensures !plan.Refuse? ==> RefreshChecks(s, req)
    ensures plan.Rotate? ==> && plan.id == s.creds.byRefresh[req.token]
                             && var prior := s.creds.sessions[plan.id];
                                && prior.replacedBy.None? && prior.revokedAt.None?
                                && CanInsert(s.creds, RotatedSession(prior, req, now))
                                && NonceUsable(s, req.nonce, req.fingerprint, now)
    ensures plan.Replay? ==> && var prior := s.creds.sessions[s.creds.byRefresh[req.token]];
                                && prior.replacedBy == Some(plan.next) && plan.next in s.creds.sessions
                                && RotationMatches(prior, s.creds.sessions[plan.next], req)
                                && NonceUsable(s, req.nonce, req.fingerprint, now)
    ensures plan.RevokeAll? ==> plan.family == s.creds.sessions[s.creds.byRefresh[req.token]].family
  {
    if !RefreshChecks(s, req) then Refuse(RefreshInvalid)
    else
      var prior := s.creds.sessions[s.creds.byRefresh[req.token]];
      if prior.refreshRequired && !req.cliOk then Refuse(CLIUpgradeRequired)
      else if prior.replacedBy.Some? then
        var next := prior.replacedBy.value;
        if next in s.creds.sessions && RotationMatches(prior, s.creds.sessions[next], req) then
          if !NonceUsable(s, req.nonce, req.fingerprint, now) then Refuse(RefreshInvalid)
          else if s.creds.sessions[next].absoluteExpiresAt <= now then Refuse(RefreshExpired)
          else Replay(next)
        else RevokeAll(prior.family)
      else if prior.revokedAt.Some? then RevokeAll(prior.family)
      else if prior.absoluteExpiresAt <= now then Refuse(RefreshExpired)
      else if !NonceUsable(s, req.nonce, req.fingerprint, now) then Refuse(RefreshInvalid)
      else if !CanInsert(s.creds, RotatedSession(prior, req, now)) then Refuse(RefreshUnavailable)
      else Rotate(s.creds.byRefresh[req.token])
  }

  /** The sessions after session `id` has been replaced by the new session `row`. */
  function Replace(c: Creds, id: int, row: Session, now: int): Creds
    requires id in c.sessions
  {
    var t := InsertSession(c, row);
    t.(sessions := t.sessions[id := c.sessions[id].(revokedAt := Some(now), replacedBy := Some(c.nextSession))])
  }

  function SetSessions(s: State, sessions: map<int, Session>): State {
    s.(creds := s.creds.(sessions := sessions))
  }

  /** refreshAgentSession; `now` is the database clock read inside the transaction. */
  function Refresh(s: State, req: RefreshRequest, now: int): (State, RefreshReply) {
    match PlanRefresh(s, req, now)
    case Refuse(reply) => (s, reply)
    case RevokeAll(family) => (SetSessions(s, RevokeFamily(s.creds.sessions, family, now)), Reuse)
    case Replay(next) =>
      var row := s.creds.sessions[next];
      (SetSessions(ConsumeNonce(s, req.nonce, now), s.creds.sessions[next := row.(refreshRequired := false)]),
       IssuedFor(AgentOf(s, req), next, row, req))
    case Rotate(id) =>
      var row := RotatedSession(s.creds.sessions[id], req, now);
      (ConsumeNonce(s, req.nonce, now).(creds := Replace(s.creds, id, row, now)),
       IssuedFor(AgentOf(s, req), s.creds.nextSession, row, req))
  }

  function AgentOf(s: State, req: RefreshRequest): int
    requires RefreshChecks(s, req)
  {
    s.people.principals[s.creds.sessions[s.creds.byRefresh[req.token]].principal].agentId
  }

  function IssuedFor(agentId: int, session: int, row: Session, req: RefreshRequest): RefreshReply {
    var rotation := Rotation(req.token, req.fingerprint, req.requestId);
    Issued(agentId, row.principal, session, row.family, RotatedAccess(rotation), RotatedRefresh(rotation),
           row.expiresAt)
  }

  datatype ChallengeReply =
    | NonceIssued(nonce: string)
    | ChallengeReuse
    | ChallengeInvalid
    | ChallengeExpired
    | ChallengeUnavailable

  /** createRefreshChallenge; `nonce` is the random value drawn for this call. */
  function Challenge(s: State, token: RefreshToken, requestId: string, nonce: string,
                     now: int): (State, ChallengeReply) {
    if !(token in s.creds.byRefresh && s.creds.byRefresh[token] in s.creds.sessions) then (s, ChallengeInvalid)
    else
      var row := s.creds.sessions[s.creds.byRefresh[token]];
      if row.principal !in s.people.principals || s.people.principals[row.principal].agentId !in s.people.agents
      then (s, ChallengeInvalid)
      else
        var p := s.people.principals[row.principal];
        var successor := if row.replacedBy.Some? && row.replacedBy.value in s.creds.sessions
            then Some(s.creds.sessions[row.replacedBy.value]) else None;
        if !s.people.agents[p.agentId].identityActive || p.revokedAt.Some? || !Usable(p) then (s, ChallengeInvalid)
        else if row.replacedBy.Some? && (successor.None? || successor.value.requestId != Some(requestId)) then
          (SetSessions(s, RevokeFamily(s.creds.sessions, row.family, now)), ChallengeReuse)
        else if row.revokedAt.Some? && row.replacedBy.None? then (s, ChallengeInvalid)
        else if row.absoluteExpiresAt <= now && row.replacedBy.None? then (s, ChallengeExpired)
        else if row.absoluteExpiresAt <= now && SuccessorUnavailable(row, successor, token, p.fingerprint, requestId)
        then (s, ChallengeInvalid)
        else if row.absoluteExpiresAt <= now && successor.Some? && successor.value.absoluteExpiresAt <= now
        then (s, ChallengeExpired)
        else if nonce in s.nonces then (s, ChallengeUnavailable)
        else (s.(nonces := s.nonces[nonce := Nonce(RefreshNonce, p.fingerprint, now + NONCE_TTL, None)]),
              NonceIssued(nonce))
  }

  predicate SuccessorUnavailable(row: Session, successor: Option<Session>, token: RefreshToken, fingerprint: string,
                                 requestId: string) {
    || successor.None?
    || successor.value.revokedAt.Some?
    || successor.value.replacedBy.Some?
    || successor.value.principal != row.principal
    || successor.value.family != row.family
    || successor.value.receipt != RotationReceipt(Rotation(token, fingerprint, requestId))
  }

  // ----------------------------------------------------------------- invariant

  /** The provision or device link a token descends from, and the number of rotations since. */
  function Root(t: RefreshToken): Family {
    match t
    case ProvisionRefresh(seed) => ProvisionFamily(seed)
    case LinkedRefresh(draw) => LinkedFamily(draw)
    case RotatedRefresh(rotation) => Root(rotation.token)
  }

  function Depth(t: RefreshToken): nat {
    match t
    case RotatedRefresh(rotation) => Depth(rotation.token) + 1
    case _ => 0
  }

  /** The refresh token a family starts with. */
  function FirstToken(family: Family): RefreshToken {
    match family
    case ProvisionFamily(seed) => ProvisionRefresh(seed)
    case LinkedFamily(draw) => LinkedRefresh(draw)
  }

  /** What holds of every session row; the parts below are read one row at a time. */
  ghost predicate RowOk(p: People, c: Creds, id: int) {
    && id in c.sessions
    && 0 < id < c.nextSession
    && var row := c.sessions[id];
       && row.principal in p.principals
       && row.refresh in c.byRefresh && c.byRefresh[row.refresh] == id
       && Indexed(c, id, row)
       && Derived(row, p.principals[row.principal].fingerprint)
       && HasParent(c, id, row.refresh)
       && ReplacedOnce(c, row)
  }

  /** The partial unique index on request ids holds the row if it has one. */
  ghost predicate Indexed(c: Creds, id: int, row: Session) {
    row.requestId.Some? ==>
      (row.principal, row.requestId.value) in c.byRequest && c.byRequest[(row.principal, row.requestId.value)] == id
  }

  /** Every column of a session follows from its refresh token and its principal's key. */
  ghost predicate Derived(row: Session, fingerprint: string) {
    && row.family == Root(row.refresh)
    && row.counter == Depth(row.refresh)
    && match row.refresh
       case ProvisionRefresh(seed) => row.access == ProvisionAccess(seed) && row.receipt.ProvisionReceipt?
       case LinkedRefresh(draw) => row.access == LinkedAccess(draw) && row.receipt.NoReceipt? && row.requestId.None?
       case RotatedRefresh(rotation) =>
         && row.access == RotatedAccess(rotation)
         && row.receipt == RotationReceipt(rotation)
         && row.requestId == Some(rotation.requestId)
         && rotation.fingerprint == fingerprint
  }

  /** A rotated session is what its parent token's session was replaced by. */
  ghost predicate HasParent(c: Creds, id: int, refresh: RefreshToken) {
    refresh.RotatedRefresh? ==>
      && refresh.rotation.token in c.byRefresh
      && c.byRefresh[refresh.rotation.token] in c.sessions
      && c.sessions[c.byRefresh[refresh.rotation.token]].replacedBy == Some(id)
  }

  ghost predicate ReplacedOnce(c: Creds, row: Session) {
    row.replacedBy.Some? ==>
      && row.revokedAt.Some?
      && row.replacedBy.value in c.sessions
      && var next := c.sessions[row.replacedBy.value];
         && next.refresh.RotatedRefresh?
         && next.refresh.rotation.token == row.refresh
         && next.principal == row.principal
  }

  ghost predicate TokenOk(c: Creds, t: RefreshToken) {
    t in c.byRefresh && c.byRefresh[t] in c.sessions && c.sessions[c.byRefresh[t]].refresh == t
  }

  ghost predicate RequestOk(c: Creds, k: (int, string)) {
    && k in c.byRequest && c.byRequest[k] in c.sessions
    && c.sessions[c.byRequest[k]].principal == k.0 && c.sessions[c.byRequest[k]].requestId == Some(k.1)
  }

  ghost predicate PrincipalOk(people: People, p: int) {
    p in people.principals && 0 < p < people.nextPrincipal && people.principals[p].agentId in people.agents
  }

  ghost predicate FingerprintOk(people: People, f: string) {
    && f in people.byFingerprint && people.byFingerprint[f] in people.principals
    && people.principals[people.byFingerprint[f]].fingerprint == f
    && people.principals[people.byFingerprint[f]].keyType == Ed25519
  }

  ghost predicate PeopleOk(people: People) {
    && people.nextPrincipal > 0
    && (forall p {:trigger PrincipalOk(people, p)} :: p in people.principals ==> PrincipalOk(people, p))
    && (forall f {:trigger FingerprintOk(people, f)} :: f in people.byFingerprint ==> FingerprintOk(people, f))
  }

  ghost predicate CredsOk(p: People, c: Creds) {
    && c.nextSession > 0
    && (forall id {:trigger RowOk(p, c, id)} :: id in c.sessions ==> RowOk(p, c, id))
    && (forall t {:trigger TokenOk(c, t)} :: t in c.byRefresh ==> TokenOk(c, t))
    && (forall k {:trigger RequestOk(c, k)} :: k in c.byRequest ==> RequestOk(c, k))
  }

  ghost predicate Inv(s: State) {
    PeopleOk(s.people) && CredsOk(s.people, s.creds)
  }

  // ----------------------------------------------------------------- steps keep the invariant

  lemma FreshSession(p: People, c: Creds)
    requires CredsOk(p, c)
    ensures c.nextSession !in c.sessions
  {
    forall id <- c.sessions ensures id < c.nextSession { assert RowOk(p, c, id); }
  }

  lemma InsertSessionKeeps(p: People, c: Creds, row: Session)
    requires CredsOk(p, c) && CanInsert(c, row)
    requires row.principal in p.principals && Derived(row, p.principals[row.principal].fingerprint)
    requires !row.refresh.RotatedRefresh? && row.replacedBy.None?
    ensures CredsOk(p, InsertSession(c, row))
  {
    var d := InsertSession(c, row);
    FreshSession(p, c);
    forall id <- d.sessions ensures RowOk(p, d, id) {
      if id != c.nextSession { assert RowOk(p, c, id); }
    }
    forall k <- d.byRefresh ensures TokenOk(d, k) {
      if k != row.refresh { assert TokenOk(c, k); }
    }
    forall k <- d.byRequest ensures RequestOk(d, k) {
      if k in c.byRequest { assert RequestOk(c, k); }
    }
  }

  /** Principals never change key: what a step outside this module may do to principal rows. */
  ghost predicate SameKeys(p: People, q: People) {
    forall id <- p.principals :: id in q.principals && q.principals[id].fingerprint == p.principals[id].fingerprint
  }

  /** Row `b` is row `a` except that it may be newly revoked or flagged differently. */
  ghost predicate Remarked(a: Session, b: Session) {
    && (a.revokedAt.Some? ==> b.revokedAt.Some?)
    && b.principal == a.principal && b.family == a.family && b.counter == a.counter
    && b.access == a.access && b.refresh == a.refresh && b.requestId == a.requestId && b.receipt == a.receipt
    && b.replacedBy == a.replacedBy && b.expiresAt == a.expiresAt && b.absoluteExpiresAt == a.absoluteExpiresAt
  }

  ghost predicate RemarkedAt(c: Creds, d: Creds, id: int) {
    id in c.sessions && id in d.sessions && Remarked(c.sessions[id], d.sessions[id])
  }

  ghost predicate RemarkedAll(c: Creds, d: Creds) {
    && d.byRefresh == c.byRefresh && d.byRequest == c.byRequest && d.nextSession == c.nextSession
    && d.sessions.Keys == c.sessions.Keys
    && forall id {:trigger RemarkedAt(c, d, id)} :: id in c.sessions ==> RemarkedAt(c, d, id)
  }

  /** Revoking or flagging rows, and any change of people that keeps keys, keeps the invariant. */
  lemma RemarkKeeps(p: People, c: Creds, q: People, d: Creds)
    requires CredsOk(p, c) && SameKeys(p, q) && RemarkedAll(c, d)
    ensures CredsOk(q, d)
  {
    forall id <- d.sessions ensures RowOk(q, d, id) {
      assert RowOk(p, c, id) && RemarkedAt(c, d, id);
      var row := c.sessions[id];
      assert row.replacedBy.Some? ==> RemarkedAt(c, d, row.replacedBy.value);
      assert row.refresh.RotatedRefresh? ==> RemarkedAt(c, d, c.byRefresh[row.refresh.rotation.token]);
    }
    forall k <- d.byRefresh ensures TokenOk(d, k) { assert TokenOk(c, k) && RemarkedAt(c, d, c.byRefresh[k]); }
    forall k <- d.byRequest ensures RequestOk(d, k) { assert RequestOk(c, k) && RemarkedAt(c, d, c.byRequest[k]); }
  }

  lemma InsertPrincipalKeeps(people: People, agents: map<int, Agent>, row: Principal)
    requires PeopleOk(people) && people.agents.Keys <= agents.Keys && row.agentId in agents
    ensures PeopleOk(InsertPrincipal(people.(agents := agents), row))
    ensures SameKeys(people, InsertPrincipal(people.(agents := agents), row))
    ensures people.nextPrincipal !in people.principals
  {
    var q := InsertPrincipal(people.(agents := agents), row);
    forall id <- people.principals ensures id < people.nextPrincipal { assert PrincipalOk(people, id); }
    forall id <- q.principals ensures PrincipalOk(q, id) {
      if id != people.nextPrincipal { assert PrincipalOk(people, id); }
    }
    forall f <- q.byFingerprint ensures FingerprintOk(q, f) {
      if f in people.byFingerprint { assert FingerprintOk(people, f); }
    }
  }

  lemma SamePeople(p: People, c: Creds)
    ensures SameKeys(p, p) && RemarkedAll(c, c)
  {
    forall id <- c.sessions ensures RemarkedAt(c, c, id) {}
  }

  lemma ProvisionKeepsInv(s: State, req: ProvisionRequest, now: int)
    requires Inv(s)
    ensures Inv(Provision(s, req, now).0)
  {
    match PlanProvision(s, req, now)
    case Answer(_) =>
    case ForExisting(_, principal) =>
      assert FingerprintOk(s.people, req.fingerprint);
      var row := ProvisionedSession(principal, req, now);
      if CanInsert(s.creds, row) { InsertSessionKeeps(s.people, s.creds, row); }
    case ForNew(agents, newcomer) =>
      InsertPrincipalKeeps(s.people, agents, newcomer);
      var q := InsertPrincipal(s.people.(agents := agents), newcomer);
      SamePeople(q, s.creds);
      RemarkKeeps(s.people, s.creds, q, s.creds);
      var row := ProvisionedSession(s.people.nextPrincipal, req, now);
      if CanInsert(s.creds, row) { InsertSessionKeeps(q, s.creds, row); }
  }

  lemma LinkKeepsInv(s: State, req: LinkRequest, now: int)
    requires Inv(s)
    ensures Inv(LinkDevice(s, req, now).0)
  {
    if LinkDevice(s, req, now).1.Linked? {
      if req.fingerprint in s.people.byFingerprint {
        assert FingerprintOk(s.people, req.fingerprint);
        InsertSessionKeeps(s.people, s.creds, LinkedSession(s.people.byFingerprint[req.fingerprint], req.draw, now));
      } else {
        InsertPrincipalKeeps(s.people, s.people.agents, NewDevice(s, req));
        var q := InsertPrincipal(s.people, NewDevice(s, req));
        SamePeople(q, s.creds);
        RemarkKeeps(s.people, s.creds, q, s.creds);
        InsertSessionKeeps(q, s.creds, LinkedSession(s.people.nextPrincipal, req.draw, now));
      }
    }
  }

  /**
   A linked device's credential is for the key and agent that asked, its own, and accepted until it
   expires as long as the agent's identity is active and the principal is not revoked.
   */
  lemma LinkedIsAccepted(s: State, req: LinkRequest, now: int, t: int)
    requires Inv(s) && LinkDevice(s, req, now).1.Linked?
    ensures var (s', reply) := LinkDevice(s, req, now);
            && reply.session !in s.creds.sessions && reply.session in s'.creds.sessions
            && reply.principal in s'.people.principals && reply.created == (reply.principal !in s.people.principals)
            && s'.creds.sessions[reply.session].principal == reply.principal
            && var p := s'.people.principals[reply.principal];
               && p.agentId == req.agentId && p.fingerprint == req.fingerprint && req.agentId in s'.people.agents
               && (Accepted(s', reply.session, t) <==>
                     req.agentId != 0 && s'.people.agents[req.agentId].identityActive && p.revokedAt.None?
                         && t < now + ACCESS_TTL)
  {
    FreshSession(s.people, s.creds);
    if req.fingerprint in s.people.byFingerprint {
      assert FingerprintOk(s.people, req.fingerprint) && PrincipalOk(s.people, s.people.byFingerprint[req.fingerprint]);
    } else {
      InsertPrincipalKeeps(s.people, s.people.agents, NewDevice(s, req));
    }
  }

  lemma RevokeFamilyKeeps(p: People, c: Creds, family: Family, now: int)
    requires CredsOk(p, c)
    ensures CredsOk(p, c.(sessions := RevokeFamily(c.sessions, family, now)))
  {
    RemarkKeeps(p, c, p, c.(sessions := RevokeFamily(c.sessions, family, now)));
  }

  lemma ChallengeKeepsInv(s: State, token: RefreshToken, requestId: string, nonce: string, now: int)
    requires Inv(s)
    ensures Inv(Challenge(s, token, requestId, nonce, now).0)
  {
    if Challenge(s, token, requestId, nonce, now).1.ChallengeReuse? {
      RevokeFamilyKeeps(s.people, s.creds, s.creds.sessions[s.creds.byRefresh[token]].family, now);
    }
  }

  lemma ReplaceKeeps(p: People, c: Creds, id: int, row: Session, now: int)
    requires CredsOk(p, c) && CanInsert(c, row)
    requires id in c.sessions && c.sessions[id].replacedBy.None? && row.replacedBy.None?
    requires row.principal == c.sessions[id].principal && row.principal in p.principals
    requires Derived(row, p.principals[row.principal].fingerprint)
    requires row.refresh.RotatedRefresh? && row.refresh.rotation.token == c.sessions[id].refresh
    ensures CredsOk(p, Replace(c, id, row, now))
  {
    var d := Replace(c, id, row, now);
    FreshSession(p, c);
    assert RowOk(p, c, id);
    forall other <- d.sessions ensures RowOk(p, d, other) {
      if other != c.nextSession { assert RowOk(p, c, other); }
    }
    forall k <- d.byRefresh ensures TokenOk(d, k) {
      if k != row.refresh { assert TokenOk(c, k); }
    }
    forall k <- d.byRequest ensures RequestOk(d, k) {
      if k in c.byRequest { assert RequestOk(c, k); }
    }
  }

  lemma RefreshKeepsInv(s: State, req: RefreshRequest, now: int)
    requires Inv(s)
    ensures Inv(Refresh(s, req, now).0)
  {
    match PlanRefresh(s, req, now)
    case Refuse(_) =>
    case RevokeAll(family) => RevokeFamilyKeeps(s.people, s.creds, family, now);
    case Replay(next) =>
      var row := s.creds.sessions[next].(refreshRequired := false);
      RemarkKeeps(s.people, s.creds, s.people, s.creds.(sessions := s.creds.sessions[next := row]));
    case Rotate(id) =>
      assert RowOk(s.people, s.creds, id) && TokenOk(s.creds, req.token);
      ReplaceKeeps(s.people, s.creds, id, RotatedSession(s.creds.sessions[id], req, now), now);
  }
}
