/**
 When a device key gets a grant, a first credential, a link or another account, and when it loses
 them, and what each of these leaves alone.
 */
module EnrolmentAnswers {
  import opened Common
  import opened IdentityState
  import opened Credentials
  import opened AccountSwitch
  import opened AccountRecovery
  import opened IdentityRuns

  // ----------------------------------------------------------------- grants

  /** The entitlement was first used with the very columns of this request. */
  ghost predicate BoundTo(grant: Grant, req: GrantRequest) {
    grant == Grant(req.fingerprint, req.requestId, req.channel, req.policy, req.subject, grant.expiresAt,
                   grant.consumedBy)
  }

  function EntitlementHash(req: GrantRequest): Entitlement {
    Entitlement(req.channel == "existing_recovery", req.entitlement)
  }

  /**
   A grant is issued exactly for a new entitlement with an unused request id, or again for the request
   that first used it; until it is consumed it is then good for five more minutes, with its nonce.
   */
  lemma IssueGrantExactly(s: State, req: GrantRequest, nonce: string, now: int)
    ensures var (t, token) := IssueGrant(s, req, nonce, now);
            var id := EntitlementHash(req);
            var unused := id !in s.grants && nonce !in s.nonces
                          && forall other <- s.grants :: s.grants[other].requestId != req.requestId;
            var again := id in s.grants && BoundTo(s.grants[id], req)
                         && (nonce in s.nonces ==> s.nonces[nonce].domain == ProvisionNonce);
            var issues := unused || (again && s.grants[id].consumedBy.None?);
            && (token.Some? <==> unused || again)
            && (token.Some? ==> token.value == GrantToken(id, req.requestId, req.fingerprint))
            && (!issues ==> t == s)
            && (issues ==>
                  t == s.(grants := s.grants[id := Grant(req.fingerprint, req.requestId, req.channel, req.policy,
                                                         req.subject, now + 300000, None)],
                          nonces := s.nonces[nonce := Nonce(ProvisionNonce, req.fingerprint, now + 300000, None)]))
  {
  }

  // ----------------------------------------------------------------- provisioning

  /** The presented grant is stored, unused and unexpired for this key, and so is the nonce. */
  ghost predicate HoldsGrant(s: State, req: ProvisionRequest, now: int) {
    && req.grant.entitlement in s.grants && req.nonce in s.nonces
    && var grant, nonce := s.grants[req.grant.entitlement], s.nonces[req.nonce];
       && grant.requestId == req.grant.requestId && grant.fingerprint == req.grant.fingerprint == req.fingerprint
       && grant.consumedBy.None? && now <= grant.expiresAt
       && (grant.channel == "existing_recovery" ==> req.expectedAgent != 0 && grant.subject == Some(req.expectedAgent))
       && nonce.domain == ProvisionNonce && nonce.fingerprint == req.fingerprint && nonce.consumedAt.None?
       && now <= nonce.expiresAt
  }

  /** The agent a request names, if it names one, and the subject of its grant, if there is one, are this agent. */
  ghost predicate Agrees(s: State, req: ProvisionRequest, agentId: int)
    requires req.grant.entitlement in s.grants
  {
    var subject := s.grants[req.grant.entitlement].subject;
    (subject.Some? ==> subject.value == agentId) && (req.expectedAgent != 0 ==> req.expectedAgent == agentId)
  }

  ghost predicate GoodKey(s: State, principal: int) {
    && principal in s.people.principals
    && var p := s.people.principals[principal];
       && p.revokedAt.None? && (p.status == Limited || p.status == Active)
       && p.agentId in s.people.agents && s.people.agents[p.agentId].identityActive
  }

  /** The first credential of a provision: 15 minutes of access, 30 days of refresh. */
  function FirstSession(principal: int, req: ProvisionRequest, now: int): Session {
    var seed := Seed(req.fingerprint, req.key, req.requestHash);
    Session(principal, ProvisionFamily(seed), ProvisionAccess(seed), ProvisionRefresh(seed), 0, now + 900000,
            now + 2592000000, None, None, false, Some("provision:" + req.key), ProvisionReceipt(req.requestHash))
  }

  ghost predicate TokenIsNew(s: State, req: ProvisionRequest) {
    ProvisionRefresh(Seed(req.fingerprint, req.key, req.requestHash)) !in s.creds.byRefresh
  }

  /** The tables after the credential was stored for `principal` of `agentId`: a row, a used grant, a used nonce. */
  ghost predicate CredentialStored(s: State, t: State, req: ProvisionRequest, agentId: int, principal: int, now: int) {
    && req.grant.entitlement in s.grants && req.nonce in s.nonces && s.creds.nextSession !in s.creds.sessions
    && var id, row := s.creds.nextSession, FirstSession(principal, req, now);
       t == State(t.people, Creds(s.creds.sessions[id := row], s.creds.byRefresh[row.refresh := id],
                                  s.creds.byRequest[(principal, "provision:" + req.key) := id], id + 1),
                  s.nonces[req.nonce := s.nonces[req.nonce].(consumedAt := Some(now))],
                  s.grants[req.grant.entitlement :=
                    s.grants[req.grant.entitlement].(consumedBy := Some(agentId))], s.ledger)
  }

  /**
   A known key gets a new credential exactly when key and agent are in order, it holds a grant that
   agrees with its agent, and the idempotency key is new to it.
   */
  lemma ProvisionKnownExactly(s: State, req: ProvisionRequest, now: int)
    requires Inv(s) && req.fingerprint in s.people.byFingerprint
    ensures var (t, reply) := Provision(s, req, now);
            var pid := s.people.byFingerprint[req.fingerprint];
            && pid in s.people.principals
            && var agentId := s.people.principals[pid].agentId;
               && (t != s <==>
                     && GoodKey(s, pid) && (pid, "provision:" + req.key) !in s.creds.byRequest
                     && HoldsGrant(s, req, now) && Agrees(s, req, agentId) && TokenIsNew(s, req))
               && (t != s ==>
                     && t.people == s.people && CredentialStored(s, t, req, agentId, pid, now)
                     && reply == Provisioned(agentId, pid, FirstSession(pid, req, now).access,
                                             FirstSession(pid, req, now).refresh))
               && (t == s && (pid, "provision:" + req.key) !in s.creds.byRequest ==>
                     reply == ProvisionUnauthorized || reply == ProvisionUnavailable)
  {
    var pid := s.people.byFingerprint[req.fingerprint];
    assert FingerprintOk(s.people, req.fingerprint) && PrincipalOk(s.people, pid);
    if (pid, "provision:" + req.key) in s.creds.byRequest {
      assert RequestOk(s.creds, (pid, "provision:" + req.key));
    }
    FreshSession(s.people, s.creds);
  }

  /** A repeated provision of a known key answers from its receipt, without a grant. */
  lemma ProvisionReplayExactly(s: State, req: ProvisionRequest, now: int)
    requires Inv(s) && req.fingerprint in s.people.byFingerprint
    requires (s.people.byFingerprint[req.fingerprint], "provision:" + req.key) in s.creds.byRequest
    ensures var pid := s.people.byFingerprint[req.fingerprint];
            var id := s.creds.byRequest[(pid, "provision:" + req.key)];
            && pid in s.people.principals && id in s.creds.sessions
            && var row, agentId := s.creds.sessions[id], s.people.principals[pid].agentId;
               var same := row.receipt == ProvisionReceipt(req.requestHash);
               var good := same && row.revokedAt.None? && now < row.absoluteExpiresAt && GoodKey(s, pid)
                           && (req.expectedAgent != 0 ==> req.expectedAgent == agentId);
               && Provision(s, req, now).0 == s
               && (Provision(s, req, now).1 == ProvisionConflict <==> !same)
               && (Provision(s, req, now).1 == ProvisionUnauthorized <==> same && !good)
               && (good ==> Provision(s, req, now).1
                            == Provisioned(agentId, pid, FirstSession(pid, req, now).access,
                                           FirstSession(pid, req, now).refresh))
  {
    var pid := s.people.byFingerprint[req.fingerprint];
    assert FingerprintOk(s.people, req.fingerprint) && PrincipalOk(s.people, pid);
    assert RequestOk(s.creds, (pid, "provision:" + req.key));
  }

  /** The agent a new key is enrolled for: the grant's subject, or a new one. */
  ghost predicate Enrols(s: State, req: ProvisionRequest, agentId: int)
    requires req.grant.entitlement in s.grants
  {
    var grant := s.grants[req.grant.entitlement];
    && grant.channel != "existing_recovery"
    && if grant.subject.Some? then
         agentId == grant.subject.value && agentId in s.people.agents
         && (req.expectedAgent != 0 ==> req.expectedAgent == agentId)
       else agentId == req.newAgent && agentId !in s.people.agents && req.expectedAgent == 0
  }

  /** The new key, and the agent it belongs to with its onboarding row. */
  ghost predicate KeyEnrolled(p: People, q: People, req: ProvisionRequest, agentId: int) {
    && p.nextPrincipal !in p.principals
    && q.agents.Keys == p.agents.Keys + {agentId}
    && (forall a <- p.agents :: a != agentId ==> q.agents[a] == p.agents[a])
    && q.agents[agentId] == (if agentId !in p.agents then Agent(true, OnboardingOpen)
                             else if p.agents[agentId].onboarding.OnboardingMissing?
                             then p.agents[agentId].(onboarding := OnboardingOpen) else p.agents[agentId])
    && var status := if q.agents[agentId].onboarding.OnboardingCompleted? then Active else Limited;
       q == People(q.agents,
                   p.principals[p.nextPrincipal := Principal(agentId, Ed25519, req.fingerprint, status, None)],
                   p.nextPrincipal + 1, p.byFingerprint[req.fingerprint := p.nextPrincipal])
  }

  lemma PlanForNewKey(s: State, req: ProvisionRequest, now: int)
    requires Inv(s) && req.fingerprint !in s.people.byFingerprint
    ensures var plan := PlanProvision(s, req, now);
            && (plan.ForNew? <==> HoldsGrant(s, req, now) && exists a :: Enrols(s, req, a))
            && (plan.ForNew? ==> forall a :: Enrols(s, req, a) ==>
                  plan.row.agentId == a
                  && KeyEnrolled(s.people, InsertPrincipal(s.people.(agents := plan.agents), plan.row), req, a))
            && !plan.ForExisting?
  {
    NextPrincipalHasNoRequest(s, "");
    if HoldsGrant(s, req, now) {
      var grant := s.grants[req.grant.entitlement];
      var a := if grant.subject.Some? then grant.subject.value else req.newAgent;
      assert forall b :: Enrols(s, req, b) ==> b == a;
      assert Enrols(s, req, a) <==> PlanProvision(s, req, now).ForNew?;
    }
  }

  lemma NextPrincipalHasNoRequest(s: State, requestId: string)
    requires Inv(s)
    ensures (s.people.nextPrincipal, requestId) !in s.creds.byRequest && s.people.nextPrincipal !in s.people.principals
  {
    forall p <- s.people.principals ensures p < s.people.nextPrincipal { assert PrincipalOk(s.people, p); }
    if (s.people.nextPrincipal, requestId) in s.creds.byRequest { UsedRequestHasPrincipal(s, requestId); }
  }

  lemma UsedRequestHasPrincipal(s: State, requestId: string)
    requires Inv(s) && (s.people.nextPrincipal, requestId) in s.creds.byRequest
    ensures s.people.nextPrincipal in s.people.principals
  {
    assert RequestOk(s.creds, (s.people.nextPrincipal, requestId));
    assert RowOk(s.people, s.creds, s.creds.byRequest[(s.people.nextPrincipal, requestId)]);
  }

  /**
   A new key is enrolled exactly when it holds a grant that is not for recovery and the grant's subject
   exists, or there is none and the agent is new.
   */
  lemma ProvisionNewExactly(s: State, req: ProvisionRequest, now: int)
    requires Inv(s) && req.fingerprint !in s.people.byFingerprint
    ensures var (t, reply) := Provision(s, req, now);
            && (t != s <==> && HoldsGrant(s, req, now) && TokenIsNew(s, req) && exists a :: Enrols(s, req, a))
            && (t != s ==> forall a :: Enrols(s, req, a) ==>
                  && KeyEnrolled(s.people, t.people, req, a)
                  && CredentialStored(s, t, req, a, s.people.nextPrincipal, now)
                  && var row := FirstSession(s.people.nextPrincipal, req, now);
                     reply == Provisioned(a, s.people.nextPrincipal, row.access, row.refresh))
            && (t == s ==> reply == ProvisionUnauthorized || reply == ProvisionUnavailable)
  {
    NextPrincipalHasNoRequest(s, "provision:" + req.key);
    FreshSession(s.people, s.creds);
    PlanForNewKey(s, req, now);
  }

  // ----------------------------------------------------------------- device links

  /** A device nonce is good for two minutes, for one agent, console session and key. */
  lemma DeviceChallengeExactly(s: State, agentId: int, console: string, fingerprint: string, nonce: string,
                               recentAuth: bool, now: int)
    ensures var (t, ok) := DeviceChallenge(s, agentId, console, fingerprint, nonce, recentAuth, now);
            && (ok <==> recentAuth && nonce !in s.nonces)
            && (ok ==> t == s.(nonces := s.nonces[nonce := Nonce(DeviceNonce(agentId, console), fingerprint,
                                                                 now + 120000, None)]))
            && (!ok ==> t == s)
  {
  }

  ghost predicate HasDeviceNonce(s: State, req: LinkRequest, now: int) {
    && req.nonce in s.nonces
    && var n := s.nonces[req.nonce];
       n.domain == DeviceNonce(req.agentId, req.console) && n.fingerprint == req.fingerprint && n.consumedAt.None?
       && now <= n.expiresAt
  }

  /** The session of a linked device, and the used nonce. */
  ghost predicate LinkStored(s: State, t: State, req: LinkRequest, principal: int, now: int) {
    && req.nonce in s.nonces && s.creds.nextSession !in s.creds.sessions
    && var id := s.creds.nextSession;
       var row := Session(principal, LinkedFamily(req.draw), LinkedAccess(req.draw), LinkedRefresh(req.draw), 0,
                          now + 900000, now + 2592000000, None, None, false, None, NoReceipt);
       t == s.(people := t.people, nonces := s.nonces[req.nonce := s.nonces[req.nonce].(consumedAt := Some(now))],
               creds := Creds(s.creds.sessions[id := row], s.creds.byRefresh[LinkedRefresh(req.draw) := id],
                              s.creds.byRequest, id + 1))
  }

  /**
   A device is linked exactly when the console and the key are proven with an unused device nonce and
   the key is new or a usable key of that agent.
   */
  lemma LinkExactly(s: State, req: LinkRequest, now: int)
    requires Inv(s)
    ensures var (t, reply) := LinkDevice(s, req, now);
            var known := req.fingerprint in s.people.byFingerprint;
            var proven := req.authOk && HasDeviceNonce(s, req, now);
            var refused := known && s.people.byFingerprint[req.fingerprint] in s.people.principals
                           && var p := s.people.principals[s.people.byFingerprint[req.fingerprint]];
                              p.agentId != req.agentId || p.status == PrincipalRevoked || p.status == Suspended;
            && (reply == LinkRefused <==> !proven)
            && (reply.Linked? <==>
                  && proven && !refused && LinkedRefresh(req.draw) !in s.creds.byRefresh
                  && (!known ==> req.agentId in s.people.agents))
            && (!reply.Linked? ==> t == s)
            && (reply.Linked? ==>
                  && LinkStored(s, t, req, reply.principal, now) && reply.created == !known
                  && (if known then t.people == s.people && reply.principal == s.people.byFingerprint[req.fingerprint]
                      else
                        var completed := s.people.agents[req.agentId].onboarding.OnboardingCompleted?;
                        var row := Principal(req.agentId, Ed25519, req.fingerprint,
                                             if completed then Active else Limited, None);
                        && reply.principal == s.people.nextPrincipal
                        && t.people == People(s.people.agents, s.people.principals[s.people.nextPrincipal := row],
                                              s.people.nextPrincipal + 1,
                                              s.people.byFingerprint[req.fingerprint := s.people.nextPrincipal])))
  {
    if req.fingerprint in s.people.byFingerprint { assert FingerprintOk(s.people, req.fingerprint); }
    FreshSession(s.people, s.creds);
  }

  // ----------------------------------------------------------------- recovery, revocation, onboarding

  ghost predicate ActiveIdentity(people: People, agentId: int) {
    agentId in people.agents && people.agents[agentId].identityActive
  }

  /** A recovery goes through exactly when it is verified, both agents are active and the key may move. */
  lemma RecoverExactly(s: State, req: RecoveryRequest, now: int)
    ensures Recover(s, req, now).1 <==>
        && req.verified && ActiveIdentity(s.people, req.source) && ActiveIdentity(s.people, req.target)
        && req.principal in s.people.principals
        && var p := s.people.principals[req.principal];
           && p.agentId == req.source && p.keyType == Ed25519 && (p.status == Limited || p.status == Active)
           && (forall q <- s.people.principals ::
                 s.people.principals[q].agentId == req.target ==> s.people.principals[q].status != Suspended)
           && exists id <- s.creds.sessions ::
               s.creds.sessions[id].principal == req.principal && s.creds.sessions[id].revokedAt.None?
    ensures !Recover(s, req, now).1 ==> Recover(s, req, now).0 == s
  {
  }

  /** The key's row after a recovery to `target`. */
  function RecoveredKey(p: Principal, target: int, completed: bool): Principal {
    Principal(target, p.keyType, p.fingerprint, if completed then Active else Limited, p.revokedAt)
  }

  /** A recovery that keeps the source agent moves the key, flags its credentials and touches nothing else. */
  lemma RecoverLeaves(s: State, req: RecoveryRequest, now: int)
    requires Recover(s, req, now).1 && !req.abandon && req.source != req.target
    ensures var t := Recover(s, req, now).0;
            && req.target in s.people.agents && req.principal in s.people.principals
            && var target := s.people.agents[req.target];
               && t.people.agents == s.people.agents[req.target :=
                    if target.onboarding.OnboardingMissing? then target.(onboarding := OnboardingOpen) else target]
               && t.people.principals == s.people.principals[req.principal :=
                    RecoveredKey(s.people.principals[req.principal], req.target,
                                 target.onboarding.OnboardingCompleted?)]
               && t == s.(people := s.people.(agents := t.people.agents, principals := t.people.principals),
                          creds := s.creds.(sessions := t.creds.sessions))
               && t.creds.sessions.Keys == s.creds.sessions.Keys
               && forall id <- s.creds.sessions :: t.creds.sessions[id]
                   == if s.creds.sessions[id].principal == req.principal && s.creds.sessions[id].revokedAt.None?
                      then s.creds.sessions[id].(refreshRequired := true) else s.creds.sessions[id]
  {
    assert s.people.agents[req.target := s.people.agents[req.target]] == s.people.agents;
  }

  /**
   A recovery that abandons the source agent also deactivates it and revokes its other keys with their
   credentials; keys and credentials of all other agents stay as they were.
   */
  lemma AbandonLeaves(s: State, agentId: int, now: int)
    requires agentId in s.people.agents
    ensures var t := Abandon(s, agentId, now);
            && t == s.(people := s.people.(agents := t.people.agents, principals := t.people.principals),
                       creds := s.creds.(sessions := t.creds.sessions))
            && t.people.agents == s.people.agents[agentId := Agent(false, s.people.agents[agentId].onboarding)]
            && t.people.principals.Keys == s.people.principals.Keys
            && (forall p <- s.people.principals :: t.people.principals[p]
                  == if s.people.principals[p].agentId == agentId && s.people.principals[p].revokedAt.None?
                     then s.people.principals[p].(status := PrincipalRevoked, revokedAt := Some(now))
                     else s.people.principals[p])
            && t.creds.sessions.Keys == s.creds.sessions.Keys
            && (forall id <- s.creds.sessions ::
                  var row := s.creds.sessions[id];
                  t.creds.sessions[id]
                  == if row.principal in s.people.principals && s.people.principals[row.principal].agentId == agentId
                        && row.revokedAt.None? then row.(revokedAt := Some(now)) else row)
  {
  }

  /** Recovering with abandonment is recovering without it, and then abandoning the source. */
  lemma RecoverThenAbandon(s: State, req: RecoveryRequest, now: int)
    requires Recover(s, req, now).1 && req.abandon
    ensures var kept := Recover(s, req.(abandon := false), now);
            && kept.1 && req.source in kept.0.people.agents
            && Recover(s, req, now).0 == Abandon(kept.0, req.source, now)
  {
  }

  /** A device key is revoked exactly by its own agent, once, with all its credentials and no others. */
  lemma RevokeExactly(s: State, agentId: int, principal: int, now: int)
    ensures var t := RevokePrincipal(s, agentId, principal, now);
            var revokes := principal in s.people.principals && s.people.principals[principal].agentId == agentId
                           && s.people.principals[principal].keyType == Ed25519
                           && s.people.principals[principal].status != PrincipalRevoked;
            && (!revokes ==> t == s)
            && (revokes ==>
                  && t == s.(people := s.people.(principals := s.people.principals[principal :=
                               s.people.principals[principal].(status := PrincipalRevoked, revokedAt := Some(now))]),
                             creds := s.creds.(sessions := t.creds.sessions))
                  && t.creds.sessions.Keys == s.creds.sessions.Keys
                  && forall id <- s.creds.sessions :: t.creds.sessions[id]
                      == if s.creds.sessions[id].principal == principal && s.creds.sessions[id].revokedAt.None?
                         then s.creds.sessions[id].(revokedAt := Some(now)) else s.creds.sessions[id])
  {
  }

  /** Finishing onboarding activates the agent's limited, unrevoked keys and nothing else. */
  lemma CompleteOnboardingExactly(s: State, agentId: int)
    requires agentId in s.people.agents
    ensures var t := CompleteOnboarding(s, agentId);
            && t == s.(people := s.people.(agents := t.people.agents, principals := t.people.principals))
            && t.people.agents
               == s.people.agents[agentId := Agent(s.people.agents[agentId].identityActive, OnboardingCompleted)]
            && t.people.principals.Keys == s.people.principals.Keys
            && forall p <- s.people.principals ::
                var row := s.people.principals[p];
                t.people.principals[p]
                == if row.agentId == agentId && row.status == Limited && row.revokedAt.None?
                   then row.(status := Active) else row
  {
  }
}
