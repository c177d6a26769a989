/**
 Account recovery: a console session that has verified the email of an older agent moves its device
 key to that agent, and gives up the agent it came from when that one has no email of its own.
 */
module AccountRecovery {
  import opened Common
  import opened IdentityState
  import opened Credentials
  import opened AccountSwitch

  /**
   `verified` stands for the pending recovery row of this console session and the checks of the email
   bindings; `abandon` is the disposition of the source agent they establish.
   */
  datatype RecoveryRequest = RecoveryRequest(principal: int, source: int, target: int, abandon: bool, verified: bool)

  predicate ActiveAgent(people: People, agentId: int) {
    agentId in people.agents && people.agents[agentId].identityActive
  }

  predicate HasSuspended(people: People, agentId: int) {
    exists p <- people.principals ::
        people.principals[p].agentId == agentId && people.principals[p].status == Suspended
  }

  predicate HasUnrevoked(c: Creds, principal: int) {
    exists id <- c.sessions :: c.sessions[id].principal == principal && c.sessions[id].revokedAt.None?
  }

  predicate MayRecover(s: State, req: RecoveryRequest) {
    && req.verified && ActiveAgent(s.people, req.source) && ActiveAgent(s.people, req.target)
    && req.principal in s.people.principals
    && var p := s.people.principals[req.principal];
       && p.agentId == req.source && p.keyType == Ed25519 && Usable(p)
       && !HasSuspended(s.people, req.target) && HasUnrevoked(s.creds, req.principal)
  }

  /** UPDATE agent_principals SET status = 'revoked' WHERE agent_id = agentId AND revoked_at IS NULL. */
  function RevokeKeysOf(principals: map<int, Principal>, agentId: int, now: int): (r: map<int, Principal>)
    ensures r.Keys == principals.Keys
  {
    map p | p in principals ::
      if principals[p].agentId == agentId && principals[p].revokedAt.None?
      then principals[p].(status := PrincipalRevoked, revokedAt := Some(now))
      else principals[p]
  }

  /** UPDATE agent_credential_sessions SET revoked_at for every session of the agent's principals. */
  function RevokeSessionsOf(s: State, agentId: int, now: int): (r: map<int, Session>)
    ensures r.Keys == s.creds.sessions.Keys
  {
    map id | id in s.creds.sessions ::
      var row := s.creds.sessions[id];
      if row.principal in s.people.principals && s.people.principals[row.principal].agentId == agentId
      then row.(revokedAt := Coalesce(row.revokedAt, now))
      else row
  }

  /** The agent, its remaining keys and their credentials are given up. */
  function Abandon(s: State, agentId: int, now: int): State
    requires agentId in s.people.agents
  {
    s.(creds := s.creds.(sessions := RevokeSessionsOf(s, agentId, now)),
       people := s.people.(principals := RevokeKeysOf(s.people.principals, agentId, now),
                           agents := s.people.agents[agentId := s.people.agents[agentId].(identityActive := false)]))
  }

  /** confirmAccountRecovery */
  function Recover(s: State, req: RecoveryRequest, now: int): (State, bool) {
    if !MayRecover(s, req) then (s, false)
    else
      var ready := s.(people := s.people.(agents := EnsureOnboarding(s.people.agents, req.target)));
      var moved := MovePrincipal(ready, req.principal, req.target);
      (if req.abandon then Abandon(moved, req.source, now) else moved, true)
  }

  /** What is still bound to an abandoned agent is revoked. */
  lemma AbandonedIsRevoked(s: State, req: RecoveryRequest, now: int, id: int)
    requires Recover(s, req, now).1 && req.abandon && id in s.creds.sessions
    requires var u := Recover(s, req, now).0;
             var p := u.creds.sessions[id].principal;
             p in u.people.principals && u.people.principals[p].agentId == req.source
    ensures Recover(s, req, now).0.creds.sessions[id].revokedAt.Some?
    ensures Recover(s, req, now).0.people.principals[s.creds.sessions[id].principal].revokedAt.Some?
  {
  }
}
