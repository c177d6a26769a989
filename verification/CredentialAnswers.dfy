/**
 When a credential is accepted, challenged, rotated, refused or revoked, and what each answer leaves
 in the tables.
 */
module CredentialAnswers {
  import opened Common
  import opened IdentityState
  import opened Credentials
  import opened CredentialChains

  // ----------------------------------------------------------------- access

  /** A session is accepted exactly when it, its key and its agent are in order, it is fresh and unexpired. */
  lemma AcceptedExactly(s: State, id: int, now: int)
    ensures Accepted(s, id, now) <==>
        && id != 0 && id in s.creds.sessions
        && var row := s.creds.sessions[id];
           && row.revokedAt.None? && !row.refreshRequired && now < row.expiresAt
           && row.principal in s.people.principals
           && var p := s.people.principals[row.principal];
              && p.revokedAt.None? && (p.status == Limited || p.status == Active)
              && p.agentId != 0 && p.agentId in s.people.agents && s.people.agents[p.agentId].identityActive
  {
  }

  /** The reason given is the first that applies. */
  lemma RejectionExactly(row: AccessRow, now: int)
    ensures var r := AccessRejectionReason(row, now);
            var found := row.sessionId != 0 && row.agentId != 0;
            var audience := found && row.audience == "agent_v2";
            var live := audience && row.revokedAt.None?;
            var key := live && row.principalRevokedAt.None?;
            var usable := key && (row.status == Limited || row.status == Active);
            var identity := usable && row.identityActive;
            && (r == Some(CredentialNotFound) <==> !found)
            && (r == Some(AudienceInvalid) <==> found && !audience)
            && (r == Some(CredentialRevoked) <==> audience && !live)
            && (r == Some(PrincipalIsRevoked) <==> live && !key)
            && (r == Some(PrincipalInactive) <==> key && !usable)
            && (r == Some(IdentityInactive) <==> usable && !identity)
            && (r == Some(AccessRefreshRequired) <==> identity && row.refreshRequired)
            && (r == Some(AccessExpired) <==> identity && !row.refreshRequired && row.expiresAt <= now)
            && (r == None <==> identity && !row.refreshRequired && now < row.expiresAt)
  {
  }

  // ----------------------------------------------------------------- presenting a refresh token

  /** Session `id` holds the token, and its key and agent are in order. */
  ghost predicate Holds(s: State, token: RefreshToken, id: int) {
    && id in s.creds.sessions && s.creds.sessions[id].refresh == token
    && s.creds.sessions[id].principal in s.people.principals
    && var p := s.people.principals[s.creds.sessions[id].principal];
       && p.revokedAt.None? && (p.status == Limited || p.status == Active)
       && p.agentId in s.people.agents && s.people.agents[p.agentId].identityActive
  }

  function KeyOf(s: State, id: int): string
    requires id in s.creds.sessions && s.creds.sessions[id].principal in s.people.principals
  {
    s.people.principals[s.creds.sessions[id].principal].fingerprint
  }

  /** The request proves possession of the key of the session that holds its token. */
  ghost predicate Presents(s: State, req: RefreshRequest, id: int) {
    Holds(s, req.token, id) && req.proofOk && KeyOf(s, id) == req.fingerprint
  }

  /** At most one session holds a token, and it is the one the unique index finds. */
  lemma HolderIsIndexed(s: State, token: RefreshToken, id: int)
    requires Inv(s) && id in s.creds.sessions && s.creds.sessions[id].refresh == token
    ensures token in s.creds.byRefresh && s.creds.byRefresh[token] == id
  {
    assert RowOk(s.people, s.creds, id);
  }

  lemma ChecksExactly(s: State, req: RefreshRequest)
    requires Inv(s)
    ensures RefreshChecks(s, req) <==> exists id :: Presents(s, req, id)
    ensures forall id :: Presents(s, req, id) ==> req.token in s.creds.byRefresh && s.creds.byRefresh[req.token] == id
  {
    forall id | Presents(s, req, id) ensures req.token in s.creds.byRefresh && s.creds.byRefresh[req.token] == id {
      HolderIsIndexed(s, req.token, id);
    }
    if RefreshChecks(s, req) {
      assert TokenOk(s.creds, req.token);
      assert Presents(s, req, s.creds.byRefresh[req.token]);
    }
  }

  /** An unused refresh nonce of the key. */
  ghost predicate HasNonce(s: State, nonce: string, fingerprint: string, now: int) {
    && nonce in s.nonces
    && var n := s.nonces[nonce];
       n.domain == RefreshNonce && n.fingerprint == fingerprint && n.consumedAt.None? && now <= n.expiresAt
  }

  /** The principal has no session for this request id. */
  ghost predicate NewRequest(s: State, principal: int, requestId: string) {
    forall id <- s.creds.sessions ::
        !(s.creds.sessions[id].principal == principal && s.creds.sessions[id].requestId == Some(requestId))
  }

  lemma NewRequestIsFree(s: State, principal: int, requestId: string)
    requires Inv(s)
    ensures NewRequest(s, principal, requestId) <==> (principal, requestId) !in s.creds.byRequest
  {
    var k := (principal, requestId);
    if k in s.creds.byRequest {
      assert RequestOk(s.creds, k);
      var id := s.creds.byRequest[k];
      assert s.creds.sessions[id].principal == principal && s.creds.sessions[id].requestId == Some(requestId);
    } else {
      forall id <- s.creds.sessions
        ensures !(s.creds.sessions[id].principal == principal && s.creds.sessions[id].requestId == Some(requestId)) {
        assert RowOk(s.people, s.creds, id) && Indexed(s.creds, id, s.creds.sessions[id]);
      }
      assert NewRequest(s, principal, requestId);
    }
  }

  lemma SuccessorHasParent(s: State, rotation: Rotation)
    requires Inv(s) && RotatedRefresh(rotation) in s.creds.byRefresh
    ensures rotation.token in s.creds.byRefresh && s.creds.byRefresh[rotation.token] in s.creds.sessions
    ensures s.creds.sessions[s.creds.byRefresh[rotation.token]].replacedBy.Some?
  {
    assert TokenOk(s.creds, RotatedRefresh(rotation));
    assert RowOk(s.people, s.creds, s.creds.byRefresh[RotatedRefresh(rotation)]);
  }

  /** An unreplaced session has no successor in the index. */
  lemma SuccessorIsFree(s: State, id: int, rotation: Rotation)
    requires Inv(s) && id in s.creds.sessions && s.creds.sessions[id].refresh == rotation.token
    requires s.creds.sessions[id].replacedBy.None?
    ensures RotatedRefresh(rotation) !in s.creds.byRefresh
  {
    HolderIsIndexed(s, rotation.token, id);
    if RotatedRefresh(rotation) in s.creds.byRefresh { SuccessorHasParent(s, rotation); }
  }

  // ----------------------------------------------------------------- rotation

  /** The token is current: neither replaced nor revoked nor expired. */
  ghost predicate CurrentToken(row: Session, now: int) {
    row.replacedBy.None? && row.revokedAt.None? && now < row.absoluteExpiresAt
  }

  ghost predicate MayRotate(s: State, req: RefreshRequest, id: int, now: int) {
    && Presents(s, req, id) && CurrentToken(s.creds.sessions[id], now)
    && (s.creds.sessions[id].refreshRequired ==> req.cliOk)
    && HasNonce(s, req.nonce, req.fingerprint, now)
    && NewRequest(s, s.creds.sessions[id].principal, req.requestId)
  }

  /** The tables after session `id` was rotated: its row closed, one new row, one used nonce. */
  ghost predicate Rotated(s: State, t: State, req: RefreshRequest, id: int, now: int) {
    && id in s.creds.sessions && req.nonce in s.nonces && s.creds.nextSession !in s.creds.sessions
    && var prior, next, r := s.creds.sessions[id], s.creds.nextSession,
           Rotation(req.token, req.fingerprint, req.requestId);
       && t == s.(nonces := s.nonces[req.nonce := s.nonces[req.nonce].(consumedAt := Some(now))],
                  creds := Creds(t.creds.sessions, s.creds.byRefresh[RotatedRefresh(r) := next],
                                 s.creds.byRequest[(prior.principal, req.requestId) := next], next + 1))
       && t.creds.sessions == s.creds.sessions[id := prior.(revokedAt := Some(now), replacedBy := Some(next))]
            [next := Session(prior.principal, prior.family, RotatedAccess(r), RotatedRefresh(r), prior.counter + 1,
                             now + 900000, now + 2592000000, None, None, false, Some(req.requestId),
                             RotationReceipt(r))]
  }

  lemma RotatesWhen(s: State, req: RefreshRequest, id: int, now: int)
    requires Inv(s) && MayRotate(s, req, id, now)
    ensures var (t, reply) := Refresh(s, req, now);
            && Rotated(s, t, req, id, now)
            && var prior, r := s.creds.sessions[id], Rotation(req.token, req.fingerprint, req.requestId);
               reply == Issued(s.people.principals[prior.principal].agentId, prior.principal, s.creds.nextSession,
                               prior.family, RotatedAccess(r), RotatedRefresh(r), now + 900000)
  {
    ChecksExactly(s, req);
    NewRequestIsFree(s, s.creds.sessions[id].principal, req.requestId);
    SuccessorIsFree(s, id, Rotation(req.token, req.fingerprint, req.requestId));
    FreshSession(s.people, s.creds);
  }

  /**
   A refresh rotates exactly when it presents a current token with its key, an unused nonce and a new
   request id. Access then lasts 15 minutes and the new token 30 days.
   */
  lemma RefreshRotatesExactly(s: State, req: RefreshRequest, now: int)
    requires Inv(s)
    ensures PlanRefresh(s, req, now).Rotate? <==> exists id :: MayRotate(s, req, id, now)
    ensures Refresh(s, req, now).0.creds.nextSession != s.creds.nextSession <==> exists id :: MayRotate(s, req, id, now)
    ensures forall id :: MayRotate(s, req, id, now) ==> Rotated(s, Refresh(s, req, now).0, req, id, now)
  {
    ChecksExactly(s, req);
    forall id | MayRotate(s, req, id, now)
      ensures PlanRefresh(s, req, now).Rotate? && Rotated(s, Refresh(s, req, now).0, req, id, now) {
      NewRequestIsFree(s, s.creds.sessions[id].principal, req.requestId);
      SuccessorIsFree(s, id, Rotation(req.token, req.fingerprint, req.requestId));
      RotatesWhen(s, req, id, now);
    }
    if PlanRefresh(s, req, now).Rotate? {
      var id := s.creds.byRefresh[req.token];
      NewRequestIsFree(s, s.creds.sessions[id].principal, req.requestId);
      assert MayRotate(s, req, id, now);
    }
  }

  /** A live token is never stuck: with a drawn nonce the challenge answers, and the refresh rotates. */
  lemma LiveTokenRotates(s: State, req: RefreshRequest, id: int, now: int, t: int)
    requires Inv(s) && Presents(s, req, id) && CurrentToken(s.creds.sessions[id], t)
    requires (s.creds.sessions[id].refreshRequired ==> req.cliOk) && now <= t <= now + 120000
    requires req.nonce !in s.nonces && NewRequest(s, s.creds.sessions[id].principal, req.requestId)
    ensures var (s1, issued) := Challenge(s, req.token, req.requestId, req.nonce, now);
            && issued == NonceIssued(req.nonce) && Refresh(s1, req, t).1.Issued?
            && Rotated(s1, Refresh(s1, req, t).0, req, id, t)
  {
    HolderIsIndexed(s, req.token, id);
    var s1 := Challenge(s, req.token, req.requestId, req.nonce, now).0;
    ChallengeKeepsInv(s, req.token, req.requestId, req.nonce, now);
    assert MayRotate(s1, req, id, t);
    RotatesWhen(s1, req, id, t);
  }

  // ----------------------------------------------------------------- the other answers of a refresh

  /** Session `next` replaced `id` for this very request and is neither used nor revoked. */
  ghost predicate RepeatOf(s: State, req: RefreshRequest, id: int, next: int) {
    && id in s.creds.sessions && s.creds.sessions[id].replacedBy == Some(next) && next in s.creds.sessions
    && s.creds.sessions[next].revokedAt.None? && s.creds.sessions[next].replacedBy.None?
    && s.creds.sessions[next].requestId == Some(req.requestId)
  }

  lemma RepeatMatches(s: State, req: RefreshRequest, id: int)
    requires Inv(s) && Presents(s, req, id) && s.creds.sessions[id].replacedBy.Some?
    ensures var next := s.creds.sessions[id].replacedBy.value;
            && next in s.creds.sessions
            && (RotationMatches(s.creds.sessions[id], s.creds.sessions[next], req) <==> RepeatOf(s, req, id, next))
  {
    assert RowOk(s.people, s.creds, id) && RowOk(s.people, s.creds, s.creds.sessions[id].replacedBy.value);
  }

  /** A token that is not presented with its key gets no further. */
  lemma UnprovenRefresh(s: State, req: RefreshRequest, now: int)
    requires Inv(s) && forall id :: !Presents(s, req, id)
    ensures Refresh(s, req, now) == (s, RefreshInvalid)
  {
    ChecksExactly(s, req);
  }

  /** Every answer to a presented token, in the order of the checks. */
  lemma RefreshAnswersExactly(s: State, req: RefreshRequest, id: int, now: int)
    requires Inv(s) && Presents(s, req, id)
    ensures var reply, row := Refresh(s, req, now).1, s.creds.sessions[id];
            var upgrade := row.refreshRequired && !req.cliOk;
            var repeats := row.replacedBy.Some? && RepeatOf(s, req, id, row.replacedBy.value);
            var reused := if row.replacedBy.Some? then !repeats else row.revokedAt.Some?;
            var nonce := HasNonce(s, req.nonce, req.fingerprint, now);
            var over := row.replacedBy.None? && row.absoluteExpiresAt <= now;
            && (reply == CLIUpgradeRequired <==> upgrade)
            && (reply == Reuse <==> !upgrade && reused)
            && (reply == RefreshExpired <==>
                  && !upgrade && !reused
                  && (over || (repeats && nonce && s.creds.sessions[row.replacedBy.value].absoluteExpiresAt <= now)))
            && (reply == RefreshInvalid <==> !upgrade && !reused && !over && !nonce)
            && (reply == RefreshUnavailable <==>
                  && !upgrade && CurrentToken(row, now) && nonce && !NewRequest(s, row.principal, req.requestId))
            && (reply.Issued? <==>
                  || MayRotate(s, req, id, now)
                  || (!upgrade && repeats && nonce && now < s.creds.sessions[row.replacedBy.value].absoluteExpiresAt))
  {
    ChecksExactly(s, req);
    NewRequestIsFree(s, s.creds.sessions[id].principal, req.requestId);
    if s.creds.sessions[id].replacedBy.Some? {
      RepeatMatches(s, req, id);
    } else {
      SuccessorIsFree(s, id, Rotation(req.token, req.fingerprint, req.requestId));
    }
  }

  /** Every session of the family is revoked, from now on if it was not before, and nothing else changes. */
  ghost predicate FamilyRevoked(s: State, t: State, family: Family, now: int) {
    && t == s.(creds := s.creds.(sessions := t.creds.sessions)) && t.creds.sessions.Keys == s.creds.sessions.Keys
    && forall id <- s.creds.sessions :: t.creds.sessions[id]
        == if s.creds.sessions[id].family == family && s.creds.sessions[id].revokedAt.None?
           then s.creds.sessions[id].(revokedAt := Some(now)) else s.creds.sessions[id]
  }

  /** What a refresh that does not rotate leaves: a revoked family, a used nonce and cleared flag, or nothing. */
  lemma RefreshLeaves(s: State, req: RefreshRequest, id: int, now: int)
    requires Inv(s) && Presents(s, req, id)
    ensures var (t, reply) := Refresh(s, req, now);
            && (reply == Reuse ==> FamilyRevoked(s, t, s.creds.sessions[id].family, now))
            && (reply != Reuse && !reply.Issued? ==> t == s)
            && (reply.Issued? && s.creds.sessions[id].replacedBy.Some? ==>
                  && var next := s.creds.sessions[id].replacedBy.value;
                     && next in s.creds.sessions && req.nonce in s.nonces && reply.session == next
                     && reply.expiresAt == s.creds.sessions[next].expiresAt
                     && t == s.(nonces := s.nonces[req.nonce := s.nonces[req.nonce].(consumedAt := Some(now))],
                                creds := s.creds.(sessions := s.creds.sessions[next :=
                                  s.creds.sessions[next].(refreshRequired := false)])))
  {
    ChecksExactly(s, req);
  }

  // ----------------------------------------------------------------- challenges

  /** A replaced token may be challenged for the request that replaced it while its successor is of use. */
  ghost predicate SuccessorWaits(s: State, id: int, requestId: string, now: int) {
    && id in s.creds.sessions && s.creds.sessions[id].replacedBy.Some?
    && s.creds.sessions[id].replacedBy.value in s.creds.sessions
    && var row, next := s.creds.sessions[id], s.creds.sessions[s.creds.sessions[id].replacedBy.value];
       && next.requestId == Some(requestId)
       && (row.absoluteExpiresAt <= now ==>
             next.revokedAt.None? && next.replacedBy.None? && now < next.absoluteExpiresAt)
  }

  lemma SuccessorUnavailableExactly(s: State, token: RefreshToken, id: int, requestId: string)
    requires Inv(s) && Holds(s, token, id) && s.creds.sessions[id].replacedBy.Some?
    ensures s.creds.sessions[id].replacedBy.value in s.creds.sessions
    ensures var next := s.creds.sessions[s.creds.sessions[id].replacedBy.value];
            next.requestId == Some(requestId) ==>
              (SuccessorUnavailable(s.creds.sessions[id], Some(next), token, KeyOf(s, id), requestId) <==>
                 next.revokedAt.Some? || next.replacedBy.Some?)
  {
    assert RowOk(s.people, s.creds, id) && RowOk(s.people, s.creds, s.creds.sessions[id].replacedBy.value);
  }

  /**
   A challenge gives a nonce for two minutes exactly to a current token, or to a replaced one whose
   successor answers the same request; another request id for a replaced token revokes the family.
   */
  lemma ChallengeExactly(s: State, token: RefreshToken, id: int, requestId: string, nonce: string, now: int)
    requires Inv(s) && Holds(s, token, id)
    ensures var (t, reply) := Challenge(s, token, requestId, nonce, now);
            var row := s.creds.sessions[id];
            var other := row.replacedBy.Some? && row.replacedBy.value in s.creds.sessions
                         && s.creds.sessions[row.replacedBy.value].requestId != Some(requestId);
            && (reply.NonceIssued? <==>
                  nonce !in s.nonces && (CurrentToken(row, now) || SuccessorWaits(s, id, requestId, now)))
            && (reply.NonceIssued? ==>
                  && reply == NonceIssued(nonce)
                  && t == s.(nonces := s.nonces[nonce := Nonce(RefreshNonce, KeyOf(s, id), now + 120000, None)]))
            && (reply == ChallengeReuse <==> other)
            && (reply == ChallengeReuse ==> FamilyRevoked(s, t, row.family, now))
            && (reply == ChallengeUnavailable <==>
                  nonce in s.nonces && (CurrentToken(row, now) || SuccessorWaits(s, id, requestId, now)))
            && (!reply.NonceIssued? && reply != ChallengeReuse ==> t == s)
  {
    HolderIsIndexed(s, token, id);
    if s.creds.sessions[id].replacedBy.Some? { SuccessorUnavailableExactly(s, token, id, requestId); }
  }

  /** A token that no session in order holds is invalid. */
  lemma UnknownChallenge(s: State, token: RefreshToken, requestId: string, nonce: string, now: int)
    requires Inv(s) && forall id :: !Holds(s, token, id)
    ensures Challenge(s, token, requestId, nonce, now) == (s, ChallengeInvalid)
  {
    if token in s.creds.byRefresh {
      assert TokenOk(s.creds, token) && RowOk(s.people, s.creds, s.creds.byRefresh[token]);
      assert PrincipalOk(s.people, s.creds.sessions[s.creds.byRefresh[token]].principal);
      assert !Holds(s, token, s.creds.byRefresh[token]);
    }
  }

  /** A challenge tells an expired token from a revoked one. */
  lemma ExpiredChallenge(s: State, token: RefreshToken, id: int, requestId: string, nonce: string, now: int)
    requires Inv(s) && Holds(s, token, id)
    ensures var reply, row := Challenge(s, token, requestId, nonce, now).1, s.creds.sessions[id];
            reply == ChallengeExpired <==>
              || (row.replacedBy.None? && row.revokedAt.None? && row.absoluteExpiresAt <= now)
              || (row.replacedBy.Some? && row.absoluteExpiresAt <= now && row.replacedBy.value in s.creds.sessions
                  && var next := s.creds.sessions[row.replacedBy.value];
                     next.requestId == Some(requestId) && next.revokedAt.None? && next.replacedBy.None?
                     && next.absoluteExpiresAt <= now)
  {
    HolderIsIndexed(s, token, id);
    if s.creds.sessions[id].replacedBy.Some? { SuccessorUnavailableExactly(s, token, id, requestId); }
  }
}
