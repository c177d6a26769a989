/** What the invariant of `Credentials` means: families are chains, retries agree, reuse is final. */
module CredentialChains {
  import opened Common
  import opened IdentityState
  import opened Credentials

  // ----------------------------------------------------------------- one chain per family

  /**
   `chain` lists exactly the sessions of `family`, each replaced by the next and by nothing else,
   with rotation counters 0, 1, 2, ... and one principal; only the last may be unrevoked.
   */
  ghost predicate IsChain(s: State, family: Family, chain: seq<int>) {
    && (forall i | 0 <= i < |chain| :: chain[i] in s.creds.sessions)
    && (forall i | 0 <= i < |chain| ::
          && s.creds.sessions[chain[i]].family == family
          && s.creds.sessions[chain[i]].counter == i
          && s.creds.sessions[chain[i]].principal == s.creds.sessions[chain[0]].principal)
    && (forall i | 0 <= i < |chain| - 1 ::
          s.creds.sessions[chain[i]].replacedBy == Some(chain[i + 1]) && s.creds.sessions[chain[i]].revokedAt.Some?)
    && (|chain| > 0 ==> s.creds.sessions[chain[|chain| - 1]].replacedBy.None?)
    && (forall id <- s.creds.sessions :: s.creds.sessions[id].family == family ==> id in chain)
  }

  /** The sessions from the first of the family of `token` up to the session of `token`. */
  ghost function ChainTo(s: State, token: RefreshToken): seq<int>
    requires Inv(s) && token in s.creds.byRefresh
  {
    assert TokenOk(s.creds, token) && RowOk(s.people, s.creds, s.creds.byRefresh[token]);
    match token
    case RotatedRefresh(rotation) => ChainTo(s, rotation.token) + [s.creds.byRefresh[token]]
    case _ => [s.creds.byRefresh[token]]
  }

  lemma {:induction false} SameDepthSameSession(s: State, a: RefreshToken, b: RefreshToken)
    requires Inv(s) && a in s.creds.byRefresh && b in s.creds.byRefresh
    requires Root(a) == Root(b) && Depth(a) == Depth(b)
    ensures a == b
  {
    assert TokenOk(s.creds, a) && TokenOk(s.creds, b) && RowOk(s.people, s.creds, s.creds.byRefresh[a])
        && RowOk(s.people, s.creds, s.creds.byRefresh[b]);
    if a.RotatedRefresh? {
      SameDepthSameSession(s, a.rotation.token, b.rotation.token);
      assert s.creds.byRefresh[a] == s.creds.byRefresh[b];
    }
  }

  lemma {:induction false} ChainToLinks(s: State, token: RefreshToken)
    requires Inv(s) && token in s.creds.byRefresh
    ensures var c := ChainTo(s, token);
            && |c| == Depth(token) + 1
            && c[Depth(token)] == s.creds.byRefresh[token]
            && (forall i | 0 <= i < |c| :: c[i] in s.creds.sessions)
            && (forall i | 0 <= i < |c| ::
                  && s.creds.sessions[c[i]].family == Root(token)
                  && s.creds.sessions[c[i]].counter == i
                  && s.creds.sessions[c[i]].principal == s.creds.sessions[s.creds.byRefresh[token]].principal)
            && (forall i | 0 <= i < |c| - 1 ::
                  s.creds.sessions[c[i]].replacedBy == Some(c[i + 1]) && s.creds.sessions[c[i]].revokedAt.Some?)
  {
    assert TokenOk(s.creds, token) && RowOk(s.people, s.creds, s.creds.byRefresh[token]);
    if token.RotatedRefresh? {
      var parent := token.rotation.token;
      ChainToLinks(s, parent);
      assert RowOk(s.people, s.creds, s.creds.byRefresh[parent]) && TokenOk(s.creds, parent);
    }
  }

  /** Every session of the family that is not deeper than `token` lies on the chain to `token`. */
  lemma {:induction false} ChainToCovers(s: State, token: RefreshToken, id: int)
    requires Inv(s) && token in s.creds.byRefresh && id in s.creds.sessions
    requires s.creds.sessions[id].family == Root(token) && s.creds.sessions[id].counter <= Depth(token)
    ensures id in ChainTo(s, token)
  {
    assert RowOk(s.people, s.creds, id) && TokenOk(s.creds, token)
        && RowOk(s.people, s.creds, s.creds.byRefresh[token]);
    if s.creds.sessions[id].counter == Depth(token) {
      SameDepthSameSession(s, s.creds.sessions[id].refresh, token);
      assert ChainTo(s, token)[|ChainTo(s, token)| - 1] == id;
    } else {
      ChainToCovers(s, token.rotation.token, id);
    }
  }

  /** A finite non-empty family has a deepest session. */
  lemma {:induction false} DeepestSession(rows: map<int, Session>, ids: set<int>) returns (last: int)
    requires ids != {} && ids <= rows.Keys
    ensures last in ids
    ensures forall id <- ids :: rows[id].counter <= rows[last].counter
    decreases |ids|
  {
    last := AnyMember(ids);
    if ids != {last} {
      var other := DeepestSession(rows, ids - {last});
      if rows[last].counter < rows[other].counter { last := other; }
    }
  }

  /** In every state satisfying the invariant, each family of sessions is one chain. */
  lemma FamilyIsOneChain(s: State, family: Family)
    requires Inv(s)
    ensures exists chain :: IsChain(s, family, chain)
  {
    var ids := set id | id in s.creds.sessions && s.creds.sessions[id].family == family;
    if ids == {} {
      assert forall id <- s.creds.sessions :: id !in ids;
      assert IsChain(s, family, []);
    } else {
      var last := DeepestSession(s.creds.sessions, ids);
      assert RowOk(s.people, s.creds, last);
      var token := s.creds.sessions[last].refresh;
      var chain := ChainTo(s, token);
      ChainToLinks(s, token);
      assert s.creds.sessions[last].replacedBy.Some? ==>
          RowOk(s.people, s.creds, s.creds.sessions[last].replacedBy.value);
      forall id <- s.creds.sessions | s.creds.sessions[id].family == family ensures id in chain {
        assert id in ids;
        ChainToCovers(s, token, id);
      }
      assert IsChain(s, family, chain);
    }
  }

  /** At most one session of a family is unrevoked, and that one is the last of the chain. */
  lemma AtMostOneLiveSession(s: State, a: int, b: int)
    requires Inv(s) && a in s.creds.sessions && b in s.creds.sessions
    requires s.creds.sessions[a].family == s.creds.sessions[b].family
    requires s.creds.sessions[a].revokedAt.None?
    ensures s.creds.sessions[a].replacedBy.None? && s.creds.sessions[b].counter <= s.creds.sessions[a].counter
    ensures s.creds.sessions[b].revokedAt.None? ==> a == b
  {
    var family := s.creds.sessions[a].family;
    FamilyIsOneChain(s, family);
    var chain :| IsChain(s, family, chain);
    var i :| 0 <= i < |chain| && chain[i] == a;
    var j :| 0 <= j < |chain| && chain[j] == b;
    assert i == |chain| - 1;
  }

  // ----------------------------------------------------------------- reuse is final

  /** A family that was issued and of which every session is revoked. */
  ghost predicate Dead(s: State, family: Family) {
    && FirstToken(family) in s.creds.byRefresh
    && forall id <- s.creds.sessions :: s.creds.sessions[id].family == family ==> s.creds.sessions[id].revokedAt.Some?
  }

  lemma {:induction false} RootIsIndexed(s: State, token: RefreshToken)
    requires Inv(s) && token in s.creds.byRefresh
    ensures FirstToken(Root(token)) in s.creds.byRefresh
  {
    assert TokenOk(s.creds, token) && RowOk(s.people, s.creds, s.creds.byRefresh[token]);
    if token.RotatedRefresh? { RootIsIndexed(s, token.rotation.token); }
  }

  /** Whatever reports reuse has killed the whole family of the presented token. */
  lemma ReuseKillsFamily(s: State, req: RefreshRequest, now: int)
    requires Inv(s) && Refresh(s, req, now).1 == Reuse
    ensures req.token in s.creds.byRefresh && Dead(Refresh(s, req, now).0, Root(req.token))
  {
    assert TokenOk(s.creds, req.token) && RowOk(s.people, s.creds, s.creds.byRefresh[req.token]);
    RootIsIndexed(s, req.token);
  }

  lemma ChallengeReuseKillsFamily(s: State, token: RefreshToken, requestId: string, nonce: string, now: int)
    requires Inv(s) && Challenge(s, token, requestId, nonce, now).1 == ChallengeReuse
    ensures token in s.creds.byRefresh && Dead(Challenge(s, token, requestId, nonce, now).0, Root(token))
  {
    assert TokenOk(s.creds, token) && RowOk(s.people, s.creds, s.creds.byRefresh[token]);
    RootIsIndexed(s, token);
  }

  /** No refresh of a dead family succeeds, and none brings it back. */
  lemma DeadFamilyStaysDead(s: State, family: Family, req: RefreshRequest, now: int)
    requires Inv(s) && Dead(s, family)
    ensures Dead(Refresh(s, req, now).0, family)
    ensures Root(req.token) == family ==> !Refresh(s, req, now).1.Issued?
  {
    var plan := PlanRefresh(s, req, now);
    if !plan.Refuse? {
      var id := s.creds.byRefresh[req.token];
      assert TokenOk(s.creds, req.token) && RowOk(s.people, s.creds, id);
      if plan.Replay? { assert RowOk(s.people, s.creds, plan.next); }
    }
  }

  lemma ProvisionKeepsDead(s: State, family: Family, req: ProvisionRequest, now: int)
    requires Inv(s) && Dead(s, family)
    ensures Dead(Provision(s, req, now).0, family)
  {
    FreshSession(s.people, s.creds);
  }

  lemma LinkKeepsDead(s: State, family: Family, req: LinkRequest, now: int)
    requires Inv(s) && Dead(s, family)
    ensures Dead(LinkDevice(s, req, now).0, family)
  {
    FreshSession(s.people, s.creds);
  }

  // ----------------------------------------------------------------- retries

  /** Session `next` is the still usable product of rotating `token`. */
  ghost predicate UnusedSuccessor(s: State, token: RefreshToken, next: int, now: int) {
    && token in s.creds.byRefresh && s.creds.byRefresh[token] in s.creds.sessions
    && s.creds.sessions[s.creds.byRefresh[token]].replacedBy == Some(next)
    && next in s.creds.sessions
    && s.creds.sessions[next].revokedAt.None?
    && s.creds.sessions[next].replacedBy.None?
    && s.creds.sessions[next].absoluteExpiresAt > now
  }

  /**
   A retry of the rotation (same token, key and request id, usable nonce) returns the same
   session, with the tokens whose hashes that session stores, and revokes nothing.
   */
  lemma RetryReturnsSuccessor(s: State, req: RefreshRequest, next: int, now: int)
    requires Inv(s) && RefreshChecks(s, req) && UnusedSuccessor(s, req.token, next, now)
    requires s.creds.sessions[s.creds.byRefresh[req.token]].refreshRequired ==> req.cliOk
    requires s.creds.sessions[next].requestId == Some(req.requestId)
    requires NonceUsable(s, req.nonce, req.fingerprint, now)
    ensures var (t, reply) := Refresh(s, req, now);
            && reply.Issued? && reply.session == next
            && reply.access == s.creds.sessions[next].access && reply.refresh == s.creds.sessions[next].refresh
            && reply.family == s.creds.sessions[next].family && reply.principal == s.creds.sessions[next].principal
            && t.creds.sessions == s.creds.sessions[next := s.creds.sessions[next].(refreshRequired := false)]
            && t.nonces == s.nonces[req.nonce := s.nonces[req.nonce].(consumedAt := Some(now))]
            && t.creds.byRefresh == s.creds.byRefresh && t.people.principals == s.people.principals
            && t.people.agents == s.people.agents
  {
    var id := s.creds.byRefresh[req.token];
    assert TokenOk(s.creds, req.token) && RowOk(s.people, s.creds, id) && RowOk(s.people, s.creds, next);
  }

  /**
   Once the key, identity, principal and CLI checks pass, presenting a replaced token revokes the
   whole family unless it repeats the very request whose successor is still live and unreplaced.
   */
  lemma ReplacedTokenUse(s: State, req: RefreshRequest, now: int)
    requires Inv(s) && RefreshChecks(s, req)
    requires var prior := s.creds.sessions[s.creds.byRefresh[req.token]];
             prior.replacedBy.Some? && (prior.refreshRequired ==> req.cliOk)
    ensures var next := s.creds.sessions[s.creds.byRefresh[req.token]].replacedBy.value;
            && next in s.creds.sessions
            && (Refresh(s, req, now).1 == Reuse <==>
                  !(s.creds.sessions[next].revokedAt.None? && s.creds.sessions[next].replacedBy.None?
                    && s.creds.sessions[next].requestId == Some(req.requestId)))
    ensures Refresh(s, req, now).1 == Reuse ==> Dead(Refresh(s, req, now).0, Root(req.token))
    ensures Refresh(s, req, now).1 != Reuse ==>
              forall id <- s.creds.sessions ::
                  Refresh(s, req, now).0.creds.sessions[id].revokedAt == s.creds.sessions[id].revokedAt
  {
    var id := s.creds.byRefresh[req.token];
    assert TokenOk(s.creds, req.token) && RowOk(s.people, s.creds, id)
        && RowOk(s.people, s.creds, s.creds.sessions[id].replacedBy.value);
    if Refresh(s, req, now).1 == Reuse { ReuseKillsFamily(s, req, now); }
  }
}
