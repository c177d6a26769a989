/** Retries of a refresh over whole runs: one token is rotated once, and every answer agrees. */
module RetryRuns {
  import opened Common
  import opened IdentityState
  import opened Credentials
  import opened CredentialChains
  import opened AccountSwitch
  import opened AccountRecovery
  import opened IdentityRuns

  /** What any later state keeps of a session row: all but the flag, and marks once set. */
  ghost predicate LastsAt(c: Creds, d: Creds, id: int) {
    && id in c.sessions && id in d.sessions
    && var a, b := c.sessions[id], d.sessions[id];
       && b.principal == a.principal && b.family == a.family && b.access == a.access && b.refresh == a.refresh
       && b.expiresAt == a.expiresAt && b.absoluteExpiresAt == a.absoluteExpiresAt
       && b.requestId == a.requestId && b.receipt == a.receipt
       && (a.replacedBy.Some? ==> b.replacedBy == a.replacedBy)
       && (a.revokedAt.Some? ==> b.revokedAt.Some?)
  }

  ghost predicate Lasting(c: Creds, d: Creds) {
    && (forall t <- c.byRefresh :: t in d.byRefresh && d.byRefresh[t] == c.byRefresh[t])
    && (forall id {:trigger LastsAt(c, d, id)} :: id in c.sessions ==> LastsAt(c, d, id))
  }

  lemma RemarkedLasts(c: Creds, d: Creds)
    requires RemarkedAll(c, d)
    ensures Lasting(c, d)
  {
    forall id <- c.sessions ensures LastsAt(c, d, id) { assert RemarkedAt(c, d, id); }
  }

  lemma InsertedLasts(p: People, c: Creds, row: Session)
    requires CredsOk(p, c) && CanInsert(c, row)
    ensures Lasting(c, InsertSession(c, row))
  {
    FreshSession(p, c);
    forall id <- c.sessions ensures LastsAt(c, InsertSession(c, row), id) {}
  }

  lemma ReplacedLasts(p: People, c: Creds, id: int, row: Session, now: int)
    requires CredsOk(p, c) && CanInsert(c, row) && id in c.sessions && c.sessions[id].replacedBy.None?
    ensures Lasting(c, Replace(c, id, row, now))
  {
    FreshSession(p, c);
    forall other <- c.sessions ensures LastsAt(c, Replace(c, id, row, now), other) {}
  }

  lemma RefreshLasts(s: State, req: RefreshRequest, now: int)
    requires Inv(s)
    ensures Lasting(s.creds, Refresh(s, req, now).0.creds)
  {
    match PlanRefresh(s, req, now)
    case Rotate(id) => ReplacedLasts(s.people, s.creds, id, RotatedSession(s.creds.sessions[id], req, now), now);
    case _ => RemarkedLasts(s.creds, Refresh(s, req, now).0.creds);
  }

  lemma ProvisionLasts(s: State, req: ProvisionRequest, now: int)
    requires Inv(s)
    ensures Lasting(s.creds, Provision(s, req, now).0.creds)
  {
    NothingLost(s.creds);
    match PlanProvision(s, req, now)
    case Answer(_) =>
    case ForExisting(_, principal) => InsertIfFree(s, ProvisionedSession(principal, req, now));
    case ForNew(_, _) => InsertIfFree(s, ProvisionedSession(s.people.nextPrincipal, req, now));
  }

  lemma LinkLasts(s: State, req: LinkRequest, now: int)
    requires Inv(s)
    ensures Lasting(s.creds, LinkDevice(s, req, now).0.creds)
  {
    NothingLost(s.creds);
    if LinkDevice(s, req, now).1.Linked? {
      InsertIfFree(s, LinkedSession(LinkDevice(s, req, now).1.principal, req.draw, now));
    }
  }

  lemma InsertIfFree(s: State, row: Session)
    requires Inv(s)
    ensures CanInsert(s.creds, row) ==> Lasting(s.creds, InsertSession(s.creds, row))
  {
    if CanInsert(s.creds, row) { InsertedLasts(s.people, s.creds, row); }
  }

  lemma FamilyRevokedLasts(c: Creds, family: Family, now: int)
    ensures Lasting(c, c.(sessions := RevokeFamily(c.sessions, family, now)))
  {
    var d := c.(sessions := RevokeFamily(c.sessions, family, now));
    forall id <- c.sessions ensures LastsAt(c, d, id) {}
  }

  lemma ChallengeLasts(s: State, token: RefreshToken, requestId: string, nonce: string, now: int)
    ensures Lasting(s.creds, Challenge(s, token, requestId, nonce, now).0.creds)
  {
    NothingLost(s.creds);
    if Challenge(s, token, requestId, nonce, now).1.ChallengeReuse? {
      FamilyRevokedLasts(s.creds, s.creds.sessions[s.creds.byRefresh[token]].family, now);
    }
  }

  lemma RevokePrincipalLasts(s: State, agentId: int, principal: int, now: int)
    ensures Lasting(s.creds, RevokePrincipal(s, agentId, principal, now).creds)
  {
    var t := RevokePrincipal(s, agentId, principal, now);
    forall id <- s.creds.sessions ensures LastsAt(s.creds, t.creds, id) {}
  }

  lemma NothingLost(c: Creds)
    ensures Lasting(c, c)
  {
    forall id <- c.sessions ensures LastsAt(c, c, id) {}
  }

  lemma StepLasts(s: State, e: Event)
    requires Good(s)
    ensures Lasting(s.creds, Step(s, e).creds)
  {
    match e.op
    case OpProvision(req) => ProvisionLasts(s, req, e.now);
    case OpRefresh(req) => RefreshLasts(s, req, e.now);
    case OpChallenge(token, requestId, nonce) => ChallengeLasts(s, token, requestId, nonce, e.now);
    case OpRevokePrincipal(agentId, principal) => RevokePrincipalLasts(s, agentId, principal, e.now);
    case OpCompleteOnboarding(_) => NothingLost(s.creds);
    case OpSetAgent(_, _) => NothingLost(s.creds);
    case OpIssueGrant(_, _) => NothingLost(s.creds);
    case OpDeviceChallenge(_, _, _, _, _) => NothingLost(s.creds);
    case OpLinkDevice(req) => LinkLasts(s, req, e.now);
    case _ =>
      SwitchOpFlags(s, e);
      RemarkedLasts(s.creds, Step(s, e).creds);
  }

  lemma LastingTransitive(c: Creds, d: Creds, e: Creds)
    requires Lasting(c, d) && Lasting(d, e)
    ensures Lasting(c, e)
  {
    forall id <- c.sessions ensures LastsAt(c, e, id) { assert LastsAt(c, d, id) && LastsAt(d, e, id); }
  }

  lemma {:induction false} LastsUntil(events: seq<Event>, i: nat, j: nat)
    requires i <= j <= |events|
    ensures Lasting(Before(events, i).creds, Before(events, j).creds)
    decreases j - i
  {
    if i == j {
      NothingLost(Before(events, i).creds);
    } else {
      BeforeNext(events, i);
      StepLasts(Before(events, i), events[i]);
      LastsUntil(events, i + 1, j);
      LastingTransitive(Before(events, i).creds, Before(events, i + 1).creds, Before(events, j).creds);
    }
  }

  /** The session that replaced `token`, with what an issued answer said about it. */
  ghost predicate Answered(c: Creds, req: RefreshRequest, reply: RefreshReply) {
    && reply.Issued?
    && req.token in c.byRefresh && c.byRefresh[req.token] in c.sessions
    && c.sessions[c.byRefresh[req.token]].replacedBy == Some(reply.session)
    && reply.session in c.sessions
    && var row := c.sessions[reply.session];
       && row.principal == reply.principal && row.family == reply.family && row.expiresAt == reply.expiresAt
       && row.access == reply.access && row.refresh == reply.refresh
       && row.requestId == Some(req.requestId)
       && row.receipt == RotationReceipt(Rotation(req.token, req.fingerprint, req.requestId))
  }

  /** An issued refresh leaves its answer in the tables, whether it rotated or replayed. */
  lemma IssuedIsStored(s: State, req: RefreshRequest, now: int)
    requires Inv(s) && Refresh(s, req, now).1.Issued?
    ensures Answered(Refresh(s, req, now).0.creds, req, Refresh(s, req, now).1)
  {
    match PlanRefresh(s, req, now)
    case Rotate(id) => FreshSession(s.people, s.creds);
    case Replay(next) =>
      assert RowOk(s.people, s.creds, next) && RowOk(s.people, s.creds, s.creds.byRefresh[req.token]);
    case _ =>
  }

  /** A stored answer stays stored. */
  lemma AnswerLasts(c: Creds, d: Creds, req: RefreshRequest, reply: RefreshReply)
    requires Answered(c, req, reply) && Lasting(c, d)
    ensures Answered(d, req, reply)
  {
    assert LastsAt(c, d, c.byRefresh[req.token]) && LastsAt(c, d, reply.session);
  }

  /** The answer to a refresh event. */
  function RefreshAnswer(s: State, e: Event): RefreshReply {
    if e.op.OpRefresh? then Refresh(s, e.op.refresh, e.now).1 else RefreshInvalid
  }

  lemma RefreshEvent(events: seq<Event>, i: nat)
    requires i < |events| && events[i].op.OpRefresh?
    ensures Before(events, i + 1) == Refresh(Before(events, i), events[i].op.refresh, events[i].now).0
    ensures Inv(Before(events, i))
  {
    BeforeNext(events, i);
  }

  lemma AnswerIsThere(events: seq<Event>, i: nat, j: nat)
    requires i < j <= |events| && RefreshAnswer(Before(events, i), events[i]).Issued?
    ensures events[i].op.OpRefresh?
    ensures Answered(Before(events, j).creds, events[i].op.refresh, RefreshAnswer(Before(events, i), events[i]))
  {
    RefreshEvent(events, i);
    IssuedIsStored(Before(events, i), events[i].op.refresh, events[i].now);
    LastsUntil(events, i + 1, j);
    AnswerLasts(Before(events, i + 1).creds, Before(events, j).creds, events[i].op.refresh,
                RefreshAnswer(Before(events, i), events[i]));
  }

  /**
   In every run, whatever happens in between, any two successful refreshes with one token are one
   rotation: same key and request id, and the same session, tokens, expiry, family and principal.
   */
  lemma RetriesAllAgree(events: seq<Event>, i: nat, j: nat)
    requires i < j < |events|
    requires RefreshAnswer(Before(events, i), events[i]).Issued? && RefreshAnswer(Before(events, j), events[j]).Issued?
    requires events[j].op.refresh.token == events[i].op.refresh.token
    ensures events[j].op.refresh.requestId == events[i].op.refresh.requestId
    ensures events[j].op.refresh.fingerprint == events[i].op.refresh.fingerprint
    ensures var first, again := RefreshAnswer(Before(events, i), events[i]),
        RefreshAnswer(Before(events, j), events[j]);
            && again.session == first.session && again.principal == first.principal && again.family == first.family
            && again.access == first.access && again.refresh == first.refresh && again.expiresAt == first.expiresAt
  {
    AnswerIsThere(events, i, j);
    BeforeNext(events, j);
  }

  /** What a retry leaves as it was: every row but the refresh flag, and every nonce but its own. */
  ghost predicate OnlyNonceUsed(s: State, t: State, nonce: string) {
    && t.creds.sessions.Keys == s.creds.sessions.Keys
    && (forall id <- s.creds.sessions ::
          t.creds.sessions[id].(refreshRequired := false) == s.creds.sessions[id].(refreshRequired := false))
    && t.nonces.Keys == s.nonces.Keys
    && (forall n <- s.nonces :: n != nonce ==> t.nonces[n] == s.nonces[n])
  }

  /** Everything but the successor's request id that a retry of the rotation to `next` needs. */
  ghost predicate MayRetry(s: State, req: RefreshRequest, next: int, now: int) {
    && RefreshChecks(s, req) && NonceUsable(s, req.nonce, req.fingerprint, now)
    && (s.creds.sessions[s.creds.byRefresh[req.token]].refreshRequired ==> req.cliOk)
    && UnusedSuccessor(s, req.token, next, now)
  }

  predicate SameAnswer(a: RefreshReply, b: RefreshReply) {
    && a.Issued? && b.Issued? && a.session == b.session && a.expiresAt == b.expiresAt
    && a.access == b.access && a.refresh == b.refresh && a.principal == b.principal && a.family == b.family
  }

  /** Where an earlier answer is stored, a retry gets it again. */
  lemma RetryAgrees(s: State, first: RefreshRequest, reply: RefreshReply, req: RefreshRequest, now: int)
    requires Inv(s) && Answered(s.creds, first, reply) && SameRotation(req, first)
    requires MayRetry(s, req, reply.session, now)
    ensures SameAnswer(Refresh(s, req, now).1, reply) && OnlyNonceUsed(s, Refresh(s, req, now).0, req.nonce)
  {
    RetryReturnsSuccessor(s, req, reply.session, now);
    IssuedIsStored(s, req, now);
  }

  predicate SameRotation(a: RefreshRequest, b: RefreshRequest) {
    a.token == b.token && a.fingerprint == b.fingerprint && a.requestId == b.requestId
  }

  /**
   In every run, a retry of an issued refresh (same token, key and request id, usable nonce) succeeds
   as long as the successor is live, unreplaced and unexpired: it gets the first answer, revokes
   nothing, replaces nothing and consumes only its nonce.
   */
  lemma RetrySucceeds(events: seq<Event>, i: nat, j: nat)
    requires i < j < |events| && RefreshAnswer(Before(events, i), events[i]).Issued? && events[j].op.OpRefresh?
    requires SameRotation(events[j].op.refresh, events[i].op.refresh)
    requires MayRetry(Before(events, j), events[j].op.refresh, RefreshAnswer(Before(events, i), events[i]).session,
                      events[j].now)
    ensures SameAnswer(RefreshAnswer(Before(events, j), events[j]), RefreshAnswer(Before(events, i), events[i]))
    ensures OnlyNonceUsed(Before(events, j), Before(events, j + 1), events[j].op.refresh.nonce)
  {
    AnswerIsThere(events, i, j);
    RefreshEvent(events, j);
    RetryAgrees(Before(events, j), events[i].op.refresh, RefreshAnswer(Before(events, i), events[i]),
                events[j].op.refresh, events[j].now);
  }

  /** Everything but a nonce that a client needs to ask for the rotation to `next` again, at `t`. */
  ghost predicate MayAskAgain(s: State, req: RefreshRequest, next: int, t: int) {
    && RefreshChecks(s, req) && UnusedSuccessor(s, req.token, next, t)
    && (s.creds.sessions[s.creds.byRefresh[req.token]].refreshRequired ==> req.cliOk)
  }

  /** The challenge at `now` issues a nonce with which the refresh at `t` may be retried. */
  lemma ChallengeLetsRetry(s: State, req: RefreshRequest, next: int, now: int, t: int)
    requires Inv(s) && MayAskAgain(s, req, next, t) && s.creds.sessions[next].requestId == Some(req.requestId)
    requires req.nonce !in s.nonces && now <= t <= now + NONCE_TTL
    ensures var (s1, reply) := Challenge(s, req.token, req.requestId, req.nonce, now);
            reply == NonceIssued(req.nonce) && Inv(s1) && s1.creds == s.creds && MayRetry(s1, req, next, t)
  {
    var id := s.creds.byRefresh[req.token];
    assert TokenOk(s.creds, req.token) && RowOk(s.people, s.creds, id) && RowOk(s.people, s.creds, next);
    ChallengeKeepsInv(s, req.token, req.requestId, req.nonce, now);
  }

  /**
   In every run, a client that lost the answer to a refresh and repeats its request id is given a nonce
   by the challenge, and with it the refresh returns the lost answer, as long as the successor is live,
   unreplaced and unexpired and the nonce is used in time.
   */
  lemma LostAnswerIsRecovered(events: seq<Event>, i: nat, j: nat, req: RefreshRequest, now: int, t: int)
    requires i < j <= |events| && RefreshAnswer(Before(events, i), events[i]).Issued?
    requires SameRotation(req, events[i].op.refresh)
    requires MayAskAgain(Before(events, j), req, RefreshAnswer(Before(events, i), events[i]).session, t)
    requires req.nonce !in Before(events, j).nonces && now <= t <= now + NONCE_TTL
    ensures var (s1, issued) := Challenge(Before(events, j), req.token, req.requestId, req.nonce, now);
            && issued == NonceIssued(req.nonce)
            && SameAnswer(Refresh(s1, req, t).1, RefreshAnswer(Before(events, i), events[i]))
            && OnlyNonceUsed(s1, Refresh(s1, req, t).0, req.nonce)
  {
    var first := RefreshAnswer(Before(events, i), events[i]);
    AnswerIsThere(events, i, j);
    RunKeepsGood(EMPTY, events[..j]);
    ChallengeLetsRetry(Before(events, j), req, first.session, now, t);
    RetryAgrees(Challenge(Before(events, j), req.token, req.requestId, req.nonce, now).0, events[i].op.refresh, first,
                req, t);
  }

  /** The event recovers a principal away from an agent that is then given up. */
  predicate GivesUp(s: State, e: Event, agentId: int) {
    e.op.OpRecover? && Recover(s, e.op.recovery, e.now).1 && e.op.recovery.abandon && e.op.recovery.source == agentId
  }

  /** In every run a revoked credential is never accepted again. */
  lemma RevokedStaysShut(events: seq<Event>, i: nat, j: nat, id: int, now: int)
    requires i <= j <= |events| && id in Before(events, i).creds.sessions
    requires Before(events, i).creds.sessions[id].revokedAt.Some?
    ensures !Accepted(Before(events, j), id, now)
  {
    LastsUntil(events, i, j);
    assert LastsAt(Before(events, i).creds, Before(events, j).creds, id);
  }

  lemma RecoverEvent(events: seq<Event>, i: nat)
    requires i < |events| && events[i].op.OpRecover?
    ensures Before(events, i + 1) == Recover(Before(events, i), events[i].op.recovery, events[i].now).0
  {
    BeforeNext(events, i);
  }

  /** In every run, no credential that an abandoned agent was left with is ever accepted again. */
  lemma AbandonedStaysShut(events: seq<Event>, i: nat, j: nat, agentId: int, id: int, now: int)
    requires i < j <= |events| && GivesUp(Before(events, i), events[i], agentId)
    requires var t := Before(events, i + 1);
             && id in t.creds.sessions && t.creds.sessions[id].principal in t.people.principals
             && t.people.principals[t.creds.sessions[id].principal].agentId == agentId
    ensures !Accepted(Before(events, j), id, now)
  {
    RecoverEvent(events, i);
    AbandonedIsRevoked(Before(events, i), events[i].op.recovery, events[i].now, id);
    RevokedStaysShut(events, i + 1, j, id, now);
  }

  // ----------------------------------------------------------------- grants and nonces over runs

  /**
   A consumed grant and a used refresh or device nonce stay as they are; the nonce of an unused grant
   can be renewed.
   */
  ghost predicate UsedLast(s: State, t: State) {
    && (forall id <- s.grants :: s.grants[id].consumedBy.Some? ==> id in t.grants && t.grants[id] == s.grants[id])
    && (forall n <- s.nonces :: s.nonces[n].consumedAt.Some? && !s.nonces[n].domain.ProvisionNonce? ==>
          n in t.nonces && t.nonces[n] == s.nonces[n])
  }

  /** The step touches neither grants nor nonces. */
  predicate SameIssued(s: State, t: State) {
    t.grants == s.grants && t.nonces == s.nonces
  }

  lemma ConfirmKeepsIssued(s: State, id: string, target: int, console: string, recentAuth: bool, now: int)
    ensures SameIssued(s, Confirm(s, id, target, console, recentAuth, now).0)
  {
  }

  lemma VerifyEmailKeepsIssued(s: State, id: string, proof: EmailProof, now: int)
    ensures SameIssued(s, VerifyEmail(s, id, proof, now).0)
  {
  }

  lemma FinalizePendingKeepsIssued(s: State, id: string, target: int, console: string, now: int)
    ensures SameIssued(s, FinalizePending(s, id, target, console, now).0)
  {
  }

  lemma RecoverKeepsIssued(s: State, req: RecoveryRequest, now: int)
    ensures SameIssued(s, Recover(s, req, now).0)
  {
  }

  predicate IssuingOp(op: Op) {
    op.OpProvision? || op.OpIssueGrant? || op.OpDeviceChallenge? || op.OpLinkDevice? || op.OpChallenge? || op.OpRefresh?
  }

  lemma OtherOpsKeepIssued(s: State, e: Event)
    requires !IssuingOp(e.op)
    ensures SameIssued(s, Step(s, e))
  {
    match e.op
    case OpConfirm(id, target, console, recentAuth) => ConfirmKeepsIssued(s, id, target, console, recentAuth, e.now);
    case OpVerifyEmail(id, proof) => VerifyEmailKeepsIssued(s, id, proof, e.now);
    case OpFinalizePending(id, target, console) => FinalizePendingKeepsIssued(s, id, target, console, e.now);
    case OpRecover(req) => RecoverKeepsIssued(s, req, e.now);
    case _ =>
  }

  lemma ProvisionKeepsUsed(s: State, req: ProvisionRequest, now: int)
    ensures UsedLast(s, Provision(s, req, now).0)
  {
  }

  lemma IssueGrantKeepsUsed(s: State, req: GrantRequest, nonce: string, now: int)
    ensures UsedLast(s, IssueGrant(s, req, nonce, now).0)
  {
  }

  lemma LinkKeepsUsed(s: State, req: LinkRequest, now: int)
    ensures UsedLast(s, LinkDevice(s, req, now).0)
  {
  }

  lemma ChallengeKeepsUsed(s: State, token: RefreshToken, requestId: string, nonce: string, now: int)
    ensures UsedLast(s, Challenge(s, token, requestId, nonce, now).0)
  {
  }

  lemma RefreshKeepsUsed(s: State, req: RefreshRequest, now: int)
    ensures UsedLast(s, Refresh(s, req, now).0)
  {
  }

  lemma StepKeepsUsed(s: State, e: Event)
    ensures UsedLast(s, Step(s, e))
  {
    match e.op
    case OpProvision(req) => ProvisionKeepsUsed(s, req, e.now);
    case OpIssueGrant(req, nonce) => IssueGrantKeepsUsed(s, req, nonce, e.now);
    case OpDeviceChallenge(_, _, _, _, _) =>
    case OpLinkDevice(req) => LinkKeepsUsed(s, req, e.now);
    case OpChallenge(token, requestId, nonce) => ChallengeKeepsUsed(s, token, requestId, nonce, e.now);
    case OpRefresh(req) => RefreshKeepsUsed(s, req, e.now);
    case _ => OtherOpsKeepIssued(s, e);
  }

  lemma {:induction false} UsedUntil(events: seq<Event>, i: nat, j: nat)
    requires i <= j <= |events|
    ensures UsedLast(Before(events, i), Before(events, j))
    decreases j - i
  {
    if i < j {
      BeforeNext(events, i);
      StepKeepsUsed(Before(events, i), events[i]);
      UsedUntil(events, i + 1, j);
    }
  }

  /** The event is a provision that stores a new credential. */
  predicate StoresCredential(s: State, e: Event) {
    && e.op.OpProvision? && !PlanProvision(s, e.op.provision, e.now).Answer?
    && Provision(s, e.op.provision, e.now).1.Provisioned?
  }

  lemma StoringConsumes(s: State, e: Event)
    requires StoresCredential(s, e)
    ensures var id := e.op.provision.grant.entitlement;
            && id in s.grants && s.grants[id].consumedBy.None?
            && id in Step(s, e).grants && Step(s, e).grants[id].consumedBy.Some?
  {
  }

  /** In every run an entitlement, and so a bootstrap grant, gives at most one credential. */
  lemma GrantIsUsedOnce(events: seq<Event>, i: nat, j: nat)
    requires i < j < |events|
    requires StoresCredential(Before(events, i), events[i]) && StoresCredential(Before(events, j), events[j])
    ensures events[i].op.provision.grant.entitlement != events[j].op.provision.grant.entitlement
  {
    BeforeNext(events, i);
    StoringConsumes(Before(events, i), events[i]);
    StoringConsumes(Before(events, j), events[j]);
    UsedUntil(events, i + 1, j);
  }

  /** The event issues a credential for the nonce: a refresh or a device link. */
  predicate SpendsNonce(s: State, e: Event, nonce: string) {
    || (RefreshAnswer(s, e).Issued? && e.op.refresh.nonce == nonce)
    || (e.op.OpLinkDevice? && LinkDevice(s, e.op.link, e.now).1.Linked? && e.op.link.nonce == nonce)
  }

  lemma SpendingConsumes(s: State, e: Event, nonce: string)
    requires SpendsNonce(s, e, nonce)
    ensures nonce in s.nonces && s.nonces[nonce].consumedAt.None?
    ensures nonce in Step(s, e).nonces && Step(s, e).nonces[nonce].consumedAt.Some?
    ensures !Step(s, e).nonces[nonce].domain.ProvisionNonce?
  {
  }

  /** In every run a challenge nonce answers at most one refresh or device link. */
  lemma NonceIsUsedOnce(events: seq<Event>, i: nat, j: nat, nonce: string)
    requires i < j < |events| && SpendsNonce(Before(events, i), events[i], nonce)
    ensures !SpendsNonce(Before(events, j), events[j], nonce)
  {
    BeforeNext(events, i);
    SpendingConsumes(Before(events, i), events[i], nonce);
    UsedUntil(events, i + 1, j);
    if SpendsNonce(Before(events, j), events[j], nonce) { SpendingConsumes(Before(events, j), events[j], nonce); }
  }
}
