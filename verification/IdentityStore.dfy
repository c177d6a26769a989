/**
 The identity tables as the handlers update them: statement by statement, with an explicit
 rollback where a handler fails after it has written.
 */
module IdentityStore {
  import opened Common
  import opened IdentityState
  import opened Credentials
  import opened AccountSwitch
  import opened SwitchHistory
  import opened AccountRecovery
  import opened IdentityRuns

  class Tables {
    var people: People
    var creds: Creds
    var nonces: map<string, Nonce>
    var grants: map<Entitlement, Grant>
    var ledger: Ledger

    /** The tables as one value. */
    function Snapshot(): State
      reads this
    {
      State(people, creds, nonces, grants, ledger)
    }

    ghost predicate Valid()
      reads this
    {
      Good(Snapshot())
    }

    constructor ()
      ensures Valid() && Snapshot() == EMPTY
    {
      people, creds := People(map[], map[], 1, map[]), Creds(map[], map[], map[], 1);
      nonces, grants, ledger := map[], map[], Ledger(map[], map[], []);
    }

    /** Undoes everything a failed transaction has written. */
    method Rollback(saved: State)
      modifies this
      ensures Snapshot() == saved
    {
      people, creds, nonces := saved.people, saved.creds, saved.nonces;
      grants, ledger := saved.grants, saved.ledger;
    }

    // --------------------------------------------------------------- provision

    /** The receipt of an earlier provision with the same key, if there is one. */
    method FindReceipt(principal: int, key: string) returns (receipt: Option<Session>)
      requires Valid()
      ensures receipt == if (principal, ProvisionRequestId(key)) in creds.byRequest
          && creds.byRequest[(principal, ProvisionRequestId(key))] in creds.sessions
                         then Some(creds.sessions[creds.byRequest[(principal, ProvisionRequestId(key))]]) else None
    {
      var k := (principal, ProvisionRequestId(key));
      if k !in creds.byRequest { return None; }
      assert RequestOk(creds, k);
      return Some(creds.sessions[creds.byRequest[k]]);
    }

    /** Consumes grant and nonce and inserts the credential, or rolls everything back on a unique violation. */
    method IssueCredential(agentId: int, principal: int, req: ProvisionRequest, now: int, saved: State)
      returns (reply: ProvisionReply)
      requires saved == Snapshot().(people := saved.people) && GrantUsable(saved, req, now)
      modifies this
      ensures (Snapshot(), reply) == InsertCredential(saved, old(people), agentId, principal, req, now)
    {
      var id := req.grant.entitlement;
      grants := grants[id := grants[id].(consumedBy := Some(agentId))];
      nonces := nonces[req.nonce := nonces[req.nonce].(consumedAt := Some(now))];
      var row := ProvisionedSession(principal, req, now);
      if !CanInsert(creds, row) {
        Rollback(saved);
        return ProvisionUnavailable;
      }
      creds := InsertSession(creds, row);
      return Provisioned(agentId, principal, row.access, row.refresh);
    }

    /** A device key that is already known. */
    method ProvisionKnown(req: ProvisionRequest, pid: int, now: int) returns (reply: ProvisionReply)
      requires Valid() && req.fingerprint in people.byFingerprint && pid == people.byFingerprint[req.fingerprint]
      modifies this
      ensures (Snapshot(), reply) == Provision(old(Snapshot()), req, now)
    {
      assert FingerprintOk(people, req.fingerprint) && PrincipalOk(people, pid);
      var saved := Snapshot();
      var p := people.principals[pid];
      var usable := p.revokedAt.None? && Usable(p) && people.agents[p.agentId].identityActive;
      var receipt := FindReceipt(pid, req.key);
      if receipt.Some? {
        if receipt.value.receipt != ProvisionReceipt(req.requestHash) { return ProvisionConflict; }
        if receipt.value.revokedAt.Some? || receipt.value.absoluteExpiresAt <= now || !usable {
          return ProvisionUnauthorized;
        }
        if req.expectedAgent != 0 && p.agentId != req.expectedAgent { return ProvisionUnauthorized; }
        var seed := Seed(req.fingerprint, req.key, req.requestHash);
        return Provisioned(p.agentId, pid, ProvisionAccess(seed), ProvisionRefresh(seed));
      }
      if !GrantUsable(saved, req, now) || !usable { return ProvisionUnauthorized; }
      var subject := grants[req.grant.entitlement].subject;
      if subject.Some? && p.agentId != subject.value { return ProvisionUnauthorized; }
      if req.expectedAgent != 0 && p.agentId != req.expectedAgent { return ProvisionUnauthorized; }
      reply := IssueCredential(p.agentId, pid, req, now, saved);
    }

    method ProvisionAgent(req: ProvisionRequest, now: int) returns (reply: ProvisionReply)
      requires Valid()
      modifies this
      ensures Valid() && (Snapshot(), reply) == Provision(old(Snapshot()), req, now)
    {
      ProvisionKeepsInv(Snapshot(), req, now);
      if req.fingerprint in people.byFingerprint {
        reply := ProvisionKnown(req, people.byFingerprint[req.fingerprint], now);
        return;
      }
      if !GrantUsable(Snapshot(), req, now) || grants[req.grant.entitlement].channel == RECOVERY_CHANNEL {
        return ProvisionUnauthorized;
      }
      var saved := Snapshot();
      var agentId, status := req.newAgent, Limited;
      if grants[req.grant.entitlement].subject.Some? {
        agentId := grants[req.grant.entitlement].subject.value;
        if req.expectedAgent != 0 && agentId != req.expectedAgent { return ProvisionUnauthorized; }
        if agentId !in people.agents { return ProvisionUnavailable; }
        people := people.(agents := EnsureOnboarding(people.agents, agentId));
        if people.agents[agentId].onboarding.OnboardingCompleted? { status := Active; }
      } else {
        if req.expectedAgent != 0 { return ProvisionUnauthorized; }
        if agentId in people.agents { return ProvisionUnavailable; }
        people := people.(agents := people.agents[agentId := Agent(true, OnboardingOpen)]);
      }
      var principal := people.nextPrincipal;
      people := InsertPrincipal(people, Principal(agentId, Ed25519, req.fingerprint, status, None));
      reply := IssueCredential(agentId, principal, req, now, saved);
    }

    /** Issues a bootstrap grant with its nonce, or renews an unused one; None on a conflict. */
    method IssueBootstrapGrant(req: GrantRequest, nonce: string, now: int) returns (token: Option<GrantToken>)
      requires Valid()
      modifies this`grants, this`nonces
      ensures Valid() && (Snapshot(), token) == IssueGrant(old(Snapshot()), req, nonce, now)
    {
      if nonce in nonces && nonces[nonce].domain != ProvisionNonce { return None; }
      var id := EntitlementOf(req);
      token := Some(GrantToken(id, req.requestId, req.fingerprint));
      var grant := Grant(req.fingerprint, req.requestId, req.channel, req.policy, req.subject, now + GRANT_TTL, None);
      if id in grants {
        if grants[id].(expiresAt := grant.expiresAt, consumedBy := None) != grant { return None; }
        if grants[id].consumedBy.Some? { return; }
      } else if nonce in nonces || exists other <- grants :: grants[other].requestId == req.requestId {
        return None;
      }
      grants := grants[id := grant];
      nonces := nonces[nonce := Nonce(ProvisionNonce, req.fingerprint, now + GRANT_TTL, None)];
    }

    // --------------------------------------------------------------- device linking

    method CreatePrincipalChallenge(agentId: int, console: string, fingerprint: string, nonce: string, recentAuth: bool,
                                    now: int)
      returns (ok: bool)
      requires Valid()
      modifies this`nonces
      ensures Valid()
      ensures (Snapshot(), ok) == DeviceChallenge(old(Snapshot()), agentId, console, fingerprint, nonce, recentAuth,
                                                  now)
    {
      if !recentAuth || nonce in nonces { return false; }
      nonces := nonces[nonce := Nonce(DeviceNonce(agentId, console), fingerprint, now + NONCE_TTL, None)];
      return true;
    }

    /** Any refusal after the nonce update rolls it back. */
    method AddPrincipal(req: LinkRequest, now: int) returns (reply: LinkReply)
      requires Valid()
      modifies this
      ensures Valid() && (Snapshot(), reply) == LinkDevice(old(Snapshot()), req, now)
    {
      LinkKeepsInv(Snapshot(), req, now);
      if !req.authOk { return LinkRefused; }
      var saved := Snapshot();
      if !DeviceNonceUsable(saved, req, now) { return LinkRefused; }
      nonces := nonces[req.nonce := nonces[req.nonce].(consumedAt := Some(now))];
      var principal, created := people.nextPrincipal, req.fingerprint !in people.byFingerprint;
      if !created {
        assert FingerprintOk(people, req.fingerprint);
        principal := people.byFingerprint[req.fingerprint];
        var existing := people.principals[principal];
        if existing.agentId != req.agentId || existing.status == PrincipalRevoked || existing.status == Suspended {
          Rollback(saved);
          return LinkConflict;
        }
      } else {
        if req.agentId !in people.agents {
          Rollback(saved);
          return LinkFailed;
        }
        var completed := people.agents[req.agentId].onboarding.OnboardingCompleted?;
        people := InsertPrincipal(people, Principal(req.agentId, Ed25519, req.fingerprint,
                                                    if completed then Active else Limited, None));
      }
      var row := LinkedSession(principal, req.draw, now);
      if !CanInsert(creds, row) {
        Rollback(saved);
        return LinkConflict;
      }
      var session := creds.nextSession;
      creds := InsertSession(creds, row);
      return Linked(principal, created, session, row.access, row.refresh);
    }

    // --------------------------------------------------------------- refresh

    /** The conditional nonce update; false when no row matched. */
    method UseNonce(nonce: string, fingerprint: string, now: int) returns (used: bool)
      modifies this`nonces
      ensures used == NonceUsable(old(Snapshot()), nonce, fingerprint, now)
      ensures Snapshot() == if used then ConsumeNonce(old(Snapshot()), nonce, now) else old(Snapshot())
    {
      used := nonce in nonces && nonces[nonce].domain == RefreshNonce && nonces[nonce].fingerprint == fingerprint
          && nonces[nonce].consumedAt.None? && nonces[nonce].expiresAt >= now;
      if used { nonces := nonces[nonce := nonces[nonce].(consumedAt := Some(now))]; }
    }

    method CreateRefreshChallenge(token: RefreshToken, requestId: string, nonce: string, now: int)
      returns (reply: ChallengeReply)
      requires Valid()
      modifies this`creds, this`nonces
      ensures Valid() && (Snapshot(), reply) == Challenge(old(Snapshot()), token, requestId, nonce, now)
    {
      ChallengeKeepsInv(Snapshot(), token, requestId, nonce, now);
      assert token in creds.byRefresh ==> TokenOk(creds, token) && RowOk(people, creds, creds.byRefresh[token]);
      if token !in creds.byRefresh { return ChallengeInvalid; }
      var row := creds.sessions[creds.byRefresh[token]];
      assert PrincipalOk(people, row.principal);
      var p := people.principals[row.principal];
      if !people.agents[p.agentId].identityActive || p.revokedAt.Some? || !Usable(p) { return ChallengeInvalid; }
      if row.replacedBy.Some? {
        var successor := creds.sessions[row.replacedBy.value];
        if successor.requestId != Some(requestId) {
          creds := creds.(sessions := RevokeFamily(creds.sessions, row.family, now));
          return ChallengeReuse;
        }
        if row.absoluteExpiresAt <= now {
          if SuccessorUnavailable(row, Some(successor), token, p.fingerprint, requestId) { return ChallengeInvalid; }
          if successor.absoluteExpiresAt <= now { return ChallengeExpired; }
        }
      } else {
        if row.revokedAt.Some? { return ChallengeInvalid; }
        if row.absoluteExpiresAt <= now { return ChallengeExpired; }
      }
      if nonce in nonces { return ChallengeUnavailable; }
      nonces := nonces[nonce := Nonce(RefreshNonce, p.fingerprint, now + NONCE_TTL, None)];
      return NonceIssued(nonce);
    }

    /** Inserts the successor row and then marks the prior row; false on a unique violation. */
    method Rotate(id: int, row: Session, now: int) returns (next: int, inserted: bool)
      requires id in creds.sessions
      modifies this`creds
      ensures inserted == CanInsert(old(creds), row)
      ensures inserted ==> next == old(creds).nextSession
      ensures creds == if inserted then Replace(old(creds), id, row, now) else old(creds)
    {
      next := creds.nextSession;
      inserted := CanInsert(creds, row);
      if inserted {
        var prior := creds.sessions[id];
        creds := InsertSession(creds, row);
        creds := creds.(sessions := creds.sessions[id := prior.(revokedAt := Some(now), replacedBy := Some(next))]);
      }
    }

    method RefreshAgentSession(req: RefreshRequest, now: int) returns (reply: RefreshReply)
      requires Valid()
      modifies this
      ensures Valid() && (Snapshot(), reply) == Refresh(old(Snapshot()), req, now)
    {
      ghost var s := Snapshot();
      RefreshKeepsInv(s, req, now);
      if !RefreshChecks(Snapshot(), req) { return RefreshInvalid; }
      var saved := Snapshot();
      var id := creds.byRefresh[req.token];
      var prior := creds.sessions[id];
      var agentId := people.principals[prior.principal].agentId;
      var rotation := Rotation(req.token, req.fingerprint, req.requestId);
      if prior.refreshRequired && !req.cliOk { return CLIUpgradeRequired; }
      if prior.replacedBy.Some? {
        reply := ReplayRotation(req, prior, agentId, now);
        return;
      }
      if prior.revokedAt.Some? {
        creds := creds.(sessions := RevokeFamily(creds.sessions, prior.family, now));
        return Reuse;
      }
      if prior.absoluteExpiresAt <= now { return RefreshExpired; }
      var used := UseNonce(req.nonce, req.fingerprint, now);
      if !used { return RefreshInvalid; }
      var row := RotatedSession(prior, req, now);
      var next, inserted := Rotate(id, row, now);
      if !inserted {
        Rollback(saved);
        return RefreshUnavailable;
      }
      return Issued(agentId, prior.principal, next, prior.family, RotatedAccess(rotation), RotatedRefresh(rotation),
                    row.expiresAt);
    }

    /** The branch of refreshAgentSession for a token that has already been replaced. */
    method ReplayRotation(req: RefreshRequest, prior: Session, agentId: int, now: int) returns (reply: RefreshReply)
      requires RefreshChecks(Snapshot(), req) && prior == creds.sessions[creds.byRefresh[req.token]]
      requires prior.replacedBy.Some?
      requires (prior.refreshRequired ==> req.cliOk) && agentId == AgentOf(Snapshot(), req)
      modifies this
      ensures (Snapshot(), reply) == Refresh(old(Snapshot()), req, now)
    {
      var saved := Snapshot();
      var next := prior.replacedBy.value;
      if next in creds.sessions && RotationMatches(prior, creds.sessions[next], req) {
        var successor := creds.sessions[next];
        var used := UseNonce(req.nonce, req.fingerprint, now);
        if !used { return RefreshInvalid; }
        if successor.absoluteExpiresAt <= now {
          Rollback(saved);
          return RefreshExpired;
        }
        creds := creds.(sessions := creds.sessions[next := successor.(refreshRequired := false)]);
        return IssuedFor(agentId, next, successor, req);
      }
      creds := creds.(sessions := RevokeFamily(creds.sessions, prior.family, now));
      return Reuse;
    }

    // --------------------------------------------------------------- recovery and revocation

    /** The updates of agents, principals and credentials once the recovery row and the emails are checked. */
    method ConfirmAccountRecovery(req: RecoveryRequest, now: int) returns (recovered: bool)
      requires Valid()
      modifies this`people, this`creds
      ensures Valid() && (Snapshot(), recovered) == Recover(old(Snapshot()), req, now)
    {
      RecoverFlags(Snapshot(), req, now);
      if !req.verified || !ActiveAgent(people, req.source) || !ActiveAgent(people, req.target) { return false; }
      if req.principal !in people.principals { return false; }
      var principal := people.principals[req.principal];
      if principal.agentId != req.source || principal.keyType != Ed25519 || !Usable(principal) { return false; }
      if HasSuspended(people, req.target) || !HasUnrevoked(creds, req.principal) { return false; }
      people := people.(agents := EnsureOnboarding(people.agents, req.target));
      var status := if people.agents[req.target].onboarding.OnboardingCompleted? then Active else Limited;
      people := Rebind(people, req.principal, req.target, status);
      creds := creds.(sessions := RequireRefresh(creds.sessions, req.principal));
      if req.abandon {
        creds := creds.(sessions := RevokeSessionsOf(Snapshot(), req.source, now));
        people := people.(principals := RevokeKeysOf(people.principals, req.source, now));
        var source := people.agents[req.source].(identityActive := false);
        people := people.(agents := people.agents[req.source := source]);
      }
      return true;
    }

    method RevokeDevice(agentId: int, principal: int, now: int)
      requires Valid()
      modifies this`people, this`creds
      ensures Valid() && Snapshot() == RevokePrincipal(old(Snapshot()), agentId, principal, now)
    {
      RevokePrincipalKeepsInv(Snapshot(), agentId, principal, now);
      if principal !in people.principals { return; }
      var row := people.principals[principal];
      if row.agentId != agentId || row.keyType != Ed25519 || row.status == PrincipalRevoked { return; }
      people := people.(principals := people.principals[principal := row.(status := PrincipalRevoked,
                                                                          revokedAt := Some(now))]);
      creds := creds.(sessions := RevokePrincipalSessions(creds.sessions, principal, now));
    }

    // --------------------------------------------------------------- account switches

    /** Updates a switch row and appends its audit row. */
    method WriteSwitch(id: string, row: Switch, record: Switch, result: AuditResult, now: int)
      modifies this`ledger
      ensures ledger == Moved(old(ledger), id, row, record, result, now)
    {
      ledger := PutSwitch(ledger, id, row);
      ledger := ledger.(audit := ledger.audit
                        + [AuditRow(id, record.source, record.target, record.principal, result, now)]);
    }

    /** Whether the principal holds a credential that is neither revoked nor expired. */
    method CountActive(principal: int, now: int) returns (active: bool)
      ensures active == HasActiveCredential(creds, principal, now)
    {
      active := exists id <- creds.sessions ::
        creds.sessions[id].principal == principal && creds.sessions[id].revokedAt.None?
            && creds.sessions[id].expiresAt > now;
    }

    method ExpireCLIAccountSwitch(id: string, record: Switch, now: int)
      modifies this`ledger
      ensures ledger == Expire(old(ledger), id, record, now)
    {
      if Pending(record.status) { WriteSwitch(id, record.(status := Expired), record, AuditExpired, now); }
    }

    method CompleteNoopCLIAccountSwitch(id: string, record: Switch, now: int) returns (outcome: Outcome)
      modifies this`ledger
      ensures (ledger, outcome) == CompleteNoop(old(Snapshot()), id, record, now)
    {
      if id == "" || record.source <= 0 || record.principal <= 0 || record.target.Some?
          || record.status != PendingTarget {
        return Conflict;
      }
      if !NoopBinding(people, record) { return Conflict; }
      var active := CountActive(record.principal, now);
      if !active || id !in ledger.switches { return Conflict; }
      var row := ledger.switches[id];
      if row.source != record.source || row.principal != record.principal || row.status != PendingTarget
          || row.target.Some? {
        return Conflict;
      }
      WriteSwitch(id, row.(status := CompletedNoop, completedAt := Some(now)), record, AuditCompletedNoop, now);
      return Done;
    }

    /** On a late conflict the principal and credential updates stay written: the caller decides. */
    method FinalizeCLIAccountSwitch(id: string, record: Switch, newAccount: bool, now: int) returns (outcome: Outcome)
      modifies this`people, this`creds, this`ledger
      ensures (Snapshot(), outcome) == Finalize(old(Snapshot()), id, record, newAccount, now)
    {
      if !ReadyRecord(id, record, now) || !BoundToSource(people, record) { return Conflict; }
      var target := record.target.value;
      if !TargetReady(people, target, newAccount) { return OnboardingRequired; }
      var active := CountActive(record.principal, now);
      if !active { return Conflict; }
      var principal := people.principals[record.principal];
      if principal.revokedAt.Some? { return Conflict; }
      var status := if people.agents[target].onboarding.OnboardingCompleted? then Active else Limited;
      var rebound := principal.(agentId := target, status := status);
      people := people.(principals := people.principals[record.principal := rebound]);
      creds := creds.(sessions := RequireRefresh(creds.sessions, record.principal));
      if id !in ledger.switches { return Conflict; }
      var row := ledger.switches[id];
      if row.source != record.source || row.principal != record.principal || !Pending(row.status) { return Conflict; }
      WriteSwitch(id, row.(target := record.target, targetConsole := record.targetConsole,
                           verifiedAt := record.verifiedAt,
                           status := Completed, completedAt := Some(now)), record, AuditCompleted, now);
      return Done;
    }

    /** The switch-creating part of exchangeHandoff. */
    method StartCLIAccountSwitch(agentId: int, principal: int, id: string, console: string, now: int)
      returns (reply: SwitchReply)
      requires Valid()
      modifies this`ledger
      ensures Valid() && (ledger, reply) == ExchangeHandoff(old(Snapshot()), agentId, principal, id, console, now)
    {
      ExchangeKeeps(Snapshot(), agentId, principal, id, console, now);
      RevokePendingKeeps(ledger, principal, now);
      if !(principal in people.principals && agentId in people.agents && agentId > 0
           && people.principals[principal].agentId == agentId
           && people.agents[agentId].identityActive && people.principals[principal].revokedAt.None?
           && Usable(people.principals[principal])) {
        return SwitchUnauthorized;
      }
      var saved := ledger;
      if principal in ledger.pendingOf {
        assert PendingOk(ledger, principal);
        var pending := ledger.pendingOf[principal];
        WriteSwitch(pending, ledger.switches[pending].(status := Revoked), ledger.switches[pending], AuditRevoked, now);
      }
      if id in ledger.switches {
        ledger := saved;
        return SwitchFailed;
      }
      ledger := PutSwitch(ledger, id, NewSwitch(agentId, principal, console, now));
      return SwitchPending;
    }

    /** Reading an overdue pending switch expires it. */
    method GetCLIAccountSwitch(id: string, now: int) returns (record: Option<Switch>)
      requires Valid()
      modifies this`ledger
      ensures Valid() && ledger == GetSwitch(old(ledger), id, now)
      ensures record == if id in ledger.switches then Some(ledger.switches[id]) else None
    {
      if id !in ledger.switches { return None; }
      ExpireKeeps(ledger, id, now);
      if ledger.switches[id].expiresAt < now { ExpireCLIAccountSwitch(id, ledger.switches[id], now); }
      return Some(ledger.switches[id]);
    }

    method ConfirmCLIAccountSwitch(id: string, target: int, console: string, recentAuth: bool, now: int)
      returns (reply: SwitchReply)
      requires Valid()
      modifies this
      ensures Valid() && (Snapshot(), reply) == Confirm(old(Snapshot()), id, target, console, recentAuth, now)
    {
      StepKeepsGood(Snapshot(), Event(OpConfirm(id, target, console, recentAuth), now));
      if id !in ledger.switches { return SwitchUnauthorized; }
      var record := ledger.switches[id];
      if record.status == Completed {
        return if record.target == Some(target) then SwitchCompleted(target, false) else SwitchConflict;
      }
      if record.status == CompletedNoop {
        if record.source != target || !NoopBinding(people, record) { return SwitchConflict; }
        return SwitchCompleted(record.source, true);
      }
      if record.expiresAt < now {
        ExpireCLIAccountSwitch(id, record, now);
        return SwitchExpired;
      }
      if !Pending(record.status) { return SwitchUnauthorized; }
      if target == record.source {
        var outcome := CompleteNoopCLIAccountSwitch(id, record, now);
        return if outcome == Done then SwitchCompleted(record.source, true) else SwitchConflict;
      }
      if !recentAuth { return RecentAuthRequired; }
      if record.status == PendingOnboarding && (record.target != Some(target) || record.targetConsole != console) {
        return SwitchConflict;
      }
      if target !in people.agents { return SwitchFailed; }
      if people.agents[target].onboarding.OnboardingCompleted? {
        var saved := Snapshot();
        var outcome := FinalizeCLIAccountSwitch(id, Verified(record, target, console, now), false, now);
        if outcome == Done { return SwitchCompleted(target, false); }
        Rollback(saved);
        return if outcome == Conflict then SwitchConflict else SwitchFailed;
      }
      if record.status == PendingTarget {
        var row := record.(target := Some(target), targetConsole := console, verifiedAt := Some(now),
                           status := PendingOnboarding);
        WriteSwitch(id, row, row, AuditPendingOnboarding, now);
      }
      return SwitchPending;
    }

    method CancelCLIAccountSwitch(id: string, now: int) returns (reply: SwitchReply)
      requires Valid()
      modifies this`ledger
      ensures Valid() && (ledger, reply) == Cancel(old(ledger), id, now)
    {
      CancelKeeps(ledger, id, now);
      if id !in ledger.switches || !Pending(ledger.switches[id].status) { return SwitchConflict; }
      WriteSwitch(id, ledger.switches[id].(status := Revoked), ledger.switches[id], AuditRevoked, now);
      return SwitchCancelled;
    }

    /** A conflict is swallowed and committed; only a missing onboarding rolls the caller back. */
    method FinalizePendingCLIAccountSwitch(id: string, target: int, console: string, now: int)
      returns (reply: FinalizeReply)
      requires Valid()
      modifies this
      ensures Valid() && (Snapshot(), reply) == FinalizePending(old(Snapshot()), id, target, console, now)
    {
      StepKeepsGood(Snapshot(), Event(OpFinalizePending(id, target, console), now));
      if id !in ledger.switches { return NotFinalized; }
      var record := ledger.switches[id];
      if record.status != PendingOnboarding || record.target != Some(target) || record.targetConsole != console {
        return NotFinalized;
      }
      if record.expiresAt < now {
        ExpireCLIAccountSwitch(id, record, now);
        return NotFinalized;
      }
      var saved := Snapshot();
      var outcome := FinalizeCLIAccountSwitch(id, record, false, now);
      if outcome == Conflict {
        WriteSwitch(id, record.(status := Revoked), record, AuditRejected, now);
        return NotFinalized;
      }
      if outcome == OnboardingRequired {
        Rollback(saved);
        return FinalizeFailed;
      }
      return Finalized;
    }

    /** The browser principal and the status transition of verifyCLIAccountSwitchEmail. */
    method VerifySwitchEmail(id: string, proof: EmailProof, now: int) returns (reply: SwitchReply)
      requires Valid()
      modifies this
      ensures Valid() && (Snapshot(), reply) == VerifyEmail(old(Snapshot()), id, proof, now)
    {
      StepKeepsGood(Snapshot(), Event(OpVerifyEmail(id, proof), now));
      var refusal := EmailRefusal(Snapshot(), id, proof, now);
      if refusal.Some? { return refusal.value; }
      var saved := Snapshot();
      people := InsertPrincipal(people.(agents := ResolvedAgents(people, proof)),
                                Principal(proof.target, EmailRecovery, proof.fingerprint, Limited, None));
      reply := MoveSwitch(id, ledger.switches[id], proof, now);
      if reply == SwitchConflict || reply == SwitchFailed { Rollback(saved); }
    }

    /** The three ways a switch moves on once the target's email is verified. */
    method MoveSwitch(id: string, record: Switch, proof: EmailProof, now: int) returns (reply: SwitchReply)
      requires proof.target in people.agents
      modifies this
      ensures (Snapshot(), reply) == MoveAfterEmail(old(Snapshot()), id, record, proof, now)
    {
      if proof.target == record.source {
        var outcome := CompleteNoopCLIAccountSwitch(id, record, now);
        return if outcome == Done then SwitchCompleted(proof.target, true) else SwitchConflict;
      }
      if proof.created || people.agents[proof.target].onboarding.OnboardingCompleted? {
        var verified := Verified(record, proof.target, proof.console, now);
        var outcome := FinalizeCLIAccountSwitch(id, verified, proof.created, now);
        match outcome {
          case Done => return SwitchCompleted(proof.target, false);
          case Conflict => return SwitchConflict;
          case OnboardingRequired => return SwitchFailed;
        }
      }
      var row := Verified(record, proof.target, proof.console, now).(status := PendingOnboarding);
      WriteSwitch(id, row, row, AuditPendingOnboarding, now);
      return SwitchPending;
    }
  }
}
