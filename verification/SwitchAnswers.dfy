/**
 Who may move an account switch on, when it completes, what the handlers answer, and what they leave
 alone.
 */
module SwitchAnswers {
  import opened Common
  import opened IdentityState
  import opened Credentials
  import opened AccountSwitch
  import opened SwitchHistory
  import opened IdentityRuns

  // ----------------------------------------------------------------- conditions and effects

  /** The device key is bound to the source, usable and unrevoked, and has a live credential. */
  ghost predicate LiveKey(s: State, principal: int, source: int, now: int) {
    && principal in s.people.principals
    && var p := s.people.principals[principal];
       && p.agentId == source && p.keyType == Ed25519 && p.revokedAt.None?
       && (p.status == Limited || p.status == Active)
       && exists id <- s.creds.sessions ::
           && s.creds.sessions[id].principal == principal && s.creds.sessions[id].revokedAt.None?
           && now < s.creds.sessions[id].expiresAt
  }

  ghost predicate OnboardedAgent(people: People, agentId: int) {
    agentId in people.agents && people.agents[agentId].identityActive
    && people.agents[agentId].onboarding.OnboardingCompleted?
  }

  /** The switch waits for a target or its onboarding, and has not expired. */
  ghost predicate OpenSwitch(l: Ledger, id: string, now: int) {
    id in l.switches && now <= l.switches[id].expiresAt
    && (l.switches[id].status == PendingTarget || l.switches[id].status == PendingOnboarding)
  }

  /** The ids, the console and the time are set, and the target is another account. */
  ghost predicate ProperMove(id: string, row: Switch, target: int, console: string, now: int) {
    id != "" && row.source > 0 && row.principal > 0 && target > 0 && target != row.source && console != "" && now > 0
  }

  /** Switch `id` becomes `row`, with one audit row, and no other switch changes. */
  ghost predicate RowMoved(l: Ledger, m: Ledger, id: string, row: Switch, result: AuditResult, now: int) {
    && m.switches == l.switches[id := row]
    && m.audit == l.audit + [AuditRow(id, row.source, row.target, row.principal, result, now)]
  }

  /** The credentials of one principal must be refreshed; no other column and no other row changes. */
  ghost predicate Flagged(c: Creds, d: Creds, principal: int) {
    && d == c.(sessions := d.sessions) && d.sessions.Keys == c.sessions.Keys
    && forall id <- c.sessions :: d.sessions[id]
        == if c.sessions[id].principal == principal && c.sessions[id].revokedAt.None?
           then c.sessions[id].(refreshRequired := true) else c.sessions[id]
  }

  /** The device key moves to the target, and its credentials must be refreshed. */
  ghost predicate KeyMoved(s: State, t: State, principal: int, target: int, status: PrincipalStatus) {
    && principal in s.people.principals
    && t.people == s.people.(principals := s.people.principals[principal :=
         s.people.principals[principal].(agentId := target, status := status)])
    && Flagged(s.creds, t.creds, principal) && t.nonces == s.nonces && t.grants == s.grants
  }

  /** The row of a switch completed for a target. */
  function CompletedFor(row: Switch, target: int, console: string, verifiedAt: int, now: int): Switch {
    Switch(row.source, Some(target), row.principal, row.sourceConsole, console, Completed, Some(verifiedAt),
           row.expiresAt, Some(now))
  }

  /** finalizeCLIAccountSwitch for a record that is the stored row but for what has just been verified. */
  lemma FinalizeExactly(s: State, id: string, record: Switch, newAccount: bool, now: int)
    requires id in s.ledger.switches && Pending(s.ledger.switches[id].status)
    requires record.source == s.ledger.switches[id].source && record.principal == s.ledger.switches[id].principal
    requires record.target.Some? && record.verifiedAt.Some?
    ensures var (t, outcome) := Finalize(s, id, record, newAccount, now);
            var target := record.target.value;
            && (outcome == Done <==>
                  && ProperMove(id, record, target, record.targetConsole, record.verifiedAt.value)
                  && record.verifiedAt.value <= now && LiveKey(s, record.principal, record.source, now)
                  && target in s.people.agents && s.people.agents[target].identityActive
                  && !s.people.agents[target].onboarding.OnboardingMissing?
                  && (newAccount || s.people.agents[target].onboarding.OnboardingCompleted?))
            && (outcome == Done ==>
                  && RowMoved(s.ledger, t.ledger, id,
                              CompletedFor(s.ledger.switches[id], target, record.targetConsole, record.verifiedAt.value,
                                           now), AuditCompleted, now)
                  && KeyMoved(s, t, record.principal, target,
                              if s.people.agents[target].onboarding.OnboardingCompleted? then Active else Limited))
            && (outcome != Done ==> t == s)
  {
  }

  // ----------------------------------------------------------------- confirming from a browser

  /** What a confirmation needs to complete the switch, apart from a recent email sign-in. */
  ghost predicate MayComplete(s: State, id: string, target: int, console: string, now: int) {
    && OpenSwitch(s.ledger, id, now)
    && var row := s.ledger.switches[id];
       && ProperMove(id, row, target, console, now) && OnboardedAgent(s.people, target)
       && (row.status == PendingOnboarding ==> row.target == Some(target) && row.targetConsole == console)
       && LiveKey(s, row.principal, row.source, now)
  }

  /**
   A confirmation completes a switch exactly when the browser has signed in by email recently and the
   move may be made; it then moves that key and no other row.
   */
  lemma ConfirmCompletesExactly(s: State, id: string, target: int, console: string, recentAuth: bool, now: int)
    ensures var (t, reply) := Confirm(s, id, target, console, recentAuth, now);
            && (Completes(s.ledger, t.ledger, id) <==> recentAuth && MayComplete(s, id, target, console, now))
            && (forall other :: Completes(s.ledger, t.ledger, other) ==> other == id)
            && (Completes(s.ledger, t.ledger, id) ==>
                  && reply == SwitchCompleted(target, false)
                  && var row := s.ledger.switches[id];
                     && RowMoved(s.ledger, t.ledger, id, CompletedFor(row, target, console, now, now), AuditCompleted,
                                 now)
                     && KeyMoved(s, t, row.principal, target, Active))
            && (!Completes(s.ledger, t.ledger, id) ==> t == s.(ledger := t.ledger))
  {
    if OpenSwitch(s.ledger, id, now) {
      FinalizeExactly(s, id, Verified(s.ledger.switches[id], target, console, now), false, now);
    }
  }

  /** Without a recent email sign-in nothing moves and no switch completes. */
  lemma NoMoveWithoutRecentAuth(s: State, id: string, target: int, console: string, now: int)
    ensures var (t, reply) := Confirm(s, id, target, console, false, now);
            && t == s.(ledger := t.ledger) && (forall other :: !Completes(s.ledger, t.ledger, other))
            && (reply == RecentAuthRequired <==>
                  OpenSwitch(s.ledger, id, now) && target != s.ledger.switches[id].source)
            && (reply == RecentAuthRequired ==> t == s)
  {
  }

  /** A switch back to the account the key already has. */
  ghost predicate MayStay(s: State, id: string, now: int) {
    && OpenSwitch(s.ledger, id, now)
    && var row := s.ledger.switches[id];
       id != "" && row.source > 0 && row.principal > 0 && row.status == PendingTarget && row.target.None?
       && LiveKey(s, row.principal, row.source, now)
  }

  /** What a confirmation does to its switch short of completing it. */
  lemma ConfirmMovesExactly(s: State, id: string, target: int, console: string, recentAuth: bool, now: int)
    requires id in s.ledger.switches
    ensures var t, row := Confirm(s, id, target, console, recentAuth, now).0, s.ledger.switches[id];
            var pending := row.status == PendingTarget || row.status == PendingOnboarding;
            var overdue := row.expiresAt < now;
            var stays := target == row.source && MayStay(s, id, now);
            var waits := OpenSwitch(s.ledger, id, now) && recentAuth && row.status == PendingTarget
                         && target != row.source && target in s.people.agents
                         && !s.people.agents[target].onboarding.OnboardingCompleted?;
            && (pending && overdue ==> RowMoved(s.ledger, t.ledger, id, row.(status := Expired), AuditExpired, now))
            && (stays ==>
                  RowMoved(s.ledger, t.ledger, id, row.(status := CompletedNoop, completedAt := Some(now)),
                           AuditCompletedNoop, now))
            && (waits ==>
                  RowMoved(s.ledger, t.ledger, id, row.(target := Some(target), targetConsole := console,
                                                        verifiedAt := Some(now), status := PendingOnboarding),
                           AuditPendingOnboarding, now))
            && (t.ledger != s.ledger ==>
                  (pending && overdue) || stays || waits || Completes(s.ledger, t.ledger, id))
  {
    if OpenSwitch(s.ledger, id, now) {
      FinalizeExactly(s, id, Verified(s.ledger.switches[id], target, console, now), false, now);
    }
  }

  /** The answers of a confirmation. */
  lemma ConfirmAnswersExactly(s: State, id: string, target: int, console: string, recentAuth: bool, now: int)
    ensures var (t, reply) := Confirm(s, id, target, console, recentAuth, now);
            var known := id in s.ledger.switches;
            && (reply == SwitchUnauthorized <==>
                  !known || (now <= s.ledger.switches[id].expiresAt && (s.ledger.switches[id].status == Expired
                                                                        || s.ledger.switches[id].status == Revoked)))
            && (reply == SwitchExpired <==>
                  known && s.ledger.switches[id].expiresAt < now && s.ledger.switches[id].status != Completed
                  && s.ledger.switches[id].status != CompletedNoop)
            && (reply == RecentAuthRequired <==>
                  OpenSwitch(s.ledger, id, now) && target != s.ledger.switches[id].source && !recentAuth)
            && (reply == SwitchPending <==>
                  && OpenSwitch(s.ledger, id, now) && target != s.ledger.switches[id].source && recentAuth
                  && target in s.people.agents && !s.people.agents[target].onboarding.OnboardingCompleted?
                  && (s.ledger.switches[id].status == PendingOnboarding ==>
                        s.ledger.switches[id].target == Some(target) && s.ledger.switches[id].targetConsole == console))
            && (known && s.ledger.switches[id].status == Completed ==>
                  t == s && reply == if s.ledger.switches[id].target == Some(target) then SwitchCompleted(target, false)
                                     else SwitchConflict)
            && (known && s.ledger.switches[id].status == CompletedNoop ==>
                  t == s && reply == if target == s.ledger.switches[id].source
                                        && BoundKey(s.people, s.ledger.switches[id])
                                     then SwitchCompleted(target, true) else SwitchConflict)
            && (OpenSwitch(s.ledger, id, now) && target == s.ledger.switches[id].source ==>
                  reply == if MayStay(s, id, now) then SwitchCompleted(target, true) else SwitchConflict)
  {
    if OpenSwitch(s.ledger, id, now) {
      FinalizeExactly(s, id, Verified(s.ledger.switches[id], target, console, now), false, now);
    }
  }

  // ----------------------------------------------------------------- cancelling, reading, starting

  /** A pending switch, expired or not, can be cancelled, and nothing else can. */
  lemma CancelExactly(l: Ledger, id: string, now: int)
    ensures var (m, reply) := Cancel(l, id, now);
            var pending := id in l.switches
                           && (l.switches[id].status == PendingTarget || l.switches[id].status == PendingOnboarding);
            && (pending ==> reply == SwitchCancelled
                            && RowMoved(l, m, id, l.switches[id].(status := Revoked), AuditRevoked, now))
            && (!pending ==> m == l && reply == SwitchConflict)
  {
  }

  /** Reading expires a pending switch exactly when it is overdue. */
  lemma GetExactly(l: Ledger, id: string, now: int)
    ensures var m := GetSwitch(l, id, now);
            var overdue := id in l.switches && l.switches[id].expiresAt < now
                           && (l.switches[id].status == PendingTarget || l.switches[id].status == PendingOnboarding);
            && (overdue ==> RowMoved(l, m, id, l.switches[id].(status := Expired), AuditExpired, now))
            && (!overdue ==> m == l)
  {
  }

  /** The signed-in key of an active agent. */
  ghost predicate SignedIn(s: State, agentId: int, principal: int) {
    && agentId > 0 && agentId in s.people.agents && s.people.agents[agentId].identityActive
    && principal in s.people.principals
    && var p := s.people.principals[principal];
       p.agentId == agentId && p.revokedAt.None? && (p.status == Limited || p.status == Active)
  }

  /**
   A switch starts exactly for a usable key of an active agent under an unused id. It waits a day for
   its target, and the pending switch the key had is revoked.
   */
  lemma ExchangeExactly(s: State, agentId: int, principal: int, id: string, console: string, now: int)
    requires LedgerInv(s.ledger)
    ensures var (m, reply) := ExchangeHandoff(s, agentId, principal, id, console, now);
            var row := Switch(agentId, None, principal, console, "", PendingTarget, None, now + 86400000, None);
            && (reply == SwitchPending <==> SignedIn(s, agentId, principal) && id !in s.ledger.switches)
            && (reply == SwitchUnauthorized <==> !SignedIn(s, agentId, principal))
            && (reply != SwitchPending ==> m == s.ledger)
            && (reply == SwitchPending ==>
                  && m.switches.Keys == s.ledger.switches.Keys + {id} && m.switches[id] == row
                  && forall other <- s.ledger.switches :: m.switches[other]
                      == if s.ledger.switches[other].principal == principal && Pending(s.ledger.switches[other].status)
                         then s.ledger.switches[other].(status := Revoked) else s.ledger.switches[other])
  {
    RevokePendingKeeps(s.ledger, principal, now);
    forall other <- s.ledger.switches
      | s.ledger.switches[other].principal == principal && Pending(s.ledger.switches[other].status)
      ensures principal in s.ledger.pendingOf && s.ledger.pendingOf[principal] == other {
      assert SwitchOk(s.ledger, other);
    }
    if principal in s.ledger.pendingOf { assert PendingOk(s.ledger, principal); }
  }

  // ----------------------------------------------------------------- finishing onboarding

  /** A switch bound to a target completes with the target's onboarding exactly when the move may still be made. */
  lemma FinalizePendingExactly(s: State, id: string, target: int, console: string, now: int)
    requires LedgerInv(s.ledger)
    ensures var (t, reply) := FinalizePending(s, id, target, console, now);
            && (reply == Finalized <==>
                  && OpenSwitch(s.ledger, id, now)
                  && var row := s.ledger.switches[id];
                     && row.status == PendingOnboarding && row.target == Some(target) && row.targetConsole == console
                     && row.verifiedAt.Some? && ProperMove(id, row, target, console, row.verifiedAt.value)
                     && row.verifiedAt.value <= now && OnboardedAgent(s.people, target)
                     && LiveKey(s, row.principal, row.source, now))
            && (reply == Finalized ==>
                  && var row := s.ledger.switches[id];
                     && RowMoved(s.ledger, t.ledger, id, CompletedFor(row, target, console, row.verifiedAt.value, now),
                                 AuditCompleted, now)
                     && KeyMoved(s, t, row.principal, target, Active))
            && (reply != Finalized ==> t == s.(ledger := t.ledger))
  {
    if OpenSwitch(s.ledger, id, now) && s.ledger.switches[id].status == PendingOnboarding
        && s.ledger.switches[id].target.Some? {
      RejectedSwitchMovesNobody(s, id, target, console, now);
      if s.ledger.switches[id].verifiedAt.Some? { FinalizeExactly(s, id, s.ledger.switches[id], false, now); }
    }
  }

  /** What onboarding does to a switch bound to this target and console that it does not complete. */
  lemma FinalizePendingMovesExactly(s: State, id: string, target: int, console: string, now: int)
    requires LedgerInv(s.ledger) && id in s.ledger.switches
    ensures var (t, reply) := FinalizePending(s, id, target, console, now);
            var row := s.ledger.switches[id];
            var bound := row.status == PendingOnboarding && row.target == Some(target) && row.targetConsole == console;
            var open := bound && now <= row.expiresAt;
            var ready := row.verifiedAt.Some? && ProperMove(id, row, target, console, row.verifiedAt.value)
                         && row.verifiedAt.value <= now && BoundToSource(s.people, row);
            && (!bound ==> t == s && reply == NotFinalized)
            && (bound && row.expiresAt < now ==>
                  reply == NotFinalized && RowMoved(s.ledger, t.ledger, id, row.(status := Expired), AuditExpired, now))
            && (reply == FinalizeFailed <==> open && ready && !OnboardedAgent(s.people, target))
            && (reply == FinalizeFailed ==> t == s)
            && (open && reply == NotFinalized ==>
                  RowMoved(s.ledger, t.ledger, id, row.(status := Revoked), AuditRejected, now))
  {
    RejectedSwitchMovesNobody(s, id, target, console, now);
  }

  // ----------------------------------------------------------------- verifying the target's email

  /** The browser shows the source session, the code is right, and the owner of the email is settled. */
  ghost predicate ProvenEmail(s: State, proof: EmailProof) {
    && proof.holdsSourceSession && proof.otpOk && proof.resolved && proof.slotFound
    && if proof.created then proof.target !in s.people.agents
       else proof.target in s.people.agents && s.people.agents[proof.target].identityActive
  }

  ghost predicate BoundKey(people: People, row: Switch) {
    && row.principal in people.principals
    && var p := people.principals[row.principal];
       p.agentId == row.source && p.keyType == Ed25519 && p.revokedAt.None?
           && (p.status == Limited || p.status == Active)
  }

  /** An email may only move a switch that still waits for a target, for the key that started it. */
  ghost predicate MayVerify(s: State, id: string, proof: EmailProof, now: int) {
    && OpenSwitch(s.ledger, id, now) && s.ledger.switches[id].status == PendingTarget
    && BoundKey(s.people, s.ledger.switches[id]) && ProvenEmail(s, proof)
  }

  lemma VerifyEmailNeeds(s: State, id: string, proof: EmailProof, now: int)
    ensures EmailRefusal(s, id, proof, now).None? <==> MayVerify(s, id, proof, now)
    ensures !MayVerify(s, id, proof, now) ==>
        VerifyEmail(s, id, proof, now).0 == s && (VerifyEmail(s, id, proof, now).1 == SwitchUnauthorized
                                                  || VerifyEmail(s, id, proof, now).1 == SwitchConflict)
  {
  }

  /** The people once the email is verified: the target account, and a browser principal of its own. */
  ghost predicate BrowserAdded(s: State, t: State, proof: EmailProof) {
    && s.people.nextPrincipal !in s.people.principals
    && (!proof.created ==> proof.target in s.people.agents)
    && t.people.agents.Keys == s.people.agents.Keys + {proof.target}
    && (forall a <- s.people.agents :: a != proof.target ==> t.people.agents[a] == s.people.agents[a])
    && t.people.agents[proof.target] == (if proof.created then Agent(true, OnboardingOpen)
                                         else if s.people.agents[proof.target].onboarding.OnboardingMissing?
                                         then s.people.agents[proof.target].(onboarding := OnboardingOpen)
                                         else s.people.agents[proof.target])
    && t.people == People(t.people.agents,
                          s.people.principals[s.people.nextPrincipal :=
                            Principal(proof.target, EmailRecovery, proof.fingerprint, Limited, None)],
                          s.people.nextPrincipal + 1, s.people.byFingerprint)
    && t == s.(people := t.people)
  }

  lemma WithBrowserAdds(s: State, proof: EmailProof)
    requires Inv(s) && (!proof.created ==> proof.target in s.people.agents)
    ensures BrowserAdded(s, WithBrowser(s, proof), proof)
  {
    InsertPrincipalKeeps(s.people, ResolvedAgents(s.people, proof),
                         Principal(proof.target, EmailRecovery, proof.fingerprint, Limited, None));
  }

  /** The email completes the switch at once for a new or an onboarded account. */
  ghost predicate CompletesByEmail(s: State, id: string, proof: EmailProof, now: int) {
    && MayVerify(s, id, proof, now)
    && var row := s.ledger.switches[id];
       && ProperMove(id, row, proof.target, proof.console, now) && LiveKey(s, row.principal, row.source, now)
       && (proof.created || OnboardedAgent(s.people, proof.target))
  }

  /** A browser principal changes nothing about the key that is switched. */
  lemma BrowserKeepsKey(s: State, b: State, proof: EmailProof, principal: int, source: int, now: int)
    requires Inv(s) && BrowserAdded(s, b, proof)
    requires principal in s.people.principals
    ensures LiveKey(b, principal, source, now) <==> LiveKey(s, principal, source, now)
    ensures principal in b.people.principals && b.people.principals[principal] == s.people.principals[principal]
  {
  }

  lemma MoveAfterEmailExactly(s: State, b: State, id: string, proof: EmailProof, now: int)
    requires Inv(s) && BrowserAdded(s, b, proof) && MayVerify(s, id, proof, now)
    ensures var (t, reply) := MoveAfterEmail(b, id, s.ledger.switches[id], proof, now);
            var row := s.ledger.switches[id];
            && (Completes(s.ledger, t.ledger, id) <==> CompletesByEmail(s, id, proof, now))
            && (Completes(s.ledger, t.ledger, id) ==>
                  && reply == SwitchCompleted(proof.target, false)
                  && RowMoved(s.ledger, t.ledger, id, CompletedFor(row, proof.target, proof.console, now, now),
                              AuditCompleted, now)
                  && KeyMoved(b, t, row.principal, proof.target, if proof.created then Limited else Active))
  {
    var row := s.ledger.switches[id];
    BrowserKeepsKey(s, b, proof, row.principal, row.source, now);
    FinalizeExactly(b, id, Verified(row, proof.target, proof.console, now), proof.created, now);
  }

  /**
   Verifying the email completes the switch exactly when the browser and the email are proven, the key
   is live and the account is new or onboarded; it then adds the browser principal, moves that key and
   changes nothing else.
   */
  lemma VerifyEmailCompletesExactly(s: State, id: string, proof: EmailProof, now: int)
    requires Inv(s)
    ensures var (t, reply) := VerifyEmail(s, id, proof, now);
            && (Completes(s.ledger, t.ledger, id) <==> CompletesByEmail(s, id, proof, now))
            && (Completes(s.ledger, t.ledger, id) ==>
                  && (!proof.created ==> proof.target in s.people.agents)
                  && var row, b := s.ledger.switches[id], WithBrowser(s, proof);
                     && BrowserAdded(s, b, proof) && reply == SwitchCompleted(proof.target, false)
                     && RowMoved(s.ledger, t.ledger, id, CompletedFor(row, proof.target, proof.console, now, now),
                                 AuditCompleted, now)
                     && KeyMoved(b, t, row.principal, proof.target, if proof.created then Limited else Active))
  {
    VerifyEmailNeeds(s, id, proof, now);
    if MayVerify(s, id, proof, now) {
      WithBrowserAdds(s, proof);
      MoveAfterEmailExactly(s, WithBrowser(s, proof), id, proof, now);
    }
  }

  /** Short of completing the switch, a verified email leaves it on its account or waiting for onboarding. */
  lemma VerifyEmailMovesExactly(s: State, id: string, proof: EmailProof, now: int)
    requires Inv(s) && LedgerInv(s.ledger) && MayVerify(s, id, proof, now)
    ensures var (t, reply) := VerifyEmail(s, id, proof, now);
            var row := s.ledger.switches[id];
            var stays := proof.target == row.source && MayStay(s, id, now);
            var waits := proof.target != row.source && !proof.created
                         && !s.people.agents[proof.target].onboarding.OnboardingCompleted?;
            && (stays ==>
                  && reply == SwitchCompleted(proof.target, true) && BrowserAdded(s, t.(ledger := s.ledger), proof)
                  && RowMoved(s.ledger, t.ledger, id, row.(status := CompletedNoop, completedAt := Some(now)),
                              AuditCompletedNoop, now))
            && (waits ==>
                  && reply == SwitchPending && BrowserAdded(s, t.(ledger := s.ledger), proof)
                  && RowMoved(s.ledger, t.ledger, id,
                              row.(target := Some(proof.target), targetConsole := proof.console,
                                   verifiedAt := Some(now), status := PendingOnboarding), AuditPendingOnboarding, now))
            && (!stays && !waits && !CompletesByEmail(s, id, proof, now) ==> t == s)
  {
    VerifyEmailNeeds(s, id, proof, now);
    VerifyEmailCompletesExactly(s, id, proof, now);
    var b := WithBrowser(s, proof);
    WithBrowserAdds(s, proof);
    BrowserKeepsKey(s, b, proof, s.ledger.switches[id].principal, s.ledger.switches[id].source, now);
  }

  // ----------------------------------------------------------------- who caused a completion

  /** The event proves control of the target account: a recent email sign-in, or the emailed code. */
  ghost predicate Authorises(e: Event, id: string, target: int) {
    || (e.op.OpConfirm? && e.op.id == id && e.op.target == target && e.op.recentAuth)
    || (e.op.OpVerifyEmail? && e.op.id == id && e.op.proof.target == target && e.op.proof.otpOk
        && e.op.proof.holdsSourceSession)
  }

  /** A target that the switch has after a step it had before. */
  ghost predicate TargetKept(l: Ledger, m: Ledger, id: string) {
    id in m.switches && m.switches[id].target.Some? ==>
      id in l.switches && l.switches[id].target == m.switches[id].target
  }

  lemma ConfirmTargets(s: State, id: string, target: int, console: string, recentAuth: bool, now: int, other: string)
    ensures var m := Confirm(s, id, target, console, recentAuth, now).0.ledger;
            TargetKept(s.ledger, m, other) || (other == id && recentAuth && m.switches[id].target == Some(target))
  {
    ConfirmCompletesExactly(s, id, target, console, recentAuth, now);
    if id in s.ledger.switches { ConfirmMovesExactly(s, id, target, console, recentAuth, now); }
  }

  lemma VerifyEmailTargets(s: State, id: string, proof: EmailProof, now: int, other: string)
    requires Inv(s) && LedgerInv(s.ledger)
    ensures var m := VerifyEmail(s, id, proof, now).0.ledger;
            || TargetKept(s.ledger, m, other)
            || (other == id && proof.otpOk && proof.holdsSourceSession && m.switches[id].target == Some(proof.target))
  {
    VerifyEmailNeeds(s, id, proof, now);
    if MayVerify(s, id, proof, now) {
      VerifyEmailCompletesExactly(s, id, proof, now);
      VerifyEmailMovesExactly(s, id, proof, now);
    }
  }

  lemma FinalizePendingTargets(s: State, id: string, target: int, console: string, now: int, other: string)
    requires LedgerInv(s.ledger)
    ensures TargetKept(s.ledger, FinalizePending(s, id, target, console, now).0.ledger, other)
  {
    FinalizePendingExactly(s, id, target, console, now);
    if id in s.ledger.switches { FinalizePendingMovesExactly(s, id, target, console, now); }
  }

  lemma ExchangeTargets(s: State, agentId: int, principal: int, id: string, console: string, now: int, other: string)
    requires LedgerInv(s.ledger)
    ensures TargetKept(s.ledger, ExchangeHandoff(s, agentId, principal, id, console, now).0, other)
  {
    ExchangeExactly(s, agentId, principal, id, console, now);
  }

  /** A switch gets a target only from an event that proves control of it. */
  lemma TargetsComeFromProof(s: State, e: Event, id: string)
    requires Good(s)
    ensures var m := Step(s, e).ledger;
            TargetKept(s.ledger, m, id) || Authorises(e, id, m.switches[id].target.value)
  {
    match e.op
    case OpExchange(agentId, principal, switchId, console) =>
      ExchangeTargets(s, agentId, principal, switchId, console, e.now, id);
    case OpGet(switchId) => GetExactly(s.ledger, switchId, e.now);
    case OpConfirm(switchId, target, console, recentAuth) =>
      ConfirmTargets(s, switchId, target, console, recentAuth, e.now, id);
    case OpCancel(switchId) => CancelExactly(s.ledger, switchId, e.now);
    case OpFinalizePending(switchId, target, console) =>
      FinalizePendingTargets(s, switchId, target, console, e.now, id);
    case OpVerifyEmail(switchId, proof) => VerifyEmailTargets(s, switchId, proof, e.now, id);
    case _ => OtherOpsKeepLedger(s, e);
  }

  lemma {:induction false} TargetOrigin(events: seq<Event>, k: nat, id: string)
    requires k <= |events| && id in Before(events, k).ledger.switches
    requires Before(events, k).ledger.switches[id].target.Some?
    ensures exists i :: 0 <= i < k && Authorises(events[i], id, Before(events, k).ledger.switches[id].target.value)
  {
    if k > 0 {
      BeforeNext(events, k - 1);
      TargetsComeFromProof(Before(events, k - 1), events[k - 1], id);
      if TargetKept(Before(events, k - 1).ledger, Before(events, k).ledger, id) {
        TargetOrigin(events, k - 1, id);
      }
    }
  }

  /**
   In every run a switch completes only for a target whose owner proved control of it, by that very
   event or an earlier one: a confirmation with a recent email sign-in, or the emailed code entered in
   the browser that started the switch.
   */
  lemma CompletionWasAuthorised(events: seq<Event>, k: nat, id: string)
    requires k < |events| && Completes(Before(events, k).ledger, Before(events, k + 1).ledger, id)
    ensures var row := Before(events, k + 1).ledger.switches[id];
            row.target.Some? && exists i :: 0 <= i <= k && Authorises(events[i], id, row.target.value)
  {
    BeforeNext(events, k);
    StepKeepsGood(Before(events, k), events[k]);
    assert SwitchOk(Before(events, k + 1).ledger, id);
    TargetOrigin(events, k + 1, id);
    var target := Before(events, k + 1).ledger.switches[id].target.value;
    var i :| 0 <= i < k + 1 && Authorises(events[i], id, target);
  }
}
