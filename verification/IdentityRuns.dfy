/** Whole runs of the identity tables: any callers, any order, each transaction one step. */
module IdentityRuns {
  import opened Common
  import opened IdentityState
  import opened Credentials
  import opened CredentialChains
  import opened AccountSwitch
  import opened SwitchHistory
  import opened AccountRecovery

  datatype Op =
    | OpProvision(provision: ProvisionRequest)
    | OpIssueGrant(request: GrantRequest, nonce: string)
    | OpDeviceChallenge(agentId: int, console: string, fingerprint: string, nonce: string, recentAuth: bool)
    | OpLinkDevice(link: LinkRequest)
    | OpChallenge(token: RefreshToken, requestId: string, nonce: string)
    | OpRefresh(refresh: RefreshRequest)
    | OpExchange(agentId: int, principal: int, id: string, console: string)
    | OpGet(id: string)
    | OpConfirm(id: string, target: int, console: string, recentAuth: bool)
    | OpCancel(id: string)
    | OpFinalizePending(id: string, target: int, console: string)
    | OpVerifyEmail(id: string, proof: EmailProof)
    | OpRecover(recovery: RecoveryRequest)
    | OpRevokePrincipal(agentId: int, principal: int)
    | OpCompleteOnboarding(agentId: int)
    | OpSetAgent(agentId: int, agent: Agent)

  /** A transaction and the clock reading it uses; readings need not be ordered. */
  datatype Event = Event(op: Op, now: int)

  /** revokePrincipal: a device key of the agent and all its sessions. */
  function RevokePrincipal(s: State, agentId: int, principal: int, now: int): State {
    if principal !in s.people.principals then s
    else
      var row := s.people.principals[principal];
      if row.agentId != agentId || row.keyType != Ed25519 || row.status == PrincipalRevoked then s
      else
        s.(people := s.people.(principals := s.people.principals[principal := row.(status := PrincipalRevoked,
                                                                                   revokedAt := Some(now))]),
           creds := s.creds.(sessions := RevokePrincipalSessions(s.creds.sessions, principal, now)))
  }

  /** The last onboarding step: limited keys of the agent become active. */
  function CompleteOnboarding(s: State, agentId: int): State {
    if agentId !in s.people.agents then s
    else
      s.(people := s.people.(
         agents := s.people.agents[agentId := s.people.agents[agentId].(onboarding := OnboardingCompleted)],
         principals := map p | p in s.people.principals ::
           var row := s.people.principals[p];
           if row.agentId == agentId && row.status == Limited && row.revokedAt.None? then row.(status := Active)
           else row))
  }

  function Step(s: State, e: Event): State {
    match e.op
    case OpProvision(req) => Provision(s, req, e.now).0
    case OpIssueGrant(req, nonce) => IssueGrant(s, req, nonce, e.now).0
    case OpDeviceChallenge(agentId, console, fingerprint, nonce, recentAuth) =>
      DeviceChallenge(s, agentId, console, fingerprint, nonce, recentAuth, e.now).0
    case OpLinkDevice(req) => LinkDevice(s, req, e.now).0
    case OpChallenge(token, requestId, nonce) => Challenge(s, token, requestId, nonce, e.now).0
    case OpRefresh(req) => Refresh(s, req, e.now).0
    case OpExchange(agentId, principal, id, console) =>
      SetLedger(s, ExchangeHandoff(s, agentId, principal, id, console, e.now).0)
    case OpGet(id) => SetLedger(s, GetSwitch(s.ledger, id, e.now))
    case OpConfirm(id, target, console, recentAuth) => Confirm(s, id, target, console, recentAuth, e.now).0
    case OpCancel(id) => SetLedger(s, Cancel(s.ledger, id, e.now).0)
    case OpFinalizePending(id, target, console) => FinalizePending(s, id, target, console, e.now).0
    case OpVerifyEmail(id, proof) => VerifyEmail(s, id, proof, e.now).0
    case OpRecover(req) => Recover(s, req, e.now).0
    case OpRevokePrincipal(agentId, principal) => RevokePrincipal(s, agentId, principal, e.now)
    case OpCompleteOnboarding(agentId) => CompleteOnboarding(s, agentId)
    case OpSetAgent(agentId, agent) => s.(people := s.people.(agents := s.people.agents[agentId := agent]))
  }

  function Run(s: State, events: seq<Event>): State
    decreases |events|
  {
    if events == [] then s else Run(Step(s, events[0]), events[1..])
  }

  const EMPTY: State :=
    State(People(map[], map[], 1, map[]), Creds(map[], map[], map[], 1), map[], map[], Ledger(map[], map[], []))

  // ----------------------------------------------------------------- what a switch step changes

  /** What the switch handlers may do outside the ledger: add principals, rebind them, and set refresh flags. */
  ghost predicate Flagging(s: State, t: State) {
    && SameKeys(s.people, t.people)
    && RemarkedAll(s.creds, t.creds)
    && (forall id <- s.creds.sessions :: s.creds.sessions[id].refreshRequired ==> t.creds.sessions[id].refreshRequired)
  }

  /** Finished switches keep their rows and no switch completes. */
  ghost predicate QuietLedger(l: Ledger, m: Ledger) {
    && FinishedFrozen(l, m)
    && (forall id <- m.switches ::
          m.switches[id].status == Completed ==> id in l.switches && l.switches[id].status == Completed)
  }

  /** Finished switches never change again. */
  ghost predicate FinishedFrozen(l: Ledger, m: Ledger) {
    forall id <- l.switches ::
        id in m.switches && (!Pending(l.switches[id].status) ==> m.switches[id] == l.switches[id])
  }

  /** The step only moves switches, and completes none. */
  ghost predicate LedgerOnly(s: State, t: State) {
    t.people == s.people && t.creds == s.creds && QuietLedger(s.ledger, t.ledger)
  }

  lemma ConfirmCases(s: State, id: string, target: int, console: string, recentAuth: bool, now: int)
    ensures var t := Confirm(s, id, target, console, recentAuth, now).0;
            || LedgerOnly(s, t)
            || (id in s.ledger.switches && Finalize(s, id, Verified(s.ledger.switches[id], target, console, now),
                                                    false, now) == (t, Done))
  {
  }

  lemma FinalizePendingCases(s: State, id: string, target: int, console: string, now: int)
    requires LedgerInv(s.ledger)
    ensures var t := FinalizePending(s, id, target, console, now).0;
            || LedgerOnly(s, t)
            || (id in s.ledger.switches && Finalize(s, id, s.ledger.switches[id], false, now) == (t, Done))
  {
    RejectedSwitchMovesNobody(s, id, target, console, now);
  }

  lemma VerifyEmailCases(s: State, id: string, proof: EmailProof, now: int)
    ensures var t := VerifyEmail(s, id, proof, now).0;
            || t == s
            || ((!proof.created ==> proof.target in s.people.agents) && id in s.ledger.switches
                && NoopBinding(s.people, s.ledger.switches[id])
                && var s1 := WithBrowser(s, proof);
                   || LedgerOnly(s1, t)
                   || Finalize(s1, id, Verified(s.ledger.switches[id], proof.target, proof.console, now),
                               proof.created, now) == (t, Done))
  {
  }

  predicate MayFinalize(op: Op) {
    op.OpConfirm? || op.OpFinalizePending? || op.OpVerifyEmail?
  }

  predicate LedgerOp(op: Op) {
    op.OpExchange? || op.OpGet? || op.OpCancel?
  }

  /** Moving a pending switch anywhere but to completed is quiet. */
  lemma MovedQuiet(l: Ledger, id: string, row: Switch, record: Switch, result: AuditResult, now: int)
    requires id in l.switches && Pending(l.switches[id].status) && row.status != Completed
    ensures QuietLedger(l, Moved(l, id, row, record, result, now))
  {
  }

  lemma ExchangeQuiet(s: State, agentId: int, principal: int, id: string, console: string, now: int)
    requires LedgerInv(s.ledger)
    ensures QuietLedger(s.ledger, ExchangeHandoff(s, agentId, principal, id, console, now).0)
  {
    var l := s.ledger;
    if principal in l.pendingOf {
      assert PendingOk(l, principal);
      var pending := l.pendingOf[principal];
      MovedQuiet(l, pending, l.switches[pending].(status := Revoked), l.switches[pending], AuditRevoked, now);
    }
  }

  lemma LedgerOpCases(s: State, e: Event)
    requires LedgerInv(s.ledger) && LedgerOp(e.op)
    ensures LedgerOnly(s, Step(s, e))
  {
    match e.op
    case OpExchange(agentId, principal, id, console) => ExchangeQuiet(s, agentId, principal, id, console, e.now);
    case OpGet(id) =>
    case OpCancel(id) =>
  }

  lemma RebindKeeps(people: People, principal: int, target: int, status: PrincipalStatus)
    requires PeopleOk(people) && principal in people.principals && target in people.agents
    ensures PeopleOk(Rebind(people, principal, target, status))
    ensures SameKeys(people, Rebind(people, principal, target, status))
  {
    var q := Rebind(people, principal, target, status);
    forall p <- q.principals ensures PrincipalOk(q, p) { assert PrincipalOk(people, p); }
    forall f <- q.byFingerprint ensures FingerprintOk(q, f) { assert FingerprintOk(people, f); }
  }

  lemma RequireRefreshRemarks(c: Creds, principal: int)
    ensures var d := c.(sessions := RequireRefresh(c.sessions, principal));
            RemarkedAll(c, d) && forall id <- c.sessions ::
                c.sessions[id].refreshRequired ==> d.sessions[id].refreshRequired
  {
    var d := c.(sessions := RequireRefresh(c.sessions, principal));
    forall id <- c.sessions ensures RemarkedAt(c, d, id) {}
  }

  lemma MovePrincipalFlags(s: State, principal: int, target: int)
    requires Inv(s) && principal in s.people.principals && target in s.people.agents
    ensures Inv(MovePrincipal(s, principal, target)) && Flagging(s, MovePrincipal(s, principal, target))
  {
    var t := MovePrincipal(s, principal, target);
    RebindKeeps(s.people, principal, target, t.people.principals[principal].status);
    RequireRefreshRemarks(s.creds, principal);
    RemarkKeeps(s.people, s.creds, t.people, t.creds);
  }

  lemma FinalizeFlags(s: State, id: string, record: Switch, newAccount: bool, now: int)
    requires Inv(s)
    ensures Inv(Finalize(s, id, record, newAccount, now).0)
    ensures Flagging(s, Finalize(s, id, record, newAccount, now).0)
  {
    SamePeople(s.people, s.creds);
    if FinalizeGuard(s, id, record, newAccount, now) == Done {
      MovePrincipalFlags(s, record.principal, record.target.value);
    }
  }

  lemma BrowserFlags(s: State, proof: EmailProof)
    requires Inv(s) && (!proof.created ==> proof.target in s.people.agents)
    ensures Inv(WithBrowser(s, proof)) && Flagging(s, WithBrowser(s, proof))
    ensures forall p <- s.people.principals ::
              p in WithBrowser(s, proof).people.principals && WithBrowser(s, proof).people.principals[p]
                  == s.people.principals[p]
  {
    var row := Principal(proof.target, EmailRecovery, proof.fingerprint, Limited, None);
    InsertPrincipalKeeps(s.people, ResolvedAgents(s.people, proof), row);
    SamePeople(s.people, s.creds);
    RemarkKeeps(s.people, s.creds, WithBrowser(s, proof).people, s.creds);
  }

  lemma FlaggingTransitive(s: State, t: State, u: State)
    requires Flagging(s, t) && Flagging(t, u)
    ensures Flagging(s, u)
  {
    forall id <- s.creds.sessions ensures RemarkedAt(s.creds, u.creds, id) {
      assert RemarkedAt(s.creds, t.creds, id) && RemarkedAt(t.creds, u.creds, id);
    }
  }

  lemma VerifyEmailFlags(s: State, id: string, proof: EmailProof, now: int)
    requires Inv(s)
    ensures Inv(VerifyEmail(s, id, proof, now).0) && Flagging(s, VerifyEmail(s, id, proof, now).0)
  {
    var t := VerifyEmail(s, id, proof, now).0;
    VerifyEmailCases(s, id, proof, now);
    SamePeople(s.people, s.creds);
    if t != s {
      var s1 := WithBrowser(s, proof);
      BrowserFlags(s, proof);
      FinalizeFlags(s1, id, Verified(s.ledger.switches[id], proof.target, proof.console, now), proof.created, now);
      if !LedgerOnly(s1, t) { FlaggingTransitive(s, s1, t); }
    }
  }

  /** A step that either only moves switches or finalizes one keeps the invariant and only sets flags. */
  lemma FinalizesOrQuietFlags(s: State, t: State, id: string, record: Switch, now: int)
    requires Inv(s) && (LedgerOnly(s, t) || Finalize(s, id, record, false, now) == (t, Done))
    ensures Inv(t) && Flagging(s, t)
  {
    SamePeople(s.people, s.creds);
    FinalizeFlags(s, id, record, false, now);
  }

  lemma ConfirmFlags(s: State, id: string, target: int, console: string, recentAuth: bool, now: int)
    requires Good(s)
    ensures var t := Confirm(s, id, target, console, recentAuth, now).0; Inv(t) && Flagging(s, t)
  {
    SamePeople(s.people, s.creds);
    if id in s.ledger.switches {
      ConfirmCases(s, id, target, console, recentAuth, now);
      FinalizesOrQuietFlags(s, Confirm(s, id, target, console, recentAuth, now).0, id,
                            Verified(s.ledger.switches[id], target, console, now), now);
    }
  }

  lemma FinalizePendingFlags(s: State, id: string, target: int, console: string, now: int)
    requires Good(s)
    ensures var t := FinalizePending(s, id, target, console, now).0; Inv(t) && Flagging(s, t)
  {
    SamePeople(s.people, s.creds);
    if id in s.ledger.switches {
      FinalizePendingCases(s, id, target, console, now);
      FinalizesOrQuietFlags(s, FinalizePending(s, id, target, console, now).0, id, s.ledger.switches[id], now);
    }
  }

  lemma LedgerOnlyFlags(s: State, t: State)
    requires Inv(s) && LedgerOnly(s, t)
    ensures Inv(t) && Flagging(s, t)
  {
    SamePeople(s.people, s.creds);
  }

  lemma AgentsFlags(s: State, agents: map<int, Agent>)
    requires Inv(s) && s.people.agents.Keys <= agents.Keys
    ensures var t := s.(people := s.people.(agents := agents)); Inv(t) && Flagging(s, t)
  {
    var q := s.people.(agents := agents);
    SamePeople(s.people, s.creds);
    forall p <- q.principals ensures PrincipalOk(q, p) { assert PrincipalOk(s.people, p); }
    forall f <- q.byFingerprint ensures FingerprintOk(q, f) { assert FingerprintOk(s.people, f); }
    RemarkKeeps(s.people, s.creds, q, s.creds);
  }

  lemma AbandonFlags(s: State, agentId: int, now: int)
    requires Inv(s) && agentId in s.people.agents
    ensures Inv(Abandon(s, agentId, now)) && Flagging(s, Abandon(s, agentId, now))
  {
    var t := Abandon(s, agentId, now);
    forall p <- t.people.principals ensures PrincipalOk(t.people, p) { assert PrincipalOk(s.people, p); }
    forall f <- t.people.byFingerprint ensures FingerprintOk(t.people, f) { assert FingerprintOk(s.people, f); }
    forall id <- s.creds.sessions ensures RemarkedAt(s.creds, t.creds, id) {}
    RemarkKeeps(s.people, s.creds, t.people, t.creds);
  }

  lemma RecoverFlags(s: State, req: RecoveryRequest, now: int)
    requires Inv(s)
    ensures Inv(Recover(s, req, now).0) && Flagging(s, Recover(s, req, now).0)
  {
    SamePeople(s.people, s.creds);
    if MayRecover(s, req) {
      var agents := EnsureOnboarding(s.people.agents, req.target);
      AgentsFlags(s, agents);
      var ready := s.(people := s.people.(agents := agents));
      MovePrincipalFlags(ready, req.principal, req.target);
      var moved := MovePrincipal(ready, req.principal, req.target);
      FlaggingTransitive(s, ready, moved);
      if req.abandon {
        AbandonFlags(moved, req.source, now);
        FlaggingTransitive(s, moved, Abandon(moved, req.source, now));
      }
    }
  }

  lemma SwitchOpFlags(s: State, e: Event)
    requires Good(s) && (LedgerOp(e.op) || MayFinalize(e.op) || e.op.OpRecover?)
    ensures Inv(Step(s, e)) && Flagging(s, Step(s, e))
  {
    match e.op
    case OpConfirm(id, target, console, recentAuth) => ConfirmFlags(s, id, target, console, recentAuth, e.now);
    case OpFinalizePending(id, target, console) => FinalizePendingFlags(s, id, target, console, e.now);
    case OpVerifyEmail(id, proof) => VerifyEmailFlags(s, id, proof, e.now);
    case OpRecover(req) => RecoverFlags(s, req, e.now);
    case _ =>
      LedgerOpCases(s, e);
      LedgerOnlyFlags(s, Step(s, e));
  }

  // ----------------------------------------------------------------- invariants over runs

  lemma StepKeepsInv(s: State, e: Event)
    requires Good(s)
    ensures Inv(Step(s, e))
  {
    match e.op
    case OpProvision(req) => ProvisionKeepsInv(s, req, e.now);
    case OpIssueGrant(req, nonce) => IssueGrantKeepsInv(s, req, nonce, e.now);
    case OpDeviceChallenge(_, _, _, _, _) =>
    case OpLinkDevice(req) => LinkKeepsInv(s, req, e.now);
    case OpChallenge(token, requestId, nonce) => ChallengeKeepsInv(s, token, requestId, nonce, e.now);
    case OpRefresh(req) => RefreshKeepsInv(s, req, e.now);
    case OpRevokePrincipal(agentId, principal) => RevokePrincipalKeepsInv(s, agentId, principal, e.now);
    case OpCompleteOnboarding(agentId) => CompleteOnboardingKeepsInv(s, agentId);
    case OpSetAgent(agentId, agent) => AgentsFlags(s, s.people.agents[agentId := agent]);
    case _ => SwitchOpFlags(s, e);
  }

  lemma IssueGrantKeepsInv(s: State, req: GrantRequest, nonce: string, now: int)
    requires Inv(s)
    ensures Inv(IssueGrant(s, req, nonce, now).0)
  {
  }

  lemma RevokePrincipalKeepsInv(s: State, agentId: int, principal: int, now: int)
    requires Inv(s)
    ensures Inv(RevokePrincipal(s, agentId, principal, now))
  {
    var t := RevokePrincipal(s, agentId, principal, now);
    if t != s {
      forall p <- t.people.principals ensures PrincipalOk(t.people, p) { assert PrincipalOk(s.people, p); }
      forall f <- t.people.byFingerprint ensures FingerprintOk(t.people, f) { assert FingerprintOk(s.people, f); }
      RemarkKeeps(s.people, s.creds, t.people, t.creds);
    }
  }

  lemma CompleteOnboardingKeepsInv(s: State, agentId: int)
    requires Inv(s)
    ensures Inv(CompleteOnboarding(s, agentId))
  {
    var t := CompleteOnboarding(s, agentId);
    SamePeople(s.people, s.creds);
    forall p <- t.people.principals ensures PrincipalOk(t.people, p) { assert PrincipalOk(s.people, p); }
    forall f <- t.people.byFingerprint ensures FingerprintOk(t.people, f) { assert FingerprintOk(s.people, f); }
    RemarkKeeps(s.people, s.creds, t.people, t.creds);
  }

  lemma StepKeepsLedger(s: State, e: Event)
    requires LedgerInv(s.ledger)
    ensures LedgerInv(Step(s, e).ledger)
  {
    if LedgerOp(e.op) || MayFinalize(e.op) { SwitchOpKeepsLedger(s, e); } else { OtherOpsKeepLedger(s, e); }
  }

  lemma SwitchOpKeepsLedger(s: State, e: Event)
    requires LedgerInv(s.ledger) && (LedgerOp(e.op) || MayFinalize(e.op))
    ensures LedgerInv(Step(s, e).ledger)
  {
    match e.op
    case OpExchange(agentId, principal, id, console) => ExchangeKeeps(s, agentId, principal, id, console, e.now);
    case OpGet(id) => if id in s.ledger.switches { ExpireKeeps(s.ledger, id, e.now); }
    case OpConfirm(id, target, console, recentAuth) => ConfirmKeeps(s, id, target, console, recentAuth, e.now);
    case OpCancel(id) => CancelKeeps(s.ledger, id, e.now);
    case OpFinalizePending(id, target, console) => RejectedSwitchMovesNobody(s, id, target, console, e.now);
    case OpVerifyEmail(id, proof) => VerifyEmailKeeps(s, id, proof, e.now);
  }

  lemma OtherOpsKeepLedger(s: State, e: Event)
    requires !LedgerOp(e.op) && !MayFinalize(e.op)
    ensures Step(s, e).ledger == s.ledger
  {
  }

  ghost predicate Good(s: State) {
    Inv(s) && LedgerInv(s.ledger)
  }

  lemma StepKeepsGood(s: State, e: Event)
    requires Good(s)
    ensures Good(Step(s, e))
  {
    StepKeepsInv(s, e);
    StepKeepsLedger(s, e);
  }

  lemma {:induction false} RunKeepsGood(s: State, events: seq<Event>)
    requires Good(s)
    ensures Good(Run(s, events))
    decreases |events|
  {
    if events != [] {
      StepKeepsGood(s, events[0]);
      RunKeepsGood(Step(s, events[0]), events[1..]);
    }
  }

  /** In every reachable state a credential family is one chain. */
  lemma ReachableFamiliesAreChains(events: seq<Event>, family: Family)
    ensures exists chain :: IsChain(Run(EMPTY, events), family, chain)
  {
    RunKeepsGood(EMPTY, events);
    FamilyIsOneChain(Run(EMPTY, events), family);
  }

  /**
   In every reachable state replaying a switch's audit rows yields its status, and no principal has
   two pending switches.
   */
  lemma ReachableSwitches(events: seq<Event>, a: string, b: string)
    requires a in Run(EMPTY, events).ledger.switches && b in Run(EMPTY, events).ledger.switches
    ensures var l := Run(EMPTY, events).ledger;
            && ReplayAudit(l.audit, a) == Some(l.switches[a].status)
            && (Pending(l.switches[a].status) && Pending(l.switches[b].status) ==>
                  l.switches[a].principal == l.switches[b].principal ==> a == b)
  {
    RunKeepsGood(EMPTY, events);
    var l := Run(EMPTY, events).ledger;
    assert SwitchOk(l, a) && SwitchOk(l, b);
  }

  // ----------------------------------------------------------------- finished switches and moved principals

  ghost predicate Completes(l: Ledger, m: Ledger, id: string) {
    id in m.switches && m.switches[id].status == Completed && !(id in l.switches && l.switches[id].status == Completed)
  }

  /** A principal changes agent exactly when one of its switches completes, and then from source to target. */
  ghost predicate MovesWithSwitch(s: State, t: State) {
    && (forall p <- s.people.principals :: p in t.people.principals)
    && (forall p <- s.people.principals ::
          t.people.principals[p].agentId != s.people.principals[p].agentId
          <==> exists id :: Completes(s.ledger, t.ledger, id) && t.ledger.switches[id].principal == p)
    && (forall id {:trigger Completes(s.ledger, t.ledger, id)} :: Completes(s.ledger, t.ledger, id) ==>
          var row := t.ledger.switches[id];
          && row.principal in s.people.principals && row.target.Some?
          && s.people.principals[row.principal].agentId == row.source
          && t.people.principals[row.principal].agentId == row.target.value)
  }

  /** A step that keeps every binding and completes no switch. */
  lemma QuietMoves(s: State, t: State)
    requires forall p <- s.people.principals ::
        p in t.people.principals && t.people.principals[p].agentId == s.people.principals[p].agentId
    requires QuietLedger(s.ledger, t.ledger)
    ensures MovesWithSwitch(s, t)
  {
  }

  lemma FinalizeMoves(s: State, id: string, record: Switch, newAccount: bool, now: int)
    requires Finalize(s, id, record, newAccount, now).1 == Done
    ensures var t := Finalize(s, id, record, newAccount, now).0;
            MovesWithSwitch(s, t) && FinishedFrozen(s.ledger, t.ledger) && Locked(t, record.principal)
            && forall other :: Completes(s.ledger, t.ledger, other) ==>
                t.ledger.switches[other].principal == record.principal
  {
    var t := Finalize(s, id, record, newAccount, now).0;
    assert Completes(s.ledger, t.ledger, id);
    forall other | Completes(s.ledger, t.ledger, other) ensures other == id {}
  }

  /** Every credential of the principal is revoked or must be refreshed first. */
  ghost predicate Locked(s: State, principal: int) {
    forall id <- s.creds.sessions :: s.creds.sessions[id].principal == principal ==>
      s.creds.sessions[id].revokedAt.Some? || s.creds.sessions[id].refreshRequired
  }

  /** What every transaction does to switches, bindings and the credentials of a principal whose switch completes. */
  ghost predicate SwitchStep(s: State, t: State) {
    && MovesWithSwitch(s, t)
    && FinishedFrozen(s.ledger, t.ledger)
    && forall id {:trigger Completes(s.ledger, t.ledger, id)} ::
        Completes(s.ledger, t.ledger, id) ==> Locked(t, t.ledger.switches[id].principal)
  }

  lemma VerifyEmailMoves(s: State, id: string, proof: EmailProof, now: int)
    requires Inv(s)
    ensures SwitchStep(s, VerifyEmail(s, id, proof, now).0)
  {
    var t := VerifyEmail(s, id, proof, now).0;
    VerifyEmailCases(s, id, proof, now);
    if t == s {
      QuietMoves(s, t);
    } else {
      var s1 := WithBrowser(s, proof);
      BrowserFlags(s, proof);
      if LedgerOnly(s1, t) {
        QuietMoves(s, t);
      } else {
        FinalizeMoves(s1, id, Verified(s.ledger.switches[id], proof.target, proof.console, now), proof.created, now);
        BrowserThenMove(s, s1, t, s.ledger.switches[id].principal);
      }
    }
  }

  /** Adding principals before a move changes nothing for the principals that were there. */
  lemma BrowserThenMove(s: State, s1: State, t: State, principal: int)
    requires MovesWithSwitch(s1, t) && s1.ledger == s.ledger && principal in s.people.principals
    requires forall p <- s.people.principals ::
        p in s1.people.principals && s1.people.principals[p] == s.people.principals[p]
    requires forall id :: Completes(s.ledger, t.ledger, id) ==> t.ledger.switches[id].principal == principal
    ensures MovesWithSwitch(s, t)
  {
  }

  /** The step touches no switch and no binding. */
  ghost predicate SameBindings(s: State, t: State) {
    && t.ledger == s.ledger
    && forall p <- s.people.principals ::
        p in t.people.principals && t.people.principals[p].agentId == s.people.principals[p].agentId
  }

  lemma SameBindingsQuiet(s: State, t: State)
    requires SameBindings(s, t)
    ensures SwitchStep(s, t)
  {
    QuietMoves(s, t);
  }

  lemma ProvisionQuiet(s: State, req: ProvisionRequest, now: int)
    requires Inv(s)
    ensures SameBindings(s, Provision(s, req, now).0)
  {
    forall p <- s.people.principals ensures p < s.people.nextPrincipal { assert PrincipalOk(s.people, p); }
  }

  lemma LinkQuiet(s: State, req: LinkRequest, now: int)
    requires Inv(s)
    ensures SameBindings(s, LinkDevice(s, req, now).0)
  {
    forall p <- s.people.principals ensures p < s.people.nextPrincipal { assert PrincipalOk(s.people, p); }
  }

  lemma ChallengeQuiet(s: State, token: RefreshToken, requestId: string, nonce: string, now: int)
    ensures SameBindings(s, Challenge(s, token, requestId, nonce, now).0)
  {
  }

  lemma RefreshQuiet(s: State, req: RefreshRequest, now: int)
    ensures SameBindings(s, Refresh(s, req, now).0)
  {
  }

  lemma IssueGrantQuiet(s: State, req: GrantRequest, nonce: string, now: int)
    ensures SameBindings(s, IssueGrant(s, req, nonce, now).0)
  {
  }

  lemma RevokePrincipalQuiet(s: State, agentId: int, principal: int, now: int)
    ensures SameBindings(s, RevokePrincipal(s, agentId, principal, now))
  {
  }

  lemma OtherOpsQuiet(s: State, e: Event)
    requires Good(s) && !LedgerOp(e.op) && !MayFinalize(e.op) && !e.op.OpRecover?
    ensures SameBindings(s, Step(s, e))
  {
    match e.op
    case OpProvision(req) => ProvisionQuiet(s, req, e.now);
    case OpLinkDevice(req) => LinkQuiet(s, req, e.now);
    case OpChallenge(token, requestId, nonce) => ChallengeQuiet(s, token, requestId, nonce, e.now);
    case OpRefresh(req) => RefreshQuiet(s, req, e.now);
    case OpIssueGrant(req, nonce) => IssueGrantQuiet(s, req, nonce, e.now);
    case OpDeviceChallenge(_, _, _, _, _) =>
    case OpRevokePrincipal(agentId, principal) => RevokePrincipalQuiet(s, agentId, principal, e.now);
    case OpCompleteOnboarding(agentId) =>
    case OpSetAgent(_, _) =>
  }

  /** What a recovery does: it moves its principal from source to target, locked, and nobody else. */
  ghost predicate RecoveryStep(s: State, req: RecoveryRequest, done: bool, t: State) {
    && t.ledger == s.ledger
    && (forall p <- s.people.principals :: p in t.people.principals)
    && (forall p <- s.people.principals ::
          t.people.principals[p].agentId
          == if done && p == req.principal then req.target else s.people.principals[p].agentId)
    && (done ==> req.principal in s.people.principals && s.people.principals[req.principal].agentId == req.source
                 && Locked(t, req.principal))
  }

  lemma RecoverMoves(s: State, req: RecoveryRequest, now: int)
    requires Inv(s)
    ensures RecoveryStep(s, req, Recover(s, req, now).1, Recover(s, req, now).0)
  {
  }

  /**
   Every transaction but a recovery keeps finished switches, moves a principal exactly with a
   completing switch, and locks that principal's credentials.
   */
  lemma StepMovesWithSwitch(s: State, e: Event)
    requires Good(s) && !e.op.OpRecover?
    ensures SwitchStep(s, Step(s, e))
  {
    var t := Step(s, e);
    if LedgerOp(e.op) {
      LedgerOpCases(s, e);
      QuietMoves(s, t);
    } else if e.op.OpVerifyEmail? {
      VerifyEmailMoves(s, e.op.id, e.op.proof, e.now);
    } else if MayFinalize(e.op) {
      FinalizingMoves(s, e);
    } else {
      OtherOpsQuiet(s, e);
      SameBindingsQuiet(s, t);
    }
  }

  lemma FinalizesOrQuiet(s: State, t: State, id: string, record: Switch, now: int)
    requires LedgerOnly(s, t) || Finalize(s, id, record, false, now) == (t, Done)
    ensures SwitchStep(s, t)
  {
    if LedgerOnly(s, t) {
      QuietMoves(s, t);
    } else {
      FinalizeMoves(s, id, record, false, now);
    }
  }

  lemma FinalizingMoves(s: State, e: Event)
    requires Good(s) && (e.op.OpConfirm? || e.op.OpFinalizePending?)
    ensures SwitchStep(s, Step(s, e))
  {
    var t := Step(s, e);
    if e.op.id !in s.ledger.switches {
      QuietMoves(s, t);
    } else if e.op.OpConfirm? {
      ConfirmCases(s, e.op.id, e.op.target, e.op.console, e.op.recentAuth, e.now);
      FinalizesOrQuiet(s, t, e.op.id, Verified(s.ledger.switches[e.op.id], e.op.target, e.op.console, e.now), e.now);
    } else {
      FinalizePendingCases(s, e.op.id, e.op.target, e.op.console, e.now);
      FinalizesOrQuiet(s, t, e.op.id, s.ledger.switches[e.op.id], e.now);
    }
  }

  /** Over any run a finished switch keeps its row. */
  lemma {:induction false} FinishedSwitchesNeverChange(s: State, events: seq<Event>, id: string)
    requires Good(s) && id in s.ledger.switches && !Pending(s.ledger.switches[id].status)
    ensures id in Run(s, events).ledger.switches && Run(s, events).ledger.switches[id] == s.ledger.switches[id]
    decreases |events|
  {
    if events != [] {
      StepKeepsGood(s, events[0]);
      if !events[0].op.OpRecover? { StepMovesWithSwitch(s, events[0]); }
      FinishedSwitchesNeverChange(Step(s, events[0]), events[1..], id);
    }
  }

  // ----------------------------------------------------------------- one step of a run

  /** The state before event `k` of a run from empty tables. */
  function Before(events: seq<Event>, k: nat): State
    requires k <= |events|
  {
    Run(EMPTY, events[..k])
  }

  lemma {:induction false} RunAppended(s: State, events: seq<Event>, e: Event)
    ensures Run(s, events + [e]) == Step(Run(s, events), e)
    decreases |events|
  {
    if events == [] {
      assert ([e])[1..] == [];
    } else {
      assert (events + [e])[1..] == events[1..] + [e];
      RunAppended(Step(s, events[0]), events[1..], e);
    }
  }

  lemma BeforeNext(events: seq<Event>, k: nat)
    requires k < |events|
    ensures Before(events, k + 1) == Step(Before(events, k), events[k]) && Good(Before(events, k))
  {
    assert events[..k + 1] == events[..k] + [events[k]];
    RunAppended(EMPTY, events[..k], events[k]);
    RunKeepsGood(EMPTY, events[..k]);
  }

  /**
   At every step of every run: finished switches keep their rows, a principal changes agent exactly
   when one of its switches completes or it is recovered, then from source to target, and its
   credentials are locked.
   */
  lemma EveryStepMoves(events: seq<Event>, k: nat)
    requires k < |events|
    ensures var s, t, e := Before(events, k), Before(events, k + 1), events[k];
            if e.op.OpRecover? then RecoveryStep(s, e.op.recovery, Recover(s, e.op.recovery, e.now).1, t)
            else SwitchStep(s, t)
  {
    BeforeNext(events, k);
    if events[k].op.OpRecover? {
      RecoverMoves(Before(events, k), events[k].op.recovery, events[k].now);
    } else {
      StepMovesWithSwitch(Before(events, k), events[k]);
    }
  }

  // ----------------------------------------------------------------- reuse over runs

  lemma RemarkedKeepsDead(s: State, t: State, family: Family)
    requires RemarkedAll(s.creds, t.creds) && Dead(s, family)
    ensures Dead(t, family)
  {
    forall id <- t.creds.sessions | t.creds.sessions[id].family == family
      ensures t.creds.sessions[id].revokedAt.Some? {
      assert RemarkedAt(s.creds, t.creds, id);
    }
  }

  lemma ChallengeKeepsDead(s: State, family: Family, token: RefreshToken, requestId: string, nonce: string, now: int)
    requires Dead(s, family)
    ensures Dead(Challenge(s, token, requestId, nonce, now).0, family)
  {
  }

  lemma RevokePrincipalKeepsDead(s: State, family: Family, agentId: int, principal: int, now: int)
    requires Dead(s, family)
    ensures Dead(RevokePrincipal(s, agentId, principal, now), family)
  {
  }

  lemma DeadStep(s: State, e: Event, family: Family)
    requires Good(s) && Dead(s, family)
    ensures Dead(Step(s, e), family)
  {
    match e.op
    case OpProvision(req) => ProvisionKeepsDead(s, family, req, e.now);
    case OpRefresh(req) => DeadFamilyStaysDead(s, family, req, e.now);
    case OpLinkDevice(req) => LinkKeepsDead(s, family, req, e.now);
    case OpIssueGrant(_, _) =>
    case OpDeviceChallenge(_, _, _, _, _) =>
    case OpChallenge(token, requestId, nonce) => ChallengeKeepsDead(s, family, token, requestId, nonce, e.now);
    case OpRevokePrincipal(agentId, principal) => RevokePrincipalKeepsDead(s, family, agentId, principal, e.now);
    case OpCompleteOnboarding(_) =>
    case OpSetAgent(_, _) =>
    case _ =>
      SwitchOpFlags(s, e);
      RemarkedKeepsDead(s, Step(s, e), family);
  }

  lemma {:induction false} StaysDead(events: seq<Event>, i: nat, j: nat, family: Family)
    requires i <= j <= |events| && Dead(Before(events, i), family)
    ensures Dead(Before(events, j), family)
    decreases j - i
  {
    if i < j {
      BeforeNext(events, i);
      DeadStep(Before(events, i), events[i], family);
      StaysDead(events, i + 1, j, family);
    }
  }

  /** The transaction detects reuse of a token of the family. */
  predicate ReportsReuse(s: State, e: Event, family: Family) {
    || (e.op.OpRefresh? && Refresh(s, e.op.refresh, e.now).1 == Reuse && Root(e.op.refresh.token) == family)
    || (e.op.OpChallenge? && Challenge(s, e.op.token, e.op.requestId, e.op.nonce, e.now).1 == ChallengeReuse
        && Root(e.op.token) == family)
  }

  /** Once reuse is detected, whatever happens in between, no refresh with a token of the family succeeds. */
  lemma ReuseIsFinal(events: seq<Event>, i: nat, j: nat, family: Family, req: RefreshRequest, now: int)
    requires i < j <= |events| && ReportsReuse(Before(events, i), events[i], family) && Root(req.token) == family
    ensures !Refresh(Before(events, j), req, now).1.Issued?
  {
    BeforeNext(events, i);
    if events[i].op.OpRefresh? {
      ReuseKillsFamily(Before(events, i), events[i].op.refresh, events[i].now);
    } else {
      ChallengeReuseKillsFamily(Before(events, i), events[i].op.token, events[i].op.requestId, events[i].op.nonce,
                                events[i].now);
    }
    StaysDead(events, i + 1, j, family);
    RunKeepsGood(EMPTY, events[..j]);
    DeadFamilyStaysDead(Before(events, j), family, req, now);
  }

  // ----------------------------------------------------------------- access after a switch

  lemma LockedRejectsAccess(s: State, principal: int, id: int, now: int)
    requires Locked(s, principal) && id in s.creds.sessions && s.creds.sessions[id].principal == principal
    ensures !Accepted(s, id, now)
  {
  }

  /** The transaction is a successful refresh of the principal, or stores a new credential for it. */
  predicate Reissues(s: State, e: Event, principal: int) {
    || (e.op.OpRefresh? && Refresh(s, e.op.refresh, e.now).1.Issued?
        && Refresh(s, e.op.refresh, e.now).1.principal == principal)
    || (e.op.OpProvision? && !PlanProvision(s, e.op.provision, e.now).Answer?
        && Provision(s, e.op.provision, e.now).1.Provisioned?
        && Provision(s, e.op.provision, e.now).1.principal == principal)
    || (e.op.OpLinkDevice? && LinkDevice(s, e.op.link, e.now).1.Linked?
        && LinkDevice(s, e.op.link, e.now).1.principal == principal)
  }

  lemma FlaggingKeepsLocked(s: State, t: State, principal: int)
    requires Flagging(s, t) && Locked(s, principal)
    ensures Locked(t, principal)
  {
    forall id <- t.creds.sessions | t.creds.sessions[id].principal == principal
      ensures t.creds.sessions[id].revokedAt.Some? || t.creds.sessions[id].refreshRequired
    {
      assert RemarkedAt(s.creds, t.creds, id);
    }
  }

  lemma RefreshKeepsLocked(s: State, e: Event, principal: int)
    requires Good(s) && Locked(s, principal) && e.op.OpRefresh? && !Reissues(s, e, principal)
    ensures Locked(Step(s, e), principal)
  {
    match PlanRefresh(s, e.op.refresh, e.now)
    case Rotate(id) => FreshSession(s.people, s.creds);
    case _ =>
  }

  lemma ProvisionKeepsLocked(s: State, e: Event, principal: int)
    requires Good(s) && Locked(s, principal) && e.op.OpProvision? && !Reissues(s, e, principal)
    ensures Locked(Step(s, e), principal)
  {
    FreshSession(s.people, s.creds);
  }

  lemma LinkKeepsLocked(s: State, e: Event, principal: int)
    requires Good(s) && Locked(s, principal) && e.op.OpLinkDevice? && !Reissues(s, e, principal)
    ensures Locked(Step(s, e), principal)
  {
    FreshSession(s.people, s.creds);
  }

  lemma LockedStep(s: State, e: Event, principal: int)
    requires Good(s) && Locked(s, principal) && !Reissues(s, e, principal)
    ensures Locked(Step(s, e), principal)
  {
    match e.op
    case OpProvision(_) => ProvisionKeepsLocked(s, e, principal);
    case OpRefresh(_) => RefreshKeepsLocked(s, e, principal);
    case OpLinkDevice(_) => LinkKeepsLocked(s, e, principal);
    case OpIssueGrant(_, _) =>
    case OpDeviceChallenge(_, _, _, _, _) =>
    case OpChallenge(_, _, _) =>
    case OpRevokePrincipal(_, _) =>
    case OpCompleteOnboarding(_) =>
    case OpSetAgent(_, _) =>
    case _ =>
      SwitchOpFlags(s, e);
      FlaggingKeepsLocked(s, Step(s, e), principal);
  }

  /** The credentials stay locked while no event reissues any of them. */
  lemma {:induction false} StaysLocked(events: seq<Event>, i: nat, j: nat, principal: int)
    requires i <= j <= |events| && Locked(Before(events, i), principal)
    requires forall k | i <= k < j :: !Reissues(Before(events, k), events[k], principal)
    ensures Locked(Before(events, j), principal)
    decreases j - i
  {
    if i < j {
      BeforeNext(events, i);
      assert !Reissues(Before(events, i), events[i], principal);
      LockedStep(Before(events, i), events[i], principal);
      StaysLocked(events, i + 1, j, principal);
    }
  }

  /** The event completes a switch of the principal or recovers it. */
  ghost predicate Relocates(events: seq<Event>, i: nat, principal: int)
    requires i < |events|
  {
    var s, t, e := Before(events, i), Before(events, i + 1), events[i];
    || (exists id :: Completes(s.ledger, t.ledger, id) && t.ledger.switches[id].principal == principal)
    || (e.op.OpRecover? && Recover(s, e.op.recovery, e.now).1 && e.op.recovery.principal == principal)
  }

  /**
   From the completion of a switch or a recovery until the principal's next successful refresh, provision or device
   link, no access credential of that principal is accepted, whatever other transactions run meanwhile.
   */
  lemma NoAccessUntilReissue(events: seq<Event>, i: nat, j: nat, principal: int, session: int, now: int)
    requires i < j <= |events| && Relocates(events, i, principal)
    requires forall k | i < k < j :: !Reissues(Before(events, k), events[k], principal)
    requires session in Before(events, j).creds.sessions
    requires Before(events, j).creds.sessions[session].principal == principal
    ensures !Accepted(Before(events, j), session, now)
  {
    EveryStepMoves(events, i);
    StaysLocked(events, i + 1, j, principal);
    LockedRejectsAccess(Before(events, j), principal, session, now);
  }
}
