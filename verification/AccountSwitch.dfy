/**
 CLI account switches: a record moves a principal from its source agent to a target agent.

 Helpers that run inside a caller's transaction return the tables as they stand when the helper
 returns, also when it reports an error: a caller that commits anyway commits those changes. The
 handlers themselves return the tables they commit.
 */
module AccountSwitch {
  import opened Common
  import opened IdentityState
  import opened Credentials

  /** Writes switch row `id`; `pendingOf` is the partial unique index over pending rows. */
  function PutSwitch(l: Ledger, id: string, row: Switch): Ledger {
    l.(switches := l.switches[id := row],
       pendingOf := if Pending(row.status) then l.pendingOf[row.principal := id]
                    else if row.principal in l.pendingOf && l.pendingOf[row.principal] == id
                    then l.pendingOf - {row.principal}
                    else l.pendingOf)
  }

  /** auditCLIAccountSwitch after the row update it belongs to. */
  function Moved(l: Ledger, id: string, row: Switch, record: Switch, result: AuditResult, now: int): Ledger {
    PutSwitch(l, id, row).(audit := l.audit
                           + [AuditRow(id, record.source, record.target, record.principal, result, now)])
  }

  predicate HasActiveCredential(c: Creds, principal: int, now: int) {
    exists id <- c.sessions ::
        c.sessions[id].principal == principal && c.sessions[id].revokedAt.None? && c.sessions[id].expiresAt > now
  }

  /** The principal is still bound to the source agent with a usable device key. */
  predicate BoundToSource(people: People, record: Switch) {
    && record.principal in people.principals
    && people.principals[record.principal].agentId == record.source
    && people.principals[record.principal].keyType == Ed25519
    && Usable(people.principals[record.principal])
  }

  /** validateNoopPrincipalBinding */
  predicate NoopBinding(people: People, record: Switch) {
    BoundToSource(people, record) && people.principals[record.principal].revokedAt.None?
  }

  datatype Outcome = Done | Conflict | OnboardingRequired

  /** expireCLIAccountSwitch on a row read for update. */
  function Expire(l: Ledger, id: string, record: Switch, now: int): Ledger {
    if Pending(record.status) then Moved(l, id, record.(status := Expired), record, AuditExpired, now) else l
  }

  /** completeNoopCLIAccountSwitch */
  function CompleteNoop(s: State, id: string, record: Switch, now: int): (Ledger, Outcome) {
    if id == "" || record.source <= 0 || record.principal <= 0 || record.target.Some? || record.status != PendingTarget
    then (s.ledger, Conflict)
    else if !NoopBinding(s.people, record) || !HasActiveCredential(s.creds, record.principal, now)
    then (s.ledger, Conflict)
    else if !(id in s.ledger.switches && s.ledger.switches[id].source == record.source
              && s.ledger.switches[id].principal == record.principal
              && s.ledger.switches[id].status == PendingTarget
              && s.ledger.switches[id].target.None?) then (s.ledger, Conflict)
    else (Moved(s.ledger, id, s.ledger.switches[id].(status := CompletedNoop, completedAt := Some(now)), record,
                AuditCompletedNoop, now), Done)
  }

  predicate ReadyRecord(id: string, record: Switch, now: int) {
    && id != "" && record.source > 0 && record.principal > 0
    && record.target.Some? && record.target.value > 0 && record.target.value != record.source
    && record.targetConsole != ""
    && record.verifiedAt.Some? && 0 < record.verifiedAt.value <= now
  }

  /** The binding update of finalizeCLIAccountSwitch. */
  function Rebind(people: People, principal: int, target: int, status: PrincipalStatus): People
    requires principal in people.principals
  {
    var row := people.principals[principal].(agentId := target, status := status);
    people.(principals := people.principals[principal := row])
  }

  /** The target agent may take over the principal. */
  predicate TargetReady(people: People, target: int, newAccount: bool) {
    && target in people.agents
    && !people.agents[target].onboarding.OnboardingMissing?
    && people.agents[target].identityActive
    && (people.agents[target].onboarding.OnboardingCompleted? || newAccount)
  }

  /** The conditional update of the switch row finds its row. */
  predicate StillPending(l: Ledger, id: string, record: Switch) {
    id in l.switches && l.switches[id].source == record.source && l.switches[id].principal == record.principal
        && Pending(l.switches[id].status)
  }

  function CompletedRow(l: Ledger, id: string, record: Switch, now: int): Switch
    requires id in l.switches
  {
    l.switches[id].(target := record.target, targetConsole := record.targetConsole,
                    verifiedAt := record.verifiedAt, status := Completed, completedAt := Some(now))
  }

  /** The outcome of the checks before finalizeCLIAccountSwitch writes anything. */
  function FinalizeGuard(s: State, id: string, record: Switch, newAccount: bool, now: int): (r: Outcome)
    ensures r == Done ==>
        && ReadyRecord(id, record, now) && BoundToSource(s.people, record)
        && TargetReady(s.people, record.target.value, newAccount)
                          && HasActiveCredential(s.creds, record.principal, now)
                          && s.people.principals[record.principal].revokedAt.None?
  {
    if !ReadyRecord(id, record, now) || !BoundToSource(s.people, record) then Conflict
    else if !TargetReady(s.people, record.target.value, newAccount) then OnboardingRequired
    else if !HasActiveCredential(s.creds, record.principal, now)
        || s.people.principals[record.principal].revokedAt.Some? then Conflict
    else Done
  }

  /** The binding and the credentials once finalizeCLIAccountSwitch has moved the principal. */
  function MovePrincipal(s: State, principal: int, target: int): State
    requires principal in s.people.principals && target in s.people.agents
  {
    var status := if s.people.agents[target].onboarding.OnboardingCompleted? then Active else Limited;
    s.(people := Rebind(s.people, principal, target, status),
       creds := s.creds.(sessions := RequireRefresh(s.creds.sessions, principal)))
  }

  /**
   finalizeCLIAccountSwitch. Note the last conflict: when the conditional update of the switch row
   misses, the binding and the credentials have already been changed.
   */
  function Finalize(s: State, id: string, record: Switch, newAccount: bool, now: int): (State, Outcome) {
    var guard := FinalizeGuard(s, id, record, newAccount, now);
    if guard != Done then (s, guard)
    else
      var moved := MovePrincipal(s, record.principal, record.target.value);
      if !StillPending(s.ledger, id, record) then (moved, Conflict)
      else (moved.(ledger := Moved(s.ledger, id, CompletedRow(s.ledger, id, record, now), record, AuditCompleted,
                                   now)), Done)
  }

  // ----------------------------------------------------------------- handlers

  datatype SwitchReply =
    | SwitchCompleted(agentId: int, alreadyCurrent: bool)
    | SwitchPending
    | SwitchExpired
    | SwitchUnauthorized
    | SwitchConflict
    | RecentAuthRequired
    | SwitchFailed
    | SwitchCancelled

  /** Revokes the pending switch of a principal, if there is one. */
  function RevokePending(l: Ledger, principal: int, now: int): Ledger {
    if principal in l.pendingOf && l.pendingOf[principal] in l.switches then
      var pending := l.pendingOf[principal];
      Moved(l, pending, l.switches[pending].(status := Revoked), l.switches[pending], AuditRevoked, now)
    else l
  }

  function NewSwitch(agentId: int, principal: int, console: string, now: int): Switch {
    Switch(agentId, None, principal, console, "", PendingTarget, None, now + SWITCH_TTL, None)
  }

  /** The switch-creating tail of exchangeHandoff; `id` is the hash of the random switch token. */
  function ExchangeHandoff(s: State, agentId: int, principal: int, id: string, console: string,
                           now: int): (Ledger, SwitchReply) {
    if !(principal in s.people.principals && agentId in s.people.agents && agentId > 0
         && s.people.principals[principal].agentId == agentId
         && s.people.agents[agentId].identityActive && s.people.principals[principal].revokedAt.None?
         && Usable(s.people.principals[principal]))
    then (s.ledger, SwitchUnauthorized)
    else
      var cleared := RevokePending(s.ledger, principal, now);
      if id in cleared.switches || principal in cleared.pendingOf then (s.ledger, SwitchFailed)
      else (PutSwitch(cleared, id, NewSwitch(agentId, principal, console, now)), SwitchPending)
  }

  /** getCLIAccountSwitch: reading an overdue pending switch expires it. */
  function GetSwitch(l: Ledger, id: string, now: int): Ledger {
    if id in l.switches && l.switches[id].expiresAt < now then Expire(l, id, l.switches[id], now) else l
  }

  function Verified(record: Switch, target: int, console: string, now: int): Switch {
    record.(target := Some(target), targetConsole := console, verifiedAt := Some(now))
  }

  /** Binds a pending_target row to a verified target that still has to finish onboarding. */
  function AwaitOnboarding(l: Ledger, id: string, record: Switch, target: int, console: string, now: int): Ledger {
    var row := Verified(record, target, console, now).(status := PendingOnboarding);
    Moved(l, id, row, row, AuditPendingOnboarding, now)
  }

  function SetLedger(s: State, ledger: Ledger): State {
    s.(ledger := ledger)
  }

  function Confirm(s: State, id: string, target: int, console: string, recentAuth: bool,
                   now: int): (State, SwitchReply) {
    if id !in s.ledger.switches then (s, SwitchUnauthorized)
    else
      var record := s.ledger.switches[id];
      if record.status == Completed then
        (s, if record.target == Some(target) then SwitchCompleted(target, false) else SwitchConflict)
      else if record.status == CompletedNoop then
        (s, if record.source == target && NoopBinding(s.people, record) then SwitchCompleted(record.source, true)
         else SwitchConflict)
      else if record.expiresAt < now then (SetLedger(s, Expire(s.ledger, id, record, now)), SwitchExpired)
      else if !Pending(record.status) then (s, SwitchUnauthorized)
      else if target == record.source then
        var (ledger, outcome) := CompleteNoop(s, id, record, now);
        (SetLedger(s, ledger), if outcome.Done? then SwitchCompleted(record.source, true) else SwitchConflict)
      else if !recentAuth then (s, RecentAuthRequired)
      else if record.status == PendingOnboarding && (record.target != Some(target) || record.targetConsole != console)
      then (s, SwitchConflict)
      else if target !in s.people.agents then (s, SwitchFailed)
      else if s.people.agents[target].onboarding.OnboardingCompleted?
      then CommitFinalize(s, id, Verified(record, target, console, now), now)
      else if record.status == PendingTarget
      then (SetLedger(s, AwaitOnboarding(s.ledger, id, record, target, console, now)), SwitchPending)
      else (s, SwitchPending)
  }

  /** Finalizes a switch to an onboarded target and rolls back on any error. */
  function CommitFinalize(s: State, id: string, record: Switch, now: int): (State, SwitchReply)
    requires record.target.Some?
  {
    var (t, outcome) := Finalize(s, id, record, false, now);
    match outcome
    case Done => (t, SwitchCompleted(record.target.value, false))
    case Conflict => (s, SwitchConflict)
    case OnboardingRequired => (s, SwitchFailed)
  }

  function Cancel(l: Ledger, id: string, now: int): (Ledger, SwitchReply) {
    if id in l.switches && Pending(l.switches[id].status)
    then (Moved(l, id, l.switches[id].(status := Revoked), l.switches[id], AuditRevoked, now), SwitchCancelled)
    else (l, SwitchConflict)
  }

  datatype FinalizeReply = Finalized | NotFinalized | FinalizeFailed

  /**
   finalizePendingCLIAccountSwitch, called inside the onboarding transaction. A conflict is
   swallowed: the switch is marked revoked and the surrounding transaction commits whatever
   Finalize has written by then.
   */
  function FinalizePending(s: State, id: string, target: int, console: string, now: int): (State, FinalizeReply) {
    if id !in s.ledger.switches then (s, NotFinalized)
    else
      var record := s.ledger.switches[id];
      if record.status != PendingOnboarding || record.target != Some(target) || record.targetConsole != console
      then (s, NotFinalized)
      else if record.expiresAt < now then (SetLedger(s, Expire(s.ledger, id, record, now)), NotFinalized)
      else
        var (t, outcome) := Finalize(s, id, record, false, now);
        match outcome
        case Done => (t, Finalized)
        case OnboardingRequired => (s, FinalizeFailed)
        case Conflict => (SetLedger(t, Moved(t.ledger, id, record.(status := Revoked), record, AuditRejected, now)),
                          NotFinalized)
  }

  /** What verifyCLIAccountSwitchEmail learns from the browser, the challenge and the email owner. */
  datatype EmailProof = EmailProof(
    holdsSourceSession: bool,
    otpOk: bool,
    resolved: bool,
    target: int,
    created: bool,
    slotFound: bool,
    console: string,
    fingerprint: string)

  /** The agents after resolveSwitchEmail: a new account is created, a legacy one gets its onboarding row. */
  function ResolvedAgents(people: People, proof: EmailProof): map<int, Agent>
    requires !proof.created ==> proof.target in people.agents
  {
    if proof.created then people.agents[proof.target := Agent(true, OnboardingOpen)]
    else EnsureOnboarding(people.agents, proof.target)
  }

  /** The browser principal that verifyCLIAccountSwitchEmail adds for the target account. */
  function WithBrowser(s: State, proof: EmailProof): State
    requires !proof.created ==> proof.target in s.people.agents
  {
    s.(people := InsertPrincipal(s.people.(agents := ResolvedAgents(s.people, proof)),
                                 Principal(proof.target, EmailRecovery, proof.fingerprint, Limited, None)))
  }

  /** The switch after the target's email has been verified; the caller undoes it on a conflict or failure. */
  function MoveAfterEmail(s: State, id: string, record: Switch, proof: EmailProof, now: int): (State, SwitchReply)
    requires proof.target in s.people.agents
  {
    if proof.target == record.source then
      var (ledger, outcome) := CompleteNoop(s, id, record, now);
      (SetLedger(s, ledger), if outcome.Done? then SwitchCompleted(proof.target, true) else SwitchConflict)
    else if proof.created || s.people.agents[proof.target].onboarding.OnboardingCompleted? then
      var (t, outcome) := Finalize(s, id, Verified(record, proof.target, proof.console, now), proof.created, now);
      match outcome
      case Done => (t, SwitchCompleted(proof.target, false))
      case Conflict => (t, SwitchConflict)
      case OnboardingRequired => (t, SwitchFailed)
    else (SetLedger(s, AwaitOnboarding(s.ledger, id, record, proof.target, proof.console, now)), SwitchPending)
  }

  /** Why the handler stops before it writes anything. */
  function EmailRefusal(s: State, id: string, proof: EmailProof, now: int): (r: Option<SwitchReply>)
    ensures r.None? ==> && id in s.ledger.switches && s.ledger.switches[id].status == PendingTarget
                        && NoopBinding(s.people, s.ledger.switches[id])
                        && (proof.created <==> proof.target !in s.people.agents)
  {
    if id !in s.ledger.switches || s.ledger.switches[id].status != PendingTarget
       || s.ledger.switches[id].expiresAt < now then Some(SwitchUnauthorized)
    else if !NoopBinding(s.people, s.ledger.switches[id]) then Some(SwitchConflict)
    else if !proof.holdsSourceSession || !proof.otpOk then Some(SwitchUnauthorized)
    else if !proof.resolved || !proof.slotFound || (proof.created <==> proof.target in s.people.agents)
    then Some(SwitchConflict)
    else if !proof.created && !s.people.agents[proof.target].identityActive then Some(SwitchConflict)
    else None
  }

  /** verifyCLIAccountSwitchEmail */
  function VerifyEmail(s: State, id: string, proof: EmailProof, now: int): (State, SwitchReply) {
    var refusal := EmailRefusal(s, id, proof, now);
    if refusal.Some? then (s, refusal.value)
    else
      var (t, reply) := MoveAfterEmail(WithBrowser(s, proof), id, s.ledger.switches[id], proof, now);
      (if reply == SwitchConflict || reply == SwitchFailed then s else t, reply)
  }
}
