/** Switch rows, the pending index and the audit trail stay consistent under every handler. */
module SwitchHistory {
  import opened Common
  import opened IdentityState
  import opened AccountSwitch

  // ----------------------------------------------------------------- audit replay

  /** The status a legal audit row leads to; a rejected switch reads as revoked. */
  function Advance(status: SwitchStatus, result: AuditResult): Option<SwitchStatus> {
    match result
    case AuditPendingOnboarding => if status == PendingTarget then Some(PendingOnboarding) else None
    case AuditCompleted => if Pending(status) then Some(Completed) else None
    case AuditCompletedNoop => if status == PendingTarget then Some(CompletedNoop) else None
    case AuditExpired => if Pending(status) then Some(Expired) else None
    case AuditRevoked => if Pending(status) then Some(Revoked) else None
    case AuditRejected => if status == PendingOnboarding then Some(Revoked) else None
  }

  /** Replays the audit rows of one switch from pending_target; None if a row is not a legal move. */
  function ReplayAudit(audit: seq<AuditRow>, id: string): Option<SwitchStatus> {
    if audit == [] then Some(PendingTarget)
    else
      var before := ReplayAudit(audit[..|audit| - 1], id);
      var row := audit[|audit| - 1];
      if row.switchId != id then before
      else if before.Some? then Advance(before.value, row.result)
      else None
  }

  lemma ReplayAuditAppend(audit: seq<AuditRow>, row: AuditRow, id: string)
    ensures ReplayAudit(audit + [row], id) ==
            if row.switchId != id then ReplayAudit(audit, id)
            else if ReplayAudit(audit, id).Some? then Advance(ReplayAudit(audit, id).value, row.result) else None
  {
    assert (audit + [row])[..|audit|] == audit;
  }

  // ----------------------------------------------------------------- invariant

  ghost predicate SwitchOk(l: Ledger, id: string) {
    && id in l.switches
    && var row := l.switches[id];
       && (Pending(row.status) ==> row.principal in l.pendingOf && l.pendingOf[row.principal] == id)
       && (row.status == PendingTarget || row.status == CompletedNoop ==> row.target.None?)
       && (row.status == PendingOnboarding || row.status == Completed ==>
             row.target.Some? && row.target.value != row.source)
       && ReplayAudit(l.audit, id) == Some(row.status)
  }

  ghost predicate PendingOk(l: Ledger, p: int) {
    p in l.pendingOf && l.pendingOf[p] in l.switches && l.switches[l.pendingOf[p]].principal == p
        && Pending(l.switches[l.pendingOf[p]].status)
  }

  ghost predicate LedgerInv(l: Ledger) {
    && (forall id {:trigger SwitchOk(l, id)} :: id in l.switches ==> SwitchOk(l, id))
    && (forall p {:trigger PendingOk(l, p)} :: p in l.pendingOf ==> PendingOk(l, p))
    && (forall id {:trigger ReplayAudit(l.audit, id)} ::
          id !in l.switches ==> ReplayAudit(l.audit, id) == Some(PendingTarget))
  }

  /** A principal never has two pending switches. */
  lemma OnePendingSwitch(l: Ledger, a: string, b: string)
    requires LedgerInv(l) && a in l.switches && b in l.switches
    requires l.switches[a].principal == l.switches[b].principal
    requires Pending(l.switches[a].status) && Pending(l.switches[b].status)
    ensures a == b
  {
    assert SwitchOk(l, a) && SwitchOk(l, b);
  }

  /** Where a switch that just moved stands in the index and the audit trail. */
  lemma MovedRow(l: Ledger, id: string, row: Switch, record: Switch, result: AuditResult, now: int, other: string)
    requires LedgerInv(l) && id in l.switches
    requires Advance(l.switches[id].status, result) == Some(row.status)
    ensures ReplayAudit(Moved(l, id, row, record, result, now).audit, other) == if other == id then Some(row.status)
        else ReplayAudit(l.audit, other)
  {
    assert SwitchOk(l, id);
    ReplayAuditAppend(l.audit, AuditRow(id, record.source, record.target, record.principal, result, now), other);
  }

  lemma MovedSwitchOk(l: Ledger, id: string, row: Switch, record: Switch, result: AuditResult, now: int, other: string)
    requires LedgerInv(l) && id in l.switches && Pending(l.switches[id].status)
    requires row.principal == l.switches[id].principal
    requires Advance(l.switches[id].status, result) == Some(row.status)
    requires row.status == CompletedNoop ==> row.target.None?
    requires row.status == PendingOnboarding || row.status == Completed ==>
        row.target.Some? && row.target.value != row.source
    requires other in l.switches
    ensures SwitchOk(Moved(l, id, row, record, result, now), other)
  {
    MovedRow(l, id, row, record, result, now, other);
    assert SwitchOk(l, id) && SwitchOk(l, other);
  }

  lemma MovedPendingOk(l: Ledger, id: string, row: Switch, record: Switch, result: AuditResult, now: int, p: int)
    requires LedgerInv(l) && id in l.switches && Pending(l.switches[id].status)
    requires row.principal == l.switches[id].principal
    requires p in Moved(l, id, row, record, result, now).pendingOf
    ensures PendingOk(Moved(l, id, row, record, result, now), p)
  {
    assert SwitchOk(l, id);
    if p in l.pendingOf { assert PendingOk(l, p); }
  }

  lemma MovedKeeps(l: Ledger, id: string, row: Switch, record: Switch, result: AuditResult, now: int)
    requires LedgerInv(l) && id in l.switches && Pending(l.switches[id].status)
    requires row.principal == l.switches[id].principal
    requires Advance(l.switches[id].status, result) == Some(row.status)
    requires row.status == CompletedNoop ==> row.target.None?
    requires row.status == PendingOnboarding || row.status == Completed ==>
        row.target.Some? && row.target.value != row.source
    ensures LedgerInv(Moved(l, id, row, record, result, now))
  {
    var m := Moved(l, id, row, record, result, now);
    forall other <- m.switches ensures SwitchOk(m, other) { MovedSwitchOk(l, id, row, record, result, now, other); }
    forall p <- m.pendingOf ensures PendingOk(m, p) { MovedPendingOk(l, id, row, record, result, now, p); }
    forall other | other !in m.switches ensures ReplayAudit(m.audit, other) == Some(PendingTarget) {
      MovedRow(l, id, row, record, result, now, other);
    }
  }

  lemma RevokePendingKeeps(l: Ledger, principal: int, now: int)
    requires LedgerInv(l)
    ensures LedgerInv(RevokePending(l, principal, now))
    ensures principal !in RevokePending(l, principal, now).pendingOf
    ensures RevokePending(l, principal, now).switches.Keys == l.switches.Keys
  {
    if principal in l.pendingOf {
      var pending := l.pendingOf[principal];
      assert PendingOk(l, principal);
      MovedKeeps(l, pending, l.switches[pending].(status := Revoked), l.switches[pending], AuditRevoked, now);
    }
  }

  lemma InsertKeeps(l: Ledger, id: string, row: Switch)
    requires LedgerInv(l) && id !in l.switches && row.principal !in l.pendingOf
    requires row.status == PendingTarget && row.target.None?
    ensures LedgerInv(PutSwitch(l, id, row))
  {
    var m := PutSwitch(l, id, row);
    assert ReplayAudit(l.audit, id) == Some(PendingTarget);
    forall other <- m.switches ensures SwitchOk(m, other) {
      if other != id { assert SwitchOk(l, other); }
    }
    forall p <- m.pendingOf ensures PendingOk(m, p) {
      if p != row.principal { assert PendingOk(l, p); }
    }
  }

  /** Creating a switch keeps the ledger consistent, and the unique index never refuses it: revoking came first. */
  lemma ExchangeKeeps(s: State, agentId: int, principal: int, id: string, console: string, now: int)
    requires LedgerInv(s.ledger)
    ensures LedgerInv(ExchangeHandoff(s, agentId, principal, id, console, now).0)
    ensures id !in s.ledger.switches ==> ExchangeHandoff(s, agentId, principal, id, console, now).1 != SwitchFailed
  {
    RevokePendingKeeps(s.ledger, principal, now);
    var cleared := RevokePending(s.ledger, principal, now);
    if id !in cleared.switches { InsertKeeps(cleared, id, NewSwitch(agentId, principal, console, now)); }
  }

  lemma FinalizeKeeps(s: State, id: string, record: Switch, newAccount: bool, now: int)
    requires LedgerInv(s.ledger)
    ensures LedgerInv(Finalize(s, id, record, newAccount, now).0.ledger)
  {
    if Finalize(s, id, record, newAccount, now).1 == Done {
      MovedKeeps(s.ledger, id, CompletedRow(s.ledger, id, record, now), record, AuditCompleted, now);
    }
  }

  lemma CompleteNoopKeeps(s: State, id: string, record: Switch, now: int)
    requires LedgerInv(s.ledger)
    ensures LedgerInv(CompleteNoop(s, id, record, now).0)
  {
    if CompleteNoop(s, id, record, now).1.Done? {
      MovedKeeps(s.ledger, id, s.ledger.switches[id].(status := CompletedNoop, completedAt := Some(now)), record,
                 AuditCompletedNoop, now);
    }
  }

  lemma ExpireKeeps(l: Ledger, id: string, now: int)
    requires LedgerInv(l) && id in l.switches
    ensures LedgerInv(Expire(l, id, l.switches[id], now))
  {
    if Pending(l.switches[id].status) {
      MovedKeeps(l, id, l.switches[id].(status := Expired), l.switches[id], AuditExpired, now);
    }
  }

  lemma AwaitKeeps(l: Ledger, id: string, target: int, console: string, now: int)
    requires LedgerInv(l) && id in l.switches && l.switches[id].status == PendingTarget
    requires target != l.switches[id].source
    ensures LedgerInv(AwaitOnboarding(l, id, l.switches[id], target, console, now))
  {
    var row := Verified(l.switches[id], target, console, now).(status := PendingOnboarding);
    MovedKeeps(l, id, row, row, AuditPendingOnboarding, now);
  }

  lemma ConfirmKeeps(s: State, id: string, target: int, console: string, recentAuth: bool, now: int)
    requires LedgerInv(s.ledger)
    ensures LedgerInv(Confirm(s, id, target, console, recentAuth, now).0.ledger)
  {
    if id in s.ledger.switches {
      var record := s.ledger.switches[id];
      ExpireKeeps(s.ledger, id, now);
      CompleteNoopKeeps(s, id, record, now);
      FinalizeKeeps(s, id, Verified(record, target, console, now), false, now);
      if record.status == PendingTarget && target != record.source { AwaitKeeps(s.ledger, id, target, console, now); }
    }
  }

  lemma CancelKeeps(l: Ledger, id: string, now: int)
    requires LedgerInv(l)
    ensures LedgerInv(Cancel(l, id, now).0)
  {
    if id in l.switches && Pending(l.switches[id].status) {
      MovedKeeps(l, id, l.switches[id].(status := Revoked), l.switches[id], AuditRevoked, now);
    }
  }

  lemma VerifyEmailKeeps(s: State, id: string, proof: EmailProof, now: int)
    requires LedgerInv(s.ledger)
    ensures LedgerInv(VerifyEmail(s, id, proof, now).0.ledger)
  {
    if id in s.ledger.switches && s.ledger.switches[id].status == PendingTarget
        && (proof.created <==> proof.target !in s.people.agents) {
      var record := s.ledger.switches[id];
      var s1 := WithBrowser(s, proof);
      CompleteNoopKeeps(s1, id, record, now);
      FinalizeKeeps(s1, id, Verified(record, proof.target, proof.console, now), proof.created, now);
      if proof.target != record.source { AwaitKeeps(s.ledger, id, proof.target, proof.console, now); }
    }
  }

  // ----------------------------------------------------------------- the swallowed conflict

  /**
   Finalizing a pending switch either completes it or leaves every principal and credential as it
   was: once the principal update has succeeded, the conditional update of the locked switch row
   cannot miss, so the conflict that is swallowed was raised before anything was written.
   */
  lemma RejectedSwitchMovesNobody(s: State, id: string, target: int, console: string, now: int)
    requires LedgerInv(s.ledger)
    ensures var (t, reply) := FinalizePending(s, id, target, console, now);
            && LedgerInv(t.ledger)
            && (reply != Finalized ==> t.people == s.people && t.creds == s.creds)
            && (reply == Finalized ==>
                  && id in s.ledger.switches && id in t.ledger.switches && t.ledger.switches[id].status == Completed
                  && s.ledger.switches[id].principal in t.people.principals
                  && t.people.principals[s.ledger.switches[id].principal].agentId == target)
  {
    if id in s.ledger.switches && s.ledger.switches[id].status == PendingOnboarding {
      var record := s.ledger.switches[id];
      ExpireKeeps(s.ledger, id, now);
      FinalizeKeeps(s, id, record, false, now);
      MovedKeeps(s.ledger, id, record.(status := Revoked), record, AuditRejected, now);
    }
  }

  /**
   Without the row lock it could: a reported conflict leaves the principal moved exactly when the
   row is no longer pending.
   */
  lemma StaleRecordWouldMoveThePrincipal(s: State, id: string, record: Switch, newAccount: bool, now: int)
    requires ReadyRecord(id, record, now) && BoundToSource(s.people, record)
    requires TargetReady(s.people, record.target.value, newAccount)
    requires HasActiveCredential(s.creds, record.principal, now)
    requires s.people.principals[record.principal].revokedAt.None?
    ensures var (t, outcome) := Finalize(s, id, record, newAccount, now);
            (outcome == Conflict && t.people != s.people) <==> !StillPending(s.ledger, id, record)
  {
    var t := Finalize(s, id, record, newAccount, now).0;
    assert t.people.principals[record.principal].agentId != s.people.principals[record.principal].agentId;
  }
}
