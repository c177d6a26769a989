/** The command and attention tables as the handlers write them. */
module CommandStore {
  import opened Common
  import opened AttentionCommands
  import opened CommandRuns

  class Tables {
    var items: map<int, Item>
    var commands: map<int, Command>
    var byKey: map<(int, string), int>
    var nextItem: int
    var nextCommand: int
    var leases: map<(int, string), Lease>
    var contexts: map<int, AgentContext>

    /** The tables as one value. */
    function Snapshot(): State
      reads this
    {
      State(Board(items, commands, byKey, nextItem, nextCommand), leases, contexts)
    }

    ghost predicate Valid()
      reads this
    {
      BoardOk(Snapshot().board)
    }

    constructor ()
      ensures Valid() && Snapshot() == EMPTY
    {
      items, commands, byKey, nextItem, nextCommand := map[], map[], map[], 1, 1;
      leases, contexts := map[], map[];
    }

    /** INSERT INTO agent_commands ... RETURNING command_id; the unique key has been checked. */
    method Insert(row: Command) returns (id: int)
      modifies this`commands, this`byKey, this`nextCommand
      ensures Snapshot() == old(Snapshot()).(board := InsertCommand(old(Snapshot()).board, row))
      ensures id == old(nextCommand)
    {
      id := nextCommand;
      commands := commands[id := row];
      byKey := byKey[(row.agent, row.key) := id];
      nextCommand := nextCommand + 1;
    }

    method CreateAgentCommand(agent: int, commandType: string, payload: string, key: string)
      returns (reply: CreateReply)
      requires Valid()
      modifies this`commands, this`byKey, this`nextCommand
      ensures Valid() && (Snapshot(), reply) == Create(old(Snapshot()), agent, commandType, payload, key)
    {
      CreateKeeps(Snapshot(), agent, commandType, payload, key);
      assert (agent, key) in byKey ==> KeyOk(Snapshot().board, (agent, key));
      var hash := CreationHash(commandType, payload);
      if (agent, key) in byKey {
        var prior := byKey[(agent, key)];
        return if commands[prior].hash == hash then Created(prior, false) else CreateConflict;
      }
      var revision := ContextOf(Snapshot(), agent).activeRevision;
      if revision <= 0 { return CreateConflict; }
      var id := Insert(NewCommand(agent, None, hash, revision, key));
      return Created(id, true);
    }

    /** The loop that looks for the selected action of an item. */
    method SelectAction(actions: seq<Action>, key: string) returns (selected: Option<Action>)
      ensures selected == FindAction(actions, key)
    {
      selected := None;
      var i := 0;
      while i < |actions|
        invariant 0 <= i <= |actions|
        invariant selected.None? && FindAction(actions, key) == FindAction(actions[i..], key)
      {
        if actions[i].key == key {
          selected := Some(actions[i]);
          break;
        }
        assert actions[i..][1..] == actions[i + 1..];
        i := i + 1;
      }
    }

    /** The command is inserted before the item moves; a failed update of the item undoes the insert. */
    method RespondAttentionItem(req: RespondRequest, dbNow: int, dbLater: int, now: int) returns (reply: RespondReply)
      requires Valid()
      modifies this`items, this`commands, this`byKey, this`nextCommand
      ensures Valid() && (Snapshot(), reply) == Respond(old(Snapshot()), req, dbNow, dbLater, now)
    {
      RespondKeeps(Snapshot(), req, dbNow, dbLater, now);
      if req.attention <= 0 || req.expected <= 0 { return InvalidResponse; }
      var hash := ResponseHash(req.attention, req.expected, req.action);
      assert (req.agent, req.key) in byKey ==> KeyOk(Snapshot().board, (req.agent, req.key));
      if (req.agent, req.key) in byKey {
        var prior := byKey[(req.agent, req.key)];
        return if commands[prior].hash == hash then ReplayResponse(Snapshot().board, req, prior) else ResponseConflict;
      }
      var refusal := RespondRefusal(Snapshot(), req, dbNow, now);
      if refusal.Some? { return refusal.value; }
      var item := items[req.attention];
      var selected := SelectAction(item.actions, req.action);
      var before := (commands, byKey, nextCommand);
      var required := ContextOf(Snapshot(), req.agent).activeRevision;
      var id := Insert(NewCommand(req.agent, Some(req.attention), hash, required, req.key));
      if !After(item.expiresAt, dbLater) {
        commands, byKey, nextCommand := before.0, before.1, before.2;
        return ResponseConflict;
      }
      var row := item.(status := Responding, selected := Some(req.action), response := Some(Waiting), updatedAt := now,
                       revision := item.revision + 1);
      items := items[req.attention := row];
      return Responded(id, row.revision, row.status, selected.value.flag);
    }

    method ClaimAgentCommand(agent: int, id: int, runtime: string, applied: int, dbNow: int) returns (reply: ClaimReply)
      requires Valid()
      modifies this`commands
      ensures Valid() && (Snapshot(), reply) == ClaimCommand(old(Snapshot()), agent, id, runtime, applied, dbNow)
    {
      ClaimKeeps(Snapshot(), agent, id, runtime, applied, dbNow);
      if !RuntimeName(runtime) || applied < 0 { return InvalidClaim; }
      var found := OwnedBy(Snapshot().board, agent, id);
      var required := if found then commands[id].required else None;
      if !LeaseReady(Snapshot(), agent, runtime, applied, required, dbNow) { return ContextRequired; }
      if !found { return ClaimUnavailable; }
      var row := commands[id];
      if HeldBy(row, runtime, dbNow) {
        var token := ClaimToken(agent, id, runtime, row.epoch);
        return if row.claim.value.token == token then Granted(row.epoch, token, row.claim.value.until, false)
            else ClaimUnavailable;
      }
      if !Claimable(row, dbNow) { return ClaimUnavailable; }
      var epoch, until := row.epoch + 1, dbNow + COMMAND_LEASE;
      var token := ClaimToken(agent, id, runtime, epoch);
      commands := commands[id := row.(status := Claimed, epoch := epoch, claim := Some(Claim(runtime, token, until)),
                                      attempts := row.attempts + 1, deliveredAt := Coalesce(row.deliveredAt, dbNow))];
      return Granted(epoch, token, until, true);
    }

    /** The fenced command update, then the item update that follows it. */
    method CompleteAgentCommand(req: CompleteRequest, resultOk: bool, dbNow: int, now: int)
      returns (reply: CompleteReply)
      requires Valid()
      modifies this`commands, this`items
      ensures Valid() && (Snapshot(), reply) == Complete(old(Snapshot()), req, resultOk, dbNow, now)
    {
      CompleteKeeps(Snapshot(), req, resultOk, dbNow, now);
      if req.runtime == "" || req.epoch <= 0 { return InvalidCompletion; }
      if !OwnedBy(Snapshot().board, req.agent, req.id) { return ClaimFenced; }
      var row := commands[req.id];
      if row.attention.Some? && !resultOk { return InvalidResult; }
      if Fence(row, req, dbNow) {
        commands := commands[req.id := row.(status := FinalStatus(req),
                                            outcome := Some(Outcome(StoredResult(row, req), now)))];
        items := SettleItem(items, row, req, now);
        return Completed(req.success, now);
      }
      return if SameCompletion(row, req) then Completed(req.success, row.outcome.value.at) else ClaimFenced;
    }

    method DismissAttentionItem(agent: int, attention: int, expected: nat, dbNow: int, now: int)
      returns (reply: DismissReply)
      requires Valid()
      modifies this`items
      ensures Valid() && (Snapshot(), reply) == Dismiss(old(Snapshot()), agent, attention, expected, dbNow, now)
    {
      DismissKeeps(Snapshot(), agent, attention, expected, dbNow, now);
      if attention !in items || items[attention].agent != agent { return NotOpen; }
      var item := items[attention];
      var refusal := PrefillRefusal(Snapshot(), item);
      if refusal.Some? { return if refusal == Some(OnboardingNeeded) then DismissOnboarding else DismissStale; }
      if item.status == Open && After(item.expiresAt, dbNow) && (expected == 0 || item.revision == expected) {
        items := items[attention := item.(status := Dismissed, updatedAt := now, revision := item.revision + 1)];
        return ItemDismissed(item.revision + 1, false);
      }
      var replay := expected > 0 && item.status == Dismissed && item.revision == expected + 1;
      return if replay then ItemDismissed(item.revision, true) else NotOpen;
    }

    method RuntimeHeartbeat(agent: int, runtime: string, applied: Option<int>, dbNow: int)
      returns (reply: HeartbeatReply)
      requires Valid()
      modifies this`leases
      ensures Valid() && (Snapshot(), reply) == Heartbeat(old(Snapshot()), agent, runtime, applied, dbNow)
    {
      if !RuntimeName(runtime) || (applied.Some? && applied.value <= 0) { return InvalidHeartbeat; }
      if applied.Some? && applied.value !in ContextOf(Snapshot(), agent).revisions { return UnknownRevision; }
      leases := leases[(agent, runtime) := Lease(applied, dbNow + RUNTIME_LEASE)];
      return Renewed(dbNow + RUNTIME_LEASE);
    }
  }
}
