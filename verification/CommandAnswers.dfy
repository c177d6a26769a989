/**
 When each transaction on commands and items succeeds, what it answers, and what it leaves alone.

 The conditions are over the stored rows and the request; the answers and the new rows are written
 out. Together they determine every transaction.
 */
module CommandAnswers {
  import opened Common
  import opened AttentionCommands
  import opened CommandRuns

  // ----------------------------------------------------------------- claims

  /** The runtime's lease is live and shows the context revision the request names. */
  ghost predicate OnContext(s: State, agent: int, runtime: string, applied: int, dbNow: int) {
    (agent, runtime) in s.leases && s.leases[(agent, runtime)].applied == Some(applied)
    && dbNow < s.leases[(agent, runtime)].until
  }

  /** The command exists for the agent and needs no later context than `applied`. */
  ghost predicate Serves(b: Board, agent: int, id: int, applied: int) {
    id in b.commands && b.commands[id].agent == agent
    && (b.commands[id].required.None? || b.commands[id].required.value <= applied)
  }

  /** Nobody has claimed the command, or the claim has run out. */
  ghost predicate Free(row: Command, dbNow: int) {
    row.status == Waiting || row.status == Notified
    || (row.status == Claimed && row.claim.Some? && row.claim.value.until <= dbNow)
  }

  /**
   A claim is a new grant exactly when the runtime's live lease shows the named context, the command
   needs no later one, and nobody holds it. The grant takes the next epoch for two minutes.
   */
  lemma ClaimGrantsExactly(s: State, agent: int, id: int, runtime: string, applied: int, dbNow: int)
    requires BoardOk(s.board)
    ensures var (t, reply) := ClaimCommand(s, agent, id, runtime, applied, dbNow);
            (reply.Granted? && reply.isNew) <==>
              && 0 < |runtime| <= 128 && applied >= 0 && OnContext(s, agent, runtime, applied, dbNow)
              && Serves(s.board, agent, id, applied) && Free(s.board.commands[id], dbNow)
    ensures var (t, reply) := ClaimCommand(s, agent, id, runtime, applied, dbNow);
            reply.Granted? && reply.isNew ==>
              && var row := s.board.commands[id];
                 var token := ClaimToken(agent, id, runtime, row.epoch + 1);
                 && reply == Granted(row.epoch + 1, token, dbNow + 120000, true)
                 && t == s.(board := s.board.(commands := s.board.commands[id := row.(
                      status := Claimed, epoch := row.epoch + 1, attempts := row.attempts + 1,
                      claim := Some(Claim(runtime, token, dbNow + 120000)),
                      deliveredAt := if row.deliveredAt.Some? then row.deliveredAt else Some(dbNow))]))
  {
    if id in s.board.commands { assert CommandOk(s.board, id); }
  }

  /** The other answers to a claim, which change nothing. */
  lemma ClaimAnswersExactly(s: State, agent: int, id: int, runtime: string, applied: int, dbNow: int)
    requires BoardOk(s.board)
    ensures var (t, reply) := ClaimCommand(s, agent, id, runtime, applied, dbNow);
            !(reply.Granted? && reply.isNew) ==> t == s
    ensures var reply := ClaimCommand(s, agent, id, runtime, applied, dbNow).1;
            var valid := 0 < |runtime| <= 128 && applied >= 0;
            var mine := id in s.board.commands && s.board.commands[id].agent == agent;
            var ready := OnContext(s, agent, runtime, applied, dbNow) && (mine ==> Serves(s.board, agent, id, applied));
            var held := mine && s.board.commands[id].status == Claimed && s.board.commands[id].claim.Some?
                        && dbNow < s.board.commands[id].claim.value.until;
            && (reply == InvalidClaim <==> !valid)
            && (reply == ContextRequired <==> valid && !ready)
            && ((reply.Granted? && !reply.isNew) <==>
                  valid && ready && held && s.board.commands[id].claim.value.owner == runtime)
            && (reply == ClaimUnavailable <==>
                  valid && ready
                  && (!mine || Finished(s.board.commands[id].status)
                      || (held && s.board.commands[id].claim.value.owner != runtime)))
    ensures var reply := ClaimCommand(s, agent, id, runtime, applied, dbNow).1;
            reply.Granted? && !reply.isNew ==>
              var row := s.board.commands[id];
              reply == Granted(row.epoch, ClaimToken(agent, id, runtime, row.epoch), row.claim.value.until, false)
  {
    if id in s.board.commands { assert CommandOk(s.board, id); }
  }

  // ----------------------------------------------------------------- completions

  /** The request presents the claim the row holds. */
  ghost predicate PresentsClaim(row: Command, req: CompleteRequest) {
    row.claim.Some? && row.claim.value.owner == req.runtime && row.claim.value.token == req.token
    && row.epoch == req.epoch
  }

  /** What a completion leaves in the item of its command. */
  ghost predicate Settled(before: Item, after: Item, req: CompleteRequest, now: int) {
    after == before.(status := if req.success then Acted else Open,
                     response := Some(if req.success then Succeeded else Failed),
                     updatedAt := now, revision := before.revision + 1)
  }

  /**
   A completion finishes its command exactly when it presents the claim in time and, for a response,
   its result is valid. It stores the canonical result of a response and the raw one otherwise,
   settles the response's item and changes no other row.
   */
  lemma CompleteFinishesExactly(s: State, req: CompleteRequest, resultOk: bool, dbNow: int, now: int)
    requires BoardOk(s.board)
    ensures var (t, reply) := Complete(s, req, resultOk, dbNow, now);
            t != s <==>
              && req.runtime != "" && req.epoch > 0
              && req.id in s.board.commands && s.board.commands[req.id].agent == req.agent
              && (s.board.commands[req.id].attention.Some? ==> resultOk)
              && s.board.commands[req.id].status == Claimed && PresentsClaim(s.board.commands[req.id], req)
              && dbNow < s.board.commands[req.id].claim.value.until
    ensures var (t, reply) := Complete(s, req, resultOk, dbNow, now);
            t != s ==>
              && var row := s.board.commands[req.id];
                 && reply == Completed(req.success, now)
                 && t.board.commands == s.board.commands[req.id := row.(
                      status := if req.success then Succeeded else Failed,
                      outcome := Some(Outcome(if row.attention.Some? then req.canonical else req.raw, now)))]
                 && t.board.items.Keys == s.board.items.Keys
                 && (forall a <- s.board.items :: row.attention != Some(a) ==> t.board.items[a] == s.board.items[a])
                 && (row.attention.Some? ==>
                       row.attention.value in s.board.items
                       && Settled(s.board.items[row.attention.value], t.board.items[row.attention.value], req, now))
                 && t == s.(board := s.board.(commands := t.board.commands, items := t.board.items))
  {
    if req.id in s.board.commands {
      assert CommandOk(s.board, req.id);
      var row := s.board.commands[req.id];
      if row.attention.Some? && row.status == Claimed {
        var done := row.(status := Succeeded);
        OwnInStep(s.board, req.id, done, row.attention.value,
                  s.board.items[row.attention.value].(status := Acted,
                                                      revision := s.board.items[row.attention.value].revision + 1));
      }
    }
  }

  /** The answers of a completion that finishes nothing. */
  lemma CompleteAnswersExactly(s: State, req: CompleteRequest, resultOk: bool, dbNow: int, now: int)
    requires BoardOk(s.board) && Complete(s, req, resultOk, dbNow, now).0 == s
    ensures var reply := Complete(s, req, resultOk, dbNow, now).1;
            var valid := req.runtime != "" && req.epoch > 0;
            var mine := req.id in s.board.commands && s.board.commands[req.id].agent == req.agent;
            var refused := mine && s.board.commands[req.id].attention.Some? && !resultOk;
            && (reply == InvalidCompletion <==> !valid)
            && (reply == InvalidResult <==> valid && refused)
            && (reply.Completed? <==>
                  && valid && mine && !refused && PresentsClaim(s.board.commands[req.id], req)
                  && var row := s.board.commands[req.id];
                     && row.status == (if req.success then Succeeded else Failed)
                     && row.outcome.Some?
                     && row.outcome.value.result == if row.attention.Some? then req.canonical else req.raw)
            && (reply.Completed? ==>
                  reply == Completed(req.success, s.board.commands[req.id].outcome.value.at))
  {
    if req.id in s.board.commands { assert CommandOk(s.board, req.id); }
  }

  // ----------------------------------------------------------------- creating commands

  /** The agent's command with this idempotency key. */
  ghost predicate HasKey(b: Board, agent: int, key: string, c: int) {
    c in b.commands && b.commands[c].agent == agent && b.commands[c].key == key
  }

  lemma KeyIsIndexed(b: Board, agent: int, key: string)
    requires BoardOk(b)
    ensures (agent, key) in b.byKey <==> exists c :: HasKey(b, agent, key, c)
    ensures forall c :: HasKey(b, agent, key, c) ==> (agent, key) in b.byKey && b.byKey[(agent, key)] == c
  {
    if (agent, key) in b.byKey {
      assert KeyOk(b, (agent, key));
      assert HasKey(b, agent, key, b.byKey[(agent, key)]);
    }
    forall c | HasKey(b, agent, key, c) ensures (agent, key) in b.byKey && b.byKey[(agent, key)] == c {
      assert CommandOk(b, c);
    }
  }

  ghost predicate Onboarded(s: State, agent: int) {
    agent in s.contexts && s.contexts[agent].onboarded
  }

  ghost predicate ActiveAt(s: State, agent: int, revision: int) {
    agent in s.contexts && s.contexts[agent].activeRevision == revision && revision > 0
  }

  /** A command row as it is inserted. */
  ghost predicate Inserted(s: State, t: State, row: Command, items: map<int, Item>) {
    && s.board.nextCommand !in s.board.commands
    && t == s.(board := s.board.(commands := s.board.commands[s.board.nextCommand := row], items := items,
                                 byKey := s.board.byKey[(row.agent, row.key) := s.board.nextCommand],
                                 nextCommand := s.board.nextCommand + 1))
  }

  /**
   A command is created exactly when the agent has an active context and no command of its own with
   that key; the same request again gets the first command, another one with that key a conflict.
   */
  lemma CreateExactly(s: State, agent: int, commandType: string, payload: string, key: string)
    requires BoardOk(s.board)
    ensures var (t, reply) := Create(s, agent, commandType, payload, key);
            && (reply.Created? && reply.isNew <==>
                  (forall c :: !HasKey(s.board, agent, key, c)) && exists revision :: ActiveAt(s, agent, revision))
            && (reply.Created? && !reply.isNew <==>
                  exists c :: HasKey(s.board, agent, key, c) && s.board.commands[c].hash
                      == CreationHash(commandType, payload))
            && (reply.Created? && !reply.isNew ==> HasKey(s.board, agent, key, reply.command))
            && (!(reply.Created? && reply.isNew) ==> t == s)
    ensures var (t, reply) := Create(s, agent, commandType, payload, key);
            reply.Created? && reply.isNew ==>
              && reply.command == s.board.nextCommand
              && Inserted(s, t, Command(agent, None, false, CreationHash(commandType, payload),
                                        Some(s.contexts[agent].activeRevision), Waiting, key, 0, None, 0, None, None),
                          s.board.items)
  {
    KeyIsIndexed(s.board, agent, key);
    FreshIds(s.board);
    if (agent, key) in s.board.byKey { assert KeyOk(s.board, (agent, key)); }
    if agent in s.contexts && s.contexts[agent].activeRevision > 0 {
      assert ActiveAt(s, agent, s.contexts[agent].activeRevision);
    }
  }

  // ----------------------------------------------------------------- responses

  /** The item can be answered at its current revision by all three clock readings. */
  ghost predicate Answerable(item: Item, req: RespondRequest, dbNow: int, dbLater: int, now: int) {
    && item.agent == req.agent && item.status == Open && item.revision == req.expected
    && item.expiresAt.Some? && dbNow < item.expiresAt.value && dbLater < item.expiresAt.value
    && now < item.expiresAt.value
  }

  /** The agent's active context is the one the item and the chosen action were made for. */
  ghost predicate ContextAgrees(c: AgentContext, item: Item, flag: string) {
    && c.activeRevision > 0
    && (item.phase == PrefillPhase ==> c.onboarded)
    && (flag == "apply_intent_update" && item.context.operation == "add" ==> c.activeIntents < 10)
    && (item.context.contextRevision.Some? ==> item.context.contextRevision.value == c.activeRevision)
    && (item.category == "goal_calibration" && item.context.goalRevision.Some? ==>
          c.goalVersion != 0 && c.goalVersion == item.context.goalRevision.value)
  }

  /** The first action with the requested key does more than open the source. */
  ghost predicate Chooses(item: Item, key: string, i: int) {
    FirstWithKey(item.actions, key, i) && item.actions[i].flag != "open_source"
  }

  ghost predicate MayRespond(s: State, req: RespondRequest, dbNow: int, dbLater: int, now: int, i: int) {
    && req.attention > 0 && req.expected > 0
    && (forall c :: !HasKey(s.board, req.agent, req.key, c))
    && req.attention in s.board.items && req.agent in s.contexts
    && var item := s.board.items[req.attention];
       && Answerable(item, req, dbNow, dbLater, now) && Chooses(item, req.action, i)
       && ContextAgrees(s.contexts[req.agent], item, item.actions[i].flag)
  }

  lemma FirstIsUnique(actions: seq<Action>, key: string, i: int, j: int)
    requires FirstWithKey(actions, key, i) && FirstWithKey(actions, key, j)
    ensures i == j
  {
  }

  lemma FindsFirst(actions: seq<Action>, key: string, i: int)
    requires FirstWithKey(actions, key, i)
    ensures FindAction(actions, key) == Some(actions[i])
  {
    var r := FindAction(actions, key);
    assert actions[i] in actions;
    var j :| FirstWithKey(actions, key, j) && r.value == actions[j];
    FirstIsUnique(actions, key, i, j);
  }

  lemma RespondsWhen(s: State, req: RespondRequest, dbNow: int, dbLater: int, now: int, i: int)
    requires BoardOk(s.board) && MayRespond(s, req, dbNow, dbLater, now, i)
    ensures Respond(s, req, dbNow, dbLater, now).1.Responded?
  {
    KeyIsIndexed(s.board, req.agent, req.key);
    FindsFirst(s.board.items[req.attention].actions, req.action, i);
  }

  lemma RespondedOnlyWhen(s: State, req: RespondRequest, dbNow: int, dbLater: int, now: int) returns (i: int)
    requires BoardOk(s.board) && Respond(s, req, dbNow, dbLater, now).1.Responded?
    ensures MayRespond(s, req, dbNow, dbLater, now, i)
  {
    KeyIsIndexed(s.board, req.agent, req.key);
    assert (req.agent, req.key) in s.board.byKey ==> KeyOk(s.board, (req.agent, req.key));
    var actions := s.board.items[req.attention].actions;
    var found := FindAction(actions, req.action).value;
    i :| FirstWithKey(actions, req.action, i) && found == actions[i];
  }

  /** What an accepted response writes: one command and the item, with the flag of the first action of that key. */
  lemma ResponseWrites(s: State, req: RespondRequest, dbNow: int, dbLater: int, now: int, i: int)
    requires BoardOk(s.board) && MayRespond(s, req, dbNow, dbLater, now, i)
    ensures var (t, reply) := Respond(s, req, dbNow, dbLater, now);
            var item := s.board.items[req.attention];
            && reply == Responded(s.board.nextCommand, req.expected + 1, Responding, item.actions[i].flag)
            && Inserted(s, t, Command(req.agent, Some(req.attention), true,
                                      ResponseHash(req.attention, req.expected, req.action),
                                      Some(s.contexts[req.agent].activeRevision), Waiting, req.key, 0, None, 0, None,
                                      None),
                        s.board.items[req.attention := item.(status := Responding, selected := Some(req.action),
                                                             response := Some(Waiting), updatedAt := now,
                                                             revision := req.expected + 1)])
  {
    RespondsWhen(s, req, dbNow, dbLater, now, i);
    FindsFirst(s.board.items[req.attention].actions, req.action, i);
    FreshIds(s.board);
  }

  /** A response is accepted exactly when it may be, and otherwise nothing changes. */
  lemma RespondExactly(s: State, req: RespondRequest, dbNow: int, dbLater: int, now: int)
    requires BoardOk(s.board)
    ensures Respond(s, req, dbNow, dbLater, now).1.Responded? <==>
        exists i :: MayRespond(s, req, dbNow, dbLater, now, i)
    ensures !Respond(s, req, dbNow, dbLater, now).1.Responded? ==> Respond(s, req, dbNow, dbLater, now).0 == s
  {
    if Respond(s, req, dbNow, dbLater, now).1.Responded? {
      var i := RespondedOnlyWhen(s, req, dbNow, dbLater, now);
    }
    forall i | MayRespond(s, req, dbNow, dbLater, now, i) ensures Respond(s, req, dbNow, dbLater, now).1.Responded? {
      RespondsWhen(s, req, dbNow, dbLater, now, i);
    }
  }

  /** Why an answerable item refuses a response, in the order of the checks. */
  lemma RefusalsExactly(s: State, req: RespondRequest, dbNow: int, dbLater: int, now: int, i: int)
    requires BoardOk(s.board) && req.attention > 0 && req.expected > 0
    requires (forall c :: !HasKey(s.board, req.agent, req.key, c)) && req.attention in s.board.items
    requires Answerable(s.board.items[req.attention], req, dbNow, dbLater, now)
    requires FirstWithKey(s.board.items[req.attention].actions, req.action, i)
    ensures var reply, item := Respond(s, req, dbNow, dbLater, now).1, s.board.items[req.attention];
            var onboarded, flag := Onboarded(s, req.agent), item.actions[i].flag;
            var active := exists revision :: ActiveAt(s, req.agent, revision);
            var waits := item.phase == PrefillPhase && !(onboarded && active);
            var full := flag == "apply_intent_update" && item.context.operation == "add" && req.agent in s.contexts
                        && s.contexts[req.agent].activeIntents >= 10;
            && (reply == OnboardingNeeded <==> waits && !onboarded)
            && (reply == SourceDirectOnly <==> !waits && flag == "open_source")
            && (reply == IntentCapacityReached <==> !waits && full)
            && (reply == ResponseConflict <==> !waits && flag != "open_source" && !full && !active)
            && (reply == ContextStale <==>
                  || (waits && onboarded)
                  || (!waits && flag != "open_source" && !full && active
                      && !ContextAgrees(s.contexts[req.agent], item, flag)))
  {
    KeyIsIndexed(s.board, req.agent, req.key);
    FindsFirst(s.board.items[req.attention].actions, req.action, i);
    assert ItemOk(s.board, req.attention);
    if req.agent in s.contexts && s.contexts[req.agent].activeRevision > 0 {
      assert ActiveAt(s, req.agent, s.contexts[req.agent].activeRevision);
    }
  }

  lemma InvalidExactly(s: State, req: RespondRequest, dbNow: int, dbLater: int, now: int)
    ensures Respond(s, req, dbNow, dbLater, now).1 == InvalidResponse <==> req.attention <= 0 || req.expected <= 0
  {
  }

  /** An item that is not the agent's, open, current and unexpired conflicts, and so does an unknown action. */
  lemma ConflictsExactly(s: State, req: RespondRequest, dbNow: int, dbLater: int, now: int)
    requires BoardOk(s.board) && req.attention > 0 && req.expected > 0
    requires forall c :: !HasKey(s.board, req.agent, req.key, c)
    ensures req.attention !in s.board.items || !Answerable(s.board.items[req.attention], req, dbNow, dbNow, now) ==>
        Respond(s, req, dbNow, dbLater, now).1 == ResponseConflict
    ensures (&& req.attention in s.board.items && MayTouch(s, s.board.items[req.attention])
             && forall a <- s.board.items[req.attention].actions :: a.key != req.action) ==>
        Respond(s, req, dbNow, dbLater, now).1 == ResponseConflict
  {
    KeyIsIndexed(s.board, req.agent, req.key);
    if req.attention in s.board.items {
      var found := FindAction(s.board.items[req.attention].actions, req.action);
      assert found.Some? ==> found.value in s.board.items[req.attention].actions;
    }
  }

  /**
   A key already used answers from the stored command, without any other check: a conflict for another
   request, and otherwise the command with the item's present state and the flag of the action.
   */
  lemma RepeatedResponseExactly(s: State, req: RespondRequest, dbNow: int, dbLater: int, now: int, c: int, i: int)
    requires BoardOk(s.board) && req.attention > 0 && req.expected > 0 && HasKey(s.board, req.agent, req.key, c)
    requires req.attention in s.board.items && s.board.items[req.attention].agent == req.agent
    requires FirstWithKey(s.board.items[req.attention].actions, req.action, i)
    ensures var reply, item := Respond(s, req, dbNow, dbLater, now).1, s.board.items[req.attention];
            if s.board.commands[c].hash == ResponseHash(req.attention, req.expected, req.action)
            then reply == ResponseReplay(c, s.board.commands[c].status, item.revision, item.status,
                                         item.actions[i].flag)
            else reply == ResponseConflict
  {
    KeyIsIndexed(s.board, req.agent, req.key);
    FindsFirst(s.board.items[req.attention].actions, req.action, i);
    assert ItemOk(s.board, req.attention) && s.board.items[req.attention].actions[i]
        in s.board.items[req.attention].actions;
  }

  /** The stored command cannot be shown without its item and action. */
  lemma UnreadableReplay(s: State, req: RespondRequest, dbNow: int, dbLater: int, now: int, c: int)
    requires BoardOk(s.board) && req.attention > 0 && req.expected > 0 && HasKey(s.board, req.agent, req.key, c)
    requires s.board.commands[c].hash == ResponseHash(req.attention, req.expected, req.action)
    requires req.attention !in s.board.items || s.board.items[req.attention].agent != req.agent
        || forall a <- s.board.items[req.attention].actions :: a.key != req.action
    ensures Respond(s, req, dbNow, dbLater, now) == (s, ResponseFailed)
  {
    KeyIsIndexed(s.board, req.agent, req.key);
    if req.attention in s.board.items {
      var found := FindAction(s.board.items[req.attention].actions, req.action);
      assert found.Some? ==> found.value in s.board.items[req.attention].actions;
    }
  }

  // ----------------------------------------------------------------- dismissals, publications, leases

  ghost predicate MayTouch(s: State, item: Item) {
    item.phase == PrefillPhase ==>
      item.agent in s.contexts && s.contexts[item.agent].onboarded && s.contexts[item.agent].activeRevision > 0
  }

  /**
   An item is dismissed exactly when it is the agent's, open, unexpired, at the named revision if one
   is named, and, for a prefill item, onboarding is over; only its status, time and revision change.
   */
  lemma DismissExactly(s: State, agent: int, attention: int, expected: nat, dbNow: int, now: int)
    ensures var (t, reply) := Dismiss(s, agent, attention, expected, dbNow, now);
            var mine := attention in s.board.items && s.board.items[attention].agent == agent;
            && (t != s <==>
                  && mine && MayTouch(s, s.board.items[attention]) && s.board.items[attention].status == Open
                  && s.board.items[attention].expiresAt.Some? && dbNow < s.board.items[attention].expiresAt.value
                  && (expected == 0 || s.board.items[attention].revision == expected))
            && (t != s ==>
                  && var item := s.board.items[attention];
                     && reply == ItemDismissed(item.revision + 1, false)
                     && t == s.(board := s.board.(items := s.board.items[attention := item.(
                          status := Dismissed, updatedAt := now, revision := item.revision + 1)])))
            && (t == s ==>
                  (reply.ItemDismissed? <==>
                     && mine && MayTouch(s, s.board.items[attention]) && expected > 0
                     && s.board.items[attention].status == Dismissed
                     && s.board.items[attention].revision == expected + 1))
            && (reply.ItemDismissed? && t == s ==> reply == ItemDismissed(expected + 1, true))
            && (reply == DismissOnboarding <==>
                  mine && s.board.items[attention].phase == PrefillPhase && !Onboarded(s, agent))
            && (reply == DismissStale <==>
                  mine && s.board.items[attention].phase == PrefillPhase && Onboarded(s, agent)
                  && s.contexts[agent].activeRevision <= 0)
  {
    if attention in s.board.items { assert s.board.items[attention].(status := Dismissed).status == Dismissed; }
  }

  /** A published item is new, open and at revision 1, and everything else stays. */
  lemma PublishExactly(s: State, item: Item)
    requires BoardOk(s.board)
    ensures PublishItem(s, item) == s <==> exists a <- item.actions :: a.flag == ""
    ensures PublishItem(s, item) != s ==>
              && s.board.nextItem !in s.board.items
              && PublishItem(s, item) == s.(board := s.board.(nextItem := s.board.nextItem + 1,
                     items := s.board.items[s.board.nextItem := Item(
                       item.agent, item.phase, item.category, item.actions, item.context, item.expiresAt, Open, None,
                       None, item.updatedAt, 1)]))
  {
    FreshIds(s.board);
  }

  /** A heartbeat renews the lease for 90 seconds exactly when it names no revision or a stored positive one. */
  lemma HeartbeatExactly(s: State, agent: int, runtime: string, applied: Option<int>, dbNow: int)
    ensures var (t, reply) := Heartbeat(s, agent, runtime, applied, dbNow);
            && (reply.Renewed? <==>
                  && 0 < |runtime| <= 128
                  && (applied.Some? ==>
                        applied.value > 0 && agent in s.contexts && applied.value in s.contexts[agent].revisions))
            && (reply == InvalidHeartbeat <==>
                  |runtime| == 0 || |runtime| > 128 || (applied.Some? && applied.value <= 0))
            && (reply.Renewed? ==>
                  reply.until == dbNow + 90000
                  && t == s.(leases := s.leases[(agent, runtime) := Lease(applied, dbNow + 90000)]))
            && (!reply.Renewed? ==> t == s)
  {
  }
}
