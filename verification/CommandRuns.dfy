/** Whole runs of commands and attention items: any callers, any order, any clock readings. */
module CommandRuns {
  import opened Common
  import opened AttentionCommands

  // ----------------------------------------------------------------- the commands of an item

  function Responses(commands: map<int, Command>, attention: int): set<int> {
    set c | c in commands && commands[c].attention == Some(attention)
  }

  function Ended(commands: map<int, Command>, attention: int): set<int> {
    set c | c in commands && commands[c].attention == Some(attention) && Finished(commands[c].status)
  }

  function Unfinished(commands: map<int, Command>, attention: int): set<int> {
    set c | c in commands && commands[c].attention == Some(attention) && !Finished(commands[c].status)
  }

  function Successes(commands: map<int, Command>, attention: int): set<int> {
    set c | c in commands && commands[c].attention == Some(attention) && commands[c].status == Succeeded
  }

  function One(b: bool): nat {
    if b then 1 else 0
  }

  /**
   The item and its commands move in step: pending means exactly one unfinished command, acted
   exactly one successful one, and the revision counts what has happened to the item.
   */
  ghost predicate InStep(item: Item, commands: map<int, Command>, attention: int) {
    && |Unfinished(commands, attention)| == One(item.status == Responding)
    && |Successes(commands, attention)| == One(item.status == Acted)
    && item.revision == 1 + |Responses(commands, attention)| + |Ended(commands, attention)|
        + One(item.status == Dismissed)
  }

  // ----------------------------------------------------------------- invariant

  ghost predicate CommandOk(b: Board, c: int) {
    && c in b.commands
    && c < b.nextCommand
    && var row := b.commands[c];
       && (row.agent, row.key) in b.byKey && b.byKey[(row.agent, row.key)] == c
       && row.terminal == row.attention.Some?
       && (row.attention.Some? ==> row.attention.value in b.items && b.items[row.attention.value].agent == row.agent)
       && ClaimOk(row, c)
  }

  /** A command that was ever claimed holds the token of its current epoch. */
  ghost predicate ClaimOk(row: Command, c: int) {
    && row.attempts == row.epoch
    && (row.status == Claimed || Finished(row.status) <==> row.claim.Some?)
    && (row.claim.Some? ==>
          row.epoch > 0 && row.claim.value.token == ClaimToken(row.agent, c, row.claim.value.owner, row.epoch))
    && (row.claim.None? ==> row.epoch == 0)
    && (Finished(row.status) <==> row.outcome.Some?)
  }

  /** What no update of an item changes. */
  ghost predicate SameItem(a: Item, b: Item) {
    b.agent == a.agent && b.actions == a.actions
  }

  ghost predicate KeyOk(b: Board, k: (int, string)) {
    k in b.byKey && b.byKey[k] in b.commands && b.commands[b.byKey[k]].agent == k.0 && b.commands[b.byKey[k]].key == k.1
  }

  ghost predicate ItemOk(b: Board, a: int) {
    a in b.items && a < b.nextItem && InStep(b.items[a], b.commands, a) && FlaggedActions(b.items[a].actions)
  }

  ghost predicate BoardOk(b: Board) {
    && (forall c {:trigger CommandOk(b, c)} :: c in b.commands ==> CommandOk(b, c))
    && (forall k {:trigger KeyOk(b, k)} :: k in b.byKey ==> KeyOk(b, k))
    && (forall a {:trigger ItemOk(b, a)} :: a in b.items ==> ItemOk(b, a))
  }

  // ----------------------------------------------------------------- how a row change moves the sets

  /** Rewriting a command without finishing it leaves the sets of every item alone. */
  lemma SameSets(commands: map<int, Command>, c: int, row: Command, a: int)
    requires c in commands && row.attention == commands[c].attention
    requires row.status == commands[c].status || (!Finished(row.status) && !Finished(commands[c].status))
    ensures var after := commands[c := row];
            && Responses(after, a) == Responses(commands, a)
            && Ended(after, a) == Ended(commands, a)
            && Unfinished(after, a) == Unfinished(commands, a)
            && Successes(after, a) == Successes(commands, a)
  {
  }

  lemma InsertedSets(commands: map<int, Command>, c: int, row: Command, a: int)
    requires c !in commands && row.status == Waiting
    ensures var after := commands[c := row];
            && Responses(after, a) == Responses(commands, a) + (if row.attention == Some(a) then {c} else {})
            && Unfinished(after, a) == Unfinished(commands, a) + (if row.attention == Some(a) then {c} else {})
            && Ended(after, a) == Ended(commands, a)
            && Successes(after, a) == Successes(commands, a)
            && c !in Responses(commands, a) && c !in Unfinished(commands, a)
  {
  }

  lemma FinishedSets(commands: map<int, Command>, c: int, row: Command, a: int)
    requires c in commands && row.attention == commands[c].attention && !Finished(commands[c].status)
    requires Finished(row.status)
    ensures var after := commands[c := row];
            var mine := if row.attention == Some(a) then {c} else {};
            && Responses(after, a) == Responses(commands, a)
            && Unfinished(after, a) == Unfinished(commands, a) - mine
            && Ended(after, a) == Ended(commands, a) + mine
            && Successes(after, a) == Successes(commands, a) + (if row.status == Succeeded then mine else {})
            && c !in Ended(commands, a) && c !in Successes(commands, a)
            && (row.attention == Some(a) ==> c in Unfinished(commands, a))
  {
  }

  // ----------------------------------------------------------------- every transaction keeps the invariant

  lemma FreshIds(b: Board)
    requires BoardOk(b)
    ensures b.nextCommand !in b.commands && b.nextItem !in b.items
  {
    forall c <- b.commands ensures c < b.nextCommand { assert CommandOk(b, c); }
    forall a <- b.items ensures a < b.nextItem { assert ItemOk(b, a); }
  }

  lemma InsertCommandKeeps(b: Board, row: Command, items: map<int, Item>)
    requires BoardOk(b) && (row.agent, row.key) !in b.byKey && row.status == Waiting
    requires row.terminal == row.attention.Some? && ClaimOk(row, b.nextCommand)
    requires row.attention.Some? ==> row.attention.value in items && items[row.attention.value].agent == row.agent
    requires items.Keys == b.items.Keys && forall a <- items :: SameItem(b.items[a], items[a])
    requires forall a <- items :: InStep(items[a], InsertCommand(b, row).commands, a)
    ensures BoardOk(InsertCommand(b, row).(items := items))
  {
    var d := InsertCommand(b, row).(items := items);
    FreshIds(b);
    forall c <- d.commands ensures CommandOk(d, c) {
      if c != b.nextCommand { assert CommandOk(b, c); }
    }
    forall k <- d.byKey ensures KeyOk(d, k) {
      if k != (row.agent, row.key) { assert KeyOk(b, k); }
    }
    forall a <- d.items ensures ItemOk(d, a) { assert ItemOk(b, a); }
  }

  lemma RewriteCommandKeeps(b: Board, c: int, row: Command, items: map<int, Item>)
    requires BoardOk(b) && c in b.commands
    requires row.(epoch := 0, claim := None, status := Waiting, attempts := 0, deliveredAt := None, outcome := None)
             == b.commands[c].(epoch := 0, claim := None, status := Waiting, attempts := 0, deliveredAt := None,
                               outcome := None)
    requires ClaimOk(row, c)
    requires items.Keys == b.items.Keys && forall a <- items :: SameItem(b.items[a], items[a])
    requires forall a <- items :: InStep(items[a], b.commands[c := row], a)
    ensures BoardOk(b.(commands := b.commands[c := row], items := items))
  {
    var d := b.(commands := b.commands[c := row], items := items);
    forall k <- d.commands ensures CommandOk(d, k) { assert CommandOk(b, k); }
    forall k <- d.byKey ensures KeyOk(d, k) { assert KeyOk(b, k); }
    forall a <- d.items ensures ItemOk(d, a) { assert ItemOk(b, a); }
  }

  lemma CreateKeeps(s: State, agent: int, commandType: string, payload: string, key: string)
    requires BoardOk(s.board)
    ensures BoardOk(Create(s, agent, commandType, payload, key).0.board)
  {
    var b := s.board;
    if (agent, key) in b.byKey {
      assert KeyOk(b, (agent, key));
    } else {
      var row := NewCommand(agent, None, CreationHash(commandType, payload), ContextOf(s, agent).activeRevision, key);
      FreshIds(b);
      forall a <- b.items ensures InStep(b.items[a], InsertCommand(b, row).commands, a) {
        assert ItemOk(b, a);
        InsertedSets(b.commands, b.nextCommand, row, a);
      }
      InsertCommandKeeps(b, row, b.items);
      assert InsertCommand(b, row).(items := b.items) == InsertCommand(b, row);
    }
  }

  lemma WriteResponseKeeps(b: Board, req: RespondRequest, required: int, now: int)
    requires BoardOk(b) && (req.agent, req.key) !in b.byKey
    requires req.attention in b.items && b.items[req.attention].agent == req.agent
    requires b.items[req.attention].status == Open
    ensures BoardOk(WriteResponse(b, req, required, now))
  {
    var row := NewCommand(req.agent, Some(req.attention), ResponseHash(req.attention, req.expected, req.action),
                          required, req.key);
    var items := WriteResponse(b, req, required, now).items;
    FreshIds(b);
    forall a <- items ensures InStep(items[a], InsertCommand(b, row).commands, a) {
      assert ItemOk(b, a);
      InsertedSets(b.commands, b.nextCommand, row, a);
    }
    InsertCommandKeeps(b, row, items);
  }

  lemma RespondKeeps(s: State, req: RespondRequest, dbNow: int, dbLater: int, now: int)
    requires BoardOk(s.board)
    ensures BoardOk(Respond(s, req, dbNow, dbLater, now).0.board)
  {
    assert (req.agent, req.key) in s.board.byKey ==> KeyOk(s.board, (req.agent, req.key));
    if Respond(s, req, dbNow, dbLater, now).1.Responded? {
      WriteResponseKeeps(s.board, req, ContextOf(s, req.agent).activeRevision, now);
    }
  }

  lemma ClaimKeeps(s: State, agent: int, id: int, runtime: string, applied: int, dbNow: int)
    requires BoardOk(s.board)
    ensures BoardOk(ClaimCommand(s, agent, id, runtime, applied, dbNow).0.board)
  {
    var b := s.board;
    var (t, reply) := ClaimCommand(s, agent, id, runtime, applied, dbNow);
    if reply.Granted? && reply.isNew {
      assert CommandOk(b, id);
      var row := ClaimedRow(b.commands[id], id, runtime, dbNow);
      forall a <- b.items ensures InStep(b.items[a], b.commands[id := row], a) {
        assert ItemOk(b, a);
        SameSets(b.commands, id, row, a);
      }
      RewriteCommandKeeps(b, id, row, b.items);
      assert t.board == b.(commands := b.commands[id := row], items := b.items);
    }
  }

  /** Finishing a command leaves the items of other commands in step. */
  lemma OthersInStep(b: Board, c: int, row: Command, a: int)
    requires BoardOk(b) && c in b.commands && a in b.items && b.commands[c].attention != Some(a)
    requires row.attention == b.commands[c].attention && !Finished(b.commands[c].status) && Finished(row.status)
    ensures InStep(b.items[a], b.commands[c := row], a)
  {
    assert ItemOk(b, a);
    FinishedSets(b.commands, c, row, a);
  }

  /** The item of a claimed response is pending, and finishing the response settles it. */
  lemma OwnInStep(b: Board, c: int, row: Command, a: int, item: Item)
    requires BoardOk(b) && c in b.commands && a in b.items && b.commands[c].attention == Some(a)
    requires row.attention == b.commands[c].attention && !Finished(b.commands[c].status) && Finished(row.status)
    requires item.revision == b.items[a].revision + 1 && item.status == if row.status == Succeeded then Acted else Open
    ensures b.items[a].status == Responding && InStep(item, b.commands[c := row], a)
  {
    assert ItemOk(b, a);
    FinishedSets(b.commands, c, row, a);
    assert |Unfinished(b.commands, a)| == 1;
  }

  /** Completing the only unfinished command of a pending item settles that item. */
  lemma SettleInStep(b: Board, req: CompleteRequest, now: int, a: int)
    requires BoardOk(b) && req.id in b.commands && b.commands[req.id].status == Claimed && a in b.items
    ensures var row := b.commands[req.id];
            InStep(SettleItem(b.items, row, req, now)[a], b.commands[req.id := FinishedRow(row, req, now)], a)
  {
    var row := b.commands[req.id];
    assert CommandOk(b, req.id);
    if row.attention == Some(a) {
      var item := b.items[a].(response := Some(FinalStatus(req)), updatedAt := now, revision := b.items[a].revision + 1,
                              status := if req.success then Acted else Open);
      OwnInStep(b, req.id, FinishedRow(row, req, now), a, item);
    } else {
      OthersInStep(b, req.id, FinishedRow(row, req, now), a);
    }
  }

  lemma CompleteKeeps(s: State, req: CompleteRequest, resultOk: bool, dbNow: int, now: int)
    requires BoardOk(s.board)
    ensures BoardOk(Complete(s, req, resultOk, dbNow, now).0.board)
  {
    var b := s.board;
    var t := Complete(s, req, resultOk, dbNow, now).0;
    if t != s {
      var row := b.commands[req.id];
      var items := SettleItem(b.items, row, req, now);
      assert CommandOk(b, req.id);
      forall a <- items ensures InStep(items[a], b.commands[req.id := FinishedRow(row, req, now)], a) {
        SettleInStep(b, req, now, a);
      }
      RewriteCommandKeeps(b, req.id, FinishedRow(row, req, now), items);
    }
  }

  lemma ItemsKeep(b: Board, d: Board)
    requires BoardOk(b) && d.commands == b.commands && d.byKey == b.byKey && d.nextCommand == b.nextCommand
    requires b.items.Keys <= d.items.Keys && forall a <- b.items :: d.items[a].agent == b.items[a].agent
    requires forall a <- d.items ::
        a < d.nextItem && InStep(d.items[a], d.commands, a) && FlaggedActions(d.items[a].actions)
    ensures BoardOk(d)
  {
    forall c <- d.commands ensures CommandOk(d, c) { assert CommandOk(b, c); }
    forall k <- d.byKey ensures KeyOk(d, k) { assert KeyOk(b, k); }
    forall a <- d.items ensures ItemOk(d, a) {}
  }

  lemma DismissKeeps(s: State, agent: int, attention: int, expected: nat, dbNow: int, now: int)
    requires BoardOk(s.board)
    ensures BoardOk(Dismiss(s, agent, attention, expected, dbNow, now).0.board)
  {
    var t := Dismiss(s, agent, attention, expected, dbNow, now).0;
    if t != s {
      forall a <- t.board.items
        ensures a < t.board.nextItem && InStep(t.board.items[a], t.board.commands, a)
        ensures FlaggedActions(t.board.items[a].actions) {
        assert ItemOk(s.board, a);
      }
      ItemsKeep(s.board, t.board);
    }
  }

  lemma PublishKeeps(s: State, item: Item)
    requires BoardOk(s.board)
    ensures BoardOk(PublishItem(s, item).board)
  {
    var b := s.board;
    var d := PublishItem(s, item).board;
    FreshIds(b);
    forall c <- b.commands ensures b.commands[c].attention != Some(b.nextItem) { assert CommandOk(b, c); }
    assert Responses(b.commands, b.nextItem) == {} && Ended(b.commands, b.nextItem) == {};
    assert Unfinished(b.commands, b.nextItem) == {} && Successes(b.commands, b.nextItem) == {};
    if FlaggedActions(item.actions) {
      forall a <- d.items
        ensures a < d.nextItem && InStep(d.items[a], d.commands, a) && FlaggedActions(d.items[a].actions) {
        if a != b.nextItem { assert ItemOk(b, a); }
      }
      ItemsKeep(b, d);
    }
  }

  // ----------------------------------------------------------------- runs

  datatype Op =
    | OpCreate(agent: int, commandType: string, payload: string, key: string)
    | OpRespond(respond: RespondRequest, dbNow: int, dbLater: int)
    | OpClaim(agent: int, id: int, runtime: string, applied: int, dbNow: int)
    | OpComplete(complete: CompleteRequest, resultOk: bool, dbNow: int)
    | OpDismiss(agent: int, attention: int, expected: nat, dbNow: int)
    | OpPublish(item: Item)
    | OpHeartbeat(agent: int, runtime: string, revision: Option<int>, dbNow: int)
    | OpContext(agent: int, context: AgentContext)

  /** A transaction and the gateway clock; database clocks are part of the operation. */
  datatype Event = Event(op: Op, now: int)

  function Step(s: State, e: Event): State {
    match e.op
    case OpCreate(agent, commandType, payload, key) => Create(s, agent, commandType, payload, key).0
    case OpRespond(req, dbNow, dbLater) => Respond(s, req, dbNow, dbLater, e.now).0
    case OpClaim(agent, id, runtime, applied, dbNow) => ClaimCommand(s, agent, id, runtime, applied, dbNow).0
    case OpComplete(req, resultOk, dbNow) => Complete(s, req, resultOk, dbNow, e.now).0
    case OpDismiss(agent, attention, expected, dbNow) => Dismiss(s, agent, attention, expected, dbNow, e.now).0
    case OpPublish(item) => PublishItem(s, item)
    case OpHeartbeat(agent, runtime, applied, dbNow) => Heartbeat(s, agent, runtime, applied, dbNow).0
    case OpContext(agent, context) => s.(contexts := s.contexts[agent := context])
  }

  function Run(s: State, events: seq<Event>): State
    decreases |events|
  {
    if events == [] then s else Run(Step(s, events[0]), events[1..])
  }

  const EMPTY: State := State(Board(map[], map[], map[], 1, 1), map[], map[])

  lemma StepKeeps(s: State, e: Event)
    requires BoardOk(s.board)
    ensures BoardOk(Step(s, e).board)
  {
    match e.op
    case OpCreate(agent, commandType, payload, key) => CreateKeeps(s, agent, commandType, payload, key);
    case OpRespond(req, dbNow, dbLater) => RespondKeeps(s, req, dbNow, dbLater, e.now);
    case OpClaim(agent, id, runtime, applied, dbNow) => ClaimKeeps(s, agent, id, runtime, applied, dbNow);
    case OpComplete(req, resultOk, dbNow) => CompleteKeeps(s, req, resultOk, dbNow, e.now);
    case OpDismiss(agent, attention, expected, dbNow) => DismissKeeps(s, agent, attention, expected, dbNow, e.now);
    case OpPublish(item) => PublishKeeps(s, item);
    case _ =>
  }

  lemma {:induction false} RunKeeps(s: State, events: seq<Event>)
    requires BoardOk(s.board)
    ensures BoardOk(Run(s, events).board)
    decreases |events|
  {
    if events != [] {
      StepKeeps(s, events[0]);
      RunKeeps(Step(s, events[0]), events[1..]);
    }
  }

  lemma {:induction false} RunSplits(s: State, events: seq<Event>, k: nat)
    requires k <= |events|
    ensures Run(s, events) == Run(Run(s, events[..k]), events[k..])
    decreases |events|
  {
    if k > 0 {
      RunSplits(Step(s, events[0]), events[1..], k - 1);
      assert events[..k][1..] == events[1..][..k - 1] && events[k..] == events[1..][k - 1..];
    } else {
      assert events[..0] == [] && events[0..] == events;
    }
  }

  /** In every reachable state items and commands are in step. */
  lemma ReachableItemsInStep(events: seq<Event>, attention: int)
    requires attention in Run(EMPTY, events).board.items
    ensures var b := Run(EMPTY, events).board;
            && InStep(b.items[attention], b.commands, attention)
            && (b.items[attention].status == Responding <==> exists c :: Unfinished(b.commands, attention) == {c})
            && (b.items[attention].status != Responding ==> Unfinished(b.commands, attention) == {})
  {
    RunKeeps(EMPTY, events);
    var b := Run(EMPTY, events).board;
    assert ItemOk(b, attention);
    var open := Unfinished(b.commands, attention);
    if b.items[attention].status == Responding {
      var c := AnyMember(open);
      assert |open - {c}| == 0;
      assert open == {c} + (open - {c});
    }
  }

  // ----------------------------------------------------------------- how rows may change

  /** What any later state keeps of a command row. */
  ghost predicate RowAdvanced(r: Command, t: Command) {
    && t.agent == r.agent && t.key == r.key && t.hash == r.hash && t.attention == r.attention
    && r.epoch <= t.epoch
    && (t.epoch == r.epoch ==> t.claim == r.claim)
    && (r.claim.Some? ==>
          t.claim.Some? && (r.epoch < t.epoch ==> r.claim.value.until + COMMAND_LEASE <= t.claim.value.until))
    && (Finished(r.status) ==> t == r)
  }

  /** What any later state keeps of an item row: finished items are frozen. */
  ghost predicate ItemAdvanced(r: Item, t: Item) {
    && t.agent == r.agent && t.actions == r.actions
    && r.revision <= t.revision
    && (t.revision == r.revision ==> t == r)
    && (r.status == Acted || r.status == Dismissed ==> t == r)
  }

  ghost predicate Advanced(b: Board, d: Board) {
    && (forall c <- b.commands :: c in d.commands && RowAdvanced(b.commands[c], d.commands[c]))
    && (forall a <- b.items :: a in d.items && ItemAdvanced(b.items[a], d.items[a]))
    && (forall k <- b.byKey :: k in d.byKey && d.byKey[k] == b.byKey[k])
  }

  lemma InsertAdvances(b: Board, row: Command, items: map<int, Item>)
    requires BoardOk(b) && (row.agent, row.key) !in b.byKey
    requires forall a <- b.items :: a in items && ItemAdvanced(b.items[a], items[a])
    ensures Advanced(b, InsertCommand(b, row).(items := items))
  {
    FreshIds(b);
  }

  lemma RespondAdvances(s: State, req: RespondRequest, dbNow: int, dbLater: int, now: int)
    requires BoardOk(s.board)
    ensures Advanced(s.board, Respond(s, req, dbNow, dbLater, now).0.board)
  {
    var b := s.board;
    assert (req.agent, req.key) in b.byKey ==> KeyOk(b, (req.agent, req.key));
    if Respond(s, req, dbNow, dbLater, now).1.Responded? {
      var required := ContextOf(s, req.agent).activeRevision;
      var row := NewCommand(req.agent, Some(req.attention), ResponseHash(req.attention, req.expected, req.action),
                            required, req.key);
      InsertAdvances(b, row, WriteResponse(b, req, required, now).items);
    }
  }

  lemma CreateAdvances(s: State, agent: int, commandType: string, payload: string, key: string)
    requires BoardOk(s.board)
    ensures Advanced(s.board, Create(s, agent, commandType, payload, key).0.board)
  {
    var b := s.board;
    assert (agent, key) in b.byKey ==> KeyOk(b, (agent, key));
    if (agent, key) !in b.byKey {
      var row := NewCommand(agent, None, CreationHash(commandType, payload), ContextOf(s, agent).activeRevision, key);
      InsertAdvances(b, row, b.items);
      assert InsertCommand(b, row).(items := b.items) == InsertCommand(b, row);
    }
  }

  lemma CompleteAdvances(s: State, req: CompleteRequest, resultOk: bool, dbNow: int, now: int)
    requires BoardOk(s.board)
    ensures Advanced(s.board, Complete(s, req, resultOk, dbNow, now).0.board)
  {
    if Complete(s, req, resultOk, dbNow, now).0 != s {
      assert CommandOk(s.board, req.id);
      var row := s.board.commands[req.id];
      assert RowAdvanced(row, FinishedRow(row, req, now));
      assert row.attention.Some? ==>
          ItemAdvanced(s.board.items[row.attention.value], SettleItem(s.board.items, row, req,
                                                                      now)[row.attention.value]);
    }
  }

  lemma ClaimAdvances(s: State, agent: int, id: int, runtime: string, applied: int, dbNow: int)
    requires BoardOk(s.board)
    ensures Advanced(s.board, ClaimCommand(s, agent, id, runtime, applied, dbNow).0.board)
  {
    if ClaimCommand(s, agent, id, runtime, applied, dbNow).0 != s {
      assert CommandOk(s.board, id);
      assert RowAdvanced(s.board.commands[id], ClaimedRow(s.board.commands[id], id, runtime, dbNow));
    }
  }

  lemma StepAdvances(s: State, e: Event)
    requires BoardOk(s.board)
    ensures Advanced(s.board, Step(s, e).board)
  {
    match e.op
    case OpCreate(agent, commandType, payload, key) => CreateAdvances(s, agent, commandType, payload, key);
    case OpRespond(req, dbNow, dbLater) => RespondAdvances(s, req, dbNow, dbLater, e.now);
    case OpClaim(agent, id, runtime, applied, dbNow) => ClaimAdvances(s, agent, id, runtime, applied, dbNow);
    case OpComplete(req, resultOk, dbNow) => CompleteAdvances(s, req, resultOk, dbNow, e.now);
    case OpDismiss(agent, attention, expected, dbNow) => DismissAdvances(s, agent, attention, expected, dbNow, e.now);
    case OpPublish(item) => FreshIds(s.board);
    case _ => NothingMoves(s.board);
  }

  lemma DismissAdvances(s: State, agent: int, attention: int, expected: nat, dbNow: int, now: int)
    ensures Advanced(s.board, Dismiss(s, agent, attention, expected, dbNow, now).0.board)
  {
    NothingMoves(s.board);
  }

  lemma NothingMoves(b: Board)
    ensures Advanced(b, b)
  {
  }

  lemma {:induction false} RunAdvances(s: State, events: seq<Event>)
    requires BoardOk(s.board)
    ensures Advanced(s.board, Run(s, events).board)
    decreases |events|
  {
    if events != [] {
      StepKeeps(s, events[0]);
      StepAdvances(s, events[0]);
      RunAdvances(Step(s, events[0]), events[1..]);
    }
  }

  /** The state before event `k` of a run. */
  function Before(s: State, events: seq<Event>, k: nat): State
    requires k <= |events|
  {
    Run(s, events[..k])
  }

  lemma Later(s: State, events: seq<Event>, i: nat, j: nat)
    requires BoardOk(s.board) && i < j < |events|
    ensures BoardOk(Before(s, events, i).board) && BoardOk(Step(Before(s, events, i), events[i]).board)
    ensures BoardOk(Before(s, events, j).board)
    ensures Advanced(Step(Before(s, events, i), events[i]).board, Before(s, events, j).board)
  {
    RunKeeps(s, events[..i]);
    RunKeeps(s, events[..j]);
    StepKeeps(Before(s, events, i), events[i]);
    RunSplits(s, events[..j], i);
    assert events[..j][..i] == events[..i] && events[..j][i..] == events[i..j] && events[i..j][0] == events[i];
    RunAdvances(Step(Before(s, events, i), events[i]), events[i..j][1..]);
  }

  // ----------------------------------------------------------------- leases and fences over runs

  /** The answer to a claim event. */
  function ClaimAnswer(s: State, e: Event): ClaimReply {
    if e.op.OpClaim? then ClaimCommand(s, e.op.agent, e.op.id, e.op.runtime, e.op.applied, e.op.dbNow).1
    else ClaimUnavailable
  }

  /** A claim event that takes a new epoch. */
  predicate Grants(s: State, e: Event) {
    ClaimAnswer(s, e).Granted? && ClaimAnswer(s, e).isNew
  }

  /** After a claim answer the row shows what was answered, and a new grant takes the next epoch of a free command. */
  lemma GrantShows(s: State, e: Event)
    requires BoardOk(s.board) && ClaimAnswer(s, e).Granted?
    ensures e.op.OpClaim? && e.op.id in s.board.commands && e.op.id in Step(s, e).board.commands
    ensures var g, row, after := ClaimAnswer(s, e), s.board.commands[e.op.id], Step(s, e).board.commands[e.op.id];
            && after.epoch == g.epoch && after.claim == Some(Claim(e.op.runtime, g.token, g.until))
            && (g.isNew ==> g.epoch == row.epoch + 1 && g.until == e.op.dbNow + COMMAND_LEASE
                            && (row.claim.Some? ==> row.claim.value.until <= e.op.dbNow))
            && (!g.isNew ==> after == row)
  {
    assert CommandOk(s.board, e.op.id);
  }

  /**
   Two grants of one command have rising epochs and lease periods that do not overlap, even if the
   database clock steps back.
   */
  lemma GrantsDoNotOverlap(s: State, events: seq<Event>, i: nat, j: nat)
    requires BoardOk(s.board) && i < j < |events|
    requires Grants(Before(s, events, i), events[i]) && Grants(Before(s, events, j), events[j])
    requires events[i].op.id == events[j].op.id
    ensures var g, h := ClaimAnswer(Before(s, events, i), events[i]), ClaimAnswer(Before(s, events, j), events[j]);
            && g.epoch < h.epoch
            && events[i].op.dbNow < g.until <= events[j].op.dbNow < h.until
  {
    Later(s, events, i, j);
    GrantShows(Before(s, events, i), events[i]);
    GrantShows(Before(s, events, j), events[j]);
    var c := events[i].op.id;
    assert RowAdvanced(Step(Before(s, events, i), events[i]).board.commands[c], Before(s, events, j).board.commands[c]);
  }

  /** Event `k` is an accepted heartbeat of the runtime that set this lease. */
  ghost predicate Heartbeats(events: seq<Event>, k: nat, agent: int, runtime: string, lease: Lease) {
    k < |events| && events[k].op.OpHeartbeat? && events[k].op.agent == agent && events[k].op.runtime == runtime
    && lease == Lease(events[k].op.revision, events[k].op.dbNow + RUNTIME_LEASE)
  }

  lemma {:induction false} LeaseOrigin(events: seq<Event>, agent: int, runtime: string)
    requires (agent, runtime) in Run(EMPTY, events).leases
    ensures exists k: nat :: Heartbeats(events, k, agent, runtime, Run(EMPTY, events).leases[(agent, runtime)])
    decreases |events|
  {
    if events != [] {
      var front, last := events[..|events| - 1], events[|events| - 1];
      assert events == front + [last];
      RunSplits(EMPTY, events, |front|);
      assert events[..|front|] == front && events[|front|..] == [last] && ([last])[1..] == [];
      var before, after := Run(EMPTY, front), Run(EMPTY, events);
      assert after == Step(before, last);
      if last.op.OpHeartbeat? && after.leases != before.leases && last.op.agent == agent && last.op.runtime == runtime {
        assert Heartbeats(events, |front|, agent, runtime, after.leases[(agent, runtime)]);
      } else {
        assert after.leases[(agent, runtime)] == before.leases[(agent, runtime)];
        LeaseOrigin(front, agent, runtime);
        var k: nat :| Heartbeats(front, k, agent, runtime, before.leases[(agent, runtime)]);
        assert Heartbeats(events, k, agent, runtime, after.leases[(agent, runtime)]);
      }
    }
  }

  /**
   A claim is answered only to a runtime whose heartbeat, less than 90 seconds before, reported the
   context it now names and the command needs.
   */
  lemma GrantFollowsHeartbeat(events: seq<Event>, j: nat)
    requires j < |events| && ClaimAnswer(Before(EMPTY, events, j), events[j]).Granted?
    ensures exists k :: && 0 <= k < j && events[k].op.OpHeartbeat?
                        && events[k].op.agent == events[j].op.agent && events[k].op.runtime == events[j].op.runtime
                        && events[k].op.revision == Some(events[j].op.applied)
                        && events[j].op.dbNow < events[k].op.dbNow + RUNTIME_LEASE
    ensures var row := Before(EMPTY, events, j).board.commands;
            events[j].op.id in row && (row[events[j].op.id].required.Some? ==>
                                         row[events[j].op.id].required.value <= events[j].op.applied)
  {
    var agent, runtime := events[j].op.agent, events[j].op.runtime;
    LeaseOrigin(events[..j], agent, runtime);
    var k: nat :| Heartbeats(events[..j], k, agent, runtime, Before(EMPTY, events, j).leases[(agent, runtime)]);
    assert events[..j][k] == events[k];
  }

  /** All claim answers with one epoch of a command name the same holder, token and deadline. */
  lemma EpochHasOneHolder(s: State, events: seq<Event>, i: nat, j: nat)
    requires BoardOk(s.board) && i < j < |events|
    requires var g, h := ClaimAnswer(Before(s, events, i), events[i]), ClaimAnswer(Before(s, events, j), events[j]);
             g.Granted? && h.Granted? && g.epoch == h.epoch && events[i].op.id == events[j].op.id
    ensures events[i].op.runtime == events[j].op.runtime
    ensures var g, h := ClaimAnswer(Before(s, events, i), events[i]), ClaimAnswer(Before(s, events, j), events[j]);
            g.token == h.token && g.until == h.until && !h.isNew
  {
    Later(s, events, i, j);
    GrantShows(Before(s, events, i), events[i]);
    GrantShows(Before(s, events, j), events[j]);
    var c := events[i].op.id;
    assert RowAdvanced(Step(Before(s, events, i), events[i]).board.commands[c], Before(s, events, j).board.commands[c]);
  }

  /** A holder that asks again while its claim is live gets the claim it has: the token check never fails. */
  lemma HolderMayAskAgain(s: State, agent: int, id: int, runtime: string, applied: int, dbNow: int)
    requires BoardOk(s.board) && OwnedBy(s.board, agent, id) && HeldBy(s.board.commands[id], runtime, dbNow)
    requires RuntimeName(runtime) && applied >= 0
    requires LeaseReady(s, agent, runtime, applied, s.board.commands[id].required, dbNow)
    ensures var row := s.board.commands[id];
            ClaimCommand(s, agent, id, runtime, applied, dbNow)
                == (s, Granted(row.epoch, row.claim.value.token, row.claim.value.until, false))
  {
    assert CommandOk(s.board, id);
  }

  function CompleteAnswer(s: State, e: Event): CompleteReply {
    if e.op.OpComplete? then Complete(s, e.op.complete, e.op.resultOk, e.op.dbNow, e.now).1 else ClaimFenced
  }

  /** A completion event that finishes its command. */
  predicate Finishes(s: State, e: Event) {
    && e.op.OpComplete?
    && e.op.complete.id in s.board.commands
    && !Finished(s.board.commands[e.op.complete.id].status)
    && Finished(Step(s, e).board.commands[e.op.complete.id].status)
  }

  /**
   Once a later epoch has been granted, a completion that carries the earlier one changes nothing
   and is never confirmed.
   */
  lemma OldEpochIsFenced(s: State, events: seq<Event>, i: nat, j: nat, k: nat)
    requires BoardOk(s.board) && i < j < k < |events|
    requires Grants(Before(s, events, i), events[i]) && Grants(Before(s, events, j), events[j])
    requires events[i].op.id == events[j].op.id
    requires events[k].op.OpComplete? && events[k].op.complete.id == events[i].op.id
    requires events[k].op.complete.epoch <= ClaimAnswer(Before(s, events, i), events[i]).epoch
    ensures Step(Before(s, events, k), events[k]) == Before(s, events, k)
    ensures !CompleteAnswer(Before(s, events, k), events[k]).Completed?
  {
    GrantsDoNotOverlap(s, events, i, j);
    Later(s, events, j, k);
  }

  /** A command is finished by at most one completion. */
  lemma OneCompletion(s: State, events: seq<Event>, i: nat, j: nat)
    requires BoardOk(s.board) && i < j < |events|
    requires Finishes(Before(s, events, i), events[i]) && events[j].op.OpComplete?
    requires events[j].op.complete.id == events[i].op.complete.id
    ensures !Finishes(Before(s, events, j), events[j])
  {
    Later(s, events, i, j);
  }

  /** What finishes a command is the holder of its newest epoch, inside the period it was granted. */
  lemma OnlyTheHolderFinishes(s: State, events: seq<Event>, i: nat, j: nat)
    requires BoardOk(s.board) && i < j < |events|
    requires Grants(Before(s, events, i), events[i]) && Finishes(Before(s, events, j), events[j])
    requires events[j].op.complete.id == events[i].op.id
    ensures var g := ClaimAnswer(Before(s, events, i), events[i]);
            var req := events[j].op.complete;
            && g.epoch <= req.epoch
            && (req.epoch == g.epoch ==>
                  req.runtime == events[i].op.runtime && req.token == g.token && events[j].op.dbNow < g.until)
  {
    Later(s, events, i, j);
    GrantShows(Before(s, events, i), events[i]);
  }

  /** Only a grant gives a command a claim. */
  lemma ClaimsComeFromGrants(s: State, e: Event, id: int)
    requires BoardOk(s.board) && id in Step(s, e).board.commands && Step(s, e).board.commands[id].claim.Some?
    ensures var after := Step(s, e).board.commands[id];
            || (id in s.board.commands && after.epoch == s.board.commands[id].epoch
                && after.claim == s.board.commands[id].claim)
            || (Grants(s, e) && e.op.id == id && after.epoch == ClaimAnswer(s, e).epoch
                && after.claim == Some(Claim(e.op.runtime, ClaimAnswer(s, e).token, ClaimAnswer(s, e).until)))
  {
    if e.op.OpClaim? {
      if ClaimAnswer(s, e).Granted? { GrantShows(s, e); }
    } else if id in s.board.commands {
      StepAdvances(s, e);
      EpochsRest(s, e, id);
    }
  }

  lemma EpochsRest(s: State, e: Event, id: int)
    requires BoardOk(s.board) && !e.op.OpClaim? && id in s.board.commands && id in Step(s, e).board.commands
    ensures Step(s, e).board.commands[id].epoch == s.board.commands[id].epoch
  {
    FreshIds(s.board);
  }

  /** Event `i` granted this claim of the command. */
  ghost predicate GrantedAt(events: seq<Event>, i: nat, id: int, epoch: nat, claim: Claim) {
    && i < |events| && Grants(Before(EMPTY, events, i), events[i]) && events[i].op.id == id
    && var g := ClaimAnswer(Before(EMPTY, events, i), events[i]);
       g.epoch == epoch && claim == Claim(events[i].op.runtime, g.token, g.until)
  }

  lemma {:induction false} ClaimOrigin(events: seq<Event>, id: int)
    requires id in Run(EMPTY, events).board.commands && Run(EMPTY, events).board.commands[id].claim.Some?
    ensures var row := Run(EMPTY, events).board.commands[id]; exists i: nat ::
        GrantedAt(events, i, id, row.epoch, row.claim.value)
    decreases |events|
  {
    if events != [] {
      var front, last := events[..|events| - 1], events[|events| - 1];
      RunSplits(EMPTY, events, |front|);
      assert events[|front|..] == [last] && ([last])[1..] == [];
      var before, row := Run(EMPTY, front), Run(EMPTY, events).board.commands[id];
      RunKeeps(EMPTY, front);
      ClaimsComeFromGrants(before, last, id);
      if id in before.board.commands && row.epoch == before.board.commands[id].epoch
          && row.claim == before.board.commands[id].claim {
        ClaimOrigin(front, id);
        var i: nat :| GrantedAt(front, i, id, row.epoch, row.claim.value);
        assert front[..i] == events[..i];
        assert GrantedAt(events, i, id, row.epoch, row.claim.value);
      } else {
        assert GrantedAt(events, |front|, id, row.epoch, row.claim.value);
      }
    }
  }

  /**
   Whatever finishes a command was granted the claim it presents, to the same runtime, and is inside
   the granted period.
   */
  lemma FinishFollowsGrant(events: seq<Event>, j: nat)
    requires j < |events| && Finishes(Before(EMPTY, events, j), events[j])
    ensures exists i: nat, until: int ::
              && i < j && events[j].op.dbNow < until
              && GrantedAt(events, i, events[j].op.complete.id, events[j].op.complete.epoch,
                           Claim(events[j].op.complete.runtime, events[j].op.complete.token, until))
  {
    var req := events[j].op.complete;
    var row := Before(EMPTY, events, j).board.commands[req.id];
    assert Fence(row, req, events[j].op.dbNow);
    ClaimOrigin(events[..j], req.id);
    var i: nat :| GrantedAt(events[..j], i, req.id, row.epoch, row.claim.value);
    assert events[..j][..i] == events[..i];
    assert GrantedAt(events, i, req.id, req.epoch, Claim(req.runtime, req.token, row.claim.value.until));
  }

  /**
   After a command is finished its row never changes, and the same completion sent again changes
   nothing and gets the same answer, as long as its result still passes validation.
   */
  lemma FinishedIsFrozen(s: State, events: seq<Event>, i: nat, j: nat)
    requires BoardOk(s.board) && i < j < |events|
    requires Finishes(Before(s, events, i), events[i])
    ensures var c := events[i].op.complete.id;
            && c in Before(s, events, j).board.commands
            && Before(s, events, j).board.commands[c] == Step(Before(s, events, i), events[i]).board.commands[c]
    ensures events[j].op.OpComplete? && events[j].op.complete == events[i].op.complete ==>
              && Step(Before(s, events, j), events[j]) == Before(s, events, j)
              && CompleteAnswer(Before(s, events, j), events[j])
                 == (if Before(s, events, j).board.commands[events[i].op.complete.id].attention.Some?
                     && !events[j].op.resultOk then InvalidResult
                     else CompleteAnswer(Before(s, events, i), events[i]))
  {
    Later(s, events, i, j);
  }

  /** Acted and dismissed items never change again. */
  lemma SettledItemsAreFrozen(s: State, events: seq<Event>, a: int)
    requires BoardOk(s.board) && a in s.board.items
    requires (s.board.items[a].status == Acted || s.board.items[a].status == Dismissed)
    ensures a in Run(s, events).board.items && Run(s, events).board.items[a] == s.board.items[a]
  {
    RunAdvances(s, events);
  }

  /**
   An accepted response sent again, at any later time, creates nothing and gets back the same command
   and flag, with the state the item has by then.
   */
  lemma ResponseIsMadeOnce(s: State, events: seq<Event>, i: nat, j: nat)
    requires BoardOk(s.board) && i < j < |events|
    requires events[i].op.OpRespond? && events[j].op.OpRespond? && events[j].op.respond == events[i].op.respond
    requires RespondAnswer(Before(s, events, i), events[i]).Responded?
    ensures Step(Before(s, events, j), events[j]) == Before(s, events, j)
    ensures var first, again := RespondAnswer(Before(s, events, i), events[i]),
        RespondAnswer(Before(s, events, j), events[j]);
            && again.ResponseReplay? && again.command == first.command && again.flag == first.flag
            && first.revision <= again.revision
  {
    Later(s, events, i, j);
    var req, b := events[j].op.respond, Before(s, events, j).board;
    assert KeyOk(b, (req.agent, req.key)) && ItemOk(b, req.attention);
  }

  /** The answer to a response event. */
  function RespondAnswer(s: State, e: Event): RespondReply {
    if e.op.OpRespond? then Respond(s, e.op.respond, e.op.dbNow, e.op.dbLater, e.now).1 else ResponseFailed
  }

  /** Completing a command never touches an item that is open. */
  lemma CompleteLeavesOpen(s: State, req: CompleteRequest, resultOk: bool, dbNow: int, now: int, a: int)
    requires BoardOk(s.board) && a in s.board.items && s.board.items[a].status == Open
    ensures Complete(s, req, resultOk, dbNow, now).0.board.items[a] == s.board.items[a]
  {
    assert req.id in s.board.commands ==> CommandOk(s.board, req.id);
  }

  /**
   A prefill item is answered or dismissed only for an agent that has finished onboarding and has an
   active context.
   */
  lemma PrefillWaitsForOnboarding(s: State, e: Event, a: int)
    requires BoardOk(s.board) && a in s.board.items && s.board.items[a].phase == PrefillPhase
    requires s.board.items[a].status == Open
    ensures a in Step(s, e).board.items
    ensures var c := ContextOf(s, s.board.items[a].agent);
            Step(s, e).board.items[a] == s.board.items[a] || (c.onboarded && c.activeRevision > 0)
  {
    match e.op
    case OpComplete(req, resultOk, dbNow) => CompleteLeavesOpen(s, req, resultOk, dbNow, e.now, a);
    case _ => FreshIds(s.board);
  }
}
