/**
 Agent commands and the attention items that own them.

 An owner's response to an open item creates a command and makes the item pending; a runtime
 with a live lease claims the command under an epoch and a derived token, and completes it under
 that fence, which moves the item on. Each function is one transaction. Gateway and database
 clocks are separate inputs, and a transaction that reads the database clock twice takes two
 readings. Runtime leases and the context tables are read but not written by most of them.
 */
module AttentionCommands {
  import opened Common

  /** commandClaimToken: a keyed hash of these four values, collision free by construction. */
  datatype ClaimToken = ClaimToken(agent: int, command: int, runtime: string, epoch: int)

  /** payload_hash: the two kinds of request hash start with different characters and never meet. */
  datatype RequestHash =
    | ResponseHash(attention: int, revision: int, action: string)
    | CreationHash(commandType: string, payload: string)

  datatype CommandStatus = Waiting | Notified | Claimed | Succeeded | Failed

  datatype Claim = Claim(owner: string, token: ClaimToken, until: int)

  datatype Outcome = Outcome(result: string, at: int)

  datatype Command = Command(
    agent: int,
    attention: Option<int>,
    terminal: bool,
    hash: RequestHash,
    required: Option<int>,
    status: CommandStatus,
    key: string,
    epoch: nat,
    claim: Option<Claim>,
    attempts: nat,
    deliveredAt: Option<int>,
    outcome: Option<Outcome>)

  datatype Phase = ActivePhase | PrefillPhase

  datatype ItemStatus = Open | Responding | Acted | Dismissed

  datatype Action = Action(key: string, flag: string)

  datatype ContextRef = ContextRef(operation: string, contextRevision: Option<int>, goalRevision: Option<int>)

  datatype Item = Item(
    agent: int,
    phase: Phase,
    category: string,
    actions: seq<Action>,
    context: ContextRef,
    expiresAt: Option<int>,
    status: ItemStatus,
    response: Option<CommandStatus>,
    selected: Option<string>,
    updatedAt: int,
    revision: int)

  datatype Lease = Lease(applied: Option<int>, until: int)

  /** What the context and onboarding tables say about an agent. */
  datatype AgentContext = AgentContext(
    onboarded: bool,
    revisions: set<int>,
    activeRevision: int,
    activeIntents: nat,
    goalVersion: int)

  datatype Board = Board(
    items: map<int, Item>,
    commands: map<int, Command>,
    byKey: map<(int, string), int>,
    nextItem: int,
    nextCommand: int)

  datatype State = State(board: Board, leases: map<(int, string), Lease>, contexts: map<int, AgentContext>)

  const COMMAND_LEASE: int := 2 * 60 * 1000
  const RUNTIME_LEASE: int := 90 * 1000
  const INTENT_CAPACITY: nat := 10

  predicate Finished(status: CommandStatus) {
    status == Succeeded || status == Failed
  }

  function ContextOf(s: State, agent: int): AgentContext {
    if agent in s.contexts then s.contexts[agent] else AgentContext(false, {}, 0, 0, 0)
  }

  /** `column > now` with a nullable column. */
  predicate After(at: Option<int>, now: int) {
    at.Some? && at.value > now
  }

  // ----------------------------------------------------------------- creating commands

  function InsertCommand(b: Board, row: Command): Board {
    b.(commands := b.commands[b.nextCommand := row], byKey := b.byKey[(row.agent, row.key) := b.nextCommand],
       nextCommand := b.nextCommand + 1)
  }

  function NewCommand(agent: int, attention: Option<int>, hash: RequestHash, required: int, key: string): Command {
    Command(agent, attention, attention.Some?, hash, Some(required), Waiting, key, 0, None, 0, None, None)
  }

  datatype CreateReply = Created(command: int, isNew: bool) | CreateConflict

  /** createAgentCommand for the four command types that carry no attention item. */
  function Create(s: State, agent: int, commandType: string, payload: string, key: string): (State, CreateReply) {
    var hash := CreationHash(commandType, payload);
    if (agent, key) in s.board.byKey && s.board.byKey[(agent, key)] in s.board.commands then
      var prior := s.board.byKey[(agent, key)];
      (s, if s.board.commands[prior].hash == hash then Created(prior, false) else CreateConflict)
    else if ContextOf(s, agent).activeRevision <= 0 then (s, CreateConflict)
    else
      (s.(board := InsertCommand(s.board, NewCommand(agent, None, hash, ContextOf(s, agent).activeRevision, key))),
       Created(s.board.nextCommand, true))
  }

  // ----------------------------------------------------------------- responding to an item

  datatype RespondRequest = RespondRequest(agent: int, attention: int, expected: int, action: string, key: string)

  datatype RespondReply =
    | Responded(command: int, revision: int, status: ItemStatus, flag: string)
    | ResponseReplay(command: int, commandStatus: CommandStatus, revision: int, status: ItemStatus, flag: string)
    | ResponseConflict
    | OnboardingNeeded
    | IntentCapacityReached
    | ContextStale
    | SourceDirectOnly
    | InvalidResponse
    | ResponseFailed

  /** Index `i` is the first action with the key. */
  ghost predicate FirstWithKey(actions: seq<Action>, key: string, i: int) {
    0 <= i < |actions| && actions[i].key == key && forall j | 0 <= j < i :: actions[j].key != key
  }

  /** The action with the given key that the selection loop finds first. */
  function FindAction(actions: seq<Action>, key: string): (r: Option<Action>)
    ensures r.Some? ==> exists i :: FirstWithKey(actions, key, i) && r.value == actions[i]
    ensures r.None? ==> forall a <- actions :: a.key != key
  {
    if actions == [] then None
    else if actions[0].key == key then assert FirstWithKey(actions, key, 0); Some(actions[0])
    else
      var r := FindAction(actions[1..], key);
      assert forall i | FirstWithKey(actions[1..], key, i) :: FirstWithKey(actions, key, i + 1);
      r
  }

  predicate Terminal(action: Action) {
    action.flag != "open_source"
  }

  /** requirePrefillOnboarding, applied to prefill items only. */
  function PrefillRefusal(s: State, item: Item): Option<RespondReply> {
    if item.phase != PrefillPhase then None
    else if !ContextOf(s, item.agent).onboarded then Some(OnboardingNeeded)
    else if ContextOf(s, item.agent).activeRevision <= 0 then Some(ContextStale)
    else None
  }

  /** The context checks of a response; None when they pass. */
  function ContextRefusal(c: AgentContext, item: Item, action: Action): Option<RespondReply> {
    if action.flag == "apply_intent_update" && item.context.operation == "add" && c.activeIntents >= INTENT_CAPACITY
    then Some(IntentCapacityReached)
    else if c.activeRevision <= 0 then Some(ResponseConflict)
    else if Terminal(action) && item.context.contextRevision.Some?
        && item.context.contextRevision.value != c.activeRevision then Some(ContextStale)
    else if Terminal(action) && item.category == "goal_calibration" && item.context.goalRevision.Some?
            && (c.goalVersion == 0 || c.goalVersion != item.context.goalRevision.value) then Some(ContextStale)
    else None
  }

  /** Why a new response is refused; None means it goes through. */
  function RespondRefusal(s: State, req: RespondRequest, dbNow: int, now: int): (r: Option<RespondReply>)
    ensures r.None? ==>
              && req.attention in s.board.items
              && var item := s.board.items[req.attention];
                 && item.agent == req.agent && item.status == Open && item.revision == req.expected
                 && var action := FindAction(item.actions, req.action);
                    action.Some? && Terminal(action.value)
    ensures r.Some? ==> !r.value.Responded? && !r.value.ResponseReplay?
  {
    if req.attention !in s.board.items || s.board.items[req.attention].agent != req.agent then Some(ResponseConflict)
    else
      var item := s.board.items[req.attention];
      if !After(item.expiresAt, dbNow) then Some(ResponseConflict)
      else if item.revision == 0 || item.revision != req.expected || item.status != Open then Some(ResponseConflict)
      else if item.expiresAt.value <= now then Some(ResponseConflict)
      else if PrefillRefusal(s, item).Some? then PrefillRefusal(s, item)
      else
        var action := FindAction(item.actions, req.action);
        if action.None? then Some(ResponseConflict)
        else if !Terminal(action.value) then Some(SourceDirectOnly)
        else ContextRefusal(ContextOf(s, req.agent), item, action.value)
  }

  /** loadAttentionResponseReplay for command `prior`; a failure to load surfaces as an internal error. */
  function ReplayResponse(b: Board, req: RespondRequest, prior: int): RespondReply
    requires prior in b.commands
  {
    if req.attention !in b.items || b.items[req.attention].agent != req.agent || req.expected <= 0 then ResponseFailed
    else
      var item := b.items[req.attention];
      var action := FindAction(item.actions, req.action);
      if action.None? || action.value.flag == "" then ResponseFailed
      else ResponseReplay(prior, b.commands[prior].status, item.revision, item.status, action.value.flag)
  }

  /** The writes of an accepted response: the command row, then the item row. */
  function WriteResponse(b: Board, req: RespondRequest, required: int, now: int): Board
    requires req.attention in b.items
  {
    var hash := ResponseHash(req.attention, req.expected, req.action);
    var item := b.items[req.attention];
    InsertCommand(b, NewCommand(req.agent, Some(req.attention), hash, required, req.key))
    .(items := b.items[req.attention := item.(status := Responding, selected := Some(req.action),
                                              response := Some(Waiting),
                                              updatedAt := now, revision := item.revision + 1)])
  }

  /** respondAttentionItem; `dbNow` and `dbLater` are the two database clock readings. */
  function Respond(s: State, req: RespondRequest, dbNow: int, dbLater: int, now: int): (State, RespondReply) {
    if req.attention <= 0 || req.expected <= 0 then (s, InvalidResponse)
    else if (req.agent, req.key) in s.board.byKey && s.board.byKey[(req.agent, req.key)] in s.board.commands then
      var prior := s.board.byKey[(req.agent, req.key)];
      if s.board.commands[prior].hash != ResponseHash(req.attention, req.expected, req.action)
      then (s, ResponseConflict)
      else (s, ReplayResponse(s.board, req, prior))
    else
      var refusal := RespondRefusal(s, req, dbNow, now);
      if refusal.Some? then (s, refusal.value)
      else if !After(s.board.items[req.attention].expiresAt, dbLater) then (s, ResponseConflict)
      else
        (s.(board := WriteResponse(s.board, req, ContextOf(s, req.agent).activeRevision, now)),
         Responded(s.board.nextCommand, s.board.items[req.attention].revision + 1, Responding,
                   FindAction(s.board.items[req.attention].actions, req.action).value.flag))
  }

  // ----------------------------------------------------------------- claiming

  datatype ClaimReply =
    | Granted(epoch: nat, token: ClaimToken, until: int, isNew: bool)
    | ContextRequired
    | ClaimUnavailable
    | InvalidClaim

  /** The runtime lease is live and its applied context is the one the request names and the command needs. */
  predicate LeaseReady(s: State, agent: int, runtime: string, applied: int, required: Option<int>, dbNow: int) {
    && (agent, runtime) in s.leases
    && s.leases[(agent, runtime)].until > dbNow
    && s.leases[(agent, runtime)].applied == Some(applied)
    && (required.Some? ==> required.value <= applied)
  }

  predicate HeldBy(row: Command, runtime: string, dbNow: int) {
    row.status == Claimed && row.claim.Some? && row.claim.value.owner == runtime && row.claim.value.until > dbNow
  }

  predicate Claimable(row: Command, dbNow: int) {
    row.status == Waiting || row.status == Notified || (row.status == Claimed && row.claim.Some?
                                                        && row.claim.value.until <= dbNow)
  }

  function ClaimedRow(row: Command, id: int, runtime: string, dbNow: int): Command {
    row.(status := Claimed, epoch := row.epoch + 1,
         claim := Some(Claim(runtime, ClaimToken(row.agent, id, runtime, row.epoch + 1), dbNow + COMMAND_LEASE)),
         attempts := row.attempts + 1, deliveredAt := Coalesce(row.deliveredAt, dbNow))
  }

  predicate OwnedBy(b: Board, agent: int, id: int) {
    id in b.commands && b.commands[id].agent == agent
  }

  predicate RuntimeName(runtime: string) {
    0 < |runtime| <= 128
  }

  /** claimAgentCommand */
  function ClaimCommand(s: State, agent: int, id: int, runtime: string, applied: int, dbNow: int): (State, ClaimReply) {
    var required := if OwnedBy(s.board, agent, id) then s.board.commands[id].required else None;
    if !RuntimeName(runtime) || applied < 0 then (s, InvalidClaim)
    else if !LeaseReady(s, agent, runtime, applied, required, dbNow) then (s, ContextRequired)
    else if !OwnedBy(s.board, agent, id) then (s, ClaimUnavailable)
    else
      var row := s.board.commands[id];
      if HeldBy(row, runtime, dbNow) then
        (s, if row.claim.value.token == ClaimToken(agent, id, runtime, row.epoch)
            then Granted(row.epoch, row.claim.value.token, row.claim.value.until, false) else ClaimUnavailable)
      else if !Claimable(row, dbNow) then (s, ClaimUnavailable)
      else
        var next := ClaimedRow(row, id, runtime, dbNow);
        (s.(board := s.board.(commands := s.board.commands[id := next])),
         Granted(next.epoch, next.claim.value.token, next.claim.value.until, true))
  }

  // ----------------------------------------------------------------- completing

  /** `canonical` is the normalised result, used for attention responses only. */
  datatype CompleteRequest = CompleteRequest(
    agent: int,
    id: int,
    runtime: string,
    epoch: int,
    token: ClaimToken,
    success: bool,
    raw: string,
    canonical: string)

  datatype CompleteReply = Completed(success: bool, at: int) | InvalidCompletion | InvalidResult | ClaimFenced

  function StoredResult(row: Command, req: CompleteRequest): string {
    if row.attention.Some? then req.canonical else req.raw
  }

  function FinalStatus(req: CompleteRequest): (r: CommandStatus)
    ensures Finished(r)
  {
    if req.success then Succeeded else Failed
  }

  /** The WHERE clause of the fenced update. */
  predicate Fence(row: Command, req: CompleteRequest, dbNow: int) {
    && row.status == Claimed
    && row.claim.Some?
    && row.claim.value.owner == req.runtime
    && row.epoch == req.epoch
    && row.claim.value.token == req.token
    && row.claim.value.until > dbNow
  }

  /** The item update that follows a completed command. */
  function SettleItem(items: map<int, Item>, row: Command, req: CompleteRequest, now: int): (r: map<int, Item>)
    ensures r.Keys == items.Keys
  {
    if row.attention.None? || row.attention.value !in items || items[row.attention.value].agent != row.agent then items
    else
      var item := items[row.attention.value];
      var settled := item.(response := Some(FinalStatus(req)), updatedAt := now, revision := item.revision + 1);
      if row.terminal then
        if item.status != Responding then items
        else items[row.attention.value := settled.(status := if req.success then Acted else Open)]
      else if item.status != Open then items
      else items[row.attention.value := settled]
  }

  function FinishedRow(row: Command, req: CompleteRequest, now: int): Command {
    row.(status := FinalStatus(req), outcome := Some(Outcome(StoredResult(row, req), now)))
  }

  /** The comparison that lets a repeated completion read back the stored answer. */
  predicate SameCompletion(row: Command, req: CompleteRequest) {
    && row.status == FinalStatus(req)
    && row.outcome.Some? && row.outcome.value.result == StoredResult(row, req)
    && row.claim.Some? && row.claim.value.owner == req.runtime
    && row.epoch == req.epoch
    && row.claim.value.token == req.token
  }

  /** completeAgentCommand; `resultOk` is validation and authorization of an attention result. */
  function Complete(s: State, req: CompleteRequest, resultOk: bool, dbNow: int, now: int): (State, CompleteReply) {
    if req.runtime == "" || req.epoch <= 0 then (s, InvalidCompletion)
    else if !OwnedBy(s.board, req.agent, req.id) then (s, ClaimFenced)
    else
      var row := s.board.commands[req.id];
      if row.attention.Some? && !resultOk then (s, InvalidResult)
      else if Fence(row, req, dbNow) then
        (s.(board := s.board.(commands := s.board.commands[req.id := FinishedRow(row, req, now)],
                              items := SettleItem(s.board.items, row, req, now))),
         Completed(req.success, now))
      else if SameCompletion(row, req) then (s, Completed(req.success, row.outcome.value.at))
      else (s, ClaimFenced)
  }

  // ----------------------------------------------------------------- items and leases

  datatype DismissReply = ItemDismissed(revision: int, replay: bool) | DismissOnboarding | DismissStale | NotOpen

  /** dismissAttentionItem; `expected` is 0 when the request names no revision. */
  function Dismiss(s: State, agent: int, attention: int, expected: nat, dbNow: int, now: int): (State, DismissReply) {
    if attention !in s.board.items || s.board.items[attention].agent != agent then (s, NotOpen)
    else
      var item := s.board.items[attention];
      var refusal := PrefillRefusal(s, item);
      if refusal == Some(OnboardingNeeded) then (s, DismissOnboarding)
      else if refusal.Some? then (s, DismissStale)
      else if item.status == Open && After(item.expiresAt, dbNow) && (expected > 0 ==> item.revision == expected) then
        (s.(board := s.board.(items := s.board.items[attention := item.(status := Dismissed, updatedAt := now,
            revision := item.revision + 1)])),
         ItemDismissed(item.revision + 1, false))
      else if expected > 0 && item.status == Dismissed && item.revision == expected + 1
      then (s, ItemDismissed(item.revision, true))
      else (s, NotOpen)
  }

  /** The part of publish validation that later answers rely on: every action has a flag. */
  predicate FlaggedActions(actions: seq<Action>) {
    forall a <- actions :: a.flag != ""
  }

  /** The item insert of a publication that passed validation: open, at revision 1. */
  function PublishItem(s: State, item: Item): State {
    var b := s.board;
    if !FlaggedActions(item.actions) then s
    else
      var row := item.(status := Open, response := None, selected := None, revision := 1);
      s.(board := b.(items := b.items[b.nextItem := row], nextItem := b.nextItem + 1))
  }

  datatype HeartbeatReply = Renewed(until: int) | InvalidHeartbeat | UnknownRevision

  /** runtimeHeartbeat; the lease row refers to an existing context revision. */
  function Heartbeat(s: State, agent: int, runtime: string, applied: Option<int>, dbNow: int): (State, HeartbeatReply) {
    if !RuntimeName(runtime) || (applied.Some? && applied.value <= 0) then (s, InvalidHeartbeat)
    else if applied.Some? && applied.value !in ContextOf(s, agent).revisions then (s, UnknownRevision)
    else
      (s.(leases := s.leases[(agent, runtime) := Lease(applied, dbNow + RUNTIME_LEASE)]),
       Renewed(dbNow + RUNTIME_LEASE))
  }
}
