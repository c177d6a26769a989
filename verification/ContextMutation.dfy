/**
 Writes to an agent's control context: an expected revision, an idempotency key, one change of the
 goal, an intent or the boundary, and a newly compiled context revision, all in one transaction.
 */
module ContextMutation {
  import opened Common

  datatype Goal = Goal(agent: int, text: string, active: bool)

  datatype IntentStatus = Active | Paused | Deleted

  datatype Fields = Fields(watchFor: string, triggerWhen: string, instruction: string, policy: string, priority: int)

  datatype Intent = Intent(agent: int, fields: Fields, status: IntentStatus, version: int)

  datatype Boundary = Boundary(recurringPublish: bool, autoReply: bool, autoComment: bool, showAddFriend: bool)

  datatype Data = Data(goals: map<int, Goal>, nextGoal: int, intents: map<int, Intent>, nextIntent: int,
                       boundaries: map<int, Boundary>)

  /** What the compiler puts into a context revision: the active rows of one agent. */
  datatype Compiled = Compiled(goals: map<int, Goal>, intents: map<int, Intent>, boundary: Boundary)

  datatype Head = Head(current: int, active: Option<int>)

  datatype Write =
    | PutGoal(text: string)
    | CreateIntent(fields: Fields)
    | UpdateIntent(id: int, fields: Fields)
    | DeleteIntent(id: int)
    | PutBoundary(boundary: Boundary)

  datatype Request = Request(agent: int, expected: int, key: string, write: Write)

  /** The request hash covers the expected revision and the content. */
  datatype Receipt = Receipt(expected: int, write: Write, revision: int)

  datatype State = State(
    data: Data,
    heads: map<int, Head>,
    contexts: map<(int, int), Compiled>,
    onboarded: set<int>,
    receipts: map<(int, string, string), Receipt>)

  const INTENT_LIMIT: nat := 10
  const GOAL_CHARS: nat := 2000
  const WATCH_CHARS: nat := 1000
  const TRIGGER_CHARS: nat := 1000
  const INSTRUCTION_CHARS: nat := 2000

  function Operation(w: Write): string {
    match w
    case PutGoal(_) => "network_goal_put"
    case CreateIntent(_) => "intent_create"
    case UpdateIntent(_, _) => "intent_update"
    case DeleteIntent(_) => "intent_delete"
    case PutBoundary(_) => "security_boundary_put"
  }

  function LiveGoals(d: Data, agent: int): map<int, Goal> {
    map g | g in d.goals && d.goals[g].agent == agent && d.goals[g].active :: d.goals[g]
  }

  function LiveIntents(d: Data, agent: int): map<int, Intent> {
    map i | i in d.intents && d.intents[i].agent == agent && d.intents[i].status == Active :: d.intents[i]
  }

  function Compile(d: Data, agent: int): Compiled {
    Compiled(LiveGoals(d, agent), LiveIntents(d, agent),
             if agent in d.boundaries then d.boundaries[agent] else Boundary(true, true, true, true))
  }

  // ----------------------------------------------------------------- one write

  datatype Reply =
    | Applied(revision: int)
    | Replayed(revision: int)
    | RevisionConflict
    | IntentNotFound
    | IntentLimitReached
    | InvalidWrite

  datatype Change = Changed(data: Data) | NotChanged(reason: Reply)

  /** Marks the active goals of an agent deleted. */
  function RetireGoals(goals: map<int, Goal>, agent: int): (r: map<int, Goal>)
    ensures r.Keys == goals.Keys
  {
    map g | g in goals :: if goals[g].agent == agent then goals[g].(active := false) else goals[g]
  }

  predicate Editable(d: Data, agent: int, id: int) {
    id in d.intents && d.intents[id].agent == agent && d.intents[id].status != Deleted
  }

  /** The handler's own statements, after the head has been locked. */
  function Apply(d: Data, agent: int, w: Write): Change {
    match w
    case PutGoal(text) =>
      Changed(d.(goals := RetireGoals(d.goals, agent)[d.nextGoal := Goal(agent, text, true)],
                 nextGoal := d.nextGoal + 1))
    case CreateIntent(fields) =>
      if |LiveIntents(d, agent)| >= INTENT_LIMIT then NotChanged(IntentLimitReached)
      else Changed(d.(intents := d.intents[d.nextIntent := Intent(agent, fields, Active, 1)],
                      nextIntent := d.nextIntent + 1))
    case UpdateIntent(id, fields) =>
      if !Editable(d, agent, id) then NotChanged(IntentNotFound)
      else Changed(d.(intents := d.intents[id := d.intents[id].(fields := fields,
                                                                version := d.intents[id].version + 1)]))
    case DeleteIntent(id) =>
      if !Editable(d, agent, id) then NotChanged(IntentNotFound)
      else Changed(d.(intents := d.intents[id := d.intents[id].(status := Deleted,
                                                                version := d.intents[id].version + 1)]))
    case PutBoundary(boundary) => Changed(d.(boundaries := d.boundaries[agent := boundary]))
  }

  /** compileAndActivateContext followed by the onboarding update of activateLatestContext; None rolls back. */
  function Activate(s: State, agent: int): Option<State> {
    if agent !in s.heads || (agent, s.heads[agent].current + 1) in s.contexts || agent !in s.onboarded then None
    else
      var revision := s.heads[agent].current + 1;
      Some(s.(heads := s.heads[agent := Head(revision, Some(revision))],
              contexts := s.contexts[(agent, revision) := Compile(s.data, agent)]))
  }

  /** unicode.IsSpace */
  predicate IsSpace(c: char) {
    || '\t' <= c <= '\r' || c == ' ' || c == '\U{85}' || c == '\U{A0}' || c == '\U{1680}'
    || '\U{2000}' <= c <= '\U{200A}' || c == '\U{2028}' || c == '\U{2029}' || c == '\U{202F}' || c == '\U{205F}'
    || c == '\U{3000}'
  }

  /** strings.TrimSpace leaves nothing. */
  predicate Blank(s: string) {
    forall c <- s :: IsSpace(c)
  }

  /** validateIntent */
  predicate ValidFields(fields: Fields) {
    && !Blank(fields.watchFor) && |fields.watchFor| <= WATCH_CHARS
    && |fields.triggerWhen| <= TRIGGER_CHARS && |fields.instruction| <= INSTRUCTION_CHARS
    && fields.policy in {"analyze_only", "draft", "network_action", "trade_action"}
  }

  predicate ValidWrite(w: Write) {
    match w
    case PutGoal(text) => !Blank(text) && |text| <= GOAL_CHARS
    case CreateIntent(fields) => ValidFields(fields)
    case UpdateIntent(id, fields) => id > 0 && ValidFields(fields)
    case DeleteIntent(id) => id > 0
    case PutBoundary(_) => true
  }

  /** The length of a string in UTF-8. */
  function Bytes(s: string): nat {
    if s == "" then 0
    else Bytes(s[1..]) + if s[0] < '\U{80}' then 1 else if s[0] < '\U{800}' then 2 else if s[0] < '\U{10000}' then 3
    else 4
  }

  predicate ValidRequest(req: Request) {
    req.expected > 0 && req.key != "" && Bytes(req.key) <= 128 && ValidWrite(req.write)
  }

  function ReceiptKey(req: Request): (int, string, string) {
    (req.agent, Operation(req.write), req.key)
  }

  /** contextMutation with the write handlers' checks. */
  function Mutate(s: State, req: Request): (State, Reply) {
    if !ValidRequest(req) then (s, InvalidWrite)
    else if ReceiptKey(req) in s.receipts then
      var prior := s.receipts[ReceiptKey(req)];
      (s, if prior.expected == req.expected && prior.write == req.write then Replayed(prior.revision)
       else RevisionConflict)
    else if req.agent !in s.heads || s.heads[req.agent].active != Some(req.expected) then (s, RevisionConflict)
    else
      match Apply(s.data, req.agent, req.write)
      case NotChanged(reason) => (s, reason)
      case Changed(data) =>
        var next := Activate(s.(data := data), req.agent);
        if next.None? then (s, RevisionConflict)
        else
          var revision := next.value.heads[req.agent].current;
          (next.value.(receipts := s.receipts[ReceiptKey(req) := Receipt(req.expected, req.write, revision)]),
           Applied(revision))
  }

  // ----------------------------------------------------------------- invariant

  ghost predicate IdsOk(d: Data) {
    (forall g <- d.goals :: g < d.nextGoal) && (forall i <- d.intents :: i < d.nextIntent)
  }

  /** Stored revisions never run ahead of the head, and the active one holds the live rows. */
  ghost predicate HeadOk(s: State, agent: int) {
    && agent in s.heads
    && var h := s.heads[agent];
       h.active.Some? ==> && h.active.value <= h.current
                          && (agent, h.active.value) in s.contexts
                          && s.contexts[(agent, h.active.value)] == Compile(s.data, agent)
  }

  ghost predicate RevisionOk(s: State, k: (int, int)) {
    k in s.contexts && k.0 in s.heads && k.1 <= s.heads[k.0].current
  }

  ghost predicate WithinBounds(d: Data, agent: int) {
    |LiveGoals(d, agent)| <= 1 && |LiveIntents(d, agent)| <= INTENT_LIMIT
  }

  ghost predicate Inv(s: State) {
    && IdsOk(s.data)
    && (forall agent {:trigger HeadOk(s, agent)} :: agent in s.heads ==> HeadOk(s, agent))
    && (forall k {:trigger RevisionOk(s, k)} :: k in s.contexts ==> RevisionOk(s, k))
    && (forall agent :: WithinBounds(s.data, agent))
  }

  // ----------------------------------------------------------------- a write keeps to its agent and its bounds

  lemma PutGoalLive(d: Data, agent: int, text: string, other: int)
    requires IdsOk(d)
    ensures LiveGoals(Apply(d, agent, PutGoal(text)).data, other)
            == if other == agent then map[d.nextGoal := Goal(agent, text, true)] else LiveGoals(d, other)
  {
    assert d.nextGoal !in d.goals;
  }

  lemma CreateIntentLive(d: Data, agent: int, fields: Fields, other: int)
    requires IdsOk(d) && Apply(d, agent, CreateIntent(fields)).Changed?
    ensures d.nextIntent !in d.intents
    ensures LiveIntents(Apply(d, agent, CreateIntent(fields)).data, other)
            == if other == agent then LiveIntents(d, other)[d.nextIntent := Intent(agent, fields, Active, 1)]
                else LiveIntents(d, other)
  {
  }

  /** Rewriting an intent without activating it never adds a live one. */
  lemma RewriteIntentLive(d: Data, agent: int, id: int, row: Intent, other: int)
    requires id in d.intents && row.agent == d.intents[id].agent == agent
    requires (row.status == Active ==> d.intents[id].status == Active)
    ensures var live := LiveIntents(d.(intents := d.intents[id := row]), other);
            (other != agent ==> live == LiveIntents(d, other)) && |live| <= |LiveIntents(d, other)|
  {
    var live := LiveIntents(d.(intents := d.intents[id := row]), other);
    if other != agent {
      assert live == LiveIntents(d, other);
    } else {
      SubsetSize(live.Keys, LiveIntents(d, other).Keys);
    }
  }

  lemma ApplyKeeps(d: Data, agent: int, w: Write, other: int)
    requires IdsOk(d) && WithinBounds(d, other) && Apply(d, agent, w).Changed?
    ensures IdsOk(Apply(d, agent, w).data) && WithinBounds(Apply(d, agent, w).data, other)
    ensures other != agent ==> Compile(Apply(d, agent, w).data, other) == Compile(d, other)
  {
    var e := Apply(d, agent, w).data;
    match w
    case PutGoal(text) =>
      PutGoalLive(d, agent, text, other);
      assert LiveIntents(e, other) == LiveIntents(d, other);
    case CreateIntent(fields) =>
      CreateIntentLive(d, agent, fields, other);
      assert LiveGoals(e, other) == LiveGoals(d, other);
    case UpdateIntent(id, fields) =>
      RewriteIntentLive(d, agent, id, e.intents[id], other);
      assert LiveGoals(e, other) == LiveGoals(d, other);
    case DeleteIntent(id) =>
      RewriteIntentLive(d, agent, id, e.intents[id], other);
      assert LiveGoals(e, other) == LiveGoals(d, other);
    case PutBoundary(boundary) =>
      assert LiveGoals(e, other) == LiveGoals(d, other) && LiveIntents(e, other) == LiveIntents(d, other);
  }

  lemma ActivateKeeps(s: State, data: Data, agent: int)
    requires Inv(s) && IdsOk(data) && (forall a :: WithinBounds(data, a))
    requires (forall a | a != agent :: Compile(data, a) == Compile(s.data, a))
    requires Activate(s.(data := data), agent).Some?
    ensures Inv(Activate(s.(data := data), agent).value)
  {
    var t := Activate(s.(data := data), agent).value;
    forall a <- t.heads ensures HeadOk(t, a) {
      if a != agent { assert HeadOk(s, a); }
    }
    forall k <- t.contexts ensures RevisionOk(t, k) {
      if k in s.contexts { assert RevisionOk(s, k); }
    }
  }

  lemma MutateKeeps(s: State, req: Request)
    requires Inv(s)
    ensures Inv(Mutate(s, req).0)
  {
    var (t, reply) := Mutate(s, req);
    if reply.Applied? {
      var data := Apply(s.data, req.agent, req.write).data;
      forall a ensures IdsOk(data) && WithinBounds(data, a)
          && (a != req.agent ==> Compile(data, a) == Compile(s.data, a)) {
        ApplyKeeps(s.data, req.agent, req.write, a);
      }
      ActivateKeeps(s, data, req.agent);
      SameButReceipts(Activate(s.(data := data), req.agent).value, t);
    }
  }

  lemma SameButReceipts(s: State, t: State)
    requires Inv(s) && t == s.(receipts := t.receipts)
    ensures Inv(t)
  {
    forall a <- t.heads ensures HeadOk(t, a) { assert HeadOk(s, a); }
    forall k <- t.contexts ensures RevisionOk(t, k) { assert RevisionOk(s, k); }
  }

  // ----------------------------------------------------------------- runs

  /** A write, or a compilation by another handler that leaves the rows alone. */
  datatype Event = Mutation(req: Request) | Recompile(agent: int)

  function Step(s: State, e: Event): State {
    match e
    case Mutation(req) => Mutate(s, req).0
    case Recompile(agent) => (var next := Activate(s, agent); if next.None? then s else next.value)
  }

  function Run(s: State, events: seq<Event>): State
    decreases |events|
  {
    if events == [] then s else Run(Step(s, events[0]), events[1..])
  }

  lemma StepKeeps(s: State, e: Event)
    requires Inv(s)
    ensures Inv(Step(s, e))
  {
    match e
    case Mutation(req) => MutateKeeps(s, req);
    case Recompile(agent) =>
      if Activate(s, agent).Some? {
        assert s.(data := s.data) == s;
        ActivateKeeps(s, s.data, agent);
      }
  }

  /** What a later state keeps: receipts stay, and an active revision only grows. */
  ghost predicate Advanced(s: State, t: State) {
    && (forall k <- s.receipts :: k in t.receipts && t.receipts[k] == s.receipts[k])
    && (forall a <- s.heads ::
          a in t.heads && (s.heads[a].active.Some? ==>
                             t.heads[a].active.Some? && s.heads[a].active.value <= t.heads[a].active.value))
  }

  lemma StepAdvances(s: State, e: Event)
    requires Inv(s)
    ensures Advanced(s, Step(s, e))
  {
    var agent := if e.Mutation? then e.req.agent else e.agent;
    if agent in s.heads { assert HeadOk(s, agent); }
  }

  lemma {:induction false} RunKeeps(s: State, events: seq<Event>)
    requires Inv(s)
    ensures Inv(Run(s, events)) && Advanced(s, Run(s, events))
    decreases |events|
  {
    if events != [] {
      StepKeeps(s, events[0]);
      StepAdvances(s, events[0]);
      RunKeeps(Step(s, events[0]), events[1..]);
    }
  }

  /** Whatever is written, the active context of an agent is its live rows, with at most ten intents and one goal. */
  lemma ActiveContextIsLive(s: State, events: seq<Event>, agent: int)
    requires Inv(s)
    ensures var t := Run(s, events);
            && WithinBounds(t.data, agent)
            && (agent in t.heads && t.heads[agent].active.Some? ==>
                  (agent, t.heads[agent].active.value) in t.contexts
                      && t.contexts[(agent, t.heads[agent].active.value)] == Compile(t.data, agent))
  {
    RunKeeps(s, events);
    var t := Run(s, events);
    if agent in t.heads { assert HeadOk(t, agent); }
  }

  /** Once a key has been applied it never changes anything again; repeating the request returns the first revision. */
  lemma KeyAppliesOnce(s: State, req: Request, events: seq<Event>, again: Request)
    requires Inv(s) && Mutate(s, req).1.Applied? && ReceiptKey(again) == ReceiptKey(req)
    ensures var t := Run(Mutate(s, req).0, events);
            && Mutate(t, again).0 == t
            && (again == req ==> Mutate(t, again).1 == Replayed(Mutate(s, req).1.revision))
            && !Mutate(t, again).1.Applied?
  {
    MutateKeeps(s, req);
    RunKeeps(Mutate(s, req).0, events);
  }

  /** Two writes on one expected revision of an agent never both succeed. */
  lemma ExpectedRevisionIsUsedOnce(s: State, req: Request, events: seq<Event>, second: Request)
    requires Inv(s) && Mutate(s, req).1.Applied?
    requires second.agent == req.agent && second.expected == req.expected
    ensures !Mutate(Run(Mutate(s, req).0, events), second).1.Applied?
  {
    assert HeadOk(s, req.agent);
    MutateKeeps(s, req);
    RunKeeps(Mutate(s, req).0, events);
  }

  /** What a write changes in the agent's live rows. */
  ghost predicate ShowsWrite(d: Data, agent: int, w: Write, c: Compiled) {
    && (!w.PutBoundary? ==> c.boundary == Compile(d, agent).boundary)
    && match w
    case PutGoal(text) => c.goals == map[d.nextGoal := Goal(agent, text, true)] && c.intents == LiveIntents(d, agent)
    case CreateIntent(fields) =>
      d.nextIntent !in LiveIntents(d, agent) && c.goals == LiveGoals(d, agent)
      && c.intents == LiveIntents(d, agent)[d.nextIntent := Intent(agent, fields, Active, 1)]
    case UpdateIntent(id, fields) =>
      c.goals == LiveGoals(d, agent) && c.intents.Keys == LiveIntents(d, agent).Keys
      && (id in c.intents ==>
            c.intents[id] == LiveIntents(d, agent)[id].(fields := fields,
                                                        version := LiveIntents(d, agent)[id].version + 1))
      && forall i <- c.intents | i != id :: c.intents[i] == LiveIntents(d, agent)[i]
    case DeleteIntent(id) => c.goals == LiveGoals(d, agent) && c.intents == LiveIntents(d, agent) - {id}
    case PutBoundary(boundary) =>
      c.goals == LiveGoals(d, agent) && c.intents == LiveIntents(d, agent) && c.boundary == boundary
  }

  lemma PutGoalShows(d: Data, agent: int, text: string)
    requires IdsOk(d)
    ensures ShowsWrite(d, agent, PutGoal(text), Compile(Apply(d, agent, PutGoal(text)).data, agent))
  {
    PutGoalLive(d, agent, text, agent);
    assert LiveIntents(Apply(d, agent, PutGoal(text)).data, agent) == LiveIntents(d, agent);
  }

  lemma CreateIntentShows(d: Data, agent: int, fields: Fields)
    requires IdsOk(d) && Apply(d, agent, CreateIntent(fields)).Changed?
    ensures ShowsWrite(d, agent, CreateIntent(fields), Compile(Apply(d, agent, CreateIntent(fields)).data, agent))
  {
    CreateIntentLive(d, agent, fields, agent);
    assert LiveGoals(Apply(d, agent, CreateIntent(fields)).data, agent) == LiveGoals(d, agent);
  }

  lemma UpdateIntentShows(d: Data, agent: int, id: int, fields: Fields)
    requires Apply(d, agent, UpdateIntent(id, fields)).Changed?
    ensures ShowsWrite(d, agent, UpdateIntent(id, fields), Compile(Apply(d, agent, UpdateIntent(id, fields)).data,
                                                                   agent))
  {
    assert LiveGoals(Apply(d, agent, UpdateIntent(id, fields)).data, agent) == LiveGoals(d, agent);
  }

  lemma DeleteIntentShows(d: Data, agent: int, id: int)
    requires Apply(d, agent, DeleteIntent(id)).Changed?
    ensures ShowsWrite(d, agent, DeleteIntent(id), Compile(Apply(d, agent, DeleteIntent(id)).data, agent))
  {
    var e := Apply(d, agent, DeleteIntent(id)).data;
    assert LiveGoals(e, agent) == LiveGoals(d, agent);
    assert LiveIntents(e, agent) == LiveIntents(d, agent) - {id};
  }

  lemma ApplyShows(d: Data, agent: int, w: Write)
    requires IdsOk(d) && Apply(d, agent, w).Changed?
    ensures ShowsWrite(d, agent, w, Compile(Apply(d, agent, w).data, agent))
  {
    match w
    case PutGoal(text) => PutGoalShows(d, agent, text);
    case CreateIntent(fields) => CreateIntentShows(d, agent, fields);
    case UpdateIntent(id, fields) => UpdateIntentShows(d, agent, id, fields);
    case DeleteIntent(id) => DeleteIntentShows(d, agent, id);
    case PutBoundary(boundary) =>
      var e := Apply(d, agent, w).data;
      assert LiveGoals(e, agent) == LiveGoals(d, agent) && LiveIntents(e, agent) == LiveIntents(d, agent);
  }

  /**
   An applied write is what the agent reads next: a new revision that shows the change, and every
   older one as it was.
   */
  lemma AppliedIsVisible(s: State, req: Request)
    requires Inv(s) && Mutate(s, req).1.Applied?
    ensures var (t, reply) := Mutate(s, req);
            && reply.revision > req.expected && t.heads[req.agent] == Head(reply.revision, Some(reply.revision))
            && (req.agent, reply.revision) !in s.contexts
            && t.contexts.Keys == s.contexts.Keys + {(req.agent, reply.revision)}
            && ShowsWrite(s.data, req.agent, req.write, t.contexts[(req.agent, reply.revision)])
            && (forall k <- s.contexts :: t.contexts[k] == s.contexts[k])
  {
    assert HeadOk(s, req.agent);
    ApplyShows(s.data, req.agent, req.write);
  }

  const EMPTY: State := State(Data(map[], 1, map[], 1, map[]), map[], map[], {}, map[])

  lemma EmptyIsValid()
    ensures Inv(EMPTY)
  {
    forall agent ensures WithinBounds(EMPTY.data, agent) {
      assert LiveGoals(EMPTY.data, agent) == map[] && LiveIntents(EMPTY.data, agent) == map[];
    }
  }

  // ----------------------------------------------------------------- the tables

  class ContextTables {
    var data: Data
    var heads: map<int, Head>
    var contexts: map<(int, int), Compiled>
    var onboarded: set<int>
    var receipts: map<(int, string, string), Receipt>

    ghost function Snapshot(): State
      reads this
    {
      State(data, heads, contexts, onboarded, receipts)
    }

    ghost predicate Valid()
      reads this
    {
      Inv(Snapshot())
    }

    constructor ()
      ensures Valid() && Snapshot() == EMPTY
    {
      data, heads, contexts := Data(map[], 1, map[], 1, map[]), map[], map[];
      onboarded, receipts := {}, map[];
      new;
      EmptyIsValid();
    }

    /** The statements of the write handler; the tables are only changed when it succeeds. */
    method RunHandler(agent: int, w: Write) returns (failure: Option<Reply>)
      modifies this`data
      ensures match Apply(old(data), agent, w)
              case Changed(d) => failure.None? && data == d
              case NotChanged(reason) => failure == Some(reason) && data == old(data)
    {
      match w {
        case PutGoal(text) =>
          data := data.(goals := RetireGoals(data.goals, agent));
          data := data.(goals := data.goals[data.nextGoal := Goal(agent, text, true)], nextGoal := data.nextGoal + 1);
        case CreateIntent(fields) =>
          var count := |LiveIntents(data, agent)|;
          if count >= 10 { return Some(IntentLimitReached); }
          data := data.(intents := data.intents[data.nextIntent := Intent(agent, fields, Active, 1)],
                        nextIntent := data.nextIntent + 1);
        case UpdateIntent(id, fields) =>
          if !Editable(data, agent, id) { return Some(IntentNotFound); }
          var row := data.intents[id];
          data := data.(intents := data.intents[id := row.(fields := fields, version := row.version + 1)]);
        case DeleteIntent(id) =>
          if !Editable(data, agent, id) { return Some(IntentNotFound); }
          var row := data.intents[id];
          data := data.(intents := data.intents[id := row.(status := Deleted, version := row.version + 1)]);
        case PutBoundary(boundary) =>
          data := data.(boundaries := data.boundaries[agent := boundary]);
      }
      return None;
    }

    method ActivateLatestContext(agent: int) returns (revision: Option<int>)
      modifies this`heads, this`contexts
      ensures match Activate(old(Snapshot()), agent)
              case Some(t) => agent in t.heads && revision == Some(t.heads[agent].current) && Snapshot() == t
              case None => revision.None? && Snapshot() == old(Snapshot())
    {
      if agent !in heads { return None; }
      var next := heads[agent].current + 1;
      if (agent, next) in contexts || agent !in onboarded { return None; }
      contexts := contexts[(agent, next) := Compile(data, agent)];
      heads := heads[agent := Head(next, Some(next))];
      return Some(next);
    }

    method ContextMutation(req: Request) returns (reply: Reply)
      requires Valid()
      modifies this
      ensures Valid() && (Snapshot(), reply) == Mutate(old(Snapshot()), req)
    {
      MutateKeeps(Snapshot(), req);
      if req.expected <= 0 || req.key == "" || Bytes(req.key) > 128 || !ValidWrite(req.write) { return InvalidWrite; }
      var k := (req.agent, Operation(req.write), req.key);
      if k in receipts {
        var prior := receipts[k];
        if prior.expected != req.expected || prior.write != req.write { return RevisionConflict; }
        return Replayed(prior.revision);
      }
      if req.agent !in heads || heads[req.agent].active != Some(req.expected) { return RevisionConflict; }
      var saved := data;
      var failure := RunHandler(req.agent, req.write);
      if failure.Some? { return failure.value; }
      var revision := ActivateLatestContext(req.agent);
      if revision.None? {
        data := saved;
        return RevisionConflict;
      }
      receipts := receipts[k := Receipt(req.expected, req.write, revision.value)];
      return Applied(revision.value);
    }
  }
}
