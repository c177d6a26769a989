/** When a context write succeeds, what it answers, which rows it changes and which it leaves alone. */
module ContextAnswers {
  import opened Common
  import opened ContextMutation

  // ----------------------------------------------------------------- which rows a write changes

  /** A write of one kind leaves the other tables alone. */
  ghost predicate SameTables(d: Data, e: Data, w: Write) {
    && (!w.PutGoal? ==> e.goals == d.goals && e.nextGoal == d.nextGoal)
    && (w.PutGoal? || w.PutBoundary? ==> e.intents == d.intents)
    && (!w.CreateIntent? ==> e.nextIntent == d.nextIntent)
    && (!w.PutBoundary? ==> e.boundaries == d.boundaries)
  }

  /** Intent `id` of the agent is rewritten, and no other intent. */
  ghost predicate RewritesIntent(d: Data, e: Data, agent: int, id: int, row: Intent) {
    && id in d.intents && d.intents[id].agent == agent && d.intents[id].status != Deleted
    && e.intents.Keys == d.intents.Keys && e.intents[id] == row
    && forall i <- d.intents :: i != id ==> e.intents[i] == d.intents[i]
  }

  /** The rows after a write: the row it names, the goals it retires, and all others as they were. */
  ghost predicate Writes(d: Data, e: Data, agent: int, w: Write) {
    && SameTables(d, e, w)
    && match w
    case PutGoal(text) =>
      && d.nextGoal !in d.goals && e.nextGoal == d.nextGoal + 1
      && e.goals.Keys == d.goals.Keys + {d.nextGoal} && e.goals[d.nextGoal] == Goal(agent, text, true)
      && forall g <- d.goals :: e.goals[g]
          == if d.goals[g].agent == agent then Goal(agent, d.goals[g].text, false) else d.goals[g]
    case CreateIntent(fields) =>
      && d.nextIntent !in d.intents && e.nextIntent == d.nextIntent + 1
      && e.intents.Keys == d.intents.Keys + {d.nextIntent}
      && e.intents[d.nextIntent] == Intent(agent, fields, Active, 1)
      && forall i <- d.intents :: e.intents[i] == d.intents[i]
    case UpdateIntent(id, fields) =>
      id in d.intents
      && RewritesIntent(d, e, agent, id, Intent(agent, fields, d.intents[id].status, d.intents[id].version + 1))
    case DeleteIntent(id) =>
      id in d.intents
      && RewritesIntent(d, e, agent, id, Intent(agent, d.intents[id].fields, Deleted, d.intents[id].version + 1))
    case PutBoundary(boundary) =>
      && agent in e.boundaries && e.boundaries[agent] == boundary
      && e.boundaries.Keys == d.boundaries.Keys + {agent}
      && forall a <- d.boundaries :: a != agent ==> e.boundaries[a] == d.boundaries[a]
  }

  lemma PutGoalWrites(d: Data, agent: int, text: string)
    requires IdsOk(d)
    ensures Writes(d, Apply(d, agent, PutGoal(text)).data, agent, PutGoal(text))
  {
  }

  lemma CreateIntentWrites(d: Data, agent: int, fields: Fields)
    requires IdsOk(d) && Apply(d, agent, CreateIntent(fields)).Changed?
    ensures Writes(d, Apply(d, agent, CreateIntent(fields)).data, agent, CreateIntent(fields))
  {
    InsertedIntent(d, agent, fields);
  }

  lemma InsertedIntent(d: Data, agent: int, fields: Fields)
    requires IdsOk(d)
    ensures Writes(d, d.(intents := d.intents[d.nextIntent := Intent(agent, fields, Active, 1)],
                         nextIntent := d.nextIntent + 1), agent, CreateIntent(fields))
  {
    assert d.nextIntent !in d.intents;
  }

  lemma UpdateIntentWrites(d: Data, agent: int, id: int, fields: Fields)
    requires Apply(d, agent, UpdateIntent(id, fields)).Changed?
    ensures Writes(d, Apply(d, agent, UpdateIntent(id, fields)).data, agent, UpdateIntent(id, fields))
  {
  }

  lemma DeleteIntentWrites(d: Data, agent: int, id: int)
    requires Apply(d, agent, DeleteIntent(id)).Changed?
    ensures Writes(d, Apply(d, agent, DeleteIntent(id)).data, agent, DeleteIntent(id))
  {
  }

  lemma PutBoundaryWrites(d: Data, agent: int, boundary: Boundary)
    ensures Writes(d, Apply(d, agent, PutBoundary(boundary)).data, agent, PutBoundary(boundary))
  {
  }

  /** A write changes the rows it names and no others. */
  lemma ApplyWrites(d: Data, agent: int, w: Write)
    requires IdsOk(d) && Apply(d, agent, w).Changed?
    ensures Writes(d, Apply(d, agent, w).data, agent, w)
  {
    match w
    case PutGoal(text) => PutGoalWrites(d, agent, text);
    case CreateIntent(fields) => CreateIntentWrites(d, agent, fields);
    case UpdateIntent(id, fields) => UpdateIntentWrites(d, agent, id, fields);
    case DeleteIntent(id) => DeleteIntentWrites(d, agent, id);
    case PutBoundary(boundary) => PutBoundaryWrites(d, agent, boundary);
  }

  /** A compiled context holds exactly the agent's active goals and intents, and its boundary or the default. */
  lemma CompiledExactly(d: Data, agent: int)
    ensures var c := Compile(d, agent);
            && (forall g :: g in c.goals <==> g in d.goals && d.goals[g].agent == agent && d.goals[g].active)
            && (forall i :: i in c.intents <==> i in d.intents && d.intents[i].agent == agent
                                                && d.intents[i].status == Active)
            && (forall g <- c.goals :: c.goals[g] == d.goals[g])
            && (forall i <- c.intents :: c.intents[i] == d.intents[i])
            && (agent in d.boundaries ==> c.boundary == d.boundaries[agent])
            && (agent !in d.boundaries ==> c.boundary == Boundary(true, true, true, true))
  {
  }

  // ----------------------------------------------------------------- when a write succeeds

  /** The agent has fewer than ten active intents. */
  ghost predicate Room(d: Data, agent: int) {
    |set i | i in d.intents && d.intents[i].agent == agent && d.intents[i].status == Active| < 10
  }

  lemma RoomIsCounted(d: Data, agent: int)
    ensures Room(d, agent) <==> |LiveIntents(d, agent)| < 10
  {
    var ids := set i | i in d.intents && d.intents[i].agent == agent && d.intents[i].status == Active;
    assert LiveIntents(d, agent).Keys == ids;
  }

  /** The limits on a request that the handlers promise. */
  ghost predicate Acceptable(req: Request) {
    && req.expected >= 1 && 1 <= |req.key| && Bytes(req.key) <= 128
    && match req.write
    case PutGoal(text) => !Blank(text) && |text| <= 2000
    case CreateIntent(fields) => AcceptableFields(fields)
    case UpdateIntent(id, fields) => id >= 1 && AcceptableFields(fields)
    case DeleteIntent(id) => id >= 1
    case PutBoundary(_) => true
  }

  ghost predicate AcceptableFields(fields: Fields) {
    && !Blank(fields.watchFor)
    && |fields.watchFor| <= 1000 && |fields.triggerWhen| <= 1000 && |fields.instruction| <= 2000
    && (fields.policy == "analyze_only" || fields.policy == "draft" || fields.policy == "network_action"
        || fields.policy == "trade_action")
  }

  /** The characters that leave a text blank. */
  lemma SpacesExactly(c: char)
    ensures IsSpace(c) <==>
        c as int in {9, 10, 11, 12, 13, 32, 133, 160, 5760, 8192, 8193, 8194, 8195, 8196, 8197, 8198, 8199, 8200, 8201,
                     8202, 8232, 8233, 8239, 8287, 12288}
  {
  }

  /** The length of a key is that of its characters in UTF-8. */
  lemma {:induction false} BytesExactly(s: string, c: char)
    ensures var n := c as int;
            Bytes(s + [c]) == Bytes(s) + if n <= 127 then 1 else if n <= 2047 then 2 else if n <= 65535 then 3 else 4
  {
    if s != "" {
      assert (s + [c])[1..] == s[1..] + [c];
      BytesExactly(s[1..], c);
    } else {
      assert "" + [c] == [c] && [c][1..] == "";
    }
  }

  /** Receipts of different kinds of write never meet. */
  lemma OperationsDiffer(a: Write, b: Write)
    ensures Operation(a) == Operation(b) <==>
        || (a.PutGoal? && b.PutGoal?) || (a.CreateIntent? && b.CreateIntent?) || (a.UpdateIntent? && b.UpdateIntent?)
        || (a.DeleteIntent? && b.DeleteIntent?) || (a.PutBoundary? && b.PutBoundary?)
  {
    assert Operation(a)[0] == 'n' <==> a.PutGoal?;
    assert Operation(b)[0] == 'n' <==> b.PutGoal?;
    assert Operation(a)[0] == 's' <==> a.PutBoundary?;
    assert Operation(b)[0] == 's' <==> b.PutBoundary?;
    assert Operation(a)[0] == 'i' ==> (Operation(a)[7] == 'c' <==> a.CreateIntent?);
    assert Operation(b)[0] == 'i' ==> (Operation(b)[7] == 'c' <==> b.CreateIntent?);
    assert Operation(a)[0] == 'i' ==> (Operation(a)[7] == 'u' <==> a.UpdateIntent?);
    assert Operation(b)[0] == 'i' ==> (Operation(b)[7] == 'u' <==> b.UpdateIntent?);
  }

  /** The intent a write names can be edited. */
  ghost predicate Found(d: Data, agent: int, w: Write) {
    && (w.UpdateIntent? ==> w.id in d.intents && d.intents[w.id].agent == agent && d.intents[w.id].status != Deleted)
    && (w.DeleteIntent? ==> w.id in d.intents && d.intents[w.id].agent == agent && d.intents[w.id].status != Deleted)
  }

  /** No write with this key yet, and the request names the active revision. */
  ghost predicate Current(s: State, req: Request) {
    && (req.agent, Operation(req.write), req.key) !in s.receipts
    && req.agent in s.heads && s.heads[req.agent].active == Some(req.expected)
  }

  lemma NextRevisionIsFree(s: State, agent: int)
    requires Inv(s) && agent in s.heads
    ensures (agent, s.heads[agent].current + 1) !in s.contexts
  {
    assert (agent, s.heads[agent].current + 1) in s.contexts ==> RevisionOk(s, (agent, s.heads[agent].current + 1));
  }

  /**
   A write is applied exactly when the request is within its limits, names the active revision with an
   unused key, the agent has finished onboarding, and there is room for the intent or it exists.
   */
  lemma MutateAppliesExactly(s: State, req: Request)
    requires Inv(s)
    ensures Mutate(s, req).1.Applied? <==>
        && Acceptable(req) && Current(s, req) && req.agent in s.onboarded
        && (req.write.CreateIntent? ==> Room(s.data, req.agent)) && Found(s.data, req.agent, req.write)
    ensures !Mutate(s, req).1.Applied? ==> Mutate(s, req).0 == s
  {
    RoomIsCounted(s.data, req.agent);
    if req.agent in s.heads { NextRevisionIsFree(s, req.agent); }
  }

  /**
   An applied write takes the next revision, compiled from the rows it leaves; it adds its receipt and
   touches no other agent's head, no stored revision and no onboarding state.
   */
  lemma AppliedLeaves(s: State, req: Request)
    requires Inv(s) && Mutate(s, req).1.Applied?
    ensures var (t, reply) := Mutate(s, req);
            var next := s.heads[req.agent].current + 1;
            && reply == Applied(next) && Writes(s.data, t.data, req.agent, req.write)
            && t == State(t.data, s.heads[req.agent := Head(next, Some(next))],
                          s.contexts[(req.agent, next) := Compile(t.data, req.agent)], s.onboarded,
                          s.receipts[(req.agent, Operation(req.write), req.key) :=
                                       Receipt(req.expected, req.write, next)])
  {
    ApplyWrites(s.data, req.agent, req.write);
  }

  /** Every other answer, in the order of the checks. */
  lemma MutateAnswersExactly(s: State, req: Request)
    requires Inv(s)
    ensures var reply, k := Mutate(s, req).1, (req.agent, Operation(req.write), req.key);
            var used := k in s.receipts;
            var same := used && s.receipts[k].expected == req.expected && s.receipts[k].write == req.write;
            && (reply == InvalidWrite <==> !Acceptable(req))
            && (reply.Replayed? <==> Acceptable(req) && same)
            && (same && Acceptable(req) ==> reply == Replayed(s.receipts[k].revision))
            && (reply == IntentLimitReached <==>
                  Acceptable(req) && Current(s, req) && req.write.CreateIntent? && !Room(s.data, req.agent))
            && (reply == IntentNotFound <==>
                  Acceptable(req) && Current(s, req) && !Found(s.data, req.agent, req.write))
            && (reply == RevisionConflict <==>
                  && Acceptable(req) && !same
                  && (Current(s, req) ==>
                        req.agent !in s.onboarded && Found(s.data, req.agent, req.write)
                        && (req.write.CreateIntent? ==> Room(s.data, req.agent))))
  {
    RoomIsCounted(s.data, req.agent);
    if req.agent in s.heads { NextRevisionIsFree(s, req.agent); }
  }
}
