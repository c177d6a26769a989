/**
 Replay of an agent's activity log over server-sent events, in bounded pages and over any number of
 reconnections (Last-Event-ID, section 9.2 of the HTML Living Standard).

 `log` is the log as it finally stands; every read sees some prefix of it, because events are only
 appended, in sequence order, and none is pruned meanwhile.
 */
module ActivityStream {
  import opened Common

  datatype Event = Event(number: int, body: string)

  const PAGE: nat := 100
  const REPLAY_MAX: nat := 500
  const INITIAL: int := 100

  /** Sequence numbers are positive and rise. */
  ghost predicate Log(log: seq<Event>) {
    forall i {:trigger EventOk(log, i)} | 0 <= i < |log| :: EventOk(log, i)
  }

  ghost predicate EventOk(log: seq<Event>, i: nat)
    requires i < |log|
  {
    log[i].number > 0 && forall j | 0 <= j < i :: log[j].number < log[i].number
  }

  /** How many events have a sequence number up to `cursor`. */
  function Position(log: seq<Event>, cursor: int): (r: nat)
    ensures r <= |log|
  {
    PositionFrom(log, cursor, 0)
  }

  /** The first index from `k` on whose event lies above the cursor. */
  function PositionFrom(log: seq<Event>, cursor: int, k: nat): (r: nat)
    requires k <= |log|
    ensures k <= r <= |log|
    decreases |log| - k
  {
    if k == |log| || log[k].number > cursor then k else PositionFrom(log, cursor, k + 1)
  }

  /** The events from index `k` on with a sequence number above `after`. */
  function Later(events: seq<Event>, after: int, k: nat): seq<Event>
    requires k <= |events|
    decreases |events| - k
  {
    if k == |events| then []
    else (if events[k].number > after then [events[k]] else []) + Later(events, after, k + 1)
  }

  /** loadActivity when the first `seen` events of the log have been committed. */
  function Load(log: seq<Event>, seen: nat, after: int, limit: nat): seq<Event>
    requires seen <= |log|
  {
    var found := Later(log[..seen], after, 0);
    found[..Min(limit, |found|)]
  }

  lemma {:induction false} PositionSplits(log: seq<Event>, cursor: int, k: nat)
    requires Log(log) && k <= |log|
    ensures forall i | k <= i < |log| :: log[i].number <= cursor <==> i < PositionFrom(log, cursor, k)
    decreases |log| - k
  {
    if k < |log| {
      if log[k].number <= cursor {
        PositionSplits(log, cursor, k + 1);
      } else {
        forall i | k <= i < |log| ensures log[i].number > cursor { assert EventOk(log, i); }
      }
    }
  }

  lemma PositionMeaning(log: seq<Event>, cursor: int)
    requires Log(log)
    ensures forall i | 0 <= i < |log| :: log[i].number <= cursor <==> i < Position(log, cursor)
  {
    PositionSplits(log, cursor, 0);
  }

  lemma {:induction false} PositionInPrefix(log: seq<Event>, seen: nat, cursor: int, k: nat)
    requires k <= seen <= |log|
    ensures PositionFrom(log[..seen], cursor, k) == Min(PositionFrom(log, cursor, k), seen)
    decreases seen - k
  {
    if k < seen && log[k].number <= cursor { PositionInPrefix(log, seen, cursor, k + 1); }
  }

  lemma PositionOfEvent(log: seq<Event>, i: nat)
    requires Log(log) && i < |log|
    ensures Position(log, log[i].number) == i + 1
  {
    PositionMeaning(log, log[i].number);
    if i + 1 < |log| { assert EventOk(log, i + 1); }
  }

  lemma {:induction false} LaterIsSuffix(log: seq<Event>, after: int, k: nat)
    requires Log(log) && k <= |log|
    ensures Later(log, after, k) == log[PositionFrom(log, after, k)..]
    decreases |log| - k
  {
    if k < |log| {
      LaterIsSuffix(log, after, k + 1);
      if log[k].number > after {
        if k + 1 < |log| { assert EventOk(log, k + 1); }
        FirstAndRest(log, k);
      }
    }
  }

  lemma FirstAndRest(log: seq<Event>, k: nat)
    requires k < |log|
    ensures [log[k]] + log[k + 1..] == log[k..]
  {
  }

  lemma LogPrefix(log: seq<Event>, seen: nat)
    requires Log(log) && seen <= |log|
    ensures Log(log[..seen])
  {
    forall i | 0 <= i < seen ensures EventOk(log[..seen], i) { assert EventOk(log, i); }
  }

  /** A read returns the committed events right after the cursor, and a short page means there are no more. */
  lemma LoadFollows(log: seq<Event>, seen: nat, cursor: int, limit: nat)
    requires Log(log) && seen <= |log|
    ensures var from, events := Position(log, cursor), Load(log, seen, cursor, limit);
            && |events| <= limit && from + |events| <= |log| && events == log[from..from + |events|]
            && |events| == if from < seen then Min(limit, seen - from) else 0
  {
    LogPrefix(log, seen);
    LaterIsSuffix(log[..seen], cursor, 0);
    PositionInPrefix(log, seen, cursor, 0);
    TakeFrom(log, seen, Position(log[..seen], cursor), limit);
  }

  lemma TakeFrom(log: seq<Event>, seen: nat, p: nat, limit: nat)
    requires p <= seen <= |log|
    ensures var found := log[..seen][p..];
            |found| == seen - p && found[..Min(limit, |found|)] == log[p..Min(p + limit, seen)]
  {
  }

  // ----------------------------------------------------------------- one call of writePending

  datatype Outcome = CaughtUp | WriteFailed | Truncated

  /**
   What happens around one call: how much of the log is committed at each of its page reads and at
   the final read of the head, and how many events can be written before a write fails.
   */
  datatype Call = Call(seen: seq<nat>, budget: nat)

  const PAGES: nat := 5

  /** The events a call may still send from page `page` on. */
  function Room(page: nat): nat
    requires page <= PAGES
  {
    500 - 100 * page
  }

  ghost predicate CallOk(log: seq<Event>, call: Call) {
    |call.seen| == PAGES + 1 && forall k | 0 <= k <= PAGES :: call.seen[k] <= |log|
  }

  ghost predicate CallsOk(log: seq<Event>, calls: seq<Call>) {
    forall i | 0 <= i < |calls| :: CallOk(log, calls[i])
  }

  datatype Sent = Sent(events: seq<Event>, cursor: int, outcome: Outcome)

  /** What has been sent when `rest` follows the given events. */
  function AfterEvents(events: seq<Event>, rest: Sent): Sent {
    rest.(events := events + rest.events)
  }

  lemma AfterBoth(a: seq<Event>, b: seq<Event>, rest: Sent)
    ensures AfterEvents(a, AfterEvents(b, rest)) == AfterEvents(a + b, rest)
  {
    Associative(a, b, rest.events);
  }

  /** The cursor after the given events have been written. */
  function CursorAfter(events: seq<Event>, cursor: int): int {
    if events == [] then cursor else events[|events| - 1].number
  }

  /** latestActivitySeq */
  function Latest(log: seq<Event>, seen: nat): int
    requires seen <= |log|
  {
    if seen == 0 then 0 else log[seen - 1].number
  }

  /** writePending from its page `page` on, with `budget` writes left. */
  ghost function PendingFrom(log: seq<Event>, cursor: int, call: Call, page: nat, budget: nat): Sent
    requires CallOk(log, call) && page <= PAGES
    decreases PAGES - page
  {
    if page == PAGES then Sent([], cursor, if Latest(log, call.seen[PAGES]) > cursor then Truncated else CaughtUp)
    else
      var events := Load(log, call.seen[page], cursor, PAGE);
      if |events| > budget then Sent(events[..budget], CursorAfter(events[..budget], cursor), WriteFailed)
      else if |events| < PAGE then Sent(events, CursorAfter(events, cursor), CaughtUp)
      else
        AfterEvents(events, PendingFrom(log, CursorAfter(events, cursor), call, page + 1, budget - |events|))
  }

  /** What is still to come of a call that has ended, or goes on with page `page`. */
  ghost function Remaining(log: seq<Event>, cursor: int, call: Call, page: nat, budget: nat,
                           done: Option<Outcome>): Sent
    requires CallOk(log, call) && page <= PAGES
  {
    if done.Some? then Sent([], cursor, done.value) else PendingFrom(log, cursor, call, page, budget)
  }

  ghost function Pending(log: seq<Event>, cursor: int, call: Call): Sent
    requires CallOk(log, call)
  {
    PendingFrom(log, cursor, call, 0, call.budget)
  }

  /** The events are those that follow the cursor, and `cursor'` stands right behind them. */
  ghost predicate Follows(log: seq<Event>, cursor: int, events: seq<Event>, cursor': int) {
    && Position(log, cursor) + |events| <= |log|
    && events == log[Position(log, cursor)..Position(log, cursor) + |events|]
    && Position(log, cursor') == Position(log, cursor) + |events|
    && (events == [] ==> cursor' == cursor)
    && (events != [] ==> cursor' > 0)
  }

  lemma PrefixFollows(log: seq<Event>, cursor: int, events: seq<Event>, k: nat)
    requires Log(log) && k <= |events| && RunAfter(log, cursor, events)
    ensures Follows(log, cursor, events[..k], CursorAfter(events[..k], cursor))
  {
    var from := Position(log, cursor);
    JoinSlices(log, from, from + k, from + |events|);
    if k > 0 {
      assert EventOk(log, from + k - 1);
      PositionOfEvent(log, from + k - 1);
    }
  }

  lemma FollowsJoin(log: seq<Event>, a: int, first: seq<Event>, b: int, second: seq<Event>, c: int)
    requires Follows(log, a, first, b) && Follows(log, b, second, c)
    ensures Follows(log, a, first + second, c)
  {
    RangesJoin(log, Position(log, a), first, second);
  }

  lemma RangesJoin(log: seq<Event>, from: nat, first: seq<Event>, second: seq<Event>)
    requires from + |first| + |second| <= |log|
    requires first == log[from..from + |first|] && second == log[from + |first|..from + |first| + |second|]
    ensures first + second == log[from..from + |first + second|]
  {
    JoinSlices(log, from, from + |first|, from + |first| + |second|);
  }

  /** One page, whole or cut after `k` events, follows the cursor. */
  lemma PageFollows(log: seq<Event>, seen: nat, cursor: int, k: nat)
    requires Log(log) && seen <= |log|
    ensures var events := Load(log, seen, cursor, PAGE);
            && |events| <= PAGE && Follows(log, cursor, events, CursorAfter(events, cursor))
            && (k <= |events| ==> Follows(log, cursor, events[..k], CursorAfter(events[..k], cursor)))
  {
    var events := Load(log, seen, cursor, PAGE);
    LoadFollows(log, seen, cursor, PAGE);
    PrefixFollows(log, cursor, events, |events|);
    assert events[..|events|] == events;
    if k <= |events| { PrefixFollows(log, cursor, events, k); }
  }

  /** What has been sent follows the cursor. */
  ghost predicate SentFollows(log: seq<Event>, cursor: int, r: Sent) {
    Follows(log, cursor, r.events, r.cursor)
  }

  /** A call that ends with this page, cut or not, has sent what follows the cursor. */
  lemma LastPage(log: seq<Event>, seen: nat, cursor: int, budget: nat, outcome: Outcome)
    requires Log(log) && seen <= |log|
    ensures var events := Load(log, seen, cursor, PAGE);
            && SentFollows(log, cursor, Sent(events, CursorAfter(events, cursor), outcome))
            && (budget <= |events| ==>
                  SentFollows(log, cursor, Sent(events[..budget], CursorAfter(events[..budget], cursor), outcome)))
  {
    PageFollows(log, seen, cursor, budget);
  }

  /** Whatever is committed at each read and wherever writing fails, a call sends what follows the cursor. */
  lemma {:induction false} PendingFollows(log: seq<Event>, cursor: int, call: Call, page: nat, budget: nat)
    requires Log(log) && CallOk(log, call) && page <= PAGES
    ensures SentFollows(log, cursor, PendingFrom(log, cursor, call, page, budget))
    decreases PAGES - page
  {
    if page < PAGES {
      var events := Load(log, call.seen[page], cursor, PAGE);
      var r := PendingFrom(log, cursor, call, page, budget);
      if |events| <= budget && |events| >= PAGE {
        var next := CursorAfter(events, cursor);
        PageFollows(log, call.seen[page], cursor, 0);
        PendingFollows(log, next, call, page + 1, budget - |events|);
        PageThenRest(log, cursor, events, PendingFrom(log, next, call, page + 1, budget - |events|));
      } else {
        LastPage(log, call.seen[page], cursor, budget, r.outcome);
      }
    }
  }

  /** A call sends at most 500 events. */
  lemma {:induction false} PendingBound(log: seq<Event>, cursor: int, call: Call, page: nat, budget: nat)
    requires CallOk(log, call) && page <= PAGES
    ensures |PendingFrom(log, cursor, call, page, budget).events| <= Room(page)
    decreases PAGES - page
  {
    if page < PAGES {
      var events := Load(log, call.seen[page], cursor, PAGE);
      if PAGE <= |events| <= budget {
        PendingBound(log, CursorAfter(events, cursor), call, page + 1, budget - |events|);
      }
    }
  }

  lemma PageThenRest(log: seq<Event>, cursor: int, events: seq<Event>, rest: Sent)
    requires Follows(log, cursor, events, CursorAfter(events, cursor))
    requires SentFollows(log, CursorAfter(events, cursor), rest)
    ensures SentFollows(log, cursor, AfterEvents(events, rest))
  {
    FollowsJoin(log, cursor, events, CursorAfter(events, cursor), rest.events, rest.cursor);
  }

  /** Everything is committed throughout the call and no write fails. */
  ghost predicate Uncut(log: seq<Event>, call: Call) {
    CallOk(log, call) && call.budget >= REPLAY_MAX && forall k | 0 <= k <= PAGES :: call.seen[k] == |log|
  }

  /** A page read when everything is committed is full, or all that is left. */
  lemma UncutPage(log: seq<Event>, cursor: int)
    requires Log(log)
    ensures var events, left := Load(log, |log|, cursor, PAGE), |log| - Position(log, cursor);
            && |events| == Min(PAGE, left)
            && Position(log, CursorAfter(events, cursor)) == Position(log, cursor) + |events|
            && (events != [] ==> CursorAfter(events, cursor) > 0)
  {
    LoadFollows(log, |log|, cursor, PAGE);
    PageFollows(log, |log|, cursor, 0);
  }

  /** A call behind its last page is truncated exactly when events remain. */
  lemma UncutEnd(log: seq<Event>, cursor: int)
    requires Log(log) && cursor >= 0
    ensures Latest(log, |log|) > cursor <==> Position(log, cursor) < |log|
  {
    PositionMeaning(log, cursor);
  }

  /** An uncut call sends all that is left, up to its bound, and reports truncation exactly when events remain. */
  lemma {:induction false} UncutSendsAll(log: seq<Event>, cursor: int, call: Call, page: nat, budget: nat)
    requires Log(log) && Uncut(log, call) && page <= PAGES && budget >= Room(page) && cursor >= 0
    ensures var r, left := PendingFrom(log, cursor, call, page, budget), |log| - Position(log, cursor);
            && |r.events| == Min(Room(page), left)
            && r.outcome == if left > Room(page) then Truncated else CaughtUp
    decreases PAGES - page
  {
    if page == PAGES {
      UncutEnd(log, cursor);
    } else {
      var events := Load(log, |log|, cursor, PAGE);
      UncutPage(log, cursor);
      if |events| == PAGE { UncutSendsAll(log, CursorAfter(events, cursor), call, page + 1, budget - PAGE); }
    }
  }

  // ----------------------------------------------------------------- the handler

  /** The server side of one connection: its cursor and the events written so far. */
  class Stream {
    var cursor: int
    var sent: seq<Event>

    constructor (after: int)
      ensures cursor == after && sent == []
    {
      cursor, sent := after, [];
    }

    /** The loop over the events of a page; it stops at the write that fails. */
    method WritePage(events: seq<Event>, budget: nat) returns (ok: bool)
      modifies this
      ensures ok == (|events| <= budget)
      ensures var written := events[..Min(|events|, budget)];
              sent == old(sent) + written && cursor == CursorAfter(written, old(cursor))
    {
      for i := 0 to |events|
        invariant i <= budget && sent == old(sent) + events[..i] && cursor == CursorAfter(events[..i], old(cursor))
      {
        if i == budget { return false; }
        sent := sent + [events[i]];
        cursor := events[i].number;
      }
      return true;
    }

    /** Reads and writes one page; `done` is how the call ends, if it does with this page. */
    method NextPage(log: seq<Event>, call: Call, page: nat, budget: nat)
      returns (done: Option<Outcome>, left: nat, ghost written: seq<Event>)
      requires CallOk(log, call) && page < PAGES
      modifies this
      ensures sent == old(sent) + written
      ensures PendingFrom(log, old(cursor), call, page, budget)
              == AfterEvents(written, Remaining(log, cursor, call, page + 1, left, done))
    {
      var events := Load(log, call.seen[page], cursor, PAGE);
      var ok := WritePage(events, budget);
      written := events[..Min(|events|, budget)];
      left := 0;
      if !ok { return Some(WriteFailed), left, written; }
      assert events[..|events|] == events;
      if |events| < PAGE { return Some(CaughtUp), left, written; }
      return None, budget - |events|, written;
    }

    /** The loop over the pages; `done` is None when all five were full and written. */
    method WritePages(log: seq<Event>, call: Call)
      returns (done: Option<Outcome>, ghost left: nat, ghost written: seq<Event>)
      requires CallOk(log, call)
      modifies this
      ensures sent == old(sent) + written
      ensures Pending(log, old(cursor), call) == AfterEvents(written, Remaining(log, cursor, call, PAGES, left, done))
    {
      var budget, page: nat := call.budget, 0;
      done, written := None, [];
      while page < PAGES && done.None?
        invariant page <= PAGES && sent == old(sent) + written
        invariant Pending(log, old(cursor), call) == AfterEvents(written,
                                                                 Remaining(log, cursor, call, page, budget, done))
      {
        ghost var more;
        done, budget, more := NextPage(log, call, page, budget);
        page := page + 1;
        Associative(old(sent), written, more);
        AfterBoth(written, more, Remaining(log, cursor, call, page, budget, done));
        written := written + more;
      }
      left := budget;
    }

    /** writePending */
    method WritePending(log: seq<Event>, call: Call) returns (outcome: Outcome)
      requires CallOk(log, call)
      modifies this
      ensures var r := Pending(log, old(cursor), call);
              sent == old(sent) + r.events && cursor == r.cursor && outcome == r.outcome
    {
      ghost var left, written;
      var done;
      done, left, written := WritePages(log, call);
      assert written + [] == written;
      if done.Some? { return done.value; }
      return if Latest(log, call.seen[PAGES]) > cursor then Truncated else CaughtUp;
    }

    /** The rest of the connection: one call per wake-up or poll, until one fails or truncates. */
    method ServeCalls(log: seq<Event>, calls: seq<Call>)
      requires CallsOk(log, calls)
      modifies this
      ensures sent == old(sent) + Serve(log, old(cursor), calls)
    {
      var i := 0;
      ghost var written: seq<Event> := [];
      while i < |calls|
        invariant 0 <= i <= |calls| && sent == old(sent) + written
        invariant Serve(log, old(cursor), calls) == written + Serve(log, cursor, calls[i..])
      {
        ghost var at := cursor;
        var outcome := WritePending(log, calls[i]);
        ghost var more := Pending(log, at, calls[i]).events;
        ServeFirst(log, at, calls, i);
        Associative(old(sent), written, more);
        Associative(written, more, Serve(log, cursor, calls[i + 1..]));
        written := written + more;
        if outcome != CaughtUp { return; }
        i := i + 1;
      }
    }
  }

  lemma ServeFirst(log: seq<Event>, cursor: int, calls: seq<Call>, i: nat)
    requires i < |calls| && CallsOk(log, calls)
    ensures var r := Pending(log, cursor, calls[i]);
            Serve(log, cursor, calls[i..]) == r.events + if r.outcome == CaughtUp
                then Serve(log, r.cursor, calls[i + 1..]) else []
  {
    assert calls[i..][0] == calls[i] && calls[i..][1..] == calls[i + 1..];
  }

  // ----------------------------------------------------------------- connections

  /** Everything a connection writes: calls follow one another while they catch up. */
  ghost function Serve(log: seq<Event>, cursor: int, calls: seq<Call>): seq<Event>
    requires CallsOk(log, calls)
    decreases |calls|
  {
    if calls == [] then []
    else
      var r := Pending(log, cursor, calls[0]);
      r.events + if r.outcome == CaughtUp then Serve(log, r.cursor, calls[1..]) else []
  }

  /** The events are the run of the log right behind the cursor. */
  ghost predicate RunAfter(log: seq<Event>, cursor: int, events: seq<Event>) {
    && Position(log, cursor) + |events| <= |log|
    && events == log[Position(log, cursor)..Position(log, cursor) + |events|]
  }

  lemma RunAfterBoth(log: seq<Event>, cursor: int, r: Sent, rest: seq<Event>)
    requires Follows(log, cursor, r.events, r.cursor) && RunAfter(log, r.cursor, rest)
    ensures RunAfter(log, cursor, r.events + rest)
  {
    RangesJoin(log, Position(log, cursor), r.events, rest);
  }

  lemma {:induction false} ServeFollows(log: seq<Event>, cursor: int, calls: seq<Call>)
    requires Log(log) && CallsOk(log, calls)
    ensures RunAfter(log, cursor, Serve(log, cursor, calls))
    decreases |calls|
  {
    if calls != [] {
      var r := Pending(log, cursor, calls[0]);
      PendingFollows(log, cursor, calls[0], 0, calls[0].budget);
      if r.outcome == CaughtUp { ServeFollows(log, r.cursor, calls[1..]); }
      RunAfterBoth(log, cursor, r, if r.outcome == CaughtUp then Serve(log, r.cursor, calls[1..]) else []);
    }
  }

  /** The cursor of a client without one: the last hundred events. */
  function InitialCursor(latest: int): int {
    if latest - INITIAL > 0 then latest - INITIAL else 0
  }

  /** The cursor a stream starts from: cursor_reset moves it up to the oldest retained event. */
  function StartCursor(log: seq<Event>, seen: nat, lastId: int): int
    requires seen <= |log|
  {
    var after := if lastId == 0 then InitialCursor(Latest(log, seen)) else lastId;
    var oldest := if seen == 0 then 0 else log[0].number;
    if after > 0 && oldest > 0 && after < oldest - 1 then oldest - 1 else after
  }

  /** A cursor reset skips no retained event. */
  lemma ResetSkipsNothing(log: seq<Event>, seen: nat, after: int)
    requires Log(log) && seen <= |log| && after > 0
    ensures StartCursor(log, seen, after) > 0 && Position(log, StartCursor(log, seen, after)) == Position(log, after)
  {
    if seen > 0 { assert EventOk(log, 0); }
  }

  /**
   A stream without an id starts a hundred numbers back, one with an id there; either is moved up to
   right before the oldest retained event, except a start from the very beginning.
   */
  lemma StartExactly(log: seq<Event>, seen: nat, lastId: int)
    requires Log(log) && seen <= |log| && lastId >= 0
    ensures var start, after := StartCursor(log, seen, lastId),
                if lastId > 0 then lastId else if Latest(log, seen) > 100 then Latest(log, seen) - 100 else 0;
            && (after == 0 || seen == 0 ==> start == after)
            && (after > 0 && seen > 0 ==> start >= after && start >= log[0].number - 1
                                          && (start == after || start == log[0].number - 1))
  {
    if seen > 0 { assert EventOk(log, 0); }
  }

  /** What the client holds: the id it will reconnect with and the events it has received. */
  datatype Client = Client(lastId: int, received: seq<Event>)

  /**
   A connection: the prefix committed when it starts, the calls it makes, whether a cursor_reset
   frame reaches the client, and how many of the events written do before it is cut.
   */
  datatype Connection = Connection(seen: nat, calls: seq<Call>, resetSeen: bool, delivered: nat)

  ghost predicate ConnectionOk(log: seq<Event>, conn: Connection) {
    conn.seen <= |log| && CallsOk(log, conn.calls)
  }

  ghost predicate ConnectionsOk(log: seq<Event>, conns: seq<Connection>) {
    forall i | 0 <= i < |conns| :: ConnectionOk(log, conns[i])
  }

  ghost function Connect(log: seq<Event>, c: Client, conn: Connection): Client
    requires ConnectionOk(log, conn)
  {
    var start := StartCursor(log, conn.seen, c.lastId);
    var written := Serve(log, start, conn.calls);
    var got := written[..Min(conn.delivered, |written|)];
    Client(CursorAfter(got, if conn.resetSeen then start else c.lastId), c.received + got)
  }

  ghost function Reconnect(log: seq<Event>, c: Client, conns: seq<Connection>): Client
    requires ConnectionsOk(log, conns)
    decreases |conns|
  {
    if conns == [] then c else Reconnect(log, Connect(log, c, conns[0]), conns[1..])
  }

  /** `d` has received, after `c`, exactly the events between the two ids. */
  ghost predicate Continues(log: seq<Event>, c: Client, d: Client) {
    && d.lastId > 0 && Position(log, c.lastId) <= Position(log, d.lastId)
    && d.received == c.received + log[Position(log, c.lastId)..Position(log, d.lastId)]
  }

  lemma ConnectContinues(log: seq<Event>, c: Client, conn: Connection)
    requires Log(log) && c.lastId > 0 && ConnectionOk(log, conn)
    ensures var d, written := Connect(log, c, conn), Serve(log, StartCursor(log, conn.seen, c.lastId), conn.calls);
            && Continues(log, c, d)
            && Position(log, d.lastId) == Position(log, c.lastId) + Min(conn.delivered, |written|)
  {
    var start := StartCursor(log, conn.seen, c.lastId);
    var written := Serve(log, start, conn.calls);
    ResetSkipsNothing(log, conn.seen, c.lastId);
    ServeFollows(log, start, conn.calls);
    PrefixFollows(log, start, written, Min(conn.delivered, |written|));
  }

  /**
   Over any number of connections from a positive Last-Event-ID, each of any calls and cut anywhere,
   the client has received exactly the events between where it started and where it is, in order and
   once each.
   */
  lemma {:induction false} ReceivedExactly(log: seq<Event>, c: Client, conns: seq<Connection>)
    requires Log(log) && c.lastId > 0 && ConnectionsOk(log, conns)
    ensures Continues(log, c, Reconnect(log, c, conns))
    decreases |conns|
  {
    if conns != [] {
      var next, d := Connect(log, c, conns[0]), Reconnect(log, c, conns);
      ConnectContinues(log, c, conns[0]);
      ReceivedExactly(log, next, conns[1..]);
      JoinSlices(log, Position(log, c.lastId), Position(log, next.lastId), Position(log, d.lastId));
    }
  }

  /** Everything left is committed when the connection starts its calls, and nothing of it is cut. */
  ghost predicate UncutConnection(log: seq<Event>, c: Client, conn: Connection)
    requires ConnectionOk(log, conn)
  {
    && conn.calls != [] && Uncut(log, conn.calls[0])
    && conn.delivered >= |Serve(log, StartCursor(log, conn.seen, c.lastId), conn.calls)|
  }

  lemma UncutConnectionDelivers(log: seq<Event>, c: Client, conn: Connection)
    requires Log(log) && c.lastId > 0 && ConnectionOk(log, conn) && UncutConnection(log, c, conn)
    ensures Position(log, Connect(log, c, conn).lastId) >= Min(Position(log, c.lastId) + REPLAY_MAX, |log|)
  {
    ResetSkipsNothing(log, conn.seen, c.lastId);
    ConnectContinues(log, c, conn);
    var start := StartCursor(log, conn.seen, c.lastId);
    UncutSendsAll(log, start, conn.calls[0], 0, conn.calls[0].budget);
    ServeFirst(log, start, conn.calls, 0);
    assert conn.calls[0..] == conn.calls;
  }

  /** Each connection of the sequence is uncut when its turn comes. */
  ghost predicate AllUncut(log: seq<Event>, c: Client, conns: seq<Connection>)
    requires ConnectionsOk(log, conns)
    decreases |conns|
  {
    conns == [] || (UncutConnection(log, c, conns[0]) && AllUncut(log, Connect(log, c, conns[0]), conns[1..]))
  }

  /** Receiving the rest after a connection is receiving the rest. */
  lemma ThenTheRest(log: seq<Event>, c: Client, next: Client, received: seq<Event>)
    requires Continues(log, c, next) && received == next.received + log[Position(log, next.lastId)..]
    ensures received == c.received + log[Position(log, c.lastId)..]
  {
    var a, b := Position(log, c.lastId), Position(log, next.lastId);
    JoinSlices(log, a, b, |log|);
    Associative(c.received, log[a..b], log[b..]);
  }

  /**
   Truncated replays lose nothing: once everything is committed, one uncut connection per 500 events
   left delivers all of them.
   */
  lemma {:induction false} CatchesUp(log: seq<Event>, c: Client, conns: seq<Connection>)
    requires Log(log) && c.lastId > 0 && ConnectionsOk(log, conns) && AllUncut(log, c, conns)
    requires |log| - Position(log, c.lastId) <= 500 * |conns|
    ensures Reconnect(log, c, conns).received == c.received + log[Position(log, c.lastId)..]
    decreases |conns|
  {
    if conns != [] {
      var next := Connect(log, c, conns[0]);
      ConnectContinues(log, c, conns[0]);
      UncutConnectionDelivers(log, c, conns[0]);
      CatchesUp(log, next, conns[1..]);
      ThenTheRest(log, c, next, Reconnect(log, next, conns[1..]).received);
    }
  }

  // ----------------------------------------------------------------- the list endpoint

  datatype ListPage = ListPage(events: seq<Event>, next: int, hasMore: bool)

  /** listActivity over a log that has stopped growing, from a cursor that is given. */
  function ListFrom(log: seq<Event>, after: int, limit: nat): ListPage {
    var start := StartCursor(log, |log|, after);
    var events := Load(log, |log|, start, limit);
    ListPage(events, CursorAfter(events, start), |events| == limit)
  }

  lemma ListContinues(log: seq<Event>, after: int, limit: nat)
    requires Log(log) && after > 0 && limit > 0
    ensures var page, from := ListFrom(log, after, limit), Position(log, after);
            && from + |page.events| <= |log| && page.events == log[from..from + |page.events|]
            && page.next > 0 && Position(log, page.next) == from + |page.events|
            && (page.hasMore ==> page.events != [])
            && (!page.hasMore ==> from + |page.events| == |log|)
  {
    ResetSkipsNothing(log, |log|, after);
    var start := StartCursor(log, |log|, after);
    var events := Load(log, |log|, start, limit);
    LoadFollows(log, |log|, start, limit);
    PrefixFollows(log, start, events, |events|);
    assert events[..|events|] == events;
  }

  /** The events a client collects by following next_cursor while has_more is set. */
  ghost function FollowList(log: seq<Event>, after: int, limit: nat): seq<Event>
    requires Log(log) && after > 0 && limit > 0
    decreases |log| - Position(log, after)
  {
    ListContinues(log, after, limit);
    var page := ListFrom(log, after, limit);
    page.events + if page.hasMore then FollowList(log, page.next, limit) else []
  }

  /** Following the list from a positive cursor yields every later event once, in order. */
  lemma {:induction false} FollowListYieldsRest(log: seq<Event>, after: int, limit: nat)
    requires Log(log) && after > 0 && limit > 0
    ensures FollowList(log, after, limit) == log[Position(log, after)..]
    decreases |log| - Position(log, after)
  {
    ListContinues(log, after, limit);
    var page := ListFrom(log, after, limit);
    if page.hasMore {
      FollowListYieldsRest(log, page.next, limit);
      JoinSlices(log, Position(log, after), Position(log, page.next), |log|);
    }
  }
}
