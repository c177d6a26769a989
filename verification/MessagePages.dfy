/**
 Pages of a conversation: keyset cursors, an optional window around an anchor, and trimming until
 the reply fits its size budget.

 A conversation is the sequence of its message ids, newest first. `fits` decides whether a reply
 is small enough; nothing is assumed of it unless a lemma says so.
 */
module MessagePages {
  import opened Common

  /** `cursor` 0 stands for the empty next_cursor. */
  datatype Reply = Reply(messages: seq<int>, cursor: int, hasMore: bool)

  /** Message ids are positive and strictly descending. */
  ghost predicate Conversation(all: seq<int>) {
    forall i {:trigger MessageOk(all, i)} | 0 <= i < |all| :: MessageOk(all, i)
  }

  ghost predicate MessageOk(all: seq<int>, i: nat)
    requires i < |all|
  {
    all[i] > 0 && forall j | 0 <= j < i :: all[j] > all[i]
  }

  lemma ConversationTail(all: seq<int>)
    requires Conversation(all) && all != []
    ensures Conversation(all[1..])
  {
    forall i | 0 <= i < |all| - 1 ensures MessageOk(all[1..], i) { assert MessageOk(all, i + 1); }
  }

  // ----------------------------------------------------------------- the queries

  /** The index of the first message with an id below `bound`. */
  function FirstBelow(all: seq<int>, bound: int): (r: nat)
    ensures r <= |all|
  {
    if all == [] || all[0] < bound then 0 else 1 + FirstBelow(all[1..], bound)
  }

  /** msg_id < cursor ORDER BY msg_id DESC LIMIT count; no cursor reads from the newest. */
  function Start(all: seq<int>, cursor: int): (r: nat)
    ensures r <= |all|
  {
    if cursor == 0 then 0 else FirstBelow(all, cursor)
  }

  lemma {:induction false} FirstBelowMeaning(all: seq<int>, bound: int)
    requires Conversation(all)
    ensures var n := FirstBelow(all, bound);
            (forall i | 0 <= i < n :: all[i] >= bound) && (forall i | n <= i < |all| :: all[i] < bound)
  {
    if all != [] && all[0] < bound {
      forall i | 0 <= i < |all| ensures all[i] < bound { assert MessageOk(all, i); }
    } else if all != [] {
      ConversationTail(all);
      FirstBelowMeaning(all[1..], bound);
      var n := FirstBelow(all, bound);
      forall i | 0 <= i < n ensures all[i] >= bound { assert i > 0 ==> all[i] == all[1..][i - 1]; }
      forall i | n <= i < |all| ensures all[i] < bound { assert all[i] == all[1..][i - 1]; }
    }
  }

  lemma {:induction false} FirstBelowIs(all: seq<int>, bound: int, n: nat)
    requires n <= |all| && (forall i | 0 <= i < n :: all[i] >= bound) && (n < |all| ==> all[n] < bound)
    ensures FirstBelow(all, bound) == n
  {
    if n > 0 { FirstBelowIs(all[1..], bound, n - 1); }
  }

  // ----------------------------------------------------------------- trimming

  function Window(all: seq<int>, from: nat, to: nat): Reply
    requires from <= to <= |all|
  {
    var more := to < |all|;
    Reply(all[from..to], if more && from < to then all[to - 1] else 0, more)
  }

  /** The index of the anchor in the window, or -1. */
  function AnchorIndex(all: seq<int>, from: nat, to: nat, anchored: bool, anchor: int): (r: int)
    requires from <= to <= |all|
    ensures r == -1 || 0 <= r < to - from
  {
    var a := FirstBelow(all, anchor + 1);
    if anchored && from <= a < to && all[a] == anchor then a - from else -1
  }

  /** The trimming loop on the bounds of the window. */
  function Trim(all: seq<int>, from: nat, to: nat, anchored: bool, anchor: int, fits: Reply -> bool): (r: (nat, nat))
    requires from <= to <= |all|
    ensures from <= r.0 <= r.1 <= to
    decreases |all| - from, to
  {
    if to - from <= 1 || fits(Window(all, from, to)) then (from, to)
    else
      var index := AnchorIndex(all, from, to, anchored, anchor);
      if index > 0 && index >= to - from - 1 - index then Trim(all, from + 1, to, anchored, anchor, fits)
      else Trim(all, from, to - 1, anchored, anchor, fits)
  }

  /** The window around index `a`: half of the limit from there on, the rest before it. */
  function Around(a: nat, limit: nat, size: nat): (r: (nat, nat))
    requires a <= size
    ensures r.0 <= a <= r.1 <= size
  {
    var older := (limit + 1) / 2;
    (if a < limit - older then 0 else a - (limit - older), Min(a + older, size))
  }

  /** The window before trimming. */
  function FirstWindow(all: seq<int>, limit: nat, cursor: int, anchor: int): (r: (nat, nat))
    requires limit >= 1
    ensures r.0 <= r.1 <= |all|
  {
    if anchor > 0 && cursor == 0 then Around(FirstBelow(all, anchor + 1), limit, |all|)
    else
      var from := Start(all, cursor);
      (from, Min(from + limit, |all|))
  }

  /** listCommunicationMessages; None when a single message does not fit. */
  function Page(all: seq<int>, limit: nat, cursor: int, anchor: int, fits: Reply -> bool): Option<Reply>
    requires limit >= 1
  {
    var (from, to) := FirstWindow(all, limit, cursor, anchor);
    var (f, t) := Trim(all, from, to, anchor > 0 && cursor == 0, anchor, fits);
    if fits(Window(all, f, t)) then Some(Window(all, f, t)) else None
  }

  // ----------------------------------------------------------------- the handler

  /** What the handler uses of the order of a conversation: where an anchor splits it. */
  ghost predicate SplitAt(all: seq<int>, anchor: int, a: nat) {
    a <= |all| && forall i {:trigger SideOk(all, anchor, a, i)} | 0 <= i < |all| :: SideOk(all, anchor, a, i)
  }

  ghost predicate SideOk(all: seq<int>, anchor: int, a: nat, i: nat)
    requires i < |all|
  {
    (all[i] <= anchor <==> a <= i) && (all[i] == anchor ==> i == a)
  }

  lemma AnchorSplits(all: seq<int>, anchor: int)
    requires Conversation(all)
    ensures SplitAt(all, anchor, FirstBelow(all, anchor + 1))
  {
    FirstBelowMeaning(all, anchor + 1);
    var a := FirstBelow(all, anchor + 1);
    forall i | 0 <= i < |all| ensures SideOk(all, anchor, a, i) {
      if all[i] == anchor { AnchorPosition(all, anchor, i); }
    }
  }

  /** The loop that looks for the anchor in the messages of the window. */
  method FindAnchor(ghost all: seq<int>, messages: seq<int>, ghost from: nat, ghost to: nat, anchored: bool,
                    anchor: int)
    returns (index: int)
    requires SplitAt(all, anchor, FirstBelow(all, anchor + 1)) && from <= to <= |all| && messages == all[from..to]
    ensures index == AnchorIndex(all, from, to, anchored, anchor)
  {
    index := -1;
    if anchored {
      var i := 0;
      while i < |messages|
        invariant 0 <= i <= |messages| && index == -1
        invariant forall j | 0 <= j < i :: messages[j] != anchor
      {
        if messages[i] == anchor {
          index := i;
          assert SideOk(all, anchor, FirstBelow(all, anchor + 1), from + i);
          break;
        }
        i := i + 1;
      }
    }
  }

  method ListMessages(all: seq<int>, limit: nat, cursor: int, anchor: int, fits: Reply -> bool)
    returns (reply: Option<Reply>)
    requires Conversation(all) && limit >= 1
    ensures reply == Page(all, limit, cursor, anchor, fits)
  {
    var anchored := anchor > 0 && cursor == 0;
    AnchorSplits(all, anchor);
    var messages, hasMore := ReadWindow(all, limit, cursor, anchor);
    ghost var (from, to) := FirstWindow(all, limit, cursor, anchor);
    var first := Reply(messages, if hasMore && |messages| > 0 then messages[|messages| - 1] else 0, hasMore);
    var page := TrimToFit(all, first, from, to, anchored, anchor, fits);
    if !fits(page) { return None; }
    return Some(page);
  }

  /** One round of the loop: drop a message at an edge of the window. */
  method TrimOnce(ghost all: seq<int>, page: Reply, ghost from: nat, ghost to: nat, anchored: bool, anchor: int,
                  ghost fits: Reply -> bool)
    returns (smaller: Reply, ghost f: nat, ghost t: nat)
    requires SplitAt(all, anchor, FirstBelow(all, anchor + 1)) && from + 1 < to <= |all|
    requires page == Window(all, from, to) && !fits(page)
    ensures f <= t <= |all| && t - f == to - from - 1 && smaller == Window(all, f, t)
    ensures Trim(all, from, to, anchored, anchor, fits) == Trim(all, f, t, anchored, anchor, fits)
  {
    var messages, nextCursor, hasMore := page.messages, page.cursor, page.hasMore;
    var index := FindAnchor(all, messages, from, to, anchored, anchor);
    f, t := from, to;
    if index > 0 && index >= |messages| - 1 - index {
      messages := messages[1..];
      f := from + 1;
    } else {
      messages := messages[..|messages| - 1];
      hasMore := true;
      t := to - 1;
    }
    assert messages == all[f..t];
    if hasMore { nextCursor := messages[|messages| - 1]; }
    smaller := Reply(messages, nextCursor, hasMore);
  }

  /** Drops messages at the edges of the window until the reply fits or one message is left. */
  method TrimToFit(ghost all: seq<int>, first: Reply, ghost f: nat, ghost t: nat, anchored: bool, anchor: int,
                   fits: Reply -> bool)
    returns (page: Reply)
    requires SplitAt(all, anchor, FirstBelow(all, anchor + 1)) && f <= t <= |all| && first == Window(all, f, t)
    ensures var (from, to) := Trim(all, f, t, anchored, anchor, fits); page == Window(all, from, to)
  {
    page := first;
    ghost var from: nat, to: nat := f, t;
    while |page.messages| > 1 && !fits(page)
      invariant from <= to <= |all| && page == Window(all, from, to)
      invariant Trim(all, from, to, anchored, anchor, fits) == Trim(all, f, t, anchored, anchor, fits)
      decreases |page.messages|
    {
      page, from, to := TrimOnce(all, page, from, to, anchored, anchor, fits);
    }
  }

  /** The query, and the message beyond the window that tells whether there are more. */
  method ReadWindow(all: seq<int>, limit: nat, cursor: int, anchor: int) returns (messages: seq<int>, hasMore: bool)
    requires SplitAt(all, anchor, FirstBelow(all, anchor + 1)) && limit >= 1
    ensures var (from, to) := FirstWindow(all, limit, cursor, anchor);
            messages == all[from..to] && hasMore == (to < |all|)
  {
    if anchor > 0 && cursor == 0 {
      messages, hasMore := ReadAround(all, limit, anchor, FirstBelow(all, anchor + 1));
    } else {
      var from := Start(all, cursor);
      messages := all[from..Min(from + limit + 1, |all|)];
      hasMore := |messages| > limit;
      if hasMore { messages := messages[..limit]; }
    }
  }

  /** The union query around an anchor, whose older half starts at index `a`. */
  method ReadAround(all: seq<int>, limit: nat, anchor: int, a: nat) returns (messages: seq<int>, hasMore: bool)
    requires SplitAt(all, anchor, a) && limit >= 1
    ensures var (from, to) := Around(a, limit, |all|); messages == all[from..to] && hasMore == (to < |all|)
  {
    var olderLimit := (limit + 1) / 2;
    var newerLimit := limit - olderLimit;
    var from := if a < newerLimit then 0 else a - newerLimit;
    var to := Min(a + olderLimit + 1, |all|);
    messages := all[from..a] + all[a..to];
    JoinSlices(all, from, a, to);
    var olderCount := CountOlder(all, messages, anchor, from, a, to);
    hasMore := olderCount > olderLimit;
    messages := DropExtra(all, messages, from, to, hasMore);
  }

  /** Drops the message that was only read to see whether there are more. */
  method DropExtra(ghost all: seq<int>, messages: seq<int>, ghost from: nat, ghost to: nat, extra: bool)
    returns (r: seq<int>)
    requires from <= to <= |all| && messages == all[from..to] && (extra ==> from < to)
    ensures r == if extra then all[from..to - 1] else messages
  {
    r := messages;
    if extra { r := messages[..|messages| - 1]; }
  }

  /** The loop that counts the messages up to the anchor. */
  method CountOlder(ghost all: seq<int>, messages: seq<int>, anchor: int, ghost from: nat, ghost a: nat, ghost to: nat)
    returns (count: nat)
    requires SplitAt(all, anchor, a) && from <= a <= to <= |all| && messages == all[from..to]
    ensures count == to - a
  {
    count := 0;
    for i := 0 to |messages|
      invariant count == if i < a - from then 0 else i - (a - from)
    {
      assert SideOk(all, anchor, a, from + i);
      if messages[i] <= anchor { count := count + 1; }
    }
  }

  // ----------------------------------------------------------------- following the cursors

  ghost predicate AcceptsSingles(fits: Reply -> bool) {
    forall r: Reply :: |r.messages| == 1 ==> fits(r)
  }

  lemma {:induction false} TrimKeepsStart(all: seq<int>, from: nat, to: nat, anchor: int, fits: Reply -> bool)
    requires from <= to <= |all|
    ensures Trim(all, from, to, false, anchor, fits).0 == from
    ensures from < to ==> from < Trim(all, from, to, false, anchor, fits).1
    decreases |all| - from, to
  {
    if to - from > 1 && !fits(Window(all, from, to)) { TrimKeepsStart(all, from, to - 1, anchor, fits); }
  }

  lemma {:induction false} TrimFits(all: seq<int>, from: nat, to: nat, anchored: bool, anchor: int, fits: Reply -> bool)
    requires from < to <= |all| && AcceptsSingles(fits)
    ensures (var (f, t) := Trim(all, from, to, anchored, anchor, fits); f < t && fits(Window(all, f, t)))
    decreases |all| - from, to
  {
    if to - from > 1 && !fits(Window(all, from, to)) {
      var index := AnchorIndex(all, from, to, anchored, anchor);
      if index > 0 && index >= to - from - 1 - index {
        TrimFits(all, from + 1, to, anchored, anchor, fits);
      } else {
        TrimFits(all, from, to - 1, anchored, anchor, fits);
      }
    }
  }

  /** The reply holds the next messages from index `from` on, and its cursor leads on from there. */
  ghost predicate NextRun(all: seq<int>, from: nat, limit: nat, r: Reply) {
    && 1 <= |r.messages| <= limit
    && from + |r.messages| <= |all|
    && r.messages == all[from..from + |r.messages|]
    && (r.hasMore <==> from + |r.messages| < |all|)
    && (r.hasMore ==> r.cursor > 0 && Start(all, r.cursor) == from + |r.messages|)
  }

  /** A page read from a cursor is the run of messages that starts right below it. */
  lemma PageIsNext(all: seq<int>, limit: nat, cursor: int, fits: Reply -> bool)
    requires Conversation(all) && limit >= 1 && AcceptsSingles(fits) && Start(all, cursor) < |all|
    ensures var page := Page(all, limit, cursor, 0, fits);
            var from := Start(all, cursor);
            page.Some? && NextRun(all, from, limit, page.value)
  {
    var (from, to) := FirstWindow(all, limit, cursor, 0);
    TrimKeepsStart(all, from, to, 0, fits);
    TrimFits(all, from, to, false, 0, fits);
    var t := Trim(all, from, to, false, 0, fits).1;
    if t < |all| {
      assert MessageOk(all, t - 1) && MessageOk(all, t);
      FirstBelowIs(all, all[t - 1], t);
    }
  }

  /** All messages a client collects by following next_cursor. */
  ghost function Follow(all: seq<int>, limit: nat, cursor: int, fits: Reply -> bool): seq<int>
    requires Conversation(all) && limit >= 1 && AcceptsSingles(fits)
    decreases |all| - Start(all, cursor)
  {
    if Start(all, cursor) == |all| then []
    else
      PageIsNext(all, limit, cursor, fits);
      var page := Page(all, limit, cursor, 0, fits).value;
      page.messages + if page.hasMore then Follow(all, limit, page.cursor, fits) else []
  }

  lemma RunThenRest(all: seq<int>, from: nat, limit: nat, r: Reply, rest: seq<int>)
    requires NextRun(all, from, limit, r) && rest == if r.hasMore then all[Start(all, r.cursor)..] else []
    ensures r.messages + rest == all[from..]
  {
    JoinSlices(all, from, from + |r.messages|, |all|);
  }

  lemma {:induction false} FollowFrom(all: seq<int>, limit: nat, cursor: int, fits: Reply -> bool)
    requires Conversation(all) && limit >= 1 && AcceptsSingles(fits)
    ensures Follow(all, limit, cursor, fits) == all[Start(all, cursor)..]
    decreases |all| - Start(all, cursor)
  {
    if Start(all, cursor) < |all| {
      PageIsNext(all, limit, cursor, fits);
      var page := Page(all, limit, cursor, 0, fits).value;
      if page.hasMore { FollowFrom(all, limit, page.cursor, fits); }
      RunThenRest(all, Start(all, cursor), limit, page, if page.hasMore then Follow(all, limit, page.cursor, fits)
                  else []);
    }
  }

  /** Following the cursors from the start yields every message once, newest first. */
  lemma FollowYieldsAll(all: seq<int>, limit: nat, fits: Reply -> bool)
    requires Conversation(all) && limit >= 1 && AcceptsSingles(fits)
    ensures Follow(all, limit, 0, fits) == all
  {
    FollowFrom(all, limit, 0, fits);
  }

  // ----------------------------------------------------------------- anchored windows

  lemma {:induction false} TrimKeepsAnchor(all: seq<int>, from: nat, to: nat, anchor: int, a: nat, fits: Reply -> bool)
    requires Conversation(all) && from <= a < to <= |all| && all[a] == anchor
    ensures (var (f, t) := Trim(all, from, to, true, anchor, fits); f <= a < t)
    decreases |all| - from, to
  {
    if to - from > 1 && !fits(Window(all, from, to)) {
      AnchorPosition(all, anchor, a);
      var index := AnchorIndex(all, from, to, true, anchor);
      if index > 0 && index >= to - from - 1 - index {
        TrimKeepsAnchor(all, from + 1, to, anchor, a, fits);
      } else {
        TrimKeepsAnchor(all, from, to - 1, anchor, a, fits);
      }
    }
  }

  lemma AnchorPosition(all: seq<int>, anchor: int, a: nat)
    requires Conversation(all) && a < |all| && all[a] == anchor
    ensures FirstBelow(all, anchor + 1) == a
  {
    assert MessageOk(all, a);
    FirstBelowIs(all, anchor + 1, a);
  }

  ghost predicate IsWindow(all: seq<int>, r: Reply) {
    exists f: nat, t: nat | f < t <= |all| :: r == Window(all, f, t)
  }

  /**
   A window around a message of the conversation always keeps that message, stays a contiguous
   range of at most `limit` messages, and points to the messages older than the range.
   */
  lemma AnchoredWindow(all: seq<int>, limit: nat, anchor: int, fits: Reply -> bool)
    requires Conversation(all) && limit >= 1 && AcceptsSingles(fits) && anchor in all
    ensures var page := Page(all, limit, 0, anchor, fits);
            page.Some? && anchor in page.value.messages && |page.value.messages| <= limit && IsWindow(all, page.value)
  {
    var a :| 0 <= a < |all| && all[a] == anchor;
    assert MessageOk(all, a);
    AnchorPosition(all, anchor, a);
    var (from, to) := FirstWindow(all, limit, 0, anchor);
    var (f, t) := Trim(all, from, to, true, anchor, fits);
    TrimFits(all, from, to, true, anchor, fits);
    TrimKeepsAnchor(all, from, to, anchor, a, fits);
    assert all[f..t][a - f] == anchor;
  }

  // ----------------------------------------------------------------- no page is shorter than it has to be

  lemma {:induction false} TrimIsLongest(all: seq<int>, from: nat, to: nat, anchor: int, fits: Reply -> bool)
    requires from <= to <= |all|
    ensures var t := Trim(all, from, to, false, anchor, fits).1;
            && Trim(all, from, to, false, anchor, fits).0 == from
            && (t - from <= 1 || fits(Window(all, from, t)))
            && (from < to ==> from < t)
            && forall u | t < u <= to :: !fits(Window(all, from, u))
    decreases |all| - from, to
  {
    if to - from > 1 && !fits(Window(all, from, to)) { TrimIsLongest(all, from, to - 1, anchor, fits); }
  }

  /**
   A page read from a cursor is the longest run below it, of at most `limit` messages, that fits; there
   is none exactly when not even one message fits.
   */
  lemma PageIsLongest(all: seq<int>, limit: nat, cursor: int, fits: Reply -> bool)
    requires limit >= 1 && Start(all, cursor) < |all|
    ensures var page, from := Page(all, limit, cursor, 0, fits), Start(all, cursor);
            var top := Min(from + limit, |all|);
            && (page.None? <==> forall u | from < u <= top :: !fits(Window(all, from, u)))
            && (page.Some? ==>
                  exists t | from < t <= top ::
                      page.value == Window(all, from, t) && forall u | t < u <= top :: !fits(Window(all, from, u)))
  {
    var (from, to) := FirstWindow(all, limit, cursor, 0);
    TrimIsLongest(all, from, to, 0, fits);
  }

  /** What trimming leaves around index `a`: neither side is shortened below the other by more than it must. */
  ghost predicate Balanced(from: nat, to: nat, a: nat, f: nat, t: nat) {
    && (f > from ==> a - f + 1 >= t - 1 - a)
    && (t < to ==> a - f <= t - 1 - a)
  }

  /** Some window with one message more did not fit. */
  ghost predicate HadToShrink(all: seq<int>, from: nat, to: nat, f: nat, t: nat, fits: Reply -> bool)
    requires from <= f <= t <= to <= |all|
  {
    (from < f && !fits(Window(all, f - 1, t))) || (t < to && !fits(Window(all, f, t + 1)))
  }

  /** The window left is balanced, and is the first one or had to be shortened. */
  ghost predicate WellTrimmed(all: seq<int>, from: nat, to: nat, a: nat, f: nat, t: nat, fits: Reply -> bool)
    requires to <= |all|
  {
    && from <= f <= a < t <= to && Balanced(from, to, a, f, t)
    && ((f, t) != (from, to) ==> HadToShrink(all, from, to, f, t, fits))
  }

  lemma NewerDropped(all: seq<int>, from: nat, to: nat, a: nat, f: nat, t: nat, fits: Reply -> bool)
    requires to <= |all| && from < a && a - from >= to - 1 - a && WellTrimmed(all, from + 1, to, a, f, t, fits)
    requires !fits(Window(all, from, to))
    ensures WellTrimmed(all, from, to, a, f, t, fits)
  {
  }

  lemma OlderDropped(all: seq<int>, from: nat, to: nat, a: nat, f: nat, t: nat, fits: Reply -> bool)
    requires 0 < to <= |all| && (a <= from || a - from < to - 1 - a)
    requires WellTrimmed(all, from, to - 1, a, f, t, fits) && !fits(Window(all, from, to))
    ensures WellTrimmed(all, from, to, a, f, t, fits)
  {
  }

  lemma {:induction false} TrimBalances(all: seq<int>, from: nat, to: nat, anchor: int, a: nat, fits: Reply -> bool)
    requires Conversation(all) && from <= a < to <= |all| && all[a] == anchor
    ensures var (f, t) := Trim(all, from, to, true, anchor, fits); WellTrimmed(all, from, to, a, f, t, fits)
    decreases |all| - from, to
  {
    if to - from > 1 && !fits(Window(all, from, to)) {
      AnchorPosition(all, anchor, a);
      var (f, t) := Trim(all, from, to, true, anchor, fits);
      if a > from && a - from >= to - 1 - a {
        TrimBalances(all, from + 1, to, anchor, a, fits);
        NewerDropped(all, from, to, a, f, t, fits);
      } else {
        TrimBalances(all, from, to - 1, anchor, a, fits);
        OlderDropped(all, from, to, a, f, t, fits);
      }
    }
  }

  /**
   A window around a message starts with half of the limit before it and the other half, rounded up,
   from it on; it is only shortened while it does not fit, on the longer side.
   */
  lemma AnchoredIsCentred(all: seq<int>, limit: nat, anchor: int, a: nat, fits: Reply -> bool)
    requires Conversation(all) && limit >= 1 && AcceptsSingles(fits) && a < |all| && all[a] == anchor
    ensures var page := Page(all, limit, 0, anchor, fits);
            var from, to := if a < limit / 2 then 0 else a - limit / 2, Min(a + limit - limit / 2, |all|);
            && page.Some?
            && exists f, t | from <= f <= a < t <= to ::
                page.value == Window(all, f, t) && WellTrimmed(all, from, to, a, f, t, fits)
  {
    assert MessageOk(all, a);
    AnchorPosition(all, anchor, a);
    var (from, to) := FirstWindow(all, limit, 0, anchor);
    assert (limit + 1) / 2 == limit - limit / 2;
    TrimBalances(all, from, to, anchor, a, fits);
    TrimFits(all, from, to, true, anchor, fits);
  }
}
