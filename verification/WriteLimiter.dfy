/**
 The rolling-window limiters for profile writes and card reads.

 A sorted-set member is the time and sequence number of an admission, and its score is that time,
 so a sorted set is the set of its members. Keys carry their expiry, and the limiter's clock does
 not go back.
 */
module WriteLimiter {
  import opened Common

  datatype Stamp = Stamp(at: int, number: nat)

  /** A sorted set of admissions and the time the key expires. */
  datatype Key = Key(members: set<Stamp>, deadline: int)

  datatype Counter = Counter(value: nat, deadline: int)

  const MINUTE: int := 60 * 1000
  const DAY: int := 24 * 60 * 60 * 1000
  const MINUTE_LIMIT: nat := 10
  const DAY_LIMIT: nat := 20
  const GRACE: int := 1000

  /** The members left once an expired key is gone and ZREMRANGEBYSCORE has run. */
  function Recent(k: Key, now: int, window: int): set<Stamp> {
    if now >= k.deadline then {} else set x | x in k.members && x.at > now - window
  }

  function NextNumber(c: Counter, now: int): nat {
    if now >= c.deadline then 1 else c.value + 1
  }

  datatype Limiter = Limiter(minute: Key, day: Key, counter: Counter)

  datatype Verdict = Admitted(minuteCount: nat, dayCount: nat, member: Stamp) | Refused(minuteCount: nat, dayCount: nat)

  /** profileWriteCounterScript */
  function ProfileWrite(l: Limiter, now: int): (Limiter, Verdict) {
    var minute, day := Recent(l.minute, now, MINUTE), Recent(l.day, now, DAY);
    if |minute| >= MINUTE_LIMIT || |day| >= DAY_LIMIT then
      (l.(minute := l.minute.(members := minute), day := l.day.(members := day)), Refused(|minute|, |day|))
    else
      var number := NextNumber(l.counter, now);
      var member := Stamp(now, number);
      (Limiter(Key(minute + {member}, now + MINUTE + GRACE), Key(day + {member}, now + DAY + GRACE),
               Counter(number, now + DAY + GRACE)),
       Admitted(|minute| + 1, |day| + 1, member))
  }

  // ----------------------------------------------------------------- counting admissions

  /** Admissions in the half-open interval from `lo` to `hi`, counted one by one. */
  function Between(log: seq<Stamp>, lo: int, hi: int): nat {
    if log == [] then 0
    else Between(log[..|log| - 1], lo, hi) + if lo <= log[|log| - 1].at < hi then 1 else 0
  }

  ghost function After(log: seq<Stamp>, cutoff: int): set<Stamp> {
    set x | x in log && x.at > cutoff
  }

  ghost predicate Distinct(log: seq<Stamp>) {
    forall i, j | 0 <= i < j < |log| :: log[i] != log[j]
  }

  /** Distinct admissions are as many as their members. */
  lemma {:induction false} BetweenIsCounted(log: seq<Stamp>, lo: int, hi: int)
    requires Distinct(log)
    ensures Between(log, lo, hi) <= |After(log, lo - 1)|
  {
    if log != [] {
      var front, last := log[..|log| - 1], log[|log| - 1];
      assert log == front + [last];
      BetweenIsCounted(front, lo, hi);
      assert last !in front;
      assert After(log, lo - 1) == After(front, lo - 1) + if last.at > lo - 1 then {last} else {};
    }
  }

  lemma AppendDistinct(log: seq<Stamp>, x: Stamp)
    requires Distinct(log) && x !in log
    ensures Distinct(log + [x])
  {
  }

  // ----------------------------------------------------------------- what a key and the counter remember

  /** From `last` on, the key shows exactly the admissions still in its window. */
  ghost predicate Tracks(k: Key, log: seq<Stamp>, last: int, window: int) {
    forall t {:trigger Recent(k, t, window)} :: t >= last ==> Recent(k, t, window) == After(log, t - window)
  }

  ghost predicate InTime(log: seq<Stamp>, last: int) {
    forall x <- log :: x.at <= last
  }

  /** The counter is ahead of every admission of the latest moment, and outlives it by `life`. */
  ghost predicate Ahead(c: Counter, log: seq<Stamp>, last: int, life: int) {
    c.deadline - life <= last && forall x <- log ::
        x.at <= c.deadline - life && (x.number <= c.value || x.at < c.deadline - life)
  }

  lemma RefusalTracks(k: Key, log: seq<Stamp>, last: int, window: int, now: int)
    requires Tracks(k, log, last, window) && now >= last
    ensures Tracks(k.(members := Recent(k, now, window)), log, now, window)
  {
    var k' := k.(members := Recent(k, now, window));
    forall t | t >= now ensures Recent(k', t, window) == After(log, t - window) {
      assert Recent(k, t, window) == After(log, t - window);
    }
  }

  lemma AdmissionTracks(k: Key, log: seq<Stamp>, last: int, window: int, now: int, member: Stamp)
    requires Tracks(k, log, last, window) && InTime(log, last) && now >= last && member.at == now && window > 0
    ensures Tracks(Key(Recent(k, now, window) + {member}, now + window + GRACE), log + [member], now, window)
  {
    var k' := Key(Recent(k, now, window) + {member}, now + window + GRACE);
    assert Recent(k, now, window) == After(log, now - window);
    forall t | t >= now ensures Recent(k', t, window) == After(log + [member], t - window) {
      forall x ensures x in Recent(k', t, window) <==> x in After(log + [member], t - window) {}
    }
  }

  /** The new member has not been used before, even if the counter has started over. */
  lemma NumberIsNew(c: Counter, log: seq<Stamp>, last: int, life: int, now: int)
    requires Ahead(c, log, last, life) && now >= last && life > 0
    ensures Stamp(now, NextNumber(c, now)) !in log
    ensures Ahead(Counter(NextNumber(c, now), now + life), log + [Stamp(now, NextNumber(c, now))], now, life)
  {
  }

  // ----------------------------------------------------------------- runs

  ghost predicate Spaced(log: seq<Stamp>, window: int, limit: nat) {
    forall lo :: Interval(log, lo, window) <= limit
  }

  function Interval(log: seq<Stamp>, lo: int, window: int): nat {
    Between(log, lo, lo + window)
  }

  lemma AdmissionSpaced(log: seq<Stamp>, window: int, limit: nat, now: int, member: Stamp)
    requires Distinct(log) && Spaced(log, window, limit) && member.at == now && window > 0
    requires |After(log, now - window)| < limit
    ensures Spaced(log + [member], window, limit)
  {
    var more := log + [member];
    assert more[..|log|] == log;
    forall lo ensures Interval(more, lo, window) <= limit {
      assert Interval(log, lo, window) <= limit;
      if lo <= now < lo + window {
        BetweenIsCounted(log, lo, lo + window);
        SubsetSize(After(log, lo - 1), After(log, now - window));
      }
    }
  }

  const EMPTY: Limiter := Limiter(Key({}, 0), Key({}, 0), Counter(0, 0))

  /** The limiter after writes at the given times, and the admissions in order. */
  function Run(times: seq<int>): (Limiter, seq<Stamp>) {
    if times == [] then (EMPTY, [])
    else
      var (l, log) := Run(times[..|times| - 1]);
      var (next, verdict) := ProfileWrite(l, times[|times| - 1]);
      (next, if verdict.Admitted? then log + [verdict.member] else log)
  }

  /** Clock readings, positive as Redis gives them, that never go back. */
  ghost predicate Clock(times: seq<int>) {
    (forall i | 0 <= i < |times| :: times[i] > 0) && forall i, j | 0 <= i < j < |times| :: times[i] <= times[j]
  }

  function Last(times: seq<int>): int {
    if times == [] then 0 else times[|times| - 1]
  }

  ghost predicate RunOk(l: Limiter, log: seq<Stamp>, last: int) {
    && Tracks(l.minute, log, last, MINUTE) && Tracks(l.day, log, last, DAY)
    && Ahead(l.counter, log, last, DAY + GRACE)
    && InTime(log, last) && Distinct(log)
    && Spaced(log, MINUTE, MINUTE_LIMIT) && Spaced(log, DAY, DAY_LIMIT)
  }

  lemma WriteKeeps(l: Limiter, log: seq<Stamp>, last: int, now: int)
    requires RunOk(l, log, last) && now >= last
    ensures var (next, verdict) := ProfileWrite(l, now);
            RunOk(next, if verdict.Admitted? then log + [verdict.member] else log, now)
  {
    assert Recent(l.minute, now, MINUTE) == After(log, now - MINUTE)
        && Recent(l.day, now, DAY) == After(log, now - DAY);
    var (next, verdict) := ProfileWrite(l, now);
    if verdict.Admitted? {
      NumberIsNew(l.counter, log, last, DAY + GRACE, now);
      AdmissionTracks(l.minute, log, last, MINUTE, now, verdict.member);
      AdmissionTracks(l.day, log, last, DAY, now, verdict.member);
      AppendDistinct(log, verdict.member);
      AdmissionSpaced(log, MINUTE, MINUTE_LIMIT, now, verdict.member);
      AdmissionSpaced(log, DAY, DAY_LIMIT, now, verdict.member);
    } else {
      RefusalTracks(l.minute, log, last, MINUTE, now);
      RefusalTracks(l.day, log, last, DAY, now);
    }
  }

  lemma EmptyOk()
    ensures RunOk(EMPTY, [], 0)
  {
    assert EMPTY.counter.deadline - (DAY + GRACE) <= 0;
    forall lo, w ensures Interval([], lo, w) == 0 {}
  }

  lemma {:induction false} RunKeeps(times: seq<int>)
    requires Clock(times)
    ensures RunOk(Run(times).0, Run(times).1, Last(times))
  {
    if times == [] {
      EmptyOk();
    } else {
      var front := times[..|times| - 1];
      RunKeeps(front);
      WriteKeeps(Run(front).0, Run(front).1, Last(front), Last(times));
    }
  }

  /** Every half-open minute holds at most 10 admitted writes and every half-open day at most 20. */
  lemma WritesAreSpaced(times: seq<int>, lo: int)
    requires Clock(times)
    ensures Between(Run(times).1, lo, lo + 60000) <= 10 && Between(Run(times).1, lo, lo + 86400000) <= 20
  {
    RunKeeps(times);
    assert Interval(Run(times).1, lo, MINUTE) <= 10 && Interval(Run(times).1, lo, DAY) <= 20;
  }

  /** No two admissions ever share a member, however often the counter has expired. */
  lemma MembersAreNeverShared(times: seq<int>, i: nat, j: nat)
    requires Clock(times) && i < j < |Run(times).1|
    ensures Run(times).1[i] != Run(times).1[j]
  {
    RunKeeps(times);
  }

  /** Both sets hold exactly the admissions of their windows: each admission entered both or neither. */
  lemma BothSetsAgree(times: seq<int>, now: int)
    requires Clock(times) && now >= Last(times)
    ensures Recent(Run(times).0.minute, now, MINUTE) == After(Run(times).1, now - MINUTE)
    ensures Recent(Run(times).0.day, now, DAY) == After(Run(times).1, now - DAY)
    ensures Recent(Run(times).0.minute, now, MINUTE) <= Recent(Run(times).0.day, now, DAY)
  {
    RunKeeps(times);
  }

  /** A write is refused exactly when one of the two windows is full, and the counts are those of the windows. */
  lemma RefusedExactlyWhenFull(times: seq<int>, now: int)
    requires Clock(times) && now >= Last(times)
    ensures var verdict := ProfileWrite(Run(times).0, now).1;
            var minute, day := |After(Run(times).1, now - 60000)|, |After(Run(times).1, now - 86400000)|;
            && (verdict.Refused? <==> minute >= 10 || day >= 20)
            && (verdict.Refused? ==> verdict == Refused(minute, day))
            && (verdict.Admitted? ==>
                  verdict.minuteCount == minute + 1 && verdict.dayCount == day + 1 && verdict.member.at == now)
  {
    BothSetsAgree(times, now);
  }

  // ----------------------------------------------------------------- card reads

  datatype Reader = Reader(key: Key, counter: Counter)

  /** fixedWindowCounterScript, in truth a rolling window; `limit` and `window` are positive. */
  function CardRead(r: Reader, limit: nat, window: int, now: int): (Reader, Option<Stamp>) {
    var recent := Recent(r.key, now, window);
    if |recent| >= limit then (r.(key := r.key.(members := recent)), None)
    else
      var member := Stamp(now, NextNumber(r.counter, now));
      (Reader(Key(recent + {member}, now + window + GRACE), Counter(member.number, now + window + GRACE)), Some(member))
  }

  function Reads(times: seq<int>, limit: nat, window: int): (Reader, seq<Stamp>) {
    if times == [] then (Reader(Key({}, 0), Counter(0, 0)), [])
    else
      var (r, log) := Reads(times[..|times| - 1], limit, window);
      var (next, admitted) := CardRead(r, limit, window, times[|times| - 1]);
      (next, if admitted.Some? then log + [admitted.value] else log)
  }

  ghost predicate ReadOk(r: Reader, log: seq<Stamp>, last: int, limit: nat, window: int) {
    && Tracks(r.key, log, last, window) && Ahead(r.counter, log, last, window + GRACE)
    && InTime(log, last) && Distinct(log) && Spaced(log, window, limit)
  }

  lemma ReadKeeps(r: Reader, log: seq<Stamp>, last: int, limit: nat, window: int, now: int)
    requires ReadOk(r, log, last, limit, window) && now >= last && window > 0
    ensures var (next, admitted) := CardRead(r, limit, window, now);
            ReadOk(next, if admitted.Some? then log + [admitted.value] else log, now, limit, window)
  {
    assert Recent(r.key, now, window) == After(log, now - window);
    var (next, admitted) := CardRead(r, limit, window, now);
    if admitted.Some? {
      NumberIsNew(r.counter, log, last, window + GRACE, now);
      AdmissionTracks(r.key, log, last, window, now, admitted.value);
      AppendDistinct(log, admitted.value);
      AdmissionSpaced(log, window, limit, now, admitted.value);
    } else {
      RefusalTracks(r.key, log, last, window, now);
    }
  }

  lemma {:induction false} ReadsKeep(times: seq<int>, limit: nat, window: int)
    requires Clock(times) && window > 0
    ensures ReadOk(Reads(times, limit, window).0, Reads(times, limit, window).1, Last(times), limit, window)
  {
    if times == [] {
      forall lo ensures Interval([], lo, window) == 0 {}
    } else {
      var front := times[..|times| - 1];
      ReadsKeep(front, limit, window);
      ReadKeeps(Reads(front, limit, window).0, Reads(front, limit, window).1, Last(front), limit, window, Last(times));
    }
  }

  /** Any half-open window of the configured length holds at most the configured number of reads. */
  lemma ReadsAreSpaced(times: seq<int>, limit: nat, window: int, lo: int)
    requires Clock(times) && window > 0
    ensures Between(Reads(times, limit, window).1, lo, lo + window) <= limit
  {
    ReadsKeep(times, limit, window);
    assert Interval(Reads(times, limit, window).1, lo, window) <= limit;
  }

  /** A read is refused exactly when its window is full, and an admitted one counts from now on. */
  lemma ReadRefusedExactlyWhenFull(times: seq<int>, limit: nat, window: int, now: int)
    requires Clock(times) && window > 0 && now >= Last(times)
    ensures var admitted := CardRead(Reads(times, limit, window).0, limit, window, now).1;
            && (admitted.None? <==> |After(Reads(times, limit, window).1, now - window)| >= limit)
            && (admitted.Some? ==> admitted.value.at == now && admitted.value !in Reads(times, limit, window).1)
  {
    ReadsKeep(times, limit, window);
    NumberIsNew(Reads(times, limit, window).0.counter, Reads(times, limit, window).1, Last(times), window + GRACE, now);
  }

  // ----------------------------------------------------------------- the keys

  /** The three keys of one agent as the profile-write script changes them. */
  class ProfileKeys {
    var minute: Key
    var day: Key
    var counter: Counter

    ghost function Snapshot(): Limiter
      reads this
    {
      Limiter(minute, day, counter)
    }

    constructor ()
      ensures Snapshot() == EMPTY
    {
      minute, day, counter := Key({}, 0), Key({}, 0), Counter(0, 0);
    }

    method Script(now: int) returns (verdict: Verdict)
      modifies this
      ensures (Snapshot(), verdict) == ProfileWrite(old(Snapshot()), now)
    {
      minute := minute.(members := Recent(minute, now, MINUTE));
      day := day.(members := Recent(day, now, DAY));
      var minuteCount, dayCount := |minute.members|, |day.members|;
      if minuteCount >= MINUTE_LIMIT || dayCount >= DAY_LIMIT { return Refused(minuteCount, dayCount); }
      var number := if now >= counter.deadline then 1 else counter.value + 1;
      var member := Stamp(now, number);
      counter := Counter(number, now + DAY + GRACE);
      minute := Key(minute.members + {member}, now + MINUTE + GRACE);
      day := Key(day.members + {member}, now + DAY + GRACE);
      return Admitted(minuteCount + 1, dayCount + 1, member);
    }
  }
}
