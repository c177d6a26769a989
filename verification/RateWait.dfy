/**
 The retry hint of the rate script: a fresh batch is accepted once the hinted wait has passed or the
 keys have expired, whichever comes first, and not before.
 */
module RateWait {
  import opened Common
  import opened PublishQuota
  import opened RateScript

  predicate AcceptedAt(s: Sets, batch: seq<Addition>, now: int) {
    Reserve(s, batch, now).1.Allowed?
  }

  /** The additions of a batch that concern a limit. */
  function Size(batch: seq<Addition>, k: Option<Surface>): nat {
    if batch == [] then 0 else Size(batch[..|batch| - 1], k) + if Concerns(batch[|batch| - 1], k) then 1 else 0
  }

  /** The batch fits every limit on its own. */
  ghost predicate Possible(batch: seq<Addition>) {
    forall k: Option<Surface> :: Size(batch, k) <= Limit(k)
  }

  /** No addition is already held; reservation tokens drawn for the batch make it so. */
  ghost predicate Fresh(s: Sets, batch: seq<Addition>) {
    forall a <- batch :: !Has(s.total, a.member)
  }

  /** Every entry leaves the window before the keys expire. */
  ghost predicate Outlived(s: Sets) {
    forall e <- s.total :: e.score + WINDOW <= s.deadline
  }

  // ----------------------------------------------------------------- key expiry is invisible

  lemma ExpiryIsInvisible(s: Sets, now: int)
    requires UnionOk(s) && Outlived(s)
    ensures PurgeAll(Live(s, now), now) == PurgeAll(s, now)
  {
    if now >= s.deadline {
      forall k: Option<Surface> ensures Purge(Of(s, k), now - WINDOW) == [] {
        AllLimits(k);
        assert Sorted(Of(s, k));
        var last := |Of(s, k)| - 1;
        if last >= 0 {
          assert Of(s, k)[last] in s.total;
          PurgeSize(Of(s, k), last, now - WINDOW);
        }
      }
      assert Of(s, None) == s.total && Of(s, Some(Participation)) == s.participation && Of(s, Some(Focus)) == s.focus;
    }
  }

  /** With gateway clocks at most a minute ahead of the limiter, reconciling leaves entries that expiry cannot touch. */
  lemma {:induction false} ReconcileOutlived(rows: seq<StoredItem>, now: int, deadline: int)
    requires DistinctRows(rows) && deadline == now + WINDOW + GRACE && forall r <- rows :: r.createdAt <= now + GRACE
    ensures Outlived(Rebuild(rows, deadline)) && Rebuild(rows, deadline).deadline == deadline
  {
    if rows != [] {
      var front, last := rows[..|rows| - 1], rows[|rows| - 1];
      ReconcileOutlived(front, now, deadline);
      RebuildKeepsUnion(front, deadline);
      AddNewMembers(Rebuild(front, deadline), last.addition, last.createdAt);
    }
  }

  lemma AddNewMembers(s: Sets, a: Addition, score: int)
    ensures forall e <- AddOne(s, a, score).total :: e in s.total || e == Entry(a.member, score)
    ensures AddOne(s, a, score).deadline == s.deadline
  {
    InsertMembers(s.total, Entry(a.member, score));
  }

  lemma {:induction false} AddAllMembers(s: Sets, batch: seq<Addition>, now: int)
    ensures forall e <- AddAll(s, batch, now).total :: e in s.total || e.score == now
  {
    if batch != [] {
      AddAllMembers(s, batch[..|batch| - 1], now);
      AddNewMembers(AddAll(s, batch[..|batch| - 1], now), batch[|batch| - 1], now);
    }
  }

  /** A reservation keeps it so, as long as the limiter's clock has not stepped back since the deadline was set. */
  lemma ReserveOutlived(s: Sets, batch: seq<Addition>, now: int)
    requires UnionOk(s) && Outlived(s) && s.deadline <= now + WINDOW + GRACE
    ensures Outlived(Reserve(s, batch, now).0)
  {
    ExpiryIsInvisible(s, now);
    assert Sorted(Of(s, None));
    PurgeKeeps(s.total, now - WINDOW);
    AddAllMembers(PurgeAll(s, now), batch, now);
  }

  // ----------------------------------------------------------------- one set

  lemma {:induction false} MissingGrows(z: seq<Entry>, batch: seq<Addition>, k: Option<Surface>, cutoff: int)
    requires Sorted(z)
    ensures Missing(z, batch, k) <= Missing(Purge(z, cutoff), batch, k) <= Size(batch, k)
  {
    if batch != [] {
      MissingGrows(z, batch[..|batch| - 1], k, cutoff);
      PurgeKeeps(z, cutoff);
      var m := batch[|batch| - 1].member;
      if Has(Purge(z, cutoff), m) {
        var e :| e in Purge(z, cutoff) && e.member == m;
        assert e in z;
      }
    }
  }

  lemma {:induction false} FreshIsMissing(z: seq<Entry>, batch: seq<Addition>, k: Option<Surface>)
    requires forall a <- batch :: !Has(z, a.member)
    ensures Missing(z, batch, k) == Size(batch, k)
  {
    if batch != [] {
      assert batch[|batch| - 1] in batch;
      FreshIsMissing(z, batch[..|batch| - 1], k);
    }
  }

  lemma PurgeSize(z: seq<Entry>, i: int, cutoff: int)
    requires Sorted(z) && 0 <= i < |z|
    ensures |Purge(z, cutoff)| <= |z|
    ensures |z| - i <= |Purge(z, cutoff)| <==> z[i].score > cutoff
  {
    PurgeMeaning(z, cutoff);
  }

  lemma PurgedSet(p: Sets, now: int, k: Option<Surface>)
    requires UnionOk(p)
    ensures Of(PurgeAll(p, now), k) == Purge(Of(p, k), now - WINDOW) && Sorted(Of(p, k))
    ensures |Purge(Of(p, k), now - WINDOW)| <= |Of(p, k)|
  {
    AllLimits(k);
    PurgeMeaning(Of(p, k), now - WINDOW);
  }

  /** Before the boundary entry leaves the window the set is still over its limit. */
  lemma StillOver(p: Sets, batch: seq<Addition>, k: Option<Surface>, now: int, t: int)
    requires UnionOk(p) && Overflow(p, batch, k) > 0
    requires WaitFor(p, batch, k, now).Some? ==> t < now + WaitFor(p, batch, k, now).value
    ensures Overflow(PurgeAll(p, t), batch, k) > 0
  {
    var over := Overflow(p, batch, k);
    PurgedSet(p, t, k);
    MissingGrows(Of(p, k), batch, k, t - WINDOW);
    if over <= |Of(p, k)| { PurgeSize(Of(p, k), over - 1, t - WINDOW); }
  }

  /** Once it has left, a fresh batch that fits the limit alone fits the set. */
  lemma NoLongerOver(p: Sets, batch: seq<Addition>, k: Option<Surface>, now: int, t: int)
    requires UnionOk(p) && Size(batch, k) <= Limit(k)
    requires Missing(Of(p, k), batch, k) == Size(batch, k)
    requires WaitFor(p, batch, k, now).Some? ==> t >= now + WaitFor(p, batch, k, now).value
    ensures Overflow(PurgeAll(p, t), batch, k) <= 0
  {
    var over := Overflow(p, batch, k);
    PurgedSet(p, t, k);
    MissingGrows(Of(p, k), batch, k, t - WINDOW);
    if over > 0 { PurgeSize(Of(p, k), over - 1, t - WINDOW); }
  }

  // ----------------------------------------------------------------- the whole script

  lemma PurgedScores(s: Sets, now: int, k: Option<Surface>)
    requires UnionOk(s)
    ensures forall e <- Of(PurgeAll(s, now), k) :: e.score > now - WINDOW
    ensures UnionOk(PurgeAll(s, now)) && (Outlived(s) ==> Outlived(PurgeAll(s, now)))
  {
    PurgeAllKeepsUnion(s, now);
    assert Of(PurgeAll(s, now), k) == Purge(Of(s, k), now - WINDOW) && Sorted(Of(s, k)) && Sorted(Of(s, None));
    PurgeKeeps(Of(s, k), now - WINDOW);
    PurgeKeeps(s.total, now - WINDOW);
  }

  /** A set over its limit whose boundary entry, if it has one, gives the hint. */
  lemma Binding(p: Sets, batch: seq<Addition>, now: int) returns (k: Option<Surface>)
    requires !Fits(p, batch)
    requires forall k: Option<Surface> :: forall e <- Of(p, k) :: e.score > now - WINDOW
    ensures Overflow(p, batch, k) > 0
    ensures WaitFor(p, batch, k, now).Some? ==> Retry(p, batch, now) == WaitFor(p, batch, k, now).value
  {
    var a, b, c := WaitFor(p, batch, None, now), WaitFor(p, batch, Some(Participation), now),
        WaitFor(p, batch, Some(Focus), now);
    var wait := Later(Later(a, b), c);
    if wait.None? {
      k := if Overflow(p, batch, None) > 0 then None else if Overflow(p, batch, Some(Participation)) > 0
          then Some(Participation) else Some(Focus);
    } else {
      k := if a == wait then None else if b == wait then Some(Participation) else Some(Focus);
      assert wait.value >= 1;
    }
  }

  lemma PurgedBinding(s: Sets, batch: seq<Addition>, now: int) returns (k: Option<Surface>)
    requires UnionOk(s) && !Fits(PurgeAll(s, now), batch)
    ensures var p := PurgeAll(s, now);
            && Overflow(p, batch, k) > 0
            && (WaitFor(p, batch, k, now).Some? ==> Retry(p, batch, now) == WaitFor(p, batch, k, now).value)
  {
    forall l: Option<Surface> ensures forall e <- Of(PurgeAll(s, now), l) :: e.score > now - WINDOW {
      PurgedScores(s, now, l);
    }
    k := Binding(PurgeAll(s, now), batch, now);
  }

  /** The hint covers the wait of every set. */
  lemma RetryCovers(p: Sets, batch: seq<Addition>, now: int, k: Option<Surface>)
    requires WaitFor(p, batch, k, now).Some?
    ensures WaitFor(p, batch, k, now).value <= Retry(p, batch, now)
  {
    AllLimits(k);
  }

  lemma FitsAfterWait(p: Sets, batch: seq<Addition>, now: int, t: int)
    requires UnionOk(p) && Possible(batch) && t >= now + Retry(p, batch, now)
    requires forall k: Option<Surface> :: Missing(Of(p, k), batch, k) == Size(batch, k)
    ensures Fits(PurgeAll(p, t), batch)
  {
    forall k: Option<Surface> ensures Overflow(PurgeAll(p, t), batch, k) <= 0 {
      if WaitFor(p, batch, k, now).Some? { RetryCovers(p, batch, now, k); }
      NoLongerOver(p, batch, k, now, t);
    }
  }

  lemma NeverFits(p: Sets, batch: seq<Addition>)
    requires !Possible(batch) && forall k: Option<Surface> :: Missing(Of(p, k), batch, k) == Size(batch, k)
    ensures !Fits(p, batch)
  {
    var k: Option<Surface> :| Size(batch, k) > Limit(k);
    AllLimits(k);
    assert Overflow(p, batch, k) > 0;
  }

  /** Once the keys have expired a batch is accepted exactly when it fits every limit on its own. */
  lemma EmptyFits(batch: seq<Addition>, deadline: int)
    ensures Fits(Sets([], [], [], deadline), batch) <==> Possible(batch)
  {
    var p := Sets([], [], [], deadline);
    forall k: Option<Surface> ensures Overflow(p, batch, k) == Size(batch, k) - Limit(k) {
      AllLimits(k);
      FreshIsMissing(Of(p, k), batch, k);
    }
    if Fits(p, batch) {
      forall k: Option<Surface> ensures Size(batch, k) <= Limit(k) { AllLimits(k); }
    }
  }

  /** What a retry at `t` sees of the sets that a refusal at `now` left. */
  lemma RetrySees(s: Sets, batch: seq<Addition>, now: int, t: int)
    requires !AcceptedAt(s, batch, now) && now <= t
    ensures t >= s.deadline ==> (AcceptedAt(Reserve(s, batch, now).0, batch, t) <==> Possible(batch))
    ensures t < s.deadline ==>
        && Reserve(s, batch, now).0 == PurgeAll(s, now) && Reserve(s, batch, now).1.retry
            == Retry(PurgeAll(s, now), batch, now)
        && !Fits(PurgeAll(s, now), batch)
        && (AcceptedAt(PurgeAll(s, now), batch, t) <==> Fits(PurgeAll(PurgeAll(s, now), t), batch))
  {
    EmptyFits(batch, s.deadline);
  }

  /** No retry before the hint is accepted, whatever the batch, unless the keys have expired. */
  lemma WaitIsNeverTooLong(s: Sets, batch: seq<Addition>, now: int, t: int)
    requires UnionOk(s) && !AcceptedAt(s, batch, now) && now <= t < now + Reserve(s, batch, now).1.retry
    ensures AcceptedAt(Reserve(s, batch, now).0, batch, t) <==> t >= s.deadline && Possible(batch)
  {
    RetrySees(s, batch, now, t);
    if t < s.deadline {
      var p := PurgeAll(s, now);
      PurgedScores(s, now, None);
      var k := PurgedBinding(s, batch, now);
      StillOver(p, batch, k, now, t);
      AllLimits(k);
    }
  }

  /**
   A refused fresh batch is accepted at a later time exactly when it fits every limit on its own and
   the hinted wait has passed or the keys have expired.
   */
  lemma WaitIsExact(s: Sets, batch: seq<Addition>, now: int, t: int)
    requires UnionOk(s) && Fresh(s, batch) && !AcceptedAt(s, batch, now) && now <= t
    ensures AcceptedAt(Reserve(s, batch, now).0, batch, t) <==>
        Possible(batch) && (t >= now + Reserve(s, batch, now).1.retry || t >= s.deadline)
  {
    RetrySees(s, batch, now, t);
    if t < now + Reserve(s, batch, now).1.retry {
      WaitIsNeverTooLong(s, batch, now, t);
    } else if t < s.deadline {
      var p := PurgeAll(s, now);
      PurgedScores(s, now, None);
      forall k: Option<Surface>
        ensures Missing(Of(p, k), batch, k) == Size(batch, k)
        ensures Missing(Of(PurgeAll(p, t), k), batch, k) == Size(batch, k) {
        FreshStays(s, batch, now, t, k);
      }
      if Possible(batch) { FitsAfterWait(p, batch, now, t); } else { NeverFits(PurgeAll(p, t), batch); }
    }
  }

  /** The hint is the least sufficient wait of a fresh batch exactly when it ends before the keys expire. */
  lemma HintIsLeastWait(s: Sets, batch: seq<Addition>, now: int)
    requires UnionOk(s) && Fresh(s, batch) && !AcceptedAt(s, batch, now) && Possible(batch)
    ensures var (p, reply) := Reserve(s, batch, now);
            (forall t | now <= t :: AcceptedAt(p, batch, t) <==> t >= now + reply.retry) <==>
                now + reply.retry <= s.deadline
  {
    var (p, reply) := Reserve(s, batch, now);
    forall t | now <= t
      ensures AcceptedAt(p, batch, t) <==> t >= now + reply.retry || t >= s.deadline {
      WaitIsExact(s, batch, now, t);
    }
    EmptyFits(batch, s.deadline);
    assert now < s.deadline;
    assert AcceptedAt(p, batch, s.deadline);
  }

  lemma WaitBeforeExpiry(p: Sets, batch: seq<Addition>, k: Option<Surface>, now: int)
    requires UnionOk(p) && Outlived(p) && Size(batch, k) <= Limit(k) && Overflow(p, batch, k) > 0
    ensures WaitFor(p, batch, k, now).Some? && now + WaitFor(p, batch, k, now).value <= p.deadline
  {
    AllLimits(k);
    PurgedSet(p, now, k);
    MissingGrows(Of(p, k), batch, k, now - WINDOW);
    assert Of(p, k)[Overflow(p, batch, k) - 1] in Of(p, k);
  }

  /** A batch that fits alone is told to wait no longer than the keys live, if every entry leaves before that. */
  lemma HintBeforeExpiry(s: Sets, batch: seq<Addition>, now: int)
    requires UnionOk(s) && Outlived(s) && !AcceptedAt(s, batch, now) && Possible(batch)
    ensures now + Reserve(s, batch, now).1.retry <= s.deadline
  {
    EmptyFits(batch, s.deadline);
    RetrySees(s, batch, now, now);
    var p := PurgeAll(s, now);
    PurgedScores(s, now, None);
    var k := PurgedBinding(s, batch, now);
    WaitBeforeExpiry(p, batch, k, now);
  }

  /** The hint alone is exact where every entry leaves the window before the keys expire. */
  lemma OutlivedWaitIsExact(s: Sets, batch: seq<Addition>, now: int, t: int)
    requires UnionOk(s) && Outlived(s) && Fresh(s, batch) && !AcceptedAt(s, batch, now) && now <= t
    ensures AcceptedAt(Reserve(s, batch, now).0, batch, t) <==>
        Possible(batch) && t >= now + Reserve(s, batch, now).1.retry
  {
    WaitIsExact(s, batch, now, t);
    if Possible(batch) { HintBeforeExpiry(s, batch, now); }
  }

  lemma FreshStays(s: Sets, batch: seq<Addition>, now: int, t: int, k: Option<Surface>)
    requires UnionOk(s) && Fresh(s, batch)
    ensures Missing(Of(PurgeAll(s, now), k), batch, k) == Size(batch, k)
    ensures Missing(Of(PurgeAll(PurgeAll(s, now), t), k), batch, k) == Size(batch, k)
  {
    var z := Of(s, k);
    AllLimits(k);
    assert Sorted(z) && forall e <- z :: e in s.total;
    assert forall a <- batch :: !Has(z, a.member);
    assert Of(PurgeAll(s, now), k) == Purge(z, now - WINDOW);
    PurgeKeeps(z, now - WINDOW);
    assert Of(PurgeAll(PurgeAll(s, now), t), k) == Purge(Purge(z, now - WINDOW), t - WINDOW);
    PurgeKeeps(Purge(z, now - WINDOW), t - WINDOW);
    FreshIsMissing(Of(PurgeAll(s, now), k), batch, k);
    FreshIsMissing(Of(PurgeAll(PurgeAll(s, now), t), k), batch, k);
  }

  // ----------------------------------------------------------------- every reachable state

  /** What holds of the keys when the limiter's clock was last read at `last`. */
  ghost predicate LimiterOk(s: Sets, surfaceOf: Member -> Surface, last: int) {
    UnionOk(s) && Filed(s, surfaceOf) && Outlived(s) && s.deadline <= last + WINDOW + GRACE
  }

  /** The clock reading an operation makes; releasing makes none. */
  function ReadAt(op: Op, last: int): int {
    if op.OpRelease? then last else op.now
  }

  /**
   The clock does not go back, members keep their surface, and stored times are at most a minute
   ahead of the limiter.
   */
  ghost predicate Timely(op: Op, surfaceOf: Member -> Surface, last: int) {
    && Follows(op, surfaceOf) && last <= ReadAt(op, last)
    && (op.OpReconcile? ==> forall r <- op.rows :: r.createdAt <= op.now + GRACE)
  }

  lemma {:induction false} ReleaseOutlived(s: Sets, members: seq<Member>)
    requires Outlived(s)
    ensures Outlived(Release(s, members)) && Release(s, members).deadline == s.deadline
  {
    if members != [] {
      var t := Release(s, members[..|members| - 1]);
      ReleaseOutlived(s, members[..|members| - 1]);
      RemoveMembers(t.total, members[|members| - 1]);
    }
  }

  lemma StepKeepsLimiter(s: Sets, op: Op, surfaceOf: Member -> Surface, last: int)
    requires LimiterOk(s, surfaceOf, last) && Timely(op, surfaceOf, last)
    ensures LimiterOk(Step(s, op), surfaceOf, ReadAt(op, last))
  {
    StepKeepsUnion(s, op, surfaceOf);
    match op
    case OpReserve(batch, now) => ReserveOutlived(s, batch, now);
    case OpRelease(members) => ReleaseOutlived(s, members);
    case OpReconcile(rows, now) => ReconcileOutlived(rows, now, now + WINDOW + GRACE);
  }

  /** A run of timely operations. */
  ghost predicate TimelyRun(ops: seq<Op>, surfaceOf: Member -> Surface, last: int)
    decreases |ops|
  {
    ops == [] || (Timely(ops[0], surfaceOf, last) && TimelyRun(ops[1..], surfaceOf, ReadAt(ops[0], last)))
  }

  /** The last clock reading of a run. */
  function LastRead(ops: seq<Op>, last: int): int
    decreases |ops|
  {
    if ops == [] then last else LastRead(ops[1..], ReadAt(ops[0], last))
  }

  lemma {:induction false} RunKeepsLimiter(s: Sets, ops: seq<Op>, surfaceOf: Member -> Surface, last: int)
    requires LimiterOk(s, surfaceOf, last) && TimelyRun(ops, surfaceOf, last)
    ensures LimiterOk(RateScript.Run(s, ops), surfaceOf, LastRead(ops, last))
    decreases |ops|
  {
    if ops != [] {
      StepKeepsLimiter(s, ops[0], surfaceOf, last);
      RunKeepsLimiter(Step(s, ops[0]), ops[1..], surfaceOf, ReadAt(ops[0], last));
    }
  }

  /** Keys that do not exist yet. */
  function NoKeys(): Sets {
    Sets([], [], [], 0)
  }

  /**
   In every state the scripts can reach, whatever the clocks of gateway and limiter do, a refused
   fresh batch is accepted at a later time exactly when it fits every limit on its own and the hinted
   wait has passed or the keys have expired.
   */
  lemma ReachableWaitIsExact(ops: seq<Op>, surfaceOf: Member -> Surface, batch: seq<Addition>, now: int, t: int)
    requires (forall op <- ops :: Follows(op, surfaceOf)) && now <= t
    requires Fresh(RateScript.Run(NoKeys(), ops), batch) && !AcceptedAt(RateScript.Run(NoKeys(), ops), batch, now)
    ensures var s := RateScript.Run(NoKeys(), ops);
            AcceptedAt(Reserve(s, batch, now).0, batch, t) <==>
                Possible(batch) && (t >= now + Reserve(s, batch, now).1.retry || t >= s.deadline)
  {
    NoKeysAreFine(surfaceOf);
    RunKeepsUnion(NoKeys(), ops, surfaceOf);
    WaitIsExact(RateScript.Run(NoKeys(), ops), batch, now, t);
  }

  /** In every state that timely operations reach the hint alone is exact. */
  lemma TimelyWaitIsExact(ops: seq<Op>, surfaceOf: Member -> Surface, batch: seq<Addition>, now: int, t: int)
    requires TimelyRun(ops, surfaceOf, 0) && LastRead(ops, 0) <= now <= t
    requires Fresh(RateScript.Run(NoKeys(), ops), batch) && !AcceptedAt(RateScript.Run(NoKeys(), ops), batch, now)
    ensures var s := RateScript.Run(NoKeys(), ops);
            AcceptedAt(Reserve(s, batch, now).0, batch, t) <==>
                Possible(batch) && t >= now + Reserve(s, batch, now).1.retry
  {
    NoKeysAreFine(surfaceOf);
    RunKeepsLimiter(NoKeys(), ops, surfaceOf, 0);
    OutlivedWaitIsExact(RateScript.Run(NoKeys(), ops), batch, now, t);
  }

  lemma NoKeysAreFine(surfaceOf: Member -> Surface)
    ensures LimiterOk(NoKeys(), surfaceOf, 0)
  {
    forall k: Option<Surface> ensures Of(NoKeys(), k) == [] { AllLimits(k); }
  }

  // ----------------------------------------------------------------- batches that are not fresh

  ghost predicate DistinctBatch(batch: seq<Addition>) {
    forall i, j | 0 <= i < j < |batch| :: batch[i].member != batch[j].member
  }

  predicate Named(batch: seq<Addition>, k: Option<Surface>, m: Member) {
    exists a <- batch :: a.member == m && Concerns(a, k)
  }

  /** The entries up to `cutoff` that the batch does not name itself. */
  function Leaving(z: seq<Entry>, batch: seq<Addition>, k: Option<Surface>, cutoff: int): nat {
    if z == [] || z[0].score > cutoff then 0
    else Leaving(z[1..], batch, k, cutoff) + if Named(batch, k, z[0].member) then 0 else 1
  }

  lemma NamedAppended(front: seq<Addition>, last: Addition, k: Option<Surface>, m: Member)
    ensures Named(front + [last], k, m) <==> Named(front, k, m) || (last.member == m && Concerns(last, k))
  {
    if Named(front, k, m) {
      var a :| a in front && a.member == m && Concerns(a, k);
      assert a in front + [last];
    }
    assert last in front + [last];
  }

  /** Dropping the oldest entry makes it missing if the batch names it. */
  lemma {:induction false} MissingWithoutFirst(z: seq<Entry>, batch: seq<Addition>, k: Option<Surface>)
    requires z != [] && DistinctMembers(z) && DistinctBatch(batch)
    ensures Missing(z[1..], batch, k) == Missing(z, batch, k) + if Named(batch, k, z[0].member) then 1 else 0
  {
    if batch != [] {
      var front, last := batch[..|batch| - 1], batch[|batch| - 1];
      assert batch == front + [last];
      MissingWithoutFirst(z, front, k);
      NamedAppended(front, last, k, z[0].member);
      HasWithoutFirst(z, last.member);
      NotNamedBefore(batch, k);
      assert z[0] in z;
    }
  }

  lemma NotNamedBefore(batch: seq<Addition>, k: Option<Surface>)
    requires batch != [] && DistinctBatch(batch)
    ensures !Named(batch[..|batch| - 1], k, batch[|batch| - 1].member)
  {
  }

  lemma HasWithoutFirst(z: seq<Entry>, m: Member)
    requires z != [] && DistinctMembers(z)
    ensures Has(z[1..], m) <==> Has(z, m) && z[0].member != m
  {
    assert z == [z[0]] + z[1..];
    if Has(z[1..], m) {
      var e :| e in z[1..] && e.member == m;
      assert e in z;
    }
  }

  lemma {:induction false} PurgeLeaves(z: seq<Entry>, batch: seq<Addition>, k: Option<Surface>, cutoff: int)
    requires Sorted(z) && DistinctMembers(z) && DistinctBatch(batch)
    ensures |Purge(z, cutoff)| + Missing(Purge(z, cutoff), batch, k) == |z|
        + Missing(z, batch, k) - Leaving(z, batch, k, cutoff)
  {
    if z != [] && z[0].score <= cutoff {
      MissingWithoutFirst(z, batch, k);
      PurgeLeaves(z[1..], batch, k, cutoff);
    }
  }

  lemma FitsWhenEnoughLeave(p: Sets, batch: seq<Addition>, t: int)
    requires UnionOk(p) && DistinctBatch(batch)
    ensures Fits(PurgeAll(p, t), batch) <==>
        forall k: Option<Surface> :: Overflow(p, batch, k) <= Leaving(Of(p, k), batch, k, t - WINDOW)
  {
    forall k: Option<Surface>
      ensures Overflow(PurgeAll(p, t), batch, k) <= 0 <==>
          Overflow(p, batch, k) <= Leaving(Of(p, k), batch, k, t - WINDOW)
    {
      PurgedSet(p, t, k);
      PurgeLeaves(Of(p, k), batch, k, t - WINDOW);
    }
    if Fits(PurgeAll(p, t), batch) {
      forall k: Option<Surface> ensures Overflow(PurgeAll(p, t), batch, k) <= 0 { AllLimits(k); }
    }
  }

  /**
   Any batch without repeats is accepted at a later time exactly when the keys have expired and it
   fits alone, or enough entries other than its own have left every set. With t == now + hint this
   says when the hint is exact for a batch that names entries still held.
   */
  lemma AcceptedWhenEnoughLeave(s: Sets, batch: seq<Addition>, now: int, t: int)
    requires UnionOk(s) && DistinctBatch(batch) && !AcceptedAt(s, batch, now) && now <= t
    ensures var p := Reserve(s, batch, now).0;
            AcceptedAt(p, batch, t) <==>
                if t >= s.deadline then Possible(batch)
                else forall k: Option<Surface> :: Overflow(p, batch, k) <= Leaving(Of(p, k), batch, k, t - WINDOW)
  {
    RetrySees(s, batch, now, t);
    if t < s.deadline {
      PurgeAllKeepsUnion(s, now);
      FitsWhenEnoughLeave(PurgeAll(s, now), batch, t);
    }
  }

  /** Four participation items held, the oldest about to leave the window. */
  function HeldSets(): Sets {
    var held := [Entry(Member("a", "t"), 0), Entry(Member("b", "t"), 1), Entry(Member("c", "t"), 2),
                 Entry(Member("d", "t"), 3)];
    Sets(held, held, [], 2 * WINDOW)
  }

  /** One of the held items again, and a new one. */
  function HeldBatch(): seq<Addition> {
    [Addition(Member("a", "t"), Participation), Addition(Member("e", "t"), Participation)]
  }

  lemma ParticipationAlone(z: seq<Entry>, deadline: int)
    requires Sorted(z) && DistinctMembers(z)
    ensures UnionOk(Sets(z, z, [], deadline))
  {
    forall k: Option<Surface>
      ensures Sorted(Of(Sets(z, z, [], deadline), k)) && DistinctMembers(Of(Sets(z, z, [], deadline), k)) {
      AllLimits(k);
    }
  }

  lemma HeldSetsAreFine()
    ensures UnionOk(HeldSets()) && Outlived(HeldSets()) && DistinctBatch(HeldBatch())
  {
    ParticipationAlone(HeldSets().total, 2 * WINDOW);
  }

  lemma HeldBatchFits()
    ensures Possible(HeldBatch())
  {
    forall k: Option<Surface> ensures Size(HeldBatch(), k) <= Limit(k) {
      AllLimits(k);
      assert HeldBatch()[..1][..0] == [];
    }
  }

  lemma HeldOverflow(z: seq<Entry>, k: Option<Surface>)
    requires z == HeldSets().total && (k == None || k == Some(Participation))
    ensures Missing(z, HeldBatch(), k) == 1
  {
    var batch := HeldBatch();
    assert batch[..1] == [batch[0]] && batch[..1][..0] == [];
    assert z[0] in z && Has(z, batch[0].member);
    assert !Has(z, batch[1].member);
    assert Missing(z, batch[..1], k) == 0;
  }

  lemma HeldRefused()
    ensures var (p, reply) := Reserve(HeldSets(), HeldBatch(), WINDOW - 1);
            && p == HeldSets() && reply.Refused? && reply.retry == 1
            && Overflow(HeldSets(), HeldBatch(), Some(Participation)) == 1
  {
    var s, batch, now := HeldSets(), HeldBatch(), WINDOW - 1;
    HeldSetsAreFine();
    assert Live(s, now) == s;
    assert PurgeAll(s, now) == s;
    HeldOverflow(s.total, None);
    HeldOverflow(s.total, Some(Participation));
    MissingGrows([], batch, Some(Focus), 0);
    assert Overflow(s, batch, Some(Participation)) == 1;
  }

  lemma HeldLeaving()
    ensures Leaving(Of(HeldSets(), Some(Participation)), HeldBatch(), Some(Participation), 0) == 0
  {
    var z, batch := HeldSets().participation, HeldBatch();
    assert Named(batch, Some(Participation), z[0].member) by { assert batch[0] in batch; }
    assert z[1..][0].score == 1;
  }

  /** The script refuses a batch that fits every limit alone, and refuses it again after the hinted wait. */
  ghost predicate ToldTooEarly(s: Sets, batch: seq<Addition>, now: int) {
    && UnionOk(s) && Outlived(s) && Possible(batch)
    && Reserve(s, batch, now).1.Refused?
    && !AcceptedAt(Reserve(s, batch, now).0, batch, now + Reserve(s, batch, now).1.retry)
  }

  lemma TooFewLeave(s: Sets, batch: seq<Addition>, now: int, t: int, k: Option<Surface>)
    requires UnionOk(s) && DistinctBatch(batch) && !AcceptedAt(s, batch, now) && now <= t < s.deadline
    requires var p := Reserve(s, batch, now).0;
             Leaving(Of(p, k), batch, k, t - WINDOW) < Overflow(p, batch, k)
    ensures !AcceptedAt(Reserve(s, batch, now).0, batch, t)
  {
    AcceptedWhenEnoughLeave(s, batch, now, t);
  }

  lemma TooFewLeaveAtHint(s: Sets, batch: seq<Addition>, now: int, k: Option<Surface>)
    requires UnionOk(s) && Outlived(s) && Possible(batch) && DistinctBatch(batch)
    requires Reserve(s, batch, now).1.Refused? && 0 <= Reserve(s, batch, now).1.retry < s.deadline - now
    requires var (p, reply) := Reserve(s, batch, now);
             Leaving(Of(p, k), batch, k, now + reply.retry - WINDOW) < Overflow(p, batch, k)
    ensures ToldTooEarly(s, batch, now)
  {
    TooFewLeave(s, batch, now, now + Reserve(s, batch, now).1.retry, k);
  }

  /** A batch that repeats a held member can be told to come back too early. */
  lemma HintTooShortForHeldMembers()
    ensures ToldTooEarly(HeldSets(), HeldBatch(), WINDOW - 1)
  {
    HeldSetsAreFine();
    HeldBatchFits();
    HeldRefused();
    HeldLeaving();
    TooFewLeaveAtHint(HeldSets(), HeldBatch(), WINDOW - 1, Some(Participation));
  }

  // ----------------------------------------------------------------- rows from a gateway clock that runs ahead

  /** Four participation items stored by a gateway whose clock is 100 seconds ahead. */
  function AheadRows(): seq<StoredItem> {
    [StoredItem(Addition(Member("a", ""), Participation), 100001),
     StoredItem(Addition(Member("b", ""), Participation), 100001),
     StoredItem(Addition(Member("c", ""), Participation), 100001),
     StoredItem(Addition(Member("d", ""), Participation), 100001)]
  }

  function NewBatch(): seq<Addition> {
    [Addition(Member("e", "t"), Participation)]
  }

  function AheadSets(): Sets {
    var held := [Entry(Member("a", ""), 100001), Entry(Member("b", ""), 100001), Entry(Member("c", ""), 100001),
                 Entry(Member("d", ""), 100001)];
    Sets(held, held, [], 1 + WINDOW + GRACE)
  }

  lemma {:induction false} InsertLast(z: seq<Entry>, e: Entry)
    requires forall x <- z :: x.score <= e.score
    ensures Insert(z, e) == z + [e]
  {
    if z != [] { InsertLast(z[1..], e); }
  }

  /** The entries of rows stored at one time, in row order. */
  function Entries(rows: seq<StoredItem>): seq<Entry> {
    seq(|rows|, i requires 0 <= i < |rows| => Entry(rows[i].addition.member, rows[i].createdAt))
  }

  lemma EntriesAppended(rows: seq<StoredItem>)
    requires rows != [] && DistinctRows(rows)
    ensures var front, last := Entries(rows[..|rows| - 1]), rows[|rows| - 1];
            Entries(rows) == front + [Entry(last.addition.member, last.createdAt)] && !Has(front, last.addition.member)
  {
  }

  lemma AddLast(z: seq<Entry>, a: Addition, at: int, deadline: int)
    requires a.surface == Participation && !Has(z, a.member) && forall x <- z :: x.score <= at
    ensures var longer := z + [Entry(a.member, at)];
            AddOne(Sets(z, z, [], deadline), a, at) == Sets(longer, longer, [], deadline)
  {
    InsertLast(z, Entry(a.member, at));
  }

  lemma {:induction false} RebuildAtOneTime(rows: seq<StoredItem>, at: int, deadline: int)
    requires DistinctRows(rows) && forall r <- rows :: r.addition.surface == Participation && r.createdAt == at
    ensures Rebuild(rows, deadline) == Sets(Entries(rows), Entries(rows), [], deadline)
  {
    if rows != [] {
      var front, last := rows[..|rows| - 1], rows[|rows| - 1];
      RebuildAtOneTime(front, at, deadline);
      EntriesAppended(rows);
      AddLast(Entries(front), last.addition, at, deadline);
    }
  }

  lemma AheadReconciled()
    ensures DistinctRows(AheadRows()) && Reconcile(AheadRows(), 1) == AheadSets()
    ensures UnionOk(AheadSets())
  {
    RebuildAtOneTime(AheadRows(), 100001, 1 + WINDOW + GRACE);
    RebuildKeepsUnion(AheadRows(), 1 + WINDOW + GRACE);
    assert Entries(AheadRows()) == AheadSets().total;
  }

  lemma NewBatchIsFine()
    ensures Fresh(AheadSets(), NewBatch()) && Possible(NewBatch())
    ensures Size(NewBatch(), Some(Participation)) == 1 && Size(NewBatch(), Some(Focus)) == 0
  {
    forall k: Option<Surface> ensures Size(NewBatch(), k) <= Limit(k) { AllLimits(k); }
  }

  /** Nothing has left the window yet, and the participation set is one over its limit. */
  lemma AheadOverflow()
    ensures PurgeAll(AheadSets(), 1) == AheadSets()
    ensures Overflow(AheadSets(), NewBatch(), Some(Participation)) == 1
    ensures Overflow(AheadSets(), NewBatch(), None) <= 1 && Overflow(AheadSets(), NewBatch(), Some(Focus)) <= 0
  {
    NewBatchIsFine();
    FreshIsMissing(AheadSets().total, NewBatch(), None);
    FreshIsMissing(AheadSets().participation, NewBatch(), Some(Participation));
    FreshIsMissing([], NewBatch(), Some(Focus));
  }

  lemma AheadRefused()
    ensures var reply := Reserve(AheadSets(), NewBatch(), 1).1; reply.Refused? && reply.retry == WINDOW + 100000
  {
    AheadOverflow();
    assert Live(AheadSets(), 1) == AheadSets();
  }

  /**
   After reconciling rows stored ahead of the limiter's clock, a fresh batch is told to wait 40 seconds
   longer than it has to: the keys expire first.
   */
  lemma HintTooLongForRowsAhead()
    ensures var s := Reconcile(AheadRows(), 1);
            && UnionOk(s) && Fresh(s, NewBatch())
            && Reserve(s, NewBatch(), 1).1.Refused? && Reserve(s, NewBatch(), 1).1.retry == WINDOW + 100000
            && AcceptedAt(Reserve(s, NewBatch(), 1).0, NewBatch(), 1 + WINDOW + 60000)
  {
    AheadReconciled();
    NewBatchIsFine();
    AheadRefused();
    WaitIsExact(AheadSets(), NewBatch(), 1, 1 + WINDOW + 60000);
  }
}
