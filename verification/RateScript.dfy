/**
 The advisory rate limiter in front of an upload: three sorted sets of an agent (all items,
 participation, focus) that the reserve, release and reconcile scripts change.

 A sorted set is the sequence of its entries in score order; the order of equal scores plays no
 part, since only the score at a rank is read. `deadline` is when the keys expire.
 */
module RateScript {
  import opened Common
  import opened PublishQuota

  /** attentionRateMember: item hash and reservation token, empty once reconciled from the database. */
  datatype Member = Member(item: string, token: string)

  datatype Entry = Entry(member: Member, score: int)

  datatype Addition = Addition(member: Member, surface: Surface)

  datatype Sets = Sets(total: seq<Entry>, participation: seq<Entry>, focus: seq<Entry>, deadline: int)

  const GRACE: int := 60000

  /** The set that `limit` None (all items) or Some(surface) refers to. */
  function Of(s: Sets, k: Option<Surface>): seq<Entry> {
    match k
    case None => s.total
    case Some(Participation) => s.participation
    case Some(Focus) => s.focus
  }

  predicate Has(z: seq<Entry>, m: Member) {
    exists e <- z :: e.member == m
  }

  predicate Sorted(z: seq<Entry>) {
    forall i, j | 0 <= i < j < |z| :: z[i].score <= z[j].score
  }

  predicate DistinctMembers(z: seq<Entry>) {
    forall i, j | 0 <= i < j < |z| :: z[i].member != z[j].member
  }

  // ----------------------------------------------------------------- sorted-set commands

  /** ZREMRANGEBYSCORE -inf cutoff */
  function Purge(z: seq<Entry>, cutoff: int): seq<Entry> {
    if z == [] || z[0].score > cutoff then z else Purge(z[1..], cutoff)
  }

  function Insert(z: seq<Entry>, e: Entry): seq<Entry> {
    if z == [] || e.score < z[0].score then [e] + z else [z[0]] + Insert(z[1..], e)
  }

  /** ZADD NX */
  function AddNew(z: seq<Entry>, m: Member, score: int): seq<Entry> {
    if Has(z, m) then z else Insert(z, Entry(m, score))
  }

  /** ZREM */
  function Remove(z: seq<Entry>, m: Member): seq<Entry> {
    if z == [] then []
    else if z[0].member == m then Remove(z[1..], m)
    else [z[0]] + Remove(z[1..], m)
  }

  // ----------------------------------------------------------------- the scripts

  predicate Concerns(a: Addition, k: Option<Surface>) {
    k.None? || a.surface == k.value
  }

  /** The additions of a batch that a set does not hold yet, as the script counts them. */
  function Missing(z: seq<Entry>, batch: seq<Addition>, k: Option<Surface>): nat {
    if batch == [] then 0
    else
      var last := batch[|batch| - 1];
      Missing(z, batch[..|batch| - 1], k) + if Concerns(last, k) && !Has(z, last.member) then 1 else 0
  }

  function PurgeAll(s: Sets, now: int): Sets {
    s.(total := Purge(s.total, now - WINDOW), participation := Purge(s.participation, now - WINDOW),
       focus := Purge(s.focus, now - WINDOW))
  }

  function AddOne(s: Sets, a: Addition, score: int): Sets {
    var t := s.(total := AddNew(s.total, a.member, score));
    if a.surface == Participation then t.(participation := AddNew(t.participation, a.member, score))
    else t.(focus := AddNew(t.focus, a.member, score))
  }

  function AddAll(s: Sets, batch: seq<Addition>, now: int): Sets {
    if batch == [] then s else AddOne(AddAll(s, batch[..|batch| - 1], now), batch[|batch| - 1], now)
  }

  /** How far over its limit the batch would bring a purged set; not positive when it fits. */
  function Overflow(p: Sets, batch: seq<Addition>, k: Option<Surface>): int {
    |Of(p, k)| + Missing(Of(p, k), batch, k) - Limit(k)
  }

  predicate Fits(p: Sets, batch: seq<Addition>) {
    Overflow(p, batch, None) <= 0 && Overflow(p, batch, Some(Participation)) <= 0
        && Overflow(p, batch, Some(Focus)) <= 0
  }

  /** include_retry: when the overflow-th oldest entry leaves the window. */
  function WaitFor(p: Sets, batch: seq<Addition>, k: Option<Surface>, now: int): Option<int> {
    var over := Overflow(p, batch, k);
    if 0 < over <= |Of(p, k)| then Some(WINDOW - (now - Of(p, k)[over - 1].score)) else None
  }

  function Later(a: Option<int>, b: Option<int>): Option<int> {
    if a.None? then b else if b.None? then a else Some(if a.value < b.value then b.value else a.value)
  }

  function Retry(p: Sets, batch: seq<Addition>, now: int): int {
    var wait := Later(Later(WaitFor(p, batch, None, now), WaitFor(p, batch, Some(Participation), now)),
                      WaitFor(p, batch, Some(Focus), now));
    if wait.None? then WINDOW else if wait.value < 1 then 1 else wait.value
  }

  datatype Remaining = Remaining(total: nat, participation: nat, focus: nat)

  datatype RateReply = Allowed(remaining: Remaining) | Refused(retry: int, remaining: Remaining)

  function Left(limit: int, used: int): nat {
    if limit > used then limit - used else 0
  }

  function RemainingAfter(p: Sets, batch: seq<Addition>): Remaining {
    Remaining(Left(0, Overflow(p, batch, None)), Left(0, Overflow(p, batch, Some(Participation))),
              Left(0, Overflow(p, batch, Some(Focus))))
  }

  /** What a command sees: expired keys are gone. */
  function Live(s: Sets, now: int): Sets {
    if now >= s.deadline then Sets([], [], [], s.deadline) else s
  }

  /** attentionRateScript */
  function Reserve(s: Sets, batch: seq<Addition>, now: int): (Sets, RateReply) {
    var p := PurgeAll(Live(s, now), now);
    if Fits(p, batch) then (AddAll(p, batch, now).(deadline := now + WINDOW + GRACE), Allowed(RemainingAfter(p, batch)))
    else (p, Refused(Retry(p, batch, now), RemainingAfter(p, [])))
  }

  /** attentionRateReleaseScript */
  function Release(s: Sets, members: seq<Member>): Sets {
    if members == [] then s
    else
      var t := Release(s, members[..|members| - 1]);
      var m := members[|members| - 1];
      t.(total := Remove(t.total, m), participation := Remove(t.participation, m), focus := Remove(t.focus, m))
  }

  /** A stored item as the reconcile script receives it. */
  datatype StoredItem = StoredItem(addition: Addition, createdAt: int)

  function Rebuild(rows: seq<StoredItem>, deadline: int): Sets {
    if rows == [] then Sets([], [], [], deadline)
    else AddOne(Rebuild(rows[..|rows| - 1], deadline), rows[|rows| - 1].addition, rows[|rows| - 1].createdAt)
  }

  /** attentionRateReconcileScript; its rows have distinct members, so ZADD never meets an old score. */
  function Reconcile(rows: seq<StoredItem>, now: int): Sets {
    Rebuild(rows, now + WINDOW + GRACE)
  }

  // ----------------------------------------------------------------- the total set is the union of the surfaces

  function Other(surface: Surface): Surface {
    if surface == Participation then Focus else Participation
  }

  /** The total set is the disjoint union of the surface sets, with equal scores. */
  ghost predicate UnionOk(s: Sets) {
    && (forall k: Option<Surface> {:trigger Of(s, k)} :: Sorted(Of(s, k)) && DistinctMembers(Of(s, k)))
    && (forall e :: e in s.total <==> e in s.participation || e in s.focus)
    && (forall m :: !(Has(s.participation, m) && Has(s.focus, m)))
  }

  lemma {:induction false} PurgeMeaning(z: seq<Entry>, cutoff: int)
    requires Sorted(z)
    ensures var n := |z| - |Purge(z, cutoff)|;
            && 0 <= n && Purge(z, cutoff) == z[n..]
            && (forall i | 0 <= i < n :: z[i].score <= cutoff)
            && (forall i | n <= i < |z| :: z[i].score > cutoff)
  {
    if z != [] && z[0].score <= cutoff {
      PurgeMeaning(z[1..], cutoff);
      var n := |z| - |Purge(z, cutoff)|;
      assert z[1..][n - 1..] == z[n..];
      forall i | 0 <= i < n ensures z[i].score <= cutoff { assert i > 0 ==> z[i] == z[1..][i - 1]; }
      forall i | n <= i < |z| ensures z[i].score > cutoff { assert z[i] == z[1..][i - 1]; }
    }
  }

  lemma PurgeKeeps(z: seq<Entry>, cutoff: int)
    requires Sorted(z)
    ensures Sorted(Purge(z, cutoff)) && (DistinctMembers(z) ==> DistinctMembers(Purge(z, cutoff)))
    ensures forall e :: e in Purge(z, cutoff) <==> e in z && e.score > cutoff
  {
    PurgeMeaning(z, cutoff);
    var n := |z| - |Purge(z, cutoff)|;
    forall e ensures e in Purge(z, cutoff) <==> e in z && e.score > cutoff {
      if e in z && e.score > cutoff {
        var i :| 0 <= i < |z| && z[i] == e;
        assert z[n..][i - n] == e;
      }
    }
  }

  lemma PurgeAllKeepsUnion(s: Sets, now: int)
    requires UnionOk(s)
    ensures UnionOk(PurgeAll(s, now))
  {
    var p := PurgeAll(s, now);
    forall k: Option<Surface>
      ensures Sorted(Of(p, k)) && DistinctMembers(Of(p, k))
      ensures forall e :: e in Of(p, k) <==> e in Of(s, k) && e.score > now - WINDOW {
      assert Of(p, k) == Purge(Of(s, k), now - WINDOW);
      PurgeKeeps(Of(s, k), now - WINDOW);
    }
    assert Of(p, None) == p.total && Of(p, Some(Participation)) == p.participation && Of(p, Some(Focus)) == p.focus;
    forall m ensures !(Has(p.participation, m) && Has(p.focus, m)) {
      if Has(p.participation, m) && Has(p.focus, m) { assert Has(s.participation, m) && Has(s.focus, m); }
    }
  }

  lemma {:induction false} InsertMembers(z: seq<Entry>, e: Entry)
    ensures |Insert(z, e)| == |z| + 1
    ensures forall x :: x in Insert(z, e) <==> x == e || x in z
  {
    if z != [] && e.score >= z[0].score {
      InsertMembers(z[1..], e);
      assert z == [z[0]] + z[1..];
    }
  }

  lemma {:induction false} InsertSorted(z: seq<Entry>, e: Entry)
    requires Sorted(z)
    ensures Sorted(Insert(z, e))
  {
    if z != [] && e.score >= z[0].score {
      InsertSorted(z[1..], e);
      InsertMembers(z[1..], e);
      var r := Insert(z[1..], e);
      forall i | 0 <= i < |r| ensures z[0].score <= r[i].score { assert r[i] in r; }
    }
  }

  lemma {:induction false} InsertDistinct(z: seq<Entry>, e: Entry)
    requires DistinctMembers(z) && !Has(z, e.member)
    ensures DistinctMembers(Insert(z, e))
  {
    if z != [] && e.score >= z[0].score {
      assert !Has(z[1..], e.member);
      InsertDistinct(z[1..], e);
      InsertMembers(z[1..], e);
      var r := Insert(z[1..], e);
      forall i | 0 <= i < |r| ensures z[0].member != r[i].member { assert r[i] in r; }
    } else {
      forall i | 0 <= i < |z| ensures z[i].member != e.member { assert z[i] in z; }
    }
  }

  lemma AddNewKeeps(z: seq<Entry>, m: Member, score: int)
    requires Sorted(z) && DistinctMembers(z)
    ensures Sorted(AddNew(z, m, score)) && DistinctMembers(AddNew(z, m, score))
    ensures forall x :: x in AddNew(z, m, score) <==> x in z || (!Has(z, m) && x == Entry(m, score))
    ensures forall other :: Has(AddNew(z, m, score), other) <==> Has(z, other) || other == m
  {
    InsertMembers(z, Entry(m, score));
    InsertSorted(z, Entry(m, score));
    if !Has(z, m) { InsertDistinct(z, Entry(m, score)); }
    assert !Has(z, m) ==> Entry(m, score) in AddNew(z, m, score);
    forall other ensures Has(AddNew(z, m, score), other) <==> Has(z, other) || other == m {
      if Has(z, other) {
        var e :| e in z && e.member == other;
        assert e in AddNew(z, m, score);
      }
    }
  }

  lemma AllLimits(k: Option<Surface>)
    ensures k == None || k == Some(Participation) || k == Some(Focus)
  {
    match k
    case None =>
    case Some(Participation) =>
    case Some(Focus) =>
  }

  lemma AddOneHas(s: Sets, a: Addition, score: int)
    requires UnionOk(s)
    ensures forall k: Option<Surface> {:trigger Of(AddOne(s, a, score), k)} ::
              var z := Of(AddOne(s, a, score), k);
              && z == (if Concerns(a, k) then AddNew(Of(s, k), a.member, score) else Of(s, k))
              && Sorted(z) && DistinctMembers(z)
    ensures forall k: Option<Surface>, m ::
        Has(Of(AddOne(s, a, score), k), m) <==> Has(Of(s, k), m) || (m == a.member && Concerns(a, k))
  {
    forall k: Option<Surface>
      ensures Of(AddOne(s, a, score), k) == if Concerns(a, k) then AddNew(Of(s, k), a.member, score) else Of(s, k) {
      AllLimits(k);
    }
    forall k: Option<Surface>
      ensures Sorted(Of(AddOne(s, a, score), k)) && DistinctMembers(Of(AddOne(s, a, score), k))
      ensures forall m :: Has(Of(AddOne(s, a, score), k), m) <==> Has(Of(s, k), m) || (m == a.member && Concerns(a, k))
    {
      AddNewKeeps(Of(s, k), a.member, score);
    }
  }

  /** Adding an item keeps the union exactly when the other surface does not hold the same member. */
  lemma AddOneKeepsUnion(s: Sets, a: Addition, score: int)
    requires UnionOk(s)
    ensures UnionOk(AddOne(s, a, score)) <==> !Has(Of(s, Some(Other(a.surface))), a.member)
    ensures forall k: Option<Surface>, m ::
        Has(Of(AddOne(s, a, score), k), m) <==> Has(Of(s, k), m) || (m == a.member && Concerns(a, k))
  {
    var t := AddOne(s, a, score);
    AddOneHas(s, a, score);
    TotalHas(s, a.member);
    assert Of(t, None) == t.total && Of(t, Some(Participation)) == t.participation && Of(t, Some(Focus)) == t.focus;
    if Has(Of(s, Some(Other(a.surface))), a.member) {
      assert Has(t.participation, a.member) && Has(t.focus, a.member);
    } else {
      AddNewKeeps(s.total, a.member, score);
      AddNewKeeps(Of(s, Some(a.surface)), a.member, score);
      assert Has(s.total, a.member) <==> Has(Of(s, Some(a.surface)), a.member);
    }
  }

  lemma TotalHas(s: Sets, m: Member)
    requires UnionOk(s)
    ensures Has(s.total, m) <==> Has(s.participation, m) || Has(s.focus, m)
  {
    if Has(s.total, m) {
      var e :| e in s.total && e.member == m;
      assert e in s.participation || e in s.focus;
    }
  }

  /** No member of the batch is filed under both surfaces, in the batch or in the sets. */
  ghost predicate Consistent(s: Sets, batch: seq<Addition>) {
    && (forall a <- batch :: !Has(Of(s, Some(Other(a.surface))), a.member))
    && (forall a <- batch, b <- batch :: a.member == b.member ==> a.surface == b.surface)
  }

  lemma {:induction false} AddAllKeepsUnion(s: Sets, batch: seq<Addition>, now: int)
    requires UnionOk(s) && Consistent(s, batch)
    ensures UnionOk(AddAll(s, batch, now))
    ensures forall k: Option<Surface>, m ::
        Has(Of(AddAll(s, batch, now), k), m) ==> Has(Of(s, k), m) || exists a <- batch ::
            a.member == m && Concerns(a, k)
  {
    if batch != [] {
      var front, last := batch[..|batch| - 1], batch[|batch| - 1];
      assert batch == front + [last];
      AddAllKeepsUnion(s, front, now);
      var t := AddAll(s, front, now);
      assert !Has(Of(t, Some(Other(last.surface))), last.member);
      AddOneKeepsUnion(t, last, now);
    }
  }

  lemma {:induction false} RemoveMembers(z: seq<Entry>, m: Member)
    ensures forall e :: e in Remove(z, m) <==> e in z && e.member != m
  {
    if z != [] {
      RemoveMembers(z[1..], m);
      assert z == [z[0]] + z[1..];
    }
  }

  lemma {:induction false} RemoveSorted(z: seq<Entry>, m: Member)
    requires Sorted(z)
    ensures Sorted(Remove(z, m))
  {
    if z != [] {
      RemoveSorted(z[1..], m);
      RemoveMembers(z[1..], m);
      var r := Remove(z[1..], m);
      forall i | 0 <= i < |r| ensures z[0].score <= r[i].score { assert r[i] in r; }
    }
  }

  lemma {:induction false} RemoveDistinct(z: seq<Entry>, m: Member)
    requires DistinctMembers(z)
    ensures DistinctMembers(Remove(z, m))
  {
    if z != [] {
      RemoveDistinct(z[1..], m);
      RemoveMembers(z[1..], m);
      var r := Remove(z[1..], m);
      forall i | 0 <= i < |r| ensures z[0].member != r[i].member { assert r[i] in r; }
    }
  }

  lemma {:induction false} ReleaseKeepsUnion(s: Sets, members: seq<Member>)
    requires UnionOk(s)
    ensures UnionOk(Release(s, members))
    ensures forall k: Option<Surface>, m :: Has(Of(Release(s, members), k), m) ==> Has(Of(s, k), m)
  {
    if members != [] {
      var t := Release(s, members[..|members| - 1]);
      var m := members[|members| - 1];
      ReleaseKeepsUnion(s, members[..|members| - 1]);
      var u := Release(s, members);
      forall k: Option<Surface>
        ensures Sorted(Of(u, k)) && DistinctMembers(Of(u, k))
        ensures forall e :: e in Of(u, k) <==> e in Of(t, k) && e.member != m {
        assert Of(u, k) == Remove(Of(t, k), m);
        RemoveMembers(Of(t, k), m);
        RemoveSorted(Of(t, k), m);
        RemoveDistinct(Of(t, k), m);
      }
      assert Of(u, None) == u.total && Of(u, Some(Participation)) == u.participation && Of(u, Some(Focus)) == u.focus;
      forall other ensures !(Has(u.participation, other) && Has(u.focus, other)) {
        if Has(u.participation, other) && Has(u.focus, other) {
          assert Has(t.participation, other) && Has(t.focus, other);
        }
      }
    }
  }

  ghost predicate DistinctRows(rows: seq<StoredItem>) {
    forall i, j | 0 <= i < j < |rows| :: rows[i].addition.member != rows[j].addition.member
  }

  lemma {:induction false} RebuildKeepsUnion(rows: seq<StoredItem>, deadline: int)
    requires DistinctRows(rows)
    ensures UnionOk(Rebuild(rows, deadline))
    ensures forall k: Option<Surface>, m ::
        Has(Of(Rebuild(rows, deadline), k), m) ==> exists r <- rows :: r.addition.member == m && Concerns(r.addition, k)
  {
    if rows != [] {
      var front, last := rows[..|rows| - 1], rows[|rows| - 1];
      assert rows == front + [last];
      RebuildKeepsUnion(front, deadline);
      AddOneKeepsUnion(Rebuild(front, deadline), last.addition, last.createdAt);
    }
  }

  // ----------------------------------------------------------------- runs of the scripts

  datatype Op =
    | OpReserve(batch: seq<Addition>, now: int)
    | OpRelease(members: seq<Member>)
    | OpReconcile(rows: seq<StoredItem>, now: int)

  function Step(s: Sets, op: Op): Sets {
    match op
    case OpReserve(batch, now) => Reserve(s, batch, now).0
    case OpRelease(members) => Release(s, members)
    case OpReconcile(rows, now) => Reconcile(rows, now)
  }

  function Run(s: Sets, ops: seq<Op>): Sets
    decreases |ops|
  {
    if ops == [] then s else Run(Step(s, ops[0]), ops[1..])
  }

  /** Every held member is filed under the surface it belongs to. */
  ghost predicate Filed(s: Sets, surfaceOf: Member -> Surface) {
    forall k: Option<Surface>, m :: Has(Of(s, k), m) && k.Some? ==> surfaceOf(m) == k.value
  }

  /**
   The operation files members under the surface they belong to. A reservation token is drawn for
   one batch and a stored item has one surface, so there is such an assignment for all operations.
   */
  ghost predicate Follows(op: Op, surfaceOf: Member -> Surface) {
    match op
    case OpReserve(batch, _) => forall a <- batch :: a.surface == surfaceOf(a.member)
    case OpRelease(_) => true
    case OpReconcile(rows, _) =>
      DistinctRows(rows) && forall r <- rows :: r.addition.surface == surfaceOf(r.addition.member)
  }

  lemma ReserveKeepsUnion(s: Sets, batch: seq<Addition>, now: int, surfaceOf: Member -> Surface)
    requires UnionOk(s) && Filed(s, surfaceOf) && forall a <- batch :: a.surface == surfaceOf(a.member)
    ensures UnionOk(Reserve(s, batch, now).0) && Filed(Reserve(s, batch, now).0, surfaceOf)
  {
    var p := PurgeAll(Live(s, now), now);
    LiveFiled(s, now, surfaceOf);
    assert Consistent(p, batch);
    AddAllKeepsUnion(p, batch, now);
    SameUnion(AddAll(p, batch, now), now + WINDOW + GRACE);
  }

  lemma LiveFiled(s: Sets, now: int, surfaceOf: Member -> Surface)
    requires UnionOk(s) && Filed(s, surfaceOf)
    ensures UnionOk(PurgeAll(Live(s, now), now)) && Filed(PurgeAll(Live(s, now), now), surfaceOf)
  {
    var l := Live(s, now);
    assert UnionOk(l);
    PurgeAllKeepsUnion(l, now);
    var p := PurgeAll(l, now);
    forall k: Option<Surface>, m | Has(Of(p, k), m) && k.Some? ensures surfaceOf(m) == k.value {
      AllLimits(k);
      PurgeKeeps(Of(l, k), now - WINDOW);
      assert Has(Of(s, k), m);
    }
  }

  lemma SameUnion(s: Sets, deadline: int)
    requires UnionOk(s)
    ensures UnionOk(s.(deadline := deadline))
    ensures forall k: Option<Surface> :: Of(s.(deadline := deadline), k) == Of(s, k)
  {
    forall k: Option<Surface> ensures Of(s.(deadline := deadline), k) == Of(s, k) {}
  }

  lemma StepKeepsUnion(s: Sets, op: Op, surfaceOf: Member -> Surface)
    requires UnionOk(s) && Filed(s, surfaceOf) && Follows(op, surfaceOf)
    ensures UnionOk(Step(s, op)) && Filed(Step(s, op), surfaceOf)
  {
    match op
    case OpReserve(batch, now) => ReserveKeepsUnion(s, batch, now, surfaceOf);
    case OpRelease(members) => ReleaseKeepsUnion(s, members);
    case OpReconcile(rows, now) => ReconcileKeepsUnion(rows, now, surfaceOf);
  }

  lemma ReconcileKeepsUnion(rows: seq<StoredItem>, now: int, surfaceOf: Member -> Surface)
    requires DistinctRows(rows) && forall r <- rows :: r.addition.surface == surfaceOf(r.addition.member)
    ensures UnionOk(Reconcile(rows, now)) && Filed(Reconcile(rows, now), surfaceOf)
  {
    RebuildKeepsUnion(rows, now + WINDOW + GRACE);
    var s := Reconcile(rows, now);
    forall k: Option<Surface>, m | Has(Of(s, k), m) && k.Some? ensures surfaceOf(m) == k.value {
      var r :| r in rows && r.addition.member == m && Concerns(r.addition, k);
    }
  }

  /** Over any run of the three scripts the total set stays the disjoint union of the surfaces. */
  lemma {:induction false} RunKeepsUnion(s: Sets, ops: seq<Op>, surfaceOf: Member -> Surface)
    requires UnionOk(s) && Filed(s, surfaceOf) && forall op <- ops :: Follows(op, surfaceOf)
    ensures UnionOk(Run(s, ops)) && Filed(Run(s, ops), surfaceOf)
    decreases |ops|
  {
    if ops != [] {
      assert ops[0] in ops;
      StepKeepsUnion(s, ops[0], surfaceOf);
      RunKeepsUnion(Step(s, ops[0]), ops[1..], surfaceOf);
    }
  }
}
