/** What the rate scripts store and remove, and that no window ever holds more reservations than its limits. */
module RateStored {
  import opened Common
  import opened PublishQuota
  import opened RateScript
  import opened RateWait

  // ----------------------------------------------------------------- what a reservation stores

  /** The entries of a set that a script at `now` still sees. */
  ghost predicate Kept(s: Sets, k: Option<Surface>, e: Entry, now: int) {
    e in Of(s, k) && now < s.deadline && now - 3600000 < e.score
  }

  ghost predicate KeepsMember(s: Sets, k: Option<Surface>, m: Member, now: int) {
    exists e :: Kept(s, k, e, now) && e.member == m
  }

  /** The batch adds this entry: it names the member for the set, which did not hold it. */
  ghost predicate Gains(s: Sets, batch: seq<Addition>, k: Option<Surface>, e: Entry, now: int) {
    e.score == now && Named(batch, k, e.member) && !KeepsMember(s, k, e.member, now)
  }

  lemma KeptExactly(s: Sets, k: Option<Surface>, now: int)
    requires UnionOk(s)
    ensures forall e :: e in Of(PurgeAll(Live(s, now), now), k) <==> Kept(s, k, e, now)
    ensures forall m :: Has(Of(PurgeAll(Live(s, now), now), k), m) <==> KeepsMember(s, k, m, now)
  {
    var l := Live(s, now);
    AllLimits(k);
    assert Sorted(Of(s, k)) && Of(PurgeAll(l, now), k) == Purge(Of(l, k), now - WINDOW);
    PurgeKeeps(Of(l, k), now - WINDOW);
    forall m ensures Has(Of(PurgeAll(l, now), k), m) <==> KeepsMember(s, k, m, now) {
      if Has(Of(PurgeAll(l, now), k), m) {
        var e :| e in Of(PurgeAll(l, now), k) && e.member == m;
        assert Kept(s, k, e, now);
      }
    }
  }

  lemma AddOneEntries(t: Sets, a: Addition, now: int, k: Option<Surface>)
    ensures forall e :: e in Of(AddOne(t, a, now), k) <==>
        e in Of(t, k) || (e == Entry(a.member, now) && Concerns(a, k) && !Has(Of(t, k), a.member))
  {
    AllLimits(k);
    InsertMembers(Of(t, k), Entry(a.member, now));
  }

  lemma HasEntry(z: seq<Entry>, e: Entry)
    requires e in z
    ensures Has(z, e.member)
  {
  }

  /** Adding a batch keeps every entry and adds the members that are named and not yet held. */
  lemma {:induction false} AddAllEntries(p: Sets, batch: seq<Addition>, now: int, k: Option<Surface>)
    ensures forall e :: e in Of(AddAll(p, batch, now), k) <==>
        e in Of(p, k) || (e.score == now && Named(batch, k, e.member) && !Has(Of(p, k), e.member))
  {
    if batch != [] {
      var front, last := batch[..|batch| - 1], batch[|batch| - 1];
      var t := AddAll(p, front, now);
      assert batch == front + [last];
      AddAllEntries(p, front, now, k);
      AddOneEntries(t, last, now, k);
      forall e ensures e in Of(AddAll(p, batch, now), k) <==>
          e in Of(p, k) || (e.score == now && Named(batch, k, e.member) && !Has(Of(p, k), e.member)) {
        NamedAppended(front, last, k, e.member);
        LastIsNew(p, t, front, last, now, k);
      }
    }
  }

  /** The last addition is new to the grown set exactly when it was new to the first and not named before. */
  lemma LastIsNew(p: Sets, t: Sets, front: seq<Addition>, last: Addition, now: int, k: Option<Surface>)
    requires forall e :: e in Of(t, k) <==>
        e in Of(p, k) || (e.score == now && Named(front, k, e.member) && !Has(Of(p, k), e.member))
    ensures Has(Of(t, k), last.member) <==> Has(Of(p, k), last.member) || Named(front, k, last.member)
  {
    if Has(Of(p, k), last.member) {
      var e :| e in Of(p, k) && e.member == last.member;
      assert e in Of(t, k);
    } else if Named(front, k, last.member) {
      assert Entry(last.member, now) in Of(t, k);
    }
  }

  /**
   After an allowed reservation each set holds exactly the entries still in the window and, at the
   current time, the named members it did not hold; the keys live for an hour and a minute.
   */
  lemma ReserveStores(s: Sets, batch: seq<Addition>, now: int, k: Option<Surface>)
    requires UnionOk(s) && Reserve(s, batch, now).1.Allowed?
    ensures forall e :: e in Of(Reserve(s, batch, now).0, k) <==> Kept(s, k, e, now) || Gains(s, batch, k, e, now)
    ensures Reserve(s, batch, now).0.deadline == now + 3660000
  {
    var p := PurgeAll(Live(s, now), now);
    KeptExactly(s, k, now);
    AddAllEntries(p, batch, now, k);
    AllLimits(k);
    assert Of(Reserve(s, batch, now).0, k) == Of(AddAll(p, batch, now), k);
  }

  /** A refused reservation only drops what has left the window. */
  lemma RefusalStores(s: Sets, batch: seq<Addition>, now: int, k: Option<Surface>)
    requires UnionOk(s) && Reserve(s, batch, now).1.Refused?
    ensures forall e :: e in Of(Reserve(s, batch, now).0, k) <==> Kept(s, k, e, now)
    ensures Reserve(s, batch, now).0.deadline == s.deadline
  {
    KeptExactly(s, k, now);
  }

  // ----------------------------------------------------------------- when a reservation is allowed

  /** The members of a batch that a set does not hold. */
  ghost function NewMembers(z: seq<Entry>, batch: seq<Addition>, k: Option<Surface>): set<Member> {
    set a | a in batch && Concerns(a, k) && !Has(z, a.member) :: a.member
  }

  lemma NewMembersAppended(z: seq<Entry>, front: seq<Addition>, last: Addition, k: Option<Surface>)
    ensures NewMembers(z, front + [last], k)
        == NewMembers(z, front, k) + if Concerns(last, k) && !Has(z, last.member) then {last.member} else {}
  {
    assert last in front + [last];
    forall a <- front ensures a in front + [last] {}
  }

  lemma NotNamedTwice(z: seq<Entry>, front: seq<Addition>, last: Addition, k: Option<Surface>)
    requires DistinctBatch(front + [last])
    ensures last.member !in NewMembers(z, front, k) && DistinctBatch(front)
  {
    var batch := front + [last];
    forall i | 0 <= i < |front| ensures front[i].member != last.member {
      assert batch[i] == front[i] && batch[|front|] == last;
    }
    forall i, j | 0 <= i < j < |front| ensures front[i].member != front[j].member {
      assert batch[i] == front[i] && batch[j] == front[j];
    }
  }

  lemma {:induction false} MissingIsCounted(z: seq<Entry>, batch: seq<Addition>, k: Option<Surface>)
    requires DistinctBatch(batch)
    ensures Missing(z, batch, k) == |NewMembers(z, batch, k)|
  {
    if batch != [] {
      var front, last := batch[..|batch| - 1], batch[|batch| - 1];
      assert batch == front + [last];
      NotNamedTwice(z, front, last, k);
      MissingIsCounted(z, front, k);
      NewMembersAppended(z, front, last, k);
    }
  }

  lemma {:induction false} EntriesAreCounted(z: seq<Entry>)
    requires DistinctMembers(z)
    ensures |set e | e in z| == |z|
  {
    if z != [] {
      var front, last := z[..|z| - 1], z[|z| - 1];
      assert z == front + [last];
      EntriesAreCounted(front);
      assert (set e | e in z) == (set e | e in front) + {last};
    }
  }

  /** How many entries a set still shows, and how many it would show with the batch. */
  ghost function InUse(s: Sets, k: Option<Surface>, now: int): nat {
    |set e | e in Of(s, k) && Kept(s, k, e, now)|
  }

  ghost function InUseWith(s: Sets, batch: seq<Addition>, k: Option<Surface>, now: int): nat {
    InUse(s, k, now) + |set a | a in batch && Concerns(a, k) && !KeepsMember(s, k, a.member, now) :: a.member|
  }

  lemma KeptAreCounted(s: Sets, k: Option<Surface>, now: int)
    requires UnionOk(s)
    ensures InUse(s, k, now) == |Of(PurgeAll(Live(s, now), now), k)|
  {
    var z := Of(PurgeAll(Live(s, now), now), k);
    KeptExactly(s, k, now);
    PurgedIsUnion(s, now);
    assert DistinctMembers(z);
    EntriesAreCounted(z);
    assert (set e | e in z) == (set e | e in Of(s, k) && Kept(s, k, e, now));
  }

  lemma PurgedIsUnion(s: Sets, now: int)
    requires UnionOk(s)
    ensures UnionOk(PurgeAll(Live(s, now), now))
  {
    assert UnionOk(Live(s, now));
    PurgeAllKeepsUnion(Live(s, now), now);
  }

  lemma NewAreCounted(s: Sets, batch: seq<Addition>, k: Option<Surface>, now: int)
    requires UnionOk(s) && DistinctBatch(batch)
    ensures |set a | a in batch && Concerns(a, k) && !KeepsMember(s, k, a.member, now) :: a.member|
            == Missing(Of(PurgeAll(Live(s, now), now), k), batch, k)
  {
    var z := Of(PurgeAll(Live(s, now), now), k);
    KeptExactly(s, k, now);
    MissingIsCounted(z, batch, k);
    assert NewMembers(z, batch, k)
        == (set a | a in batch && Concerns(a, k) && !KeepsMember(s, k, a.member, now) :: a.member);
  }

  lemma UseIsCounted(s: Sets, batch: seq<Addition>, k: Option<Surface>, now: int)
    requires UnionOk(s) && DistinctBatch(batch)
    ensures Overflow(PurgeAll(Live(s, now), now), batch, k) == InUseWith(s, batch, k, now) - Limit(k)
    ensures Overflow(PurgeAll(Live(s, now), now), [], k) == InUse(s, k, now) - Limit(k)
  {
    KeptAreCounted(s, k, now);
    NewAreCounted(s, batch, k, now);
  }

  /**
   A batch is allowed exactly when at most 20 items, 4 for participation and 16 for focus, would be in
   use, and the answer tells how many more there may be.
   */
  lemma AllowedExactly(s: Sets, batch: seq<Addition>, now: int)
    requires UnionOk(s) && DistinctBatch(batch)
    ensures var reply := Reserve(s, batch, now).1;
            var total, participation, focus := InUseWith(s, batch, None, now),
                InUseWith(s, batch, Some(Participation), now), InUseWith(s, batch, Some(Focus), now);
            && (reply.Allowed? <==> total <= 20 && participation <= 4 && focus <= 16)
            && (reply.Allowed? ==> reply.remaining == Remaining(20 - total, 4 - participation, 16 - focus))
    ensures var reply := Reserve(s, batch, now).1;
            var total, participation, focus := InUse(s, None, now), InUse(s, Some(Participation), now),
                InUse(s, Some(Focus), now);
            reply.Refused? ==>
              reply.remaining == Remaining(if total < 20 then 20 - total else 0,
                                           if participation < 4 then 4 - participation else 0,
                                           if focus < 16 then 16 - focus else 0)
  {
    UseIsCounted(s, batch, None, now);
    UseIsCounted(s, batch, Some(Participation), now);
    UseIsCounted(s, batch, Some(Focus), now);
  }

  // ----------------------------------------------------------------- releasing and reconciling

  /** Releasing removes exactly the named members from every set. */
  lemma {:induction false} ReleaseExactly(s: Sets, members: seq<Member>, k: Option<Surface>)
    ensures forall e :: e in Of(Release(s, members), k) <==> e in Of(s, k) && e.member !in members
    ensures Release(s, members).deadline == s.deadline
  {
    if members != [] {
      var front, last := members[..|members| - 1], members[|members| - 1];
      assert members == front + [last];
      ReleaseExactly(s, front, k);
      AllLimits(k);
      RemoveMembers(Of(Release(s, front), k), last);
    }
  }

  ghost predicate RowEntry(rows: seq<StoredItem>, k: Option<Surface>, e: Entry) {
    exists r <- rows :: Concerns(r.addition, k) && e == Entry(r.addition.member, r.createdAt)
  }

  lemma {:induction false} RebuildExactly(rows: seq<StoredItem>, deadline: int, k: Option<Surface>)
    requires DistinctRows(rows)
    ensures forall e :: e in Of(Rebuild(rows, deadline), k) <==> RowEntry(rows, k, e)
    ensures Rebuild(rows, deadline).deadline == deadline
  {
    if rows == [] {
      AllLimits(k);
    } else {
      var front, last := rows[..|rows| - 1], rows[|rows| - 1];
      var t := Rebuild(front, deadline);
      assert rows == front + [last];
      RebuildExactly(front, deadline, k);
      AddOneEntries(t, last.addition, last.createdAt, k);
      assert !Has(Of(t, k), last.addition.member);
      forall e ensures RowEntry(rows, k, e) <==>
          RowEntry(front, k, e) || (Concerns(last.addition, k) && e == Entry(last.addition.member, last.createdAt)) {
        RowEntryAppended(front, last, k, e);
      }
    }
  }

  lemma RowEntryAppended(front: seq<StoredItem>, last: StoredItem, k: Option<Surface>, e: Entry)
    ensures RowEntry(front + [last], k, e) <==>
        RowEntry(front, k, e) || (Concerns(last.addition, k) && e == Entry(last.addition.member, last.createdAt))
  {
    if RowEntry(front, k, e) {
      var r :| r in front && Concerns(r.addition, k) && e == Entry(r.addition.member, r.createdAt);
      assert r in front + [last];
    }
    assert last in front + [last];
  }

  /** Reconciling leaves exactly the stored items at their stored times, whatever was held before. */
  lemma ReconcileExactly(rows: seq<StoredItem>, now: int, k: Option<Surface>)
    requires DistinctRows(rows)
    ensures forall e :: e in Of(Reconcile(rows, now), k) <==> RowEntry(rows, k, e)
    ensures Reconcile(rows, now).deadline == now + 3660000
  {
    RebuildExactly(rows, now + WINDOW + GRACE, k);
  }

  // ----------------------------------------------------------------- reservations over runs

  /** An addition that an allowed reservation made. */
  datatype Reservation = Reservation(addition: Addition, at: int)

  datatype Reserving = Reserving(batch: seq<Addition>, now: int)

  function Made(batch: seq<Addition>, now: int): (r: seq<Reservation>)
    ensures |r| == |batch|
  {
    seq(|batch|, i requires 0 <= i < |batch| => Reservation(batch[i], now))
  }

  /** The sets and the reservations made after some requests. */
  function After(s: Sets, log: seq<Reservation>, requests: seq<Reserving>): (Sets, seq<Reservation>)
    decreases |requests|
  {
    if requests == [] then (s, log)
    else
      var (t, reply) := Reserve(s, requests[0].batch, requests[0].now);
      After(t, if reply.Allowed? then log + Made(requests[0].batch, requests[0].now) else log, requests[1..])
  }

  /** The limiter's clock does not go back, and every batch names new members, each once. */
  ghost predicate Proper(s: Sets, requests: seq<Reserving>, last: int)
    decreases |requests|
  {
    requests == []
    || (&& last <= requests[0].now && Fresh(s, requests[0].batch) && DistinctBatch(requests[0].batch)
        && Proper(Reserve(s, requests[0].batch, requests[0].now).0, requests[1..], requests[0].now))
  }

  /** Reservations that concern a limit, after `lo` and up to `hi`. */
  function Count(log: seq<Reservation>, k: Option<Surface>, lo: int, hi: int): nat {
    if log == [] then 0
    else
      var x := log[|log| - 1];
      Count(log[..|log| - 1], k, lo, hi) + if Concerns(x.addition, k) && lo < x.at <= hi then 1 else 0
  }

  /** Every reservation of the window is held, under its own time. */
  ghost predicate HeldAt(s: Sets, x: Reservation, last: int) {
    && x.at <= last && x.at + WINDOW < s.deadline
    && (last - WINDOW < x.at ==>
          forall k: Option<Surface> {:trigger Of(s, k)} ::
              Concerns(x.addition, k) ==> Entry(x.addition.member, x.at) in Of(s, k))
  }

  ghost predicate DistinctLog(log: seq<Reservation>) {
    forall i, j | 0 <= i < j < |log| :: log[i].at != log[j].at || log[i].addition.member != log[j].addition.member
  }

  ghost predicate Tracks(s: Sets, log: seq<Reservation>, last: int) {
    && UnionOk(s) && DistinctLog(log)
    && (forall x {:trigger HeldAt(s, x, last)} :: x in log ==> HeldAt(s, x, last))
  }

  /** Reservations in the hour that ends at `t`. */
  function Hourly(log: seq<Reservation>, k: Option<Surface>, t: int): nat {
    Count(log, k, t - WINDOW, t)
  }

  ghost predicate WindowsOk(log: seq<Reservation>) {
    forall k: Option<Surface>, t: int :: Hourly(log, k, t) <= Limit(k)
  }

  /** A fresh batch is consistent with what is held. */
  lemma FreshIsConsistent(p: Sets, batch: seq<Addition>)
    requires UnionOk(p) && Fresh(p, batch) && DistinctBatch(batch)
    ensures Consistent(p, batch)
  {
    forall a <- batch ensures !Has(Of(p, Some(Other(a.surface))), a.member) { TotalHas(p, a.member); }
  }

  lemma PurgedIsFresh(s: Sets, batch: seq<Addition>, now: int)
    requires UnionOk(s) && Fresh(s, batch)
    ensures Fresh(PurgeAll(Live(s, now), now), batch) && UnionOk(PurgeAll(Live(s, now), now))
  {
    KeptExactly(s, None, now);
    PurgedIsUnion(s, now);
    forall a <- batch ensures !Has(PurgeAll(Live(s, now), now).total, a.member) { NotKept(s, a.member, None, now); }
  }

  lemma StepKeepsUnionFresh(s: Sets, batch: seq<Addition>, now: int)
    requires UnionOk(s) && Fresh(s, batch) && DistinctBatch(batch)
    ensures UnionOk(Reserve(s, batch, now).0)
  {
    var p := PurgeAll(Live(s, now), now);
    PurgedIsFresh(s, batch, now);
    FreshIsConsistent(p, batch);
    AddAllKeepsUnion(p, batch, now);
    SameUnion(AddAll(p, batch, now), now + WINDOW + GRACE);
  }

  /** What was held stays held until it leaves the window. */
  lemma StaysHeld(s: Sets, batch: seq<Addition>, now: int, x: Reservation, last: int)
    requires UnionOk(s) && HeldAt(s, x, last) && last <= now
    ensures HeldAt(Reserve(s, batch, now).0, x, now)
  {
    var (t, reply) := Reserve(s, batch, now);
    forall k: Option<Surface> | Concerns(x.addition, k) && now - WINDOW < x.at
      ensures Entry(x.addition.member, x.at) in Of(t, k) {
      assert Kept(s, k, Entry(x.addition.member, x.at), now);
      if reply.Allowed? { ReserveStores(s, batch, now, k); } else { RefusalStores(s, batch, now, k); }
    }
  }

  lemma MadeIsHeld(s: Sets, batch: seq<Addition>, now: int, a: Addition)
    requires UnionOk(s) && Fresh(s, batch) && a in batch && Reserve(s, batch, now).1.Allowed?
    ensures HeldAt(Reserve(s, batch, now).0, Reservation(a, now), now)
  {
    var t := Reserve(s, batch, now).0;
    forall k: Option<Surface> | Concerns(a, k) ensures Entry(a.member, now) in Of(t, k) {
      AllLimits(k);
      ReserveStores(s, batch, now, k);
      assert Named(batch, k, a.member);
      assert !KeepsMember(s, k, a.member, now) by { NotKept(s, a.member, k, now); }
      assert Gains(s, batch, k, Entry(a.member, now), now);
    }
  }

  lemma KeptIsHeld(s: Sets, m: Member, k: Option<Surface>, now: int)
    requires UnionOk(s) && KeepsMember(s, k, m, now)
    ensures Has(s.total, m)
  {
    AllLimits(k);
    var e :| Kept(s, k, e, now) && e.member == m;
    assert e in s.total;
  }

  lemma NotKept(s: Sets, m: Member, k: Option<Surface>, now: int)
    requires UnionOk(s) && !Has(s.total, m)
    ensures !KeepsMember(s, k, m, now)
  {
    if KeepsMember(s, k, m, now) { KeptIsHeld(s, m, k, now); }
  }

  lemma MadeAppended(log: seq<Reservation>, batch: seq<Addition>, now: int, x: Reservation)
    ensures x in log + Made(batch, now) <==> x in log || (x.at == now && x.addition in batch)
  {
    if x.at == now && x.addition in batch {
      var i :| 0 <= i < |batch| && batch[i] == x.addition;
      assert Made(batch, now)[i] == x;
    }
  }

  lemma LogStaysDistinct(s: Sets, log: seq<Reservation>, batch: seq<Addition>, now: int, last: int)
    requires Tracks(s, log, last) && last <= now && Fresh(s, batch) && DistinctBatch(batch)
    ensures DistinctLog(log + Made(batch, now))
  {
    var all := log + Made(batch, now);
    forall i, j | 0 <= i < j < |all|
      ensures all[i].at != all[j].at || all[i].addition.member != all[j].addition.member {
      if i < |log| <= j && all[i].at == now {
        var x := log[i];
        assert x in log && HeldAt(s, x, last) && batch[j - |log|] in batch;
        assert Entry(x.addition.member, x.at) in Of(s, None);
        HasEntry(s.total, Entry(x.addition.member, x.at));
      }
    }
  }

  lemma {:induction false} AddAllSize(p: Sets, batch: seq<Addition>, now: int, k: Option<Surface>)
    ensures |Of(AddAll(p, batch, now), k)| <= |Of(p, k)| + Missing(Of(p, k), batch, k)
  {
    if batch != [] {
      var front, last := batch[..|batch| - 1], batch[|batch| - 1];
      AddAllSize(p, front, now, k);
      AddOneSize(AddAll(p, front, now), last, now, k);
      AddAllEntries(p, front, now, k);
      LastIsNew(p, AddAll(p, front, now), front, last, now, k);
    }
  }

  lemma AddOneSize(t: Sets, a: Addition, now: int, k: Option<Surface>)
    ensures |Of(AddOne(t, a, now), k)| == |Of(t, k)| + if Concerns(a, k) && !Has(Of(t, k), a.member) then 1 else 0
  {
    AllLimits(k);
    InsertMembers(Of(t, k), Entry(a.member, now));
  }

  lemma AllowedIsWithin(s: Sets, batch: seq<Addition>, now: int, k: Option<Surface>)
    requires Reserve(s, batch, now).1.Allowed?
    ensures |Of(Reserve(s, batch, now).0, k)| <= Limit(k)
  {
    AllLimits(k);
    AddAllSize(PurgeAll(Live(s, now), now), batch, now, k);
    assert Of(Reserve(s, batch, now).0, k) == Of(AddAll(PurgeAll(Live(s, now), now), batch, now), k);
  }

  /** The entries of the reservations of a window. */
  ghost function EntriesOf(log: seq<Reservation>, k: Option<Surface>, lo: int, hi: int): set<Entry> {
    set x | x in log && Concerns(x.addition, k) && lo < x.at <= hi :: Entry(x.addition.member, x.at)
  }

  lemma EntriesAppended(front: seq<Reservation>, x: Reservation, k: Option<Surface>, lo: int, hi: int)
    ensures EntriesOf(front + [x], k, lo, hi) == EntriesOf(front, k, lo, hi)
        + if Concerns(x.addition, k) && lo < x.at <= hi then {Entry(x.addition.member, x.at)} else {}
  {
    assert x in front + [x];
    forall y <- front ensures y in front + [x] {}
  }

  lemma NotReservedBefore(front: seq<Reservation>, x: Reservation, k: Option<Surface>, lo: int, hi: int)
    requires DistinctLog(front + [x])
    ensures Entry(x.addition.member, x.at) !in EntriesOf(front, k, lo, hi) && DistinctLog(front)
  {
    var log := front + [x];
    forall i | 0 <= i < |front| ensures Entry(front[i].addition.member, front[i].at) != Entry(x.addition.member, x.at) {
      assert log[i] == front[i] && log[|front|] == x;
    }
    forall i, j | 0 <= i < j < |front|
      ensures front[i].at != front[j].at || front[i].addition.member != front[j].addition.member {
      assert log[i] == front[i] && log[j] == front[j];
    }
  }

  lemma {:induction false} CountIsSize(log: seq<Reservation>, k: Option<Surface>, lo: int, hi: int)
    requires DistinctLog(log)
    ensures Count(log, k, lo, hi) == |EntriesOf(log, k, lo, hi)|
  {
    if log != [] {
      var front, last := log[..|log| - 1], log[|log| - 1];
      assert log == front + [last];
      NotReservedBefore(front, last, k, lo, hi);
      CountIsSize(front, k, lo, hi);
      EntriesAppended(front, last, k, lo, hi);
    }
  }

  /** A later window holds no more of what was made by `now` than the window that ends there. */
  lemma {:induction false} LaterWindow(log: seq<Reservation>, k: Option<Surface>, now: int, t: int)
    requires now <= t && forall x <- log :: x.at <= now
    ensures Count(log, k, t - WINDOW, t) <= Count(log, k, now - WINDOW, now)
  {
    if log != [] {
      assert log[|log| - 1] in log;
      LaterWindow(log[..|log| - 1], k, now, t);
    }
  }

  lemma {:induction false} EarlierWindow(log: seq<Reservation>, batch: seq<Addition>, now: int, k: Option<Surface>,
                                         lo: int, hi: int)
    requires hi < now
    ensures Count(log + Made(batch, now), k, lo, hi) == Count(log, k, lo, hi)
    decreases |batch|
  {
    if batch == [] {
      assert log + Made(batch, now) == log;
    } else {
      var front := batch[..|batch| - 1];
      var all := log + Made(batch, now);
      assert all[..|all| - 1] == log + Made(front, now);
      EarlierWindow(log, front, now, k, lo, hi);
    }
  }

  lemma HeldBoundsCount(s: Sets, log: seq<Reservation>, now: int, k: Option<Surface>)
    requires Tracks(s, log, now)
    ensures Count(log, k, now - WINDOW, now) <= |Of(s, k)|
  {
    CountIsSize(log, k, now - WINDOW, now);
    var held := set e | e in Of(s, k);
    assert DistinctMembers(Of(s, k));
    EntriesAreCounted(Of(s, k));
    forall e <- EntriesOf(log, k, now - WINDOW, now) ensures e in held {
      var x :| x in log && Concerns(x.addition, k) && now - WINDOW < x.at <= now
               && e == Entry(x.addition.member, x.at);
      assert HeldAt(s, x, now);
    }
    SubsetSize(EntriesOf(log, k, now - WINDOW, now), held);
  }

  lemma RefusalTracks(s: Sets, log: seq<Reservation>, batch: seq<Addition>, now: int, last: int)
    requires Tracks(s, log, last) && last <= now && Fresh(s, batch) && DistinctBatch(batch)
    ensures Tracks(Reserve(s, batch, now).0, log, now)
  {
    StepKeepsUnionFresh(s, batch, now);
    forall x <- log ensures HeldAt(Reserve(s, batch, now).0, x, now) {
      assert HeldAt(s, x, last);
      StaysHeld(s, batch, now, x, last);
    }
  }

  lemma AllowedTracks(s: Sets, log: seq<Reservation>, batch: seq<Addition>, now: int, last: int)
    requires Tracks(s, log, last) && last <= now && Fresh(s, batch) && DistinctBatch(batch)
    requires Reserve(s, batch, now).1.Allowed?
    ensures Tracks(Reserve(s, batch, now).0, log + Made(batch, now), now)
  {
    RefusalTracks(s, log, batch, now, last);
    LogStaysDistinct(s, log, batch, now, last);
    var t, all := Reserve(s, batch, now).0, log + Made(batch, now);
    forall x <- all ensures HeldAt(t, x, now) {
      MadeAppended(log, batch, now, x);
      if x in log { assert HeldAt(t, x, now); } else { MadeIsHeld(s, batch, now, x.addition); }
    }
  }

  lemma AllowedKeepsWindows(s: Sets, log: seq<Reservation>, batch: seq<Addition>, now: int, last: int)
    requires Tracks(s, log, last) && last <= now && Fresh(s, batch) && DistinctBatch(batch)
    requires Reserve(s, batch, now).1.Allowed? && WindowsOk(log)
    ensures WindowsOk(log + Made(batch, now))
  {
    var all := log + Made(batch, now);
    AllowedTracks(s, log, batch, now, last);
    forall k: Option<Surface>, t: int ensures Hourly(all, k, t) <= Limit(k) {
      if t < now {
        assert Hourly(log, k, t) <= Limit(k);
        EarlierWindow(log, batch, now, k, t - WINDOW, t);
      } else {
        forall x <- all ensures x.at <= now { assert HeldAt(Reserve(s, batch, now).0, x, now); }
        LaterWindow(all, k, now, t);
        HeldBoundsCount(Reserve(s, batch, now).0, all, now, k);
        AllowedIsWithin(s, batch, now, k);
      }
    }
  }

  lemma {:induction false} WindowsHoldFrom(s: Sets, log: seq<Reservation>, requests: seq<Reserving>, last: int)
    requires Tracks(s, log, last) && WindowsOk(log) && Proper(s, requests, last)
    ensures WindowsOk(After(s, log, requests).1)
    decreases |requests|
  {
    if requests != [] {
      var batch, now := requests[0].batch, requests[0].now;
      var (t, reply) := Reserve(s, batch, now);
      if reply.Allowed? {
        AllowedTracks(s, log, batch, now, last);
        AllowedKeepsWindows(s, log, batch, now, last);
        WindowsHoldFrom(t, log + Made(batch, now), requests[1..], now);
      } else {
        RefusalTracks(s, log, batch, now, last);
        WindowsHoldFrom(t, log, requests[1..], now);
      }
    }
  }

  lemma NothingReserved()
    ensures WindowsOk([])
  {
    forall k: Option<Surface>, t: int ensures Hourly([], k, t) <= Limit(k) {}
  }

  /**
   From any state of the keys, whatever batches of new members follow while nothing is released or
   reconciled, every window of an hour holds at most 20 allowed reservations, 4 for participation and
   16 for focus.
   */
  lemma WindowsHold(s: Sets, requests: seq<Reserving>, last: int, k: Option<Surface>, t: int)
    requires UnionOk(s) && Proper(s, requests, last)
    ensures var n := Count(After(s, [], requests).1, k, t - 3600000, t);
            n <= 20 && (k == Some(Participation) ==> n <= 4) && (k == Some(Focus) ==> n <= 16)
  {
    AllLimits(k);
    assert WindowsOk([]) by { NothingReserved(); }
    WindowsHoldFrom(s, [], requests, last);
    assert Hourly(After(s, [], requests).1, k, t) <= Limit(k);
  }
}
