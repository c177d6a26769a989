/** When an upload is accepted, what it answers otherwise, and what it stores. */
module UploadAnswers {
  import opened Common
  import opened PublishQuota

  // ----------------------------------------------------------------- counting rows and items

  /** The rows of an agent, for one surface or all, created at `cutoff` or later. */
  ghost function RecentRows(rows: seq<Row>, agent: int, surface: Option<Surface>, cutoff: int): set<int> {
    set i | 0 <= i < |rows| && rows[i].agent == agent && rows[i].createdAt >= cutoff
            && (surface.None? || rows[i].draft.surface == surface.value)
  }

  ghost function ItemsOn(items: seq<Draft>, surface: Option<Surface>): set<int> {
    set i | 0 <= i < |items| && (surface.None? || items[i].surface == surface.value)
  }

  lemma RecentRowsAppended(front: seq<Row>, last: Row, agent: int, surface: Option<Surface>, cutoff: int)
    ensures RecentRows(front + [last], agent, surface, cutoff) == RecentRows(front, agent, surface, cutoff)
        + if last.agent == agent && last.createdAt >= cutoff && (surface.None? || last.draft.surface == surface.value)
          then {|front|} else {}
  {
  }

  lemma {:induction false} RecentIsCounted(rows: seq<Row>, agent: int, surface: Option<Surface>, cutoff: int)
    ensures Recent(rows, agent, surface, cutoff) == |RecentRows(rows, agent, surface, cutoff)|
  {
    if rows != [] {
      var front, last := rows[..|rows| - 1], rows[|rows| - 1];
      assert rows == front + [last];
      RecentIsCounted(front, agent, surface, cutoff);
      RecentRowsAppended(front, last, agent, surface, cutoff);
    }
  }

  lemma ItemsAppended(front: seq<Draft>, last: Draft, surface: Option<Surface>)
    ensures ItemsOn(front + [last], surface)
        == ItemsOn(front, surface) + if surface.None? || last.surface == surface.value then {|front|} else {}
  {
  }

  lemma {:induction false} ItemsAreCounted(items: seq<Draft>, surface: Option<Surface>)
    ensures OfSurface(items, surface) == |ItemsOn(items, surface)|
  {
    if items != [] {
      var front, last := items[..|items| - 1], items[|items| - 1];
      assert items == front + [last];
      ItemsAreCounted(front, surface);
      ItemsAppended(front, last, surface);
    }
  }

  // ----------------------------------------------------------------- new items

  ghost predicate HasId(rows: seq<Row>, agent: int, id: string) {
    exists r <- rows :: r.agent == agent && r.draft.id == id
  }

  /** The item is stored under its id with other content. */
  ghost predicate Differs(rows: seq<Row>, agent: int, d: Draft) {
    exists r <- rows :: r.agent == agent && r.draft.id == d.id && r.draft.hash != d.hash
  }

  lemma OneHash(rows: seq<Row>, agent: int, a: Row, b: Row)
    requires UniqueIds(rows) && a in rows && b in rows && a.agent == b.agent == agent && a.draft.id == b.draft.id
    ensures a == b
  {
    var i :| 0 <= i < |rows| && rows[i] == a;
    var j :| 0 <= j < |rows| && rows[j] == b;
    assert i == j;
  }

  lemma HashesExactly(rows: seq<Row>, agent: int, d: Draft)
    requires UniqueIds(rows)
    ensures d.id in Hashes(rows, agent) <==> HasId(rows, agent, d.id)
    ensures d.id in Hashes(rows, agent) && Hashes(rows, agent)[d.id] != d.hash <==> Differs(rows, agent, d)
  {
    HashesMeaning(rows, agent);
    var hashes := Hashes(rows, agent);
    if d.id in hashes {
      assert Stored(rows, agent, d.id, hashes[d.id]);
      var r :| r in rows && r.agent == agent && r.draft.id == d.id && r.draft.hash == hashes[d.id];
      forall other <- rows | other.agent == agent && other.draft.id == d.id ensures other == r {
        OneHash(rows, agent, other, r);
      }
    }
  }

  /** `batch` lists exactly the items that are not stored yet, each once. */
  ghost predicate NewOnes(rows: seq<Row>, agent: int, items: seq<Draft>, batch: seq<Draft>) {
    DistinctIds(batch) && forall d :: d in batch <==> d in items && !HasId(rows, agent, d.id)
  }

  lemma BatchExactly(rows: seq<Row>, agent: int, items: seq<Draft>)
    requires UniqueIds(rows) && DistinctIds(items)
    ensures var batch := NewItems(items, Hashes(rows, agent));
            && (batch.None? <==> exists d <- items :: Differs(rows, agent, d))
            && (batch.Some? ==> NewOnes(rows, agent, items, batch.value))
  {
    NewItemsMeaning(items, Hashes(rows, agent));
    forall d: Draft ensures d.id in Hashes(rows, agent) <==> HasId(rows, agent, d.id)
      ensures d.id in Hashes(rows, agent) && Hashes(rows, agent)[d.id] != d.hash <==> Differs(rows, agent, d) {
      HashesExactly(rows, agent, d);
    }
  }

  // ----------------------------------------------------------------- the answers

  /** The new items and the agent's rows of the last hour stay within a limit. */
  ghost predicate FitsWithin(rows: seq<Row>, agent: int, batch: seq<Draft>, surface: Option<Surface>, now: int,
                             limit: nat) {
    |RecentRows(rows, agent, surface, now - 3600000)| + |ItemsOn(batch, surface)| <= limit
  }

  ghost predicate FitsHour(rows: seq<Row>, agent: int, batch: seq<Draft>, now: int) {
    && FitsWithin(rows, agent, batch, None, now, 20) && FitsWithin(rows, agent, batch, Some(Participation), now, 4)
    && FitsWithin(rows, agent, batch, Some(Focus), now, 16)
  }

  lemma QuotaExactly(rows: seq<Row>, agent: int, batch: seq<Draft>, now: int)
    ensures FitsQuota(rows, agent, batch, now) <==> FitsHour(rows, agent, batch, now)
  {
    forall surface: Option<Surface>
      ensures Recent(rows, agent, surface, now - WINDOW) == |RecentRows(rows, agent, surface, now - 3600000)|
      ensures OfSurface(batch, surface) == |ItemsOn(batch, surface)| {
      RecentIsCounted(rows, agent, surface, now - WINDOW);
      ItemsAreCounted(batch, surface);
    }
  }

  /** Every new item was among those reserved beforehand. */
  ghost predicate Reserved(candidates: seq<Draft>, batch: seq<Draft>) {
    forall d <- batch :: exists c <- candidates :: c.id == d.id
  }

  /**
   An upload is accepted exactly when its ids are distinct, nothing is stored otherwise, its new items
   were reserved, authorized and fit the hour, and its key is unused.
   */
  lemma AcceptedExactly(t: Table, up: Upload, candidates: seq<Draft>, authorized: bool, now: int)
    requires TableOk(t)
    ensures Publish(t, up, candidates, authorized, now).1.Accepted? <==>
        && DistinctIds(up.items) && (forall d <- up.items :: !Differs(t.rows, up.agent, d))
        && (up.agent, up.operation, up.key) !in t.receipts
        && var batch := NewItems(up.items, Hashes(t.rows, up.agent));
           && batch.Some? && Reserved(candidates, batch.value)
           && (batch.value != [] ==> authorized && FitsHour(t.rows, up.agent, batch.value, now))
    ensures !Publish(t, up, candidates, authorized, now).1.Accepted? ==>
        Publish(t, up, candidates, authorized, now).0 == t
  {
    if DistinctIds(up.items) {
      BatchExactly(t.rows, up.agent, up.items);
      var batch := NewItems(up.items, Hashes(t.rows, up.agent));
      if batch.Some? { QuotaExactly(t.rows, up.agent, batch.value, now); }
    }
  }

  /** The batch is appended at the current time, with the receipt of the upload, and nothing else changes. */
  ghost predicate Appends(t: Table, after: Table, up: Upload, batch: seq<Draft>, now: int) {
    && |after.rows| == |t.rows| + |batch| && after.rows[..|t.rows|] == t.rows
    && (forall i | 0 <= i < |batch| :: after.rows[|t.rows| + i] == Row(up.agent, batch[i], now))
    && after.receipts == t.receipts[(up.agent, up.operation, up.key) := Receipt(up.requestHash, |batch|)]
  }

  lemma StoreAppends(t: Table, up: Upload, batch: seq<Draft>, now: int)
    ensures Appends(t, Store(t, up, batch, now), up, batch, now)
  {
  }

  /** An accepted upload appends exactly its new items, and answers how many they are. */
  lemma AcceptedAppends(t: Table, up: Upload, candidates: seq<Draft>, authorized: bool, now: int)
    requires TableOk(t) && Publish(t, up, candidates, authorized, now).1.Accepted?
    ensures var (after, reply) := Publish(t, up, candidates, authorized, now);
            exists batch :: NewOnes(t.rows, up.agent, up.items, batch) && Appends(t, after, up, batch, now)
                            && reply == Accepted(|batch|)
  {
    BatchExactly(t.rows, up.agent, up.items);
    StoreAppends(t, up, NewItems(up.items, Hashes(t.rows, up.agent)).value, now);
  }

  /** The refusals of an upload whose items are distinct and consistent with what is stored. */
  lemma RefusalsExactly(t: Table, up: Upload, candidates: seq<Draft>, authorized: bool, now: int, batch: seq<Draft>)
    requires TableOk(t) && DistinctIds(up.items) && NewItems(up.items, Hashes(t.rows, up.agent)) == Some(batch)
    ensures var reply := Publish(t, up, candidates, authorized, now).1;
            var reserved, fits := Reserved(candidates, batch), batch == [] || FitsHour(t.rows, up.agent, batch, now);
            var allowed := batch == [] || authorized;
            var used := (up.agent, up.operation, up.key) in t.receipts;
            && (reply == Busy <==> !reserved)
            && (reply.RateLimited? <==> reserved && !fits) && (reply.RateLimited? ==> reply.retryAfter == 3600000)
            && (reply == SourceForbidden <==> reserved && fits && !allowed)
            && (reserved && fits && allowed && used ==> reply == StoredAnswer(t, up))
  {
    QuotaExactly(t.rows, up.agent, batch, now);
  }

  /** The answer to a conflicting upload: its own stored answer, or a conflict. */
  function StoredAnswer(t: Table, up: Upload): PublishReply {
    var k := (up.agent, up.operation, up.key);
    if k in t.receipts && t.receipts[k].requestHash == up.requestHash then Replayed(t.receipts[k].accepted)
    else ContentConflict
  }

  /** Items with repeated ids are invalid, and stored items with other content conflict. */
  lemma ConflictsExactly(t: Table, up: Upload, candidates: seq<Draft>, authorized: bool, now: int)
    requires TableOk(t)
    ensures Publish(t, up, candidates, authorized, now).1 == InvalidBatch <==>
        exists i, j :: 0 <= i < j < |up.items| && up.items[i].id == up.items[j].id
    ensures DistinctIds(up.items) && (exists d <- up.items :: Differs(t.rows, up.agent, d)) ==>
        Publish(t, up, candidates, authorized, now) == (t, StoredAnswer(t, up))
  {
    if DistinctIds(up.items) { BatchExactly(t.rows, up.agent, up.items); }
  }

  /** Reading a key first: no receipt, the stored count for the same request, a conflict for another. */
  lemma LookupExactly(t: Table, up: Upload)
    ensures var k := (up.agent, up.operation, up.key);
            && (Lookup(t, up).None? <==> k !in t.receipts)
            && (k in t.receipts ==>
                  Lookup(t, up) == Some(if t.receipts[k].requestHash == up.requestHash
                                        then Replayed(t.receipts[k].accepted) else KeyConflict))
  {
  }
}
