/**
 The authoritative transaction of an attention upload: deduplication against stored items, the
 hourly quotas, and the idempotency receipt. Gateway clocks are arbitrary, so commits need not be
 in clock order.
 */
module PublishQuota {
  import opened Common

  datatype Surface = Participation | Focus

  /** One item of an upload; `hash` is its payload hash, which covers every other field. */
  datatype Draft = Draft(id: string, surface: Surface, hash: string)

  datatype Row = Row(agent: int, draft: Draft, createdAt: int)

  datatype Receipt = Receipt(requestHash: string, accepted: nat)

  datatype Table = Table(rows: seq<Row>, receipts: map<(int, string, string), Receipt>)

  const WINDOW: int := 60 * 60 * 1000

  /** The hourly limit of a surface, or of all items. */
  function Limit(surface: Option<Surface>): nat {
    match surface
    case None => 20
    case Some(Participation) => 4
    case Some(Focus) => 16
  }

  // ----------------------------------------------------------------- counting

  predicate Counted(r: Row, agent: int, surface: Option<Surface>) {
    r.agent == agent && (surface.Some? ==> r.draft.surface == surface.value)
  }

  /** Rows of an agent created at or after `cutoff`. */
  function Recent(rows: seq<Row>, agent: int, surface: Option<Surface>, cutoff: int): nat {
    if rows == [] then 0
    else
      var last := rows[|rows| - 1];
      Recent(rows[..|rows| - 1], agent, surface, cutoff) + if Counted(last, agent, surface) && last.createdAt >= cutoff
          then 1 else 0
  }

  /** Rows of an agent created in the closed interval from `lo` to `hi`. */
  function Within(rows: seq<Row>, agent: int, surface: Option<Surface>, lo: int, hi: int): nat {
    if rows == [] then 0
    else
      var last := rows[|rows| - 1];
      Within(rows[..|rows| - 1], agent, surface, lo, hi) + if Counted(last, agent, surface)
          && lo <= last.createdAt <= hi then 1 else 0
  }

  function OfSurface(items: seq<Draft>, surface: Option<Surface>): nat {
    if items == [] then 0
    else
      var last := items[|items| - 1];
      OfSurface(items[..|items| - 1], surface) + if surface.Some? ==> last.surface == surface.value then 1 else 0
  }

  // ----------------------------------------------------------------- the batch

  /** Stored hashes by client item id; a later row would overwrite an earlier one. */
  function Hashes(rows: seq<Row>, agent: int): map<string, string> {
    if rows == [] then map[]
    else
      var last := rows[|rows| - 1];
      var before := Hashes(rows[..|rows| - 1], agent);
      if last.agent == agent then before[last.draft.id := last.draft.hash] else before
  }

  /** The items that are not stored yet; None when one is stored with other content. */
  function NewItems(items: seq<Draft>, hashes: map<string, string>): Option<seq<Draft>> {
    if items == [] then Some([])
    else
      var last := items[|items| - 1];
      var before := NewItems(items[..|items| - 1], hashes);
      if before.None? || (last.id in hashes && hashes[last.id] != last.hash) then None
      else if last.id in hashes then before
      else Some(before.value + [last])
  }

  predicate ContainsAll(candidates: seq<Draft>, actual: seq<Draft>) {
    forall d <- actual :: exists c <- candidates :: c.id == d.id
  }

  predicate DistinctIds(items: seq<Draft>) {
    forall i, j | 0 <= i < j < |items| :: items[i].id != items[j].id
  }

  function RowsFor(agent: int, items: seq<Draft>, now: int): (r: seq<Row>)
    ensures |r| == |items|
  {
    seq(|items|, i requires 0 <= i < |items| => Row(agent, items[i], now))
  }

  // ----------------------------------------------------------------- the transaction

  datatype Upload = Upload(agent: int, operation: string, key: string, requestHash: string, items: seq<Draft>)

  datatype PublishReply =
    | Accepted(accepted: nat)
    | Replayed(accepted: nat)
    | KeyConflict
    | ContentConflict
    | InvalidBatch
    | Busy
    | RateLimited(retryAfter: int)
    | SourceForbidden

  /** loadIdempotentResponseFrom */
  function Lookup(t: Table, up: Upload): Option<PublishReply> {
    var k := (up.agent, up.operation, up.key);
    if k !in t.receipts then None
    else if t.receipts[k].requestHash != up.requestHash then Some(KeyConflict)
    else Some(Replayed(t.receipts[k].accepted))
  }

  predicate FitsLimit(rows: seq<Row>, agent: int, items: seq<Draft>, surface: Option<Surface>, now: int) {
    Recent(rows, agent, surface, now - WINDOW) + OfSurface(items, surface) <= Limit(surface)
  }

  predicate FitsQuota(rows: seq<Row>, agent: int, items: seq<Draft>, now: int) {
    && FitsLimit(rows, agent, items, None, now)
    && FitsLimit(rows, agent, items, Some(Participation), now)
    && FitsLimit(rows, agent, items, Some(Focus), now)
  }

  /** The reply to a conflict in the transaction: the stored answer if the key belongs to this very request. */
  function ConflictReply(t: Table, up: Upload): PublishReply {
    var found := Lookup(t, up);
    if found.Some? && found.value.Replayed? then found.value else ContentConflict
  }

  /** Why the transaction refuses the new items of an upload; None when it stores them. */
  function Refusal(t: Table, up: Upload, batch: seq<Draft>, candidates: seq<Draft>, authorized: bool,
                   now: int): Option<PublishReply> {
    if !ContainsAll(candidates, batch) then Some(Busy)
    else if batch != [] && !FitsQuota(t.rows, up.agent, batch, now) then Some(RateLimited(WINDOW))
    else if batch != [] && !authorized then Some(SourceForbidden)
    else if (up.agent, up.operation, up.key) in t.receipts then Some(ConflictReply(t, up))
    else None
  }

  function Store(t: Table, up: Upload, batch: seq<Draft>, now: int): Table {
    Table(t.rows + RowsFor(up.agent, batch, now),
          t.receipts[(up.agent, up.operation, up.key) := Receipt(up.requestHash, |batch|)])
  }

  /**
   The write transaction of publishAttentionItemsForPhase. `candidates` are the items reserved
   from an earlier read; `authorized` stands for the source and context checks.
   */
  function Publish(t: Table, up: Upload, candidates: seq<Draft>, authorized: bool, now: int): (Table, PublishReply) {
    var batch := NewItems(up.items, Hashes(t.rows, up.agent));
    if !DistinctIds(up.items) then (t, InvalidBatch)
    else if batch.None? then (t, ConflictReply(t, up))
    else
      var refusal := Refusal(t, up, batch.value, candidates, authorized, now);
      if refusal.Some? then (t, refusal.value)
      else (Store(t, up, batch.value, now), Accepted(|batch.value|))
  }

  // ----------------------------------------------------------------- what the helpers compute

  ghost predicate Stored(rows: seq<Row>, agent: int, id: string, hash: string) {
    exists r <- rows :: r.agent == agent && r.draft.id == id && r.draft.hash == hash
  }

  lemma {:induction false} HashesMeaning(rows: seq<Row>, agent: int)
    ensures forall id <- Hashes(rows, agent) :: Stored(rows, agent, id, Hashes(rows, agent)[id])
    ensures forall r <- rows :: r.agent == agent ==> r.draft.id in Hashes(rows, agent)
  {
    if rows != [] {
      var front, last := rows[..|rows| - 1], rows[|rows| - 1];
      HashesMeaning(front, agent);
      assert rows == front + [last];
      forall id <- Hashes(rows, agent) ensures Stored(rows, agent, id, Hashes(rows, agent)[id]) {
        if last.agent == agent && last.draft.id == id {
          assert last in rows;
        } else {
          assert Stored(front, agent, id, Hashes(front, agent)[id]);
        }
      }
    }
  }

  /**
   The batch splits into stored items, with the same content, and new ones; a conflict is an item
   stored otherwise.
   */
  lemma {:induction false} NewItemsMeaning(items: seq<Draft>, hashes: map<string, string>)
    ensures NewItems(items, hashes).None? <==> exists d <- items :: d.id in hashes && hashes[d.id] != d.hash
    ensures NewItems(items, hashes).Some? ==> forall d ::
        d in NewItems(items, hashes).value <==> d in items && d.id !in hashes
    ensures NewItems(items, hashes).Some? && DistinctIds(items) ==> DistinctIds(NewItems(items, hashes).value)
  {
    if items != [] {
      var front, last := items[..|items| - 1], items[|items| - 1];
      assert items == front + [last];
      NewItemsMeaning(front, hashes);
      if NewItems(front, hashes).None? {
        var d :| d in front && d.id in hashes && hashes[d.id] != d.hash;
        assert d in items;
      } else if last.id in hashes && hashes[last.id] != last.hash {
        assert last in items;
      }
    }
  }

  lemma {:induction false} WithinIsRecent(rows: seq<Row>, agent: int, surface: Option<Surface>, lo: int, hi: int,
                                          cutoff: int)
    requires cutoff <= lo
    ensures Within(rows, agent, surface, lo, hi) <= Recent(rows, agent, surface, cutoff)
  {
    if rows != [] { WithinIsRecent(rows[..|rows| - 1], agent, surface, lo, hi, cutoff); }
  }

  /** Counting after a batch was appended at `now`. */
  lemma {:induction false} WithinAppended(rows: seq<Row>, owner: int, items: seq<Draft>, now: int, agent: int,
                                          surface: Option<Surface>, lo: int, hi: int)
    ensures Within(rows + RowsFor(owner, items, now), agent, surface, lo, hi)
            == Within(rows, agent, surface, lo, hi) + if agent == owner && lo <= now <= hi
                then OfSurface(items, surface) else 0
    decreases |items|
  {
    if items == [] {
      assert rows + RowsFor(owner, items, now) == rows;
    } else {
      var front := items[..|items| - 1];
      var all := rows + RowsFor(owner, items, now);
      assert all[..|all| - 1] == rows + RowsFor(owner, front, now);
      WithinAppended(rows, owner, front, now, agent, surface, lo, hi);
    }
  }

  // ----------------------------------------------------------------- every run keeps the quotas

  /** Rows of an agent created in the closed hour that starts at `lo`. */
  function Hour(rows: seq<Row>, agent: int, surface: Option<Surface>, lo: int): nat {
    Within(rows, agent, surface, lo, lo + WINDOW)
  }

  ghost predicate QuotaOk(rows: seq<Row>) {
    forall agent: int, surface: Option<Surface>, lo: int :: Hour(rows, agent, surface, lo) <= Limit(surface)
  }

  /** An agent stores a client item id at most once. */
  ghost predicate UniqueIds(rows: seq<Row>) {
    forall i, j | 0 <= i < j < |rows| :: rows[i].agent == rows[j].agent ==> rows[i].draft.id != rows[j].draft.id
  }

  ghost predicate TableOk(t: Table) {
    QuotaOk(t.rows) && UniqueIds(t.rows)
  }

  lemma AppendKeepsQuota(rows: seq<Row>, owner: int, items: seq<Draft>, now: int)
    requires QuotaOk(rows) && (items == [] || FitsQuota(rows, owner, items, now))
    ensures QuotaOk(rows + RowsFor(owner, items, now))
  {
    forall agent: int, surface: Option<Surface>, lo: int
      ensures Hour(rows + RowsFor(owner, items, now), agent, surface, lo) <= Limit(surface)
    {
      assert Hour(rows, agent, surface, lo) <= Limit(surface);
      WithinAppended(rows, owner, items, now, agent, surface, lo, lo + WINDOW);
      WithinIsRecent(rows, agent, surface, lo, lo + WINDOW, if lo <= now <= lo + WINDOW then now - WINDOW else lo);
      assert items == [] ==> OfSurface(items, surface) == 0;
      assert items != [] && agent == owner ==> FitsLimit(rows, owner, items, surface, now);
    }
  }

  lemma AppendKeepsUnique(rows: seq<Row>, owner: int, items: seq<Draft>, now: int)
    requires UniqueIds(rows) && DistinctIds(items)
    requires forall d <- items :: d.id !in Hashes(rows, owner)
    ensures UniqueIds(rows + RowsFor(owner, items, now))
  {
    HashesMeaning(rows, owner);
    var all := rows + RowsFor(owner, items, now);
    forall i, j | 0 <= i < j < |all| ensures all[i].agent == all[j].agent ==> all[i].draft.id != all[j].draft.id {
      if i < |rows| <= j && all[i].agent == owner {
        assert rows[i] in rows && items[j - |rows|] in items;
      }
    }
  }

  lemma PublishKeeps(t: Table, up: Upload, candidates: seq<Draft>, authorized: bool, now: int)
    requires TableOk(t)
    ensures TableOk(Publish(t, up, candidates, authorized, now).0)
  {
    if Publish(t, up, candidates, authorized, now).1.Accepted? {
      var hashes := Hashes(t.rows, up.agent);
      NewItemsMeaning(up.items, hashes);
      var batch := NewItems(up.items, hashes).value;
      AppendKeepsQuota(t.rows, up.agent, batch, now);
      AppendKeepsUnique(t.rows, up.agent, batch, now);
    }
  }

  datatype Event = Event(upload: Upload, candidates: seq<Draft>, authorized: bool, now: int)

  function Run(t: Table, events: seq<Event>): Table
    decreases |events|
  {
    if events == [] then t
    else Run(Publish(t, events[0].upload, events[0].candidates, events[0].authorized, events[0].now).0, events[1..])
  }

  const EMPTY: Table := Table([], map[])

  lemma {:induction false} RunKeeps(t: Table, events: seq<Event>)
    requires TableOk(t)
    ensures TableOk(Run(t, events))
    decreases |events|
  {
    if events != [] {
      var e := events[0];
      PublishKeeps(t, e.upload, e.candidates, e.authorized, e.now);
      RunKeeps(Publish(t, e.upload, e.candidates, e.authorized, e.now).0, events[1..]);
    }
  }

  /** Over any run, an agent's items created within any closed hour stay within every limit. */
  lemma HourlyQuotaHolds(events: seq<Event>, agent: int, surface: Option<Surface>, lo: int, hi: int)
    requires hi <= lo + 3600000
    ensures var n := Within(Run(EMPTY, events).rows, agent, surface, lo, hi);
            n <= 20 && (surface == Some(Participation) ==> n <= 4) && (surface == Some(Focus) ==> n <= 16)
  {
    RunKeeps(EMPTY, events);
    assert Hour(Run(EMPTY, events).rows, agent, surface, lo) <= Limit(surface);
    WithinGrows(Run(EMPTY, events).rows, agent, surface, lo, hi, lo + WINDOW);
  }

  lemma {:induction false} WithinGrows(rows: seq<Row>, agent: int, surface: Option<Surface>, lo: int, hi: int,
                                       later: int)
    requires hi <= later
    ensures Within(rows, agent, surface, lo, hi) <= Within(rows, agent, surface, lo, later)
  {
    if rows != [] { WithinGrows(rows[..|rows| - 1], agent, surface, lo, hi, later); }
  }

  // ----------------------------------------------------------------- what an upload achieves

  /** After an accepted upload every item of the batch is stored with its content, and nothing was removed. */
  lemma AcceptedIsStored(t: Table, up: Upload, candidates: seq<Draft>, authorized: bool, now: int)
    requires Publish(t, up, candidates, authorized, now).1.Accepted?
    ensures t.rows <= Publish(t, up, candidates, authorized, now).0.rows
    ensures forall d <- up.items :: Stored(Publish(t, up, candidates, authorized, now).0.rows, up.agent, d.id, d.hash)
  {
    var hashes := Hashes(t.rows, up.agent);
    NewItemsMeaning(up.items, hashes);
    HashesMeaning(t.rows, up.agent);
    var batch := NewItems(up.items, hashes).value;
    var added := RowsFor(up.agent, batch, now);
    forall d <- up.items ensures Stored(t.rows + added, up.agent, d.id, d.hash) {
      if d in batch {
        var k :| 0 <= k < |batch| && batch[k] == d;
        assert added[k] in t.rows + added;
      } else {
        assert Stored(t.rows, up.agent, d.id, hashes[d.id]);
      }
    }
  }

  lemma {:induction false} ReceiptStays(t: Table, events: seq<Event>, k: (int, string, string))
    requires k in t.receipts
    ensures k in Run(t, events).receipts && Run(t, events).receipts[k] == t.receipts[k]
    decreases |events|
  {
    if events != [] {
      var e := events[0];
      ReceiptStays(Publish(t, e.upload, e.candidates, e.authorized, e.now).0, events[1..], k);
    }
  }

  lemma UsedKeyChangesNothing(t: Table, up: Upload, candidates: seq<Draft>, authorized: bool, now: int)
    requires (up.agent, up.operation, up.key) in t.receipts
    ensures Publish(t, up, candidates, authorized, now).0 == t
    ensures !Publish(t, up, candidates, authorized, now).1.Accepted?
  {
  }

  lemma AcceptedLeavesReceipt(t: Table, up: Upload, candidates: seq<Draft>, authorized: bool, now: int)
    requires Publish(t, up, candidates, authorized, now).1.Accepted?
    ensures var (after, reply) := Publish(t, up, candidates, authorized, now);
            var k := (up.agent, up.operation, up.key);
            k in after.receipts && after.receipts[k] == Receipt(up.requestHash, reply.accepted)
  {
  }

  /** An accepted key is used up: after any run, it changes nothing and is answered with the first count. */
  lemma UploadCountsOnce(t: Table, up: Upload, candidates: seq<Draft>, authorized: bool, now: int, events: seq<Event>,
                         again: Event)
    requires Publish(t, up, candidates, authorized, now).1.Accepted?
    requires again.upload.(items := up.items, requestHash := up.requestHash) == up
    ensures var later := Run(Publish(t, up, candidates, authorized, now).0, events);
            && Lookup(later, up) == Some(Replayed(Publish(t, up, candidates, authorized, now).1.accepted))
            && Publish(later, again.upload, again.candidates, again.authorized, again.now).0 == later
            && !Publish(later, again.upload, again.candidates, again.authorized, again.now).1.Accepted?
  {
    var after := Publish(t, up, candidates, authorized, now).0;
    AcceptedLeavesReceipt(t, up, candidates, authorized, now);
    ReceiptStays(after, events, (up.agent, up.operation, up.key));
    UsedKeyChangesNothing(Run(after, events), again.upload, again.candidates, again.authorized, again.now);
  }

  // ----------------------------------------------------------------- the handler

  /** The tables of one gateway database. */
  class Uploads {
    var rows: seq<Row>
    var receipts: map<(int, string, string), Receipt>

    ghost function Snapshot(): Table
      reads this
    {
      Table(rows, receipts)
    }

    constructor ()
      ensures Snapshot() == EMPTY
    {
      rows, receipts := [], map[];
    }

    /** The stored hashes of an agent, as the query and the loop over its rows collect them. */
    method ExistingHashes(agent: int) returns (hashes: map<string, string>)
      ensures hashes == Hashes(rows, agent)
    {
      hashes := map[];
      for i := 0 to |rows|
        invariant hashes == Hashes(rows[..i], agent)
      {
        assert rows[..i + 1][..i] == rows[..i];
        if rows[i].agent == agent { hashes := hashes[rows[i].draft.id := rows[i].draft.hash]; }
      }
      assert rows[..|rows|] == rows;
    }

    /** newAttentionPublishItems */
    method NewAttentionItems(items: seq<Draft>, hashes: map<string, string>) returns (batch: Option<seq<Draft>>)
      ensures batch == NewItems(items, hashes)
    {
      var added := [];
      for i := 0 to |items|
        invariant NewItems(items[..i], hashes) == Some(added)
      {
        assert items[..i + 1][..i] == items[..i];
        if items[i].id in hashes {
          if hashes[items[i].id] != items[i].hash {
            PrefixConflict(items, hashes, i + 1);
            return None;
          }
        } else {
          added := added + [items[i]];
        }
      }
      assert items[..|items|] == items;
      return Some(added);
    }

    /** attentionSurfaceCounts */
    method SurfaceCounts(items: seq<Draft>) returns (participation: nat, focus: nat)
      ensures participation == OfSurface(items, Some(Participation)) && focus == OfSurface(items, Some(Focus))
      ensures participation + focus == |items| == OfSurface(items, None)
    {
      participation, focus := 0, 0;
      for i := 0 to |items|
        invariant participation == OfSurface(items[..i], Some(Participation))
        invariant focus == OfSurface(items[..i], Some(Focus))
        invariant participation + focus == i == OfSurface(items[..i], None)
      {
        assert items[..i + 1][..i] == items[..i];
        if items[i].surface == Participation { participation := participation + 1; } else { focus := focus + 1; }
      }
      assert items[..|items|] == items;
    }

    /** The three counts of the quota query. */
    method RecentCounts(agent: int, cutoff: int) returns (total: nat, participation: nat, focus: nat)
      ensures total == Recent(rows, agent, None, cutoff)
      ensures participation == Recent(rows, agent, Some(Participation), cutoff)
      ensures focus == Recent(rows, agent, Some(Focus), cutoff)
    {
      total, participation, focus := 0, 0, 0;
      for i := 0 to |rows|
        invariant total == Recent(rows[..i], agent, None, cutoff)
        invariant participation == Recent(rows[..i], agent, Some(Participation), cutoff)
        invariant focus == Recent(rows[..i], agent, Some(Focus), cutoff)
      {
        assert rows[..i + 1][..i] == rows[..i];
        if rows[i].agent == agent && rows[i].createdAt >= cutoff {
          total := total + 1;
          if rows[i].draft.surface == Participation { participation := participation + 1; } else { focus := focus + 1; }
        }
      }
      assert rows[..|rows|] == rows;
    }

    /** containsAllAttentionItems */
    method ContainsAllItems(candidates: seq<Draft>, actual: seq<Draft>) returns (all: bool)
      ensures all == ContainsAll(candidates, actual)
    {
      var ids: set<string> := {};
      for i := 0 to |candidates|
        invariant ids == set c | c in candidates[..i] :: c.id
      {
        assert candidates[..i + 1] == candidates[..i] + [candidates[i]];
        ids := ids + {candidates[i].id};
      }
      assert candidates[..|candidates|] == candidates;
      for i := 0 to |actual|
        invariant forall d <- actual[..i] :: d.id in ids
      {
        if actual[i].id !in ids {
          assert actual[i] in actual;
          return false;
        }
      }
      assert actual[..|actual|] == actual;
      return true;
    }

    method PublishAttentionItems(up: Upload, candidates: seq<Draft>, authorized: bool, now: int)
      returns (reply: PublishReply)
      requires TableOk(Snapshot())
      modifies this
      ensures TableOk(Snapshot()) && (Snapshot(), reply) == Publish(old(Snapshot()), up, candidates, authorized, now)
    {
      PublishKeeps(Snapshot(), up, candidates, authorized, now);
      if !(forall i, j | 0 <= i < j < |up.items| :: up.items[i].id != up.items[j].id) { return InvalidBatch; }
      var hashes := ExistingHashes(up.agent);
      var batch := NewAttentionItems(up.items, hashes);
      if batch.None? {
        reply := AnswerConflict(up);
        return;
      }
      var refusal := CheckBatch(up, batch.value, candidates, authorized, now);
      if refusal.Some? { return refusal.value; }
      rows := rows + RowsFor(up.agent, batch.value, now);
      receipts := receipts[(up.agent, up.operation, up.key) := Receipt(up.requestHash, |batch.value|)];
      return Accepted(|batch.value|);
    }

    method CheckBatch(up: Upload, batch: seq<Draft>, candidates: seq<Draft>, authorized: bool, now: int)
      returns (refusal: Option<PublishReply>)
      ensures refusal == Refusal(Snapshot(), up, batch, candidates, authorized, now)
    {
      var covered := ContainsAllItems(candidates, batch);
      if !covered { return Some(Busy); }
      if |batch| > 0 {
        var total, participation, focus := RecentCounts(up.agent, now - WINDOW);
        var newParticipation, newFocus := SurfaceCounts(batch);
        if total + |batch| > 20 || participation + newParticipation > 4 || focus + newFocus > 16 {
          return Some(RateLimited(WINDOW));
        }
        if !authorized { return Some(SourceForbidden); }
      }
      if (up.agent, up.operation, up.key) in receipts {
        var answer := AnswerConflict(up);
        return Some(answer);
      }
      return None;
    }

    /** A conflict is answered from the idempotency receipt when there is one. */
    method AnswerConflict(up: Upload) returns (reply: PublishReply)
      ensures reply == ConflictReply(Snapshot(), up)
    {
      var k := (up.agent, up.operation, up.key);
      if k !in receipts || receipts[k].requestHash != up.requestHash { return ContentConflict; }
      return Replayed(receipts[k].accepted);
    }
  }

  lemma {:induction false} PrefixConflict(items: seq<Draft>, hashes: map<string, string>, i: nat)
    requires i <= |items| && NewItems(items[..i], hashes).None?
    ensures NewItems(items, hashes).None?
    decreases |items| - i
  {
    if i < |items| {
      assert items[..i + 1][..i] == items[..i];
      PrefixConflict(items, hashes, i + 1);
    } else {
      assert items[..i] == items;
    }
  }
}
