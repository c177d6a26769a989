/** The rate limiter's keys as the three scripts change them. */
module RateKeys {
  import opened Common
  import opened PublishQuota
  import opened RateScript

  class Keys {
    var total: seq<Entry>
    var participation: seq<Entry>
    var focus: seq<Entry>
    var deadline: int

    ghost function Snapshot(): Sets
      reads this
    {
      Sets(total, participation, focus, deadline)
    }

    constructor ()
      ensures Snapshot() == Sets([], [], [], 0) && UnionOk(Snapshot())
    {
      total, participation, focus, deadline := [], [], [], 0;
    }

    /** Redis drops expired keys before a command touches them. */
    method DropExpired(now: int)
      modifies this`total, this`participation, this`focus
      ensures Snapshot() == Live(old(Snapshot()), now)
    {
      if now >= deadline { total, participation, focus := [], [], []; }
    }

    /** The first loop of the reserve script: how many members each set would gain. */
    method CountMissing(batch: seq<Addition>) returns (addTotal: nat, addParticipation: nat, addFocus: nat)
      ensures addTotal == Missing(total, batch, None)
      ensures addParticipation == Missing(participation, batch, Some(Participation))
      ensures addFocus == Missing(focus, batch, Some(Focus))
    {
      addTotal, addParticipation, addFocus := 0, 0, 0;
      for i := 0 to |batch|
        invariant addTotal == Missing(total, batch[..i], None)
        invariant addParticipation == Missing(participation, batch[..i], Some(Participation))
        invariant addFocus == Missing(focus, batch[..i], Some(Focus))
      {
        assert batch[..i + 1][..i] == batch[..i];
        var a := batch[i];
        if !Has(total, a.member) { addTotal := addTotal + 1; }
        if a.surface == Participation && !Has(participation, a.member) {
          addParticipation := addParticipation + 1;
        } else if a.surface == Focus && !Has(focus, a.member) {
          addFocus := addFocus + 1;
        }
      }
      assert batch[..|batch|] == batch;
    }

    /** include_retry */
    method IncludeRetry(z: seq<Entry>, overflow: int, now: int, found: bool, retry: int)
      returns (found': bool, retry': int)
      ensures var boundary := if 0 < overflow <= |z| then Some(WINDOW - (now - z[overflow - 1].score)) else None;
              && found' == (found || boundary.Some?)
              && retry' == if boundary.Some? && boundary.value > retry then boundary.value else retry
    {
      found', retry' := found, retry;
      if 0 < overflow <= |z| {
        found' := true;
        var wait := WINDOW - (now - z[overflow - 1].score);
        if wait > retry' { retry' := wait; }
      }
    }

    method WaitHint(batch: seq<Addition>, overTotal: int, overParticipation: int, overFocus: int, now: int)
      returns (retry: int)
      requires var p := Snapshot();
               overTotal == Overflow(p, batch, None) && overParticipation == Overflow(p, batch, Some(Participation))
                   && overFocus == Overflow(p, batch, Some(Focus))
      ensures retry == Retry(Snapshot(), batch, now)
    {
      var found;
      retry := 1;
      found, retry := IncludeRetry(total, overTotal, now, false, retry);
      found, retry := IncludeRetry(participation, overParticipation, now, found, retry);
      found, retry := IncludeRetry(focus, overFocus, now, found, retry);
      if !found { retry := WINDOW; }
    }

    method ReserveScript(batch: seq<Addition>, now: int) returns (reply: RateReply)
      modifies this
      ensures (Snapshot(), reply) == Reserve(old(Snapshot()), batch, now)
    {
      DropExpired(now);
      total, participation, focus := Purge(total, now - WINDOW), Purge(participation, now - WINDOW),
          Purge(focus, now - WINDOW);
      reply := Decide(batch, now);
      if reply.Allowed? {
        AddBatch(batch, now);
        deadline := now + WINDOW + GRACE;
      }
    }

    /** The comparison of the purged sets with their limits. */
    method Decide(batch: seq<Addition>, now: int) returns (reply: RateReply)
      ensures var p := Snapshot();
              reply == if Fits(p, batch) then Allowed(RemainingAfter(p, batch))
                  else Refused(Retry(p, batch, now), RemainingAfter(p, []))
    {
      var addTotal, addParticipation, addFocus := CountMissing(batch);
      var overTotal := |total| + addTotal - 20;
      var overParticipation := |participation| + addParticipation - 4;
      var overFocus := |focus| + addFocus - 16;
      if overTotal > 0 || overParticipation > 0 || overFocus > 0 {
        var retry := WaitHint(batch, overTotal, overParticipation, overFocus, now);
        return Refused(retry, Remaining(Left(20, |total|), Left(4, |participation|), Left(16, |focus|)));
      }
      return Allowed(Remaining(Left(0, overTotal), Left(0, overParticipation), Left(0, overFocus)));
    }

    /** The second loop of the reserve script. */
    method AddBatch(batch: seq<Addition>, now: int)
      modifies this`total, this`participation, this`focus
      ensures Snapshot() == AddAll(old(Snapshot()), batch, now)
    {
      for i := 0 to |batch|
        invariant Snapshot() == AddAll(old(Snapshot()), batch[..i], now)
      {
        assert batch[..i + 1][..i] == batch[..i];
        total := AddNew(total, batch[i].member, now);
        if batch[i].surface == Participation {
          participation := AddNew(participation, batch[i].member, now);
        } else {
          focus := AddNew(focus, batch[i].member, now);
        }
      }
      assert batch[..|batch|] == batch;
    }

    method ReleaseScript(members: seq<Member>)
      modifies this`total, this`participation, this`focus
      ensures Snapshot() == Release(old(Snapshot()), members)
    {
      for i := 0 to |members|
        invariant Snapshot() == Release(old(Snapshot()), members[..i])
      {
        assert members[..i + 1][..i] == members[..i];
        total, participation, focus := Remove(total, members[i]), Remove(participation, members[i]),
            Remove(focus, members[i]);
      }
      assert members[..|members|] == members;
    }

    method ReconcileScript(rows: seq<StoredItem>, now: int)
      requires DistinctRows(rows)
      modifies this
      ensures Snapshot() == Reconcile(rows, now) && UnionOk(Snapshot())
    {
      total, participation, focus, deadline := [], [], [], now + WINDOW + GRACE;
      for i := 0 to |rows|
        invariant Snapshot() == Rebuild(rows[..i], now + WINDOW + GRACE)
      {
        assert rows[..i + 1][..i] == rows[..i];
        var a := rows[i].addition;
        total := AddNew(total, a.member, rows[i].createdAt);
        if a.surface == Participation {
          participation := AddNew(participation, a.member, rows[i].createdAt);
        } else {
          focus := AddNew(focus, a.member, rows[i].createdAt);
        }
      }
      assert rows[..|rows|] == rows;
      RebuildKeepsUnion(rows, now + WINDOW + GRACE);
    }
  }
}
