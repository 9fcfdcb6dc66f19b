/** The scheduler pass over the stored rows (app/services/report_schedule_service.py:132-245). */
module ReportScheduler {
  import opened Arith
  import opened Calendar
  import opened ReportSchedule

  datatype Counts = Counts(claimed: nat, sent: nat, failed: nat)

  /** The earliest of some rows. */
  method Earliest(rows: Rows, pool: set<Id>) returns (best: Id)
    requires pool != {} && pool <= rows.Keys
    ensures best in pool && forall id | id in pool && id != best :: Before(best, id, rows)
  {
    Inhabited(pool);
    best :| best in pool;
    var rest := pool - {best};
    while rest != {}
      invariant rest <= pool && best in pool && best !in rest
      invariant forall id | id in pool && id !in rest && id != best :: Before(best, id, rows)
      decreases rest
    {
      Inhabited(rest);
      var id :| id in rest;
      if Before(id, best, rows) {
        best := id;
      }
      rest := rest - {id};
    }
  }

  /** The claim query: due rows by due time and id, up to the batch size. */
  method SelectDue(rows: Rows, now: Time, c: Config) returns (ids: seq<Id>)
    ensures IsBatch(rows, now, c, ids)
  {
    var pool := set id | id in rows && Due(rows[id], now);
    ghost var due := pool;
    ids := [];
    while |ids| < c.batch && pool != {}
      invariant pool <= due && due == DueSet(rows, now)
      invariant forall id :: id in ids <==> id in due && id !in pool
      invariant |ids| + |pool| == |due| && |ids| <= c.batch
      invariant forall i, j | 0 <= i < j < |ids| :: Before(ids[i], ids[j], rows)
      invariant forall id, i | id in pool && 0 <= i < |ids| :: Before(ids[i], id, rows)
      decreases pool
    {
      var best := Earliest(rows, pool);
      pool := pool - {best};
      ids := ids + [best];
    }
  }

  class Scheduler {
    var rows: Rows
    const c: Config

    constructor (c: Config)
      ensures rows == map[] && this.c == c
    {
      this.c := c;
      rows := map[];
    }

    method RecoverStuck(now: Time)
      modifies this
      ensures rows == RecoverAll(old(rows), now, c)
      ensures forall id | id in rows :: Recovers(old(rows)[id], rows[id], now, c)
    {
      var left := rows.Keys;
      while left != {}
        invariant left <= old(rows).Keys && rows.Keys == old(rows).Keys
        invariant forall id | id in rows :: rows[id] == if id in left then old(rows)[id] else RecoverRow(old(rows)[id], now, c)
        decreases left
      {
        Inhabited(left);
        var id :| id in left;
        rows := rows[id := RecoverRow(rows[id], now, c)];
        left := left - {id};
      }
      assert forall id | id in rows :: rows[id] == RecoverAll(old(rows), now, c)[id];
      forall id | id in rows
        ensures Recovers(old(rows)[id], rows[id], now, c)
      {
        RecoverExactly(old(rows)[id], now, c);
      }
    }

    /** The claim loop, before the commit. */
    method Claim(ids: seq<Id>, now: Time) returns (items: seq<Item>)
      requires forall id | id in rows :: ValidSlot(rows[id].slot)
      requires forall id | id in ids :: id in rows
      requires forall i, j | 0 <= i < j < |ids| :: ids[i] != ids[j]
      modifies this
      ensures rows == map id | id in old(rows) :: if id in ids then ClaimRow(old(rows)[id], now, c) else old(rows)[id]
      ensures |items| == |ids| && forall i | 0 <= i < |ids| :: items[i] == ItemFor(ids[i], old(rows)[ids[i]], c)
      ensures forall i | 0 <= i < |ids| :: Claims(old(rows)[ids[i]], rows[ids[i]], items[i].isRetry, now, c)
    {
      items := [];
      for i := 0 to |ids|
        invariant rows.Keys == old(rows).Keys && |items| == i
        invariant forall id | id in rows :: rows[id] == if id in ids[..i] then ClaimRow(old(rows)[id], now, c) else old(rows)[id]
        invariant forall j | 0 <= j < i :: items[j] == ItemFor(ids[j], old(rows)[ids[j]], c)
      {
        var id := ids[i];
        assert id in ids && id !in ids[..i];
        assert ids[..i + 1] == ids[..i] + [id];
        items := items + [ItemFor(id, rows[id], c)];
        rows := rows[id := ClaimRow(rows[id], now, c)];
      }
      assert ids[..|ids|] == ids;
      ghost var claimed := map id | id in old(rows) :: if id in ids then ClaimRow(old(rows)[id], now, c) else old(rows)[id];
      assert forall id | id in rows :: rows[id] == claimed[id];
      forall i | 0 <= i < |ids|
        ensures Claims(old(rows)[ids[i]], rows[ids[i]], items[i].isRetry, now, c)
      {
        ClaimExactly(old(rows)[ids[i]], now, c);
      }
    }

    /** The delivery loop; `sends` are the rows whose mail goes out. */
    method Deliver(items: seq<Item>, now: Time, sends: set<Id>) returns (sent: nat, failed: nat)
      requires forall i | 0 <= i < |items| :: items[i].id in rows && ValidSlot(items[i].slot)
      requires forall i, j | 0 <= i < j < |items| :: items[i].id != items[j].id
      modifies this
      ensures rows.Keys == old(rows).Keys && sent + failed == |items|
      ensures forall i | 0 <= i < |items| ::
                rows[items[i].id] == FinishRow(old(rows)[items[i].id], items[i], now, items[i].id in sends, c)
      ensures forall i | 0 <= i < |items| ::
                Finishes(old(rows)[items[i].id], rows[items[i].id], items[i], now, items[i].id in sends, c)
      ensures forall id | id in rows && (forall i | 0 <= i < |items| :: items[i].id != id) :: rows[id] == old(rows)[id]
    {
      sent, failed := 0, 0;
      for i := 0 to |items|
        invariant rows.Keys == old(rows).Keys && sent + failed == i
        invariant forall j | 0 <= j < i ::
                    rows[items[j].id] == FinishRow(old(rows)[items[j].id], items[j], now, items[j].id in sends, c)
        invariant forall id | id in rows && (forall j | 0 <= j < i :: items[j].id != id) :: rows[id] == old(rows)[id]
      {
        var item := items[i];
        rows := rows[item.id := FinishRow(rows[item.id], item, now, item.id in sends, c)];
        if item.id in sends {
          sent := sent + 1;
        } else {
          failed := failed + 1;
        }
      }
      forall i | 0 <= i < |items|
        ensures Finishes(old(rows)[items[i].id], rows[items[i].id], items[i], now, items[i].id in sends, c)
      {
        FinishExactly(old(rows)[items[i].id], items[i], now, items[i].id in sends, c);
      }
    }

    /** A pass that runs to its end, with no other session at the table: `recovered` are the
        rows it picks from, `ids` those it picks. */
    method RunDueOnce(now: Time, sends: set<Id>) returns (counts: Counts, ghost recovered: Rows, ghost ids: seq<Id>)
      requires forall id | id in rows :: ValidSlot(rows[id].slot)
      modifies this
      ensures recovered == RecoverAll(old(rows), now, c) && IsBatch(recovered, now, c, ids)
      ensures forall id | id in recovered :: ValidSlot(recovered[id].slot)
      ensures rows == ServeAll(recovered, ids, now, sends, c)
      ensures recovered.Keys == rows.Keys == old(rows).Keys
      ensures forall id | id in rows :: Recovers(old(rows)[id], recovered[id], now, c)
      ensures forall id | id in rows ::
                if id in ids then Serves(recovered[id], rows[id], now, id in sends, c) else rows[id] == recovered[id]
      // who is picked: due rows only, and with room left all of them
      ensures |ids| <= c.batch && forall id | id in ids :: id in rows && recovered[id].active && recovered[id].next <= now
      ensures forall id | id in rows && recovered[id].active && recovered[id].next <= now && id !in ids ::
                |ids| == c.batch && forall i | 0 <= i < |ids| :: recovered[ids[i]].next <= recovered[id].next
      ensures counts.claimed == |ids| == counts.sent + counts.failed
    {
      RecoverStuck(now);
      recovered := rows;
      var due := SelectDue(rows, now, c);
      ids := due;
      PassExactly(recovered, now, ids, sends, c);
      if due == [] {
        assert rows == ServeAll(recovered, ids, now, sends, c);
        return Counts(0, 0, 0), recovered, ids;
      }
      var items := Claim(due, now);
      var sent, failed := Deliver(items, now, sends);
      forall id | id in recovered
        ensures rows[id] == if id in ids then Served(id, recovered[id], now, id in sends, c) else recovered[id]
      {
        if id in ids {
          var i :| 0 <= i < |ids| && ids[i] == id;
          assert items[i].id == id;
        }
      }
      counts := Counts(|items|, sent, failed);
    }
  }
}
