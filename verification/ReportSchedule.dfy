/** A row of the report schedule and what a scheduler pass does to it
    (app/services/report_schedule_service.py:132-245). */
module ReportSchedule {
  import opened Wrappers
  import opened Arith
  import opened Calendar

  type Id = int

  datatype Status = Never | Processing | Sent | Failed

  datatype Row = Row(active: bool, next: Time, status: Status, attempts: nat, lastRunAt: Option<Time>, slot: Slot)

  type Rows = map<Id, Row>

  datatype Config = Config(maxAttempts: int, retrySeconds: int, stuckSeconds: int, batch: nat)

  function M(c: Config): nat { Max(c.maxAttempts, 1) }

  function RetryAt(now: Time, c: Config): Time { now + Max(c.retrySeconds, 60) * SECOND }

  /** Left "processing" by a worker that stopped too long ago. */
  predicate Stuck(r: Row, now: Time, c: Config) {
    r.status == Processing && r.lastRunAt.Some? && r.lastRunAt.value < now - Max(c.stuckSeconds, 60) * SECOND
  }

  function RecoverRow(r: Row, now: Time, c: Config): Row {
    if !Stuck(r, now, c) then r
    else
      var q := r.(attempts := r.attempts + 1, status := Failed);
      if q.attempts < M(c) then q.(next := RetryAt(now, c)) else q
  }

  predicate Due(r: Row, now: Time) { r.active && r.next <= now }

  predicate IsRetry(r: Row, c: Config) {
    r.status == Failed && r.attempts > 0 && r.attempts < M(c)
  }

  /** A fresh claim moves the row to its next slot at once; a retry leaves it due. */
  function ClaimRow(r: Row, now: Time, c: Config): Row
    requires IsRetry(r, c) || ValidSlot(r.slot)
  {
    NextRunIsFirst(now, r.slot);
    var q := if IsRetry(r, c) then r else r.(attempts := 0, next := NextRunAt(now, r.slot).value);
    q.(lastRunAt := Some(now), status := Processing)
  }

  /** What a pass remembers of a claim while it delivers. */
  datatype Item = Item(id: Id, isRetry: bool, slot: Slot)

  function FinishRow(r: Row, item: Item, now: Time, sent: bool, c: Config): Row
    requires ValidSlot(item.slot)
  {
    NextRunIsFirst(now, item.slot);
    var slotAfter := NextRunAt(now, item.slot).value;
    if sent then
      var q := r.(status := Sent, attempts := 0);
      if item.isRetry then q.(next := slotAfter) else q
    else
      var q := r.(status := Failed, attempts := r.attempts + 1);
      if q.attempts < M(c) then q.(next := RetryAt(now, c))
      else if item.isRetry then q.(next := slotAfter)
      else q
  }

  function ItemFor(id: Id, r: Row, c: Config): Item { Item(id, IsRetry(r, c), r.slot) }

  /** A row after it was claimed and delivered in one pass. */
  function Served(id: Id, r: Row, now: Time, sent: bool, c: Config): Row
    requires ValidSlot(r.slot)
  {
    FinishRow(ClaimRow(r, now, c), ItemFor(id, r, c), now, sent, c)
  }

  /** A completed pass leaves every row it claimed due strictly later, no longer
      "processing", with its attempts within bounds. */
  lemma ServedIsLater(id: Id, r: Row, now: Time, sent: bool, c: Config)
    requires ValidSlot(r.slot) && r.attempts <= M(c)
    ensures var q := Served(id, r, now, sent, c);
            q.next > now && q.status != Processing && q.attempts <= M(c) && q.slot == r.slot && q.active == r.active
  {
    NextRunIsFirst(now, r.slot);
  }

  // ---------- What a pass owes, row by row ----------

  /** The first delivery instant of the slot after `now`. */
  ghost predicate IsNextSlot(t: Time, now: Time, s: Slot) {
    t > now && OnSlot(t, s) && forall u | now < u < t :: !OnSlot(u, s)
  }

  /** A row left "processing" too long has failed once more, and is tried again after the
      retry delay while it has attempts left; every other row is left alone. */
  predicate Recovers(r: Row, q: Row, now: Time, c: Config) {
    var limit := if c.maxAttempts > 1 then c.maxAttempts else 1;
    if r.status == Processing && r.lastRunAt.Some?
       && r.lastRunAt.value + 1_000_000 * (if c.stuckSeconds > 60 then c.stuckSeconds else 60) < now
    then
      && q.status == Failed && q.attempts == r.attempts + 1
      && q.next == (if r.attempts + 1 < limit then now + 1_000_000 * (if c.retrySeconds > 60 then c.retrySeconds else 60)
                    else r.next)
      && q.active == r.active && q.lastRunAt == r.lastRunAt && q.slot == r.slot
    else q == r
  }

  /** A row that failed with attempts left goes on with its round; any other starts a new one,
      with its next slot set at once. */
  ghost predicate Claims(r: Row, q: Row, isRetry: bool, now: Time, c: Config) {
    && (isRetry <==> r.status == Failed && 0 < r.attempts && (r.attempts < c.maxAttempts || r.attempts < 1))
    && q.status == Processing && q.lastRunAt == Some(now) && q.active == r.active && q.slot == r.slot
    && q.attempts == (if isRetry then r.attempts else 0)
    && (if isRetry then q.next == r.next else IsNextSlot(q.next, now, r.slot))
  }

  /** How a delivery leaves its row: one that failed with attempts left is due again after
      exactly the retry delay; otherwise a retry moves on to its next slot. */
  ghost predicate Finishes(r: Row, q: Row, item: Item, now: Time, sent: bool, c: Config) {
    var limit := if c.maxAttempts > 1 then c.maxAttempts else 1;
    && q.status == (if sent then Sent else Failed) && q.attempts == (if sent then 0 else r.attempts + 1)
    && (if !sent && r.attempts + 1 < limit then q.next == now + 1_000_000 * (if c.retrySeconds > 60 then c.retrySeconds else 60)
        else if item.isRetry then IsNextSlot(q.next, now, item.slot)
        else q.next == r.next)
    && q.active == r.active && q.lastRunAt == r.lastRunAt && q.slot == r.slot
  }

  /** What a whole pass makes of a row it picks. `tries` counts this delivery in. */
  ghost predicate Serves(r: Row, q: Row, now: Time, sent: bool, c: Config) {
    var limit := if c.maxAttempts > 1 then c.maxAttempts else 1;
    var tries := if r.status == Failed && 0 < r.attempts < limit then r.attempts + 1 else 1;
    && q.status == (if sent then Sent else Failed) && q.attempts == (if sent then 0 else tries)
    && (if !sent && tries < limit then q.next == now + 1_000_000 * (if c.retrySeconds > 60 then c.retrySeconds else 60)
        else IsNextSlot(q.next, now, r.slot))
    && q.active == r.active && q.lastRunAt == Some(now) && q.slot == r.slot
  }

  lemma RecoverExactly(r: Row, now: Time, c: Config)
    ensures Recovers(r, RecoverRow(r, now, c), now, c)
  {
  }

  lemma ClaimExactly(r: Row, now: Time, c: Config)
    requires ValidSlot(r.slot)
    ensures Claims(r, ClaimRow(r, now, c), IsRetry(r, c), now, c)
  {
    NextRunIsFirst(now, r.slot);
  }

  lemma FinishExactly(r: Row, item: Item, now: Time, sent: bool, c: Config)
    requires ValidSlot(item.slot)
    ensures Finishes(r, FinishRow(r, item, now, sent, c), item, now, sent, c)
  {
    NextRunIsFirst(now, item.slot);
  }

  lemma ServedExactly(id: Id, r: Row, now: Time, sent: bool, c: Config)
    requires ValidSlot(r.slot)
    ensures Serves(r, Served(id, r, now, sent, c), now, sent, c)
  {
    ClaimExactly(r, now, c);
    FinishExactly(ClaimRow(r, now, c), ItemFor(id, r, c), now, sent, c);
  }

  // ---------- One pass over the table ----------

  function RecoverAll(rows: Rows, now: Time, c: Config): Rows {
    map id | id in rows :: RecoverRow(rows[id], now, c)
  }

  ghost function DueSet(rows: Rows, now: Time): set<Id> {
    set id | id in rows && Due(rows[id], now)
  }

  predicate Before(a: Id, b: Id, rows: Rows) {
    a in rows && b in rows && (rows[a].next < rows[b].next || (rows[a].next == rows[b].next && a < b))
  }

  /** The rows a pass picks: the first `batch` due ones in order of due time, then id. */
  ghost predicate IsBatch(rows: Rows, now: Time, c: Config, ids: seq<Id>) {
    var due := DueSet(rows, now);
    && (forall id | id in ids :: id in due)
    && (forall i, j | 0 <= i < j < |ids| :: Before(ids[i], ids[j], rows))
    && |ids| == Min(c.batch, |due|)
    && (forall id, i | id in due && id !in ids && 0 <= i < |ids| :: Before(ids[i], id, rows))
  }

  lemma BatchExactly(rows: Rows, now: Time, c: Config, ids: seq<Id>)
    requires IsBatch(rows, now, c, ids)
    ensures |ids| <= c.batch && forall id | id in ids :: id in rows && rows[id].active && rows[id].next <= now
    ensures forall id | id in rows && rows[id].active && rows[id].next <= now && id !in ids ::
              |ids| == c.batch && forall i | 0 <= i < |ids| :: rows[ids[i]].next <= rows[id].next
  {
    var due, picked := DueSet(rows, now), set id | id in ids;
    OrderedSize(ids, rows);
    if |ids| < c.batch {
      Subset(picked, due);
    }
  }

  /** Equal sizes leave nothing out. */
  lemma Subset(a: set<Id>, b: set<Id>)
    requires a <= b && |a| == |b|
    ensures a == b
  {
    assert b == a + (b - a);
    assert |b - a| == 0;
  }

  ghost predicate AllValid(rows: Rows, c: Config) {
    forall id | id in rows :: ValidSlot(rows[id].slot) && rows[id].attempts <= M(c)
  }

  /** `sends`: the deliveries that succeed. */
  function ServeAll(rows: Rows, ids: seq<Id>, now: Time, sends: set<Id>, c: Config): Rows
    requires forall id | id in rows :: ValidSlot(rows[id].slot)
  {
    map id | id in rows :: if id in ids then Served(id, rows[id], now, id in sends, c) else rows[id]
  }

  lemma PassExactly(rows: Rows, now: Time, ids: seq<Id>, sends: set<Id>, c: Config)
    requires forall id | id in rows :: ValidSlot(rows[id].slot)
    requires IsBatch(rows, now, c, ids)
    ensures |ids| <= c.batch && forall id | id in ids :: id in rows && rows[id].active && rows[id].next <= now
    ensures forall id | id in rows && rows[id].active && rows[id].next <= now && id !in ids ::
              |ids| == c.batch && forall i | 0 <= i < |ids| :: rows[ids[i]].next <= rows[id].next
    ensures forall id | id in rows ::
              var q := ServeAll(rows, ids, now, sends, c)[id];
              if id in ids then Serves(rows[id], q, now, id in sends, c) else q == rows[id]
  {
    BatchExactly(rows, now, c, ids);
    forall id | id in rows && id in ids
      ensures Serves(rows[id], Served(id, rows[id], now, id in sends, c), now, id in sends, c)
    {
      ServedExactly(id, rows[id], now, id in sends, c);
    }
  }

  ghost predicate NoneStuck(rows: Rows, now: Time, c: Config) {
    forall id | id in rows :: !Stuck(rows[id], now, c)
  }

  lemma RecoverClears(rows: Rows, now: Time, c: Config)
    requires forall id | id in rows :: ValidSlot(rows[id].slot) && rows[id].attempts <= M(c) &&
               (rows[id].status == Processing ==> rows[id].attempts < M(c))
    ensures AllValid(RecoverAll(rows, now, c), c) && NoneStuck(RecoverAll(rows, now, c), now, c)
    ensures NoneStuck(rows, now, c) ==> RecoverAll(rows, now, c) == rows
  {
    NothingToRecover(rows, now, c);
  }

  lemma NothingToRecover(rows: Rows, now: Time, c: Config)
    ensures NoneStuck(rows, now, c) ==> RecoverAll(rows, now, c) == rows
  {
    if NoneStuck(rows, now, c) {
      assert forall id | id in rows :: RecoverAll(rows, now, c)[id] == rows[id];
    }
  }

  /** After a completed pass exactly the rows it claimed are no longer due. */
  lemma PassRemovesBatch(rows: Rows, ids: seq<Id>, now: Time, sends: set<Id>, c: Config)
    requires AllValid(rows, c) && NoneStuck(rows, now, c) && IsBatch(rows, now, c, ids)
    ensures var after := ServeAll(rows, ids, now, sends, c);
            && AllValid(after, c) && NoneStuck(after, now, c)
            && DueSet(after, now) == DueSet(rows, now) - (set id | id in ids)
            && |DueSet(after, now)| == |DueSet(rows, now)| - |ids|
  {
    var after := ServeAll(rows, ids, now, sends, c);
    forall id | id in rows
      ensures after[id].slot == rows[id].slot && after[id].attempts <= M(c) && !Stuck(after[id], now, c)
      ensures Due(after[id], now) <==> Due(rows[id], now) && id !in ids
    {
      if id in ids { ServedIsLater(id, rows[id], now, id in sends, c); }
    }
    var claimed := set id | id in ids;
    assert DueSet(after, now) == DueSet(rows, now) - claimed;
    OrderedSize(ids, rows);
    assert claimed <= DueSet(rows, now);
  }

  lemma {:induction false} OrderedSize(ids: seq<Id>, rows: Rows)
    requires forall id | id in ids :: id in rows
    requires forall i, j | 0 <= i < j < |ids| :: Before(ids[i], ids[j], rows)
    ensures |set id | id in ids| == |ids|
  {
    if ids != [] {
      var g, last := ids[..|ids| - 1], ids[|ids| - 1];
      assert ids == g + [last];
      OrderedSize(g, rows);
      assert last !in g;
      assert (set id | id in ids) == (set id | id in g) + {last};
    }
  }

  // ---------- Passes repeated at one instant ----------

  datatype PassPlan = PassPlan(ids: seq<Id>, sends: set<Id>)

  /** Completed passes at `now`, one after another: each recovers, picks and serves. */
  ghost predicate IsRun(rows: Rows, now: Time, c: Config, plans: seq<PassPlan>)
    decreases |plans|
  {
    plans == [] ||
    (&& AllValid(RecoverAll(rows, now, c), c)
     && IsBatch(RecoverAll(rows, now, c), now, c, plans[0].ids)
     && IsRun(ServeAll(RecoverAll(rows, now, c), plans[0].ids, now, plans[0].sends, c), now, c, plans[1..]))
  }

  ghost function AfterRun(rows: Rows, now: Time, c: Config, plans: seq<PassPlan>): Rows
    requires IsRun(rows, now, c, plans)
    decreases |plans|
  {
    if plans == [] then rows
    else AfterRun(ServeAll(RecoverAll(rows, now, c), plans[0].ids, now, plans[0].sends, c), now, c, plans[1..])
  }

  ghost function NextRows(rows: Rows, now: Time, c: Config, p: PassPlan): Rows
    requires AllValid(RecoverAll(rows, now, c), c)
  {
    ServeAll(RecoverAll(rows, now, c), p.ids, now, p.sends, c)
  }

  lemma FirstPass(rows: Rows, now: Time, c: Config, plans: seq<PassPlan>)
    requires AllValid(rows, c) && NoneStuck(rows, now, c) && plans != [] && IsRun(rows, now, c, plans)
    ensures var next := NextRows(rows, now, c, plans[0]);
            && AllValid(next, c) && NoneStuck(next, now, c) && IsRun(next, now, c, plans[1..])
            && AfterRun(rows, now, c, plans) == AfterRun(next, now, c, plans[1..])
            && DueSet(next, now) == DueSet(rows, now) - (set id | id in plans[0].ids)
            && |DueSet(next, now)| == |DueSet(rows, now)| - Min(c.batch, |DueSet(rows, now)|)
            && forall id | id in plans[0].ids :: id in DueSet(rows, now)
  {
    NothingToRecover(rows, now, c);
    PassRemovesBatch(rows, plans[0].ids, now, plans[0].sends, c);
  }

  lemma Times(n: nat, b: nat)
    ensures n * b >= 0 && (n + 1) * b == n * b + b
  {
  }

  /** The backlog shrinks by each batch: with a positive batch size enough passes at one
      instant leave nothing due. */
  lemma {:induction false} BacklogDrains(rows: Rows, now: Time, c: Config, plans: seq<PassPlan>)
    requires AllValid(rows, c) && NoneStuck(rows, now, c) && IsRun(rows, now, c, plans)
    ensures |DueSet(AfterRun(rows, now, c, plans), now)| == Max(|DueSet(rows, now)| - |plans| * c.batch, 0)
    decreases |plans|
  {
    if plans != [] {
      FirstPass(rows, now, c, plans);
      BacklogDrains(NextRows(rows, now, c, plans[0]), now, c, plans[1..]);
      Times(|plans[1..]|, c.batch);
    }
  }

  lemma {:induction false} BatchesAreDue(rows: Rows, now: Time, c: Config, plans: seq<PassPlan>, j: nat, id: Id)
    requires AllValid(rows, c) && NoneStuck(rows, now, c) && IsRun(rows, now, c, plans)
    requires j < |plans| && id in plans[j].ids
    ensures id in DueSet(rows, now)
    decreases j
  {
    FirstPass(rows, now, c, plans);
    if j > 0 {
      BatchesAreDue(NextRows(rows, now, c, plans[0]), now, c, plans[1..], j - 1, id);
    }
  }

  /** And no row is claimed by two of them. */
  lemma {:induction false} BatchesAreDisjoint(rows: Rows, now: Time, c: Config, plans: seq<PassPlan>, i: nat, j: nat, id: Id)
    requires AllValid(rows, c) && NoneStuck(rows, now, c) && IsRun(rows, now, c, plans)
    requires i < j < |plans| && id in plans[i].ids
    ensures id !in plans[j].ids
    decreases i
  {
    FirstPass(rows, now, c, plans);
    if id in plans[j].ids {
      BatchesAreDue(NextRows(rows, now, c, plans[0]), now, c, plans[1..], j - 1, id);
    }
    if i > 0 {
      BatchesAreDisjoint(NextRows(rows, now, c, plans[0]), now, c, plans[1..], i - 1, j - 1, id);
    }
  }
}
