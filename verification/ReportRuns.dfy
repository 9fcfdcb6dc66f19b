/** Runs of the report scheduler under one worker, with crashes, edits and stuck
    recovery; and what a second worker can do. */
module ReportRuns {
  import opened Wrappers
  import opened Calendar
  import opened ReportSchedule

  /** `queue`: claims of the running pass not yet delivered. `tries`: deliveries of a row
      since it was last claimed afresh. */
  datatype State = State(rows: Rows, queue: seq<Item>, passNow: Time, tries: map<Id, nat>)

  datatype Step =
    | RecoverStuck(now: Time)
    | Claim(now: Time, ids: seq<Id>)
    | Finish(sent: bool)
    | Crash
    | Create(id: Id, next: Time, slot: Slot)
    | Edit(id: Id, active: bool, next: Time, slot: Slot)
    | Delete(id: Id)

  const INITIAL := State(map[], [], 0, map[])

  ghost predicate Enabled(s: State, step: Step) {
    match step
    case RecoverStuck(_) => s.queue == []
    case Claim(now, ids) =>
      && s.queue == []
      && (forall id | id in ids :: id in s.rows && Due(s.rows[id], now))
      && (forall i, j | 0 <= i < j < |ids| :: ids[i] != ids[j])
    case Finish(_) => s.queue != []
    case Crash => true
    case Create(id, _, slot) => id !in s.tries && id !in s.rows && ValidSlot(slot)
    case Edit(id, _, _, slot) => id in s.rows && ValidSlot(slot)
    case Delete(id) => id in s.rows
  }

  ghost predicate Slots(s: State) {
    && (forall id | id in s.rows :: ValidSlot(s.rows[id].slot) && id in s.tries)
    && (forall i | 0 <= i < |s.queue| :: ValidSlot(s.queue[i].slot) && s.queue[i].id in s.tries)
  }

  function ItemsFor(ids: seq<Id>, rows: Rows, c: Config): seq<Item>
    requires forall id | id in ids :: id in rows
  {
    seq(|ids|, i requires 0 <= i < |ids| => ItemFor(ids[i], rows[ids[i]], c))
  }

  function ClaimAll(rows: Rows, ids: seq<Id>, now: Time, c: Config): Rows
    requires forall id | id in rows :: ValidSlot(rows[id].slot)
  {
    map id | id in rows :: if id in ids then ClaimRow(rows[id], now, c) else rows[id]
  }

  ghost function Apply(s: State, step: Step, c: Config): State
    requires Enabled(s, step) && Slots(s)
  {
    match step
    case RecoverStuck(now) => s.(rows := RecoverAll(s.rows, now, c))
    case Claim(now, ids) =>
      State(ClaimAll(s.rows, ids, now, c), ItemsFor(ids, s.rows, c), now,
            map id | id in s.tries :: if id in ids && !IsRetry(s.rows[id], c) then 0 else s.tries[id])
    case Finish(sent) =>
      var item := s.queue[0];
      if item.id !in s.rows then s.(queue := s.queue[1..])
      else
        s.(queue := s.queue[1..],
           rows := s.rows[item.id := FinishRow(s.rows[item.id], item, s.passNow, sent, c)],
           tries := s.tries[item.id := s.tries[item.id] + 1])
    case Crash => s.(queue := [])
    case Create(id, next, slot) =>
      s.(rows := s.rows[id := Row(true, next, Never, 0, None, slot)], tries := s.tries[id := 0])
    case Edit(id, active, next, slot) =>
      s.(rows := s.rows[id := s.rows[id].(active := active, next := next, slot := slot)])
    case Delete(id) => s.(rows := s.rows - {id})
  }

  // ---------- Attempts, in every run ----------

  predicate Bounded(r: Row, c: Config) {
    r.attempts <= M(c) && (r.status == Processing ==> r.attempts < M(c))
  }

  ghost predicate Queued(s: State) {
    && (forall i | 0 <= i < |s.queue| && s.queue[i].id in s.rows :: s.rows[s.queue[i].id].status == Processing)
    && (forall i, j | 0 <= i < j < |s.queue| :: s.queue[i].id != s.queue[j].id)
  }

  ghost predicate Inv(s: State, c: Config) {
    Slots(s) && Queued(s) && forall id | id in s.rows :: Bounded(s.rows[id], c)
  }

  lemma RowSteps(r: Row, now: Time, c: Config)
    requires ValidSlot(r.slot) && Bounded(r, c)
    ensures Bounded(RecoverRow(r, now, c), c) && Bounded(ClaimRow(r, now, c), c)
    ensures forall item: Item, sent | r.status == Processing && ValidSlot(item.slot) :: Bounded(FinishRow(r, item, now, sent, c), c)
    ensures RecoverRow(r, now, c).slot == ClaimRow(r, now, c).slot == r.slot && ClaimRow(r, now, c).status == Processing
  {
  }

  lemma InvFinish(s: State, sent: bool, c: Config)
    requires Inv(s, c) && Enabled(s, Finish(sent))
    ensures Inv(Apply(s, Finish(sent), c), c)
  {
    var item := s.queue[0];
    var r := Apply(s, Finish(sent), c);
    assert forall i | 0 <= i < |r.queue| :: r.queue[i] == s.queue[i + 1];
    if item.id in s.rows {
      assert s.rows[item.id].status == Processing;
      RowSteps(s.rows[item.id], s.passNow, c);
      assert r.rows[item.id].slot == s.rows[item.id].slot;
    }
  }

  lemma InvClaim(s: State, now: Time, ids: seq<Id>, c: Config)
    requires Inv(s, c) && Enabled(s, Claim(now, ids))
    ensures Inv(Apply(s, Claim(now, ids), c), c)
  {
    var r := Apply(s, Claim(now, ids), c);
    forall id | id in r.rows
      ensures Bounded(r.rows[id], c) && ValidSlot(r.rows[id].slot) && (id in ids ==> r.rows[id].status == Processing)
    {
      RowSteps(s.rows[id], now, c);
    }
    forall i | 0 <= i < |r.queue|
      ensures r.queue[i].id == ids[i] && ValidSlot(r.queue[i].slot) && r.queue[i].id in r.tries
    {
      assert ids[i] in ids;
    }
  }

  lemma InvStep(s: State, step: Step, c: Config)
    requires Inv(s, c) && Enabled(s, step)
    ensures Inv(Apply(s, step, c), c)
  {
    match step
    case RecoverStuck(now) =>
      forall id | id in s.rows
        ensures Bounded(RecoverRow(s.rows[id], now, c), c) && RecoverRow(s.rows[id], now, c).slot == s.rows[id].slot
      {
        RowSteps(s.rows[id], now, c);
      }
    case Claim(now, ids) => InvClaim(s, now, ids, c);
    case Finish(sent) => InvFinish(s, sent, c);
    case Crash =>
    case Create(_, _, _) =>
    case Edit(_, _, _, _) =>
    case Delete(_) =>
  }

  ghost function Exec(run: seq<Step>, c: Config): Option<State> {
    if run == [] then Some(INITIAL)
    else
      var before := Exec(run[..|run| - 1], c);
      if before.Some? && Slots(before.value) && Enabled(before.value, run[|run| - 1])
      then Some(Apply(before.value, run[|run| - 1], c))
      else None
  }

  lemma {:induction false} InvRun(run: seq<Step>, c: Config)
    requires Exec(run, c).Some?
    ensures Inv(Exec(run, c).value, c)
  {
    if run != [] {
      InvRun(run[..|run| - 1], c);
      InvStep(Exec(run[..|run| - 1], c).value, run[|run| - 1], c);
    }
  }

  /** With one worker, crashes and stuck recovery included: no row ever has more than M
      attempts, and one being delivered has fewer. */
  lemma AttemptsAreBounded(run: seq<Step>, c: Config, id: Id)
    requires Exec(run, c).Some? && id in Exec(run, c).value.rows
    ensures var r := Exec(run, c).value.rows[id];
            r.attempts <= M(c) && (r.status == Processing ==> r.attempts < M(c))
  {
    InvRun(run, c);
    assert Bounded(Exec(run, c).value.rows[id], c);
  }

  // ---------- Rounds of deliveries, without crashes ----------

  ghost predicate NoCrash(run: seq<Step>) {
    forall i | 0 <= i < |run| :: !run[i].Crash?
  }

  ghost predicate InQueue(s: State, id: Id) {
    exists i :: 0 <= i < |s.queue| && s.queue[i].id == id
  }

  predicate RoundOf(r: Row, tries: nat, c: Config) {
    match r.status
    case Never => tries == 0
    case Processing => tries == r.attempts
    case Failed => tries == r.attempts && 1 <= tries
    case Sent => 1 <= tries <= M(c) && r.attempts == 0
  }

  /** Only queued rows are being processed, and attempts count the round's failures. */
  ghost predicate Rounds(s: State, c: Config) {
    forall id | id in s.rows ::
      id in s.tries && RoundOf(s.rows[id], s.tries[id], c) && (s.rows[id].status == Processing ==> InQueue(s, id))
  }

  lemma QueueMoves(s: State, r: State)
    requires s.queue != [] && r.queue == s.queue[1..]
    ensures forall id | InQueue(s, id) && id != s.queue[0].id :: InQueue(r, id)
  {
    forall id | InQueue(s, id) && id != s.queue[0].id
      ensures InQueue(r, id)
    {
      var i :| 0 <= i < |s.queue| && s.queue[i].id == id;
      assert r.queue[i - 1].id == id;
    }
  }

  lemma RoundsFinish(s: State, sent: bool, c: Config)
    requires Inv(s, c) && Rounds(s, c) && Enabled(s, Finish(sent))
    ensures Rounds(Apply(s, Finish(sent), c), c)
  {
    var r := Apply(s, Finish(sent), c);
    QueueMoves(s, r);
    var item := s.queue[0];
    if item.id in s.rows {
      assert Bounded(s.rows[item.id], c) && s.rows[item.id].status == Processing;
      assert RoundOf(r.rows[item.id], r.tries[item.id], c);
    }
  }

  lemma RoundsClaim(s: State, now: Time, ids: seq<Id>, c: Config)
    requires Inv(s, c) && Rounds(s, c) && Enabled(s, Claim(now, ids))
    ensures Rounds(Apply(s, Claim(now, ids), c), c)
  {
    var r := Apply(s, Claim(now, ids), c);
    forall id | id in r.rows
      ensures RoundOf(r.rows[id], r.tries[id], c) && (r.rows[id].status == Processing ==> InQueue(r, id))
    {
      if id in ids {
        var i :| 0 <= i < |ids| && ids[i] == id;
        assert r.queue[i].id == id;
      } else {
        assert s.rows[id].status == Processing ==> InQueue(s, id);
      }
    }
  }

  lemma SameQueue(s: State, r: State)
    requires r.queue == s.queue
    ensures forall id | InQueue(s, id) :: InQueue(r, id)
  {
    forall id | InQueue(s, id)
      ensures InQueue(r, id)
    {
      var i :| 0 <= i < |s.queue| && s.queue[i].id == id;
      assert r.queue[i].id == id;
    }
  }

  lemma RoundsStep(s: State, step: Step, c: Config)
    requires Inv(s, c) && Rounds(s, c) && Enabled(s, step) && !step.Crash?
    ensures Rounds(Apply(s, step, c), c)
  {
    match step
    case RecoverStuck(now) =>
      assert forall id | id in s.rows :: !Stuck(s.rows[id], now, c);
      NothingToRecover(s.rows, now, c);
    case Claim(now, ids) => RoundsClaim(s, now, ids, c);
    case Finish(sent) => RoundsFinish(s, sent, c);
    case Create(_, _, _) => SameQueue(s, Apply(s, step, c));
    case Edit(_, _, _, _) => SameQueue(s, Apply(s, step, c));
    case Delete(_) => SameQueue(s, Apply(s, step, c));
  }

  lemma {:induction false} RoundsRun(run: seq<Step>, c: Config)
    requires Exec(run, c).Some? && NoCrash(run)
    ensures Rounds(Exec(run, c).value, c)
  {
    if run != [] {
      RoundsRun(run[..|run| - 1], c);
      InvRun(run[..|run| - 1], c);
      RoundsStep(Exec(run[..|run| - 1], c).value, run[|run| - 1], c);
    }
  }

  /** Without crashes a row is delivered at most M times from one fresh claim on, and the
      next fresh claim comes only after a success or after exactly M failures. */
  lemma RoundsAreBounded(run: seq<Step>, c: Config, id: Id)
    requires Exec(run, c).Some? && NoCrash(run) && id in Exec(run, c).value.rows
    ensures var s := Exec(run, c).value;
            && id in s.tries && s.tries[id] <= M(c)
            && (s.queue == [] && !IsRetry(s.rows[id], c) ==>
                  s.rows[id].status == Never || s.rows[id].status == Sent ||
                  (s.rows[id].status == Failed && s.tries[id] == s.rows[id].attempts == M(c)))
  {
    InvRun(run, c);
    RoundsRun(run, c);
    var s := Exec(run, c).value;
    assert Bounded(s.rows[id], c) && RoundOf(s.rows[id], s.tries[id], c);
    if s.rows[id].status == Processing {
      assert InQueue(s, id);
    }
  }

  // ---------- Where the bound ends ----------

  /** A delivery keeps the bound exactly when it succeeds or the row is still below it. */
  lemma FinishKeepsBoundExactly(r: Row, item: Item, now: Time, sent: bool, c: Config)
    requires ValidSlot(item.slot) && r.attempts <= M(c)
    ensures Bounded(FinishRow(r, item, now, sent, c), c) <==> sent || r.attempts < M(c)
  {
  }

  /** So with two workers it breaks: one delivers so slowly that the other takes the row
      for stuck and counts an attempt, and then the slow delivery fails. */
  lemma LateFinishExceeds(r: Row, item: Item, passNow: Time, later: Time, c: Config)
    requires ValidSlot(item.slot) && Stuck(r, later, c) && r.attempts == M(c) - 1
    ensures Bounded(r, c) && Bounded(RecoverRow(r, later, c), c)
    ensures FinishRow(RecoverRow(r, later, c), item, passNow, false, c).attempts == M(c) + 1
  {
    FinishKeepsBoundExactly(RecoverRow(r, later, c), item, passNow, false, c);
  }

  /** A crash during a retry leaves the row due and "processing", so the next pass claims
      it afresh: a round then holds more than M deliveries. */
  lemma CrashedRetryStartsOver(r: Row, now: Time, later: Time, c: Config)
    requires ValidSlot(r.slot) && IsRetry(r, c) && Due(r, now) && now <= later
    ensures var q := ClaimRow(r, now, c);
            Due(q, later) && !IsRetry(q, c) && ClaimRow(q, later, c).attempts == 0
  {
  }
}
