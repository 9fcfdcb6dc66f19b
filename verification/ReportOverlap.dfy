/** Two workers at the report schedule: a run that takes a row past its maximum of attempts
    (app/services/report_schedule_service.py:132-245). */
module ReportOverlap {
  import opened Wrappers
  import opened Arith
  import opened Calendar
  import opened ReportSchedule
  import R = ReportRuns

  type WorkerId = nat

  /** One worker's pass under way: what it claimed and has yet to deliver. */
  datatype Pass = Pass(queue: seq<Item>, now: Time)

  datatype State = State(rows: Rows, passes: map<WorkerId, Pass>)

  const INITIAL := State(map[], map[])

  datatype Step =
    | Create(id: Id, next: Time, slot: Slot)
    | RecoverStuck(w: WorkerId, now: Time)
    | Claim(w: WorkerId, now: Time, ids: seq<Id>)
    | Finish(w: WorkerId, sent: bool)

  /** A worker starts a pass once its last one is delivered. */
  ghost predicate Idle(s: State, w: WorkerId) { w in s.passes ==> s.passes[w].queue == [] }

  ghost predicate Slots(s: State) {
    && (forall id | id in s.rows :: ValidSlot(s.rows[id].slot))
    && (forall w, i | w in s.passes && 0 <= i < |s.passes[w].queue| :: ValidSlot(s.passes[w].queue[i].slot))
  }

  ghost predicate Enabled(s: State, step: Step) {
    match step
    case Create(id, _, slot) => id !in s.rows && ValidSlot(slot)
    case RecoverStuck(w, _) => Idle(s, w)
    case Claim(w, now, ids) =>
      && Idle(s, w) && (forall id | id in ids :: id in s.rows && Due(s.rows[id], now))
      && (forall i, j | 0 <= i < j < |ids| :: ids[i] != ids[j])
    case Finish(w, _) => w in s.passes && s.passes[w].queue != []
  }

  ghost function Apply(s: State, step: Step, c: Config): State
    requires Enabled(s, step) && Slots(s)
  {
    match step
    case Create(id, next, slot) => s.(rows := s.rows[id := Row(true, next, Never, 0, None, slot)])
    case RecoverStuck(_, now) => s.(rows := RecoverAll(s.rows, now, c))
    case Claim(w, now, ids) =>
      State(R.ClaimAll(s.rows, ids, now, c), s.passes[w := Pass(R.ItemsFor(ids, s.rows, c), now)])
    case Finish(w, sent) =>
      var pass := s.passes[w];
      var item := pass.queue[0];
      State(if item.id in s.rows then s.rows[item.id := FinishRow(s.rows[item.id], item, pass.now, sent, c)] else s.rows,
            s.passes[w := pass.(queue := pass.queue[1..])])
  }

  ghost function Exec(run: seq<Step>, c: Config): Option<State> {
    if run == [] then Some(INITIAL)
    else
      var before := Exec(run[..|run| - 1], c);
      if before.Some? && Slots(before.value) && Enabled(before.value, run[|run| - 1])
      then Some(Apply(before.value, run[|run| - 1], c))
      else None
  }

  lemma ExecSnoc(run: seq<Step>, step: Step, c: Config)
    requires Exec(run, c).Some? && Slots(Exec(run, c).value) && Enabled(Exec(run, c).value, step)
    ensures Exec(run + [step], c) == Some(Apply(Exec(run, c).value, step, c))
  {
    assert (run + [step])[..|run|] == run;
  }

  const DAILY := Slot(Daily, 0, None)

  /** Only row 0, delivered daily at midnight, and what the two workers still have to deliver. */
  ghost predicate Single(s: State, r: Row, queue: seq<Item>) {
    && s.rows == map[0 := r] && r.active && r.slot == DAILY
    && 0 in s.passes && s.passes[0].queue == queue && forall w | w in s.passes && w != 0 :: s.passes[w].queue == []
  }

  lemma ClaimsOnly(run: seq<Step>, c: Config, r: Row)
    requires Exec(run, c).Some? && Single(Exec(run, c).value, r, [])
    ensures var longer := run + [Claim(0, r.next, [0])];
            && Exec(longer, c).Some?
            && Single(Exec(longer, c).value, ClaimRow(r, r.next, c), [ItemFor(0, r, c)])
            && Exec(longer, c).value.passes[0].now == r.next
  {
    var s := Exec(run, c).value;
    ExecSnoc(run, Claim(0, r.next, [0]), c);
    var t := Apply(s, Claim(0, r.next, [0]), c);
    assert t.rows[0] == ClaimRow(r, r.next, c);
    assert t.rows == map[0 := ClaimRow(r, r.next, c)];
    assert t.passes[0].queue == [ItemFor(0, r, c)];
  }

  lemma FailsOnly(run: seq<Step>, c: Config, r: Row, item: Item)
    requires Exec(run, c).Some? && Single(Exec(run, c).value, r, [item]) && item.id == 0 && item.slot == DAILY
    ensures var longer := run + [Finish(0, false)];
            && Exec(longer, c).Some?
            && Single(Exec(longer, c).value, FinishRow(r, item, Exec(run, c).value.passes[0].now, false, c), [])
  {
    ExecSnoc(run, Finish(0, false), c);
  }

  /** One worker alone: a row that has failed `n` times in a row. */
  lemma {:induction false} Fails(c: Config, n: nat) returns (run: seq<Step>, r: Row)
    requires n < M(c)
    ensures Exec(run, c).Some? && Single(Exec(run, c).value, r, [])
    ensures r.attempts == n && r.status == if n == 0 then Never else Failed
  {
    if n == 0 {
      ExecSnoc([], Create(0, 0, DAILY), c);
      r := Row(true, 0, Never, 0, None, DAILY);
      run := [] + [Create(0, 0, DAILY)];
      assert Exec(run, c).value.rows == map[0 := r];
      ExecSnoc(run, Claim(0, 0, []), c);
      var s := Apply(Exec(run, c).value, Claim(0, 0, []), c);
      run := run + [Claim(0, 0, [])];
      assert s.rows[0] == r;
      assert s.rows == map[0 := r];
    } else {
      run, r := Fails(c, n - 1);
      ClaimsOnly(run, c, r);
      var q, item := ClaimRow(r, r.next, c), ItemFor(0, r, c);
      run := run + [Claim(0, r.next, [0])];
      FailsOnly(run, c, q, item);
      r := FinishRow(q, item, Exec(run, c).value.passes[0].now, false, c);
      run := run + [Finish(0, false)];
    }
  }

  /** Whatever the maximum: one worker delivers so slowly that the other takes the row for
      stuck and counts an attempt, and then the slow delivery fails, too. */
  lemma TwoWorkersExceed(c: Config) returns (run: seq<Step>)
    ensures Exec(run, c).Some? && 0 in Exec(run, c).value.rows
    ensures Exec(run, c).value.rows[0].attempts == M(c) + 1
  {
    var r: Row;
    run, r := Fails(c, M(c) - 1);
    ClaimsOnly(run, c, r);
    var q, item := ClaimRow(r, r.next, c), ItemFor(0, r, c);
    run := run + [Claim(0, r.next, [0])];
    var later := r.next + Max(c.stuckSeconds, 60) * SECOND + 1;
    ExecSnoc(run, RecoverStuck(1, later), c);
    var s := Exec(run, c).value;
    run := run + [RecoverStuck(1, later)];
    var t := Exec(run, c).value;
    assert t.rows[0] == RecoverRow(q, later, c);
    assert t.rows == map[0 := RecoverRow(q, later, c)];
    FailsOnly(run, c, RecoverRow(q, later, c), item);
    run := run + [Finish(0, false)];
  }
}
