/** What every run of the notification jobs of one process keeps, over any number of restarts.
    Several processes are in DispatchProcesses. */
module DispatchRuns {
  import opened Wrappers
  import opened Arith
  import opened Dispatch

  function SentLog(k: Key): Log { Log(k.job, k.channel, k.recipient, true) }

  /** Messages sent by a worker and not yet in the log. */
  function Unlogged(w: Worker, channel: Channel): Results {
    match w
    case Sending(_, _, mailed, texted) => if channel == Email then mailed else texted
    case Logging(texted) => if channel == Email then map[] else texted
    case _ => map[]
  }

  ghost predicate InFlight(s: State, k: Key) {
    k.job in s.workers &&
    k.recipient in Unlogged(s.workers[k.job], k.channel) && Unlogged(s.workers[k.job], k.channel)[k.recipient]
  }

  function Todo(w: Worker, channel: Channel): set<Recipient> {
    if !w.Sending? then {} else if channel == Email then w.emails else w.phones
  }

  /** The worker may still send to this recipient. */
  ghost predicate MaySend(s: State, k: Key) {
    k.job in s.workers && (s.workers[k.job].Started? || k.recipient in Todo(s.workers[k.job], k.channel))
  }

  ghost predicate JobInv(s: State, limit: int, j: JobId) {
    && (j in s.workers ==> j in s.jobs && Pending(s.jobs[j]) && s.up)
    && (j in s.jobs ==> s.jobs[j].attempts <= Max(limit, 1))
    && (j in s.workers && s.workers[j].Waiting? ==> s.jobs[j].attempts < Max(limit, 1))
  }

  ghost predicate KeyInv(s: State, k: Key) {
    && (k.job !in s.jobs ==> k.job !in s.workers && s.outbox[k] == 0 && s.logs[SentLog(k)] == 0)
    && (s.logs[SentLog(k)] > 0 && k.job in s.workers ==>
          k.recipient !in Todo(s.workers[k.job], k.channel) && k.recipient !in Unlogged(s.workers[k.job], k.channel))
    && (k.job in s.workers ==>
          !(k.recipient in Todo(s.workers[k.job], k.channel) && k.recipient in Unlogged(s.workers[k.job], k.channel)))
    && s.logs[SentLog(k)] <= 1
    && (k.job in s.jobs ==> s.outbox[k] + (if MaySend(s, k) then 1 else 0) <= s.jobs[k.job].attempts)
  }

  ghost predicate Inv(s: State, limit: int) {
    (forall j :: JobInv(s, limit, j)) && (forall k :: KeyInv(s, k))
  }

  lemma JobGlobal(s: State, step: Step, limit: int, j: JobId)
    requires step.Crash? || step.Restart? || step.Start? || step.Enqueue?
    requires Enabled(s, step) && JobInv(s, limit, j)
    ensures JobInv(Apply(s, step, limit), limit, j)
  {
  }

  lemma JobLocal(s: State, step: Step, limit: int, j: JobId)
    requires !step.Crash? && !step.Restart? && !step.Start? && !step.Enqueue?
    requires Enabled(s, step) && JobInv(s, limit, j)
    ensures JobInv(Apply(s, step, limit), limit, j)
  {
  }

  lemma JobStep(s: State, step: Step, limit: int, j: JobId)
    requires Enabled(s, step) && JobInv(s, limit, j)
    ensures JobInv(Apply(s, step, limit), limit, j)
  {
    if step.Crash? || step.Restart? || step.Start? || step.Enqueue? {
      JobGlobal(s, step, limit, j);
    } else {
      JobLocal(s, step, limit, j);
    }
  }

  lemma LogRowsAt(j: JobId, channel: Channel, results: Results, k: Key)
    ensures LogRows(j, channel, results)[SentLog(k)] ==
            if k.job == j && k.channel == channel && k.recipient in results && results[k.recipient] then 1 else 0
  {
    var rows := set r | r in results :: Log(j, channel, r, results[r]);
    if k.job == j && k.channel == channel && k.recipient in results && results[k.recipient] {
      assert Log(j, channel, k.recipient, results[k.recipient]) in rows;
    }
  }

  lemma KeyLog(s: State, step: Step, limit: int, k: Key)
    requires step.LogEmail? || step.LogSms?
    requires Enabled(s, step) && JobInv(s, limit, k.job) && KeyInv(s, k)
    ensures KeyInv(Apply(s, step, limit), k)
  {
    match step
    case LogEmail(j) => LogRowsAt(j, Email, s.workers[j].mailed, k);
    case LogSms(j) => LogRowsAt(j, Sms, s.workers[j].texted, k);
  }

  lemma KeyPlan(s: State, step: Step, limit: int, k: Key)
    requires step.Plan?
    requires Enabled(s, step) && JobInv(s, limit, k.job) && KeyInv(s, k)
    ensures KeyInv(Apply(s, step, limit), k)
  {
    assert SentLog(k) in s.logs ==> k.recipient in AlreadySent(s.logs, k.job, k.channel);
  }

  lemma KeySend(s: State, step: Step, limit: int, k: Key)
    requires step.Send?
    requires Enabled(s, step) && JobInv(s, limit, k.job) && KeyInv(s, k)
    ensures KeyInv(Apply(s, step, limit), k)
  {
  }

  lemma KeyOther(s: State, step: Step, limit: int, k: Key)
    requires !step.LogEmail? && !step.LogSms? && !step.Plan? && !step.Send?
    requires Enabled(s, step) && JobInv(s, limit, k.job) && KeyInv(s, k)
    ensures KeyInv(Apply(s, step, limit), k)
  {
  }

  lemma KeyStep(s: State, step: Step, limit: int, k: Key)
    requires Enabled(s, step) && JobInv(s, limit, k.job) && KeyInv(s, k)
    ensures KeyInv(Apply(s, step, limit), k)
  {
    if step.LogEmail? || step.LogSms? {
      KeyLog(s, step, limit, k);
    } else if step.Plan? {
      KeyPlan(s, step, limit, k);
    } else if step.Send? {
      KeySend(s, step, limit, k);
    } else {
      KeyOther(s, step, limit, k);
    }
  }

  lemma {:induction false} InvRun(run: seq<Step>, limit: int)
    requires Exec(run, limit).Some?
    ensures Inv(Exec(run, limit).value, limit)
  {
    if run != [] {
      var g, last := run[..|run| - 1], run[|run| - 1];
      InvRun(g, limit);
      var s := Exec(g, limit).value;
      forall j ensures JobInv(Exec(run, limit).value, limit, j) { JobStep(s, last, limit, j); }
      forall k ensures KeyInv(Exec(run, limit).value, k) { KeyStep(s, last, limit, k); }
    }
  }

  /** No job is ever attempted more than max(limit, 1) times, and no recipient of a job hears
      from it more often than that. */
  lemma AttemptsAreBounded(run: seq<Step>, limit: int, k: Key)
    requires Exec(run, limit).Some?
    ensures var s := Exec(run, limit).value;
            && (k.job in s.jobs ==> s.jobs[k.job].attempts <= Max(limit, 1))
            && s.outbox[k] <= Max(limit, 1)
  {
    InvRun(run, limit);
    assert JobInv(Exec(run, limit).value, limit, k.job) && KeyInv(Exec(run, limit).value, k);
  }

  // ---------- From some moment of a run on ----------

  lemma {:induction false} Earlier(run: seq<Step>, limit: int, m: nat)
    requires m <= |run| && Exec(run, limit).Some?
    ensures Exec(run[..m], limit).Some?
    decreases |run| - m
  {
    if m < |run| {
      Earlier(run, limit, m + 1);
      assert run[..m + 1][..m] == run[..m];
    } else {
      assert run[..m] == run;
    }
  }

  lemma StepFrom(s: State, step: Step, limit: int, k: Key)
    requires Enabled(s, step) && JobInv(s, limit, k.job) && KeyInv(s, k)
    ensures var t := Apply(s, step, limit);
            && (s.logs[SentLog(k)] == 1 ==> t.logs[SentLog(k)] == 1 && t.outbox[k] == s.outbox[k])
            && (k.job in s.jobs && (s.jobs[k.job].status == Done || s.jobs[k.job].status == Failed) ==>
                  k.job in t.jobs && t.jobs[k.job] == s.jobs[k.job] && t.outbox[k] == s.outbox[k])
  {
    KeyStep(s, step, limit, k);
    match step
    case LogEmail(j) => LogRowsAt(j, Email, s.workers[j].mailed, k);
    case LogSms(j) => LogRowsAt(j, Sms, s.workers[j].texted, k);
    case Plan(_, _, _, _) =>
    case Enqueue(_, _, _, _, _) =>
    case Start(_) =>
    case Send(_, _, _, _) =>
    case Close(_) =>
    case Raise(_) =>
    case Crash =>
    case Restart =>
  }

  /** Once the log shows a recipient as reached there is exactly one such row for ever, and
      nothing more is sent to it for that job over that channel, whatever fails or restarts. */
  lemma {:induction false} LoggedIsFinal(run: seq<Step>, limit: int, m: nat, k: Key)
    requires m <= |run| && Exec(run, limit).Some? && Exec(run[..m], limit).Some?
    requires SentLog(k) in Exec(run[..m], limit).value.logs
    ensures var s := Exec(run, limit).value;
            s.logs[SentLog(k)] == 1 && s.outbox[k] == Exec(run[..m], limit).value.outbox[k]
    decreases |run| - m
  {
    InvRun(run[..m], limit);
    assert KeyInv(Exec(run[..m], limit).value, k);
    if m < |run| {
      Earlier(run, limit, m + 1);
      assert run[..m + 1][..m] == run[..m];
      StepFrom(Exec(run[..m], limit).value, run[m], limit, k);
      LoggedIsFinal(run, limit, m + 1, k);
    } else {
      assert run[..m] == run;
    }
  }

  /** A job that is done or failed never changes again and never sends again. */
  lemma {:induction false} OutcomeIsFinal(run: seq<Step>, limit: int, m: nat, k: Key)
    requires m <= |run| && Exec(run, limit).Some? && Exec(run[..m], limit).Some?
    requires k.job in Exec(run[..m], limit).value.jobs && !Pending(Exec(run[..m], limit).value.jobs[k.job])
    ensures var s, t := Exec(run[..m], limit).value, Exec(run, limit).value;
            k.job in t.jobs && t.jobs[k.job] == s.jobs[k.job] && t.outbox[k] == s.outbox[k] && k.job !in t.workers
    decreases |run| - m
  {
    InvRun(run[..m], limit);
    assert JobInv(Exec(run[..m], limit).value, limit, k.job) && KeyInv(Exec(run[..m], limit).value, k);
    if m < |run| {
      Earlier(run, limit, m + 1);
      assert run[..m + 1][..m] == run[..m];
      StepFrom(Exec(run[..m], limit).value, run[m], limit, k);
      OutcomeIsFinal(run, limit, m + 1, k);
    } else {
      assert run[..m] == run;
    }
  }

  // ---------- Where duplicates come from ----------

  /** The step takes the worker away between a send and its log row. */
  ghost predicate Cuts(s: State, step: Step, k: Key) {
    InFlight(s, k) && (step.Crash? || step == Raise(k.job))
  }

  ghost function CutCount(run: seq<Step>, limit: int, k: Key): nat
    requires Exec(run, limit).Some?
  {
    if run == [] then 0
    else CutCount(run[..|run| - 1], limit, k) + (if Cuts(Exec(run[..|run| - 1], limit).value, run[|run| - 1], k) then 1 else 0)
  }

  ghost function Flag(b: bool): nat { if b then 1 else 0 }

  ghost predicate Balanced(s: State, step: Step, t: State, k: Key) {
    t.outbox[k] + s.logs[SentLog(k)] + Flag(InFlight(s, k)) ==
    s.outbox[k] + t.logs[SentLog(k)] + Flag(InFlight(t, k)) + Flag(Cuts(s, step, k))
  }

  /** A job has a worker only in a process that is up, which never sends to a recipient again
      that it has tried. */
  ghost predicate InPlace(s: State, k: Key) {
    k.job in s.workers ==>
      && k.job in s.jobs && s.up
      && !(k.recipient in Todo(s.workers[k.job], k.channel) && k.recipient in Unlogged(s.workers[k.job], k.channel))
  }

  lemma BalanceLog(s: State, step: Step, limit: int, k: Key)
    requires step.LogEmail? || step.LogSms?
    requires Enabled(s, step) && InPlace(s, k)
    ensures Balanced(s, step, Apply(s, step, limit), k)
  {
    match step
    case LogEmail(j) => LogRowsAt(j, Email, s.workers[j].mailed, k);
    case LogSms(j) => LogRowsAt(j, Sms, s.workers[j].texted, k);
  }

  lemma BalanceSend(s: State, step: Step, limit: int, k: Key)
    requires step.Send?
    requires Enabled(s, step) && InPlace(s, k)
    ensures Balanced(s, step, Apply(s, step, limit), k)
  {
  }

  lemma BalanceOther(s: State, step: Step, limit: int, k: Key)
    requires !step.LogEmail? && !step.LogSms? && !step.Send?
    requires Enabled(s, step) && InPlace(s, k)
    ensures Balanced(s, step, Apply(s, step, limit), k)
  {
  }

  lemma BalanceStep(s: State, step: Step, limit: int, k: Key)
    requires Enabled(s, step) && InPlace(s, k)
    ensures Balanced(s, step, Apply(s, step, limit), k)
  {
    if step.LogEmail? || step.LogSms? {
      BalanceLog(s, step, limit, k);
    } else if step.Send? {
      BalanceSend(s, step, limit, k);
    } else {
      BalanceOther(s, step, limit, k);
    }
  }

  /** Every message that went out is in the log once, or is still on its way into it, or was
      lost to a crash or an exception between sending and logging. */
  lemma {:induction false} EverySendIsAccounted(run: seq<Step>, limit: int, k: Key)
    requires Exec(run, limit).Some?
    ensures var s := Exec(run, limit).value;
            s.outbox[k] == s.logs[SentLog(k)] + Flag(InFlight(s, k)) + CutCount(run, limit, k)
  {
    if run != [] {
      var g := run[..|run| - 1];
      EverySendIsAccounted(g, limit, k);
      InvRun(g, limit);
      var s := Exec(g, limit).value;
      assert JobInv(s, limit, k.job) && KeyInv(s, k);
      BalanceStep(s, run[|run| - 1], limit, k);
    }
  }

  /** So a second message needs such a cut, and without one nobody hears twice. */
  lemma DuplicatesNeedACut(run: seq<Step>, limit: int, k: Key)
    requires Exec(run, limit).Some?
    ensures Exec(run, limit).value.outbox[k] <= 1 + CutCount(run, limit, k)
  {
    EverySendIsAccounted(run, limit, k);
    InvRun(run, limit);
    assert KeyInv(Exec(run, limit).value, k);
  }

  const SENT_TWICE := Key(0, Email, "ops")

  const ONE_TRY := [Start(0), Plan(0, Some(Alert(true, false)), {"ops"}, {}), Send(0, Email, "ops", true)]

  /** The log commit fails, then marking the job failed does too, and the process restarts. */
  const FIRST_TRY := [Restart, Enqueue(0, Created, true, false, true)] + ONE_TRY + [Raise(0), Raise(0)]
  const SECOND_TRY := [Crash, Restart] + ONE_TRY

  const AFTER_SENDING := Sending({}, {}, map["ops" := true], map[])

  /** A running process that knows only job 0. */
  ghost function Single(attempts: nat, workers: map<JobId, Worker>, status: Status, out: multiset<Key>): State {
    State(map[0 := Job(Created, true, false, status, attempts)], multiset{}, workers, true, out)
  }

  lemma Opens()
    ensures Exec([] + [Restart] + [Enqueue(0, Created, true, false, true)], 5) ==
            Some(Single(0, map[0 := Waiting], Queued, multiset{}))
  {
    ExecSnoc([], Restart, 5);
    assert Exec([] + [Restart], 5) == Some(State(map[], multiset{}, map[], true, multiset{}));
    ExecSnoc([] + [Restart], Enqueue(0, Created, true, false, true), 5);
  }

  lemma TrySends(run: seq<Step>, attempts: nat, status: Status, out: multiset<Key>)
    requires Exec(run, 5) == Some(Single(attempts, map[0 := Waiting], status, out)) && status != Done
    ensures Exec(run + ONE_TRY, 5) == Some(Single(attempts + 1, map[0 := AFTER_SENDING], InProgress, out + multiset{SENT_TWICE}))
  {
    var s := Exec(run, 5).value;
    ExecSnoc(run, ONE_TRY[0], 5);
    var s1 := Apply(s, ONE_TRY[0], 5);
    assert s1 == Single(attempts + 1, map[0 := Started], InProgress, out);
    ExecSnoc(run + [ONE_TRY[0]], ONE_TRY[1], 5);
    var s2 := Apply(s1, ONE_TRY[1], 5);
    assert {"ops"} - AlreadySent(s1.logs, 0, Email) == {"ops"};
    assert s2 == Single(attempts + 1, map[0 := Sending({"ops"}, {}, map[], map[])], InProgress, out);
    ExecSnoc(run + [ONE_TRY[0]] + [ONE_TRY[1]], ONE_TRY[2], 5);
    assert {"ops"} - {"ops"} == {};
    assert Apply(s2, ONE_TRY[2], 5) == Single(attempts + 1, map[0 := AFTER_SENDING], InProgress, out + multiset{SENT_TWICE});
    assert run + [ONE_TRY[0]] + [ONE_TRY[1]] + [ONE_TRY[2]] == run + ONE_TRY;
  }

  lemma RaisesTwice(run: seq<Step>, attempts: nat, out: multiset<Key>)
    requires Exec(run, 5) == Some(Single(attempts, map[0 := AFTER_SENDING], InProgress, out))
    ensures Exec(run + [Raise(0)] + [Raise(0)], 5) == Some(Single(attempts, map[], InProgress, out))
  {
    ExecSnoc(run, Raise(0), 5);
    assert map[0 := AFTER_SENDING][0 := Closing(false)] == map[0 := Closing(false)];
    assert Exec(run + [Raise(0)], 5) == Some(Single(attempts, map[0 := Closing(false)], InProgress, out));
    ExecSnoc(run + [Raise(0)], Raise(0), 5);
    assert map[0 := Closing(false)] - {0} == map[];
  }

  lemma Reopens(run: seq<Step>, attempts: nat, out: multiset<Key>)
    requires Exec(run, 5) == Some(Single(attempts, map[], InProgress, out)) && attempts < 5
    ensures Exec(run + [Crash] + [Restart], 5) == Some(Single(attempts, map[0 := Waiting], InProgress, out))
  {
    ExecSnoc(run, Crash, 5);
    ExecSnoc(run + [Crash], Restart, 5);
    var s := Exec(run, 5).value;
    assert RecoverJobs(s.jobs, 5) == s.jobs;
    assert Apply(s.(workers := map[], up := false), Restart, 5).workers == map[0 := Waiting];
  }

  /** A crash is not needed inside the window: a failed log commit whose failure could not be
      recorded either leaves the job pending, and the next process sends again. */
  lemma FailedLogSendsTwice()
    ensures Exec(FIRST_TRY, 5).Some? && SENT_TWICE.job !in Exec(FIRST_TRY, 5).value.workers
    ensures Exec(FIRST_TRY + SECOND_TRY, 5).Some? && Exec(FIRST_TRY + SECOND_TRY, 5).value.outbox[SENT_TWICE] == 2
  {
    var opening := [] + [Restart] + [Enqueue(0, Created, true, false, true)];
    Opens();
    TrySends(opening, 0, Queued, multiset{});
    RaisesTwice(opening + ONE_TRY, 1, multiset{} + multiset{SENT_TWICE});
    assert opening + ONE_TRY + [Raise(0)] + [Raise(0)] == FIRST_TRY;
    var first := FIRST_TRY;
    Reopens(first, 1, multiset{} + multiset{SENT_TWICE});
    TrySends(first + [Crash] + [Restart], 1, InProgress, multiset{} + multiset{SENT_TWICE});
    assert first + [Crash] + [Restart] + ONE_TRY == FIRST_TRY + SECOND_TRY;
  }
}
