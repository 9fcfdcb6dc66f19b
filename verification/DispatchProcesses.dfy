/** Notification jobs of several processes over the same rows: each recovers on its own start,
    beside the others, and no row is locked (app/main.py:74,
    app/services/notification_dispatch_queue.py:58-139). A turn is one step of one process, as
    in Dispatch; reading and writing a job row is one step. */
module DispatchProcesses {
  import opened Wrappers
  import opened Arith
  import opened Dispatch
  import opened DispatchRuns

  type Proc = nat

  datatype Local = Local(workers: map<JobId, Worker>, up: bool)

  datatype Cluster = Cluster(jobs: map<JobId, Job>, logs: multiset<Log>, outbox: multiset<Key>, locals: map<Proc, Local>)

  datatype Turn = Turn(p: Proc, step: Step)

  /** The rows and the process's own workers. */
  ghost function ViewOf(c: Cluster, p: Proc): State
    requires p in c.locals
  {
    State(c.jobs, c.logs, c.locals[p].workers, c.locals[p].up, c.outbox)
  }

  ghost function WithView(c: Cluster, p: Proc, s: State): Cluster {
    Cluster(s.jobs, s.logs, s.outbox, c.locals[p := Local(s.workers, s.up)])
  }

  ghost predicate Allowed(c: Cluster, t: Turn) { t.p in c.locals && Enabled(ViewOf(c, t.p), t.step) }

  ghost function Take(c: Cluster, t: Turn, limit: int): Cluster
    requires Allowed(c, t)
  {
    WithView(c, t.p, Apply(ViewOf(c, t.p), t.step, limit))
  }

  ghost function Down(procs: set<Proc>): Cluster {
    Cluster(map[], multiset{}, multiset{}, map p | p in procs :: Local(map[], false))
  }

  ghost function Play(turns: seq<Turn>, procs: set<Proc>, limit: int): Option<Cluster> {
    if turns == [] then Some(Down(procs))
    else
      var before := Play(turns[..|turns| - 1], procs, limit);
      if before.Some? && Allowed(before.value, turns[|turns| - 1])
      then Some(Take(before.value, turns[|turns| - 1], limit))
      else None
  }

  lemma PlaySnoc(turns: seq<Turn>, t: Turn, procs: set<Proc>, limit: int)
    requires Play(turns, procs, limit).Some? && Allowed(Play(turns, procs, limit).value, t)
    ensures Play(turns + [t], procs, limit) == Some(Take(Play(turns, procs, limit).value, t, limit))
  {
    assert (turns + [t])[..|turns|] == turns;
  }

  lemma PlayMoves(turns: seq<Turn>, t: Turn, procs: set<Proc>, limit: int, r: State)
    requires Play(turns, procs, limit).Some? && t.p in Play(turns, procs, limit).value.locals
    requires Moves(limit)(ViewOf(Play(turns, procs, limit).value, t.p), t.step, r)
    ensures Play(turns + [t], procs, limit) == Some(WithView(Play(turns, procs, limit).value, t.p, r))
  {
    MovesIs(ViewOf(Play(turns, procs, limit).value, t.p), t.step, r, limit);
    PlaySnoc(turns, t, procs, limit);
  }

  // ---------- Counting processes ----------

  ghost function CountOf(procs: set<Proc>, f: Proc -> bool): nat { |set p | p in procs && f(p)| }

  /** Only one process changed. */
  lemma CountChanges(procs: set<Proc>, f: Proc -> bool, g: Proc -> bool, p: Proc)
    requires p in procs && forall q | q in procs && q != p :: f(q) == g(q)
    ensures CountOf(procs, g) + Flag(f(p)) == CountOf(procs, f) + Flag(g(p))
  {
    CountWithout(procs, f, p);
    CountWithout(procs, g, p);
    assert (set q | q in procs - {p} && f(q)) == (set q | q in procs - {p} && g(q));
  }

  lemma CountWithout(procs: set<Proc>, f: Proc -> bool, p: Proc)
    requires p in procs
    ensures CountOf(procs, f) == CountOf(procs - {p}, f) + Flag(f(p))
  {
    assert (set q | q in procs && f(q)) == (set q | q in procs - {p} && f(q)) + (if f(p) then {p} else {});
  }

  lemma CountIsAtMost(procs: set<Proc>, f: Proc -> bool)
    ensures CountOf(procs, f) <= |procs|
  {
    var a := set p | p in procs && f(p);
    assert procs == a + (procs - a);
  }

  ghost function HasWaiting(c: Cluster, j: JobId): Proc -> bool {
    (p: Proc) => p in c.locals && j in c.locals[p].workers && c.locals[p].workers[j].Waiting?
  }

  ghost function HasInFlight(c: Cluster, k: Key): Proc -> bool {
    (p: Proc) => p in c.locals && InFlight(ViewOf(c, p), k)
  }

  ghost function CanSend(c: Cluster, k: Key): Proc -> bool {
    (p: Proc) => p in c.locals && MaySend(ViewOf(c, p), k)
  }

  // ---------- Invariants ----------

  ghost predicate Placed(c: Cluster, k: Key) { forall p | p in c.locals :: InPlace(ViewOf(c, p), k) }

  lemma JobsStay(s: State, step: Step, limit: int)
    requires Enabled(s, step)
    ensures s.jobs.Keys <= Apply(s, step, limit).jobs.Keys
  {
  }

  lemma InPlaceStays(s: State, step: Step, limit: int, k: Key)
    requires Enabled(s, step) && InPlace(s, k)
    ensures InPlace(Apply(s, step, limit), k)
  {
  }

  lemma PlacedStays(c: Cluster, t: Turn, limit: int, k: Key)
    requires Allowed(c, t) && Placed(c, k)
    ensures Placed(Take(c, t, limit), k)
  {
    JobsStay(ViewOf(c, t.p), t.step, limit);
    InPlaceStays(ViewOf(c, t.p), t.step, limit, k);
    var d := Take(c, t, limit);
    forall p | p in d.locals ensures InPlace(ViewOf(d, p), k) {
      assert InPlace(ViewOf(c, p), k);
    }
  }

  lemma {:induction false} PlacedAlways(turns: seq<Turn>, procs: set<Proc>, limit: int, k: Key)
    requires Play(turns, procs, limit).Some?
    ensures var c := Play(turns, procs, limit).value; c.locals.Keys == procs && Placed(c, k)
  {
    if turns != [] {
      PlacedAlways(turns[..|turns| - 1], procs, limit, k);
      PlacedStays(Play(turns[..|turns| - 1], procs, limit).value, turns[|turns| - 1], limit, k);
    }
  }

  // ---------- Every message is accounted for ----------

  ghost predicate CutsOff(c: Cluster, t: Turn, k: Key)
    requires t.p in c.locals
  {
    Cuts(ViewOf(c, t.p), t.step, k)
  }

  ghost function CutsIn(turns: seq<Turn>, procs: set<Proc>, limit: int, k: Key): nat
    requires Play(turns, procs, limit).Some?
  {
    if turns == [] then 0
    else
      var g := turns[..|turns| - 1];
      CutsIn(g, procs, limit, k) + Flag(CutsOff(Play(g, procs, limit).value, turns[|turns| - 1], k))
  }

  /** For any number of processes: a message that went out has its own row in the log, is on
      its way into it, or was cut off by a crash or an exception in between. */
  lemma {:induction false} EverySendIsAccounted(turns: seq<Turn>, procs: set<Proc>, limit: int, k: Key)
    requires Play(turns, procs, limit).Some?
    ensures var c := Play(turns, procs, limit).value;
            c.outbox[k] == c.logs[SentLog(k)] + CountOf(procs, HasInFlight(c, k)) + CutsIn(turns, procs, limit, k)
  {
    if turns == [] {
      assert (set p | p in procs && HasInFlight(Down(procs), k)(p)) == {};
    } else {
      var g, t := turns[..|turns| - 1], turns[|turns| - 1];
      EverySendIsAccounted(g, procs, limit, k);
      PlacedAlways(g, procs, limit, k);
      AccountTurn(Play(g, procs, limit).value, t, procs, limit, k);
    }
  }

  lemma AccountTurn(c: Cluster, t: Turn, procs: set<Proc>, limit: int, k: Key)
    requires Allowed(c, t) && c.locals.Keys == procs && Placed(c, k)
    ensures var d := Take(c, t, limit);
            d.outbox[k] + c.logs[SentLog(k)] + CountOf(procs, HasInFlight(c, k)) ==
            c.outbox[k] + d.logs[SentLog(k)] + CountOf(procs, HasInFlight(d, k)) + Flag(CutsOff(c, t, k))
  {
    assert InPlace(ViewOf(c, t.p), k);
    BalanceStep(ViewOf(c, t.p), t.step, limit, k);
    CountChanges(procs, HasInFlight(c, k), HasInFlight(Take(c, t, limit), k), t.p);
  }

  // ---------- How often ----------

  /** `waiting`: submissions of the job not yet started. */
  ghost predicate Bounded(c: Cluster, procs: set<Proc>, limit: int, j: JobId) {
    j in c.jobs ==> c.jobs[j].attempts + CountOf(procs, HasWaiting(c, j)) <= Max(limit, 1) + |procs| - 1
  }

  ghost predicate Spent(c: Cluster, procs: set<Proc>, k: Key) {
    && (k.job !in c.jobs ==> c.outbox[k] == 0)
    && (k.job in c.jobs ==> c.outbox[k] + CountOf(procs, CanSend(c, k)) <= c.jobs[k.job].attempts)
  }

  ghost function Waits(s: State, j: JobId): bool { j in s.workers && s.workers[j].Waiting? }

  /** What a step of one process does to a job's attempts and to its own submission: no more
      in all, or one submission of a job below the limit. */
  ghost predicate Counts(s: State, t: State, limit: int, j: JobId)
    requires j in s.jobs
  {
    && j in t.jobs
    && (t.jobs[j].attempts + Flag(Waits(t, j)) <= s.jobs[j].attempts + Flag(Waits(s, j))
        || (!Waits(s, j) && t.jobs[j].attempts == s.jobs[j].attempts < limit))
  }

  lemma RestartCounts(s: State, limit: int, j: JobId)
    requires !s.up && j in s.jobs && j !in s.workers
    ensures Counts(s, Apply(s, Restart, limit), limit, j)
  {
  }

  lemma StartCounts(s: State, i: JobId, limit: int, j: JobId)
    requires Enabled(s, Start(i)) && j in s.jobs
    ensures Counts(s, Apply(s, Start(i), limit), limit, j)
  {
  }

  lemma OtherCounts(s: State, step: Step, limit: int, j: JobId)
    requires !step.Restart? && !step.Start? && Enabled(s, step) && j in s.jobs
    ensures Counts(s, Apply(s, step, limit), limit, j)
  {
  }

  lemma AttemptsStep(s: State, step: Step, limit: int, j: JobId)
    requires Enabled(s, step) && j in s.jobs && (j in s.workers ==> s.up)
    ensures Counts(s, Apply(s, step, limit), limit, j)
  {
    if step.Restart? {
      RestartCounts(s, limit, j);
    } else if step.Start? {
      StartCounts(s, step.j, limit, j);
    } else {
      OtherCounts(s, step, limit, j);
    }
  }

  lemma BoundedTurn(c: Cluster, t: Turn, procs: set<Proc>, limit: int, j: JobId)
    requires Allowed(c, t) && c.locals.Keys == procs && Bounded(c, procs, limit, j)
    requires forall p | p in c.locals && j in c.locals[p].workers :: j in c.jobs && c.locals[p].up
    ensures Bounded(Take(c, t, limit), procs, limit, j)
  {
    var d := Take(c, t, limit);
    CountChanges(procs, HasWaiting(c, j), HasWaiting(d, j), t.p);
    CountIsAtMost(procs, HasWaiting(d, j));
    if j in c.jobs {
      AttemptsStep(ViewOf(c, t.p), t.step, limit, j);
    } else {
      assert (set p | p in procs && HasWaiting(c, j)(p)) == {};
    }
  }

  /** What a step of one process does to its messages for one recipient. */
  ghost predicate Affords(s: State, t: State, k: Key)
    requires k.job in s.jobs
  {
    k.job in t.jobs &&
    t.outbox[k] + Flag(MaySend(t, k)) + s.jobs[k.job].attempts <= s.outbox[k] + Flag(MaySend(s, k)) + t.jobs[k.job].attempts
  }

  lemma SendAffords(s: State, step: Step, limit: int, k: Key)
    requires step.Send? && Enabled(s, step) && k.job in s.jobs
    ensures Affords(s, Apply(s, step, limit), k)
  {
  }

  lemma PlanAffords(s: State, step: Step, limit: int, k: Key)
    requires (step.Start? || step.Plan? || step.Restart?) && Enabled(s, step) && InPlace(s, k) && k.job in s.jobs
    ensures Affords(s, Apply(s, step, limit), k)
  {
  }

  lemma OtherAffords(s: State, step: Step, limit: int, k: Key)
    requires !step.Send? && !step.Start? && !step.Plan? && !step.Restart? && Enabled(s, step) && k.job in s.jobs
    ensures Affords(s, Apply(s, step, limit), k)
  {
  }

  lemma SendsStep(s: State, step: Step, limit: int, k: Key)
    requires Enabled(s, step) && InPlace(s, k) && k.job in s.jobs
    ensures Affords(s, Apply(s, step, limit), k)
  {
    if step.Send? {
      SendAffords(s, step, limit, k);
    } else if step.Start? || step.Plan? || step.Restart? {
      PlanAffords(s, step, limit, k);
    } else {
      OtherAffords(s, step, limit, k);
    }
  }

  lemma NoJobNoSend(s: State, step: Step, limit: int, k: Key)
    requires Enabled(s, step) && InPlace(s, k) && k.job !in s.jobs
    ensures var t := Apply(s, step, limit); t.outbox[k] == s.outbox[k] && !MaySend(t, k)
  {
  }

  lemma SpentTurn(c: Cluster, t: Turn, procs: set<Proc>, limit: int, k: Key)
    requires Allowed(c, t) && c.locals.Keys == procs && Placed(c, k) && Spent(c, procs, k)
    ensures Spent(Take(c, t, limit), procs, k)
  {
    var d := Take(c, t, limit);
    assert InPlace(ViewOf(c, t.p), k);
    CountChanges(procs, CanSend(c, k), CanSend(d, k), t.p);
    if k.job in c.jobs {
      SendsStep(ViewOf(c, t.p), t.step, limit, k);
    } else {
      NoJobNoSend(ViewOf(c, t.p), t.step, limit, k);
      forall p | p in procs ensures !CanSend(c, k)(p) {
        assert InPlace(ViewOf(c, p), k);
      }
      assert (set p | p in procs && CanSend(c, k)(p)) == {};
    }
  }

  lemma {:induction false} BoundedAlways(turns: seq<Turn>, procs: set<Proc>, limit: int, k: Key)
    requires Play(turns, procs, limit).Some? && procs != {}
    ensures var c := Play(turns, procs, limit).value; Bounded(c, procs, limit, k.job) && Spent(c, procs, k)
  {
    if turns != [] {
      var g, t := turns[..|turns| - 1], turns[|turns| - 1];
      BoundedAlways(g, procs, limit, k);
      PlacedAlways(g, procs, limit, k);
      var c := Play(g, procs, limit).value;
      forall p | p in c.locals && k.job in c.locals[p].workers ensures k.job in c.jobs && c.locals[p].up {
        assert InPlace(ViewOf(c, p), k);
      }
      BoundedTurn(c, t, procs, limit, k.job);
      SpentTurn(c, t, procs, limit, k);
    }
  }

  /** With n processes a job is attempted at most max(limit, 1) + n - 1 times, submissions that
      still wait included, and no recipient hears of it more often. */
  lemma AttemptsAreBounded(turns: seq<Turn>, procs: set<Proc>, limit: int, k: Key)
    requires Play(turns, procs, limit).Some? && procs != {}
    ensures var c := Play(turns, procs, limit).value;
            && (k.job in c.jobs ==> c.jobs[k.job].attempts + CountOf(procs, HasWaiting(c, k.job)) <= Max(limit, 1) + |procs| - 1)
            && c.outbox[k] <= Max(limit, 1) + |procs| - 1
  {
    BoundedAlways(turns, procs, limit, k);
  }

  // ---------- What is final ----------

  /** The worker has nothing left to send to this recipient and nothing of it left to log. */
  ghost predicate Through(s: State, k: Key) {
    k.job in s.workers ==>
      k.recipient !in Todo(s.workers[k.job], k.channel) && k.recipient !in Unlogged(s.workers[k.job], k.channel)
  }

  lemma ThroughStays(s: State, step: Step, limit: int, k: Key)
    requires Enabled(s, step) && SentLog(k) in s.logs && Through(s, k)
    ensures var t := Apply(s, step, limit);
            Through(t, k) && t.logs[SentLog(k)] == s.logs[SentLog(k)] && t.outbox[k] == s.outbox[k]
  {
    match step
    case LogEmail(j) => LogRowsAt(j, Email, s.workers[j].mailed, k);
    case LogSms(j) => LogRowsAt(j, Sms, s.workers[j].texted, k);
    case Plan(_, _, _, _) =>
      assert k.recipient in AlreadySent(s.logs, k.job, k.channel);
    case Enqueue(_, _, _, _, _) =>
    case Start(_) =>
    case Send(_, _, _, _) =>
    case Close(_) =>
    case Raise(_) =>
    case Crash =>
    case Restart =>
  }

  ghost predicate AllThrough(c: Cluster, k: Key) { forall p | p in c.locals :: Through(ViewOf(c, p), k) }

  lemma AllThroughStays(c: Cluster, t: Turn, limit: int, k: Key)
    requires Allowed(c, t) && SentLog(k) in c.logs && AllThrough(c, k)
    ensures var d := Take(c, t, limit);
            AllThrough(d, k) && d.logs[SentLog(k)] == c.logs[SentLog(k)] && d.outbox[k] == c.outbox[k]
  {
    ThroughStays(ViewOf(c, t.p), t.step, limit, k);
    var d := Take(c, t, limit);
    forall p | p in d.locals ensures Through(ViewOf(d, p), k) {
      assert Through(ViewOf(c, p), k);
    }
  }

  lemma {:induction false} Earlier(turns: seq<Turn>, procs: set<Proc>, limit: int, m: nat)
    requires m <= |turns| && Play(turns, procs, limit).Some?
    ensures Play(turns[..m], procs, limit).Some?
  {
    if m < |turns| {
      var g := turns[..|turns| - 1];
      Earlier(g, procs, limit, m);
      assert g[..m] == turns[..m];
    } else {
      assert turns[..m] == turns;
    }
  }

  lemma LastTurn(turns: seq<Turn>, procs: set<Proc>, limit: int)
    requires turns != [] && Play(turns, procs, limit).Some?
    ensures var g, t := turns[..|turns| - 1], turns[|turns| - 1];
            && Play(g, procs, limit).Some? && Allowed(Play(g, procs, limit).value, t)
            && Play(turns, procs, limit) == Some(Take(Play(g, procs, limit).value, t, limit))
  {
  }

  lemma OneTurn(turns: seq<Turn>, procs: set<Proc>, limit: int, m: nat)
    requires m < |turns| && Play(turns, procs, limit).Some?
    ensures Play(turns[..m], procs, limit).Some? && Allowed(Play(turns[..m], procs, limit).value, turns[m])
    ensures Play(turns[..m + 1], procs, limit) == Some(Take(Play(turns[..m], procs, limit).value, turns[m], limit))
  {
    var p := turns[..m + 1];
    Earlier(turns, procs, limit, m + 1);
    LastTurn(p, procs, limit);
    assert p[..|p| - 1] == turns[..m] && p[|p| - 1] == turns[m];
  }

  /** Once the log shows a recipient as reached and no process is in the middle of reaching it,
      nothing more is sent to it or logged as sent, whatever fails or starts. */
  lemma {:induction false} LoggedIsFinal(turns: seq<Turn>, procs: set<Proc>, limit: int, m: nat, k: Key)
    requires m <= |turns| && Play(turns, procs, limit).Some? && Play(turns[..m], procs, limit).Some?
    requires var c := Play(turns[..m], procs, limit).value; SentLog(k) in c.logs && AllThrough(c, k)
    ensures var c, d := Play(turns[..m], procs, limit).value, Play(turns, procs, limit).value;
            d.logs[SentLog(k)] == c.logs[SentLog(k)] && d.outbox[k] == c.outbox[k]
    decreases |turns| - m
  {
    if m < |turns| {
      OneTurn(turns, procs, limit, m);
      AllThroughStays(Play(turns[..m], procs, limit).value, turns[m], limit, k);
      LoggedIsFinal(turns, procs, limit, m + 1, k);
    } else {
      assert turns[..m] == turns;
    }
  }

  /** The job is decided, and no process has it but to find it done. */
  ghost predicate Settled(s: State, j: JobId) {
    && j in s.jobs && !Pending(s.jobs[j])
    && (j in s.workers ==> s.workers[j].Waiting? && s.jobs[j].status == Done)
  }

  lemma SettledStays(s: State, step: Step, limit: int, k: Key)
    requires Enabled(s, step) && Settled(s, k.job)
    ensures var t := Apply(s, step, limit);
            Settled(t, k.job) && t.jobs[k.job] == s.jobs[k.job] && t.outbox[k] == s.outbox[k]
  {
  }

  ghost predicate AllSettled(c: Cluster, j: JobId) {
    c.locals != map[] && forall p | p in c.locals :: Settled(ViewOf(c, p), j)
  }

  lemma AllSettledStays(c: Cluster, t: Turn, limit: int, k: Key)
    requires Allowed(c, t) && AllSettled(c, k.job)
    ensures var d := Take(c, t, limit);
            && AllSettled(d, k.job) && k.job in c.jobs && k.job in d.jobs
            && d.jobs[k.job] == c.jobs[k.job] && d.outbox[k] == c.outbox[k]
  {
    assert Settled(ViewOf(c, t.p), k.job);
    SettledStays(ViewOf(c, t.p), t.step, limit, k);
    var d := Take(c, t, limit);
    forall p | p in d.locals ensures Settled(ViewOf(d, p), k.job) {
      assert Settled(ViewOf(c, p), k.job);
    }
  }

  /** A job that is done, or failed with no process still holding it, never changes and never
      sends again. */
  lemma {:induction false} OutcomeIsFinal(turns: seq<Turn>, procs: set<Proc>, limit: int, m: nat, k: Key)
    requires m <= |turns| && Play(turns, procs, limit).Some? && Play(turns[..m], procs, limit).Some?
    requires AllSettled(Play(turns[..m], procs, limit).value, k.job)
    ensures var c, d := Play(turns[..m], procs, limit).value, Play(turns, procs, limit).value;
            k.job in c.jobs && k.job in d.jobs && d.jobs[k.job] == c.jobs[k.job] && d.outbox[k] == c.outbox[k]
    decreases |turns| - m
  {
    var c := Play(turns[..m], procs, limit).value;
    if m < |turns| {
      OneTurn(turns, procs, limit, m);
      AllSettledStays(c, turns[m], limit, k);
      OutcomeIsFinal(turns, procs, limit, m + 1, k);
    } else {
      assert turns[..m] == turns;
      var p :| p in c.locals;
      assert Settled(ViewOf(c, p), k.job);
    }
  }
}
