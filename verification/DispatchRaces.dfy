/** What several processes do to one notification job: runs that send twice, that run a failed
    job again, and that reach the bound on attempts (app/main.py:74,
    app/services/notification_dispatch_queue.py:58-139). */
module DispatchRaces {
  import opened Wrappers
  import opened Arith
  import opened Dispatch
  import opened DispatchRuns
  import opened DispatchProcesses

  const KEY := Key(0, Email, "ops")
  const PLAN := Plan(0, Some(Alert(true, false)), {"ops"}, {})
  const SEND := Send(0, Email, "ops", true)
  const TRYING := Sending({"ops"}, {}, map[], map[])
  const SENT := Sending({}, {}, map["ops" := true], map[])

  function JobOf(attempts: nat, status: Status): Job { Job(Created, true, false, status, attempts) }

  // ---------- One process's steps on the one job ----------

  ghost function One(job: Job, logs: multiset<Log>, out: multiset<Key>, w: Worker): State {
    State(map[0 := job], logs, map[0 := w], true, out)
  }

  lemma Starts(attempts: nat, status: Status, logs: multiset<Log>, out: multiset<Key>, limit: int)
    requires status != Done
    ensures Moves(limit)(One(JobOf(attempts, status), logs, out, Waiting), Start(0), One(JobOf(attempts + 1, InProgress), logs, out, Started))
  {
    MovesIs(One(JobOf(attempts, status), logs, out, Waiting), Start(0), One(JobOf(attempts + 1, InProgress), logs, out, Started), limit);
    assert map[0 := Waiting][0 := Started] == map[0 := Started];
    assert map[0 := JobOf(attempts, status)][0 := JobOf(attempts + 1, InProgress)] == map[0 := JobOf(attempts + 1, InProgress)];
  }

  lemma Plans(job: Job, out: multiset<Key>, limit: int)
    requires job.kind == Created && job.notifyEmail && !job.notifySms
    ensures Moves(limit)(One(job, multiset{}, out, Started), PLAN, One(job, multiset{}, out, TRYING))
  {
    MovesIs(One(job, multiset{}, out, Started), PLAN, One(job, multiset{}, out, TRYING), limit);
    assert {"ops"} - AlreadySent(multiset{}, 0, Email) == {"ops"};
    assert map[0 := Started][0 := TRYING] == map[0 := TRYING];
  }

  lemma Sends(job: Job, logs: multiset<Log>, out: multiset<Key>, limit: int)
    ensures Moves(limit)(One(job, logs, out, TRYING), SEND, One(job, logs, out + multiset{KEY}, SENT))
  {
    MovesIs(One(job, logs, out, TRYING), SEND, One(job, logs, out + multiset{KEY}, SENT), limit);
    assert {"ops"} - {"ops"} == {};
    assert map[0 := TRYING][0 := SENT] == map[0 := SENT];
  }

  lemma Logs(job: Job, logs: multiset<Log>, out: multiset<Key>, limit: int)
    ensures Moves(limit)(One(job, logs, out, SENT), LogEmail(0), One(job, logs + multiset{SentLog(KEY)}, out, Logging(map[])))
  {
    MovesIs(One(job, logs, out, SENT), LogEmail(0), One(job, logs + multiset{SentLog(KEY)}, out, Logging(map[])), limit);
    var results: Results := map["ops" := true];
    var rows := set r | r in results :: Log(0, Email, r, results[r]);
    assert Log(0, Email, "ops", results["ops"]) in rows;
    assert rows == {SentLog(KEY)};
    assert map[0 := SENT][0 := Logging(map[])] == map[0 := Logging(map[])];
  }

  lemma Fails(job: Job, logs: multiset<Log>, out: multiset<Key>, limit: int)
    ensures Moves(limit)(One(job, logs, out, Started), Raise(0), One(job, logs, out, Closing(false)))
    ensures Moves(limit)(One(job, logs, out, Closing(false)), Close(0),
                         State(map[0 := job.(status := Failed)], logs, map[], true, out))
  {
    var s, t := One(job, logs, out, Started), One(job, logs, out, Closing(false));
    assert map[0 := Started][0 := Closing(false)] == map[0 := Closing(false)];
    MovesIs(s, Raise(0), t, limit);
    assert map[0 := Closing(false)] - {0} == map[] && map[0 := job][0 := job.(status := Failed)] == map[0 := job.(status := Failed)];
    MovesIs(t, Close(0), State(map[0 := job.(status := Failed)], logs, map[], true, out), limit);
  }

  // ---------- Two processes ----------

  /** Two running processes and one job. */
  ghost function Duo(job: Job, logs: multiset<Log>, out: multiset<Key>, a: map<JobId, Worker>, b: map<JobId, Worker>): Cluster {
    Cluster(map[0 := job], logs, out, map[0 := Local(a, true), 1 := Local(b, true)])
  }

  ghost predicate Plays(turns: seq<Turn>, limit: int, c: Cluster) { Play(turns, {0, 1}, limit) == Some(c) }

  ghost predicate Undisturbed(turns: seq<Turn>) {
    forall i | 0 <= i < |turns| :: !turns[i].step.Crash? && !turns[i].step.Raise?
  }

  lemma FirstTakes(turns: seq<Turn>, limit: int, s: State, b: map<JobId, Worker>, step: Step, t: State, d: Cluster)
    requires s.jobs.Keys == t.jobs.Keys == {0} && s.up && t.up
    requires Plays(turns, limit, Duo(s.jobs[0], s.logs, s.outbox, s.workers, b))
    requires Moves(limit)(s, step, t) && d == Duo(t.jobs[0], t.logs, t.outbox, t.workers, b)
    ensures Plays(turns + [Turn(0, step)], limit, d)
  {
    FirstView(s, b);
    FirstView(t, b);
    PlayMoves(turns, Turn(0, step), {0, 1}, limit, t);
    assert WithView(Duo(s.jobs[0], s.logs, s.outbox, s.workers, b), 0, t) == d;
  }

  lemma FirstView(s: State, b: map<JobId, Worker>)
    requires s.jobs.Keys == {0} && s.up
    ensures ViewOf(Duo(s.jobs[0], s.logs, s.outbox, s.workers, b), 0) == s && map[0 := s.jobs[0]] == s.jobs
  {
    assert map[0 := s.jobs[0]] == s.jobs;
  }

  lemma SecondTakes(turns: seq<Turn>, limit: int, s: State, a: map<JobId, Worker>, step: Step, t: State, d: Cluster)
    requires s.jobs.Keys == t.jobs.Keys == {0} && s.up && t.up
    requires Plays(turns, limit, Duo(s.jobs[0], s.logs, s.outbox, a, s.workers))
    requires Moves(limit)(s, step, t) && d == Duo(t.jobs[0], t.logs, t.outbox, a, t.workers)
    ensures Plays(turns + [Turn(1, step)], limit, d)
  {
    SecondView(s, a);
    SecondView(t, a);
    PlayMoves(turns, Turn(1, step), {0, 1}, limit, t);
    assert WithView(Duo(s.jobs[0], s.logs, s.outbox, a, s.workers), 1, t) == d;
  }

  lemma SecondView(s: State, a: map<JobId, Worker>)
    requires s.jobs.Keys == {0} && s.up
    ensures ViewOf(Duo(s.jobs[0], s.logs, s.outbox, a, s.workers), 1) == s && map[0 := s.jobs[0]] == s.jobs
  {
    assert map[0 := s.jobs[0]] == s.jobs;
  }

  const NO_LOCAL := Local(map[], false)

  /** The first process starts on empty tables and queues the job. */
  lemma FirstQueues(limit: int) returns (turns: seq<Turn>)
    ensures Undisturbed(turns)
    ensures Plays(turns, limit, Cluster(map[0 := JobOf(0, Queued)], multiset{}, multiset{}, map[0 := Local(map[0 := Waiting], true), 1 := NO_LOCAL]))
  {
    var c0, s0, s1 := Down({0, 1}), State(map[], multiset{}, map[], false, multiset{}), State(map[], multiset{}, map[], true, multiset{});
    assert c0.locals == map[0 := NO_LOCAL, 1 := NO_LOCAL];
    assert Resumable(map[], limit) == {};
    MovesIs(s0, Restart, s1, limit);
    PlayMoves([], Turn(0, Restart), {0, 1}, limit, s1);
    turns := [] + [Turn(0, Restart)];
    var c1 := WithView(c0, 0, s1);
    assert c1.locals == map[0 := Local(map[], true), 1 := NO_LOCAL];
    var enqueue := Enqueue(0, Created, true, false, true);
    var s2 := One(JobOf(0, Queued), multiset{}, multiset{}, Waiting);
    MovesIs(s1, enqueue, s2, limit);
    PlayMoves(turns, Turn(0, enqueue), {0, 1}, limit, s2);
    assert WithView(c1, 0, s2).locals == map[0 := Local(map[0 := Waiting], true), 1 := NO_LOCAL];
    turns := turns + [Turn(0, enqueue)];
  }

  /** The second process starts beside the first, whose job is queued, and submits it too. */
  lemma BothSubmit(limit: int) returns (turns: seq<Turn>)
    requires limit > 0
    ensures Undisturbed(turns)
    ensures Plays(turns, limit, Duo(JobOf(0, Queued), multiset{}, multiset{}, map[0 := Waiting], map[0 := Waiting]))
  {
    turns := FirstQueues(limit);
    var c := Play(turns, {0, 1}, limit).value;
    SubmitsToo(c, limit);
    PlaySnoc(turns, Turn(1, Restart), {0, 1}, limit);
    turns := turns + [Turn(1, Restart)];
  }

  lemma SubmitsToo(c: Cluster, limit: int)
    requires limit > 0
    requires c == Cluster(map[0 := JobOf(0, Queued)], multiset{}, multiset{}, map[0 := Local(map[0 := Waiting], true), 1 := NO_LOCAL])
    ensures Allowed(c, Turn(1, Restart))
    ensures Take(c, Turn(1, Restart), limit) ==
            Duo(JobOf(0, Queued), multiset{}, multiset{}, map[0 := Waiting], map[0 := Waiting])
  {
    assert RecoverJobs(c.jobs, limit) == c.jobs;
    assert Resumable(c.jobs, limit) == {0};
    assert Apply(ViewOf(c, 1), Restart, limit).workers == map[0 := Waiting];
  }

  lemma BothStart(before: seq<Turn>, limit: int) returns (turns: seq<Turn>)
    requires Undisturbed(before)
    requires Plays(before, limit, Duo(JobOf(0, Queued), multiset{}, multiset{}, map[0 := Waiting], map[0 := Waiting]))
    ensures Undisturbed(turns)
    ensures Plays(turns, limit, Duo(JobOf(2, InProgress), multiset{}, multiset{}, map[0 := Started], map[0 := Started]))
  {
    var one, two := JobOf(1, InProgress), JobOf(2, InProgress);
    Starts(0, Queued, multiset{}, multiset{}, limit);
    FirstTakes(before, limit, One(JobOf(0, Queued), multiset{}, multiset{}, Waiting), map[0 := Waiting], Start(0),
               One(one, multiset{}, multiset{}, Started), Duo(one, multiset{}, multiset{}, map[0 := Started], map[0 := Waiting]));
    turns := before + [Turn(0, Start(0))];
    Starts(1, InProgress, multiset{}, multiset{}, limit);
    SecondTakes(turns, limit, One(one, multiset{}, multiset{}, Waiting), map[0 := Started], Start(0),
                One(two, multiset{}, multiset{}, Started), Duo(two, multiset{}, multiset{}, map[0 := Started], map[0 := Started]));
    turns := turns + [Turn(1, Start(0))];
  }

  lemma BothPlan(before: seq<Turn>, limit: int) returns (turns: seq<Turn>)
    requires Undisturbed(before)
    requires Plays(before, limit, Duo(JobOf(2, InProgress), multiset{}, multiset{}, map[0 := Started], map[0 := Started]))
    ensures Undisturbed(turns)
    ensures Plays(turns, limit, Duo(JobOf(2, InProgress), multiset{}, multiset{}, map[0 := TRYING], map[0 := TRYING]))
  {
    var two := JobOf(2, InProgress);
    Plans(two, multiset{}, limit);
    FirstTakes(before, limit, One(two, multiset{}, multiset{}, Started), map[0 := Started], PLAN,
               One(two, multiset{}, multiset{}, TRYING), Duo(two, multiset{}, multiset{}, map[0 := TRYING], map[0 := Started]));
    turns := before + [Turn(0, PLAN)];
    SecondTakes(turns, limit, One(two, multiset{}, multiset{}, Started), map[0 := TRYING], PLAN,
                One(two, multiset{}, multiset{}, TRYING), Duo(two, multiset{}, multiset{}, map[0 := TRYING], map[0 := TRYING]));
    turns := turns + [Turn(1, PLAN)];
  }

  lemma BothSend(before: seq<Turn>, limit: int) returns (turns: seq<Turn>)
    requires Undisturbed(before)
    requires Plays(before, limit, Duo(JobOf(2, InProgress), multiset{}, multiset{}, map[0 := TRYING], map[0 := TRYING]))
    ensures Undisturbed(turns)
    ensures Plays(turns, limit, Duo(JobOf(2, InProgress), multiset{} + multiset{SentLog(KEY)} + multiset{SentLog(KEY)},
                                    multiset{} + multiset{KEY} + multiset{KEY}, map[0 := Logging(map[])], map[0 := Logging(map[])]))
  {
    var two, none := JobOf(2, InProgress), multiset{};
    var out1 := multiset{} + multiset{KEY};
    var out2 := out1 + multiset{KEY};
    Sends(two, none, multiset{}, limit);
    FirstTakes(before, limit, One(two, none, multiset{}, TRYING), map[0 := TRYING], SEND,
               One(two, none, out1, SENT), Duo(two, none, out1, map[0 := SENT], map[0 := TRYING]));
    turns := before + [Turn(0, SEND)];
    Sends(two, none, out1, limit);
    SecondTakes(turns, limit, One(two, none, out1, TRYING), map[0 := SENT], SEND,
                One(two, none, out2, SENT), Duo(two, none, out2, map[0 := SENT], map[0 := SENT]));
    turns := turns + [Turn(1, SEND)];
    var row1 := none + multiset{SentLog(KEY)};
    var row2 := row1 + multiset{SentLog(KEY)};
    Logs(two, none, out2, limit);
    FirstTakes(turns, limit, One(two, none, out2, SENT), map[0 := SENT], LogEmail(0),
               One(two, row1, out2, Logging(map[])), Duo(two, row1, out2, map[0 := Logging(map[])], map[0 := SENT]));
    turns := turns + [Turn(0, LogEmail(0))];
    Logs(two, row1, out2, limit);
    SecondTakes(turns, limit, One(two, row1, out2, SENT), map[0 := Logging(map[])], LogEmail(0),
                One(two, row2, out2, Logging(map[])), Duo(two, row2, out2, map[0 := Logging(map[])], map[0 := Logging(map[])]));
    turns := turns + [Turn(1, LogEmail(0))];
  }

  lemma {:induction false} UndisturbedCutsNothing(turns: seq<Turn>, procs: set<Proc>, limit: int, k: Key)
    requires Play(turns, procs, limit).Some? && Undisturbed(turns)
    ensures CutsIn(turns, procs, limit, k) == 0
  {
    if turns != [] {
      var g := turns[..|turns| - 1];
      assert forall i | 0 <= i < |g| :: g[i] == turns[i];
      UndisturbedCutsNothing(g, procs, limit, k);
    }
  }

  /** For every positive limit: two processes read the log before either writes it, and a
      recipient gets two messages and has two rows, with no crash and no exception at all. */
  lemma TwoProcessesSendTwice(limit: int) returns (turns: seq<Turn>)
    requires limit > 0
    ensures Undisturbed(turns) && Play(turns, {0, 1}, limit).Some?
    ensures var c := Play(turns, {0, 1}, limit).value;
            c.outbox[KEY] == 2 && c.logs[SentLog(KEY)] == 2 && CutsIn(turns, {0, 1}, limit, KEY) == 0
  {
    turns := BothSubmit(limit);
    turns := BothStart(turns, limit);
    turns := BothPlan(turns, limit);
    turns := BothSend(turns, limit);
    UndisturbedCutsNothing(turns, {0, 1}, limit, KEY);
  }

  /** A job one process has recorded as failed is run again by the other that submitted it. */
  lemma FailedRunsAgain(limit: int) returns (turns: seq<Turn>)
    requires limit > 0
    ensures var c, d := Play(turns, {0, 1}, limit), Play(turns + [Turn(1, Start(0))], {0, 1}, limit);
            && c.Some? && 0 in c.value.jobs && c.value.jobs[0].status == Failed
            && d.Some? && 0 in d.value.jobs && d.value.jobs[0] == JobOf(2, InProgress)
  {
    turns := BothSubmit(limit);
    var one, failed, none, out := JobOf(1, InProgress), JobOf(1, Failed), multiset{}, multiset{};
    Starts(0, Queued, none, out, limit);
    FirstTakes(turns, limit, One(JobOf(0, Queued), none, out, Waiting), map[0 := Waiting], Start(0),
               One(one, none, out, Started), Duo(one, none, out, map[0 := Started], map[0 := Waiting]));
    turns := turns + [Turn(0, Start(0))];
    Fails(one, none, out, limit);
    FirstTakes(turns, limit, One(one, none, out, Started), map[0 := Waiting], Raise(0),
               One(one, none, out, Closing(false)), Duo(one, none, out, map[0 := Closing(false)], map[0 := Waiting]));
    turns := turns + [Turn(0, Raise(0))];
    FirstTakes(turns, limit, One(one, none, out, Closing(false)), map[0 := Waiting], Close(0),
               State(map[0 := failed], none, map[], true, out), Duo(failed, none, out, map[], map[0 := Waiting]));
    turns := turns + [Turn(0, Close(0))];
    Starts(1, Failed, none, out, limit);
    SecondTakes(turns, limit, One(failed, none, out, Waiting), map[], Start(0),
                One(JobOf(2, InProgress), none, out, Started), Duo(JobOf(2, InProgress), none, out, map[], map[0 := Started]));
  }

  // ---------- The bound is reached ----------

  function Slots(n: nat): set<Proc> { if n == 0 then {} else Slots(n - 1) + {n - 1} }

  lemma {:induction false} SlotsAre(n: nat)
    ensures |Slots(n)| == n && forall p: Proc :: p in Slots(n) <==> p < n
  {
    if n > 0 { SlotsAre(n - 1); }
  }

  /** One job; the first `m` of `n` processes stand at `done`, the others at `todo`. */
  ghost predicate Stand(c: Cluster, n: nat, job: Job, m: nat, done: Local, todo: Local) {
    && c.jobs == map[0 := job] && c.logs == multiset{} && c.outbox == multiset{} && c.locals.Keys == Slots(n)
    && forall p | p in c.locals :: c.locals[p] == if p < m then done else todo
  }

  /** The turns lead to such a state. */
  ghost function Reaches(n: nat, limit: int): (seq<Turn>, Job, nat, Local, Local) -> bool {
    (turns: seq<Turn>, job: Job, m: nat, done: Local, todo: Local) =>
      Play(turns, Slots(n), limit).Some? && Stand(Play(turns, Slots(n), limit).value, n, job, m, done, todo)
  }

  const WAITING := Local(map[0 := Waiting], true)
  const STARTED := Local(map[0 := Started], true)

  ghost function At(job: Job, l: Local): State { State(map[0 := job], multiset{}, l.workers, l.up, multiset{}) }

  lemma Boots(job: Job, limit: int)
    requires Pending(job) && job.attempts < limit
    ensures Moves(limit)(At(job, NO_LOCAL), Restart, At(job, WAITING))
  {
    assert RecoverJobs(map[0 := job], limit) == map[0 := job];
    assert Resumable(map[0 := job], limit) == {0};
    assert Apply(At(job, NO_LOCAL), Restart, limit).workers == map[0 := Waiting];
    MovesIs(At(job, NO_LOCAL), Restart, At(job, WAITING), limit);
  }

  lemma Crashes(job: Job, l: Local, limit: int)
    requires l.up
    ensures Moves(limit)(At(job, l), Crash, At(job, NO_LOCAL))
  {
    MovesIs(At(job, l), Crash, At(job, NO_LOCAL), limit);
  }

  lemma StandMoves(c: Cluster, n: nat, m: nat, job: Job, next: Job, done: Local, todo: Local)
    requires m < n && Stand(c, n, job, m, done, todo)
    ensures m in c.locals && ViewOf(c, m) == At(job, todo) && Stand(WithView(c, m, At(next, done)), n, next, m + 1, done, todo)
  {
    SlotsAre(n);
  }

  /** Process `m` goes from `todo` to `done`. */
  lemma NextMoves(turns: seq<Turn>, n: nat, limit: int, m: nat, job: Job, next: Job, done: Local, todo: Local, step: Step)
    requires Reaches(n, limit)(turns, job, m, done, todo) && m < n
    requires Moves(limit)(At(job, todo), step, At(next, done))
    ensures Reaches(n, limit)(turns + [Turn(m, step)], next, m + 1, done, todo)
  {
    SlotsAre(n);
    StandMoves(Play(turns, Slots(n), limit).value, n, m, job, next, done, todo);
    PlayMoves(turns, Turn(m, step), Slots(n), limit, At(next, done));
  }

  lemma ZeroStands(c: Cluster, n: nat, job: Job, next: Job, before: Local, after: Local)
    requires 0 < n && Stand(c, n, job, 1, before, NO_LOCAL)
    ensures 0 in c.locals && ViewOf(c, 0) == At(job, before) && Stand(WithView(c, 0, At(next, after)), n, next, 1, after, NO_LOCAL)
  {
    SlotsAre(n);
  }

  /** Process 0 alone moves, the others stay down. */
  lemma ZeroMoves(turns: seq<Turn>, n: nat, limit: int, job: Job, next: Job, before: Local, after: Local, step: Step)
    requires Reaches(n, limit)(turns, job, 1, before, NO_LOCAL) && 0 < n
    requires Moves(limit)(At(job, before), step, At(next, after))
    ensures Reaches(n, limit)(turns + [Turn(0, step)], next, 1, after, NO_LOCAL)
  {
    SlotsAre(n);
    ZeroStands(Play(turns, Slots(n), limit).value, n, job, next, before, after);
    PlayMoves(turns, Turn(0, step), Slots(n), limit, At(next, after));
  }

  /** When all stand alike none has gone on yet. */
  lemma NoneYet(turns: seq<Turn>, n: nat, limit: int, job: Job, m: nat, all: Local, rest: Local, done: Local)
    requires Reaches(n, limit)(turns, job, m, all, rest) && (m == n || rest == all)
    ensures Reaches(n, limit)(turns, job, 0, done, all)
  {
    SlotsAre(n);
  }

  lemma QueuesUnsubmitted(n: nat, limit: int) returns (turns: seq<Turn>)
    requires n >= 1
    ensures Reaches(n, limit)(turns, JobOf(0, Queued), 1, NO_LOCAL, NO_LOCAL)
  {
    var s0, s1 := State(map[], multiset{}, map[], false, multiset{}), State(map[], multiset{}, map[], true, multiset{});
    var c0 := Down(Slots(n));
    SlotsAre(n);
    assert Resumable(map[], limit) == {};
    assert ViewOf(c0, 0) == s0;
    MovesIs(s0, Restart, s1, limit);
    PlayMoves([], Turn(0, Restart), Slots(n), limit, s1);
    turns := [] + [Turn(0, Restart)];
    var enqueue := Enqueue(0, Created, true, false, false);
    MovesIs(s1, enqueue, At(JobOf(0, Queued), Local(map[], true)), limit);
    PlayMoves(turns, Turn(0, enqueue), Slots(n), limit, At(JobOf(0, Queued), Local(map[], true)));
    turns := turns + [Turn(0, enqueue)];
    assert Reaches(n, limit)(turns, JobOf(0, Queued), 1, Local(map[], true), NO_LOCAL);
    Crashes(JobOf(0, Queued), Local(map[], true), limit);
    ZeroMoves(turns, n, limit, JobOf(0, Queued), JobOf(0, Queued), Local(map[], true), NO_LOCAL, Crash);
    turns := turns + [Turn(0, Crash)];
  }

  /** A first process that crashes in each of its attempts. */
  lemma {:induction false} CrashesEachTime(n: nat, limit: int, attempts: nat) returns (turns: seq<Turn>, status: Status)
    requires n >= 1 && attempts <= limit
    ensures Reaches(n, limit)(turns, JobOf(attempts, status), 1, NO_LOCAL, NO_LOCAL) && (status == Queued || status == InProgress)
  {
    if attempts == 0 {
      turns := QueuesUnsubmitted(n, limit);
      status := Queued;
    } else {
      turns, status := CrashesEachTime(n, limit, attempts - 1);
      turns := TryAndCrash(turns, n, limit, attempts - 1, status);
      status := InProgress;
    }
  }

  lemma TryAndCrash(turns: seq<Turn>, n: nat, limit: int, attempts: nat, status: Status) returns (more: seq<Turn>)
    requires n >= 1 && attempts < limit && (status == Queued || status == InProgress)
    requires Reaches(n, limit)(turns, JobOf(attempts, status), 1, NO_LOCAL, NO_LOCAL)
    ensures Reaches(n, limit)(more, JobOf(attempts + 1, InProgress), 1, NO_LOCAL, NO_LOCAL)
  {
    var job, next := JobOf(attempts, status), JobOf(attempts + 1, InProgress);
    Boots(job, limit);
    ZeroMoves(turns, n, limit, job, job, NO_LOCAL, WAITING, Restart);
    more := turns + [Turn(0, Restart)];
    Starts(attempts, status, multiset{}, multiset{}, limit);
    ZeroMoves(more, n, limit, job, next, WAITING, STARTED, Start(0));
    more := more + [Turn(0, Start(0))];
    Crashes(next, STARTED, limit);
    ZeroMoves(more, n, limit, next, next, STARTED, NO_LOCAL, Crash);
    more := more + [Turn(0, Crash)];
  }

  lemma OneBoots(turns: seq<Turn>, n: nat, limit: int, m: nat, job: Job) returns (more: seq<Turn>)
    requires Reaches(n, limit)(turns, job, m, WAITING, NO_LOCAL) && m < n && Pending(job) && job.attempts < limit
    ensures Reaches(n, limit)(more, job, m + 1, WAITING, NO_LOCAL)
  {
    Boots(job, limit);
    NextMoves(turns, n, limit, m, job, job, WAITING, NO_LOCAL, Restart);
    more := turns + [Turn(m, Restart)];
  }

  lemma OneStarts(turns: seq<Turn>, n: nat, limit: int, m: nat, attempts: nat, status: Status) returns (more: seq<Turn>)
    requires Reaches(n, limit)(turns, JobOf(attempts, status), m, STARTED, WAITING) && m < n && status != Done
    ensures Reaches(n, limit)(more, JobOf(attempts + 1, InProgress), m + 1, STARTED, WAITING)
  {
    Starts(attempts, status, multiset{}, multiset{}, limit);
    NextMoves(turns, n, limit, m, JobOf(attempts, status), JobOf(attempts + 1, InProgress), STARTED, WAITING, Start(0));
    more := turns + [Turn(m, Start(0))];
  }

  lemma {:induction false} AllBoot(n: nat, limit: int, m: nat) returns (turns: seq<Turn>, status: Status)
    requires 1 <= limit && m <= n && n >= 1
    ensures Reaches(n, limit)(turns, JobOf(limit - 1, status), m, WAITING, NO_LOCAL) && (status == Queued || status == InProgress)
  {
    if m == 0 {
      turns, status := CrashesEachTime(n, limit, limit - 1);
      NoneYet(turns, n, limit, JobOf(limit - 1, status), 1, NO_LOCAL, NO_LOCAL, WAITING);
    } else {
      turns, status := AllBoot(n, limit, m - 1);
      turns := OneBoots(turns, n, limit, m - 1, JobOf(limit - 1, status));
    }
  }

  lemma {:induction false} AllStart(n: nat, limit: int, m: nat) returns (turns: seq<Turn>, status: Status)
    requires 1 <= limit && m <= n && n >= 1
    ensures Reaches(n, limit)(turns, JobOf(limit - 1 + m, status), m, STARTED, WAITING) && (status == Queued || status == InProgress)
  {
    if m == 0 {
      turns, status := AllBoot(n, limit, n);
      NoneYet(turns, n, limit, JobOf(limit - 1, status), n, WAITING, NO_LOCAL, STARTED);
    } else {
      turns, status := AllStart(n, limit, m - 1);
      turns := OneStarts(turns, n, limit, m - 1, limit - 1 + (m - 1), status);
      status := InProgress;
    }
  }

  /** For every positive limit and any number n of processes, some run attempts a job
      limit + n - 1 times: the bound is the best there is. */
  lemma BoundIsReached(n: nat, limit: int) returns (turns: seq<Turn>)
    requires n >= 1 && limit >= 1
    ensures Play(turns, Slots(n), limit).Some? && 0 in Play(turns, Slots(n), limit).value.jobs
    ensures Play(turns, Slots(n), limit).value.jobs[0].attempts == limit + n - 1 == Max(limit, 1) + |Slots(n)| - 1
  {
    var status: Status;
    turns, status := AllStart(n, limit, n);
    SlotsAre(n);
    assert Reaches(n, limit)(turns, JobOf(limit - 1 + n, status), n, STARTED, WAITING);
  }
}
