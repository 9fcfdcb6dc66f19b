/** The notification queue of one process: every change it makes is a step of the model in
    Dispatch, recorded in the order taken. */
module DispatchQueue {
  import opened Wrappers
  import opened Arith
  import opened Dispatch
  import opened DispatchRuns

  /** Where a run can raise. */
  datatype Point = AtStart | AtRead | AtSend | AtEmailLog | AtSmsLog | AtMark

  /** What the outside world does during one run: the alert and recipients found, the
      recipients whose message goes out, and the points that raise. */
  datatype World = World(alert: Option<Alert>, emails: set<Recipient>, phones: set<Recipient>,
                         mailable: set<Recipient>, textable: set<Recipient>, faults: set<Point>)

  function ResultsFor(todo: set<Recipient>, reachable: set<Recipient>): Results {
    map r | r in todo :: r in reachable
  }

  function KeysFor(j: JobId, channel: Channel, todo: set<Recipient>, reachable: set<Recipient>): multiset<Key> {
    multiset(set r | r in todo && r in reachable :: Key(j, channel, r))
  }

  /** Whom an undisturbed run owes a message: everyone found for the channel, if the alert
      exists and the channel was asked for (by the job for a new alert, by the alert for a
      resolved one), unless the log already shows them as reached. */
  predicate Owed(job: Job, j: JobId, world: World, logs: multiset<Log>, channel: Channel, r: Recipient) {
    && world.alert.Some?
    && (match channel
        case Email => r in world.emails && (if job.kind == Created then job.notifyEmail else world.alert.value.notifyEmail)
        case Sms => r in world.phones && (if job.kind == Created then job.notifySms else world.alert.value.notifySms))
    && Log(j, channel, r, true) !in logs
  }

  /** Each of them gets one new row with its outcome and, when it can be reached, one message;
      nothing else is logged or sent. */
  ghost predicate Serves(job: Job, j: JobId, world: World, logs: multiset<Log>, after: multiset<Log>,
                         outbox: multiset<Key>, outAfter: multiset<Key>)
  {
    && (forall l: Log :: after[l] == logs[l] +
          if l.job == j && Owed(job, j, world, logs, l.channel, l.recipient)
             && l.sent == (l.recipient in (if l.channel == Email then world.mailable else world.textable)) then 1 else 0)
    && (forall k: Key :: outAfter[k] == outbox[k] +
          if k.job == j && Owed(job, j, world, logs, k.channel, k.recipient)
             && k.recipient in (if k.channel == Email then world.mailable else world.textable) then 1 else 0)
  }

  /** The run leads to this state. */
  ghost function Reaches(limit: int): (seq<Step>, State) -> bool {
    (run, s) => Exec(run, limit) == Some(s)
  }

  class Queue {
    var jobs: map<JobId, Job>
    var logs: multiset<Log>
    var pool: set<JobId>
    var nextId: JobId
    const limit: int
    ghost var now: State
    ghost var run: seq<Step>

    ghost predicate Tracks()
      reads this
    {
      Reaches(limit)(run, now) && jobs == now.jobs && logs == now.logs
    }

    ghost predicate Valid()
      reads this
    {
      && Tracks()
      && now.workers == Waits(pool) && pool <= jobs.Keys
      && (forall j | j in jobs :: j < nextId)
    }

    constructor (limit: int)
      ensures Valid() && now == INITIAL && this.limit == limit
    {
      this.limit := limit;
      jobs, logs, pool, nextId := map[], multiset{}, {}, 0;
      now, run := INITIAL, [];
    }

    ghost method Take(step: Step, next: State)
      requires Reaches(limit)(run, now) && Moves(limit)(now, step, next)
      modifies this`now, this`run
      ensures now == next && run == old(run) + [step] && Reaches(limit)(run, now)
    {
      ExecSnoc(run, step, limit);
      now := next;
      run := run + [step];
    }

    /** The row is committed before the job is submitted; `accepting` says whether the
        executor still takes work. */
    method EnqueueAndSubmit(kind: Kind, email: bool, sms: bool, accepting: bool) returns (j: JobId)
      requires Valid() && now.up
      modifies this
      ensures Valid() && now.up
      ensures j !in old(jobs) && jobs == old(jobs)[j := Job(kind, email, sms, Queued, 0)]
      ensures pool == if accepting then old(pool) + {j} else old(pool)
      ensures logs == old(logs) && now.outbox == old(now.outbox)
    {
      j := nextId;
      nextId := nextId + 1;
      jobs := jobs[j := Job(kind, email, sms, Queued, 0)];
      if accepting {
        pool := pool + {j};
      }
      Take(Enqueue(j, kind, email, sms, accepting), Apply(now, Enqueue(j, kind, email, sms, accepting), limit));
    }

    method Mark(j: JobId, status: Status)
      modifies this`jobs
      ensures jobs == if j in old(jobs) then old(jobs)[j := old(jobs)[j].(status := status)] else old(jobs)
    {
      if j in jobs {
        jobs := jobs[j := jobs[j].(status := status)];
      }
    }

    method AlreadySentRecipients(j: JobId, channel: Channel) returns (done: set<Recipient>)
      ensures done == AlreadySent(logs, j, channel)
    {
      done := set l | l in logs && l.job == j && l.channel == channel && l.sent :: l.recipient;
    }

    /** One message after another, in any order; each recipient gets an outcome. */
    method SendAll(j: JobId, channel: Channel, todo: set<Recipient>, reachable: set<Recipient>) returns (results: Results)
      requires Tracks() && ReadyToSend(now, j, channel) && todo == TodoOf(now.workers[j], channel)
      modifies this`now, this`run
      ensures Tracks() && results == ResultsFor(todo, reachable)
      ensures now == Progress(old(now), j, channel, todo, {}, reachable)
    {
      results := map[];
      var left := todo;
      ProgressStarts(now, j, channel, reachable);
      while left != {}
        invariant left <= todo && results == ResultsFor(todo - left, reachable)
        invariant Tracks() && now == ProgressOf(j, channel, reachable)(old(now), todo - left, left)
        decreases left
      {
        var r :| r in left;
        SendNext(old(now), j, channel, todo, left, r, reachable, limit);
        Take(Send(j, channel, r, r in reachable), ProgressOf(j, channel, reachable)(old(now), todo - (left - {r}), left - {r}));
        results := results[r := r in reachable];
        left := left - {r};
      }
      ProgressEnds(old(now), j, channel, todo, reachable);
    }

    /** The rows of one channel are added one by one and committed together. */
    method LogResults(j: JobId, channel: Channel, results: Results)
      modifies this`logs
      ensures logs == old(logs) + LogRows(j, channel, results)
    {
      var left := results.Keys;
      var added: set<Log> := {};
      while left != {}
        invariant left <= results.Keys
        invariant added == set r | r in results && r !in left :: Log(j, channel, r, results[r])
        decreases left
      {
        var r :| r in left;
        added := added + {Log(j, channel, r, results[r])};
        left := left - {r};
      }
      assert added == set r | r in results :: Log(j, channel, r, results[r]);
      logs := logs + multiset(added);
    }

    /** Reads the alert and who is still to be reached, outside any send. */
    method ReadPlan(j: JobId, world: World) returns (w: Worker)
      requires Tracks() && At(now, j) && now.workers[j] == Started
      modifies this`now, this`run
      ensures Tracks() && w == Plans(world)(jobs[j], j, logs) && (w == Closing(true) || w.Sending?)
      ensures forall r :: (w.Sending? && r in w.emails) <==> Owed(jobs[j], j, world, logs, Email, r)
      ensures forall r :: (w.Sending? && r in w.phones) <==> Owed(jobs[j], j, world, logs, Sms, r)
      ensures SameBut(j)(old(now), now) && now.outbox == old(now.outbox) && At(now, j) && now.workers[j] == w
    {
      if world.alert.None? {
        w := Closing(true);
      } else {
        var (email, sms) := Wanted(jobs[j], world.alert.value);
        if !email && !sms {
          w := Closing(true);
        } else {
          var mailDone := AlreadySentRecipients(j, Email);
          var textDone := AlreadySentRecipients(j, Sms);
          w := Sending(if email then world.emails - mailDone else {}, if sms then world.phones - textDone else {}, map[], map[]);
        }
      }
      PlanIsOwed(jobs[j], j, world, logs);
      SameButWorker(j, now, w, logs, now.outbox);
      PlanMoves(now, j, world.alert, world.emails, world.phones, limit);
      Take(Plan(j, world.alert, world.emails, world.phones), WithWorker(now, j, w));
    }

    method SendBoth(j: JobId, world: World, emails: set<Recipient>, phones: set<Recipient>) returns (mailed: Results, texted: Results)
      requires Tracks() && At(now, j) && now.workers[j] == Sending(emails, phones, map[], map[])
      modifies this`now, this`run
      ensures Tracks()
      ensures mailed == ResultsFor(emails, world.mailable) && texted == ResultsFor(phones, world.textable)
      ensures SameBut(j)(old(now), now) && At(now, j) && now.workers[j] == Sending({}, {}, mailed, texted)
      ensures now.outbox == old(now.outbox) + KeysFor(j, Email, emails, world.mailable) + KeysFor(j, Sms, phones, world.textable)
    {
      SameButChains(j);
      SameButWorker(j, now, now.workers[j].(emails := {}, mailed := ResultsFor(emails, world.mailable)), logs,
                    now.outbox + KeysFor(j, Email, emails, world.mailable));
      mailed := SendAll(j, Email, emails, world.mailable);
      SameButWorker(j, now, now.workers[j].(phones := {}, texted := ResultsFor(phones, world.textable)), logs,
                    now.outbox + KeysFor(j, Sms, phones, world.textable));
      texted := SendAll(j, Sms, phones, world.textable);
    }

    /** One channel's rows, committed together unless the commit fails. */
    method LogChannel(j: JobId, channel: Channel, results: Results, fails: bool) returns (ok: bool)
      requires Tracks() && At(now, j) && ReadyToLog(now.workers[j], channel, results)
      modifies this`logs, this`now, this`run
      ensures Tracks() && ok == !(fails && results != map[])
      ensures logs == if ok then old(logs) + LogRows(j, channel, results) else old(logs)
      ensures SameBut(j)(old(now), now) && now.outbox == old(now.outbox) && At(now, j)
      ensures now.workers[j] == if ok then AfterLog(old(now).workers[j], channel) else Closing(false)
    {
      if fails && results != map[] {
        RaiseMoves(now, j, limit);
        SameButWorker(j, now, Closing(false), logs, now.outbox);
        Take(Raise(j), WithWorker(now, j, Closing(false)));
        ok := false;
      } else {
        LogMoves(now, j, channel, limit);
        LogResults(j, channel, results);
        SameButWorker(j, now, AfterLog(now.workers[j], channel), logs, now.outbox);
        Take(if channel == Email then LogEmail(j) else LogSms(j),
             WithWorker(now, j, AfterLog(now.workers[j], channel)).(logs := logs));
        ok := true;
      }
    }

    /** The two channels are committed one after the other, so a commit that fails leaves the
        later rows out. */
    method LogBoth(j: JobId, world: World, mailed: Results, texted: Results) returns (ok: bool)
      requires Tracks() && At(now, j) && now.workers[j] == Sending({}, {}, mailed, texted)
      modifies this`logs, this`now, this`run
      ensures Tracks() && SameBut(j)(old(now), now) && now.outbox == old(now.outbox)
      ensures At(now, j) && now.workers[j] == Closing(ok)
      ensures ok <==> (AtEmailLog in world.faults ==> mailed == map[]) && (AtSmsLog in world.faults ==> texted == map[])
      ensures ok ==> logs == old(logs) + LogRows(j, Email, mailed) + LogRows(j, Sms, texted)
      ensures !ok ==> logs == if AtEmailLog in world.faults && mailed != map[] then old(logs) else old(logs) + LogRows(j, Email, mailed)
    {
      SameButChains(j);
      ok := LogChannel(j, Email, mailed, AtEmailLog in world.faults);
      if ok {
        ok := LogChannel(j, Sms, texted, AtSmsLog in world.faults);
      }
    }

    method SendAndLog(j: JobId, world: World, emails: set<Recipient>, phones: set<Recipient>) returns (ok: bool)
      requires Tracks() && At(now, j) && now.workers[j] == Sending(emails, phones, map[], map[])
      modifies this`logs, this`now, this`run
      ensures Tracks() && SameBut(j)(old(now), now) && At(now, j) && now.workers[j] == Closing(ok)
      ensures !(AtEmailLog in world.faults || AtSmsLog in world.faults) ==> ok
      ensures ok ==> Delivers(j, world)(Sending(emails, phones, map[], map[]), old(logs), logs, old(now.outbox), now.outbox)
    {
      SameButChains(j);
      var mailed, texted := SendBoth(j, world, emails, phones);
      ok := LogBoth(j, world, mailed, texted);
    }

    /** Everything between the two status commits. */
    method Deliver(j: JobId, world: World) returns (ok: bool)
      requires Tracks() && At(now, j) && now.workers[j] == Started
      modifies this`logs, this`now, this`run
      ensures Tracks() && SameBut(j)(old(now), now) && At(now, j) && now.workers[j] == Closing(ok)
      ensures world.faults <= {AtStart, AtMark} ==> ok
      ensures ok ==> Delivers(j, world)(Plans(world)(jobs[j], j, old(logs)), old(logs), logs, old(now.outbox), now.outbox)
      ensures ok ==> Serves(jobs[j], j, world, old(logs), logs, old(now.outbox), now.outbox)
    {
      if AtRead in world.faults {
        RaiseMoves(now, j, limit);
        SameButWorker(j, now, Closing(false), logs, now.outbox);
        Take(Raise(j), WithWorker(now, j, Closing(false)));
        return false;
      }
      SameButChains(j);
      SendingIsFresh(jobs[j], j, logs, world);
      var plan := ReadPlan(j, world);
      if plan.Closing? {
        DeliveredServes(jobs[j], j, world, logs, logs, now.outbox, now.outbox);
        return true;
      }
      if AtSend in world.faults {
        RaiseMoves(now, j, limit);
        SameButWorker(j, now, Closing(false), logs, now.outbox);
        Take(Raise(j), WithWorker(now, j, Closing(false)));
        return false;
      }
      ok := SendAndLog(j, world, plan.emails, plan.phones);
      if ok {
        DeliveredServes(jobs[j], j, world, old(logs), logs, old(now.outbox), now.outbox);
      }
    }

    /** The worker of `j` is past its start; every other job is as in `Valid`. */
    ghost predicate Busy(j: JobId)
      reads this
    {
      && Tracks() && At(now, j) && j !in pool
      && now.workers - {j} == Waits(pool) && pool <= jobs.Keys
      && (forall i | i in jobs :: i < nextId)
    }

    method StartJob(j: JobId) returns (started: bool)
      requires Valid() && j in pool
      modifies this`jobs, this`pool, this`now, this`run
      ensures pool == old(pool) - {j} && started == (old(jobs)[j].status != Done) && now.outbox == old(now.outbox)
      ensures now.up == old(now.up)
      ensures !started ==> Valid() && jobs == old(jobs)
      ensures started ==> Busy(j) && now.workers[j] == Started && jobs == old(jobs)[j := Attempted(old(jobs)[j], InProgress)]
    {
      WaitsWithout(pool, j);
      BeginMoves(now, j, limit);
      pool := pool - {j};
      started := jobs[j].status != Done;
      if started {
        jobs := jobs[j := Attempted(jobs[j], InProgress)];
        Take(Start(j), WithWorker(now.(jobs := jobs), j, Started));
      } else {
        Take(Start(j), NoWorker(now, j));
      }
    }

    /** The first commit fails: the job stays as it was, with no worker. */
    method DropJob(j: JobId)
      requires Valid() && j in pool
      modifies this`pool, this`now, this`run
      ensures Valid() && pool == old(pool) - {j} && now.outbox == old(now.outbox) && now.up == old(now.up)
    {
      WaitsWithout(pool, j);
      DropMoves(now, j, limit);
      pool := pool - {j};
      Take(Raise(j), NoWorker(now, j));
    }

    method FinishJob(j: JobId, ok: bool, recorded: bool)
      requires Busy(j) && now.workers[j] == Closing(ok)
      modifies this`jobs, this`now, this`run
      ensures Valid() && now.outbox == old(now.outbox) && now.up == old(now.up)
      ensures jobs == if recorded then old(jobs)[j := old(jobs)[j].(status := if ok then Done else Failed)] else old(jobs)
    {
      if recorded {
        CloseMoves(now, j, limit);
        Mark(j, if ok then Done else Failed);
        Take(Close(j), NoWorker(now.(jobs := jobs), j));
      } else {
        DropMoves(now, j, limit);
        Take(Raise(j), NoWorker(now, j));
      }
    }

    method RunStarted(j: JobId, world: World) returns (raised: bool)
      requires Busy(j) && now.workers[j] == Started
      modifies this`jobs, this`logs, this`now, this`run
      ensures Valid() && now.up == old(now.up)
      ensures jobs == old(jobs)[j := old(jobs)[j].(status := EndStatus(old(jobs)[j].status, raised, AtMark !in world.faults))]
      ensures world.faults <= {AtStart} ==>
                !raised && Delivers(j, world)(Plans(world)(old(jobs)[j], j, old(logs)), old(logs), logs, old(now.outbox), now.outbox)
      ensures AtMark in world.faults ==> raised
    {
      var ok := Deliver(j, world);
      SameButMeans(j, old(now), now);
      FinishJob(j, ok, AtMark !in world.faults);
      raised := !ok || AtMark in world.faults;
    }

    /** A submitted job, run by its worker to the end. */
    method RunJob(j: JobId, world: World) returns (raised: bool)
      requires Valid() && j in pool
      modifies this
      ensures Valid() && now.up == old(now.up) && nextId == old(nextId) && pool == old(pool) - {j}
      ensures old(jobs)[j].status == Done || AtStart in world.faults ==>
                jobs == old(jobs) && logs == old(logs) && now.outbox == old(now.outbox)
      ensures old(jobs)[j].status != Done && AtStart !in world.faults ==>
                var status := if AtMark in world.faults then InProgress else if raised then Failed else Done;
                jobs == old(jobs)[j := old(jobs)[j].(status := status, attempts := old(jobs)[j].attempts + 1)]
      ensures old(jobs)[j].status != Done && world.faults == {} ==>
                !raised && Serves(old(jobs)[j], j, world, old(logs), logs, old(now.outbox), now.outbox)
    {
      if AtStart in world.faults {
        DropJob(j);
        return true;
      }
      var started := StartJob(j);
      if !started {
        return false;
      }
      PlanIgnoresStatus(old(jobs)[j], j, logs, world, InProgress);
      raised := RunStarted(j, world);
      Overwrites(old(jobs), j, Attempted(old(jobs)[j], InProgress),
                 Attempted(old(jobs)[j], EndStatus(InProgress, raised, AtMark !in world.faults)));
      if world.faults == {} {
        DeliveredServes(old(jobs)[j], j, world, old(logs), logs, old(now.outbox), now.outbox);
      }
    }

    /** The process stops: whatever was submitted is forgotten, the rows stay. */
    method Crash()
      requires Valid() && now.up
      modifies this
      ensures Valid() && !now.up && pool == {} && jobs == old(jobs) && logs == old(logs) && nextId == old(nextId)
    {
      pool := {};
      Take(Step.Crash, Apply(now, Step.Crash, limit));
    }

    /** Pending jobs are given up after `limit` attempts, else they are to be resumed. */
    method RecoverRows() returns (resumable: set<JobId>)
      modifies this`jobs
      ensures jobs == RecoverJobs(old(jobs), limit) && resumable == Resumable(old(jobs), limit)
    {
      var left := jobs.Keys;
      resumable := {};
      while left != {}
        invariant left <= jobs.Keys && jobs.Keys == old(jobs).Keys
        invariant forall j | j in jobs :: jobs[j] == if j in left then old(jobs)[j] else RecoverJob(old(jobs)[j], limit)
        invariant resumable == set j | j in Resumable(old(jobs), limit) && j !in left
        decreases left
      {
        Inhabited(left);
        var j :| j in left;
        if Pending(jobs[j]) {
          if jobs[j].attempts >= limit {
            jobs := jobs[j := jobs[j].(status := Failed)];
          } else {
            resumable := resumable + {j};
          }
        }
        left := left - {j};
      }
      assert forall j | j in jobs :: jobs[j] == RecoverJobs(old(jobs), limit)[j];
    }

    /** On start-up the rows decide what runs again. */
    method RecoverPendingJobs() returns (resumed: nat)
      requires Valid() && !now.up && pool == {}
      modifies this
      ensures Valid() && now.up && logs == old(logs) && nextId == old(nextId) && now.outbox == old(now.outbox)
      ensures jobs == RecoverJobs(old(jobs), limit) && pool == Resumable(old(jobs), limit) && resumed == |pool|
      ensures jobs.Keys == old(jobs).Keys
      ensures forall j | j in jobs ::
                var (was, open) := (old(jobs)[j], old(jobs)[j].status == Queued || old(jobs)[j].status == InProgress);
                && (j in pool <==> open && was.attempts < limit)
                && jobs[j] == if open && was.attempts >= limit then was.(status := Failed) else was
    {
      RestartMoves(now, limit);
      pool := RecoverRows();
      resumed := |pool|;
      Take(Restart, now.(jobs := jobs, workers := Waits(pool), up := true));
    }
  }

  /** So what every run keeps holds of the stored rows at any time. */
  lemma RowsAreSafe(q: Queue, k: Key)
    requires q.Valid()
    ensures q.logs[SentLog(k)] <= 1 && q.now.outbox[k] <= Max(q.limit, 1)
    ensures k.job in q.jobs ==> q.jobs[k.job].attempts <= Max(q.limit, 1)
    ensures k.job in q.pool ==> Pending(q.jobs[k.job])
  {
    AttemptsAreBounded(q.run, q.limit, k);
    InvRun(q.run, q.limit);
    assert JobInv(q.now, q.limit, k.job) && KeyInv(q.now, k);
  }

  lemma PlanMoves(s: State, j: JobId, alert: Option<Alert>, emails: set<Recipient>, phones: set<Recipient>, limit: int)
    requires At(s, j) && s.workers[j].Started?
    ensures Moves(limit)(s, Plan(j, alert, emails, phones), WithWorker(s, j, PlanFor(s.jobs[j], j, s.logs, alert, emails, phones)))
  {
    MovesIs(s, Plan(j, alert, emails, phones), WithWorker(s, j, PlanFor(s.jobs[j], j, s.logs, alert, emails, phones)), limit);
  }

  lemma RaiseMoves(s: State, j: JobId, limit: int)
    requires At(s, j) && !s.workers[j].Waiting? && !s.workers[j].Closing?
    ensures Moves(limit)(s, Raise(j), WithWorker(s, j, Closing(false)))
  {
    MovesIs(s, Raise(j), WithWorker(s, j, Closing(false)), limit);
  }

  lemma BeginMoves(s: State, j: JobId, limit: int)
    requires At(s, j) && s.workers[j].Waiting?
    ensures s.jobs[j].status == Done ==> Moves(limit)(s, Start(j), NoWorker(s, j))
    ensures s.jobs[j].status != Done ==>
              Moves(limit)(s, Start(j), WithWorker(s.(jobs := s.jobs[j := Attempted(s.jobs[j], InProgress)]), j, Started))
  {
    MovesIs(s, Start(j), Begin(s, j), limit);
  }

  lemma RestartMoves(s: State, limit: int)
    requires !s.up
    ensures Moves(limit)(s, Restart, s.(jobs := RecoverJobs(s.jobs, limit), workers := Waits(Resumable(s.jobs, limit)), up := true))
  {
    MovesIs(s, Restart, s.(jobs := RecoverJobs(s.jobs, limit), workers := Waits(Resumable(s.jobs, limit)), up := true), limit);
  }

  lemma DropMoves(s: State, j: JobId, limit: int)
    requires At(s, j) && (s.workers[j].Waiting? || s.workers[j].Closing?)
    ensures Moves(limit)(s, Raise(j), NoWorker(s, j))
  {
    MovesIs(s, Raise(j), NoWorker(s, j), limit);
  }

  lemma CloseMoves(s: State, j: JobId, limit: int)
    requires At(s, j) && s.workers[j].Closing?
    ensures Moves(limit)(s, Close(j), NoWorker(WithStatus(s, j, if s.workers[j].ok then Done else Failed), j))
  {
    MovesIs(s, Close(j), NoWorker(WithStatus(s, j, if s.workers[j].ok then Done else Failed), j), limit);
  }

  ghost function Plans(world: World): (Job, JobId, multiset<Log>) -> Worker {
    (job, j, logs) => PlanFor(job, j, logs, world.alert, world.emails, world.phones)
  }

  /** Exactly the planned recipients were tried: each has one new row with its outcome, and
      those that could be reached got one message. */
  ghost predicate Delivered(plan: Worker, j: JobId, world: World, logs: multiset<Log>, after: multiset<Log>,
                            outbox: multiset<Key>, outAfter: multiset<Key>)
  {
    && (plan.Closing? ==> after == logs && outAfter == outbox)
    && (plan.Sending? ==>
          && after == logs + LogRows(j, Email, ResultsFor(plan.emails, world.mailable)) + LogRows(j, Sms, ResultsFor(plan.phones, world.textable))
          && outAfter == outbox + KeysFor(j, Email, plan.emails, world.mailable) + KeysFor(j, Sms, plan.phones, world.textable))
  }

  lemma PlanIsOwed(job: Job, j: JobId, world: World, logs: multiset<Log>)
    ensures var plan := Plans(world)(job, j, logs);
            && (forall r :: (plan.Sending? && r in plan.emails) <==> Owed(job, j, world, logs, Email, r))
            && (forall r :: (plan.Sending? && r in plan.phones) <==> Owed(job, j, world, logs, Sms, r))
  {
    SentRow(logs, j, Email);
    SentRow(logs, j, Sms);
  }

  lemma SentRow(logs: multiset<Log>, j: JobId, channel: Channel)
    ensures forall r :: r in AlreadySent(logs, j, channel) <==> Log(j, channel, r, true) in logs
  {
  }

  lemma RowAt(j: JobId, channel: Channel, results: Results, l: Log)
    ensures LogRows(j, channel, results)[l] ==
              if l.job == j && l.channel == channel && l.recipient in results && l.sent == results[l.recipient] then 1 else 0
  {
    var rows := set r | r in results :: Log(j, channel, r, results[r]);
    if l in rows {
      var r :| r in results && l == Log(j, channel, r, results[r]);
    } else if l.job == j && l.channel == channel && l.recipient in results {
      assert Log(j, channel, l.recipient, results[l.recipient]) in rows;
    }
  }

  lemma KeyAt(j: JobId, channel: Channel, todo: set<Recipient>, reachable: set<Recipient>, k: Key)
    ensures KeysFor(j, channel, todo, reachable)[k] ==
              if k.job == j && k.channel == channel && k.recipient in todo && k.recipient in reachable then 1 else 0
  {
  }

  lemma LogServed(j: JobId, world: World, plan: Worker, logs: multiset<Log>, after: multiset<Log>, l: Log)
    requires plan.Sending?
    requires after == logs + LogRows(j, Email, ResultsFor(plan.emails, world.mailable)) + LogRows(j, Sms, ResultsFor(plan.phones, world.textable))
    ensures after[l] == logs[l] + (if l.job == j && l.recipient in TodoOf(plan, l.channel)
                                      && l.sent == (l.recipient in (if l.channel == Email then world.mailable else world.textable)) then 1 else 0)
  {
    RowAt(j, Email, ResultsFor(plan.emails, world.mailable), l);
    RowAt(j, Sms, ResultsFor(plan.phones, world.textable), l);
  }

  lemma KeyServed(j: JobId, world: World, plan: Worker, outbox: multiset<Key>, after: multiset<Key>, k: Key)
    requires plan.Sending?
    requires after == outbox + KeysFor(j, Email, plan.emails, world.mailable) + KeysFor(j, Sms, plan.phones, world.textable)
    ensures after[k] == outbox[k] + (if k.job == j && k.recipient in TodoOf(plan, k.channel)
                                        && k.recipient in (if k.channel == Email then world.mailable else world.textable) then 1 else 0)
  {
    KeyAt(j, Email, plan.emails, world.mailable, k);
    KeyAt(j, Sms, plan.phones, world.textable, k);
  }

  /** What a run delivers is what is owed. */
  lemma DeliveredServes(job: Job, j: JobId, world: World, logs: multiset<Log>, after: multiset<Log>,
                        outbox: multiset<Key>, outAfter: multiset<Key>)
    requires Delivers(j, world)(Plans(world)(job, j, logs), logs, after, outbox, outAfter)
    ensures Serves(job, j, world, logs, after, outbox, outAfter)
  {
    var plan := Plans(world)(job, j, logs);
    PlanIsOwed(job, j, world, logs);
    if plan.Sending? {
      forall l: Log
        ensures after[l] == logs[l] + if l.job == j && Owed(job, j, world, logs, l.channel, l.recipient)
                                         && l.sent == (l.recipient in (if l.channel == Email then world.mailable else world.textable)) then 1 else 0
      {
        LogServed(j, world, plan, logs, after, l);
      }
      forall k: Key
        ensures outAfter[k] == outbox[k] + if k.job == j && Owed(job, j, world, logs, k.channel, k.recipient)
                                              && k.recipient in (if k.channel == Email then world.mailable else world.textable) then 1 else 0
      {
        KeyServed(j, world, plan, outbox, outAfter, k);
      }
    }
  }

  function Attempted(job: Job, status: Status): Job { job.(status := status, attempts := job.attempts + 1) }

  lemma PlanIgnoresStatus(job: Job, j: JobId, logs: multiset<Log>, world: World, status: Status)
    ensures Plans(world)(Attempted(job, status), j, logs) == Plans(world)(job, j, logs)
  {
  }

  ghost function Delivers(j: JobId, world: World): (Worker, multiset<Log>, multiset<Log>, multiset<Key>, multiset<Key>) -> bool {
    (plan, logs, after, outbox, outAfter) => Delivered(plan, j, world, logs, after, outbox, outAfter)
  }

  lemma SendingIsFresh(job: Job, j: JobId, logs: multiset<Log>, world: World)
    ensures var plan := Plans(world)(job, j, logs);
            plan.Closing? || plan == Sending(Todos(plan).0, Todos(plan).1, map[], map[])
  {
  }

  function Todos(w: Worker): (set<Recipient>, set<Recipient>) { if w.Sending? then (w.emails, w.phones) else ({}, {}) }

  function Waits(pool: set<JobId>): map<JobId, Worker> { map j | j in pool :: Waiting }

  /** Job rows, other workers and the process are as before. */
  ghost function SameBut(j: JobId): (State, State) -> bool {
    (s: State, t: State) => t.jobs == s.jobs && t.up == s.up && t.workers - {j} == s.workers - {j}
  }

  function EndStatus(before: Status, raised: bool, recorded: bool): Status {
    if !recorded then before else if raised then Failed else Done
  }

  lemma Overwrites(jobs: map<JobId, Job>, j: JobId, job: Job, other: Job)
    ensures jobs[j := job][j := other] == jobs[j := other]
  {
  }

  lemma SameButMeans(j: JobId, s: State, t: State)
    requires SameBut(j)(s, t)
    ensures t.jobs == s.jobs && t.up == s.up && t.workers - {j} == s.workers - {j}
  {
  }

  lemma WaitsWithout(pool: set<JobId>, j: JobId)
    ensures Waits(pool) - {j} == Waits(pool - {j})
    ensures Waits(pool)[j := Started] - {j} == Waits(pool - {j})
  {
  }

  lemma SameButChains(j: JobId)
    ensures forall s, t, u | SameBut(j)(s, t) && SameBut(j)(t, u) :: SameBut(j)(s, u)
    ensures forall s :: SameBut(j)(s, s)
  {
  }

  lemma SameButWorker(j: JobId, s: State, w: Worker, logs: multiset<Log>, outbox: multiset<Key>)
    ensures SameBut(j)(s, WithWorker(s, j, w).(logs := logs, outbox := outbox))
  {
    assert WithWorker(s, j, w).workers - {j} == s.workers - {j};
  }

  ghost predicate ReadyToLog(w: Worker, channel: Channel, results: Results) {
    if channel == Email then w == Sending({}, {}, results, Texts(w)) else w == Logging(results)
  }

  function Texts(w: Worker): Results { if w.Sending? then w.texted else map[] }

  function AfterLog(w: Worker, channel: Channel): Worker { if channel == Email then Logging(Texts(w)) else Closing(true) }

  lemma LogMoves(s: State, j: JobId, channel: Channel, limit: int)
    requires At(s, j) && exists results :: ReadyToLog(s.workers[j], channel, results)
    ensures forall results | ReadyToLog(s.workers[j], channel, results) ::
              Moves(limit)(s, if channel == Email then LogEmail(j) else LogSms(j),
                           WithWorker(s, j, AfterLog(s.workers[j], channel)).(logs := s.logs + LogRows(j, channel, results)))
  {
  }

  function TodoOf(w: Worker, channel: Channel): set<Recipient>
    requires w.Sending?
  {
    if channel == Email then w.emails else w.phones
  }

  /** Nothing sent over the channel yet, and mail goes first. */
  ghost predicate ReadyToSend(s: State, j: JobId, channel: Channel) {
    && At(s, j) && s.workers[j].Sending?
    && (channel == Email ==> s.workers[j].mailed == map[])
    && (channel == Sms ==> s.workers[j].texted == map[] && s.workers[j].emails == {})
  }

  function WorkerAt(w: Worker, channel: Channel, done: set<Recipient>, left: set<Recipient>, reachable: set<Recipient>): Worker
    requires w.Sending?
  {
    if channel == Email then w.(emails := left, mailed := ResultsFor(done, reachable))
    else w.(phones := left, texted := ResultsFor(done, reachable))
  }

  /** `s` after the recipients `done` were tried, with `left` to go. */
  ghost function Progress(s: State, j: JobId, channel: Channel, done: set<Recipient>, left: set<Recipient>, reachable: set<Recipient>): State
    requires At(s, j) && s.workers[j].Sending?
  {
    WithWorker(s, j, WorkerAt(s.workers[j], channel, done, left, reachable)).(
      outbox := s.outbox + KeysFor(j, channel, done, reachable))
  }

  ghost function ProgressOf(j: JobId, channel: Channel, reachable: set<Recipient>): (State, set<Recipient>, set<Recipient>) -> State {
    (s: State, done: set<Recipient>, left: set<Recipient>) =>
      if At(s, j) && s.workers[j].Sending? then Progress(s, j, channel, done, left, reachable) else s
  }

  lemma ProgressStarts(s: State, j: JobId, channel: Channel, reachable: set<Recipient>)
    requires ReadyToSend(s, j, channel)
    ensures var todo := TodoOf(s.workers[j], channel); ProgressOf(j, channel, reachable)(s, todo - todo, todo) == s
    ensures ResultsFor({}, reachable) == map[]
  {
    var todo := TodoOf(s.workers[j], channel);
    assert todo - todo == {};
    assert s.outbox + KeysFor(j, channel, {}, reachable) == s.outbox;
    assert Progress(s, j, channel, {}, todo, reachable) == s;
  }

  lemma ProgressEnds(s: State, j: JobId, channel: Channel, todo: set<Recipient>, reachable: set<Recipient>)
    requires At(s, j) && s.workers[j].Sending?
    ensures ProgressOf(j, channel, reachable)(s, todo - {}, {}) == Progress(s, j, channel, todo, {}, reachable)
    ensures todo - {} == todo
  {
    assert todo - {} == todo;
    assert ProgressOf(j, channel, reachable)(s, todo, {}) == Progress(s, j, channel, todo, {}, reachable);
  }

  lemma SendNext(s: State, j: JobId, channel: Channel, todo: set<Recipient>, left: set<Recipient>, r: Recipient, reachable: set<Recipient>, limit: int)
    requires ReadyToSend(s, j, channel) && r in left && left <= todo
    ensures var before, after := todo - left, todo - (left - {r});
            && Moves(limit)(ProgressOf(j, channel, reachable)(s, before, left), Send(j, channel, r, r in reachable),
                            ProgressOf(j, channel, reachable)(s, after, left - {r}))
            && ProgressOf(j, channel, reachable)(s, after, left - {r}).jobs == s.jobs
            && ProgressOf(j, channel, reachable)(s, after, left - {r}).logs == s.logs
            && ResultsFor(after, reachable) == ResultsFor(before, reachable)[r := r in reachable]
  {
    assert todo - (left - {r}) == (todo - left) + {r};
    ProgressSteps(s, j, channel, todo - left, left, r, reachable, limit);
  }

  lemma SendMoves(s: State, j: JobId, channel: Channel, r: Recipient, ok: bool, limit: int)
    requires At(s, j) && s.workers[j].Sending? && r in TodoOf(s.workers[j], channel)
    requires channel == Sms ==> s.workers[j].emails == {}
    ensures Moves(limit)(s, Send(j, channel, r, ok), AfterSend(s, j, channel, r, ok))
  {
    MovesIs(s, Send(j, channel, r, ok), AfterSend(s, j, channel, r, ok), limit);
  }

  lemma WorkerExtends(w: Worker, channel: Channel, done: set<Recipient>, left: set<Recipient>, r: Recipient, reachable: set<Recipient>)
    requires w.Sending? && r !in done
    ensures Sent(WorkerAt(w, channel, done, left, reachable), channel, r, r in reachable) ==
            WorkerAt(w, channel, done + {r}, left - {r}, reachable)
  {
    assert ResultsFor(done + {r}, reachable) == ResultsFor(done, reachable)[r := r in reachable];
  }

  lemma OutboxExtends(outbox: multiset<Key>, keys: multiset<Key>, k: Key)
    ensures outbox + keys + multiset{k} == outbox + (keys + multiset{k})
    ensures keys + multiset{} == keys
  {
  }

  lemma Rewrites(workers: map<JobId, Worker>, j: JobId, v: Worker, w: Worker)
    ensures workers[j := v][j := w] == workers[j := w]
  {
  }

  lemma ProgressExtends(s: State, j: JobId, channel: Channel, done: set<Recipient>, left: set<Recipient>, r: Recipient, reachable: set<Recipient>)
    requires At(s, j) && s.workers[j].Sending? && r !in done
    ensures AfterSend(Progress(s, j, channel, done, left, reachable), j, channel, r, r in reachable) ==
            Progress(s, j, channel, done + {r}, left - {r}, reachable)
  {
    var w := s.workers[j];
    KeysGrow(j, channel, done, r, reachable);
    OutboxExtends(s.outbox, KeysFor(j, channel, done, reachable), Key(j, channel, r));
    WorkerExtends(w, channel, done, left, r, reachable);
    Rewrites(s.workers, j, WorkerAt(w, channel, done, left, reachable), WorkerAt(w, channel, done + {r}, left - {r}, reachable));
  }

  lemma ProgressSteps(s: State, j: JobId, channel: Channel, done: set<Recipient>, left: set<Recipient>, r: Recipient, reachable: set<Recipient>, limit: int)
    requires ReadyToSend(s, j, channel) && r in left && r !in done
    ensures Moves(limit)(Progress(s, j, channel, done, left, reachable), Send(j, channel, r, r in reachable),
                         Progress(s, j, channel, done + {r}, left - {r}, reachable))
  {
    SendMoves(Progress(s, j, channel, done, left, reachable), j, channel, r, r in reachable, limit);
    ProgressExtends(s, j, channel, done, left, r, reachable);
  }

  lemma KeysGrow(j: JobId, channel: Channel, todo: set<Recipient>, r: Recipient, reachable: set<Recipient>)
    requires r !in todo
    ensures KeysFor(j, channel, todo + {r}, reachable) ==
            KeysFor(j, channel, todo, reachable) + (if r in reachable then multiset{Key(j, channel, r)} else multiset{})
  {
    var before := set x | x in todo && x in reachable :: Key(j, channel, x);
    var after := set x | x in todo + {r} && x in reachable :: Key(j, channel, x);
    assert after == before + (if r in reachable then {Key(j, channel, r)} else {});
  }
}
