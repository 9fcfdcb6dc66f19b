/** Durable notification jobs: the stored rows, one worker per submitted job, and the steps one
    process takes (app/services/notification_dispatch_queue.py:14-139,
    app/services/alert_service.py:175-319). */
module Dispatch {
  import opened Wrappers

  type JobId = int
  type Recipient = string

  datatype Status = Queued | InProgress | Done | Failed
  datatype Kind = Created | Resolved
  datatype Channel = Email | Sms

  datatype Job = Job(kind: Kind, notifyEmail: bool, notifySms: bool, status: Status, attempts: nat)

  /** The flags a resolution job reads from its alert. */
  datatype Alert = Alert(notifyEmail: bool, notifySms: bool)

  datatype Log = Log(job: JobId, channel: Channel, recipient: Recipient, sent: bool)

  /** One message that left: which job, over which channel, to whom. */
  datatype Key = Key(job: JobId, channel: Channel, recipient: Recipient)

  type Results = map<Recipient, bool>

  /** Where a worker thread stands in `run_job`. */
  datatype Worker =
    | Waiting
    | Started
    | Sending(emails: set<Recipient>, phones: set<Recipient>, mailed: Results, texted: Results)
    | Logging(texted: Results)
    | Closing(ok: bool)

  /** `outbox` collects every message that went out, for the statements only. */
  datatype State = State(jobs: map<JobId, Job>, logs: multiset<Log>, workers: map<JobId, Worker>, up: bool, outbox: multiset<Key>)

  const INITIAL := State(map[], multiset{}, map[], false, multiset{})

  datatype Step =
    | Enqueue(j: JobId, kind: Kind, email: bool, sms: bool, submitted: bool)
    | Start(j: JobId)
    | Plan(j: JobId, alert: Option<Alert>, emails: set<Recipient>, phones: set<Recipient>)
    | Send(j: JobId, channel: Channel, r: Recipient, ok: bool)
    | LogEmail(j: JobId)
    | LogSms(j: JobId)
    | Close(j: JobId)
    | Raise(j: JobId)
    | Crash
    | Restart

  predicate Pending(job: Job) { job.status == Queued || job.status == InProgress }

  /** The recipients the log already shows as reached. */
  function AlreadySent(logs: multiset<Log>, j: JobId, channel: Channel): set<Recipient> {
    set l | l in logs && l.job == j && l.channel == channel && l.sent :: l.recipient
  }

  function LogRows(j: JobId, channel: Channel, results: Results): multiset<Log> {
    multiset(set r | r in results :: Log(j, channel, r, results[r]))
  }

  function Wanted(job: Job, alert: Alert): (bool, bool) {
    if job.kind == Created then (job.notifyEmail, job.notifySms) else (alert.notifyEmail, alert.notifySms)
  }

  /** Who a run will try: nobody without an alert or a channel, else everyone without a
      "sent" row for this job and channel. */
  function PlanFor(job: Job, j: JobId, logs: multiset<Log>, alert: Option<Alert>, emails: set<Recipient>, phones: set<Recipient>): Worker {
    if alert.None? then Closing(true)
    else
      var (email, sms) := Wanted(job, alert.value);
      if !email && !sms then Closing(true)
      else
        Sending(if email then emails - AlreadySent(logs, j, Email) else {},
                if sms then phones - AlreadySent(logs, j, Sms) else {}, map[], map[])
  }

  ghost predicate At(s: State, j: JobId) { j in s.jobs && j in s.workers }

  ghost predicate Enabled(s: State, step: Step) {
    match step
    case Enqueue(j, _, _, _, _) => s.up && j !in s.jobs
    case Start(j) => At(s, j) && s.workers[j].Waiting?
    case Plan(j, _, _, _) => At(s, j) && s.workers[j].Started?
    case Send(j, Email, r, _) => At(s, j) && s.workers[j].Sending? && r in s.workers[j].emails
    case Send(j, Sms, r, _) => At(s, j) && s.workers[j].Sending? && s.workers[j].emails == {} && r in s.workers[j].phones
    case LogEmail(j) => At(s, j) && s.workers[j].Sending? && s.workers[j].emails == s.workers[j].phones == {}
    case LogSms(j) => At(s, j) && s.workers[j].Logging?
    case Close(j) => At(s, j) && s.workers[j].Closing?
    case Raise(j) => At(s, j)
    case Crash => s.up
    case Restart => !s.up
  }

  function Sent(w: Worker, channel: Channel, r: Recipient, ok: bool): Worker
    requires w.Sending?
  {
    if channel == Email then w.(emails := w.emails - {r}, mailed := w.mailed[r := ok])
    else w.(phones := w.phones - {r}, texted := w.texted[r := ok])
  }

  ghost function WithWorker(s: State, j: JobId, w: Worker): State { s.(workers := s.workers[j := w]) }

  ghost function AfterSend(s: State, j: JobId, channel: Channel, r: Recipient, ok: bool): State
    requires At(s, j) && s.workers[j].Sending?
  {
    WithWorker(s, j, Sent(s.workers[j], channel, r, ok)).(
      outbox := if ok then s.outbox + multiset{Key(j, channel, r)} else s.outbox)
  }

  ghost function WithStatus(s: State, j: JobId, status: Status): State
    requires j in s.jobs
  {
    s.(jobs := s.jobs[j := s.jobs[j].(status := status)])
  }

  ghost function NoWorker(s: State, j: JobId): State { s.(workers := s.workers - {j}) }

  /** A finished job is not run again; any other is marked and its attempt counted. */
  ghost function Begin(s: State, j: JobId): State
    requires j in s.jobs
  {
    if s.jobs[j].status == Done then NoWorker(s, j)
    else
      var job := s.jobs[j];
      WithWorker(s.(jobs := s.jobs[j := job.(status := InProgress, attempts := job.attempts + 1)]), j, Started)
  }

  /** A job left pending is given up once its attempts are used, else submitted again. */
  function RecoverJob(job: Job, limit: int): Job {
    if Pending(job) && job.attempts >= limit then job.(status := Failed) else job
  }

  function RecoverJobs(jobs: map<JobId, Job>, limit: int): map<JobId, Job> {
    map j | j in jobs :: RecoverJob(jobs[j], limit)
  }

  function Resumable(jobs: map<JobId, Job>, limit: int): set<JobId> {
    set j | j in jobs && Pending(jobs[j]) && jobs[j].attempts < limit
  }

  ghost function Apply(s: State, step: Step, limit: int): State
    requires Enabled(s, step)
  {
    match step
    case Enqueue(j, kind, email, sms, submitted) =>
      var t := s.(jobs := s.jobs[j := Job(kind, email, sms, Queued, 0)]);
      if submitted then WithWorker(t, j, Waiting) else t
    case Start(j) => Begin(s, j)
    case Plan(j, alert, emails, phones) => WithWorker(s, j, PlanFor(s.jobs[j], j, s.logs, alert, emails, phones))
    case Send(j, channel, r, ok) => AfterSend(s, j, channel, r, ok)
    case LogEmail(j) =>
      WithWorker(s.(logs := s.logs + LogRows(j, Email, s.workers[j].mailed)), j, Logging(s.workers[j].texted))
    case LogSms(j) =>
      WithWorker(s.(logs := s.logs + LogRows(j, Sms, s.workers[j].texted)), j, Closing(true))
    case Close(j) => NoWorker(WithStatus(s, j, if s.workers[j].ok then Done else Failed), j)
    case Raise(j) => if s.workers[j].Waiting? || s.workers[j].Closing? then NoWorker(s, j) else WithWorker(s, j, Closing(false))
    case Crash => s.(workers := map[], up := false)
    case Restart => s.(jobs := RecoverJobs(s.jobs, limit), workers := map j | j in Resumable(s.jobs, limit) :: Waiting, up := true)
  }

  ghost function Exec(run: seq<Step>, limit: int): Option<State> {
    if run == [] then Some(INITIAL)
    else
      var before := Exec(run[..|run| - 1], limit);
      if before.Some? && Enabled(before.value, run[|run| - 1])
      then Some(Apply(before.value, run[|run| - 1], limit))
      else None
  }

  lemma ExecSnoc(run: seq<Step>, step: Step, limit: int)
    requires Exec(run, limit).Some? && Enabled(Exec(run, limit).value, step)
    ensures Exec(run + [step], limit) == Some(Apply(Exec(run, limit).value, step, limit))
  {
    assert (run + [step])[..|run|] == run;
  }

  /** The step is possible and leads there. */
  ghost function Moves(limit: int): (State, Step, State) -> bool {
    (s, step, t) => Enabled(s, step) && Apply(s, step, limit) == t
  }

  lemma MovesIs(s: State, step: Step, t: State, limit: int)
    ensures Moves(limit)(s, step, t) <==> Enabled(s, step) && Apply(s, step, limit) == t
  {
  }
}
