/**
 Leader election of one background loop: a Redis lease, and a lock file on the
 same host for when Redis cannot be asked (app/simulator/leader_election.py, the
 Lua scripts of app/core/cache.py, app/simulator/local_lock.py).

 The functions say what one call does to the values it can see. ElectionProcess is
 the stateful form, proved against them; ElectionSafety is about whole runs.
 */
module Election {
  import opened Wrappers

  type Time = real
  type Pid = nat
  type Host = nat

  // ---------- The Redis key ----------

  /** The value of the lock key together with the instant it expires. */
  datatype Lease = Lease(holder: Pid, expiry: Time)

  predicate Live(key: Option<Lease>, now: Time) {
    key.Some? && now < key.value.expiry
  }

  predicate LiveFor(key: Option<Lease>, now: Time, me: Pid) {
    Live(key, now) && key.value.holder == me
  }

  /** What became of one script call: never delivered, answered, or run by the
      server with the answer lost on the way back. */
  datatype Call = NotSent | Answered | AnswerLost

  /** The acquire-or-renew script, as the server runs it. */
  function AcquireOrRenew(key: Option<Lease>, me: Pid, now: Time, ttl: Time): (Option<Lease>, bool) {
    if !Live(key, now) || key.value.holder == me then (Some(Lease(me, now + ttl)), true) else (key, false)
  }

  /** The release script, as the server runs it. */
  function ReleaseKey(key: Option<Lease>, me: Pid, now: Time): Option<Lease> {
    if LiveFor(key, now, me) then None else key
  }

  /** The acquire-or-renew call: the key afterwards and the caller's verdict. */
  function CallAcquire(key: Option<Lease>, me: Pid, now: Time, ttl: Time, call: Call): (Option<Lease>, bool) {
    match call
    case NotSent => (key, false)
    case Answered => AcquireOrRenew(key, me, now, ttl)
    case AnswerLost => (AcquireOrRenew(key, me, now, ttl).0, false)
  }

  function CallRelease(key: Option<Lease>, me: Pid, now: Time, call: Call): Option<Lease> {
    if call == NotSent then key else ReleaseKey(key, me, now)
  }

  // ---------- The lock file ----------

  /** `available`: the platform has flock, and the file could be opened. */
  function TryFlock(lock: Option<Pid>, me: Pid, available: bool): (Option<Pid>, bool) {
    if lock == Some(me) then (lock, true)
    else if available && lock == None then (Some(me), true)
    else (lock, false)
  }

  function Unflock(lock: Option<Pid>, me: Pid): Option<Pid> {
    if lock == Some(me) then None else lock
  }

  // ---------- One process ----------

  datatype Worker = Absent | Running | Finished | Failed(error: string)

  datatype Status = Connected | Unreachable | Disabled

  /** `electing` is false once the election task has ended: stopped, or killed by
      the exception a failed worker task hands to whoever awaits it; `dead` while that
      exception is still waiting for whoever stops the process. */
  datatype Proc = Proc(
    host: Host,
    cacheEnabled: bool,
    electing: bool,
    dead: bool,
    worker: Worker,
    everReachable: bool,
    downSince: Option<Time>,
    lastConnected: Option<Time>,
    lastError: Option<string>,
    heartbeats: nat,
    acquired: nat,
    lost: nat,
    crashes: nat
  ) {
    predicate Active() { worker.Running? }
  }

  function NewProc(host: Host, cacheEnabled: bool): Proc {
    Proc(host, cacheEnabled, true, false, Absent, false, None, None, None, 0, 0, 0, 0)
  }

  /** What the outside world does during one tick. */
  datatype Input = Input(reachable: bool, call: Call, lockAvailable: bool)

  function StatusOf(p: Proc, inp: Input): Status {
    if !p.cacheEnabled then Disabled else if inp.reachable then Connected else Unreachable
  }

  /** Python's `last_connected_at or now`: a stored 0.0 counts as missing. */
  function OutageStart(p: Proc, now: Time): Time {
    if p.lastConnected.Some? && p.lastConnected.value != 0.0 then p.lastConnected.value else now
  }

  function Observe(p: Proc, now: Time, status: Status): Proc {
    if status == Connected then
      p.(everReachable := true, downSince := None, lastConnected := Some(now))
    else if status == Unreachable && p.everReachable && p.downSince == None then
      p.(downSince := Some(OutageStart(p, now)))
    else p
  }

  predicate OutageExceedsLease(p: Proc, now: Time, lease: Time) {
    p.downSince.Some? && now - p.downSince.value >= lease
  }

  predicate FallsBack(p: Proc, now: Time, lease: Time, status: Status) {
    status == Disabled || (status == Unreachable && (!p.everReachable || OutageExceedsLease(p, now, lease)))
  }

  function StartWorker(p: Proc): Proc {
    if p.Active() then p else p.(worker := Running)
  }

  /** Cancels and awaits the worker; a task that had failed re-raises here. */
  function StopWorker(p: Proc): (Proc, bool) {
    (p.(worker := Absent), p.worker.Failed?)
  }

  function Lead(p: Proc): Proc {
    var q := if p.Active() then p else p.(acquired := p.acquired + 1);
    StartWorker(q.(heartbeats := q.heartbeats + 1))
  }

  /** Stepping down; an exception from the worker ends the election loop. */
  function StepDown(p: Proc): Proc {
    var q := if p.Active() then p.(lost := p.lost + 1) else p;
    var (r, raised) := StopWorker(q);
    if raised then r.(electing := false, dead := true) else r
  }

  /** Everything a tick reads or writes. */
  datatype View = View(proc: Proc, key: Option<Lease>, lock: Option<Pid>)

  function Tick(v: View, me: Pid, now: Time, lease: Time, inp: Input): View {
    var status := StatusOf(v.proc, inp);
    var p := Observe(v.proc, now, status);
    if FallsBack(p, now, lease, status) then
      var (lock, won) := TryFlock(v.lock, me, inp.lockAvailable);
      View(if won then Lead(p) else StepDown(p), v.key, lock)
    else
      var (key, won) := CallAcquire(v.key, me, now, lease, inp.call);
      View(if won then Lead(p) else StepDown(p), key, Unflock(v.lock, me))
  }

  /** What a tick remembers of Redis. */
  predicate Remembers(p: Proc, q: Proc, now: Time, inp: Input) {
    var connected := p.cacheEnabled && inp.reachable;
    && q.host == p.host && q.cacheEnabled == p.cacheEnabled && q.lastError == p.lastError && q.crashes == p.crashes
    && q.everReachable == (p.everReachable || connected)
    && q.lastConnected == (if connected then Some(now) else p.lastConnected)
    && q.downSince == (if connected then None
                       else if !p.cacheEnabled || !p.everReachable || p.downSince.Some? then p.downSince
                       else if p.lastConnected == None || p.lastConnected == Some(0.0) then Some(now)
                       else p.lastConnected)
  }

  /** What winning or losing the tick does to the worker, the election task and the counters. */
  predicate Follows(p: Proc, q: Proc, won: bool) {
    && q.worker == (if won then Running else Absent)
    && q.heartbeats == p.heartbeats + (if won then 1 else 0)
    && q.acquired == p.acquired + (if won && p.worker != Running then 1 else 0)
    && q.lost == p.lost + (if !won && p.worker == Running then 1 else 0)
    && q.dead == (p.dead || (!won && p.worker.Failed?))
    && q.electing == (p.electing && (won || !p.worker.Failed?))
  }

  /** With nobody to ask for a lease, the lock file decides. */
  predicate Falls(p: Proc, downSince: Option<Time>, now: Time, lease: Time, inp: Input) {
    !p.cacheEnabled
    || (!inp.reachable && (!p.everReachable || (downSince.Some? && downSince.value + lease <= now)))
  }

  /** A tick of the election, over the fields it saw: on the file it wins when the file is
      its own, or free and available; on the key when the call is answered and the key is
      free, expired or its own. */
  lemma TickExactly(v: View, me: Pid, now: Time, lease: Time, inp: Input)
    ensures var u := Tick(v, me, now, lease, inp);
            && Remembers(v.proc, u.proc, now, inp)
            && (Falls(v.proc, u.proc.downSince, now, lease, inp) ==>
                  var won := v.lock == Some(me) || (v.lock == None && inp.lockAvailable);
                  Follows(v.proc, u.proc, won) && u.lock == (if won then Some(me) else v.lock) && u.key == v.key)
            && (!Falls(v.proc, u.proc.downSince, now, lease, inp) ==>
                  var ours := v.key == None || v.key.value.expiry <= now || v.key.value.holder == me;
                  && Follows(v.proc, u.proc, ours && inp.call == Answered)
                  && u.lock == (if v.lock == Some(me) then None else v.lock)
                  && u.key == (if ours && inp.call != NotSent then Some(Lease(me, now + lease)) else v.key))
  {
    var p := Observe(v.proc, now, StatusOf(v.proc, inp));
    LeadFollows(p);
    assert Remembers(v.proc, p, now, inp);
  }

  lemma LeadFollows(p: Proc)
    ensures Follows(p, Lead(p), true) && Follows(p, StepDown(p), false)
  {
  }

  /** `stop()`. If the election task had died of an exception, awaiting it raises that
      again; if the worker had failed, stopping it raises: in both cases the locks are not
      given back, and only a further call goes on to do so. */
  function Stop(v: View, me: Pid, now: Time, call: Call): View {
    var p := v.proc.(electing := false, dead := false);
    if v.proc.dead then v.(proc := p)
    else
      var (q, raised) := StopWorker(p);
      if raised then v.(proc := q)
      else View(q, CallRelease(v.key, me, now, call), Unflock(v.lock, me))
  }

  /** `start()` once the election task has ended; before that it does nothing. */
  function StartAgain(p: Proc): Proc { p.(electing := true, dead := false) }

  /** A stop gives the lock file back exactly when nothing raises, and then, with the call
      answered, the key too. */
  lemma StopGivesBackExactly(v: View, me: Pid, now: Time, call: Call)
    requires v.lock == Some(me)
    ensures Stop(v, me, now, call).lock == None <==> !v.proc.dead && !v.proc.worker.Failed?
    ensures Stop(v, me, now, call).lock == None && call == Answered ==> !LiveFor(Stop(v, me, now, call).key, now, me)
  {
  }

  /** A second stop always gives it back: a dead task has no worker left. */
  lemma SecondStopGivesBack(v: View, me: Pid, now: Time, first: Call, second: Call)
    requires v.proc.dead ==> v.proc.worker == Absent
    ensures var u := Stop(Stop(v, me, now, first), me, now, second);
            && u.lock != Some(me) && !u.proc.electing && u.proc.worker == Absent
            && (second != NotSent ==> !LiveFor(u.key, now, me))
  {
  }

  /** The done-callback of a worker task that ended on its own. */
  function WorkerDone(p: Proc, error: Option<string>): Proc {
    match error
    case None => p.(worker := Finished)
    case Some(e) => p.(worker := Failed(e), lastError := Some(e), crashes := p.crashes + 1)
  }
}
