/** The objects of the leader election: each method leaves exactly what Election says. */
module ElectionProcess {
  import opened Wrappers
  import opened E = Election

  class RedisServer {
    var key: Option<Lease>

    constructor ()
      ensures key == None
    {
      key := None;
    }

    method TryAcquireOrRenewLock(me: Pid, now: Time, ttl: Time, call: Call) returns (won: bool)
      modifies this
      ensures (key, won) == CallAcquire(old(key), me, now, ttl, call)
      // the key is taken when it is free, expired or the caller's own, and then for a full lease
      ensures won <==> call == Answered
                       && (old(key) == None || old(key).value.expiry <= now || old(key).value.holder == me)
      ensures key == if call != NotSent
                        && (old(key) == None || old(key).value.expiry <= now || old(key).value.holder == me)
                     then Some(Lease(me, now + ttl)) else old(key)
    {
      if call == NotSent {
        return false;
      }
      var current := if Live(key, now) then Some(key.value.holder) else None;
      if current == None || current == Some(me) {
        key := Some(Lease(me, now + ttl));
        won := call == Answered;
      } else {
        won := false;
      }
    }

    method ReleaseLock(me: Pid, now: Time, call: Call)
      modifies this
      ensures key == CallRelease(old(key), me, now, call)
      ensures key == if call != NotSent && old(key).Some? && old(key).value.holder == me && now < old(key).value.expiry
                     then None else old(key)
    {
      if call != NotSent && LiveFor(key, now, me) {
        key := None;
      }
    }
  }

  class LocalLock {
    var holder: Option<Pid>

    constructor ()
      ensures holder == None
    {
      holder := None;
    }

    method TryAcquire(me: Pid, available: bool) returns (won: bool)
      modifies this
      ensures (holder, won) == TryFlock(old(holder), me, available)
      ensures won <==> old(holder) == Some(me) || (old(holder) == None && available)
      ensures holder == if won then Some(me) else old(holder)
    {
      if holder == Some(me) {
        return true;
      }
      if !available || holder.Some? {
        return false;
      }
      holder := Some(me);
      won := true;
    }

    method Release(me: Pid)
      modifies this
      ensures holder == Unflock(old(holder), me)
      ensures holder != Some(me) && (old(holder) != Some(me) ==> holder == old(holder))
    {
      if holder == Some(me) {
        holder := None;
      }
    }
  }

  class LeaderElection {
    const me: Pid
    const lease: Time
    const redis: RedisServer
    const lock: LocalLock
    const host: Host
    const cacheEnabled: bool
    var electing: bool
    var dead: bool
    var worker: Worker
    var everReachable: bool
    var downSince: Option<Time>
    var lastConnected: Option<Time>
    var lastError: Option<string>
    var heartbeats: nat
    var acquired: nat
    var lost: nat
    var crashes: nat

    ghost function State(): Proc
      reads this
    {
      Proc(host, cacheEnabled, electing, dead, worker, everReachable, downSince, lastConnected, lastError,
           heartbeats, acquired, lost, crashes)
    }

    ghost function Sees(): View
      reads this, redis, lock
    {
      View(State(), redis.key, lock.holder)
    }

    constructor (me: Pid, lease: Time, redis: RedisServer, lock: LocalLock, host: Host, cacheEnabled: bool)
      ensures this.me == me && this.lease == lease && this.redis == redis && this.lock == lock
      ensures State() == NewProc(host, cacheEnabled)
      ensures electing && !dead && worker == Absent && !everReachable && downSince == None && lastConnected == None
    {
      this.me, this.lease, this.redis, this.lock := me, lease, redis, lock;
      this.host, this.cacheEnabled, electing, dead, worker := host, cacheEnabled, true, false, Absent;
      everReachable, downSince, lastConnected, lastError := false, None, None, None;
      heartbeats, acquired, lost, crashes := 0, 0, 0, 0;
    }

    method RunWorker()
      modifies this
      ensures State() == E.StartWorker(old(State()))
    {
      if !worker.Running? {
        worker := Running;
      }
    }

    method CancelWorker() returns (raised: bool)
      modifies this
      ensures (State(), raised) == E.StopWorker(old(State()))
      ensures worker == Absent && (raised <==> old(worker).Failed?)
    {
      raised := worker.Failed?;
      worker := Absent;
    }

    method TakeLead()
      modifies this
      ensures State() == E.Lead(old(State()))
      ensures worker == Running && heartbeats == old(heartbeats) + 1
      ensures acquired == old(acquired) + (if old(worker) == Running then 0 else 1)
    {
      if !worker.Running? {
        acquired := acquired + 1;
      }
      heartbeats := heartbeats + 1;
      RunWorker();
    }

    method GiveUpLead()
      modifies this
      ensures State() == E.StepDown(old(State()))
      ensures worker == Absent && lost == old(lost) + (if old(worker) == Running then 1 else 0)
      ensures old(worker).Failed? ==> dead && !electing
      ensures !old(worker).Failed? ==> electing == old(electing) && dead == old(dead)
    {
      if worker.Running? {
        lost := lost + 1;
      }
      var raised := CancelWorker();
      if raised {
        electing, dead := false, true;
      }
    }

    method ElectionTick(now: Time, inp: Input)
      modifies this, redis, lock
      // which E.TickExactly spells out field by field
      ensures Sees() == E.Tick(old(Sees()), me, now, lease, inp)
    {
      var status := if !cacheEnabled then Disabled else if inp.reachable then Connected else Unreachable;
      if status == Connected {
        everReachable := true;
        downSince := None;
        lastConnected := Some(now);
      } else if status == Unreachable && everReachable && downSince == None {
        downSince := Some(if lastConnected.Some? && lastConnected.value != 0.0 then lastConnected.value else now);
      }
      ghost var seen := Sees();
      assert seen == old(Sees()).(proc := E.Observe(old(State()), now, status));
      var tooLong := downSince.Some? && now - downSince.value >= lease;
      if status == Disabled || (status == Unreachable && (!everReachable || tooLong)) {
        var won := lock.TryAcquire(me, inp.lockAvailable);
        if won {
          TakeLead();
        } else {
          GiveUpLead();
        }
        return;
      }
      lock.Release(me);
      var won := redis.TryAcquireOrRenewLock(me, now, lease, inp.call);
      if won {
        TakeLead();
      } else {
        GiveUpLead();
      }
    }

    method StartElection()
      modifies this
      ensures State() == if old(electing) then old(State()) else E.StartAgain(old(State()))
      ensures electing && (!old(electing) ==> !dead) && worker == old(worker)
    {
      if electing {
        return;
      }
      electing, dead := true, false;
    }

    method StopElection(now: Time, call: Call)
      modifies this, redis, lock
      ensures Sees() == E.Stop(old(Sees()), me, now, call)
      ensures !electing && !dead && worker == if old(dead) then old(worker) else Absent
      // only when neither the election nor the worker raises are the locks given back
      ensures var clean := !old(dead) && !old(worker).Failed?;
              var key := old(redis.key);
              && lock.holder == (if clean && old(lock.holder) == Some(me) then None else old(lock.holder))
              && redis.key == (if clean && call != NotSent && key.Some? && key.value.holder == me && now < key.value.expiry
                               then None else key)
    {
      var raises := dead;
      electing, dead := false, false;
      if raises {
        return;
      }
      var raised := CancelWorker();
      if raised {
        return;
      }
      redis.ReleaseLock(me, now, call);
      lock.Release(me);
    }

    method OnWorkerDone(error: Option<string>)
      modifies this
      ensures State() == E.WorkerDone(old(State()), error)
      ensures worker == if error == None then Finished else Failed(error.value)
      ensures lastError == if error == None then old(lastError) else error
      ensures crashes == old(crashes) + if error == None then 0 else 1
    {
      match error {
        case None => worker := Finished;
        case Some(e) =>
          lastError := Some(e);
          crashes := crashes + 1;
          worker := Failed(e);
      }
    }
  }
}
