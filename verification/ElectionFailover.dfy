/** Who does work: exactly which process a tick leaves working, and how soon somebody
    takes over from a leader that is gone. */
module ElectionFailover {
  import opened Wrappers
  import opened Election
  import opened ElectionSafety

  /** In every reached world, whether the ticking process works afterwards is decided by
      its host's file alone once its last "connected" reading is a full lease old, or it has
      none, and else by the key alone. */
  lemma WorksAfterTickExactly(run: seq<Step>, p: Pid, inp: Input, k: Params)
    requires ValidParams(k) && Exec(START, run, k).Some?
    requires Enabled(Exec(START, run, k).value, TickOf(p, inp), k)
    ensures var w := Exec(START, run, k).value;
            var v := Apply(w, TickOf(p, inp), k);
            var q := w.procs[p];
            var falls := !q.cacheEnabled
                         || (!inp.reachable && (q.lastConnected == None || q.lastConnected.value + k.lease <= w.now));
            && (falls ==>
                  && (Working(v, p) <==> if q.host in w.locks then w.locks[q.host] == p else inp.lockAvailable)
                  && (Working(v, p) ==> HoldsFlock(v, p)) && v.key == w.key)
            && (!falls ==>
                  && (Working(v, p) <==>
                        inp.call == Answered && (w.key == None || w.key.value.expiry <= w.now || w.key.value.holder == p))
                  && (Working(v, p) ==> v.key == Some(Lease(p, w.now + k.lease)) && HoldsLease(v, p))
                  && !HoldsFlock(v, p))
  {
    StartInv(k);
    InvRun(START, run, k);
    OriginsRun(START, run, false, k);
    var w := Exec(START, run, k).value;
    assert Dated(w, p);
    TickExactly(ViewOf(w, p), p, w.now, k.lease, inp);
  }

  // ---------- Failover ----------

  /** Nobody's answer is lost, and `p` only ticks, connected and answered, while its worker
      may end at any time. */
  predicate Elects(s: Step, p: Pid) {
    && (s.TickOf? ==> s.inp.call != AnswerLost)
    && (Touches(s, p) ==> s.WorkerEnds? || (s.TickOf? && s.inp.reachable && s.inp.call == Answered))
  }

  /** The tick leaves its process working on a full new lease. */
  ghost predicate Wins(w: World, s: Step, k: Params) {
    s.TickOf? && Enabled(w, s, k) &&
    var v := Apply(w, s, k);
    Working(v, s.p) && v.key == Some(Lease(s.p, w.now + k.lease))
  }

  predicate KeyUntil(w: World, limit: Time) { w.key.Some? ==> w.key.value.expiry <= limit }

  lemma {:induction false} KeyWithinLease(w: World, run: seq<Step>, k: Params)
    requires ValidParams(k) && Inv(w, k) && Exec(w, run, k).Some? && KeyUntil(w, w.now + k.lease)
    ensures var v := Exec(w, run, k).value; KeyUntil(v, v.now + k.lease)
    decreases |run|
  {
    if run != [] {
      var s := run[0];
      if s.TickOf? {
        TickIsPolite(ViewOf(w, s.p), s.p, w.now, k.lease, s.inp);
      }
      InvStep(w, s, k);
      KeyWithinLease(Apply(w, s, k), run[1..], k);
    }
  }

  /** A step on which nobody wins leaves the key no later end, and `p` can then only have
      ticked before that end. */
  lemma NoWinStep(w: World, s: Step, p: Pid, limit: Time, k: Params)
    requires ValidParams(k) && Inv(w, k) && Enabled(w, s, k) && Elects(s, p) && !Wins(w, s, k)
    requires p in w.procs && w.procs[p].cacheEnabled && w.ticked[p] < limit && KeyUntil(w, limit)
    ensures var v := Apply(w, s, k);
            p in v.procs && v.procs[p].cacheEnabled && v.ticked[p] < limit && KeyUntil(v, limit)
  {
    if s.TickOf? {
      TickExactly(ViewOf(w, s.p), s.p, w.now, k.lease, s.inp);
    }
    if !Touches(s, p) {
      Untouched(w, s, p, k);
    }
  }

  lemma {:induction false} SomeoneWins(w: World, run: seq<Step>, p: Pid, limit: Time, k: Params) returns (i: nat)
    requires ValidParams(k) && Inv(w, k) && Exec(w, run, k).Some? && forall s | s in run :: Elects(s, p)
    requires p in w.procs && w.procs[p].cacheEnabled && w.ticked[p] < limit && KeyUntil(w, limit)
    requires p in Exec(w, run, k).value.ticked ==> Exec(w, run, k).value.ticked[p] >= limit
    ensures i < |run| && Exec(w, run[..i], k).Some? && Wins(Exec(w, run[..i], k).value, run[i], k)
    decreases |run|
  {
    if Wins(w, run[0], k) {
      return 0;
    }
    NoWinStep(w, run[0], p, limit, k);
    InvStep(w, run[0], k);
    var j := SomeoneWins(Apply(w, run[0], k), run[1..], p, limit, k);
    i := j + 1;
    assert run[..i][1..] == run[1..][..j];
  }

  /** Failover: from any reached world, whoever held the key and whatever became of it, a
      process that goes on electing with Redis answering sees somebody win the key, or win it
      itself, before a lease and a gap have passed. */
  lemma FailoverInTime(before: seq<Step>, after: seq<Step>, p: Pid, k: Params) returns (i: nat)
    requires ValidParams(k) && Exec(START, before, k).Some?
    requires var w := Exec(START, before, k).value;
             && p in w.procs && w.procs[p].cacheEnabled
             && Exec(w, after, k).Some? && (forall s | s in after :: Elects(s, p))
             && var v := Exec(w, after, k).value;
                p in v.procs && v.procs[p].electing && v.now >= w.now + k.lease + k.gap
    ensures var w := Exec(START, before, k).value;
            i < |after| && Exec(w, after[..i], k).Some? && Wins(Exec(w, after[..i], k).value, after[i], k)
  {
    StartInv(k);
    InvRun(START, before, k);
    KeyWithinLease(START, before, k);
    var w := Exec(START, before, k).value;
    InvRun(w, after, k);
    i := SomeoneWins(w, after, p, w.now + k.lease, k);
  }
}
