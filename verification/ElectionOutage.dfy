/** The election around a Redis outage: going in, coming out, and where the code's
    mutual exclusion has holes. */
module ElectionOutage {
  import opened Wrappers
  import opened Election
  import opened ElectionSafety

  // ---------- Coming out ----------

  /** A step of the time after a global recovery. */
  predicate Recovered(s: Step) {
    match s
    case TickOf(_, inp) => inp.reachable && inp.call == Answered
    case Boot(_, _, c) => c
    case _ => true
  }

  ghost predicate AllRecovered(run: seq<Step>) {
    forall s | s in run :: Recovered(s)
  }

  ghost function Fresh(run: seq<Step>): set<Pid> {
    set s | s in run && (s.TickOf? || s.Boot?) :: s.p
  }

  /** Processes of `done` have ticked, or started, since the recovery. */
  ghost predicate Back(w: World, known: set<Pid>, done: set<Pid>, k: Params) {
    && w.procs.Keys <= known
    && (forall p | p in w.procs :: w.procs[p].cacheEnabled)
    && (forall p | p in done && p in w.procs :: !HoldsFlock(w, p))
    && (forall p | p in done && Working(w, p) :: Renewed(w, p, k))
  }

  lemma BackTick(v: View, p: Pid, now: Time, lease: Time, inp: Input)
    requires v.proc.cacheEnabled && inp.reachable && inp.call == Answered
    ensures var u := Tick(v, p, now, lease, inp);
            && u.proc.cacheEnabled && u.lock != Some(p)
            && (u.proc.Active() ==> u.key == Some(Lease(p, now + lease)))
  {
  }

  lemma BackStep(w: World, s: Step, known: set<Pid>, done: set<Pid>, k: Params)
    requires ValidParams(k) && Inv(w, k) && Enabled(w, s, k) && Recovered(s) && Back(w, known, done, k)
    ensures Back(Apply(w, s, k), known + Fresh([s]), done + Fresh([s]), k)
  {
    var v := Apply(w, s, k);
    assert s in [s];
    if s.TickOf? {
      BackTick(ViewOf(w, s.p), s.p, w.now, k.lease, s.inp);
    }
    forall q | q in v.procs
      ensures q in known + Fresh([s]) && v.procs[q].cacheEnabled
      ensures q in done + Fresh([s]) ==> !HoldsFlock(v, q)
      ensures q in done + Fresh([s]) && Working(v, q) ==> Renewed(v, q, k)
    {
      if !Touches(s, q) {
        Untouched(w, s, q, k);
      }
    }
  }

  lemma {:induction false} BackRun(w: World, run: seq<Step>, known: set<Pid>, done: set<Pid>, k: Params)
    requires ValidParams(k) && Inv(w, k) && Exec(w, run, k).Some? && AllRecovered(run) && Back(w, known, done, k)
    ensures Back(Exec(w, run, k).value, known + Fresh(run), done + Fresh(run), k)
    decreases |run|
  {
    if run == [] {
      assert known + Fresh(run) == known && done + Fresh(run) == done;
    } else {
      InvStep(w, run[0], k);
      BackStep(w, run[0], known, done, k);
      var head := Fresh([run[0]]);
      BackRun(Apply(w, run[0], k), run[1..], known + head, done + head, k);
      assert run == [run[0]] + run[1..];
      assert Fresh(run) == head + Fresh(run[1..]);
      assert known + head + Fresh(run[1..]) == known + Fresh(run);
      assert done + head + Fresh(run[1..]) == done + Fresh(run);
    }
  }

  /** Whatever happened before: once every process that still elects has ticked after
      a global recovery, one worker at most is running, on the lease, and no electing
      process holds a lock file. */
  lemma OneLeaderAfterRecovery(before: seq<Step>, after: seq<Step>, k: Params)
    requires ValidParams(k) && Exec(START, before, k).Some?
    requires var w := Exec(START, before, k).value;
             && (forall p | p in w.procs :: w.procs[p].cacheEnabled)
             && AllRecovered(after) && Exec(w, after, k).Some?
             && forall p | p in w.procs && p in Exec(w, after, k).value.procs && Exec(w, after, k).value.procs[p].electing ::
                  p in Fresh(after)
    ensures var v := Exec(Exec(START, before, k).value, after, k).value;
            && AtMostOneWorking(v)
            && (forall p | Working(v, p) :: HoldsLease(v, p))
            && (forall p | p in v.procs && (v.procs[p].electing || p in Fresh(after)) :: !HoldsFlock(v, p))
  {
    var w := Exec(START, before, k).value;
    StartInv(k);
    InvRun(START, before, k);
    BackRun(w, after, w.procs.Keys, {}, k);
    InvRun(w, after, k);
    var v := Exec(w, after, k).value;
    forall p | p in v.procs && v.procs[p].electing
      ensures !HoldsFlock(v, p) && (Working(v, p) ==> Renewed(v, p, k) && HoldsLease(v, p))
    {
      assert p in Fresh(after);
    }
    assert forall p | Working(v, p) :: v.procs[p].electing;
  }

  // ---------- Going in ----------

  /** A step before the outage: every tick reads "connected", whatever becomes of its call. */
  predicate BeforeOutage(s: Step) {
    match s
    case TickOf(_, inp) => inp.reachable
    case Boot(_, _, c) => c
    case _ => true
  }

  /** A step of the outage: no call is answered. The reading stays "connected" as long as
      the client is cached, so a tick may read either. Nothing starts. */
  predicate DuringOutage(s: Step) {
    match s
    case TickOf(_, inp) => inp.call != Answered
    case Boot(_, _, _) => false
    case Restart(_) => false
    case _ => true
  }

  ghost predicate AllBefore(run: seq<Step>) { forall s | s in run :: BeforeOutage(s) }
  ghost predicate AllDuring(run: seq<Step>) { forall s | s in run :: DuringOutage(s) }

  predicate UpProc(q: Proc, t: Time) {
    && q.cacheEnabled
    && (q.everReachable ==> q.lastConnected.Some? && 0.0 < q.lastConnected.value <= t && q.downSince == None)
    && (q.Active() ==> q.electing)
    && (q.Active() ==> q.everReachable)
  }

  ghost predicate Up(w: World) {
    && w.locks == map[]
    && forall p | p in w.procs :: p in w.ticked && UpProc(w.procs[p], w.ticked[p])
  }

  lemma UpTick(v: View, p: Pid, now: Time, lease: Time, inp: Input)
    requires v.proc.cacheEnabled && v.lock == None && inp.reachable && v.proc.electing && now > 0.0
    ensures var u := Tick(v, p, now, lease, inp); UpProc(u.proc, now) && u.lock == None
  {
  }

  lemma UpStep(w: World, s: Step, k: Params)
    requires ValidParams(k) && Inv(w, k) && Up(w) && Enabled(w, s, k) && BeforeOutage(s)
    ensures Up(Apply(w, s, k))
  {
    var v := Apply(w, s, k);
    if s.TickOf? {
      UpTick(ViewOf(w, s.p), s.p, w.now, k.lease, s.inp);
    }
    assert v.locks == map[];
    forall p | p in v.procs
      ensures UpProc(v.procs[p], v.ticked[p])
    {
      if !Touches(s, p) {
        Untouched(w, s, p, k);
      }
    }
  }

  lemma {:induction false} UpRun(w: World, run: seq<Step>, k: Params)
    requires ValidParams(k) && Inv(w, k) && Up(w) && AllBefore(run) && Exec(w, run, k).Some?
    ensures Up(Exec(w, run, k).value)
    decreases |run|
  {
    if run != [] {
      InvStep(w, run[0], k);
      UpStep(w, run[0], k);
      UpRun(Apply(w, run[0], k), run[1..], k);
    }
  }

  /** A process during the outage that began at `since`: `t` its last tick, `now` the
      clock, `onFile` whether it holds the lock file. */
  predicate DownProc(q: Proc, t: Time, now: Time, onFile: bool, since: Time, k: Params) {
    && q.cacheEnabled && q.everReachable && q.lastConnected.Some?
    && 0.0 < q.lastConnected.value
    && (q.downSince == None || q.downSince == q.lastConnected)
    && (q.electing ==> since <= q.lastConnected.value + k.gap)
    && (q.Active() ==> q.electing)
    && (q.Active() && !onFile ==> t <= since)
    && (q.Active() && onFile ==> q.lastConnected.value + k.lease <= now)
  }

  ghost predicate Down(w: World, since: Time, k: Params) {
    since <= w.now && forall p | p in w.procs :: p in w.ticked && DownProc(w.procs[p], w.ticked[p], w.now, HoldsFlock(w, p), since, k)
  }

  lemma DownTick(v: View, p: Pid, t: Time, now: Time, since: Time, k: Params, inp: Input)
    requires t <= now && v.proc.electing && now <= t + k.gap
    requires DownProc(v.proc, t, now, v.lock == Some(p), since, k) && ValidParams(k)
    requires 0.0 < now && since <= now && inp.call != Answered
    ensures var u := Tick(v, p, now, k.lease, inp);
            DownProc(u.proc, now, now, u.lock == Some(p), since, k)
  {
  }

  lemma DownStep(w: World, s: Step, since: Time, k: Params)
    requires ValidParams(k) && Inv(w, k) && Down(w, since, k) && Enabled(w, s, k) && DuringOutage(s)
    ensures Down(Apply(w, s, k), since, k)
  {
    var v := Apply(w, s, k);
    forall p | p in v.procs
      ensures DownProc(v.procs[p], v.ticked[p], v.now, HoldsFlock(v, p), since, k)
    {
      assert DownProc(w.procs[p], w.ticked[p], w.now, HoldsFlock(w, p), since, k);
      if !Touches(s, p) {
        Untouched(w, s, p, k);
      } else if s.TickOf? {
        DownTick(ViewOf(w, p), p, w.ticked[p], w.now, since, k, s.inp);
      }
    }
  }

  lemma {:induction false} DownRun(w: World, run: seq<Step>, since: Time, k: Params)
    requires ValidParams(k) && Inv(w, k) && Down(w, since, k) && AllDuring(run) && Exec(w, run, k).Some?
    ensures Down(Exec(w, run, k).value, since, k)
    ensures Exec(w, run, k).value.procs.Keys <= w.procs.Keys
    ensures forall p | p in Exec(w, run, k).value.procs :: Exec(w, run, k).value.procs[p].host == w.procs[p].host
    decreases |run|
  {
    if run != [] {
      InvStep(w, run[0], k);
      DownStep(w, run[0], since, k);
      if run[0].TickOf? {
        TickIsPolite(ViewOf(w, run[0].p), run[0].p, w.now, k.lease, run[0].inp);
      }
      DownRun(Apply(w, run[0], k), run[1..], since, k);
    }
  }

  /** Every process has seen Redis, at its last tick if it is electing (so none has just
      been started again), and all share one host's lock file. */
  ghost predicate Ready(w: World) {
    && (forall p | p in w.procs ::
          w.procs[p].everReachable && (w.procs[p].electing ==> p in w.ticked && w.procs[p].lastConnected == Some(w.ticked[p])))
    && (forall p, q | p in w.procs && q in w.procs :: w.procs[p].host == w.procs[q].host)
  }

  lemma EntryIsSafe(up: seq<Step>, down: seq<Step>, k: Params)
    requires ValidParams(k) && 2.0 * k.gap < k.lease
    requires AllBefore(up) && Exec(START, up, k).Some? && Ready(Exec(START, up, k).value)
    requires AllDuring(down) && Exec(Exec(START, up, k).value, down, k).Some?
    ensures AtMostOneWorking(Exec(Exec(START, up, k).value, down, k).value)
  {
    var w := Exec(START, up, k).value;
    StartInv(k);
    InvRun(START, up, k);
    UpRun(START, up, k);
    assert Down(w, w.now, k);
    DownRun(w, down, w.now, k);
    InvRun(w, down, k);
    var v := Exec(w, down, k).value;
    forall p, q | Working(v, p) && Working(v, q)
      ensures p == q
    {
      assert DownProc(v.procs[p], v.ticked[p], v.now, HoldsFlock(v, p), w.now, k);
      assert DownProc(v.procs[q], v.ticked[q], v.now, HoldsFlock(v, q), w.now, k);
    }
  }

  /** Entering an outage never leaves two workers running, in any run. */
  ghost predicate OutageEntrySafe(k: Params) {
    forall up, down: seq<Step> |
      && AllBefore(up) && AllDuring(down)
      && Exec(START, up, k).Some? && Ready(Exec(START, up, k).value)
      && Exec(Exec(START, up, k).value, down, k).Some? ::
      AtMostOneWorking(Exec(Exec(START, up, k).value, down, k).value)
  }

  lemma ExecCons(w: World, s: Step, rest: seq<Step>, k: Params)
    requires Enabled(w, s, k)
    ensures Exec(w, [s] + rest, k) == Exec(Apply(w, s, k), rest, k)
  {
    assert ([s] + rest)[1..] == rest;
  }

  const ANSWERED := Input(true, Answered, true)
  const LOST := Input(false, NotSent, true)

  function Elected(now: Time, lease: Time): Proc {
    NewProc(0, true).(everReachable := true, lastConnected := Some(now), acquired := 1, heartbeats := 1, worker := Running)
  }

  function Standby(now: Time): Proc {
    NewProc(0, true).(everReachable := true, lastConnected := Some(now))
  }

  /** Process 0 leads on the lease, process 1 has been refused it, both at time 1. */
  function Pair(k: Params): World {
    World(1.0, Some(Lease(0, 1.0 + k.lease)), map[], map[0 := Elected(1.0, k.lease), 1 := Standby(1.0)],
          map[0 := 1.0, 1 := 1.0])
  }

  const PAIR_UP: seq<Step> := [Boot(0, 0, true), Boot(1, 0, true), TickOf(0, ANSWERED), TickOf(1, ANSWERED)]

  /** Both have started, neither has ticked. */
  function Booted(): World {
    World(1.0, None, map[], map[0 := NewProc(0, true), 1 := NewProc(0, true)], map[0 := 1.0, 1 := 1.0])
  }

  lemma BootedIsReached(rest: seq<Step>, k: Params)
    ensures Exec(START, [Boot(0, 0, true)] + ([Boot(1, 0, true)] + rest), k) == Exec(Booted(), rest, k)
  {
    var w1 := World(1.0, None, map[], map[0 := NewProc(0, true)], map[0 := 1.0]);
    ExecCons(START, Boot(0, 0, true), [Boot(1, 0, true)] + rest, k);
    assert Apply(START, Boot(0, 0, true), k) == w1;
    ExecCons(w1, Boot(1, 0, true), rest, k);
    assert Apply(w1, Boot(1, 0, true), k) == Booted();
  }

  lemma PairIsReached(rest: seq<Step>, k: Params)
    requires k.lease > 0.0
    ensures Exec(START, PAIR_UP + rest, k) == Exec(Pair(k), rest, k)
  {
    var r3 := [TickOf(1, ANSWERED)] + rest;
    var r2 := [TickOf(0, ANSWERED)] + r3;
    assert PAIR_UP + rest == [Boot(0, 0, true)] + ([Boot(1, 0, true)] + r2);
    BootedIsReached(r2, k);
    var w3 := Booted().(key := Some(Lease(0, 1.0 + k.lease)), procs := Booted().procs[0 := Elected(1.0, k.lease)]);
    ExecCons(Booted(), TickOf(0, ANSWERED), r3, k);
    assert Apply(Booted(), TickOf(0, ANSWERED), k) == w3;
    ExecCons(w3, TickOf(1, ANSWERED), rest, k);
    assert Apply(w3, TickOf(1, ANSWERED), k) == Pair(k);
  }

  lemma ExecTwo(w: World, run: seq<Step>, more: seq<Step>, k: Params)
    requires Exec(w, run, k).Some?
    ensures Exec(w, run + more, k) == Exec(Exec(w, run, k).value, more, k)
    decreases |run|
  {
    if run == [] {
      assert run + more == more;
    } else {
      assert run + more == [run[0]] + (run[1..] + more);
      ExecCons(w, run[0], run[1..] + more, k);
      ExecTwo(Apply(w, run[0], k), run[1..], more, k);
    }
  }

  lemma ExecThree(w: World, a: Step, b: Step, c: Step, k: Params)
    requires Enabled(w, a, k) && Enabled(Apply(w, a, k), b, k) && Enabled(Apply(Apply(w, a, k), b, k), c, k)
    ensures Exec(w, [a, b, c], k) == Some(Apply(Apply(Apply(w, a, k), b, k), c, k))
  {
    ExecCons(w, a, [b, c], k);
    ExecCons(Apply(w, a, k), b, [c], k);
    ExecCons(Apply(Apply(w, a, k), b, k), c, [], k);
    assert [a] + [b, c] == [a, b, c] && [b] + [c] == [b, c] && [c] + [] == [c];
  }

  /** Process 0 after renewing at `now`; process 1 as at time 1. */
  function PairRenewed(now: Time, k: Params): World {
    World(now, Some(Lease(0, now + k.lease)), map[],
          map[0 := Elected(now, k.lease).(heartbeats := 2), 1 := Standby(1.0)], map[0 := now, 1 := 1.0])
  }

  lemma PairRenews(k: Params)
    requires 0.0 < k.gap && 0.0 < k.lease
    ensures Exec(START, PAIR_UP + [Wait(k.gap), TickOf(0, ANSWERED)], k) == Some(PairRenewed(1.0 + k.gap, k))
  {
    var p := Pair(k);
    PairIsReached([Wait(k.gap), TickOf(0, ANSWERED)], k);
    ExecCons(p, Wait(k.gap), [TickOf(0, ANSWERED)], k);
    ExecCons(p.(now := 1.0 + k.gap), TickOf(0, ANSWERED), [], k);
    assert [TickOf(0, ANSWERED)] + [] == [TickOf(0, ANSWERED)];
    assert [Wait(k.gap)] + [TickOf(0, ANSWERED)] == [Wait(k.gap), TickOf(0, ANSWERED)];
    assert Apply(p.(now := 1.0 + k.gap), TickOf(0, ANSWERED), k) == PairRenewed(1.0 + k.gap, k);
  }

  predicate FileLeader(q: Proc) {
    q.cacheEnabled && q.electing && q.Active() && q.everReachable && q.downSince == Some(1.0)
  }

  /** A tick without Redis at `now`, the last connected one having been at 1. */
  lemma StandbyTick(v: View, now: Time, lease: Time)
    requires v.proc == Standby(1.0) || v.proc == Standby(1.0).(downSince := Some(1.0)) ||
             (FileLeader(v.proc) && v.lock == Some(1) && now >= 1.0 + lease)
    requires v.lock == None || v.lock == Some(1)
    ensures var u := Tick(v, 1, now, lease, LOST);
            && u.proc.host == v.proc.host
            && (if now >= 1.0 + lease
                then u.lock == Some(1) && FileLeader(u.proc)
                else u.proc == Standby(1.0).(downSince := Some(1.0)) && u.lock == None)
            && u.key == v.key
  {
  }

  lemma BothWork(k: Params)
    requires 0.0 < k.gap && 0.0 < k.lease <= 2.0 * k.gap
    ensures var e := Exec(PairRenewed(1.0 + k.gap, k), [TickOf(1, LOST), Wait(k.gap), TickOf(1, LOST)], k);
            e.Some? && Working(e.value, 0) && Working(e.value, 1)
  {
    var b := PairRenewed(1.0 + k.gap, k);
    StandbyTick(ViewOf(b, 1), b.now, k.lease);
    var c := Apply(b, TickOf(1, LOST), k);
    assert c.procs[0] == b.procs[0] && c.ticked == map[0 := b.now, 1 := b.now];
    assert Enabled(c, Wait(k.gap), k);
    var d := Apply(c, Wait(k.gap), k);
    assert d.now == 1.0 + 2.0 * k.gap;
    assert ViewOf(d, 1) == ViewOf(c, 1);
    StandbyTick(ViewOf(d, 1), d.now, k.lease);
    ExecThree(b, TickOf(1, LOST), Wait(k.gap), TickOf(1, LOST), k);
  }

  /** The last connected tick of the leader falls in the outage's first instant, that
      of the other a whole gap earlier: with 2 gap >= lease the other falls back at an
      instant at which the leader is still due. */
  lemma EntryIsUnsafe(k: Params)
    requires 0.0 <= k.gap && 0.0 < k.lease <= 2.0 * k.gap
    ensures !OutageEntrySafe(k)
  {
    var up := PAIR_UP + [Wait(k.gap), TickOf(0, ANSWERED)];
    var down := [TickOf(1, LOST), Wait(k.gap), TickOf(1, LOST)];
    PairRenews(k);
    BothWork(k);
    assert Ready(PairRenewed(1.0 + k.gap, k)) && AllBefore(up) && AllDuring(down);
    assert !AtMostOneWorking(Exec(Exec(START, up, k).value, down, k).value);
  }

  /** The exact condition: two ticks have to fit strictly inside one lease. The code's
      own settings, 15 s against a 3 s poll, leave a tick 4.5 s to run in. */
  lemma OutageEntrySafeExactly(k: Params)
    requires 0.0 <= k.gap && 0.0 < k.lease
    ensures OutageEntrySafe(k) <==> 2.0 * k.gap < k.lease
  {
    if 2.0 * k.gap < k.lease {
      forall up, down: seq<Step> |
        && AllBefore(up) && AllDuring(down)
        && Exec(START, up, k).Some? && Ready(Exec(START, up, k).value)
        && Exec(Exec(START, up, k).value, down, k).Some?
        ensures AtMostOneWorking(Exec(Exec(START, up, k).value, down, k).value)
      {
        EntryIsSafe(up, down, k);
      }
    } else {
      EntryIsUnsafe(k);
    }
  }

  // ---------- Where two workers do run ----------

  /** A process that starts while it cannot reach Redis falls back at once, beside the
      lease leader. */
  lemma StartupHole(k: Params)
    requires ValidParams(k)
    ensures exists w :: Exec(START, PAIR_UP + [Boot(2, 0, true), TickOf(2, LOST)], k) == Some(w) && !AtMostOneWorking(w)
  {
    var rest := [Boot(2, 0, true), TickOf(2, LOST)];
    PairIsReached(rest, k);
    var p := Pair(k);
    ExecCons(p, Boot(2, 0, true), [TickOf(2, LOST)], k);
    var a := Apply(p, Boot(2, 0, true), k);
    ExecCons(a, TickOf(2, LOST), [], k);
    assert [TickOf(2, LOST)] + [] == [TickOf(2, LOST)] && [Boot(2, 0, true)] + [TickOf(2, LOST)] == rest;
    var b := Apply(a, TickOf(2, LOST), k);
    assert Working(b, 0) && Working(b, 2);
  }

  lemma RestartTick(v: View, now: Time, lease: Time)
    requires v.lock == None && v.proc == StartAgain(Standby(1.0).(electing := false)) && now >= 1.0 + lease
    ensures Tick(v, 1, now, lease, LOST).proc.Active() && Tick(v, 1, now, lease, LOST).key == v.key
  {
  }

  /** So does a process that is started again during the outage, if its last "connected" reading
      is old: process 0 renews at 15 s, process 1 stops and starts again at 16 s. */
  lemma RestartHole()
    ensures exists run :: Exec(START, run, Params(15.0, 14.0)).Some? && !AtMostOneWorking(Exec(START, run, Params(15.0, 14.0)).value)
  {
    var k := Params(15.0, 14.0);
    PairRenews(k);
    var a := PairRenewed(15.0, k);
    var up := PAIR_UP + [Wait(k.gap), TickOf(0, ANSWERED)];
    var b := Apply(a, StopOf(1, NotSent), k);
    assert b.procs[1] == Standby(1.0).(electing := false) && b.procs[0] == a.procs[0] && b.locks == map[];
    var c := Apply(b, Wait(1.0), k);
    var d := Apply(c, Restart(1), k);
    ExecThree(a, StopOf(1, NotSent), Wait(1.0), Restart(1), k);
    ExecTwo(START, up, [StopOf(1, NotSent), Wait(1.0), Restart(1)], k);
    RestartTick(ViewOf(d, 1), d.now, k.lease);
    var e := Apply(d, TickOf(1, LOST), k);
    ExecCons(d, TickOf(1, LOST), [], k);
    assert [TickOf(1, LOST)] + [] == [TickOf(1, LOST)];
    ExecTwo(START, up + [StopOf(1, NotSent), Wait(1.0), Restart(1)], [TickOf(1, LOST)], k);
    assert Working(e, 0) && Working(e, 1);
  }

  /** After a recovery a peer takes the key before the lock-file leader's next tick. */
  lemma RecoveryHole(k: Params)
    requires ValidParams(k)
    ensures exists w :: Exec(START, [Boot(0, 0, true), TickOf(0, LOST)] + [Boot(1, 0, true), TickOf(1, ANSWERED)], k) == Some(w) &&
                        !AtMostOneWorking(w)
  {
    var a := Apply(START, Boot(0, 0, true), k);
    var b := Apply(a, TickOf(0, LOST), k);
    var c := Apply(b, Boot(1, 0, true), k);
    var d := Apply(c, TickOf(1, ANSWERED), k);
    assert [Boot(0, 0, true), TickOf(0, LOST)] + [Boot(1, 0, true), TickOf(1, ANSWERED)]
        == [Boot(0, 0, true)] + [TickOf(0, LOST), Boot(1, 0, true), TickOf(1, ANSWERED)];
    ExecCons(START, Boot(0, 0, true), [TickOf(0, LOST), Boot(1, 0, true), TickOf(1, ANSWERED)], k);
    ExecThree(a, TickOf(0, LOST), Boot(1, 0, true), TickOf(1, ANSWERED), k);
    assert Working(d, 0) && Working(d, 1);
  }

  /** Only process 1 loses Redis; process 0 renews at 15 s, the instant 1 falls back. */
  lemma PartitionHole()
    ensures exists run :: Exec(START, run, Params(15.0, 14.0)).Some? && !AtMostOneWorking(Exec(START, run, Params(15.0, 14.0)).value)
  {
    var k := Params(15.0, 14.0);
    PairRenews(k);
    var b := PairRenewed(15.0, k);
    var up := PAIR_UP + [Wait(k.gap), TickOf(0, ANSWERED)];
    StandbyTick(ViewOf(b, 1), b.now, k.lease);
    var c := Apply(b, TickOf(1, LOST), k);
    var d := Apply(c, Wait(1.0), k);
    StandbyTick(ViewOf(d, 1), d.now, k.lease);
    var e := Apply(d, TickOf(1, LOST), k);
    ExecThree(b, TickOf(1, LOST), Wait(1.0), TickOf(1, LOST), k);
    ExecTwo(START, up, [TickOf(1, LOST), Wait(1.0), TickOf(1, LOST)], k);
    assert Working(e, 0) && Working(e, 1);
    assert Exec(START, up + [TickOf(1, LOST), Wait(1.0), TickOf(1, LOST)], k) == Some(e);
  }

  /** With an unreachable reading whose script call is answered all the same, a worker
      goes over from the lease to the lock file without stopping. */
  lemma CarryOverHappens()
    ensures exists run, inp, k :: ValidParams(k) && Exec(START, run, k).Some? &&
                                  Enabled(Exec(START, run, k).value, TickOf(0, inp), k) &&
                                  CarriesOver(Exec(START, run, k).value, 0, inp, k)
  {
    var k := Params(15.0, 14.0);
    var odd := Input(false, Answered, true);
    var run := [Boot(0, 0, true), TickOf(0, ANSWERED)] + [Wait(14.0), TickOf(0, odd), Wait(1.0)];
    var a := Apply(START, Boot(0, 0, true), k);
    var b := Apply(a, TickOf(0, ANSWERED), k);
    assert run == [Boot(0, 0, true)] + ([TickOf(0, ANSWERED)] + [Wait(14.0), TickOf(0, odd), Wait(1.0)]);
    ExecCons(START, Boot(0, 0, true), [TickOf(0, ANSWERED)] + [Wait(14.0), TickOf(0, odd), Wait(1.0)], k);
    ExecCons(a, TickOf(0, ANSWERED), [Wait(14.0), TickOf(0, odd), Wait(1.0)], k);
    ExecThree(b, Wait(14.0), TickOf(0, odd), Wait(1.0), k);
    var c := Apply(Apply(Apply(b, Wait(14.0), k), TickOf(0, odd), k), Wait(1.0), k);
    assert Enabled(c, TickOf(0, LOST), k);
    assert CarriesOver(c, 0, LOST, k);
  }
}
