/**
 Runs of the leader election: any number of processes on any hosts, one Redis key,
 one lock file a host, one clock. A run is a sequence of steps; between two ticks of
 a process that is still electing at most `gap` passes.
 */
module ElectionSafety {
  import opened Wrappers
  import opened Election

  /** `ticked` remembers when each process started or last ticked; it outlives the
      process, since holder ids are never used again. */
  datatype World = World(
    now: Time,
    key: Option<Lease>,
    locks: map<Host, Pid>,
    procs: map<Pid, Proc>,
    ticked: map<Pid, Time>
  )

  datatype Params = Params(lease: Time, gap: Time)

  datatype Step =
    | Wait(d: Time)
    | TickOf(p: Pid, inp: Input)
    | WorkerEnds(p: Pid, error: Option<string>)
    | StopOf(p: Pid, call: Call)
    | Restart(p: Pid)
    | Kill(p: Pid)
    | Boot(p: Pid, host: Host, cacheEnabled: bool)

  const START := World(1.0, None, map[], map[], map[])

  function LockOf(locks: map<Host, Pid>, h: Host): Option<Pid> {
    if h in locks then Some(locks[h]) else None
  }

  function SetLock(locks: map<Host, Pid>, h: Host, l: Option<Pid>): map<Host, Pid> {
    match l
    case None => locks - {h}
    case Some(p) => locks[h := p]
  }

  function ViewOf(w: World, p: Pid): View
    requires p in w.procs
  {
    View(w.procs[p], w.key, LockOf(w.locks, w.procs[p].host))
  }

  function WithView(w: World, p: Pid, v: View): World {
    w.(procs := w.procs[p := v.proc], key := v.key, locks := SetLock(w.locks, v.proc.host, v.lock))
  }

  ghost predicate Enabled(w: World, s: Step, k: Params) {
    match s
    case Wait(d) =>
      d > 0.0 && forall p | p in w.procs && w.procs[p].electing && p in w.ticked :: w.now + d <= w.ticked[p] + k.gap
    case TickOf(p, _) => p in w.procs && w.procs[p].electing
    case WorkerEnds(p, _) => p in w.procs && w.procs[p].Active()
    case StopOf(p, _) => p in w.procs
    case Restart(p) => p in w.procs && !w.procs[p].electing
    case Kill(p) => p in w.procs
    case Boot(p, _, _) => p !in w.ticked && p !in w.procs
  }

  ghost function Apply(w: World, s: Step, k: Params): World
    requires Enabled(w, s, k)
  {
    match s
    case Wait(d) => w.(now := w.now + d)
    case TickOf(p, inp) =>
      WithView(w, p, Tick(ViewOf(w, p), p, w.now, k.lease, inp)).(ticked := w.ticked[p := w.now])
    case Restart(p) => w.(procs := w.procs[p := StartAgain(w.procs[p])], ticked := w.ticked[p := w.now])
    case WorkerEnds(p, error) => w.(procs := w.procs[p := WorkerDone(w.procs[p], error)])
    case StopOf(p, call) => WithView(w, p, Stop(ViewOf(w, p), p, w.now, call))
    case Kill(p) =>
      // the kernel drops a dead process's file lock; Redis keeps its key until it expires
      w.(procs := w.procs - {p}, locks := SetLock(w.locks, w.procs[p].host, Unflock(LockOf(w.locks, w.procs[p].host), p)))
    case Boot(p, h, c) => w.(procs := w.procs[p := NewProc(h, c)], ticked := w.ticked[p := w.now])
  }

  /** The world after a run, or None when some step of it cannot happen. */
  ghost function Exec(w: World, run: seq<Step>, k: Params): Option<World>
    decreases |run|
  {
    if run == [] then Some(w)
    else if Enabled(w, run[0], k) then Exec(Apply(w, run[0], k), run[1..], k)
    else None
  }

  // ---------- Who may be working ----------

  predicate HoldsFlock(w: World, p: Pid) {
    p in w.procs && LockOf(w.locks, w.procs[p].host) == Some(p)
  }

  predicate HoldsLease(w: World, p: Pid) {
    LiveFor(w.key, w.now, p)
  }

  predicate Working(w: World, p: Pid) {
    p in w.procs && w.procs[p].Active()
  }

  ghost predicate AtMostOneWorking(w: World) {
    forall p, q :: Working(w, p) && Working(w, q) ==> p == q
  }

  predicate ValidParams(k: Params) { 0.0 <= k.gap < k.lease }

  ghost predicate Clocked(w: World, k: Params) {
    && w.now > 0.0
    && w.procs.Keys <= w.ticked.Keys
    && forall p | p in w.procs :: 0.0 < w.ticked[p] <= w.now && (w.procs[p].electing ==> w.now <= w.ticked[p] + k.gap)
  }

  /** Leading on the lease renewed at the last tick. */
  predicate Renewed(w: World, p: Pid, k: Params) {
    p in w.ticked && w.key == Some(Lease(p, w.ticked[p] + k.lease))
  }

  /** Every leadership is lost, crashed or going on, and a dead election has no worker. */
  predicate Accounted(p: Proc) {
    && p.lost + p.crashes + (if p.Active() then 1 else 0) <= p.acquired
    && (p.dead ==> !p.electing && p.worker == Absent)
  }

  ghost predicate Inv(w: World, k: Params) {
    && Clocked(w, k)
    && (forall h | h in w.locks :: w.locks[h] in w.procs && w.procs[w.locks[h]].host == h)
    && (forall p | Working(w, p) :: w.procs[p].electing && (HoldsFlock(w, p) || Renewed(w, p, k)))
    && (forall p | p in w.procs :: Accounted(w.procs[p]))
  }

  /** What any one process may do to the key and to its host's lock. */
  predicate Polite(v: View, u: View, me: Pid, now: Time, lease: Time) {
    && u.proc.host == v.proc.host
    && (u.key == v.key || (!Live(v.key, now) && u.key == Some(Lease(me, now + lease)))
        || (LiveFor(v.key, now, me) && (u.key == None || u.key == Some(Lease(me, now + lease)))))
    && (u.lock == v.lock || (v.lock == None && u.lock == Some(me)) || (v.lock == Some(me) && u.lock == None))
  }

  lemma TickIsPolite(v: View, me: Pid, now: Time, lease: Time, inp: Input)
    requires v.proc.electing && Accounted(v.proc)
    ensures var u := Tick(v, me, now, lease, inp);
            && Polite(v, u, me, now, lease)
            && Accounted(u.proc)
            && (u.proc.Active() ==> u.proc.electing && (u.lock == Some(me) || u.key == Some(Lease(me, now + lease))))
  {
  }

  lemma ViewStep(w: World, p: Pid, u: View, t: Time, k: Params)
    requires ValidParams(k) && Inv(w, k) && p in w.procs
    requires Polite(ViewOf(w, p), u, p, w.now, k.lease) && Accounted(u.proc)
    requires 0.0 < t <= w.now && (u.proc.electing ==> w.now <= t + k.gap)
    requires u.proc.Active() ==> u.proc.electing && (u.lock == Some(p) || u.key == Some(Lease(p, t + k.lease)))
    ensures Inv(WithView(w, p, u).(ticked := w.ticked[p := t]), k)
  {
    var v := WithView(w, p, u).(ticked := w.ticked[p := t]);
    forall q | Working(v, q)
      ensures v.procs[q].electing && (HoldsFlock(v, q) || Renewed(v, q, k))
    {
      if q != p {
        assert Working(w, q);
        assert w.now <= w.ticked[q] + k.gap;
      }
    }
  }

  lemma InvStep(w: World, s: Step, k: Params)
    requires ValidParams(k) && Inv(w, k) && Enabled(w, s, k)
    ensures Inv(Apply(w, s, k), k)
  {
    match s
    case TickOf(p, inp) =>
      TickIsPolite(ViewOf(w, p), p, w.now, k.lease, inp);
      ViewStep(w, p, Tick(ViewOf(w, p), p, w.now, k.lease, inp), w.now, k);
    case StopOf(p, call) =>
      ViewStep(w, p, Stop(ViewOf(w, p), p, w.now, call), w.ticked[p], k);
      assert w.ticked[p := w.ticked[p]] == w.ticked;
    case Restart(p) =>
      InvRestart(w, p, k);
    case Wait(d) =>
      InvWait(w, d, k);
    case WorkerEnds(p, error) =>
      InvWorkerEnds(w, p, error, k);
    case Kill(p) =>
      InvKill(w, p, k);
    case Boot(p, h, c) =>
      InvBoot(w, p, h, c, k);
  }

  lemma InvWait(w: World, d: Time, k: Params)
    requires Inv(w, k) && Enabled(w, Wait(d), k)
    ensures Inv(Apply(w, Wait(d), k), k)
  {
    var v := Apply(w, Wait(d), k);
    forall p | Working(v, p)
      ensures v.procs[p].electing && (HoldsFlock(v, p) || Renewed(v, p, k))
    {
      assert Working(w, p);
    }
  }

  lemma InvWorkerEnds(w: World, p: Pid, error: Option<string>, k: Params)
    requires Inv(w, k) && Enabled(w, WorkerEnds(p, error), k)
    ensures Inv(Apply(w, WorkerEnds(p, error), k), k)
  {
    var v := Apply(w, WorkerEnds(p, error), k);
    forall q | Working(v, q)
      ensures v.procs[q].electing && (HoldsFlock(v, q) || Renewed(v, q, k))
    {
      assert Working(w, q);
    }
  }

  lemma InvKill(w: World, p: Pid, k: Params)
    requires Inv(w, k) && Enabled(w, Kill(p), k)
    ensures Inv(Apply(w, Kill(p), k), k)
  {
    var v := Apply(w, Kill(p), k);
    forall q | Working(v, q)
      ensures v.procs[q].electing && (HoldsFlock(v, q) || Renewed(v, q, k))
    {
      assert Working(w, q);
    }
  }

  lemma InvRestart(w: World, p: Pid, k: Params)
    requires ValidParams(k) && Inv(w, k) && Enabled(w, Restart(p), k)
    ensures Inv(Apply(w, Restart(p), k), k)
  {
    var v := Apply(w, Restart(p), k);
    forall q | Working(v, q)
      ensures v.procs[q].electing && (HoldsFlock(v, q) || Renewed(v, q, k))
    {
      assert Working(w, q) && q != p;
    }
  }

  lemma InvBoot(w: World, p: Pid, h: Host, c: bool, k: Params)
    requires ValidParams(k) && Inv(w, k) && Enabled(w, Boot(p, h, c), k)
    ensures Inv(Apply(w, Boot(p, h, c), k), k)
  {
    var v := Apply(w, Boot(p, h, c), k);
    forall q | Working(v, q)
      ensures v.procs[q].electing && (HoldsFlock(v, q) || Renewed(v, q, k))
    {
      assert Working(w, q);
    }
  }

  lemma {:induction false} InvRun(w: World, run: seq<Step>, k: Params)
    requires ValidParams(k) && Inv(w, k) && Exec(w, run, k).Some?
    ensures Inv(Exec(w, run, k).value, k)
    decreases |run|
  {
    if run != [] {
      InvStep(w, run[0], k);
      InvRun(Apply(w, run[0], k), run[1..], k);
    }
  }

  predicate Touches(s: Step, q: Pid) { !s.Wait? && s.p == q }

  /** A step of one process leaves every other process's own state and claims alone. */
  lemma Untouched(w: World, s: Step, q: Pid, k: Params)
    requires ValidParams(k) && Inv(w, k) && Enabled(w, s, k) && q in w.procs && !Touches(s, q)
    ensures var v := Apply(w, s, k);
            && q in v.procs && v.procs[q] == w.procs[q] && v.ticked[q] == w.ticked[q]
            && (HoldsFlock(w, q) <==> HoldsFlock(v, q))
            && (Working(w, q) && Renewed(w, q, k) ==> Renewed(v, q, k))
  {
    if s.TickOf? {
      TickIsPolite(ViewOf(w, s.p), s.p, w.now, k.lease, s.inp);
    }
  }

  // ---------- Any flapping: who may work at once ----------

  lemma StartInv(k: Params)
    requires ValidParams(k)
    ensures Inv(START, k)
  {
  }

  /** Whatever Redis does to each process, with ticks less than a lease apart: a
      working process holds the unexpired key or its host's lock file; so two
      different ones never work on the same ground. */
  lemma EveryWorkerIsJustified(run: seq<Step>, k: Params)
    requires ValidParams(k) && Exec(START, run, k).Some?
    ensures var w := Exec(START, run, k).value;
            && (forall p | Working(w, p) :: w.procs[p].electing && (HoldsFlock(w, p) || HoldsLease(w, p)))
            && (forall p, q | p != q && Working(w, p) && Working(w, q) ::
                  !(HoldsLease(w, p) && HoldsLease(w, q)) &&
                  !(HoldsFlock(w, p) && HoldsFlock(w, q) && w.procs[p].host == w.procs[q].host))
    // a leadership is given up, or its worker crashes, at most as often as one was won
    ensures forall p | p in Exec(START, run, k).value.procs :: Accounted(Exec(START, run, k).value.procs[p])
  {
    StartInv(k);
    InvRun(START, run, k);
    var w := Exec(START, run, k).value;
    forall p | Working(w, p)
      ensures w.procs[p].electing && (HoldsFlock(w, p) || HoldsLease(w, p))
    {
      if !HoldsFlock(w, p) {
        assert Renewed(w, p, k);
        assert w.now <= w.ticked[p] + k.gap;
      }
    }
  }

  ghost function WorkingSet(w: World): set<Pid> {
    set p | p in w.procs && Working(w, p)
  }

  ghost function Hosts(w: World): set<Host> {
    set p | p in w.procs :: w.procs[p].host
  }

  lemma {:induction false} OnePerHost(w: World, s: set<Pid>, hs: set<Host>)
    requires forall p | p in s :: p in w.procs && HoldsFlock(w, p) && w.procs[p].host in hs
    ensures |s| <= |hs|
    decreases |s|
  {
    if s != {} {
      var p :| p in s;
      var h := w.procs[p].host;
      assert forall q | q in s - {p} :: w.procs[q].host != h;
      OnePerHost(w, s - {p}, hs - {h});
    }
  }

  lemma AtMostOne(s: set<Pid>)
    requires forall p, q | p in s && q in s :: p == q
    ensures |s| <= 1
  {
    if s != {} {
      var p :| p in s;
      assert s == {p};
    }
  }

  /** One lease leader and one lock-file leader a host, at most. */
  lemma WorkersAreBounded(run: seq<Step>, k: Params)
    requires ValidParams(k) && Exec(START, run, k).Some?
    ensures |WorkingSet(Exec(START, run, k).value)| <= 1 + |Hosts(Exec(START, run, k).value)|
  {
    EveryWorkerIsJustified(run, k);
    JustifiedIsBounded(Exec(START, run, k).value);
  }

  lemma JustifiedIsBounded(w: World)
    requires forall p | Working(w, p) :: HoldsFlock(w, p) || HoldsLease(w, p)
    ensures |WorkingSet(w)| <= 1 + |Hosts(w)|
  {
    var working := WorkingSet(w);
    var onFile := set p | p in working && HoldsFlock(w, p);
    OnePerHost(w, onFile, Hosts(w));
    var onKey := working - onFile;
    AtMostOne(onKey);
    assert working == onFile + onKey && onFile !! onKey;
  }

  // ---------- From the lease to the lock file ----------

  /** A working process that led on its lease comes out of this tick leading on the
      lock file, its worker never stopped. */
  predicate CarriesOver(w: World, p: Pid, inp: Input, k: Params) {
    && Working(w, p)
    && !HoldsFlock(w, p)
    && var u := Tick(ViewOf(w, p), p, w.now, k.lease, inp);
       u.proc.Active() && u.lock == Some(p)
  }

  /** `downSince`, once set, is the last connected tick; kept for every process. */
  predicate DatedProc(q: Proc, t: Time) {
    && (q.lastConnected.Some? ==> 0.0 < q.lastConnected.value <= t)
    && (q.downSince.Some? ==> q.downSince == q.lastConnected)
    && (q.everReachable <==> q.lastConnected.Some?)
  }

  /** What a lease leader remembers. `connected`: its last tick read "connected". */
  predicate OriginProc(q: Proc, t: Time, connected: bool) {
    && q.cacheEnabled && q.everReachable
    && (connected ==> q.downSince == None && q.lastConnected == Some(t))
  }

  predicate Dated(w: World, p: Pid) {
    p in w.procs && p in w.ticked && DatedProc(w.procs[p], w.ticked[p])
  }

  predicate Origin(w: World, p: Pid, connected: bool) {
    Dated(w, p) && OriginProc(w.procs[p], w.ticked[p], connected)
  }

  ghost predicate Origins(w: World, connected: bool) {
    && (forall p | p in w.procs :: Dated(w, p))
    && (forall p | Working(w, p) && !HoldsFlock(w, p) :: Origin(w, p, connected))
  }

  /** A tick whose status reads "unreachable" gets no script call through either. */
  predicate Coherent(s: Step) {
    s.TickOf? && !s.inp.reachable ==> s.inp.call == NotSent
  }

  lemma Touched(w: World, s: Step, k: Params)
    requires ValidParams(k) && Inv(w, k) && Enabled(w, s, k) && !s.Wait? && !s.TickOf?
    requires s.p in w.procs ==> Dated(w, s.p)
    ensures var v := Apply(w, s, k); !Working(v, s.p) && (s.p in v.procs ==> Dated(v, s.p))
  {
  }

  lemma OriginsStep(w: World, s: Step, connected: bool, k: Params)
    requires ValidParams(k) && Inv(w, k) && Origins(w, connected) && Enabled(w, s, k)
    requires connected ==> Coherent(s)
    ensures Origins(Apply(w, s, k), connected)
  {
    var v := Apply(w, s, k);
    forall p | p in v.procs
      ensures Dated(v, p) && (Working(v, p) && !HoldsFlock(v, p) ==> Origin(v, p, connected))
    {
      if !Touches(s, p) {
        assert p in w.procs && Dated(w, p);
        Untouched(w, s, p, k);
        assert Working(w, p) && !HoldsFlock(w, p) ==> Origin(w, p, connected);
      } else if s.TickOf? {
        assert Dated(w, p);
        OriginTick(w, p, s.inp, connected, k);
      } else {
        Touched(w, s, k);
      }
    }
  }

  lemma ObserveKeepsDates(p: Proc, now: Time, t: Time, status: Status)
    requires 0.0 < t <= now && DatedProc(p, t)
    ensures var q := Observe(p, now, status);
            DatedProc(q, now) && (status == Connected ==> q.everReachable && q.downSince == None && q.lastConnected == Some(now))
  {
  }

  /** Leading and stepping down leave what was observed alone. */
  lemma DatesStay(p: Proc, t: Time)
    ensures DatedProc(p, t) <==> DatedProc(Lead(p), t)
    ensures DatedProc(p, t) <==> DatedProc(StepDown(p), t)
    ensures !StepDown(p).Active() && Lead(p).cacheEnabled == p.cacheEnabled && Lead(p).everReachable == p.everReachable
    ensures Lead(p).downSince == p.downSince && Lead(p).lastConnected == p.lastConnected
  {
  }

  lemma TickKeepsDates(v: View, p: Pid, now: Time, t: Time, lease: Time, connected: bool, inp: Input)
    requires 0.0 < t <= now && DatedProc(v.proc, t)
    requires connected ==> inp.reachable || inp.call == NotSent
    ensures var u := Tick(v, p, now, lease, inp);
            && DatedProc(u.proc, now)
            && (u.proc.Active() && u.lock != Some(p) ==> OriginProc(u.proc, now, connected))
  {
    ObserveKeepsDates(v.proc, now, t, StatusOf(v.proc, inp));
    DatesStay(Observe(v.proc, now, StatusOf(v.proc, inp)), now);
  }

  lemma OriginTick(w: World, p: Pid, inp: Input, connected: bool, k: Params)
    requires Inv(w, k) && Dated(w, p) && w.ticked[p] > 0.0 && Enabled(w, TickOf(p, inp), k)
    requires connected ==> Coherent(TickOf(p, inp))
    ensures var v := Apply(w, TickOf(p, inp), k);
            Dated(v, p) && (Working(v, p) && !HoldsFlock(v, p) ==> Origin(v, p, connected))
  {
    TickKeepsDates(ViewOf(w, p), p, w.now, w.ticked[p], k.lease, connected, inp);
  }

  lemma {:induction false} OriginsRun(w: World, run: seq<Step>, connected: bool, k: Params)
    requires ValidParams(k) && Inv(w, k) && Origins(w, connected) && Exec(w, run, k).Some?
    requires connected ==> forall s | s in run :: Coherent(s)
    ensures Origins(Exec(w, run, k).value, connected)
    decreases |run|
  {
    if run != [] {
      InvStep(w, run[0], k);
      OriginsStep(w, run[0], connected, k);
      OriginsRun(Apply(w, run[0], k), run[1..], connected, k);
    }
  }

  /** No worker is carried over while status and script agree about Redis. */
  lemma NoCarryOver(run: seq<Step>, p: Pid, inp: Input, k: Params)
    requires ValidParams(k) && Exec(START, run, k).Some?
    requires (forall s | s in run :: Coherent(s)) && Enabled(Exec(START, run, k).value, TickOf(p, inp), k)
    ensures !CarriesOver(Exec(START, run, k).value, p, inp, k)
  {
    StartInv(k);
    InvRun(START, run, k);
    OriginsRun(START, run, true, k);
    var w := Exec(START, run, k).value;
    if Working(w, p) && !HoldsFlock(w, p) {
      assert Origin(w, p, true);
    }
  }

  /** In general a lease leader carries its worker over exactly when this tick reads
      "unreachable", its last "connected" reading is a full lease old (so the lease
      was renewed behind an "unreachable" reading since), and the lock file is free. */
  lemma CarriesOverExactly(run: seq<Step>, p: Pid, inp: Input, k: Params)
    requires ValidParams(k) && Exec(START, run, k).Some?
    requires var w := Exec(START, run, k).value; Enabled(w, TickOf(p, inp), k) && Working(w, p) && !HoldsFlock(w, p)
    ensures var w := Exec(START, run, k).value;
            w.procs[p].lastConnected.Some? &&
            (CarriesOver(w, p, inp, k) <==>
               && !inp.reachable
               && w.procs[p].lastConnected.value + k.lease <= w.now
               && w.procs[p].host !in w.locks && inp.lockAvailable)
  {
    StartInv(k);
    InvRun(START, run, k);
    OriginsRun(START, run, false, k);
    assert Origin(Exec(START, run, k).value, p, false);
  }
}
