/** What every run of concurrent check-ins, check-outs and live-count writers keeps. */
module JourneyRuns {
  import opened Wrappers
  import opened Arith
  import opened JourneyLocks

  // ---------- The live count as a fold ----------

  function Fold(h: seq<(Station, Effect)>, st: Station): nat {
    if h == [] then 0
    else
      var last := h[|h| - 1];
      if last.0 == st then Put(last.1, Fold(h[..|h| - 1], st)) else Fold(h[..|h| - 1], st)
  }

  ghost predicate DistinctLocks(plan: seq<Lock>) { forall i, j | 0 <= i < j < |plan| :: plan[i] != plan[j] }

  lemma {:induction false} FoldEntries(h: seq<(Station, Effect)>, plan: seq<Lock>, effects: map<Station, Effect>, st: Station)
    requires DistinctLocks(plan)
    ensures Fold(h + Entries(plan, effects), st) ==
            if StationRow(st) in plan && st in effects then Put(effects[st], Fold(h, st)) else Fold(h, st)
  {
    if plan == [] {
      assert h + Entries(plan, effects) == h;
    } else {
      var g, l := plan[..|plan| - 1], plan[|plan| - 1];
      assert plan == g + [l];
      FoldEntries(h, g, effects, st);
      var e := Entries(g, effects);
      if l.StationRow? && l.st in effects {
        assert (h + (e + [(l.st, effects[l.st])]))[..|h + e|] == h + e;
      } else {
        assert e + [] == e;
      }
    }
  }

  // ---------- Invariants ----------

  ghost predicate StationLocked(tx: Tx, st: Station) {
    exists i :: 0 <= i < tx.got && i < |tx.plan| && tx.plan[i] == StationRow(st)
  }

  ghost predicate PlanOk(s: State, tx: Tx) {
    && tx.got <= |tx.plan| && DistinctLocks(tx.plan)
    && (tx.req.CheckIn? ==> tx.req.src != tx.req.dst)
    && (tx.req.CheckOut? ==> tx.req.journey in s.journeys)
    && tx.plan == PlanFor(s.journeys, tx.req) && tx.effects == EffectsFor(s.journeys, tx.req)
  }

  ghost predicate WritesOk(s: State, tx: Tx) {
    && (forall st :: st in tx.writes <==> StationLocked(tx, st))
    && (forall st | st in tx.writes :: st in tx.effects && tx.writes[st] == Put(tx.effects[st], Count(s.counts, st)))
  }

  /** A check-in past its slot knows of no active journey, a check-out past its first lock
      that its journey is the user's and active. */
  ghost predicate GuardOk(s: State, tx: Tx) {
    && (tx.req.CheckIn? && tx.got == 2 ==> !HasActive(s.journeys, tx.req.user))
    && (tx.req.CheckOut? && tx.got >= 1 ==>
          tx.req.journey in s.journeys && s.journeys[tx.req.journey].active && s.journeys[tx.req.journey].user == tx.req.user)
  }

  ghost predicate Exclusive(s: State) {
    forall a, b, l | a != b && Holds(s, a, l) :: !Holds(s, b, l)
  }

  ghost predicate OneActive(s: State) {
    forall j, k | j in s.journeys && k in s.journeys && s.journeys[j].active && s.journeys[k].active &&
                  s.journeys[j].user == s.journeys[k].user :: j == k
  }

  ghost predicate Counted(s: State) { forall st :: Count(s.counts, st) == Fold(s.history, st) }

  ghost predicate TxOk(s: State, t: TxId) { t in s.txs ==> PlanOk(s, s.txs[t]) && WritesOk(s, s.txs[t]) && GuardOk(s, s.txs[t]) }

  ghost predicate Inv(s: State) {
    Exclusive(s) && OneActive(s) && JourneysDiffer(s) && Counted(s) && forall t :: TxOk(s, t)
  }

  lemma {:induction false} ValuesAt(values: seq<(Station, nat)>)
    requires Distinct(values)
    ensures forall i | 0 <= i < |values| :: values[i].0 in Values(values) && Values(values)[values[i].0] == Set(values[i].1)
  {
    if values != [] {
      var g := values[..|values| - 1];
      ValuesAt(g);
      forall i | 0 <= i < |values| ensures values[i].0 in Values(values) && Values(values)[values[i].0] == Set(values[i].1) {
        if i < |g| { assert g[i] == values[i]; }
      }
    }
  }

  // ---------- One step ----------

  lemma BeginKeeps(s: State, step: Step, known: set<Station>)
    requires Inv(s) && step.Begin? && Enabled(s, step, known)
    ensures Inv(Apply(s, step, known))
  {
    var r := Apply(s, step, known);
    forall a, b, l | a != b && Holds(r, a, l) ensures !Holds(r, b, l) {
      assert a != step.t && Holds(s, a, l);
      assert b != step.t ==> !Holds(s, b, l);
    }
    forall t ensures TxOk(r, t) { assert TxOk(s, t); }
  }

  lemma AbortKeeps(s: State, step: Step, known: set<Station>)
    requires Inv(s) && step.Abort? && Enabled(s, step, known)
    ensures Inv(Apply(s, step, known))
  {
    var r := Apply(s, step, known);
    forall a, b, l | a != b && Holds(r, a, l) ensures !Holds(r, b, l) {
      assert Holds(s, a, l) && !Holds(s, b, l);
    }
    forall t ensures TxOk(r, t) { assert TxOk(s, t); }
  }

  lemma AcquireKeeps(s: State, step: Step, known: set<Station>)
    requires Inv(s) && step.Acquire? && Enabled(s, step, known)
    ensures Inv(Apply(s, step, known))
  {
    var r := Apply(s, step, known);
    var tx := s.txs[step.t];
    forall a, l | Holds(r, a, l) ensures Holds(s, a, l) || (a == step.t && l == NextLock(tx)) {
    }
    forall a, b, l | a != b && Holds(r, a, l) ensures !Holds(r, b, l) {
      assert !(Holds(s, a, l) && Holds(s, b, l));
    }
    forall t ensures TxOk(r, t) {
      assert TxOk(s, t);
      if t == step.t { AcquireOwn(s, tx); }
    }
  }

  lemma AcquireOwn(s: State, tx: Tx)
    requires PlanOk(s, tx) && WritesOk(s, tx) && GuardOk(s, tx) && tx.got < |tx.plan| && Grants(s, tx.req, NextLock(tx))
    requires NextLock(tx).StationRow? ==> NextLock(tx).st in tx.effects
    ensures var ty := Acquired(tx, s.counts); PlanOk(s, ty) && WritesOk(s, ty) && GuardOk(s, ty)
  {
    var ty := Acquired(tx, s.counts);
    forall st ensures StationLocked(ty, st) <==> StationLocked(tx, st) || NextLock(tx) == StationRow(st) {
      if StationLocked(tx, st) {
        var i :| 0 <= i < tx.got && i < |tx.plan| && tx.plan[i] == StationRow(st);
        assert ty.plan[i] == StationRow(st);
      }
      assert ty.plan[tx.got] == NextLock(tx);
    }
  }

  lemma StoredAt(counts: map<Station, nat>, writes: map<Station, nat>, st: Station)
    ensures Count(Stored(counts, writes), st) == if st in writes then writes[st] else Count(counts, st)
  {
  }

  lemma CommitCounts(s: State, step: Step, known: set<Station>, st: Station)
    requires Inv(s) && step.Commit? && Enabled(s, step, known)
    ensures var r := Apply(s, step, known); Count(r.counts, st) == Fold(r.history, st)
  {
    var tx := s.txs[step.t];
    assert TxOk(s, step.t);
    FoldEntries(s.history, tx.plan, tx.effects, st);
    StoredAt(s.counts, tx.writes, st);
    assert StationLocked(tx, st) <==> StationRow(st) in tx.plan;
    assert Count(s.counts, st) == Fold(s.history, st);
    PlannedStations(s, tx, st);
  }

  lemma PlannedStations(s: State, tx: Tx, st: Station)
    requires PlanOk(s, tx) && WritesOk(s, tx) && tx.got == |tx.plan|
    ensures st in tx.writes <==> StationRow(st) in tx.plan && st in tx.effects
  {
    assert StationLocked(tx, st) <==> StationRow(st) in tx.plan;
  }

  lemma HoldsAt(s: State, t: TxId, i: nat)
    requires t in s.txs && i < s.txs[t].got && i < |s.txs[t].plan|
    ensures Holds(s, t, s.txs[t].plan[i])
  {
  }

  lemma CommitJourneys(s: State, step: Step, known: set<Station>)
    requires Inv(s) && step.Commit? && Enabled(s, step, known)
    ensures OneActive(Apply(s, step, known)) && JourneysDiffer(Apply(s, step, known))
  {
    assert TxOk(s, step.t);
  }

  /** The journeys others rely on are not the committed one's. */
  lemma CommitGuards(s: State, step: Step, known: set<Station>, b: TxId)
    requires Inv(s) && step.Commit? && Enabled(s, step, known) && b != step.t && b in s.txs
    ensures PlanOk(Apply(s, step, known), s.txs[b]) && GuardOk(Apply(s, step, known), s.txs[b])
  {
    assert TxOk(s, step.t) && TxOk(s, b);
    var tx, other := s.txs[step.t], s.txs[b];
    if tx.req.CheckIn? && other.req.CheckIn? && other.got == 2 {
      HoldsAt(s, step.t, 1);
      HoldsAt(s, b, 1);
      assert tx.req.user != other.req.user;
    }
    if tx.req.CheckOut? && other.req.CheckOut? && other.got >= 1 {
      HoldsAt(s, step.t, 0);
      HoldsAt(s, b, 0);
      assert tx.req.journey != other.req.journey;
    }
    CommitActive(s, step, known);
  }

  lemma CommitActive(s: State, step: Step, known: set<Station>)
    requires Inv(s) && step.Commit? && Enabled(s, step, known)
    ensures var r := Apply(s, step, known);
            forall u | HasActive(r.journeys, u) :: HasActive(s.journeys, u) || (s.txs[step.t].req.CheckIn? && s.txs[step.t].req.user == u)
  {
    var r := Apply(s, step, known);
    forall u | HasActive(r.journeys, u)
      ensures HasActive(s.journeys, u) || (s.txs[step.t].req.CheckIn? && s.txs[step.t].req.user == u)
    {
      var j :| j in r.journeys && r.journeys[j].user == u && r.journeys[j].active;
      assert j != step.j || !s.txs[step.t].req.CheckIn? ==> j in s.journeys && s.journeys[j].user == u && s.journeys[j].active;
    }
  }

  lemma CommitWrites(s: State, step: Step, known: set<Station>, b: TxId)
    requires Inv(s) && step.Commit? && Enabled(s, step, known) && b != step.t && b in s.txs
    ensures WritesOk(Apply(s, step, known), s.txs[b])
  {
    var tx, other := s.txs[step.t], s.txs[b];
    assert TxOk(s, step.t) && TxOk(s, b);
    forall st | st in other.writes ensures st !in tx.writes {
      assert StationLocked(other, st);
      assert Holds(s, b, StationRow(st));
      assert st in tx.writes ==> StationLocked(tx, st) && Holds(s, step.t, StationRow(st));
    }
    forall st ensures st in other.writes ==> Count(Apply(s, step, known).counts, st) == Count(s.counts, st) {
      StoredAt(s.counts, tx.writes, st);
    }
  }

  lemma CommitKeeps(s: State, step: Step, known: set<Station>)
    requires Inv(s) && step.Commit? && Enabled(s, step, known)
    ensures Inv(Apply(s, step, known))
  {
    var r := Apply(s, step, known);
    forall a, b, l | a != b && Holds(r, a, l) ensures !Holds(r, b, l) {
      assert Holds(s, a, l) && !Holds(s, b, l);
    }
    forall st ensures Count(r.counts, st) == Fold(r.history, st) { CommitCounts(s, step, known, st); }
    CommitJourneys(s, step, known);
    forall t ensures TxOk(r, t) {
      if t in r.txs {
        CommitGuards(s, step, known, t);
        CommitWrites(s, step, known, t);
      }
    }
  }

  lemma Keeps(s: State, step: Step, known: set<Station>)
    requires Inv(s) && Enabled(s, step, known)
    ensures Inv(Apply(s, step, known))
  {
    match step
    case Begin(_, _) => BeginKeeps(s, step, known);
    case Acquire(_) => AcquireKeeps(s, step, known);
    case Commit(_, _) => CommitKeeps(s, step, known);
    case Abort(_) => AbortKeeps(s, step, known);
  }

  lemma {:induction false} InvRun(run: seq<Step>, known: set<Station>)
    requires Exec(run, known).Some?
    ensures Inv(Exec(run, known).value)
  {
    if run != [] {
      InvRun(run[..|run| - 1], known);
      Keeps(Exec(run[..|run| - 1], known).value, run[|run| - 1], known);
    }
  }

  /** In every run: each live count is the fold of the committed effects in lock order, so no
      update is lost and none is below zero; a user has at most one active journey; and no
      lock has two holders. */
  lemma CountsAreFolds(run: seq<Step>, known: set<Station>, st: Station)
    requires Exec(run, known).Some?
    ensures var s := Exec(run, known).value;
            Count(s.counts, st) == Fold(s.history, st) && OneActive(s) && Exclusive(s)
  {
    InvRun(run, known);
    assert Counted(Exec(run, known).value);
  }

  // ---------- No deadlock ----------

  lemma {:induction false} RisingRun(run: seq<Step>, known: set<Station>)
    requires Exec(run, known).Some? && WritersAscend(run)
    ensures AllRising(Exec(run, known).value)
  {
    if run != [] {
      var g, last := run[..|run| - 1], run[|run| - 1];
      assert forall i | 0 <= i < |g| :: g[i] == run[i];
      RisingRun(g, known);
      InvRun(g, known);
      assert run[|run| - 1] == last;
      RisingStep(Exec(g, known).value, last, known);
    }
  }

  /** No reachable cycle of transactions waiting for one another. */
  lemma NeverDeadlocked(run: seq<Step>, known: set<Station>, c: seq<TxId>)
    requires Exec(run, known).Some? && WritersAscend(run)
    requires |c| >= 2 && WaitChain(Exec(run, known).value, c)
    ensures c[0] != c[|c| - 1]
  {
    RisingRun(run, known);
    NoCycle(Exec(run, known).value, c);
  }

  ghost predicate Blocked(s: State, t: TxId) { Open(s, t) && !Free(s, t, NextLock(s.txs[t])) }

  lemma {:induction false} HighestWaiter(s: State, ts: set<TxId>) returns (top: TxId)
    requires ts != {} && forall t | t in ts :: Open(s, t)
    ensures top in ts && forall t | t in ts :: Open(s, t) && Open(s, top) && !Below(NextLock(s.txs[top]), NextLock(s.txs[t]))
    decreases ts
  {
    Inhabited(ts);
    var t :| t in ts;
    assert ts == ts - {t} + {t};
    if ts - {t} == {} {
      top := t;
    } else {
      var other := HighestWaiter(s, ts - {t});
      top := if Below(NextLock(s.txs[other]), NextLock(s.txs[t])) then t else other;
    }
  }

  /** While transactions are open, one of them is not blocked. */
  lemma SomeoneCanMove(run: seq<Step>, known: set<Station>) returns (t: TxId)
    requires Exec(run, known).Some? && WritersAscend(run) && Exec(run, known).value.txs != map[]
    ensures t in Exec(run, known).value.txs && !Blocked(Exec(run, known).value, t)
  {
    var s := Exec(run, known).value;
    RisingRun(run, known);
    var blocked := set b | b in s.txs && Blocked(s, b);
    if blocked == {} {
      Inhabited(s.txs.Keys);
      t :| t in s.txs;
      assert t !in blocked;
    } else {
      var top := HighestWaiter(s, blocked);
      t :| t != top && Holds(s, t, NextLock(s.txs[top]));
      if Open(s, t) {
        WaitsUp(s, top, t);
      }
      assert t !in blocked;
    }
  }

  // ---------- Counts and journeys ----------

  function Travelling(journeys: map<JourneyId, Journey>, st: Station): set<JourneyId> {
    set j | j in journeys && journeys[j].active && journeys[j].src == st
  }

  function Arrived(journeys: map<JourneyId, Journey>, st: Station): set<JourneyId> {
    set j | j in journeys && !journeys[j].active && journeys[j].dst == st
  }

  ghost predicate Tallied(s: State) {
    forall st :: Count(s.counts, st) == Travellers(s.journeys, st)
  }

  ghost predicate OnlyPassengers(s: State) { forall t | t in s.txs :: !s.txs[t].req.Write? }

  lemma CountAfterCommit(s: State, step: Step, known: set<Station>, st: Station)
    requires Inv(s) && step.Commit? && Enabled(s, step, known) && !s.txs[step.t].req.Write?
    ensures var tx := s.txs[step.t];
            Count(Apply(s, step, known).counts, st) ==
            if st in tx.effects then Put(tx.effects[st], Count(s.counts, st)) else Count(s.counts, st)
  {
    var tx := s.txs[step.t];
    assert TxOk(s, step.t);
    StoredAt(s.counts, tx.writes, st);
    PlannedStations(s, tx, st);
    if st in tx.effects {
      EffectsPlanned(s.journeys, tx.req, st);
    }
  }

  lemma EffectsPlanned(journeys: map<JourneyId, Journey>, req: Request, st: Station)
    requires !req.Write? && (req.CheckOut? ==> req.journey in journeys)
    requires st in EffectsFor(journeys, req)
    ensures StationRow(st) in PlanFor(journeys, req)
  {
    var plan := PlanFor(journeys, req);
    assert req.CheckIn? ==> plan[0] == StationRow(st);
    assert req.CheckOut? ==> plan[1] == StationRow(st) || plan[2] == StationRow(st);
  }

  /** What a commit stores, whatever ran between its locks and now: a check-in adds one at its
      source, a check-out moves one from source to destination, a writer puts its values. */
  lemma CommitExactly(run: seq<Step>, t: TxId, j: JourneyId, known: set<Station>, st: Station)
    requires Exec(run, known).Some? && Enabled(Exec(run, known).value, Commit(t, j), known)
    ensures var s := Exec(run, known).value;
            var r := Apply(s, Commit(t, j), known);
            var (n, after) := (Count(s.counts, st), Count(r.counts, st));
            match s.txs[t].req
            case CheckIn(u, src, dst) =>
              && r.journeys == s.journeys[j := Journey(u, src, dst, true)]
              && after == n + if st == src then 1 else 0
            case CheckOut(u, i) =>
              && i in s.journeys && s.journeys[i].user == u && s.journeys[i].active
              && var was := s.journeys[i];
                 && r.journeys == s.journeys[i := Journey(u, was.src, was.dst, false)]
                 && after == if st == was.dst then n + 1 else if st == was.src && n > 0 then n - 1 else n
            case Write(values) =>
              && r.journeys == s.journeys
              && (forall i | 0 <= i < |values| && values[i].0 == st :: after == values[i].1)
              && ((forall i | 0 <= i < |values| :: values[i].0 != st) ==> after == n)
  {
    InvRun(run, known);
    var s := Exec(run, known).value;
    var req := s.txs[t].req;
    assert TxOk(s, t);
    match req
    case Write(values) => WriteCommits(s, t, j, known, st);
    case CheckIn(_, _, _) => CountAfterCommit(s, Commit(t, j), known, st);
    case CheckOut(_, _) => CountAfterCommit(s, Commit(t, j), known, st);
  }

  lemma WriteCommits(s: State, t: TxId, j: JourneyId, known: set<Station>, st: Station)
    requires Inv(s) && Enabled(s, Commit(t, j), known) && s.txs[t].req.Write?
    ensures var values := s.txs[t].req.values;
            var after := Count(Apply(s, Commit(t, j), known).counts, st);
            && (forall i | 0 <= i < |values| && values[i].0 == st :: after == values[i].1)
            && ((forall i | 0 <= i < |values| :: values[i].0 != st) ==> after == Count(s.counts, st))
  {
    var tx := s.txs[t];
    var values := tx.req.values;
    assert TxOk(s, t);
    StoredAt(s.counts, tx.writes, st);
    PlannedStations(s, tx, st);
    forall a, b | 0 <= a < b < |values| ensures values[a].0 != values[b].0 {
      assert tx.plan[a] != tx.plan[b];
    }
    ValuesAt(values);
    if i :| 0 <= i < |values| && values[i].0 == st {
      assert tx.plan[i] == StationRow(st);
    }
  }

  function Travellers(journeys: map<JourneyId, Journey>, st: Station): nat {
    |Travelling(journeys, st)| + |Arrived(journeys, st)|
  }

  lemma Departs(journeys: map<JourneyId, Journey>, j: JourneyId, entry: Journey, st: Station)
    requires j !in journeys && entry.active
    ensures Travellers(journeys[j := entry], st) == Travellers(journeys, st) + (if st == entry.src then 1 else 0)
  {
    TravellingGrows(journeys, j, entry, st);
    assert Arrived(journeys[j := entry], st) == Arrived(journeys, st);
  }

  lemma TravellingGrows(journeys: map<JourneyId, Journey>, j: JourneyId, entry: Journey, st: Station)
    requires j !in journeys && entry.active
    ensures |Travelling(journeys[j := entry], st)| == |Travelling(journeys, st)| + (if st == entry.src then 1 else 0)
  {
    assert Travelling(journeys[j := entry], st) == Travelling(journeys, st) + (if st == entry.src then {j} else {});
  }

  lemma TravellingShrinks(journeys: map<JourneyId, Journey>, j: JourneyId, st: Station)
    requires j in journeys && journeys[j].active
    ensures |Travelling(journeys[j := journeys[j].(active := false)], st)| ==
            |Travelling(journeys, st)| - (if st == journeys[j].src then 1 else 0)
  {
    var after := journeys[j := journeys[j].(active := false)];
    assert st == journeys[j].src ==> j in Travelling(journeys, st);
    assert Travelling(after, st) == Travelling(journeys, st) - {j};
  }

  lemma ArrivedGrows(journeys: map<JourneyId, Journey>, j: JourneyId, st: Station)
    requires j in journeys && journeys[j].active
    ensures |Arrived(journeys[j := journeys[j].(active := false)], st)| ==
            |Arrived(journeys, st)| + (if st == journeys[j].dst then 1 else 0)
  {
    var after := journeys[j := journeys[j].(active := false)];
    assert j !in Arrived(journeys, st);
    assert Arrived(after, st) == Arrived(journeys, st) + (if st == journeys[j].dst then {j} else {});
  }

  lemma Arrives(journeys: map<JourneyId, Journey>, j: JourneyId, st: Station)
    requires j in journeys && journeys[j].active && journeys[j].src != journeys[j].dst
    ensures Travellers(journeys[j := journeys[j].(active := false)], st) ==
            Travellers(journeys, st) + (if st == journeys[j].dst then 1 else if st == journeys[j].src then -1 else 0)
    ensures st == journeys[j].src ==> Travellers(journeys, st) >= 1
  {
    TravellingShrinks(journeys, j, st);
    ArrivedGrows(journeys, j, st);
    assert st == journeys[j].src ==> j in Travelling(journeys, st);
  }

  lemma TallyCheckIn(s: State, step: Step, known: set<Station>, st: Station)
    requires Inv(s) && step.Commit? && Enabled(s, step, known) && s.txs[step.t].req.CheckIn?
    requires Count(s.counts, st) == Travellers(s.journeys, st)
    ensures var r := Apply(s, step, known); Count(r.counts, st) == Travellers(r.journeys, st)
  {
    var req := s.txs[step.t].req;
    CountAfterCommit(s, step, known, st);
    assert TxOk(s, step.t);
    Departs(s.journeys, step.j, Journey(req.user, req.src, req.dst, true), st);
  }

  lemma TallyCheckOut(s: State, step: Step, known: set<Station>, st: Station)
    requires Inv(s) && step.Commit? && Enabled(s, step, known) && s.txs[step.t].req.CheckOut?
    requires Count(s.counts, st) == Travellers(s.journeys, st)
    ensures var r := Apply(s, step, known); Count(r.counts, st) == Travellers(r.journeys, st)
  {
    CountAfterCommit(s, step, known, st);
    assert TxOk(s, step.t);
    Arrives(s.journeys, step.j, st);
  }

  lemma TallyKeeps(s: State, step: Step, known: set<Station>)
    requires Inv(s) && Tallied(s) && OnlyPassengers(s) && Enabled(s, step, known)
    requires step.Begin? ==> !step.req.Write?
    ensures Tallied(Apply(s, step, known)) && OnlyPassengers(Apply(s, step, known))
  {
    var r := Apply(s, step, known);
    if step.Commit? {
      forall st ensures Count(r.counts, st) == Travellers(r.journeys, st) {
        assert Count(s.counts, st) == Travellers(s.journeys, st);
        if s.txs[step.t].req.CheckIn? {
          TallyCheckIn(s, step, known, st);
        } else {
          TallyCheckOut(s, step, known, st);
        }
      }
    } else {
      assert r.counts == s.counts && r.journeys == s.journeys;
    }
  }

  ghost predicate NoWriters(run: seq<Step>) { forall i | 0 <= i < |run| && run[i].Begin? :: !run[i].req.Write? }

  lemma {:induction false} TallyRun(run: seq<Step>, known: set<Station>)
    requires Exec(run, known).Some? && NoWriters(run)
    ensures Tallied(Exec(run, known).value) && OnlyPassengers(Exec(run, known).value)
  {
    if run == [] {
      assert forall st :: Travelling(map[], st) == {} && Arrived(map[], st) == {};
    } else {
      var g, last := run[..|run| - 1], run[|run| - 1];
      assert forall i | 0 <= i < |g| :: g[i] == run[i];
      TallyRun(g, known);
      InvRun(g, known);
      TallyKeeps(Exec(g, known).value, last, known);
    }
  }

  /** With check-ins and check-outs alone, in any interleaving and with any aborts, a station's
      count is exactly the number of journeys under way from it plus those completed to it:
      every commit counts once, no abort counts, and the clamp at zero never acts. */
  lemma CountsAreJourneys(run: seq<Step>, known: set<Station>, st: Station)
    requires Exec(run, known).Some? && NoWriters(run)
    ensures var s := Exec(run, known).value;
            Count(s.counts, st) == |Travelling(s.journeys, st)| + |Arrived(s.journeys, st)|
  {
    TallyRun(run, known);
  }

  // ---------- Where the order matters ----------

  /** A check-out that holds its journey and the lower station, and a writer that holds the
      higher one. */
  ghost function Crossed(s: State, out: Tx, writer: Tx, o: TxId, w: TxId): State {
    s.(txs := map[o := out, w := writer])
  }

  lemma CrossedWaits(s: State, out: Tx, writer: Tx, o: TxId, w: TxId, a: Station, b: Station)
    requires o != w && out.got == 2 && writer.got == 1
    requires |out.plan| == 3 && out.plan[1] == StationRow(a) && out.plan[2] == StationRow(b)
    requires writer.plan == [StationRow(b), StationRow(a)]
    ensures WaitChain(Crossed(s, out, writer, o, w), [o, w, o])
  {
    var r := Crossed(s, out, writer, o, w);
    assert r.txs[o].plan[1] == StationRow(a) && r.txs[w].plan[0] == StationRow(b);
    assert Holds(r, o, StationRow(a)) && Holds(r, w, StationRow(b));
    assert WaitsFor(r, o, w) && WaitsFor(r, w, o);
  }

  lemma ExecSnoc(run: seq<Step>, step: Step, known: set<Station>)
    requires Exec(run, known).Some? && Enabled(Exec(run, known).value, step, known)
    ensures Exec(run + [step], known) == Some(Apply(Exec(run, known).value, step, known))
  {
    assert (run + [step])[..|run|] == run;
  }

  lemma AcquireFree(run: seq<Step>, known: set<Station>, s: State, o: TxId, w: TxId, mine: Tx, other: Tx)
    requires Exec(run, known) == Some(s.(txs := map[o := mine, w := other])) && o != w
    requires mine.got < |mine.plan| && Grants(s, mine.req, NextLock(mine))
    requires NextLock(mine).StationRow? ==> NextLock(mine).st in mine.effects
    requires forall i | 0 <= i < other.got && i < |other.plan| :: other.plan[i] != NextLock(mine)
    ensures Exec(run + [Acquire(o)], known) == Some(s.(txs := map[o := Acquired(mine, s.counts), w := other]))
  {
    var r := Exec(run, known).value;
    assert Free(r, o, NextLock(mine));
    ExecSnoc(run, Acquire(o), known);
    assert r.txs[o := Acquired(mine, s.counts)] == map[o := Acquired(mine, s.counts), w := other];
  }

  lemma BeginTwo(run: seq<Step>, known: set<Station>, o: TxId, w: TxId, p: Request, q: Request)
    requires Exec(run, known).Some? && Exec(run, known).value.txs == map[] && o != w
    requires var js := Exec(run, known).value.journeys;
             && Refusal(js, known, p).None? && Refusal(js, known, q).None?
             && (p.Write? ==> Distinct(p.values)) && (q.Write? ==> Distinct(q.values))
    ensures var s := Exec(run, known).value;
            Exec(run + [Begin(o, p)] + [Begin(w, q)], known) ==
            Some(s.(txs := map[o := Tx(p, PlanFor(s.journeys, p), EffectsFor(s.journeys, p), 0, map[]),
                               w := Tx(q, PlanFor(s.journeys, q), EffectsFor(s.journeys, q), 0, map[])]))
  {
    ExecSnoc(run, Begin(o, p), known);
    ExecSnoc(run + [Begin(o, p)], Begin(w, q), known);
  }

  /** The ascending order is needed: from any quiet state with an active journey from a lower to
      a higher station, a writer that takes the higher station first and the check-out run
      into a deadlock. */
  lemma DescendingWriterDeadlocks(run: seq<Step>, known: set<Station>, j: JourneyId, o: TxId, w: TxId, v: nat, u: nat)
    requires Exec(run, known).Some? && Exec(run, known).value.txs == map[] && o != w
    requires j in Exec(run, known).value.journeys && Exec(run, known).value.journeys[j].active
    requires Exec(run, known).value.journeys[j].src < Exec(run, known).value.journeys[j].dst
    ensures var journey := Exec(run, known).value.journeys[j];
            var longer := run + [Begin(o, CheckOut(journey.user, j))] + [Begin(w, Write([(journey.dst, v), (journey.src, u)]))]
                              + [Acquire(o)] + [Acquire(o)] + [Acquire(w)];
            Exec(longer, known).Some? && WaitChain(Exec(longer, known).value, [o, w, o])
  {
    var s := Exec(run, known).value;
    var journey := s.journeys[j];
    var p, q := CheckOut(journey.user, j), Write([(journey.dst, v), (journey.src, u)]);
    BeginTwo(run, known, o, w, p, q);
    ValuesAt(q.values);
    var out0 := Tx(p, PlanFor(s.journeys, p), EffectsFor(s.journeys, p), 0, map[]);
    var writer0 := Tx(q, PlanFor(s.journeys, q), EffectsFor(s.journeys, q), 0, map[]);
    assert q.values[0].0 in writer0.effects;
    assert writer0.plan == [StationRow(journey.dst), StationRow(journey.src)];
    var run1 := run + [Begin(o, p)] + [Begin(w, q)];
    AcquireFree(run1, known, s, o, w, out0, writer0);
    var out1 := Acquired(out0, s.counts);
    AcquireFree(run1 + [Acquire(o)], known, s, o, w, out1, writer0);
    var out2 := Acquired(out1, s.counts);
    assert s.(txs := map[o := out2, w := writer0]) == s.(txs := map[w := writer0, o := out2]);
    AcquireFree(run1 + [Acquire(o)] + [Acquire(o)], known, s, w, o, writer0, out2);
    var writer1 := Acquired(writer0, s.counts);
    assert map[w := writer1, o := out2] == map[o := out2, w := writer1];
    CrossedWaits(s, out2, writer1, o, w, journey.src, journey.dst);
  }
}
