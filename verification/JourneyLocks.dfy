/** Check-ins, check-outs and live-count writers as transactions that take row locks one by
    one and write when they commit (app/services/journey_service.py:32-124,
    app/services/crowd_service.py:54-96, app/models/journey.py:23-35). */
module JourneyLocks {
  import opened Wrappers
  import opened Arith

  type Station = int
  type User = int
  type JourneyId = int
  type TxId = int

  datatype Journey = Journey(user: User, src: Station, dst: Station, active: bool)

  /** A journey row, a station's live-count row, or a user's entry in the unique index of
      active journeys. */
  datatype Lock = JourneyRow(j: JourneyId) | StationRow(st: Station) | Slot(user: User)

  /** What a transaction does to a live count. */
  datatype Effect = Add(delta: int) | Set(value: nat)

  datatype Request =
    | CheckIn(user: User, src: Station, dst: Station)
    | CheckOut(user: User, journey: JourneyId)
    | Write(values: seq<(Station, nat)>)

  /** `got` locks of the plan are held; `writes` are the counts to be stored. */
  datatype Tx = Tx(req: Request, plan: seq<Lock>, effects: map<Station, Effect>, got: nat, writes: map<Station, nat>)

  datatype State = State(journeys: map<JourneyId, Journey>, counts: map<Station, nat>, txs: map<TxId, Tx>, history: seq<(Station, Effect)>)

  const INITIAL := State(map[], map[], map[], [])

  datatype Error = NotFound | SameStation | AlreadyActive | NotActive

  datatype Step =
    | Begin(t: TxId, req: Request)
    | Acquire(t: TxId)
    | Commit(t: TxId, j: JourneyId)
    | Abort(t: TxId)

  function Count(counts: map<Station, nat>, st: Station): nat { if st in counts then counts[st] else 0 }

  function Put(e: Effect, n: nat): nat {
    match e
    case Add(d) => Max(0, n + d)
    case Set(v) => v
  }

  predicate HasActive(journeys: map<JourneyId, Journey>, u: User) {
    exists j :: j in journeys && journeys[j].user == u && journeys[j].active
  }

  /** The checks made before any lock is taken. */
  ghost function Refusal(journeys: map<JourneyId, Journey>, known: set<Station>, req: Request): Option<Error> {
    match req
    case CheckIn(u, src, dst) =>
      if src !in known || dst !in known then Some(NotFound)
      else if src == dst then Some(SameStation)
      else if HasActive(journeys, u) then Some(AlreadyActive)
      else None
    case CheckOut(_, j) => if j !in journeys then Some(NotFound) else None
    case Write(_) => None
  }

  function Stations(values: seq<(Station, nat)>): seq<Lock> {
    seq(|values|, i requires 0 <= i < |values| => StationRow(values[i].0))
  }

  function Values(values: seq<(Station, nat)>): map<Station, Effect> {
    if values == [] then map[]
    else Values(values[..|values| - 1])[values[|values| - 1].0 := Set(values[|values| - 1].1)]
  }

  /** The locks of a request in the order taken: a check-in's slot is claimed by the insert at
      commit, a check-out's two stations go by ascending id. */
  function PlanFor(journeys: map<JourneyId, Journey>, req: Request): seq<Lock>
    requires req.CheckOut? ==> req.journey in journeys
  {
    match req
    case CheckIn(u, src, _) => [StationRow(src), Slot(u)]
    case CheckOut(_, j) =>
      var a, b := journeys[j].src, journeys[j].dst;
      [JourneyRow(j), StationRow(Min(a, b)), StationRow(Max(a, b))]
    case Write(values) => Stations(values)
  }

  function EffectsFor(journeys: map<JourneyId, Journey>, req: Request): map<Station, Effect>
    requires req.CheckOut? ==> req.journey in journeys
  {
    match req
    case CheckIn(_, src, _) => map[src := Add(1)]
    case CheckOut(_, j) => map[journeys[j].src := Add(-1), journeys[j].dst := Add(1)]
    case Write(values) => Values(values)
  }

  ghost predicate Distinct(values: seq<(Station, nat)>) {
    forall i, j | 0 <= i < j < |values| :: values[i].0 != values[j].0
  }

  ghost predicate Holds(s: State, t: TxId, l: Lock) {
    t in s.txs && exists i :: 0 <= i < s.txs[t].got && i < |s.txs[t].plan| && s.txs[t].plan[i] == l
  }

  ghost predicate Open(s: State, t: TxId) { t in s.txs && s.txs[t].got < |s.txs[t].plan| }

  function NextLock(tx: Tx): Lock
    requires tx.got < |tx.plan|
  {
    tx.plan[tx.got]
  }

  ghost predicate WaitsFor(s: State, a: TxId, b: TxId) {
    a != b && Open(s, a) && Holds(s, b, NextLock(s.txs[a]))
  }

  ghost predicate Free(s: State, t: TxId, l: Lock) { forall b | b != t :: !Holds(s, b, l) }

  /** With the lock in hand the transaction still needs this, or it aborts: the caller's own
      journey, still active; nobody else's insert for the user committed meanwhile. */
  ghost predicate Grants(s: State, req: Request, l: Lock) {
    match l
    case JourneyRow(j) => j in s.journeys && s.journeys[j].active && req.CheckOut? && s.journeys[j].user == req.user
    case StationRow(_) => true
    case Slot(u) => !HasActive(s.journeys, u)
  }

  ghost predicate Enabled(s: State, step: Step, known: set<Station>) {
    match step
    case Begin(t, req) => t !in s.txs && Refusal(s.journeys, known, req).None? && (req.Write? ==> Distinct(req.values))
    case Acquire(t) =>
      Open(s, t) && Free(s, t, NextLock(s.txs[t])) && Grants(s, s.txs[t].req, NextLock(s.txs[t]))
      && (NextLock(s.txs[t]).StationRow? ==> NextLock(s.txs[t]).st in s.txs[t].effects)
    case Commit(t, j) =>
      && t in s.txs && s.txs[t].got == |s.txs[t].plan|
      && (s.txs[t].req.CheckIn? ==> j !in s.journeys)
      && (s.txs[t].req.CheckOut? ==> j == s.txs[t].req.journey && j in s.journeys)
    case Abort(t) => t in s.txs
  }

  function Acquired(tx: Tx, counts: map<Station, nat>): Tx
    requires tx.got < |tx.plan|
    requires NextLock(tx).StationRow? ==> NextLock(tx).st in tx.effects
  {
    var l := NextLock(tx);
    if l.StationRow? then tx.(got := tx.got + 1, writes := tx.writes[l.st := Put(tx.effects[l.st], Count(counts, l.st))])
    else tx.(got := tx.got + 1)
  }

  function Stored(counts: map<Station, nat>, writes: map<Station, nat>): map<Station, nat> {
    map st | st in counts.Keys + writes.Keys :: if st in writes then writes[st] else counts[st]
  }

  function Entries(plan: seq<Lock>, effects: map<Station, Effect>): seq<(Station, Effect)> {
    if plan == [] then []
    else
      var l := plan[|plan| - 1];
      Entries(plan[..|plan| - 1], effects) + (if l.StationRow? && l.st in effects then [(l.st, effects[l.st])] else [])
  }

  function Journeyed(journeys: map<JourneyId, Journey>, req: Request, j: JourneyId): map<JourneyId, Journey>
    requires req.CheckOut? ==> j in journeys
  {
    match req
    case CheckIn(u, src, dst) => journeys[j := Journey(u, src, dst, true)]
    case CheckOut(_, _) => journeys[j := journeys[j].(active := false)]
    case Write(_) => journeys
  }

  ghost function Apply(s: State, step: Step, known: set<Station>): State
    requires Enabled(s, step, known)
  {
    match step
    case Begin(t, req) => s.(txs := s.txs[t := Tx(req, PlanFor(s.journeys, req), EffectsFor(s.journeys, req), 0, map[])])
    case Acquire(t) => s.(txs := s.txs[t := Acquired(s.txs[t], s.counts)])
    case Commit(t, j) =>
      var tx := s.txs[t];
      State(Journeyed(s.journeys, tx.req, j), Stored(s.counts, tx.writes), s.txs - {t}, s.history + Entries(tx.plan, tx.effects))
    case Abort(t) => s.(txs := s.txs - {t})
  }

  ghost function Exec(run: seq<Step>, known: set<Station>): Option<State> {
    if run == [] then Some(INITIAL)
    else
      var before := Exec(run[..|run| - 1], known);
      if before.Some? && Enabled(before.value, run[|run| - 1], known)
      then Some(Apply(before.value, run[|run| - 1], known))
      else None
  }

  // ---------- No deadlock ----------

  function Rank(l: Lock): (int, int) {
    match l
    case JourneyRow(j) => (0, j)
    case StationRow(st) => (1, st)
    case Slot(u) => (2, u)
  }

  predicate Below(a: Lock, b: Lock) {
    Rank(a).0 < Rank(b).0 || (Rank(a).0 == Rank(b).0 && Rank(a).1 < Rank(b).1)
  }

  ghost predicate Rising(plan: seq<Lock>) { forall i, j | 0 <= i < j < |plan| :: Below(plan[i], plan[j]) }

  ghost predicate AllRising(s: State) { forall t | t in s.txs :: Rising(s.txs[t].plan) }

  ghost predicate Ascending(values: seq<(Station, nat)>) {
    forall i, j | 0 <= i < j < |values| :: values[i].0 < values[j].0
  }

  /** Every transaction that writes several live counts does so by ascending station. */
  ghost predicate WritersAscend(run: seq<Step>) {
    forall i | 0 <= i < |run| && run[i].Begin? && run[i].req.Write? :: Ascending(run[i].req.values)
  }

  ghost predicate JourneysDiffer(s: State) { forall j | j in s.journeys :: s.journeys[j].src != s.journeys[j].dst }

  lemma RisingStep(s: State, step: Step, known: set<Station>)
    requires AllRising(s) && Enabled(s, step, known) && JourneysDiffer(s)
    requires step.Begin? && step.req.Write? ==> Ascending(step.req.values)
    ensures AllRising(Apply(s, step, known))
  {
  }

  lemma WaitsUp(s: State, a: TxId, b: TxId)
    requires WaitsFor(s, a, b) && Rising(s.txs[b].plan) && Open(s, b)
    ensures Below(NextLock(s.txs[a]), NextLock(s.txs[b]))
  {
    var i :| 0 <= i < s.txs[b].got && i < |s.txs[b].plan| && s.txs[b].plan[i] == NextLock(s.txs[a]);
  }

  ghost predicate WaitChain(s: State, c: seq<TxId>) { forall i | 0 <= i < |c| - 1 :: WaitsFor(s, c[i], c[i + 1]) }

  lemma {:induction false} ChainRises(s: State, c: seq<TxId>)
    requires AllRising(s) && WaitChain(s, c) && |c| >= 2 && Open(s, c[|c| - 1])
    ensures WaitsFor(s, c[0], c[1]) && Below(NextLock(s.txs[c[0]]), NextLock(s.txs[c[|c| - 1]]))
  {
    assert WaitsFor(s, c[0], c[0 + 1]);
    LastWaitsUp(s, c);
    if |c| > 2 {
      var g := c[..|c| - 1];
      forall i | 0 <= i < |g| - 1 ensures WaitsFor(s, g[i], g[i + 1]) {
        assert WaitsFor(s, c[i], c[i + 1]);
      }
      ChainRises(s, g);
    }
  }

  lemma LastWaitsUp(s: State, c: seq<TxId>)
    requires AllRising(s) && WaitChain(s, c) && |c| >= 2 && Open(s, c[|c| - 1])
    ensures Open(s, c[|c| - 2]) && Below(NextLock(s.txs[c[|c| - 2]]), NextLock(s.txs[c[|c| - 1]]))
  {
    var i := |c| - 2;
    assert WaitsFor(s, c[i], c[i + 1]);
    WaitsUp(s, c[i], c[i + 1]);
  }

  lemma NoCycle(s: State, c: seq<TxId>)
    requires AllRising(s) && WaitChain(s, c) && |c| >= 2
    ensures c[0] != c[|c| - 1]
  {
    if c[0] == c[|c| - 1] {
      assert WaitsFor(s, c[0], c[0 + 1]);
      ChainRises(s, c);
    }
  }
}
