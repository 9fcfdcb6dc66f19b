/** The journey service over its rows: each call is one transaction of the model in
    JourneyLocks, run to its end (app/services/journey_service.py:41-115). */
module JourneyService {
  import opened Wrappers
  import opened Arith
  import opened JourneyLocks
  import opened JourneyRuns

  function CheckInSteps(u: User, src: Station, dst: Station, j: JourneyId): seq<Step> {
    [Begin(0, CheckIn(u, src, dst)), Acquire(0), Acquire(0), Commit(0, j)]
  }

  function CheckOutSteps(u: User, j: JourneyId): seq<Step> {
    [Begin(0, CheckOut(u, j)), Acquire(0), Acquire(0), Acquire(0), Commit(0, j)]
  }

  ghost predicate At(run: seq<Step>, known: set<Station>, s: State, tx: Tx) {
    Exec(run, known) == Some(s.(txs := map[0 := tx]))
  }

  lemma BeginAlone(run: seq<Step>, known: set<Station>, s: State, req: Request)
    requires Exec(run, known) == Some(s) && s.txs == map[] && !req.Write?
    requires Refusal(s.journeys, known, req).None?
    ensures At(run + [Begin(0, req)], known, s, Tx(req, PlanFor(s.journeys, req), EffectsFor(s.journeys, req), 0, map[]))
  {
    ExecSnoc(run, Begin(0, req), known);
  }

  lemma AcquireAlone(run: seq<Step>, known: set<Station>, s: State, tx: Tx)
    requires At(run, known, s, tx) && tx.got < |tx.plan| && Grants(s, tx.req, NextLock(tx))
    requires NextLock(tx).StationRow? ==> NextLock(tx).st in tx.effects
    ensures At(run + [Acquire(0)], known, s, Acquired(tx, s.counts))
  {
    var r := Exec(run, known).value;
    assert Free(r, 0, NextLock(tx));
    ExecSnoc(run, Acquire(0), known);
    assert r.txs[0 := Acquired(tx, s.counts)] == map[0 := Acquired(tx, s.counts)];
  }

  lemma CommitAlone(run: seq<Step>, known: set<Station>, s: State, tx: Tx, j: JourneyId)
    requires At(run, known, s, tx) && tx.got == |tx.plan| && s.txs == map[]
    requires (tx.req.CheckIn? ==> j !in s.journeys) && (tx.req.CheckOut? ==> j == tx.req.journey && j in s.journeys)
    ensures Exec(run + [Commit(0, j)], known) ==
            Some(State(Journeyed(s.journeys, tx.req, j), Stored(s.counts, tx.writes), map[], s.history + Entries(tx.plan, tx.effects)))
  {
    ExecSnoc(run, Commit(0, j), known);
  }

  lemma CheckInRuns(run: seq<Step>, known: set<Station>, s: State, u: User, src: Station, dst: Station, j: JourneyId)
    requires Exec(run, known) == Some(s) && s.txs == map[] && j !in s.journeys
    requires Refusal(s.journeys, known, CheckIn(u, src, dst)).None?
    ensures Exec(run + CheckInSteps(u, src, dst, j), known).Some?
    ensures var r := Exec(run + CheckInSteps(u, src, dst, j), known).value;
            && r.journeys == s.journeys[j := Journey(u, src, dst, true)] && r.txs == map[]
            && r.counts == s.counts[src := Count(s.counts, src) + 1]
  {
    var req := CheckIn(u, src, dst);
    BeginAlone(run, known, s, req);
    var tx0 := Tx(req, PlanFor(s.journeys, req), EffectsFor(s.journeys, req), 0, map[]);
    AcquireAlone(run + [Begin(0, req)], known, s, tx0);
    var tx1 := Acquired(tx0, s.counts);
    AcquireAlone(run + [Begin(0, req)] + [Acquire(0)], known, s, tx1);
    var tx2 := Acquired(tx1, s.counts);
    CommitAlone(run + [Begin(0, req)] + [Acquire(0)] + [Acquire(0)], known, s, tx2, j);
    assert run + [Begin(0, req)] + [Acquire(0)] + [Acquire(0)] + [Commit(0, j)] == run + CheckInSteps(u, src, dst, j);
    assert Stored(s.counts, tx2.writes) == s.counts[src := Count(s.counts, src) + 1];
  }

  /** The counts after a check-out. */
  function Moved(counts: map<Station, nat>, journey: Journey): map<Station, nat> {
    counts[journey.src := Max(0, Count(counts, journey.src) - 1)][journey.dst := Count(counts, journey.dst) + 1]
  }

  function OutTx(s: State, u: User, j: JourneyId): Tx
    requires j in s.journeys
  {
    var req := CheckOut(u, j);
    Tx(req, PlanFor(s.journeys, req), EffectsFor(s.journeys, req), 0, map[])
  }

  /** The three locks of a check-out, taken one by one. */
  lemma OutAcquires(s: State, u: User, j: JourneyId)
    requires j in s.journeys && s.journeys[j].active && s.journeys[j].user == u && s.journeys[j].src != s.journeys[j].dst
    ensures var tx1 := Acquired(OutTx(s, u, j), s.counts);
            && tx1 == OutTx(s, u, j).(got := 1)
            && NextLock(tx1).StationRow? && NextLock(tx1).st in tx1.effects
            && var tx2 := Acquired(tx1, s.counts);
               && tx2.got == 2 && tx2.plan == tx1.plan && tx2.effects == tx1.effects && tx2.req == tx1.req
               && NextLock(tx2).StationRow? && NextLock(tx2).st in tx2.effects
               && var tx3 := Acquired(tx2, s.counts);
                  tx3.got == 3 && tx3.plan == tx1.plan && tx3.req == tx1.req && Stored(s.counts, tx3.writes) == Moved(s.counts, s.journeys[j])
  {
    var tx1 := Acquired(OutTx(s, u, j), s.counts);
    var tx3 := Acquired(Acquired(tx1, s.counts), s.counts);
    var journey := s.journeys[j];
    assert tx3.writes == map[journey.src := Max(0, Count(s.counts, journey.src) - 1), journey.dst := Count(s.counts, journey.dst) + 1];
  }

  lemma CheckOutRuns(run: seq<Step>, known: set<Station>, s: State, u: User, j: JourneyId)
    requires Exec(run, known) == Some(s) && s.txs == map[]
    requires j in s.journeys && s.journeys[j].active && s.journeys[j].user == u && s.journeys[j].src != s.journeys[j].dst
    ensures Exec(run + CheckOutSteps(u, j), known).Some?
    ensures var r, journey := Exec(run + CheckOutSteps(u, j), known).value, s.journeys[j];
            && r.journeys == s.journeys[j := journey.(active := false)] && r.txs == map[]
            && r.counts == Moved(s.counts, journey)
  {
    OutAcquires(s, u, j);
    var tx0 := OutTx(s, u, j);
    var tx1 := Acquired(tx0, s.counts);
    var tx2 := Acquired(tx1, s.counts);
    var tx3 := Acquired(tx2, s.counts);
    var begun := run + [Begin(0, CheckOut(u, j))];
    BeginAlone(run, known, s, CheckOut(u, j));
    AcquireAlone(begun, known, s, tx0);
    AcquireAlone(begun + [Acquire(0)], known, s, tx1);
    AcquireAlone(begun + [Acquire(0)] + [Acquire(0)], known, s, tx2);
    CommitAlone(begun + [Acquire(0)] + [Acquire(0)] + [Acquire(0)], known, s, tx3, j);
    assert begun + [Acquire(0)] + [Acquire(0)] + [Acquire(0)] + [Commit(0, j)] == run + CheckOutSteps(u, j);
  }

  lemma StillPassengers(run: seq<Step>, more: seq<Step>)
    requires NoWriters(run) && forall i | 0 <= i < |more| && more[i].Begin? :: !more[i].req.Write?
    ensures NoWriters(run + more)
  {
  }

  class Service {
    var journeys: map<JourneyId, Journey>
    var counts: map<Station, nat>
    var nextId: JourneyId
    const known: set<Station>
    ghost var run: seq<Step>

    ghost predicate Valid()
      reads this
    {
      && Exec(run, known).Some? && Exec(run, known).value.txs == map[] && NoWriters(run)
      && journeys == Exec(run, known).value.journeys && counts == Exec(run, known).value.counts
      && forall j | j in journeys :: j < nextId
    }

    constructor (known: set<Station>)
      ensures Valid() && journeys == map[] && counts == map[] && this.known == known
    {
      this.known := known;
      journeys, counts, nextId, run := map[], map[], 0, [];
    }

    /** The row is created at zero on first use, then locked and changed. */
    method ApplyLiveStateDelta(st: Station, delta: int) returns (count: nat)
      modifies this`counts
      ensures count == Max(0, Count(old(counts), st) + delta) && counts == old(counts)[st := count]
    {
      if st !in counts {
        counts := counts[st := 0];
      }
      count := Max(0, counts[st] + delta);
      counts := counts[st := count];
    }

    method CheckIn(u: User, src: Station, dst: Station) returns (reply: Result<JourneyId, Error>)
      requires Valid()
      modifies this
      ensures Valid()
      ensures match Refusal(old(journeys), known, JourneyLocks.CheckIn(u, src, dst))
              case Some(e) => reply == Err(e) && journeys == old(journeys) && counts == old(counts) && nextId == old(nextId)
              case None =>
                && reply.Ok? && reply.value !in old(journeys)
                && journeys == old(journeys)[reply.value := Journey(u, src, dst, true)]
                && counts == old(counts)[src := Count(old(counts), src) + 1]
      // refused exactly for an unknown station, equal ones, or a journey of the user still under way
      ensures reply == Err(NotFound) <==> src !in known || dst !in known
      ensures reply == Err(SameStation) <==> src in known && dst in known && src == dst
      ensures reply == Err(AlreadyActive) <==>
                src in known && dst in known && src != dst
                && exists j :: j in old(journeys) && old(journeys)[j].user == u && old(journeys)[j].active
    {
      if src !in known || dst !in known {
        return Err(NotFound);
      }
      if src == dst {
        return Err(SameStation);
      }
      if HasActive(journeys, u) {
        return Err(AlreadyActive);
      }
      ghost var s := Exec(run, known).value;
      CheckInRuns(run, known, s, u, src, dst, nextId);
      StillPassengers(run, CheckInSteps(u, src, dst, nextId));
      run := run + CheckInSteps(u, src, dst, nextId);
      journeys := journeys[nextId := Journey(u, src, dst, true)];
      var count := ApplyLiveStateDelta(src, 1);
      reply := Ok(nextId);
      nextId := nextId + 1;
    }

    method CheckOut(u: User, j: JourneyId) returns (reply: Result<Journey, Error>)
      requires Valid()
      modifies this
      ensures Valid()
      ensures j !in old(journeys) || old(journeys)[j].user != u ==> reply == Err(NotFound)
      ensures j in old(journeys) && old(journeys)[j].user == u && !old(journeys)[j].active ==> reply == Err(NotActive)
      ensures reply.Err? ==> journeys == old(journeys) && counts == old(counts)
      ensures j in old(journeys) && old(journeys)[j].user == u && old(journeys)[j].active ==>
                var done := old(journeys)[j].(active := false);
                reply == Ok(done) && journeys == old(journeys)[j := done] && counts == Moved(old(counts), done)
    {
      if j !in journeys || journeys[j].user != u {
        return Err(NotFound);
      }
      if !journeys[j].active {
        return Err(NotActive);
      }
      InvRun(run, known);
      ghost var s := Exec(run, known).value;
      CheckOutRuns(run, known, s, u, j);
      StillPassengers(run, CheckOutSteps(u, j));
      run := run + CheckOutSteps(u, j);
      var done := journeys[j].(active := false);
      journeys := journeys[j := done];
      MoveCounts(done);
      reply := Ok(done);
    }

    /** Both stations, the lower id first. */
    method MoveCounts(journey: Journey)
      requires journey.src != journey.dst
      modifies this`counts
      ensures counts == Moved(old(counts), journey)
      ensures Count(counts, journey.dst) == Count(old(counts), journey.dst) + 1
      ensures Count(counts, journey.src) == if Count(old(counts), journey.src) > 0 then Count(old(counts), journey.src) - 1 else 0
      ensures forall st | st != journey.src && st != journey.dst :: Count(counts, st) == Count(old(counts), st)
    {
      var order := [Min(journey.src, journey.dst), Max(journey.src, journey.dst)];
      for i := 0 to 2
        invariant i == 0 ==> counts == old(counts)
        invariant i == 1 ==> counts == old(counts)[order[0] := Max(0, Count(old(counts), order[0]) + (if order[0] == journey.src then -1 else 1))]
        invariant i == 2 ==> counts == Moved(old(counts), journey)
      {
        var count := ApplyLiveStateDelta(order[i], if order[i] == journey.src then -1 else 1);
      }
    }
  }

  /** So between calls the rows are as every run leaves them: at most one active journey per
      user, and each count the number of travellers. */
  lemma RowsAreTallied(service: Service, st: Station)
    requires service.Valid()
    ensures Count(service.counts, st) == Travellers(service.journeys, st)
    ensures forall j, k | j in service.journeys && k in service.journeys && service.journeys[j].active && service.journeys[k].active &&
              service.journeys[j].user == service.journeys[k].user :: j == k
  {
    CountsAreJourneys(service.run, service.known, st);
    InvRun(service.run, service.known);
  }
}
