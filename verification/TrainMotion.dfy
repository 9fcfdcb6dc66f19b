/** One train's part of a tracking tick (app/simulator/train_simulator.py:71-139), and
    what it comes to over any number of ticks. */
module TrainMotion {
  import opened Wrappers
  import opened Arith
  import opened TrainTracking
  import E = EtaWalk

  // ---------- Any number of ticks ----------

  datatype Train = Train(heading: Heading, progress: real)

  /** One tick that covers `step` of the current segment. */
  function Move(t: Train, step: real, n: nat): Train {
    if t.progress + step >= 1.0 then Train(Arrive(t.heading, n), 0.0) else t.(progress := t.progress + step)
  }

  ghost function Ride(t: Train, steps: seq<real>, n: nat): Train {
    if steps == [] then t else Move(Ride(t, steps[..|steps| - 1], n), steps[|steps| - 1], n)
  }

  /** How many of the ticks arrived at a station. */
  ghost function Arrived(t: Train, steps: seq<real>, n: nat): nat {
    if steps == [] then 0
    else
      var before := Ride(t, steps[..|steps| - 1], n);
      Arrived(t, steps[..|steps| - 1], n) + if before.progress + steps[|steps| - 1] >= 1.0 then 1 else 0
  }

  lemma {:induction false} RideIsArrivals(t: Train, steps: seq<real>, n: nat)
    ensures Ride(t, steps, n).heading == Arrives(t.heading, Arrived(t, steps, n), n)
  {
    if steps != [] {
      RideIsArrivals(t, steps[..|steps| - 1], n);
    }
  }

  lemma {:induction false} ProgressBelowOne(t: Train, steps: seq<real>, n: nat)
    requires t.progress < 1.0
    ensures Ride(t, steps, n).progress < 1.0
  {
    if steps != [] {
      ProgressBelowOne(t, steps[..|steps| - 1], n);
    }
  }

  lemma {:induction false} ProgressStays(t: Train, steps: seq<real>, n: nat)
    requires t.progress >= 0.0 && forall i | 0 <= i < |steps| :: steps[i] >= 0.0
    ensures 0.0 <= Ride(t, steps, n).progress
  {
    if steps != [] {
      ProgressStays(t, steps[..|steps| - 1], n);
    }
  }

  lemma {:induction false} ArrivesFromFirst(h: Heading, k: nat, n: nat)
    ensures Arrives(h, k + 1, n) == Arrives(Arrive(h, n), k, n)
  {
    if k > 0 {
      ArrivesFromFirst(h, k - 1, n);
    }
  }

  /** From anywhere on a route of at least two stations, by any steps: the train stays on
      the route with progress below 1, and after its first arrival the phase has moved on
      by exactly one for every later arrival. */
  lemma MotionIsZigZag(t: Train, steps: seq<real>, n: nat)
    requires n >= 2 && OnRoute(t.heading, n) && t.progress < 1.0
    ensures var r := Ride(t, steps, n);
            var k := Arrived(t, steps, n);
            && OnRoute(r.heading, n) && r.progress < 1.0
            && (t.progress >= 0.0 && (forall i | 0 <= i < |steps| :: steps[i] >= 0.0) ==> r.progress >= 0.0)
            && (k == 0 ==> r.heading == t.heading)
            && (k > 0 ==> Turned(Arrive(t.heading, n), n) && Turned(r.heading, n) &&
                          Phase(r.heading, n) == (Phase(Arrive(t.heading, n), n) + (k - 1)) % RoundTrip(n))
  {
    var k := Arrived(t, steps, n);
    RideIsArrivals(t, steps, n);
    ProgressBelowOne(t, steps, n);
    if t.progress >= 0.0 && forall i | 0 <= i < |steps| :: steps[i] >= 0.0 {
      ProgressStays(t, steps, n);
    }
    ArrivesOnRoute(t.heading, k, n);
    ArriveAdvances(t.heading, n);
    if k > 0 {
      ArrivesFromFirst(t.heading, k - 1, n);
      ArrivesAdvances(Arrive(t.heading, n), k - 1, n);
    }
  }

  /** So whatever ticks follow, between two moments with at least 2(n-1) - 1 arrivals in
      between every station has been the current one. */
  lemma NoStationSkipped(t: Train, n: nat, target: nat)
    requires n >= 2 && OnRoute(t.heading, n) && target < n
    ensures exists k: nat :: 1 <= k <= RoundTrip(n) && Arrives(t.heading, k, n).index == target
  {
    ArriveAdvances(t.heading, n);
    var first := Arrive(t.heading, n);
    EveryStationVisited(first, target, n);
    ArrivesFromFirst(t.heading, HopsTo(first, target, n), n);
    assert Arrives(t.heading, HopsTo(first, target, n) + 1, n).index == target;
  }

  // ---------- One tick of the simulator ----------

  /** Minutes of delay; a station without an entry has none. */
  type Delays = map<StationId, int>

  datatype Location = Location(station: StationId, next: Option<StationId>, progress: real, status: string)

  datatype Update = Update(
    from: StationId, to: StationId, progress: real, delay: int, delayed: bool,
    eta: int, segmentSeconds: int, direction: int)

  function IndexOf(route: seq<StationId>, s: StationId): (i: nat)
    requires s in route
    ensures i < |route| && route[i] == s && s !in route[..i]
  {
    if route[0] == s then 0
    else
      var i := IndexOf(route[1..], s);
      assert route[..i + 1] == [route[0]] + route[1..][..i];
      i + 1
  }

  /** The route builder leaves no repeats, so a station gives its index back. */
  lemma IndexRecovered(route: seq<StationId>, i: nat)
    requires NoRepeats(route) && i < |route|
    ensures IndexOf(route, route[i]) == i
  {
  }

  function DelayAt(delays: Delays, s: StationId): int {
    if s in delays then delays[s] else 0
  }

  /** `speed_factor_for`; ten minutes early divides by zero in Python, too. */
  function Speed(delay: int): real
    requires delay != -10
  {
    1.0 / (1.0 + delay as real / 10.0)
  }

  lemma SpeedSign(delay: int)
    requires delay != -10
    ensures Speed(delay) > 0.0 <==> delay > -10
    ensures Speed(delay) < 0.0 <==> delay < -10
  {
    InverseSign(1.0 + delay as real / 10.0);
  }

  lemma InverseSign(x: real)
    requires x != 0.0
    ensures (1.0 / x > 0.0 <==> x > 0.0) && (1.0 / x < 0.0 <==> x < 0.0)
  {
    var v := 1.0 / x;
    assert v * x == 1.0;
  }

  /** Where the tick starts from: the row's station decides, when it is on the route. */
  function Placed(h: Heading, route: seq<StationId>, station: StationId): Heading {
    if station in route then h.(index := IndexOf(route, station)) else h
  }

  /** A route the tick moves trains on; the route builder's gaps are at least 30 s. */
  ghost predicate Usable(route: seq<StationId>, segments: seq<int>) {
    |route| >= 2 && segments != [] && forall s | s in segments :: s > 0
  }

  function StepOf(h: Heading, route: seq<StationId>, segments: seq<int>, delays: Delays, seconds: nat): real
    requires Usable(route, segments) && OnRoute(h, |route|) && DelayAt(delays, route[h.index]) != -10
  {
    var duration := segments[E.SegmentIndex(h, |segments|)];
    assert duration in segments;
    (seconds as real / duration as real) * Speed(DelayAt(delays, route[h.index]))
  }

  /** A tick goes forward exactly when the train is less than ten minutes early, and backward
      exactly when it is more. */
  lemma StepSignExactly(h: Heading, route: seq<StationId>, segments: seq<int>, delays: Delays, seconds: nat)
    requires Usable(route, segments) && OnRoute(h, |route|) && DelayAt(delays, route[h.index]) != -10
    ensures seconds > 0 ==> (StepOf(h, route, segments, delays, seconds) > 0.0 <==> DelayAt(delays, route[h.index]) > -10)
    ensures seconds > 0 ==> (StepOf(h, route, segments, delays, seconds) < 0.0 <==> DelayAt(delays, route[h.index]) < -10)
    ensures seconds == 0 ==> StepOf(h, route, segments, delays, seconds) == 0.0
  {
    var duration := segments[E.SegmentIndex(h, |segments|)];
    assert duration in segments;
    SpeedSign(DelayAt(delays, route[h.index]));
    ProductSign(seconds as real / duration as real, Speed(DelayAt(delays, route[h.index])));
  }

  lemma ProductSign(q: real, v: real)
    requires q >= 0.0
    ensures q == 0.0 ==> q * v == 0.0
    ensures q > 0.0 ==> (q * v > 0.0 <==> v > 0.0) && (q * v < 0.0 <==> v < 0.0)
  {
  }

  /** The location row a tick writes, and the update it sends. */
  function RowFor(t: Train, route: seq<StationId>): Location
    requires OnRoute(t.heading, |route|)
  {
    var from, to := route[t.heading.index], route[Clamp(t.heading.index + t.heading.direction, |route|)];
    Location(from, Some(to), t.progress, if t.progress == 0.0 && from == to then "at_station" else "in_transit")
  }

  function UpdateFor(t: Train, route: seq<StationId>, segments: seq<int>, delays: Delays): Update
    requires Usable(route, segments) && OnRoute(t.heading, |route|) && DelayAt(delays, route[t.heading.index]) != -10
  {
    var from, to := route[t.heading.index], route[Clamp(t.heading.index + t.heading.direction, |route|)];
    var delay := DelayAt(delays, from);
    var duration := segments[E.SegmentIndex(t.heading, |segments|)];
    Update(from, to, t.progress, delay, delay > 0, E.EtaSeconds(t.progress, duration, Speed(delay)), duration, t.heading.direction)
  }

  /** What ends a tick early: a remembered index past a route that got shorter, while the row's
      station is not on it; or a delay of exactly -10. */
  datatype Fault = OffRoute | DivisionByZero

  /** A remembered heading, of this route or an older one. */
  predicate Headed(h: Heading) { h.index >= 0 && (h.direction == 1 || h.direction == -1) }

  /** The move of a train found at `f`. */
  function Next(f: Train, route: seq<StationId>, segments: seq<int>, delays: Delays, seconds: nat): Result<Train, Fault>
    requires Usable(route, segments) && Headed(f.heading)
  {
    if f.heading.index >= |route| then Err(OffRoute)
    else if DelayAt(delays, route[f.heading.index]) == -10 then Err(DivisionByZero)
    else Ok(Move(f, StepOf(f.heading, route, segments, delays, seconds), |route|))
  }

  lemma NextOnRoute(f: Train, route: seq<StationId>, segments: seq<int>, delays: Delays, seconds: nat)
    requires Usable(route, segments) && Headed(f.heading)
    ensures var r := Next(f, route, segments, delays, seconds); r.Ok? ==> OnRoute(r.value.heading, |route|)
  {
  }

  // ---------- What a tick owes, spelled out ----------

  /** A train `delay` minutes late takes (10 + delay) / 10 of the timetable's time. */
  predicate MovesOn(f: Train, m: Train, n: int, duration: int, delay: int, seconds: nat)
    requires duration > 0 && delay != -10
  {
    var progress := f.progress + 10.0 * seconds as real / (duration as real * (10 + delay) as real);
    var ahead := f.heading.index + f.heading.direction;
    m == if progress < 1.0 then Train(f.heading, progress)
         else if ahead >= n - 1 then Train(Heading(n - 1, -1), 0.0)
         else if ahead <= 0 then Train(Heading(0, 1), 0.0)
         else Train(Heading(ahead, f.heading.direction), 0.0)
  }

  /** The segment a train is on: the one behind its station number when it goes back. */
  function SegmentAt(h: Heading, segments: seq<int>): (duration: int)
    requires segments != []
    ensures duration in segments
    ensures var i := if h.direction == 1 then h.index else h.index - 1;
            duration == if i < 0 then segments[0] else if i < |segments| then segments[i] else segments[|segments| - 1]
  {
    segments[E.SegmentIndex(h, |segments|)]
  }

  /** A tick of a train found at `f`, over the delay of its station; none counts as zero. */
  ghost predicate Ticked(f: Train, moved: Result<Train, Fault>, route: seq<StationId>, segments: seq<int>, delays: Delays, seconds: nat)
    requires Usable(route, segments) && Headed(f.heading)
  {
    if f.heading.index >= |route| then moved == Err(OffRoute)
    else
      var station := route[f.heading.index];
      var delay := if station in delays then delays[station] else 0;
      if delay == -10 then moved == Err(DivisionByZero)
      else moved.Ok? && MovesOn(f, moved.value, |route|, SegmentAt(f.heading, segments), delay, seconds)
  }

  /** The time left on a segment that takes `duration` by the timetable. */
  function TimeLeft(progress: real, duration: int, delay: int): real {
    (if progress < 1.0 then 1.0 - progress else 0.0) * duration as real * (10 + delay) as real / 10.0
  }

  /** What the update says about a train left at `m`. */
  predicate Shows(m: Train, u: Update, route: seq<StationId>, segments: seq<int>, delays: Delays)
    requires |route| >= 2 && segments != [] && OnRoute(m.heading, |route|)
  {
    var ahead := m.heading.index + m.heading.direction;
    && u.from == route[m.heading.index]
    && u.to == (if ahead < 0 then route[0] else if ahead < |route| then route[ahead] else route[|route| - 1])
    && u.progress == m.progress && u.direction == m.heading.direction
    && u.delay == (if u.from in delays then delays[u.from] else 0) && (u.delayed <==> u.delay > 0)
    && u.segmentSeconds == SegmentAt(m.heading, segments)
    && u.eta == Round(TimeLeft(m.progress, u.segmentSeconds, u.delay))
  }

  /** The row that goes with an update. */
  predicate RowShows(row: Location, u: Update) {
    row == Location(u.from, Some(u.to), u.progress, if u.progress == 0.0 && u.from == u.to then "at_station" else "in_transit")
  }

  /** The whole tick of a train found at `f`: how it moves, what is told and stored of it. */
  ghost function Owed(route: seq<StationId>, segments: seq<int>, delays: Delays, seconds: nat): (Train, Train, Update, Location) -> bool {
    (f: Train, m: Train, u: Update, row: Location) =>
      Usable(route, segments) && Headed(f.heading) && OnRoute(m.heading, |route|) &&
      Ticked(f, Ok(m), route, segments, delays, seconds) && Shows(m, u, route, segments, delays) && RowShows(row, u)
  }

  lemma OwedExactly(f: Train, route: seq<StationId>, segments: seq<int>, delays: Delays, seconds: nat)
    requires Usable(route, segments) && Headed(f.heading) && Next(f, route, segments, delays, seconds).Ok?
    requires OnRoute(Next(f, route, segments, delays, seconds).value.heading, |route|)
    requires DelayAt(delays, route[Next(f, route, segments, delays, seconds).value.heading.index]) != -10
    ensures var m := Next(f, route, segments, delays, seconds).value;
            Owed(route, segments, delays, seconds)(f, m, UpdateFor(m, route, segments, delays), RowFor(m, route))
  {
    var m := Next(f, route, segments, delays, seconds).value;
    NextExactly(f, route, segments, delays, seconds);
    UpdateExactly(m, route, segments, delays);
    RowExactly(m, route, segments, delays);
  }

  lemma RowExactly(m: Train, route: seq<StationId>, segments: seq<int>, delays: Delays)
    requires Usable(route, segments) && OnRoute(m.heading, |route|) && DelayAt(delays, route[m.heading.index]) != -10
    ensures RowShows(RowFor(m, route), UpdateFor(m, route, segments, delays))
  {
  }

  lemma StepIs(duration: real, delay: real, seconds: real)
    requires duration > 0.0 && delay != -10.0
    ensures 1.0 + delay / 10.0 != 0.0
    ensures (seconds / duration) * (1.0 / (1.0 + delay / 10.0)) == 10.0 * seconds / (duration * (10.0 + delay))
  {
    var (a, b) := (seconds / duration, 1.0 / (1.0 + delay / 10.0));
    assert a * duration == seconds;
    assert b * (10.0 + delay) == 10.0 by { assert b * (1.0 + delay / 10.0) == 1.0; }
    Quotient(a * b, duration * (10.0 + delay), 10.0 * seconds) by {
      assert a * b * (duration * (10.0 + delay)) == (a * duration) * (b * (10.0 + delay));
    }
  }

  lemma Quotient(q: real, d: real, x: real)
    requires d != 0.0 && q * d == x
    ensures q == x / d
  {
  }

  lemma NextExactly(f: Train, route: seq<StationId>, segments: seq<int>, delays: Delays, seconds: nat)
    requires Usable(route, segments) && Headed(f.heading)
    ensures Ticked(f, Next(f, route, segments, delays, seconds), route, segments, delays, seconds)
  {
    if f.heading.index < |route| && DelayAt(delays, route[f.heading.index]) != -10 {
      StepIs(SegmentAt(f.heading, segments) as real, DelayAt(delays, route[f.heading.index]) as real, seconds as real);
    }
  }

  lemma UpdateExactly(m: Train, route: seq<StationId>, segments: seq<int>, delays: Delays)
    requires Usable(route, segments) && OnRoute(m.heading, |route|) && DelayAt(delays, route[m.heading.index]) != -10
    ensures Shows(m, UpdateFor(m, route, segments, delays), route, segments, delays)
  {
    EtaIs(m.progress, SegmentAt(m.heading, segments), DelayAt(delays, route[m.heading.index]));
  }

  lemma EtaIs(progress: real, duration: int, delay: int)
    requires delay != -10
    ensures E.EtaSeconds(progress, duration, Speed(delay)) == Round(TimeLeft(progress, duration, delay))
  {
    SecondsIs(duration, delay);
    var left := if progress < 1.0 then 1.0 - progress else 0.0;
    Regroup(left, duration as real, (10 + delay) as real);
  }

  lemma Regroup(a: real, b: real, c: real)
    ensures a * (b * c / 10.0) == a * b * c / 10.0
  {
  }

  lemma SecondsIs(duration: int, delay: int)
    requires delay != -10
    ensures E.Seconds(duration, Speed(delay)) == duration as real * (10 + delay) as real / 10.0
  {
    SpeedSign(delay);
    var v := Speed(delay);
    assert v * (1.0 + delay as real / 10.0) == 1.0;
    Quotient(duration as real * (10 + delay) as real / 10.0, v, duration as real);
  }

  // ---------- Ticks in a row ----------

  /** One tick: its length and the delays it reads. */
  datatype Tick = Tick(seconds: nat, delays: Delays)

  ghost predicate NoFault(route: seq<StationId>, ticks: seq<Tick>) {
    forall i, s | 0 <= i < |ticks| && s in route :: DelayAt(ticks[i].delays, s) != -10
  }

  /** Tick after tick, each from where the last one left the train. */
  ghost function Tracked(f: Train, route: seq<StationId>, segments: seq<int>, ticks: seq<Tick>): (r: Train)
    requires Usable(route, segments) && OnRoute(f.heading, |route|) && NoFault(route, ticks)
    ensures OnRoute(r.heading, |route|)
  {
    if ticks == [] then f
    else
      var before, last := Tracked(f, route, segments, ticks[..|ticks| - 1]), ticks[|ticks| - 1];
      assert route[before.heading.index] in route;
      NextOnRoute(before, route, segments, last.delays, last.seconds);
      Next(before, route, segments, last.delays, last.seconds).value
  }

  /** The steps those ticks take. */
  ghost function StepsOf(f: Train, route: seq<StationId>, segments: seq<int>, ticks: seq<Tick>): (steps: seq<real>)
    requires Usable(route, segments) && OnRoute(f.heading, |route|) && NoFault(route, ticks)
    ensures |steps| == |ticks|
  {
    if ticks == [] then []
    else
      var before, last := Tracked(f, route, segments, ticks[..|ticks| - 1]), ticks[|ticks| - 1];
      assert route[before.heading.index] in route;
      StepsOf(f, route, segments, ticks[..|ticks| - 1]) + [StepOf(before.heading, route, segments, last.delays, last.seconds)]
  }

  /** So any sequence of ticks is a ride. */
  lemma {:induction false} TrackedIsRide(f: Train, route: seq<StationId>, segments: seq<int>, ticks: seq<Tick>)
    requires Usable(route, segments) && OnRoute(f.heading, |route|) && NoFault(route, ticks)
    ensures Tracked(f, route, segments, ticks) == Ride(f, StepsOf(f, route, segments, ticks), |route|)
  {
    if ticks != [] {
      TrackedIsRide(f, route, segments, ticks[..|ticks| - 1]);
      var steps := StepsOf(f, route, segments, ticks);
      assert route[Tracked(f, route, segments, ticks[..|ticks| - 1]).heading.index] in route;
      assert steps[..|steps| - 1] == StepsOf(f, route, segments, ticks[..|ticks| - 1]);
    }
  }

  ghost predicate Punctual(route: seq<StationId>, ticks: seq<Tick>) {
    forall i, s | 0 <= i < |ticks| && s in route :: DelayAt(ticks[i].delays, s) > -10
  }

  lemma {:induction false} PunctualSteps(f: Train, route: seq<StationId>, segments: seq<int>, ticks: seq<Tick>)
    requires Usable(route, segments) && OnRoute(f.heading, |route|) && Punctual(route, ticks)
    ensures forall i | 0 <= i < |ticks| :: StepsOf(f, route, segments, ticks)[i] >= 0.0
  {
    if ticks != [] {
      var g, last := ticks[..|ticks| - 1], ticks[|ticks| - 1];
      assert forall i | 0 <= i < |g| :: g[i] == ticks[i];
      PunctualSteps(f, route, segments, g);
      var h := Tracked(f, route, segments, g).heading;
      assert route[h.index] in route;
      StepSignExactly(h, route, segments, last.delays, last.seconds);
    }
  }

  /** No run of ticks with these delays ever leaves [0,1). */
  ghost predicate AlwaysBetween(route: seq<StationId>, segments: seq<int>, delays: Delays)
    requires Usable(route, segments) && forall s | s in route :: DelayAt(delays, s) != -10
  {
    forall f: Train, ticks: seq<Tick> | OnRoute(f.heading, |route|) && 0.0 <= f.progress < 1.0 && AllRead(ticks, delays) ::
      0.0 <= Tracked(f, route, segments, ticks).progress < 1.0
  }

  ghost predicate AllRead(ticks: seq<Tick>, delays: Delays) { forall i | 0 <= i < |ticks| :: ticks[i].delays == delays }

  /** Progress stays in [0,1), from every start and by all ticks, exactly when no station of the
      route is more than ten minutes early. */
  lemma ProgressExactly(route: seq<StationId>, segments: seq<int>, delays: Delays)
    requires Usable(route, segments) && forall s | s in route :: DelayAt(delays, s) != -10
    ensures AlwaysBetween(route, segments, delays) <==> forall s | s in route :: DelayAt(delays, s) > -10
  {
    if forall s | s in route :: DelayAt(delays, s) > -10 {
      forall f: Train, ticks: seq<Tick> | OnRoute(f.heading, |route|) && 0.0 <= f.progress < 1.0 && AllRead(ticks, delays)
        ensures 0.0 <= Tracked(f, route, segments, ticks).progress < 1.0
      {
        PunctualStays(f, route, segments, ticks);
      }
    } else {
      var i :| 0 <= i < |route| && DelayAt(delays, route[i]) < -10;
      GoesBack(route, segments, delays, i);
    }
  }

  lemma PunctualStays(f: Train, route: seq<StationId>, segments: seq<int>, ticks: seq<Tick>)
    requires Usable(route, segments) && OnRoute(f.heading, |route|) && Punctual(route, ticks) && 0.0 <= f.progress < 1.0
    ensures 0.0 <= Tracked(f, route, segments, ticks).progress < 1.0
  {
    PunctualSteps(f, route, segments, ticks);
    TrackedIsRide(f, route, segments, ticks);
    ProgressStays(f, StepsOf(f, route, segments, ticks), |route|);
    ProgressBelowOne(f, StepsOf(f, route, segments, ticks), |route|);
  }

  /** A train standing at a station more than ten minutes early is behind it after one tick. */
  lemma GoesBack(route: seq<StationId>, segments: seq<int>, delays: Delays, i: nat)
    requires Usable(route, segments) && (forall s | s in route :: DelayAt(delays, s) != -10)
    requires i < |route| && DelayAt(delays, route[i]) < -10
    ensures var f := Train(Heading(i, 1), 0.0);
            AllRead([Tick(1, delays)], delays) && Tracked(f, route, segments, [Tick(1, delays)]).progress < 0.0
  {
    var f := Train(Heading(i, 1), 0.0);
    StepSignExactly(f.heading, route, segments, delays, 1);
    assert [Tick(1, delays)][..0] == [];
    assert Tracked(f, route, segments, []) == f;
  }

  /** For instance: twenty minutes early, sixty seconds into a sixty-second segment. */
  lemma EarlyTrainGoesBack()
    ensures Next(Train(Heading(0, 1), 0.0), [1, 2], [60], map[1 := -20], 60) == Ok(Train(Heading(0, 1), -1.0))
  {
    assert Speed(-20) == -1.0;
    assert StepOf(Heading(0, 1), [1, 2], [60], map[1 := -20], 60) == -1.0;
  }

  /** And while its station stays that early the train never arrives anywhere. */
  lemma {:induction false} EarlyTrainNeverArrives(f: Train, route: seq<StationId>, segments: seq<int>, ticks: seq<Tick>)
    requires Usable(route, segments) && OnRoute(f.heading, |route|) && NoFault(route, ticks) && f.progress < 1.0
    requires forall i | 0 <= i < |ticks| :: DelayAt(ticks[i].delays, route[f.heading.index]) < -10
    ensures Tracked(f, route, segments, ticks).heading == f.heading && Tracked(f, route, segments, ticks).progress <= f.progress
  {
    if ticks != [] {
      var g, last := ticks[..|ticks| - 1], ticks[|ticks| - 1];
      assert forall i | 0 <= i < |g| :: g[i] == ticks[i];
      EarlyTrainNeverArrives(f, route, segments, g);
      StepSignExactly(f.heading, route, segments, last.delays, last.seconds);
    }
  }

  /** The ticks' seconds together. */
  ghost function Elapsed(ticks: seq<Tick>): nat {
    if ticks == [] then 0 else Elapsed(ticks[..|ticks| - 1]) + ticks[|ticks| - 1].seconds
  }

  /** At its station the train is so late at every tick. */
  ghost predicate LateBy(ticks: seq<Tick>, station: StationId, delay: int) {
    forall i | 0 <= i < |ticks| :: (if station in ticks[i].delays then ticks[i].delays[station] else 0) == delay
  }

  /** However the time is cut into ticks, a train `delay` > -10 minutes late leaves a segment
      when the timetable's time for the rest of it, a tenth more for every minute, has passed,
      and not before; until then it is as far as the time passed says. */
  lemma {:induction false} SegmentTakes(f: Train, route: seq<StationId>, segments: seq<int>, ticks: seq<Tick>, delay: int)
    requires Usable(route, segments) && OnRoute(f.heading, |route|) && NoFault(route, ticks) && f.progress < 1.0
    requires delay > -10 && LateBy(ticks, route[f.heading.index], delay)
    ensures var needed := TimeLeft(f.progress, SegmentAt(f.heading, segments), delay);
            && (Arrived(f, StepsOf(f, route, segments, ticks), |route|) == 0 <==> Elapsed(ticks) as real < needed)
            && (Elapsed(ticks) as real < needed ==>
                  var r := Tracked(f, route, segments, ticks);
                  r.heading == f.heading &&
                  TimeLeft(r.progress, SegmentAt(f.heading, segments), delay) == needed - Elapsed(ticks) as real)
  {
    var duration, steps := SegmentAt(f.heading, segments), StepsOf(f, route, segments, ticks);
    var rate := Rate(duration, delay);
    PlanSums(rate, ticks);
    forall i | 0 <= i < |ticks| && Arrived(f, steps[..i], |route|) == 0
      ensures steps[i] == Plan(rate, ticks)[i]
    {
      StepAt(f, route, segments, ticks, i);
      assert f.heading == Tracked(f, route, segments, ticks[..i]).heading by { RideIsArrivals(f, steps[..i], |route|); }
      RateIs(f.heading, route, segments, ticks[i].delays, ticks[i].seconds, delay);
    }
    RideTakes(f, steps, Plan(rate, ticks), |route|);
    TrackedIsRide(f, route, segments, ticks);
    TimeShrinks(f.progress, duration, delay, Elapsed(ticks));
  }

  /** The part of a segment a second takes. */
  function Rate(duration: int, delay: int): (r: real)
    requires duration > 0 && delay > -10
    ensures r > 0.0
  {
    10.0 / (duration as real * (10 + delay) as real)
  }

  lemma RateIs(h: Heading, route: seq<StationId>, segments: seq<int>, delays: Delays, seconds: nat, delay: int)
    requires Usable(route, segments) && OnRoute(h, |route|) && DelayAt(delays, route[h.index]) == delay > -10
    ensures StepOf(h, route, segments, delays, seconds) == Part(Rate(SegmentAt(h, segments), delay), seconds)
  {
    StepIs(SegmentAt(h, segments) as real, delay as real, seconds as real);
    Share(10.0, seconds as real, SegmentAt(h, segments) as real * (10 + delay) as real);
  }

  lemma Share(a: real, b: real, w: real)
    requires w != 0.0
    ensures a * b / w == a / w * b
  {
    var q := a / w;
    assert q * w == a;
    assert q * b * w == a * b;
  }

  lemma {:induction false} StepAt(f: Train, route: seq<StationId>, segments: seq<int>, ticks: seq<Tick>, i: nat)
    requires Usable(route, segments) && OnRoute(f.heading, |route|) && NoFault(route, ticks) && i < |ticks|
    ensures NoFault(route, ticks[..i])
    ensures var before := Tracked(f, route, segments, ticks[..i]);
            var steps := StepsOf(f, route, segments, ticks);
            && route[before.heading.index] in route && before == Ride(f, steps[..i], |route|)
            && steps[i] == StepOf(before.heading, route, segments, ticks[i].delays, ticks[i].seconds)
  {
    var g := ticks[..|ticks| - 1];
    var steps := StepsOf(f, route, segments, ticks);
    assert steps[..|g|] == StepsOf(f, route, segments, g);
    if i < |g| {
      StepAt(f, route, segments, g, i);
      assert g[..i] == ticks[..i] && steps[..|g|][..i] == steps[..i];
    } else {
      TrackedIsRide(f, route, segments, g);
    }
  }

  ghost function Sum(parts: seq<real>): real {
    if parts == [] then 0.0 else Sum(parts[..|parts| - 1]) + parts[|parts| - 1]
  }

  /** Steps that go as planned up to the first arrival arrive when the plan fills the segment. */
  lemma {:induction false} RideTakes(f: Train, steps: seq<real>, planned: seq<real>, n: nat)
    requires f.progress < 1.0 && |steps| == |planned| && forall i | 0 <= i < |planned| :: planned[i] >= 0.0
    requires forall i | 0 <= i < |steps| && Arrived(f, steps[..i], n) == 0 :: steps[i] == planned[i]
    ensures Arrived(f, steps, n) == 0 <==> f.progress + Sum(planned) < 1.0
    ensures Arrived(f, steps, n) == 0 ==> Ride(f, steps, n) == Train(f.heading, f.progress + Sum(planned))
  {
    if steps != [] {
      var ss := steps[..|steps| - 1];
      assert forall i | 0 <= i < |ss| :: ss[..i] == steps[..i];
      RideTakes(f, ss, planned[..|ss|], n);
    }
  }

  /** The part of a segment so many seconds take. */
  function Part(rate: real, seconds: nat): real { rate * seconds as real }

  ghost function Plan(rate: real, ticks: seq<Tick>): (p: seq<real>)
    ensures |p| == |ticks| && forall i | 0 <= i < |p| :: p[i] == Part(rate, ticks[i].seconds)
  {
    seq(|ticks|, i requires 0 <= i < |ticks| => Part(rate, ticks[i].seconds))
  }

  lemma {:induction false} PlanSums(rate: real, ticks: seq<Tick>)
    requires rate > 0.0
    ensures Sum(Plan(rate, ticks)) == Part(rate, Elapsed(ticks))
    ensures forall i | 0 <= i < |ticks| :: Plan(rate, ticks)[i] >= 0.0
  {
    if ticks != [] {
      var g := ticks[..|ticks| - 1];
      PlanSums(rate, g);
      assert Plan(rate, ticks)[..|g|] == Plan(rate, g);
      Distributes(rate, Elapsed(g) as real, ticks[|g|].seconds as real);
    }
  }

  lemma Distributes(rate: real, a: real, b: real)
    requires rate > 0.0 && b >= 0.0
    ensures rate * (a + b) == rate * a + rate * b && rate * b >= 0.0
  {
  }

  lemma TimeShrinks(progress: real, duration: int, delay: int, seconds: nat)
    requires progress < 1.0 && duration > 0 && delay > -10
    ensures var after := progress + Part(Rate(duration, delay), seconds);
            && (after < 1.0 <==> seconds as real < TimeLeft(progress, duration, delay))
            && (after < 1.0 ==> TimeLeft(after, duration, delay) == TimeLeft(progress, duration, delay) - seconds as real)
  {
    var whole := duration as real * (10 + delay) as real;
    var step := Rate(duration, delay) * seconds as real;
    assert step * whole == 10.0 * seconds as real by {
      assert Rate(duration, delay) * whole == 10.0;
      assert step * whole == Rate(duration, delay) * whole * seconds as real;
    }
    Regroup2(1.0 - progress, duration as real, (10 + delay) as real);
    Regroup2(1.0 - progress - step, duration as real, (10 + delay) as real);
    assert (1.0 - progress - step) * whole == (1.0 - progress) * whole - step * whole;
    Scaled(1.0 - progress, step, whole);
  }

  lemma Regroup2(a: real, b: real, c: real)
    ensures a * b * c == a * (b * c)
  {
  }

  lemma Scaled(a: real, b: real, w: real)
    requires w > 0.0
    ensures b < a <==> b * w < a * w
  {
  }

  class TrainSimulator {
    var states: map<TrainId, Heading>
    var locations: map<TrainId, Location>

    ghost predicate Valid()
      reads this
    {
      forall t | t in states :: Headed(states[t])
    }

    constructor ()
      ensures Valid() && states == map[] && locations == map[]
    {
      states, locations := map[], map[];
    }

    ghost function Known(t: TrainId): Heading
      reads this
    {
      if t in states then states[t] else Heading(0, 1)
    }

    /** Where the tick finds the train. */
    ghost function Found(t: TrainId, route: seq<StationId>): (f: Train)
      reads this
      requires t in locations
      ensures f.progress == locations[t].progress && f.heading.direction == if t in states then states[t].direction else 1
      ensures forall i | 0 <= i < |route| && route[i] == locations[t].station && locations[t].station !in route[..i] ::
                f.heading.index == i
      ensures locations[t].station !in route ==> f.heading.index == if t in states then states[t].index else 0
    {
      Train(Placed(Known(t), route, locations[t].station), locations[t].progress)
    }

    method NextHeading(index: int, direction: int, n: nat) returns (i: int, d: int)
      ensures Heading(i, d) == Arrive(Heading(index, direction), n)
    {
      i, d := index + direction, direction;
      if i >= n - 1 {
        i, d := n - 1, -1;
      } else if i <= 0 {
        i, d := 0, 1;
      }
    }

    /** The train as the tick leaves it; its heading is remembered even when the tick fails. */
    method Advance(t: TrainId, route: seq<StationId>, segments: seq<int>, delays: Delays, seconds: nat)
      returns (moved: Result<Train, Fault>)
      requires Valid() && Usable(route, segments) && t in states && t in locations
      modifies this`states
      ensures Valid()
      ensures moved == Next(old(Found(t, route)), route, segments, delays, seconds)
      ensures Ticked(old(Found(t, route)), moved, route, segments, delays, seconds)
      ensures states == old(states)[t := match moved case Ok(m) => m.heading case Err(_) => old(Found(t, route)).heading]
    {
      NextExactly(Found(t, route), route, segments, delays, seconds);
      var index, direction := states[t].index, states[t].direction;
      if locations[t].station in route {
        index := IndexOf(route, locations[t].station);
        states := states[t := Heading(index, direction)];
      }
      if index >= |route| {
        return Err(OffRoute);
      }
      if DelayAt(delays, route[index]) == -10 {
        return Err(DivisionByZero);
      }
      var progress := locations[t].progress + StepOf(Heading(index, direction), route, segments, delays, seconds);
      if progress >= 1.0 {
        progress := 0.0;
        index, direction := NextHeading(index, direction, |route|);
        states := states[t := Heading(index, direction)];
      }
      moved := Ok(Train(Heading(index, direction), progress));
    }

    /** The loop body for one train: nothing on an unusable route; without a location row only
        the default heading is set; else the train moves as `Next` says, and row and update
        show it. A failing tick stores no row. */
    method Track(t: TrainId, route: seq<StationId>, segments: seq<int>, delays: Delays, seconds: nat)
      returns (update: Result<Option<Update>, Fault>)
      requires Valid() && forall s | s in segments :: s > 0
      modifies this
      ensures Valid()
      ensures !Usable(route, segments) ==> states == old(states) && locations == old(locations) && update == Ok(None)
      ensures Usable(route, segments) && t !in old(locations) ==>
                states == old(states)[t := old(Known(t))] && locations == old(locations) && update == Ok(None)
      ensures Usable(route, segments) && t in old(locations) ==>
                match Next(old(Found(t, route)), route, segments, delays, seconds)
                case Err(e) =>
                  update == Err(e) && states == old(states)[t := old(Found(t, route)).heading] && locations == old(locations)
                case Ok(m) =>
                  && OnRoute(m.heading, |route|) && states == old(states)[t := m.heading]
                  && (DelayAt(delays, route[m.heading.index]) == -10 ==> update == Err(DivisionByZero) && locations == old(locations))
                  && (DelayAt(delays, route[m.heading.index]) != -10 ==>
                        && update == Ok(Some(UpdateFor(m, route, segments, delays)))
                        && locations == old(locations)[t := RowFor(m, route)]
                        && Owed(route, segments, delays, seconds)(old(Found(t, route)), m, update.value.value, locations[t])
                        && (NoRepeats(route) ==> Found(t, route) == m))
    {
      if |route| < 2 || segments == [] {
        return Ok(None);
      }
      if t !in states {
        states := states[t := Heading(0, 1)];
      }
      if t !in locations {
        return Ok(None);
      }
      ghost var f := Found(t, route);
      assert f == old(Found(t, route));
      NextOnRoute(f, route, segments, delays, seconds);
      var moved := Advance(t, route, segments, delays, seconds);
      if moved.Err? {
        return Err(moved.error);
      }
      var m := moved.value;
      if DelayAt(delays, route[m.heading.index]) == -10 {
        return Err(DivisionByZero);
      }
      OwedExactly(f, route, segments, delays, seconds);
      locations := locations[t := RowFor(m, route)];
      if NoRepeats(route) {
        RowRecoversHeading(m.heading, route);
      }
      update := Ok(Some(UpdateFor(m, route, segments, delays)));
    }

    /** The simulator's loop for one train on a fixed route without repeats: after any ticks the
        stored row and heading are where the ride from the first ones ends. */
    method RunTicks(t: TrainId, route: seq<StationId>, segments: seq<int>, ticks: seq<Tick>)
      requires Valid() && Usable(route, segments) && NoRepeats(route) && NoFault(route, ticks)
      requires t in locations && OnRoute(Found(t, route).heading, |route|)
      modifies this
      ensures Valid() && t in locations && OnRoute(old(Found(t, route)).heading, |route|)
      ensures Found(t, route) == Ride(old(Found(t, route)), StepsOf(old(Found(t, route)), route, segments, ticks), |route|)
    {
      ghost var f := Found(t, route);
      for i := 0 to |ticks|
        invariant Valid() && t in locations && Found(t, route) == Tracked(f, route, segments, ticks[..i])
      {
        var last := ticks[i];
        assert ticks[..i + 1][..i] == ticks[..i];
        ghost var before := Tracked(f, route, segments, ticks[..i]);
        ghost var after := Tracked(f, route, segments, ticks[..i + 1]);
        assert ticks[..i + 1][i] == last && route[before.heading.index] in route && route[after.heading.index] in route;
        var update := Track(t, route, segments, last.delays, last.seconds);
      }
      assert ticks[..|ticks|] == ticks;
      TrackedIsRide(f, route, segments, ticks);
    }
  }

  /** With the row written by the last tick, the next tick starts from where it left the
      train: along a fixed route without repeats the rows and the headings agree. */
  lemma RowRecoversHeading(h: Heading, route: seq<StationId>)
    requires NoRepeats(route) && OnRoute(h, |route|)
    ensures Placed(h, route, route[h.index]) == h
  {
    IndexRecovered(route, h.index);
  }
}
