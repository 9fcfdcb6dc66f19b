/** Routes from the timetable, and the ETA walk along them
    (app/services/train_tracking.py). Times of day are seconds since midnight. */
module TrainTracking {
  import opened Arith

  type TrainId = int
  type StationId = int

  const MIN_SEGMENT_SECONDS := 30
  const DAY_SECONDS := 86400

  /** One timetable row; the query orders them by train, then arrival. */
  datatype Stop = Stop(train: TrainId, station: StationId, arrival: int)

  /** What the clock shows `d` seconds after `start`. */
  function ClockAfter(start: int, d: int): int { (start + d) % 86400 }

  /** The time `d` from `start` until the clock next shows `end`, where a whole day passes
      between equal times; shorter ones count as half a minute. */
  ghost predicate GapIs(start: int, end: int, gap: int) {
    forall d | 0 < d <= 86400 && ClockAfter(start, d) == end :: gap == if d < 30 then 30 else d
  }

  /** Seconds from one time of day to the next occurrence of another, at least half a
      minute. */
  function SegmentGap(start: int, end: int): (gap: int)
    ensures gap >= MIN_SEGMENT_SECONDS
    ensures 0 <= start < DAY_SECONDS && 0 <= end < DAY_SECONDS ==> GapIs(start, end, gap)
  {
    var diff := end - start;
    Max(if diff <= 0 then diff + DAY_SECONDS else diff, MIN_SEGMENT_SECONDS)
  }

  // ---------- Building routes ----------

  ghost function Stations(stops: seq<Stop>): seq<StationId> {
    seq(|stops|, i requires 0 <= i < |stops| => stops[i].station)
  }

  /** A train's stops, each station at its first row only. */
  ghost function FirstStops(rows: seq<Stop>, t: TrainId): seq<Stop> {
    if rows == [] then []
    else
      var before := FirstStops(rows[..|rows| - 1], t);
      var last := rows[|rows| - 1];
      if last.train != t || last.station in Stations(before) then before else before + [last]
  }

  ghost predicate NoRepeats(route: seq<StationId>) {
    forall i, j | 0 <= i < j < |route| :: route[i] != route[j]
  }

  lemma {:induction false} FirstStopsAre(rows: seq<Stop>, t: TrainId)
    ensures NoRepeats(Stations(FirstStops(rows, t)))
    ensures forall s :: s in Stations(FirstStops(rows, t)) <==> exists i :: 0 <= i < |rows| && rows[i].train == t && rows[i].station == s
    ensures forall f | f in FirstStops(rows, t) :: f in rows && f.train == t
  {
    if rows != [] {
      var g, last := rows[..|rows| - 1], rows[|rows| - 1];
      FirstStopsAre(g, t);
      var before := FirstStops(g, t);
      assert rows == g + [last];
      assert Stations(before + [last]) == Stations(before) + [last.station];
      forall s
        ensures s in Stations(FirstStops(rows, t)) <==> exists i :: 0 <= i < |rows| && rows[i].train == t && rows[i].station == s
      {
        if s in Stations(before) {
          var i :| 0 <= i < |g| && g[i].train == t && g[i].station == s;
          assert rows[i].train == t && rows[i].station == s;
        }
        if i :| 0 <= i < |rows| && rows[i].train == t && rows[i].station == s {
          if i < |g| { assert g[i].train == t && g[i].station == s; }
        }
      }
    }
  }

  /** The row is its train's first at its station. */
  ghost predicate IsFirst(rows: seq<Stop>, t: TrainId, i: int)
    requires 0 <= i < |rows|
  {
    rows[i].train == t && forall j | 0 <= j < i :: rows[j].train != t || rows[j].station != rows[i].station
  }

  lemma LastIsFirst(g: seq<Stop>, last: Stop, t: TrainId)
    ensures IsFirst(g + [last], t, |g|) <==> last.train == t && last.station !in Stations(FirstStops(g, t))
  {
    FirstStopsAre(g, t);
    assert forall i | 0 <= i < |g| :: (g + [last])[i] == g[i];
  }

  /** They are those rows, in row order. */
  lemma {:induction false} FirstStopsExactly(rows: seq<Stop>, t: TrainId) returns (at: seq<nat>)
    ensures |at| == |FirstStops(rows, t)| && forall k | 0 <= k < |at| :: at[k] < |rows| && FirstStops(rows, t)[k] == rows[at[k]]
    ensures forall k, m | 0 <= k < m < |at| :: at[k] < at[m]
    ensures forall i | 0 <= i < |rows| :: i in at <==> IsFirst(rows, t, i)
  {
    at := [];
    if rows != [] {
      var g, last := rows[..|rows| - 1], |rows| - 1;
      at := FirstStopsExactly(g, t);
      LastIsFirst(g, rows[last], t);
      assert rows == g + [rows[last]];
      assert forall i | 0 <= i < last :: IsFirst(g, t, i) <==> IsFirst(rows, t, i);
      if IsFirst(rows, t, last) {
        at := at + [last];
      }
    }
  }

  /** In a timetable ordered by arrival within each train, so is the route. */
  lemma {:induction false} RouteIsInOrder(rows: seq<Stop>, t: TrainId)
    requires forall i, j | 0 <= i < j < |rows| && rows[i].train == t && rows[j].train == t :: rows[i].arrival <= rows[j].arrival
    ensures forall i, j | 0 <= i < j < |FirstStops(rows, t)| :: FirstStops(rows, t)[i].arrival <= FirstStops(rows, t)[j].arrival
  {
    if rows != [] {
      RouteIsInOrder(rows[..|rows| - 1], t);
      FirstStopsAre(rows[..|rows| - 1], t);
    }
  }

  ghost function Gaps(stops: seq<Stop>): seq<int> {
    seq(if |stops| > 0 then |stops| - 1 else 0, i requires 0 <= i < |stops| - 1 => SegmentGap(stops[i].arrival, stops[i + 1].arrival))
  }

  /** One segment a pair of neighbours, as long as from arrival to arrival. */
  ghost predicate Spaced(stops: seq<Stop>, segments: seq<int>) {
    && |segments| == |stops| - (if stops == [] then 0 else 1)
    && forall k | 0 <= k < |segments| && 0 <= stops[k].arrival < 86400 && 0 <= stops[k + 1].arrival < 86400 ::
         GapIs(stops[k].arrival, stops[k + 1].arrival, segments[k])
  }

  lemma GapsAreSpaced(stops: seq<Stop>)
    ensures Spaced(stops, Gaps(stops))
  {
  }

  ghost function Arrivals(stops: seq<Stop>): seq<int> {
    seq(|stops|, i requires 0 <= i < |stops| => stops[i].arrival)
  }

  function GapsOf(arrivals: seq<int>): seq<int> {
    seq(if |arrivals| > 0 then |arrivals| - 1 else 0,
        i requires 0 <= i < |arrivals| - 1 => SegmentGap(arrivals[i], arrivals[i + 1]))
  }

  lemma {:induction false} NoRowsNoStops(rows: seq<Stop>, t: TrainId)
    requires forall j | 0 <= j < |rows| :: rows[j].train != t
    ensures FirstStops(rows, t) == []
  {
    if rows != [] {
      NoRowsNoStops(rows[..|rows| - 1], t);
    }
  }

  ghost predicate Tracks(rows: seq<Stop>, t: TrainId, route: seq<StationId>, arrivals: seq<int>, seen: set<StationId>) {
    && route == Stations(FirstStops(rows, t))
    && arrivals == Arrivals(FirstStops(rows, t))
    && forall s :: s in seen <==> s in route
  }

  lemma TracksOwn(rows: seq<Stop>, s: Stop, route: seq<StationId>, arrivals: seq<int>, seen: set<StationId>)
    requires Tracks(rows, s.train, route, arrivals, seen)
    ensures if s.station in seen then Tracks(rows + [s], s.train, route, arrivals, seen)
            else Tracks(rows + [s], s.train, route + [s.station], arrivals + [s.arrival], seen + {s.station})
  {
    assert (rows + [s])[..|rows|] == rows;
    var before := FirstStops(rows, s.train);
    assert Stations(before + [s]) == Stations(before) + [s.station];
    assert Arrivals(before + [s]) == Arrivals(before) + [s.arrival];
  }

  lemma TracksOther(rows: seq<Stop>, s: Stop, t: TrainId, route: seq<StationId>, arrivals: seq<int>, seen: set<StationId>)
    requires Tracks(rows, t, route, arrivals, seen) && t != s.train
    ensures Tracks(rows + [s], t, route, arrivals, seen)
  {
    assert (rows + [s])[..|rows|] == rows;
  }

  /** The dictionaries `_refresh_route_cache` fills row by row. */
  datatype Building = Building(
    routes: map<TrainId, seq<StationId>>,
    arrivals: map<TrainId, seq<int>>,
    seen: map<TrainId, set<StationId>>)

  function Get<V>(m: map<TrainId, V>, t: TrainId, default: V): V {
    if t in m then m[t] else default
  }

  function AddRow(b: Building, s: Stop): Building {
    var t := s.train;
    var route, arrivals, seen := Get(b.routes, t, []), Get(b.arrivals, t, []), Get(b.seen, t, {});
    if s.station in seen then Building(b.routes[t := route], b.arrivals[t := arrivals], b.seen[t := seen])
    else
      Building(b.routes[t := route + [s.station]], b.arrivals[t := arrivals + [s.arrival]], b.seen[t := seen + {s.station}])
  }

  ghost predicate Built(rows: seq<Stop>, b: Building) {
    && b.routes.Keys == b.arrivals.Keys == b.seen.Keys
    && (forall t :: t in b.routes <==> exists j :: 0 <= j < |rows| && rows[j].train == t)
    && (forall t | t in b.routes :: Tracks(rows, t, b.routes[t], b.arrivals[t], b.seen[t]))
  }

  lemma BuiltStep(rows: seq<Stop>, b: Building, s: Stop)
    requires Built(rows, b)
    ensures Built(rows + [s], AddRow(b, s))
  {
    var c := AddRow(b, s);
    if s.train !in b.routes {
      NoRowsNoStops(rows, s.train);
    }
    forall t | t in c.routes
      ensures Tracks(rows + [s], t, c.routes[t], c.arrivals[t], c.seen[t])
    {
      if t == s.train {
        TracksOwn(rows, s, Get(b.routes, t, []), Get(b.arrivals, t, []), Get(b.seen, t, {}));
      } else {
        TracksOther(rows, s, t, b.routes[t], b.arrivals[t], b.seen[t]);
      }
    }
    BuiltKeys(rows, b, s);
  }

  lemma BuiltKeys(rows: seq<Stop>, b: Building, s: Stop)
    requires forall t :: t in b.routes <==> exists j :: 0 <= j < |rows| && rows[j].train == t
    ensures forall t :: t in AddRow(b, s).routes <==> exists j :: 0 <= j < |rows + [s]| && (rows + [s])[j].train == t
  {
    forall t
      ensures t in AddRow(b, s).routes <==> exists j :: 0 <= j < |rows + [s]| && (rows + [s])[j].train == t
    {
      if t in b.routes {
        var j :| 0 <= j < |rows| && rows[j].train == t;
        assert (rows + [s])[j].train == t;
      } else if t == s.train {
        assert (rows + [s])[|rows|].train == t;
      }
    }
  }

  lemma BuiltPrefix(rows: seq<Stop>, i: nat, b: Building)
    requires i < |rows| && Built(rows[..i], b)
    ensures Built(rows[..i + 1], AddRow(b, rows[i]))
  {
    assert rows[..i + 1] == rows[..i] + [rows[i]];
    BuiltStep(rows[..i], b, rows[i]);
  }

  method BuildAll(rows: seq<Stop>) returns (b: Building)
    ensures Built(rows, b)
  {
    b := Building(map[], map[], map[]);
    var i := 0;
    while i < |rows|
      invariant i <= |rows| && Built(rows[..i], b)
    {
      BuiltPrefix(rows, i, b);
      b := AddRow(b, rows[i]);
      i := i + 1;
    }
    assert rows[..i] == rows;
  }

  lemma GapsOfArrivals(stops: seq<Stop>)
    ensures GapsOf(Arrivals(stops)) == Gaps(stops)
  {
  }

  /** The two caches `_refresh_route_cache` leaves behind. */
  class RouteCache {
    var routes: map<TrainId, seq<StationId>>
    var segments: map<TrainId, seq<int>>

    constructor ()
      ensures routes == map[] && segments == map[]
    {
      routes, segments := map[], map[];
    }

    method Refresh(rows: seq<Stop>)
      modifies this
      ensures forall t :: t in routes <==> exists i :: 0 <= i < |rows| && rows[i].train == t
      ensures routes.Keys == segments.Keys
      ensures forall t | t in routes :: routes[t] == Stations(FirstStops(rows, t)) && segments[t] == Gaps(FirstStops(rows, t))
      ensures forall t | t in routes :: Spaced(FirstStops(rows, t), segments[t])
    {
      var b := BuildAll(rows);
      routes := b.routes;
      segments := map t | t in b.arrivals :: GapsOf(b.arrivals[t]);
      forall t | t in routes
        ensures routes[t] == Stations(FirstStops(rows, t)) && segments[t] == Gaps(FirstStops(rows, t))
      {
        assert Tracks(rows, t, b.routes[t], b.arrivals[t], b.seen[t]);
        GapsOfArrivals(FirstStops(rows, t));
      }
      forall t | t in routes
        ensures Spaced(FirstStops(rows, t), segments[t])
      {
        GapsAreSpaced(FirstStops(rows, t));
      }
    }
  }

  // ---------- Zig-zag along a route of n stations ----------

  /** Where a train is bound: a station index and 1 (up the route) or -1. */
  datatype Heading = Heading(index: int, direction: int)

  function Clamp(i: int, n: int): int
    requires n > 0
  {
    Max(0, Min(n - 1, i))
  }

  /** Arriving at the next station: at either end the direction turns. */
  function Arrive(h: Heading, n: nat): Heading {
    var j := h.index + h.direction;
    if j >= n - 1 then Heading(n - 1, -1)
    else if j <= 0 then Heading(0, 1)
    else Heading(j, h.direction)
  }

  predicate OnRoute(h: Heading, n: nat) {
    0 <= h.index < n && (h.direction == 1 || h.direction == -1)
  }

  /** Turned at the ends, as after any arrival. */
  predicate Turned(h: Heading, n: nat) {
    OnRoute(h, n) && (h.index == n - 1 ==> h.direction == -1) && (h.index == 0 ==> h.direction == 1)
  }

  /** The number of hops in a full round. */
  function RoundTrip(n: nat): nat
    requires n >= 2
  {
    2 * (n - 1)
  }

  function Phase(h: Heading, n: nat): nat
    requires n >= 2 && Turned(h, n)
  {
    if h.direction == 1 then h.index else RoundTrip(n) - h.index
  }

  function StationAt(phase: nat, n: nat): nat
    requires n >= 2 && phase < RoundTrip(n)
  {
    if phase <= n - 1 then phase else RoundTrip(n) - phase
  }

  lemma PhaseFits(h: Heading, n: nat)
    requires n >= 2 && Turned(h, n)
    ensures Phase(h, n) < RoundTrip(n) && StationAt(Phase(h, n), n) == h.index
  {
  }

  /** The first arrival from anywhere is turned; every later one advances the phase by one. */
  lemma ArriveAdvances(h: Heading, n: nat)
    requires n >= 2 && OnRoute(h, n)
    ensures Turned(Arrive(h, n), n)
    ensures Turned(h, n) ==> Phase(Arrive(h, n), n) == Succ(Phase(h, n), RoundTrip(n))
  {
  }

  function Arrives(h: Heading, k: nat, n: nat): Heading {
    if k == 0 then h else Arrive(Arrives(h, k - 1, n), n)
  }

  lemma {:induction false} ArrivesOnRoute(h: Heading, k: nat, n: nat)
    requires n >= 2 && OnRoute(h, n)
    ensures OnRoute(Arrives(h, k, n), n) && (k > 0 || Turned(h, n) ==> Turned(Arrives(h, k, n), n))
  {
    if k > 0 {
      ArrivesOnRoute(h, k - 1, n);
      ArriveAdvances(Arrives(h, k - 1, n), n);
    }
  }

  lemma {:induction false} ArrivesAdvances(h: Heading, k: nat, n: nat)
    requires n >= 2 && Turned(h, n)
    ensures Turned(Arrives(h, k, n), n) && Phase(Arrives(h, k, n), n) == (Phase(h, n) + k) % RoundTrip(n)
  {
    PhaseFits(h, n);
    if k == 0 {
      ModSmall(Phase(h, n), RoundTrip(n));
    } else {
      ArrivesAdvances(h, k - 1, n);
      var g := Arrives(h, k - 1, n);
      ArriveAdvances(g, n);
      PhaseFits(g, n);
      AdvanceIsMod(Phase(h, n), k - 1, RoundTrip(n));
      AdvanceIsMod(Phase(h, n), k, RoundTrip(n));
      AdvanceTwice(Phase(h, n), k - 1, 1, RoundTrip(n));
      assert Advance(Phase(g, n), 1, RoundTrip(n)) == Succ(Phase(g, n), RoundTrip(n));
    }
  }

  /** How many arrivals take a turned heading to a station: less than a full round. */
  function HopsTo(h: Heading, target: nat, n: nat): nat
    requires n >= 2 && Turned(h, n) && target < n
  {
    if target >= Phase(h, n) then target - Phase(h, n) else target + RoundTrip(n) - Phase(h, n)
  }

  /** Every window of a full round of arrivals visits every station. */
  lemma EveryStationVisited(h: Heading, target: nat, n: nat)
    requires n >= 2 && Turned(h, n) && target < n
    ensures HopsTo(h, target, n) < RoundTrip(n) && Arrives(h, HopsTo(h, target, n), n).index == target
  {
    var k := HopsTo(h, target, n);
    PhaseFits(h, n);
    ArrivesAdvances(h, k, n);
    if target >= Phase(h, n) {
      ModSmall(target, RoundTrip(n));
    } else {
      ModPlus(target, RoundTrip(n));
      ModSmall(target, RoundTrip(n));
    }
    PhaseFits(Arrives(h, k, n), n);
  }
}
