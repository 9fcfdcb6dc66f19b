/** `walk_eta_seconds`: the time to a station ahead on the zig-zag
    (app/services/train_tracking.py:121-172). */
module EtaWalk {
  import opened Wrappers
  import opened Arith
  import opened TrainTracking

  /** `segment_index_for` */
  function SegmentIndex(h: Heading, segments: nat): (i: int)
    ensures segments > 0 ==> 0 <= i < segments
  {
    if segments == 0 then 0
    else Max(0, Min(if h.direction == 1 then h.index else h.index - 1, segments - 1))
  }

  function Seconds(duration: int, speed: real): real {
    if speed == 0.0 then duration as real else duration as real / speed
  }

  /** `eta_seconds_for` */
  function EtaSeconds(progress: real, duration: int, speed: real): int {
    Round((if progress < 1.0 then 1.0 - progress else 0.0) * Seconds(duration, speed))
  }

  /** On a turned heading the clamp of the segment index never fires: the segment is the
      one between the station and the next. */
  lemma SegmentIsAhead(h: Heading, n: nat)
    requires n >= 2 && Turned(h, n)
    ensures SegmentIndex(h, n - 1) == Min(h.index, Arrive(h, n).index)
    ensures Max(h.index, Arrive(h, n).index) == SegmentIndex(h, n - 1) + 1
  {
  }

  /** The time of the first `k` hops from a heading. */
  ghost function Travel(segments: seq<int>, speed: real, h: Heading, n: nat, k: nat): real
    requires segments != []
  {
    if k == 0 then 0.0
    else
      Travel(segments, speed, h, n, k - 1) +
      Seconds(segments[SegmentIndex(Arrives(h, k - 1, n), |segments|)], speed)
  }

  /** The timetable's time of the first `k` hops: each takes the segment ahead of it, or the
      nearest one there is. */
  ghost function Timetabled(segments: seq<int>, h: Heading, n: nat, k: nat): int
    requires segments != []
  {
    if k == 0 then 0
    else
      var at := Arrives(h, k - 1, n);
      var i := if at.direction == 1 then at.index else at.index - 1;
      Timetabled(segments, h, n, k - 1) +
      if i < 0 then segments[0] else if i < |segments| then segments[i] else segments[|segments| - 1]
  }

  /** At another speed the same hops take the timetable's time over the speed; a speed of zero
      counts as one. */
  lemma {:induction false} TravelIsTimetabled(segments: seq<int>, speed: real, h: Heading, n: nat, k: nat)
    requires segments != []
    ensures Travel(segments, speed, h, n, k) ==
              Timetabled(segments, h, n, k) as real / if speed == 0.0 then 1.0 else speed
  {
    if k > 0 {
      TravelIsTimetabled(segments, speed, h, n, k - 1);
      AddQuotients(Timetabled(segments, h, n, k - 1) as real,
                   segments[SegmentIndex(Arrives(h, k - 1, n), |segments|)] as real, if speed == 0.0 then 1.0 else speed);
    }
  }

  lemma AddQuotients(a: real, b: real, d: real)
    requires d != 0.0
    ensures a / d + b / d == (a + b) / d
  {
  }

  /** `k` is the number of hops to the first visit of `target`. */
  ghost predicate FirstVisit(h: Heading, target: int, n: nat, k: nat) {
    Arrives(h, k, n).index == target && forall j: nat | j < k :: Arrives(h, j, n).index != target
  }

  function Turn(h: Heading, n: nat): Heading {
    if h.index == n - 1 then h.(direction := -1) else if h.index == 0 then h.(direction := 1) else h
  }

  /** Clamping, then turning at the top of the loop, is arriving. */
  lemma TurnIsArrive(h: Heading, n: nat)
    requires n >= 2 && (h.direction == 1 || h.direction == -1)
    ensures Turn(Heading(Clamp(h.index + h.direction, n), h.direction), n) == Arrive(h, n)
  {
  }

  /** What the loop has established after some hops: `h` is position and direction. */
  ghost predicate Walking(start: Heading, target: nat, n: nat, hops: nat, h: Heading)
    requires n >= 2 && Turned(start, n) && target < n
  {
    && OnRoute(h, n) && hops <= HopsTo(start, target, n)
    && Turn(h, n) == Arrives(start, hops, n)
    && forall j: nat | j < hops :: Arrives(start, j, n).index != target
  }

  lemma WalkingOn(start: Heading, target: nat, n: nat, hops: nat, h: Heading)
    requires n >= 2 && Turned(start, n) && target < n && Walking(start, target, n, hops, h) && h.index != target
    ensures var d := Turn(h, n).direction;
            Walking(start, target, n, hops + 1, Heading(Clamp(h.index + d, n), d))
  {
    EveryStationVisited(start, target, n);
    TurnIsArrive(Turn(h, n), n);
  }

  /** The answer on the way from `start`: the remainder and the timetable's time, at the
      speed, of fewer hops than a full round to the first visit. */
  ghost predicate Answers(segments: seq<int>, speed: real, start: Heading, n: nat, target: int, remaining: real, eta: int)
    requires n >= 2 && segments != []
  {
    exists k: nat :: k < RoundTrip(n) && FirstVisit(start, target, n, k) &&
      eta == Round(remaining + Timetabled(segments, start, n, k) as real / if speed == 0.0 then 1.0 else speed)
  }

  lemma VisitedAfter(segments: seq<int>, speed: real, start: Heading, n: nat, target: nat, k: nat, remaining: real, total: real)
    requires n >= 2 && segments != [] && FirstVisit(start, target, n, k) && k < RoundTrip(n)
    requires total == remaining + Travel(segments, speed, start, n, k)
    ensures Answers(segments, speed, start, n, target, remaining, Round(total))
  {
    TravelIsTimetabled(segments, speed, start, n, k);
  }

  /** The walk answers exactly when there is a route, a segment and such a station; its
      answer is the rounded remainder plus the time of the hops to the first visit, and
      that takes less than a full round, well inside the 2n rounds of the loop. */
  method WalkEtaSeconds(route: seq<StationId>, segments: seq<int>, from: int, direction: int,
                        remaining: real, speed: real, target: int) returns (eta: Option<int>)
    requires direction == 1 || direction == -1
    ensures eta.None? <==> route == [] || segments == [] || target < 0 || target >= |route|
    ensures eta.Some? && |route| == 1 ==> eta.value == Round(remaining)
    ensures eta.Some? && |route| >= 2 ==>
              Answers(segments, speed, Arrive(Heading(from, direction), |route|), |route|, target, remaining, eta.value)
  {
    var n := |route|;
    if route == [] || segments == [] || target < 0 || target >= n {
      return None;
    }
    var pos := Clamp(from + direction, n);
    var dir := direction;
    var total := remaining;
    if n == 1 {
      return Some(Round(total));
    }
    ghost var start := Arrive(Heading(from, direction), n);
    TurnIsArrive(Heading(from, direction), n);
    var hops := 0;
    EveryStationVisited(start, target, n);
    while pos != target && hops < 2 * n
      invariant Walking(start, target, n, hops, Heading(pos, dir))
      invariant total == remaining + Travel(segments, speed, start, n, hops)
      decreases 2 * n - hops
    {
      WalkingOn(start, target, n, hops, Heading(pos, dir));
      if pos == n - 1 {
        dir := -1;
      } else if pos == 0 {
        dir := 1;
      }
      assert Arrives(start, hops, n) == Heading(pos, dir);
      var segment := if dir == 1 then pos else pos - 1;
      segment := Max(0, Min(|segments| - 1, segment));
      assert segments[segment] == segments[SegmentIndex(Arrives(start, hops, n), |segments|)];
      total := total + Seconds(segments[segment], speed);
      pos := Clamp(pos + dir, n);
      hops := hops + 1;
    }
    eta := if pos == target then Some(Round(total)) else None;
    assert FirstVisit(start, target, n, hops);
    VisitedAfter(segments, speed, start, n, target, hops, remaining, total);
  }
}
