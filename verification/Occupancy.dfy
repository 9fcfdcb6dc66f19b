/** The occupancy walk max(0, occupancy + entries - exits), restarted every day
    (app/simulator/csv_replay_simulator.py:232-244), in closed form, and the same walk in
    the database seeding (app/database/seed_real_data.py:76-84). */
module Occupancy {
  import opened Wrappers
  import opened Arith
  import opened CsvReplay

  function Net(r: Row): real { r.entries - r.exits }

  function NonNegative(x: real): real { if x > 0.0 then x else 0.0 }

  /** The walk over one day's rows, from an empty station. */
  ghost function Walk(rows: seq<Row>): real {
    if rows == [] then 0.0 else NonNegative(Walk(rows[..|rows| - 1]) + Net(rows[|rows| - 1]))
  }

  /** Net flow since the start of the day. */
  ghost function Sum(rows: seq<Row>): real {
    if rows == [] then 0.0 else Sum(rows[..|rows| - 1]) + Net(rows[|rows| - 1])
  }

  ghost function Entered(rows: seq<Row>): real {
    if rows == [] then 0.0 else Entered(rows[..|rows| - 1]) + rows[|rows| - 1].entries
  }

  ghost function Exited(rows: seq<Row>): real {
    if rows == [] then 0.0 else Exited(rows[..|rows| - 1]) + rows[|rows| - 1].exits
  }

  /** Everyone who entered, less everyone who left. */
  lemma {:induction false} FlowIs(rows: seq<Row>)
    ensures Sum(rows) == Entered(rows) - Exited(rows)
  {
    if rows != [] {
      FlowIs(rows[..|rows| - 1]);
    }
  }

  /** The occupancy is the net flow above the lowest net flow reached so far. */
  lemma {:induction false} WalkClosedForm(rows: seq<Row>)
    ensures forall k | 0 <= k <= |rows| :: Walk(rows) >= Sum(rows) - Sum(rows[..k])
    ensures exists k :: 0 <= k <= |rows| && Walk(rows) == Sum(rows) - Sum(rows[..k])
  {
    var n := |rows|;
    assert rows[..n] == rows;
    if n == 0 {
      assert Walk(rows) == Sum(rows) - Sum(rows[..0]);
    } else {
      var g := rows[..n - 1];
      WalkClosedForm(g);
      forall k | 0 <= k <= n
        ensures Walk(rows) >= Sum(rows) - Sum(rows[..k])
      {
        if k < n { assert rows[..k] == g[..k]; }
      }
      var k :| 0 <= k <= n - 1 && Walk(g) == Sum(g) - Sum(g[..k]);
      assert rows[..k] == g[..k];
      if Walk(g) + Net(rows[n - 1]) > 0.0 {
        assert Walk(rows) == Sum(rows) - Sum(rows[..k]);
      } else {
        assert Walk(rows) == Sum(rows) - Sum(rows[..n]);
      }
    }
  }

  /** A path never below zero that takes in each row's net flow, perhaps with more. */
  ghost predicate Absorbs(q: seq<real>, rows: seq<Row>) {
    && |q| == |rows| + 1
    && (forall i | 0 <= i < |q| :: q[i] >= 0.0)
    && (forall i | 0 <= i < |rows| :: q[i + 1] >= q[i] + Net(rows[i]))
  }

  ghost function Path(rows: seq<Row>): seq<real> {
    seq(|rows| + 1, i requires 0 <= i <= |rows| => Walk(rows[..i]))
  }

  lemma {:induction false} BelowEveryPath(q: seq<real>, rows: seq<Row>, i: nat)
    requires Absorbs(q, rows) && i <= |rows|
    ensures Walk(rows[..i]) <= q[i]
  {
    if i > 0 {
      BelowEveryPath(q, rows, i - 1);
      assert rows[..i][..i - 1] == rows[..i - 1];
      assert q[i - 1 + 1] >= q[i - 1] + Net(rows[i - 1]);
    }
  }

  /** The walk is the least such path, at every row. */
  lemma WalkIsLeast(rows: seq<Row>)
    ensures Absorbs(Path(rows), rows)
    ensures forall q | Absorbs(q, rows) :: forall i | 0 <= i <= |rows| :: Path(rows)[i] <= q[i]
  {
    forall i | 0 <= i < |rows|
      ensures Path(rows)[i + 1] >= Path(rows)[i] + Net(rows[i])
    {
      assert rows[..i + 1][..i] == rows[..i];
    }
    forall i | 0 <= i < |Path(rows)|
      ensures Path(rows)[i] >= 0.0
    {
    }
    forall q, i | Absorbs(q, rows) && 0 <= i <= |rows|
      ensures Path(rows)[i] <= q[i]
    {
      BelowEveryPath(q, rows, i);
    }
  }

  // ---------- Day by day ----------

  /** A station's occupancy and the day of its last row. */
  datatype Gauge = Gauge(occupancy: real, lastDay: Option<int>)

  function Step(g: Gauge, r: Row): Gauge {
    var start := if g.lastDay == Some(r.day) then g.occupancy else 0.0;
    Gauge(NonNegative(start + Net(r)), Some(r.day))
  }

  ghost function After(g: Gauge, rows: seq<Row>): Gauge {
    if rows == [] then g else Step(After(g, rows[..|rows| - 1]), rows[|rows| - 1])
  }

  /** The rows since the last change of day. */
  ghost function Today(rows: seq<Row>): seq<Row> {
    if |rows| <= 1 then rows
    else if rows[|rows| - 2].day == rows[|rows| - 1].day then Today(rows[..|rows| - 1]) + [rows[|rows| - 1]]
    else [rows[|rows| - 1]]
  }

  lemma {:induction false} TodayIs(rows: seq<Row>)
    ensures |Today(rows)| <= |rows| && Today(rows) == rows[|rows| - |Today(rows)|..]
    ensures forall r | r in Today(rows) :: r.day == rows[|rows| - 1].day
    ensures |Today(rows)| < |rows| ==> rows[|rows| - |Today(rows)| - 1].day != rows[|rows| - 1].day
  {
    if |rows| > 1 && rows[|rows| - 2].day == rows[|rows| - 1].day {
      TodayIs(rows[..|rows| - 1]);
    }
  }

  /** From a station without history, the occupancy is the walk over the current day's
      rows, whatever came before. */
  lemma {:induction false} OccupancyIsTodaysWalk(rows: seq<Row>)
    ensures After(Gauge(0.0, None), rows).occupancy == Walk(Today(rows))
    ensures rows != [] ==> After(Gauge(0.0, None), rows).lastDay == Some(rows[|rows| - 1].day)
  {
    if rows != [] {
      var g, r := rows[..|rows| - 1], rows[|rows| - 1];
      OccupancyIsTodaysWalk(g);
      assert Today([r]) == [r] && [r][..0] == [];
      if g != [] && g[|g| - 1].day == r.day {
        assert (Today(g) + [r])[..|Today(g)|] == Today(g);
      }
    }
  }

  /** In closed form. */
  lemma OccupancyClosedForm(rows: seq<Row>)
    ensures var day := Today(rows);
            && (forall k | 0 <= k <= |day| :: After(Gauge(0.0, None), rows).occupancy >= Sum(day) - Sum(day[..k]))
            && (exists k :: 0 <= k <= |day| && After(Gauge(0.0, None), rows).occupancy == Sum(day) - Sum(day[..k]))
  {
    OccupancyIsTodaysWalk(rows);
    WalkClosedForm(Today(rows));
  }

  // ---------- The seeding walk ----------

  /** The counts logged for one station's first day. */
  method SeedCounts(rows: seq<Row>) returns (counts: seq<int>)
    ensures |counts| == |rows|
    ensures forall i | 0 <= i < |rows| :: counts[i] == Round(Walk(rows[..i + 1]))
  {
    counts := [];
    var occupancy := 0.0;
    for i := 0 to |rows|
      invariant occupancy == Walk(rows[..i]) && |counts| == i
      invariant forall j | 0 <= j < i :: counts[j] == Round(Walk(rows[..j + 1]))
    {
      assert rows[..i + 1][..i] == rows[..i];
      occupancy := NonNegative(occupancy + rows[i].entries - rows[i].exits);
      counts := counts + [Round(occupancy)];
    }
  }

  lemma {:induction false} SameDayIsToday(rows: seq<Row>, day: int)
    requires forall i | 0 <= i < |rows| :: rows[i].day == day
    ensures Today(rows) == rows
  {
    if |rows| > 1 {
      var g, last := rows[..|rows| - 1], rows[|rows| - 1];
      assert rows == g + [last] && g[|g| - 1] == rows[|rows| - 2];
      SameDayIsToday(g, day);
    }
  }

  /** Replaying the day that was seeded gives the counts that were seeded. */
  lemma SeedAgrees(rows: seq<Row>, i: nat)
    requires i < |rows| && forall j | 0 <= j < |rows| :: rows[j].day == rows[0].day
    ensures Round(After(Gauge(0.0, None), rows[..i + 1]).occupancy) == Round(Walk(rows[..i + 1]))
  {
    OccupancyIsTodaysWalk(rows[..i + 1]);
    SameDayIsToday(rows[..i + 1], rows[0].day);
  }
}
