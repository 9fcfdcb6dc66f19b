/** The raw crowd log, its hourly roll-up and the traffic report that reads both
    (app/simulator/retention.py:20-85, app/services/analytics_service.py:48-91). */
module Compaction {
  import opened Arith

  const HOUR := 3_600_000

  type Station = int

  datatype Row = Row(id: int, station: Station, count: nat, at: int)

  datatype Key = Key(station: Station, hour: int)

  datatype Hourly = Hourly(avg: real, max: nat, min: nat, samples: nat)

  datatype State = State(raw: seq<Row>, hourly: map<Key, Hourly>)

  function HourOf(at: int): int { at / HOUR }

  function KeyOf(r: Row): Key { Key(r.station, HourOf(r.at)) }

  // ---------- Aggregates ----------

  /** Total, number and largest of some counts; the largest of none is 0. */
  datatype Stats = Stats(total: real, count: nat, peak: nat)

  const ZERO := Stats(0.0, 0, 0)

  function Plus(a: Stats, b: Stats): Stats { Stats(a.total + b.total, a.count + b.count, Max(a.peak, b.peak)) }

  function One(r: Row): Stats { Stats(r.count as real, 1, r.count) }

  function StatsOf(rows: seq<Row>, p: Row -> bool): Stats {
    if rows == [] then ZERO
    else Plus(StatsOf(rows[..|rows| - 1], p), if p(rows[|rows| - 1]) then One(rows[|rows| - 1]) else ZERO)
  }

  /** The smallest count, or `none` of none. */
  function LowOf(rows: seq<Row>, p: Row -> bool, none: nat): nat {
    if rows == [] then none
    else if !p(rows[|rows| - 1]) then LowOf(rows[..|rows| - 1], p, none)
    else Min(rows[|rows| - 1].count, LowOf(rows[..|rows| - 1], p, rows[|rows| - 1].count))
  }

  function Filter(rows: seq<Row>, p: Row -> bool): seq<Row> {
    if rows == [] then []
    else Filter(rows[..|rows| - 1], p) + (if p(rows[|rows| - 1]) then [rows[|rows| - 1]] else [])
  }

  function Hours(st: Station, lo: int, hi: int): Row -> bool { (r: Row) => r.station == st && lo <= HourOf(r.at) < hi }

  function Old(k: Key, cutoff: int): Row -> bool { (r: Row) => KeyOf(r) == k && r.at < cutoff }

  function Before(cutoff: int): Row -> bool { (r: Row) => r.at < cutoff }

  function From(cutoff: int): Row -> bool { (r: Row) => r.at >= cutoff }

  function Without(ids: set<int>): Row -> bool { (r: Row) => r.id !in ids }

  lemma {:induction false} StatsSplit(rows: seq<Row>, p: Row -> bool, q: Row -> bool, rest: Row -> bool)
    requires forall i | 0 <= i < |rows| :: (p(rows[i]) <==> q(rows[i]) || rest(rows[i])) && !(q(rows[i]) && rest(rows[i]))
    ensures StatsOf(rows, p) == Plus(StatsOf(rows, q), StatsOf(rows, rest))
  {
    if rows != [] { StatsSplit(rows[..|rows| - 1], p, q, rest); }
  }

  lemma {:induction false} StatsNone(rows: seq<Row>, p: Row -> bool)
    requires forall i | 0 <= i < |rows| :: !p(rows[i])
    ensures StatsOf(rows, p) == ZERO
  {
    if rows != [] { StatsNone(rows[..|rows| - 1], p); }
  }

  lemma {:induction false} StatsSome(rows: seq<Row>, p: Row -> bool, i: nat)
    requires i < |rows| && p(rows[i])
    ensures StatsOf(rows, p).count >= 1
  {
    if i < |rows| - 1 { StatsSome(rows[..|rows| - 1], p, i); }
  }

  lemma {:induction false} StatsFiltered(rows: seq<Row>, keep: Row -> bool, p: Row -> bool, both: Row -> bool)
    requires forall i | 0 <= i < |rows| :: both(rows[i]) <==> keep(rows[i]) && p(rows[i])
    ensures StatsOf(Filter(rows, keep), p) == StatsOf(rows, both)
  {
    if rows != [] {
      var g, last := rows[..|rows| - 1], rows[|rows| - 1];
      StatsFiltered(g, keep, p, both);
      assert Filter(rows, keep) == if keep(last) then Filter(g, keep) + [last] else Filter(g, keep);
      assert (Filter(g, keep) + [last])[..|Filter(g, keep)|] == Filter(g, keep);
    }
  }

  lemma {:induction false} Filtered(rows: seq<Row>, p: Row -> bool)
    ensures forall r :: r in Filter(rows, p) <==> r in rows && p(r)
  {
    if rows != [] {
      Filtered(rows[..|rows| - 1], p);
      assert rows == rows[..|rows| - 1] + [rows[|rows| - 1]];
    }
  }

  lemma {:induction false} StatsAgree(rows: seq<Row>, p: Row -> bool, q: Row -> bool)
    requires forall i | 0 <= i < |rows| :: p(rows[i]) <==> q(rows[i])
    ensures StatsOf(rows, p) == StatsOf(rows, q)
  {
    if rows != [] { StatsAgree(rows[..|rows| - 1], p, q); }
  }

  // ---------- The roll-up ----------

  /** The buckets with something to roll up. */
  ghost function Rolled(rows: seq<Row>, cutoff: int): set<Key> {
    set i | 0 <= i < |rows| && rows[i].at < cutoff :: KeyOf(rows[i])
  }

  function HourlyOf(rows: seq<Row>, k: Key, cutoff: int): Hourly {
    var s := StatsOf(rows, Old(k, cutoff));
    Hourly(if s.count == 0 then 0.0 else s.total / s.count as real, s.peak, LowOf(rows, Old(k, cutoff), 0), s.count)
  }

  lemma {:induction false} PeakBounds(rows: seq<Row>, p: Row -> bool, i: nat)
    requires i < |rows| && p(rows[i])
    ensures rows[i].count <= StatsOf(rows, p).peak
  {
    if i < |rows| - 1 { PeakBounds(rows[..|rows| - 1], p, i); }
  }

  ghost predicate Attains(rows: seq<Row>, p: Row -> bool, n: nat) {
    exists i :: 0 <= i < |rows| && p(rows[i]) && rows[i].count == n
  }

  lemma AttainsSnoc(g: seq<Row>, last: Row, p: Row -> bool, n: nat)
    requires Attains(g, p, n) || (p(last) && last.count == n)
    ensures Attains(g + [last], p, n)
  {
    var rows := g + [last];
    if Attains(g, p, n) {
      var i :| 0 <= i < |g| && p(g[i]) && g[i].count == n;
      assert rows[i] == g[i];
    } else {
      assert rows[|g|] == last;
    }
  }

  lemma {:induction false} PeakAttained(rows: seq<Row>, p: Row -> bool)
    requires StatsOf(rows, p).count >= 1
    ensures Attains(rows, p, StatsOf(rows, p).peak)
  {
    var g, last := rows[..|rows| - 1], rows[|rows| - 1];
    assert rows == g + [last];
    if StatsOf(g, p).count == 0 { StatsEmpty(g, p); }
    PeakSnoc(rows, p);
    PeakFrom(StatsOf(rows, p), StatsOf(g, p), last, p(last));
    if StatsOf(g, p).count >= 1 { PeakAttained(g, p); }
    AttainsSnoc(g, last, p, StatsOf(rows, p).peak);
  }

  lemma PeakFrom(s: Stats, t: Stats, r: Row, taken: bool)
    requires s == Plus(t, if taken then One(r) else ZERO) && s.count >= 1 && (t.count == 0 ==> t == ZERO)
    ensures (t.count >= 1 && s.peak == t.peak) || (taken && s.peak == r.count)
  {
  }

  lemma PeakSnoc(rows: seq<Row>, p: Row -> bool)
    requires rows != []
    ensures StatsOf(rows, p) == Plus(StatsOf(rows[..|rows| - 1], p), if p(rows[|rows| - 1]) then One(rows[|rows| - 1]) else ZERO)
  {
  }

  lemma {:induction false} StatsEmpty(rows: seq<Row>, p: Row -> bool)
    requires StatsOf(rows, p).count == 0
    ensures StatsOf(rows, p) == ZERO
  {
    if rows != [] { StatsEmpty(rows[..|rows| - 1], p); }
  }

  lemma {:induction false} LowIs(rows: seq<Row>, p: Row -> bool, none: nat)
    ensures forall i | 0 <= i < |rows| && p(rows[i]) :: LowOf(rows, p, none) <= rows[i].count
    ensures LowOf(rows, p, none) == none || exists i :: 0 <= i < |rows| && p(rows[i]) && rows[i].count == LowOf(rows, p, none)
    ensures (exists i :: 0 <= i < |rows| && p(rows[i])) ==>
              exists i :: 0 <= i < |rows| && p(rows[i]) && rows[i].count == LowOf(rows, p, none)
  {
    if rows != [] {
      var g, last := rows[..|rows| - 1], rows[|rows| - 1];
      assert forall i | 0 <= i < |g| :: rows[i] == g[i];
      LowIs(g, p, if p(last) then last.count else none);
    }
  }

  /** An hourly row keeps the largest and the smallest of the counts it stands for. */
  lemma HourlyExtremes(rows: seq<Row>, k: Key, cutoff: int)
    requires k in Rolled(rows, cutoff)
    ensures var h := HourlyOf(rows, k, cutoff);
            && (forall i | 0 <= i < |rows| && Old(k, cutoff)(rows[i]) :: h.min <= rows[i].count <= h.max)
            && (exists i :: 0 <= i < |rows| && Old(k, cutoff)(rows[i]) && rows[i].count == h.max)
            && (exists i :: 0 <= i < |rows| && Old(k, cutoff)(rows[i]) && rows[i].count == h.min)
  {
    RolledHas(rows, cutoff, k);
    forall i | 0 <= i < |rows| && Old(k, cutoff)(rows[i]) ensures rows[i].count <= StatsOf(rows, Old(k, cutoff)).peak {
      PeakBounds(rows, Old(k, cutoff), i);
    }
    PeakAttained(rows, Old(k, cutoff));
    assert Attains(rows, Old(k, cutoff), StatsOf(rows, Old(k, cutoff)).peak);
    LowIs(rows, Old(k, cutoff), 0);
  }

  /** What the report reads off an hourly row. */
  function StatsIn(h: Hourly): Stats { Stats(h.avg * h.samples as real, h.samples, h.max) }

  lemma HourlyIsExact(rows: seq<Row>, k: Key, cutoff: int)
    requires StatsOf(rows, Old(k, cutoff)).count >= 1
    ensures StatsIn(HourlyOf(rows, k, cutoff)) == StatsOf(rows, Old(k, cutoff))
  {
    var s := StatsOf(rows, Old(k, cutoff));
    Quotient(s.total, s.count as real);
  }

  lemma Quotient(a: real, b: real)
    requires b > 0.0
    ensures a / b * b == a
  {
  }

  /** Some of the buckets written; a row already there is overwritten. */
  ghost function Upsert(s: State, keys: set<Key>, cutoff: int): State {
    s.(hourly := map k | k in s.hourly.Keys + keys :: if k in keys then HourlyOf(s.raw, k, cutoff) else s.hourly[k])
  }

  /** One full pass. */
  ghost function Pass(s: State, cutoff: int): State {
    State(Filter(s.raw, From(cutoff)), Upsert(s, Rolled(s.raw, cutoff), cutoff).hourly)
  }

  // ---------- What a pass owes, spelled out ----------

  /** A row a pass rolls up into the bucket: older than the cutoff, at the station, in the hour
      that starts `hour` whole hours after the epoch. */
  predicate RolledInto(r: Row, k: Key, cutoff: int) {
    r.station == k.station && r.at < cutoff && k.hour * 3_600_000 <= r.at < k.hour * 3_600_000 + 3_600_000
  }

  ghost function Places(rows: seq<Row>, k: Key, cutoff: int): set<int> {
    set i | 0 <= i < |rows| && RolledInto(rows[i], k, cutoff)
  }

  ghost function Total(rows: seq<Row>, k: Key, cutoff: int): int {
    if rows == [] then 0
    else Total(rows[..|rows| - 1], k, cutoff) + if RolledInto(rows[|rows| - 1], k, cutoff) then rows[|rows| - 1].count else 0
  }

  lemma RolledIntoIs(r: Row, k: Key, cutoff: int)
    ensures RolledInto(r, k, cutoff) <==> Old(k, cutoff)(r)
  {
    HourBounds(r.at);
  }

  lemma PlacesNext(rows: seq<Row>, k: Key, cutoff: int)
    requires rows != []
    ensures |Places(rows, k, cutoff)| ==
            |Places(rows[..|rows| - 1], k, cutoff)| + if RolledInto(rows[|rows| - 1], k, cutoff) then 1 else 0
  {
    var g, last := rows[..|rows| - 1], |rows| - 1;
    var before, after := Places(g, k, cutoff), Places(rows, k, cutoff);
    assert last !in before;
    assert after == before + if RolledInto(rows[last], k, cutoff) then {last} else {};
  }

  lemma {:induction false} CountIs(rows: seq<Row>, k: Key, cutoff: int)
    ensures StatsOf(rows, Old(k, cutoff)).count == |Places(rows, k, cutoff)|
  {
    if rows != [] {
      CountIs(rows[..|rows| - 1], k, cutoff);
      RolledIntoIs(rows[|rows| - 1], k, cutoff);
      PlacesNext(rows, k, cutoff);
    }
  }

  lemma {:induction false} TotalIs(rows: seq<Row>, k: Key, cutoff: int)
    ensures StatsOf(rows, Old(k, cutoff)).total == Total(rows, k, cutoff) as real
  {
    if rows != [] {
      TotalIs(rows[..|rows| - 1], k, cutoff);
      RolledIntoIs(rows[|rows| - 1], k, cutoff);
    }
  }

  /** The row stands for exactly the rolled-up rows: their number, average, peak and low. */
  ghost predicate Summarises(h: Hourly, rows: seq<Row>, k: Key, cutoff: int) {
    && h.samples == |Places(rows, k, cutoff)| && h.avg * h.samples as real == Total(rows, k, cutoff) as real
    && (forall i | i in Places(rows, k, cutoff) :: h.min <= rows[i].count <= h.max)
    && (exists i :: i in Places(rows, k, cutoff) && rows[i].count == h.max)
    && (exists i :: i in Places(rows, k, cutoff) && rows[i].count == h.min)
  }

  lemma HourlySummarises(rows: seq<Row>, k: Key, cutoff: int)
    requires k in Rolled(rows, cutoff)
    ensures Summarises(HourlyOf(rows, k, cutoff), rows, k, cutoff)
  {
    forall i | 0 <= i < |rows| ensures i in Places(rows, k, cutoff) <==> Old(k, cutoff)(rows[i]) {
      RolledIntoIs(rows[i], k, cutoff);
    }
    HourlyExtremes(rows, k, cutoff);
    RolledHas(rows, cutoff, k);
    HourlyIsExact(rows, k, cutoff);
    CountIs(rows, k, cutoff);
    TotalIs(rows, k, cutoff);
  }

  lemma RolledIsPlaces(rows: seq<Row>, k: Key, cutoff: int)
    ensures k in Rolled(rows, cutoff) <==> Places(rows, k, cutoff) != {}
  {
    forall i | 0 <= i < |rows| ensures i in Places(rows, k, cutoff) <==> Old(k, cutoff)(rows[i]) {
      RolledIntoIs(rows[i], k, cutoff);
    }
    if k in Rolled(rows, cutoff) {
      var i :| 0 <= i < |rows| && rows[i].at < cutoff && KeyOf(rows[i]) == k;
      assert i in Places(rows, k, cutoff);
    }
  }

  /** A pass keeps exactly the rows from the cutoff on, writes exactly the buckets with older
      ones, and leaves the other hourly rows alone. */
  lemma PassExactly(s: State, cutoff: int, k: Key)
    ensures forall r :: r in Pass(s, cutoff).raw <==> r in s.raw && r.at >= cutoff
    ensures k in Pass(s, cutoff).hourly <==> k in s.hourly || Places(s.raw, k, cutoff) != {}
    ensures Places(s.raw, k, cutoff) != {} ==> Summarises(Pass(s, cutoff).hourly[k], s.raw, k, cutoff)
    ensures Places(s.raw, k, cutoff) == {} && k in s.hourly ==> Pass(s, cutoff).hourly[k] == s.hourly[k]
  {
    Filtered(s.raw, From(cutoff));
    RolledIsPlaces(s.raw, k, cutoff);
    if k in Rolled(s.raw, cutoff) {
      HourlySummarises(s.raw, k, cutoff);
    }
  }

  // ---------- The report ----------

  function At(hourly: map<Key, Hourly>, k: Key): Stats { if k in hourly then StatsIn(hourly[k]) else ZERO }

  function HourlyStats(hourly: map<Key, Hourly>, st: Station, lo: int, hi: int): Stats
    decreases hi - lo
  {
    if hi <= lo then ZERO else Plus(HourlyStats(hourly, st, lo, hi - 1), At(hourly, Key(st, hi - 1)))
  }

  /** One station's line for the hours lo..hi. */
  function Report(s: State, st: Station, lo: int, hi: int): Stats {
    Plus(StatsOf(s.raw, Hours(st, lo, hi)), HourlyStats(s.hourly, st, lo, hi))
  }

  ghost predicate SameReports(s: State, t: State) {
    forall st, lo, hi :: Report(s, st, lo, hi) == Report(t, st, lo, hi)
  }

  /** One bucket's share of every report that covers it. */
  function Share(s: State, k: Key): Stats { Plus(StatsOf(s.raw, InBucket(k)), At(s.hourly, k)) }

  function InBucket(k: Key): Row -> bool { (r: Row) => KeyOf(r) == k }

  lemma ShareIsReport(s: State, k: Key)
    ensures Report(s, k.station, k.hour, k.hour + 1) == Share(s, k)
  {
    StatsAgree(s.raw, Hours(k.station, k.hour, k.hour + 1), InBucket(k));
    assert HourlyStats(s.hourly, k.station, k.hour, k.hour) == ZERO;
  }

  lemma ReportSplits(s: State, st: Station, lo: int, hi: int)
    requires lo < hi
    ensures Report(s, st, lo, hi) == Plus(Report(s, st, lo, hi - 1), Share(s, Key(st, hi - 1)))
  {
    StatsSplit(s.raw, Hours(st, lo, hi), Hours(st, lo, hi - 1), InBucket(Key(st, hi - 1)));
  }

  lemma {:induction false} SameShares(s: State, t: State, st: Station, lo: int, hi: int)
    requires forall k: Key :: Share(s, k) == Share(t, k)
    ensures Report(s, st, lo, hi) == Report(t, st, lo, hi)
    decreases hi - lo
  {
    if lo < hi {
      ReportSplits(s, st, lo, hi);
      ReportSplits(t, st, lo, hi);
      SameShares(s, t, st, lo, hi - 1);
    } else {
      StatsNone(s.raw, Hours(st, lo, hi));
      StatsNone(t.raw, Hours(st, lo, hi));
    }
  }

  /** All reports agree exactly when every bucket's share does. */
  lemma ReportsAreShares(s: State, t: State)
    ensures SameReports(s, t) <==> forall k: Key :: Share(s, k) == Share(t, k)
  {
    if forall k: Key :: Share(s, k) == Share(t, k) {
      forall st, lo, hi ensures Report(s, st, lo, hi) == Report(t, st, lo, hi) { SameShares(s, t, st, lo, hi); }
    }
    if SameReports(s, t) {
      forall k: Key ensures Share(s, k) == Share(t, k) {
        ShareIsReport(s, k);
        ShareIsReport(t, k);
        assert Report(s, k.station, k.hour, k.hour + 1) == Report(t, k.station, k.hour, k.hour + 1);
      }
    }
  }

  // ---------- What a pass does to the reports ----------

  ghost predicate Sampled(s: State) { forall k | k in s.hourly :: s.hourly[k].samples >= 1 }

  lemma RolledHas(rows: seq<Row>, cutoff: int, k: Key)
    ensures k in Rolled(rows, cutoff) <==> StatsOf(rows, Old(k, cutoff)).count >= 1
    ensures k !in Rolled(rows, cutoff) ==> StatsOf(rows, Old(k, cutoff)) == ZERO
  {
    if k in Rolled(rows, cutoff) {
      var i :| 0 <= i < |rows| && rows[i].at < cutoff && KeyOf(rows[i]) == k;
      StatsSome(rows, Old(k, cutoff), i);
    } else {
      StatsNone(rows, Old(k, cutoff));
    }
  }

  function Recent(k: Key, cutoff: int): Row -> bool { (r: Row) => KeyOf(r) == k && r.at >= cutoff }

  lemma RawAfter(s: State, cutoff: int, k: Key)
    ensures StatsOf(s.raw, InBucket(k)) == Plus(StatsOf(s.raw, Old(k, cutoff)), StatsOf(Pass(s, cutoff).raw, InBucket(k)))
  {
    StatsSplit(s.raw, InBucket(k), Old(k, cutoff), Recent(k, cutoff));
    StatsFiltered(s.raw, From(cutoff), InBucket(k), Recent(k, cutoff));
  }

  lemma HourlyAfter(s: State, cutoff: int, k: Key)
    ensures At(Pass(s, cutoff).hourly, k) ==
            if k in Rolled(s.raw, cutoff) then StatsOf(s.raw, Old(k, cutoff)) else At(s.hourly, k)
    ensures k !in Rolled(s.raw, cutoff) ==> StatsOf(s.raw, Old(k, cutoff)) == ZERO
  {
    RolledHas(s.raw, cutoff, k);
    if k in Rolled(s.raw, cutoff) {
      HourlyIsExact(s.raw, k, cutoff);
      assert Pass(s, cutoff).hourly[k] == HourlyOf(s.raw, k, cutoff);
    }
  }

  lemma Regroup(rolled: Stats, recent: Stats, hourly: Stats)
    ensures Plus(Plus(recent, rolled), hourly) == Plus(Plus(rolled, recent), hourly)
    ensures Plus(Plus(ZERO, recent), hourly) == Plus(recent, hourly) == Plus(Plus(recent, hourly), ZERO)
  {
  }

  /** A pass moves the old rows of a bucket into its hourly row, and what the hourly row held
      is gone. */
  lemma ShareAfter(s: State, cutoff: int, k: Key)
    ensures Plus(Share(Pass(s, cutoff), k), if k in Rolled(s.raw, cutoff) then At(s.hourly, k) else ZERO) == Share(s, k)
  {
    RawAfter(s, cutoff, k);
    HourlyAfter(s, cutoff, k);
    Regroup(StatsOf(s.raw, Old(k, cutoff)), StatsOf(Pass(s, cutoff).raw, InBucket(k)), At(s.hourly, k));
  }

  lemma OnlyZeroVanishes(a: Stats, b: Stats)
    ensures Plus(a, ZERO) == a && (b.count >= 1 ==> Plus(a, b) != a)
  {
  }

  lemma ShareKept(s: State, cutoff: int, k: Key)
    requires Sampled(s)
    ensures Share(s, k) == Share(Pass(s, cutoff), k) <==> (k in Rolled(s.raw, cutoff) ==> k !in s.hourly)
  {
    ShareAfter(s, cutoff, k);
    OnlyZeroVanishes(Share(Pass(s, cutoff), k), At(s.hourly, k));
  }

  /** No bucket to be rolled up has an hourly row already. */
  ghost predicate NoClash(s: State, cutoff: int) {
    forall k | k in Rolled(s.raw, cutoff) :: k !in s.hourly
  }

  /** A pass leaves every report over whole hours as it was exactly when it overwrites
      nothing; the cutoff itself need not be a whole hour. */
  lemma PassKeepsExactly(s: State, cutoff: int)
    requires Sampled(s)
    ensures SameReports(s, Pass(s, cutoff)) <==> NoClash(s, cutoff)
  {
    ReportsAreShares(s, Pass(s, cutoff));
    forall k: Key
      ensures Share(s, k) == Share(Pass(s, cutoff), k) <==> (k in Rolled(s.raw, cutoff) ==> k !in s.hourly)
    {
      ShareKept(s, cutoff, k);
    }
  }

  /** Between the roll-up and the delete every rolled-up row is counted twice. */
  lemma MidPassCountsTwice(s: State, cutoff: int, k: Key)
    requires NoClash(s, cutoff)
    ensures Share(Upsert(s, Rolled(s.raw, cutoff), cutoff), k) == Plus(Share(s, k), StatsOf(s.raw, Old(k, cutoff)))
  {
    RolledHas(s.raw, cutoff, k);
    if k in Rolled(s.raw, cutoff) {
      HourlyIsExact(s.raw, k, cutoff);
    }
  }

  // ---------- Pass after pass ----------

  /** All hourly rows lie before `cutoff` and all raw rows at or after it. */
  ghost predicate Settled(s: State, cutoff: int) {
    && (forall k | k in s.hourly :: (k.hour + 1) * HOUR <= cutoff)
    && (forall i | 0 <= i < |s.raw| :: s.raw[i].at >= cutoff)
  }

  lemma HourBounds(at: int)
    ensures HourOf(at) * HOUR <= at < (HourOf(at) + 1) * HOUR
  {
  }

  /** With whole-hour cutoffs that never go back, and no row arriving from before the last
      cutoff, every pass keeps the reports and prepares the next. */
  lemma AlignedPassesKeep(s: State, last: int, hours: int)
    requires Sampled(s) && Settled(s, last) && last <= hours * HOUR
    ensures SameReports(s, Pass(s, hours * HOUR)) && Settled(Pass(s, hours * HOUR), hours * HOUR) && Sampled(Pass(s, hours * HOUR))
  {
    var cutoff := hours * HOUR;
    forall k | k in Rolled(s.raw, cutoff)
      ensures k !in s.hourly && (k.hour + 1) * HOUR <= cutoff && HourlyOf(s.raw, k, cutoff).samples >= 1
    {
      var i :| 0 <= i < |s.raw| && s.raw[i].at < cutoff && KeyOf(s.raw[i]) == k;
      HourBounds(s.raw[i].at);
      RolledHas(s.raw, cutoff, k);
    }
    PassKeepsExactly(s, cutoff);
    Filtered(s.raw, From(cutoff));
    forall i | 0 <= i < |Pass(s, cutoff).raw| ensures Pass(s, cutoff).raw[i].at >= cutoff {
      assert Pass(s, cutoff).raw[i] in Pass(s, cutoff).raw;
    }
  }

  /** A row between the two cutoffs shares its bucket with a row before the first, or with an
      hourly row. */
  ghost predicate Straddles(s: State, first: int, second: int) {
    exists k :: (k in Rolled(s.raw, first) || k in s.hourly) && k in Rolled(Filter(s.raw, From(first)), second)
  }

  lemma LaterRows(rows: seq<Row>, first: int, second: int, k: Key)
    ensures k in Rolled(Filter(rows, From(first)), second) <==>
            exists i :: 0 <= i < |rows| && first <= rows[i].at < second && KeyOf(rows[i]) == k
  {
    Filtered(rows, From(first));
    var late := Filter(rows, From(first));
    if i :| 0 <= i < |rows| && first <= rows[i].at < second && KeyOf(rows[i]) == k {
      assert rows[i] in late;
      var n :| 0 <= n < |late| && late[n] == rows[i];
    }
    if k in Rolled(late, second) {
      var n :| 0 <= n < |late| && late[n].at < second && KeyOf(late[n]) == k;
      assert late[n] in rows;
    }
  }

  /** A second pass keeps the reports of the first exactly when no row between the two cutoffs
      shares a bucket with a row the first one rolled up or with an hourly row. */
  lemma SecondPassKeepsExactly(s: State, first: int, second: int)
    requires Sampled(s)
    ensures SameReports(Pass(s, first), Pass(Pass(s, first), second)) <==> !Straddles(s, first, second)
  {
    var mid := Pass(s, first);
    forall k | k in mid.hourly ensures mid.hourly[k].samples >= 1 { RolledHas(s.raw, first, k); }
    PassKeepsExactly(mid, second);
    assert mid.hourly.Keys == Rolled(s.raw, first) + s.hourly.Keys;
  }

  // ---------- Crashes ----------

  lemma RolledGrows(rows: seq<Row>, a: int, b: int)
    requires a <= b
    ensures Rolled(rows, a) <= Rolled(rows, b)
  {
  }

  /** After a crash among the upserts, whatever pages were written, a pass then or later ends
      where it would have ended without them. */
  lemma RerunAfterUpserts(s: State, keys: set<Key>, cutoff: int, again: int)
    requires keys <= Rolled(s.raw, cutoff) && cutoff <= again
    ensures Pass(Upsert(s, keys, cutoff), again) == Pass(s, again)
  {
    RolledGrows(s.raw, cutoff, again);
    var a, b := Pass(Upsert(s, keys, cutoff), again).hourly, Pass(s, again).hourly;
    assert a.Keys == b.Keys;
    assert forall k | k in a :: a[k] == b[k];
  }

  /** Stopped among the deletes: all buckets written, the rows `gone` deleted. */
  ghost function HalfDone(s: State, cutoff: int, gone: set<int>): State {
    State(Filter(s.raw, Without(gone)), Upsert(s, Rolled(s.raw, cutoff), cutoff).hourly)
  }

  /** Some old rows of the bucket are deleted and some are not. */
  ghost predicate TornAt(s: State, again: int, gone: set<int>, k: Key) {
    exists i, j :: 0 <= i < |s.raw| && 0 <= j < |s.raw| && KeyOf(s.raw[i]) == k && KeyOf(s.raw[j]) == k &&
      s.raw[i].id in gone && s.raw[j].id !in gone && s.raw[j].at < again
  }

  lemma {:induction false} StatsBelow(rows: seq<Row>, p: Row -> bool, q: Row -> bool)
    requires forall i | 0 <= i < |rows| :: p(rows[i]) ==> q(rows[i])
    ensures StatsOf(rows, p).count <= StatsOf(rows, q).count
  {
    if rows != [] { StatsBelow(rows[..|rows| - 1], p, q); }
  }

  lemma {:induction false} StatsLess(rows: seq<Row>, p: Row -> bool, q: Row -> bool, i: nat)
    requires forall i | 0 <= i < |rows| :: p(rows[i]) ==> q(rows[i])
    requires i < |rows| && q(rows[i]) && !p(rows[i])
    ensures StatsOf(rows, p).count < StatsOf(rows, q).count
  {
    if i < |rows| - 1 {
      StatsLess(rows[..|rows| - 1], p, q, i);
    } else {
      StatsBelow(rows[..|rows| - 1], p, q);
    }
  }

  function Left(k: Key, again: int, gone: set<int>): Row -> bool {
    (r: Row) => KeyOf(r) == k && r.at < again && r.id !in gone
  }

  lemma LeftOver(s: State, again: int, gone: set<int>, k: Key)
    ensures StatsOf(Filter(s.raw, Without(gone)), Old(k, again)) == StatsOf(s.raw, Left(k, again, gone))
  {
    StatsFiltered(s.raw, Without(gone), Old(k, again), Left(k, again, gone));
  }

  /** What the second try leaves of a bucket's old rows and of its hourly row. */
  ghost function Kept(s: State, cutoff: int, again: int, gone: set<int>, k: Key, hourly: Stats): Stats {
    var left := StatsOf(s.raw, Left(k, again, gone));
    if left.count >= 1 then left
    else if StatsOf(s.raw, Old(k, cutoff)).count >= 1 then StatsOf(s.raw, Old(k, cutoff))
    else hourly
  }

  /** `gone` are rows the first try was to delete. */
  ghost predicate AreOld(s: State, cutoff: int, gone: set<int>) {
    forall i | 0 <= i < |s.raw| && s.raw[i].id in gone :: s.raw[i].at < cutoff
  }

  lemma HourlyAfterRetry(s: State, cutoff: int, again: int, gone: set<int>, k: Key)
    ensures At(Pass(HalfDone(s, cutoff, gone), again).hourly, k) == Kept(s, cutoff, again, gone, k, At(s.hourly, k))
  {
    var h := HalfDone(s, cutoff, gone);
    HourlyAfter(h, again, k);
    LeftOver(s, again, gone, k);
    RolledHas(h.raw, again, k);
    RolledHas(s.raw, cutoff, k);
    if k in Rolled(s.raw, cutoff) { HourlyIsExact(s.raw, k, cutoff); }
  }

  lemma RecentAfterRetry(s: State, cutoff: int, again: int, gone: set<int>, k: Key)
    requires cutoff <= again && AreOld(s, cutoff, gone)
    ensures StatsOf(Pass(HalfDone(s, cutoff, gone), again).raw, InBucket(k)) == StatsOf(s.raw, Recent(k, again))
  {
    var h := HalfDone(s, cutoff, gone);
    StatsFiltered(h.raw, From(again), InBucket(k), Recent(k, again));
    StatsFiltered(s.raw, Without(gone), Recent(k, again), Recent(k, again));
  }

  /** The share of a bucket after the second try: from its remaining old rows if there are any,
      else from the first try's hourly row, else as before. */
  lemma ShareAfterRetry(s: State, cutoff: int, again: int, gone: set<int>, k: Key)
    requires cutoff <= again && AreOld(s, cutoff, gone)
    ensures Share(Pass(HalfDone(s, cutoff, gone), again), k) == Plus(StatsOf(s.raw, Recent(k, again)), Kept(s, cutoff, again, gone, k, At(s.hourly, k)))
  {
    HourlyAfterRetry(s, cutoff, again, gone, k);
    RecentAfterRetry(s, cutoff, again, gone, k);
  }

  lemma TornLoses(s: State, cutoff: int, again: int, gone: set<int>, k: Key, hourly: Stats)
    requires TornAt(s, again, gone, k) && cutoff <= again && AreOld(s, cutoff, gone)
    ensures Kept(s, cutoff, again, gone, k, hourly).count < StatsOf(s.raw, Old(k, again)).count
  {
    var i, j :| 0 <= i < |s.raw| && 0 <= j < |s.raw| && KeyOf(s.raw[i]) == k && KeyOf(s.raw[j]) == k &&
      s.raw[i].id in gone && s.raw[j].id !in gone && s.raw[j].at < again;
    StatsSome(s.raw, Left(k, again, gone), j);
    StatsLess(s.raw, Left(k, again, gone), Old(k, again), i);
  }

  lemma NoneGone(s: State, again: int, gone: set<int>, k: Key)
    requires !TornAt(s, again, gone, k) && StatsOf(s.raw, Left(k, again, gone)).count >= 1
    ensures StatsOf(s.raw, Left(k, again, gone)) == StatsOf(s.raw, Old(k, again))
  {
    SomeLeft(s.raw, Left(k, again, gone));
    StatsAgree(s.raw, Left(k, again, gone), Old(k, again));
  }

  lemma NoneLeftOver(s: State, cutoff: int, again: int, gone: set<int>, k: Key)
    requires AreOld(s, cutoff, gone) && cutoff <= again && StatsOf(s.raw, Left(k, again, gone)).count == 0
    ensures StatsOf(s.raw, Old(k, cutoff)) == StatsOf(s.raw, Old(k, again))
  {
    NoneLeft(s.raw, Left(k, again, gone));
    StatsAgree(s.raw, Old(k, cutoff), Old(k, again));
  }

  lemma ClashLosesInRetry(s: State, cutoff: int, again: int, gone: set<int>, k: Key, hourly: Stats)
    requires cutoff <= again && AreOld(s, cutoff, gone) && StatsOf(s.raw, Old(k, again)).count >= 1
    ensures Kept(s, cutoff, again, gone, k, hourly).count <= StatsOf(s.raw, Old(k, again)).count
  {
    StatsBelow(s.raw, Left(k, again, gone), Old(k, again));
    if StatsOf(s.raw, Left(k, again, gone)).count == 0 {
      NoneLeftOver(s, cutoff, again, gone, k);
    }
  }

  /** A bucket with all its old rows or none keeps them, else its hourly row. */
  lemma WholeKeeps(s: State, cutoff: int, again: int, gone: set<int>, k: Key, hourly: Stats)
    requires cutoff <= again && AreOld(s, cutoff, gone)
    requires StatsOf(s.raw, Left(k, again, gone)).count >= 1 ==> StatsOf(s.raw, Left(k, again, gone)) == StatsOf(s.raw, Old(k, again))
    ensures Kept(s, cutoff, again, gone, k, hourly) ==
            if StatsOf(s.raw, Old(k, again)).count >= 1 then StatsOf(s.raw, Old(k, again)) else hourly
  {
    if StatsOf(s.raw, Left(k, again, gone)).count == 0 {
      NoneLeftOver(s, cutoff, again, gone, k);
    }
  }

  lemma Balances(recent: Stats, all: Stats, hourly: Stats)
    requires if all.count >= 1 then hourly == ZERO else all == ZERO
    ensures Plus(recent, if all.count >= 1 then all else hourly) == Plus(Plus(all, recent), hourly)
  {
  }

  lemma Falls(recent: Stats, all: Stats, hourly: Stats, kept: Stats)
    requires kept.count < all.count + hourly.count
    ensures Plus(recent, kept) != Plus(Plus(all, recent), hourly)
  {
  }

  lemma RetryLoses(s: State, cutoff: int, again: int, gone: set<int>, k: Key)
    requires Sampled(s) && cutoff <= again && AreOld(s, cutoff, gone)
    requires TornAt(s, again, gone, k) || (StatsOf(s.raw, Old(k, again)).count >= 1 && k in s.hourly)
    ensures Kept(s, cutoff, again, gone, k, At(s.hourly, k)).count < StatsOf(s.raw, Old(k, again)).count + At(s.hourly, k).count
  {
    if TornAt(s, again, gone, k) {
      TornLoses(s, cutoff, again, gone, k, At(s.hourly, k));
    } else {
      ClashLosesInRetry(s, cutoff, again, gone, k, At(s.hourly, k));
    }
  }

  lemma RetryKeeps(s: State, cutoff: int, again: int, gone: set<int>, k: Key)
    requires cutoff <= again && AreOld(s, cutoff, gone)
    requires !TornAt(s, again, gone, k) && (StatsOf(s.raw, Old(k, again)).count >= 1 ==> k !in s.hourly)
    ensures Plus(StatsOf(s.raw, Recent(k, again)), Kept(s, cutoff, again, gone, k, At(s.hourly, k))) ==
            Plus(Plus(StatsOf(s.raw, Old(k, again)), StatsOf(s.raw, Recent(k, again))), At(s.hourly, k))
  {
    if StatsOf(s.raw, Left(k, again, gone)).count >= 1 { NoneGone(s, again, gone, k); }
    WholeKeeps(s, cutoff, again, gone, k, At(s.hourly, k));
    if StatsOf(s.raw, Old(k, again)).count == 0 { StatsEmpty(s.raw, Old(k, again)); }
    Balances(StatsOf(s.raw, Recent(k, again)), StatsOf(s.raw, Old(k, again)), At(s.hourly, k));
  }

  lemma RetryShare(s: State, cutoff: int, again: int, gone: set<int>, k: Key)
    requires Sampled(s) && cutoff <= again && AreOld(s, cutoff, gone)
    ensures Share(s, k) == Share(Pass(HalfDone(s, cutoff, gone), again), k) <==> Whole(s, again, gone)(k)
  {
    RolledHas(s.raw, again, k);
    ShareAfterRetry(s, cutoff, again, gone, k);
    StatsSplit(s.raw, InBucket(k), Old(k, again), Recent(k, again));
    if Whole(s, again, gone)(k) {
      RetryKeeps(s, cutoff, again, gone, k);
    } else {
      RetryLoses(s, cutoff, again, gone, k);
      Falls(StatsOf(s.raw, Recent(k, again)), StatsOf(s.raw, Old(k, again)), At(s.hourly, k),
            Kept(s, cutoff, again, gone, k, At(s.hourly, k)));
    }
  }

  /** Not deleted in part, and with no hourly row to overwrite. */
  ghost function Whole(s: State, again: int, gone: set<int>): Key -> bool {
    (k: Key) => !TornAt(s, again, gone, k) && !(k in Rolled(s.raw, again) && k in s.hourly)
  }

  lemma SameWhere(s: State, t: State, whole: Key -> bool)
    requires forall k: Key :: Share(s, k) == Share(t, k) <==> whole(k)
    ensures SameReports(s, t) <==> forall k: Key :: whole(k)
  {
    ReportsAreShares(s, t);
  }

  /** A crash among the deletes, followed by another pass, loses nothing exactly when no
      bucket was deleted in part and the pass overwrites no hourly row of before the crash. */
  lemma RetryAfterDeletesExactly(s: State, cutoff: int, again: int, gone: set<int>)
    requires Sampled(s) && cutoff <= again && AreOld(s, cutoff, gone)
    ensures SameReports(s, Pass(HalfDone(s, cutoff, gone), again)) <==>
            NoClash(s, again) && forall k: Key :: !TornAt(s, again, gone, k)
  {
    var t := Pass(HalfDone(s, cutoff, gone), again);
    forall k: Key
      ensures Share(s, k) == Share(t, k) <==> Whole(s, again, gone)(k)
    {
      RetryShare(s, cutoff, again, gone, k);
    }
    SameWhere(s, t, Whole(s, again, gone));
    WholeEverywhere(s, again, gone);
  }

  lemma WholeEverywhere(s: State, again: int, gone: set<int>)
    ensures (forall k: Key :: Whole(s, again, gone)(k)) <==> NoClash(s, again) && forall k: Key :: !TornAt(s, again, gone, k)
  {
    if forall k: Key :: Whole(s, again, gone)(k) {
      forall k: Key ensures !TornAt(s, again, gone, k) && (k in Rolled(s.raw, again) ==> k !in s.hourly) {
        assert Whole(s, again, gone)(k);
      }
    }
  }

  lemma {:induction false} SomeLeft(rows: seq<Row>, p: Row -> bool)
    requires StatsOf(rows, p).count >= 1
    ensures exists i :: 0 <= i < |rows| && p(rows[i])
  {
    if forall i | 0 <= i < |rows| :: !p(rows[i]) { StatsNone(rows, p); }
  }

  lemma NoneLeft(rows: seq<Row>, p: Row -> bool)
    requires StatsOf(rows, p).count == 0
    ensures forall i | 0 <= i < |rows| :: !p(rows[i])
  {
    forall i | 0 <= i < |rows| ensures !p(rows[i]) {
      if p(rows[i]) { StatsSome(rows, p, i); }
    }
  }

  // ---------- Where the promise ends ----------

  /** Overwriting loses the samples the hourly row stood for. */
  lemma ClashLoses(s: State, cutoff: int, k: Key)
    requires k in Rolled(s.raw, cutoff) && k in s.hourly
    ensures Share(Pass(s, cutoff), k).count == Share(s, k).count - s.hourly[k].samples
  {
    ShareAfter(s, cutoff, k);
  }

  /** Two readings of one hour, a cutoff between them, and the next pass an hour later: the
      report loses the first reading. */
  lemma UnalignedPassesLose()
    ensures var s := State([Row(1, 7, 10, HOUR / 4), Row(2, 7, 20, 3 * HOUR / 4)], map[]);
            !SameReports(Pass(s, HOUR / 2), Pass(Pass(s, HOUR / 2), HOUR / 2 + HOUR))
  {
    var rows := [Row(1, 7, 10, HOUR / 4), Row(2, 7, 20, 3 * HOUR / 4)];
    var k := Key(7, 0);
    assert KeyOf(rows[0]) == k && KeyOf(rows[1]) == k;
    LaterRows(rows, HOUR / 2, HOUR / 2 + HOUR, k);
    assert k in Rolled(rows, HOUR / 2);
    SecondPassKeepsExactly(State(rows, map[]), HOUR / 2, HOUR / 2 + HOUR);
  }
}
