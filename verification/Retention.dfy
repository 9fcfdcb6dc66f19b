/** The retention pass and the traffic report over the stored tables
    (app/simulator/retention.py:20-85, app/utils/db_batch.py:7-35,
    app/services/analytics_service.py:48-91). */
module Retention {
  import opened Arith
  import opened Compaction

  function IdsOf(rows: seq<Row>, p: Row -> bool): set<int> { set i | 0 <= i < |rows| && p(rows[i]) :: rows[i].id }

  function Unless(p: Row -> bool): Row -> bool { (r: Row) => !p(r) }

  ghost predicate UniqueIds(rows: seq<Row>) {
    forall i, j | 0 <= i < j < |rows| :: rows[i].id != rows[j].id
  }

  lemma {:induction false} FilterTwice(rows: seq<Row>, p: Row -> bool, q: Row -> bool, both: Row -> bool)
    requires forall i | 0 <= i < |rows| :: both(rows[i]) <==> p(rows[i]) && q(rows[i])
    ensures Filter(Filter(rows, p), q) == Filter(rows, both)
  {
    if rows != [] {
      var g, last := rows[..|rows| - 1], rows[|rows| - 1];
      FilterTwice(g, p, q, both);
      assert Filter(rows, p) == if p(last) then Filter(g, p) + [last] else Filter(g, p);
      assert (Filter(g, p) + [last])[..|Filter(g, p)|] == Filter(g, p);
    }
  }

  lemma {:induction false} FilterAgree(rows: seq<Row>, p: Row -> bool, q: Row -> bool)
    requires forall i | 0 <= i < |rows| :: p(rows[i]) <==> q(rows[i])
    ensures Filter(rows, p) == Filter(rows, q)
  {
    if rows != [] { FilterAgree(rows[..|rows| - 1], p, q); }
  }

  lemma {:induction false} FilterAll(rows: seq<Row>, p: Row -> bool)
    requires forall i | 0 <= i < |rows| :: p(rows[i])
    ensures Filter(rows, p) == rows
  {
    if rows != [] {
      FilterAll(rows[..|rows| - 1], p);
      assert rows == rows[..|rows| - 1] + [rows[|rows| - 1]];
    }
  }

  lemma IdsLeft(rows: seq<Row>, gone: set<int>, p: Row -> bool)
    ensures IdsOf(Filter(rows, Without(gone)), p) == IdsOf(rows, p) - gone
  {
    var kept := Filter(rows, Without(gone));
    Filtered(rows, Without(gone));
    forall id | id in IdsOf(rows, p) - gone ensures id in IdsOf(kept, p) {
      var i :| 0 <= i < |rows| && p(rows[i]) && rows[i].id == id;
      assert rows[i] in kept;
    }
    forall id | id in IdsOf(kept, p) ensures id in IdsOf(rows, p) - gone {
      var i :| 0 <= i < |kept| && p(kept[i]) && kept[i].id == id;
      assert kept[i] in rows && kept[i] in kept;
    }
  }

  lemma AllGone(rows: seq<Row>, p: Row -> bool)
    requires UniqueIds(rows)
    ensures Filter(rows, Without(IdsOf(rows, p))) == Filter(rows, Unless(p))
  {
    FilterAgree(rows, Without(IdsOf(rows, p)), Unless(p));
  }

  /** What a query limited to `n` ids may return: any `n` of them, or all there are. */
  method AnyOf(pool: set<int>, n: nat) returns (ids: set<int>)
    ensures ids <= pool && |ids| == Min(n, |pool|) && (|ids| < n ==> ids == pool)
  {
    ids := {};
    var left := pool;
    while |ids| < n && left != {}
      invariant ids <= pool && left == pool - ids && |ids| <= n && |ids| + |left| == |pool|
      decreases left
    {
      Inhabited(left);
      var id :| id in left;
      ids := ids + {id};
      left := left - {id};
    }
  }

  class Store {
    var raw: seq<Row>
    var hourly: map<Key, Hourly>

    constructor ()
      ensures raw == [] && hourly == map[]
    {
      raw, hourly := [], map[];
    }

    ghost function Now(): State
      reads this
    {
      State(raw, hourly)
    }

    /** Deletes in committed batches: it ends, and has then removed exactly the matching rows,
        unless the batch size is 0. */
    method BatchedDelete(p: Row -> bool, batch: nat) returns (total: nat)
      requires UniqueIds(raw)
      modifies this`raw
      ensures batch != 0 ==> raw == Filter(old(raw), Unless(p)) && total == |IdsOf(old(raw), p)|
      ensures batch == 0 ==> raw == old(raw) && total == 0
    {
      total := 0;
      ghost var rows, gone := raw, {};
      NothingGone(rows);
      while true
        invariant gone <= IdsOf(rows, p) && total == |gone| && raw == Filter(rows, Without(gone))
        invariant batch == 0 ==> gone == {}
        decreases IdsOf(rows, p) - gone
      {
        var ids := AnyOf(IdsOf(raw, p), batch);
        NextBatch(rows, gone, ids, p);
        if ids == {} {
          break;
        }
        raw := Filter(raw, Without(ids));
        total := total + |ids|;
        gone := gone + ids;
        if |ids| < batch {
          break;
        }
      }
      NothingGone(rows);
      AllGone(rows, p);
    }

    /** The grouped query: the buckets with old rows by station and hour. */
    method QueryBuckets(cutoff: int) returns (list: seq<Key>)
      ensures IsListing(Rolled(raw, cutoff), list)
    {
      var left := set i | 0 <= i < |raw| && raw[i].at < cutoff :: KeyOf(raw[i]);
      list := [];
      while left != {}
        invariant left <= Rolled(raw, cutoff)
        invariant forall k :: k in list <==> k in Rolled(raw, cutoff) && k !in left
        invariant forall i, j | 0 <= i < j < |list| :: Precedes(list[i], list[j])
        invariant forall k, i | k in left && 0 <= i < |list| :: Precedes(list[i], k)
        decreases left
      {
        var k := First(left);
        list := list + [k];
        left := left - {k};
      }
    }

    method UpsertHourlyBatch(page: seq<Key>, cutoff: int)
      modifies this`hourly
      ensures Now() == Wrote(old(Now()), page, cutoff)
    {
      for i := 0 to |page|
        invariant Now() == Wrote(old(Now()), page[..i], cutoff)
      {
        assert page[..i + 1][..i] == page[..i];
        WroteKeepsRaw(old(Now()), page[..i], cutoff);
        hourly := hourly[page[i] := HourlyOf(raw, page[i], cutoff)];
      }
      assert page[..|page|] == page;
    }

    /** One page of the query, which is made again for each. */
    method QueryPage(cutoff: int, offset: nat, size: nat, ghost all: seq<Key>) returns (page: seq<Key>)
      requires IsListing(Rolled(raw, cutoff), all) && offset <= |all|
      ensures |page| == Min(size, |all| - offset) && page == all[offset..offset + |page|]
    {
      var list := QueryBuckets(cutoff);
      OneListing(Rolled(raw, cutoff), list, all);
      page := list[Min(offset, |list|)..Min(offset + size, |list|)];
    }

    /** Queries and writes one page. */
    method RollUpPage(cutoff: int, offset: nat, size: nat, ghost before: State, ghost all: seq<Key>) returns (n: nat)
      requires IsListing(Rolled(raw, cutoff), all) && offset <= |all|
      requires Now() == Wrote(before, all[..offset], cutoff)
      modifies this`hourly
      ensures n == Min(size, |all| - offset) && Now() == Wrote(before, all[..offset + n], cutoff)
    {
      var page := QueryPage(cutoff, offset, size, all);
      n := |page|;
      assert all[..offset + n] == all[..offset] + page;
      WroteTwice(before, all[..offset], page, cutoff);
      UpsertHourlyBatch(page, cutoff);
    }

    /** Pages of the grouped query, each committed: together one whole group-by. */
    method Rollup(cutoff: int, pageSize: nat) returns (buckets: nat)
      modifies this`hourly
      ensures pageSize != 0 ==> Now() == Upsert(old(Now()), Rolled(raw, cutoff), cutoff) && buckets == |Rolled(raw, cutoff)|
      ensures pageSize == 0 ==> Now() == old(Now()) && buckets == 0
    {
      buckets := 0;
      var offset := 0;
      ghost var before := Now();
      ghost var all := ListingFor(Rolled(raw, cutoff));
      WroteAll(before, Rolled(raw, cutoff), all, cutoff);
      while true
        invariant offset <= |all| && buckets == offset && raw == before.raw
        invariant Now() == Wrote(before, all[..offset], cutoff)
        invariant pageSize == 0 ==> offset == 0
        decreases |all| - offset
      {
        var n := RollUpPage(cutoff, offset, pageSize, before, all);
        if n == 0 {
          break;
        }
        buckets := buckets + n;
        if n < pageSize {
          break;
        }
        offset := offset + pageSize;
      }
    }

    method RollupAndDelete(cutoff: int, pageSize: nat, batch: nat) returns (buckets: nat, deleted: nat)
      requires UniqueIds(raw)
      modifies this
      ensures pageSize != 0 && batch != 0 ==>
                && Now() == Pass(old(Now()), cutoff)
                && buckets == |Rolled(old(raw), cutoff)| && deleted == |IdsOf(old(raw), Before(cutoff))|
      ensures pageSize == 0 && batch != 0 ==> Now() == State(Filter(old(raw), From(cutoff)), old(hourly))
    {
      buckets := Rollup(cutoff, pageSize);
      ghost var rows := raw;
      deleted := BatchedDelete(Before(cutoff), batch);
      FilterAgree(rows, Unless(Before(cutoff)), From(cutoff));
    }

    method RawSums(since: int, until: int, wanted: set<Station>) returns (sums: map<Station, Stats>)
      ensures sums.Keys == RawStations(raw, since, until, wanted)
      ensures forall st | st in sums :: sums[st] == StatsOf(raw, Between(st, since, until))
    {
      sums := map[];
      var left := RawStations(raw, since, until, wanted);
      while left != {}
        invariant left <= RawStations(raw, since, until, wanted)
        invariant sums.Keys == RawStations(raw, since, until, wanted) - left
        invariant forall st | st in sums :: sums[st] == StatsOf(raw, Between(st, since, until))
        decreases left
      {
        Inhabited(left);
        var st :| st in left;
        sums := sums[st := StatsOf(raw, Between(st, since, until))];
        left := left - {st};
      }
    }

    /** A station without raw rows starts from zero. */
    method AddHourly(raws: map<Station, Stats>, lo: int, hi: int, stations: set<Station>) returns (sums: map<Station, Stats>)
      ensures sums.Keys == raws.Keys + stations
      ensures forall st | st in sums ::
                sums[st] == (if st in stations then Plus(if st in raws then raws[st] else ZERO, HourlyStats(hourly, st, lo, hi))
                             else raws[st])
    {
      sums := raws;
      var left := stations;
      while left != {}
        invariant left <= stations && sums.Keys == raws.Keys + (stations - left)
        invariant forall st | st in sums ::
                    sums[st] == (if st in stations - left then Plus(if st in raws then raws[st] else ZERO, HourlyStats(hourly, st, lo, hi))
                                 else raws[st])
        decreases left
      {
        Inhabited(left);
        var st :| st in left;
        assert st in sums ==> sums[st] == raws[st];
        sums := sums[st := Plus(if st in sums then sums[st] else ZERO, HourlyStats(hourly, st, lo, hi))];
        left := left - {st};
      }
    }

    /** The traffic report over [since, until) for the wanted stations: the raw rows first,
        then the hourly ones added in. */
    method TrafficAggregates(since: int, until: int, wanted: set<Station>) returns (lines: map<Station, Line>)
      ensures lines.Keys == RawStations(raw, since, until, wanted) + HourlyStations(hourly, since, until, wanted)
      ensures forall st | st in lines :: lines[st] == LineOf(Window(Now(), st, since, until))
      ensures forall st | st in lines :: Averages(lines[st].average, lines[st].weightedTotal, lines[st].samples as real)
    {
      var raws := RawSums(since, until, wanted);
      var sums := AddHourly(raws, Ceiling(since), Ceiling(until), HourlyStations(hourly, since, until, wanted));
      forall st | st in sums ensures sums[st] == Window(Now(), st, since, until) {
        NotRaw(raw, st, since, until, wanted);
        if st !in HourlyStations(hourly, since, until, wanted) {
          NotHourly(hourly, st, since, until, wanted);
        }
      }
      lines := map st | st in sums :: LineOf(sums[st]);
      forall st | st in lines ensures Averages(lines[st].average, lines[st].weightedTotal, lines[st].samples as real) {
        LineAverages(sums[st]);
      }
    }
  }

  lemma NothingGone(rows: seq<Row>)
    ensures Filter(rows, Without({})) == rows
  {
    FilterAll(rows, Without({}));
  }

  lemma NextBatch(rows: seq<Row>, gone: set<int>, ids: set<int>, p: Row -> bool)
    requires gone <= IdsOf(rows, p) && ids <= IdsOf(Filter(rows, Without(gone)), p)
    ensures Filter(Filter(rows, Without(gone)), Without(ids)) == Filter(rows, Without(gone + ids))
    ensures gone + ids <= IdsOf(rows, p) && |gone + ids| == |gone| + |ids|
    ensures ids != {} ==> IdsOf(rows, p) - (gone + ids) < IdsOf(rows, p) - gone
    ensures ids == IdsOf(Filter(rows, Without(gone)), p) ==> gone + ids == IdsOf(rows, p)
  {
    IdsLeft(rows, gone, p);
    FilterTwice(rows, Without(gone), Without(ids), Without(gone + ids));
    assert gone !! ids;
    if ids != {} {
      Inhabited(ids);
      var id :| id in ids;
      assert id in IdsOf(rows, p) - gone && id !in IdsOf(rows, p) - (gone + ids);
    }
  }

  // ---------- The grouped query ----------

  predicate Precedes(a: Key, b: Key) { a.station < b.station || (a.station == b.station && a.hour < b.hour) }

  ghost predicate IsListing(keys: set<Key>, list: seq<Key>) {
    (forall k :: k in list <==> k in keys) && forall i, j | 0 <= i < j < |list| :: Precedes(list[i], list[j])
  }

  method First(keys: set<Key>) returns (best: Key)
    requires keys != {}
    ensures best in keys && forall k | k in keys && k != best :: Precedes(best, k)
  {
    best :| best in keys;
    var rest := keys - {best};
    while rest != {}
      invariant rest <= keys && best in keys && best !in rest
      invariant forall k | k in keys && k !in rest && k != best :: Precedes(best, k)
      decreases rest
    {
      var k :| k in rest;
      if Precedes(k, best) {
        best := k;
      }
      rest := rest - {k};
    }
  }

  /** The order is total, so every page is cut from the same list. */
  lemma {:induction false} OneListing(keys: set<Key>, a: seq<Key>, b: seq<Key>)
    requires IsListing(keys, a) && IsListing(keys, b)
    ensures a == b
    decreases |a|
  {
    ListingSize(keys, a);
    ListingSize(keys, b);
    if a != [] {
      SameHead(keys, a, b);
      Tail(keys, a);
      Tail(keys, b);
      OneListing(keys - {a[0]}, a[1..], b[1..]);
      assert a == [a[0]] + a[1..] && b == [b[0]] + b[1..];
    }
  }

  lemma SameHead(keys: set<Key>, a: seq<Key>, b: seq<Key>)
    requires IsListing(keys, a) && IsListing(keys, b) && a != [] && b != []
    ensures a[0] == b[0]
  {
    assert a[0] in b && b[0] in a;
    var i :| 0 <= i < |b| && b[i] == a[0];
    var j :| 0 <= j < |a| && a[j] == b[0];
  }

  lemma Tail(keys: set<Key>, a: seq<Key>)
    requires IsListing(keys, a) && a != []
    ensures IsListing(keys - {a[0]}, a[1..])
  {
    forall k ensures k in a[1..] <==> k in keys - {a[0]} {
      assert a == [a[0]] + a[1..];
    }
  }

  lemma {:induction false} ListingSize(keys: set<Key>, list: seq<Key>)
    requires IsListing(keys, list)
    ensures |keys| == |list|
    decreases |list|
  {
    if list == [] {
      assert keys == {};
    } else {
      Tail(keys, list);
      ListingSize(keys - {list[0]}, list[1..]);
    }
  }

  /** The buckets written one after another. */
  ghost function Wrote(s: State, page: seq<Key>, cutoff: int): State {
    if page == [] then s
    else
      var g, k := Wrote(s, page[..|page| - 1], cutoff), page[|page| - 1];
      g.(hourly := g.hourly[k := HourlyOf(s.raw, k, cutoff)])
  }

  lemma {:induction false} WroteKeepsRaw(s: State, page: seq<Key>, cutoff: int)
    ensures Wrote(s, page, cutoff).raw == s.raw
  {
    if page != [] { WroteKeepsRaw(s, page[..|page| - 1], cutoff); }
  }

  lemma {:induction false} WroteTwice(s: State, a: seq<Key>, b: seq<Key>, cutoff: int)
    ensures Wrote(Wrote(s, a, cutoff), b, cutoff) == Wrote(s, a + b, cutoff)
  {
    if b == [] {
      assert a + b == a;
    } else {
      WroteKeepsRaw(s, a, cutoff);
      WroteTwice(s, a, b[..|b| - 1], cutoff);
      assert (a + b)[..|a + b| - 1] == a + b[..|b| - 1];
    }
  }

  lemma {:induction false} WroteIsUpsert(s: State, page: seq<Key>, cutoff: int)
    ensures Wrote(s, page, cutoff) == Upsert(s, Members(page), cutoff)
  {
    if page == [] {
      assert Upsert(s, Members(page), cutoff).hourly == s.hourly;
    } else {
      var g, k := page[..|page| - 1], page[|page| - 1];
      assert page == g + [k];
      WroteIsUpsert(s, g, cutoff);
      MembersSnoc(g, k);
      var l, r := Upsert(s, Members(g), cutoff).hourly[k := HourlyOf(s.raw, k, cutoff)], Upsert(s, Members(page), cutoff).hourly;
      assert l.Keys == r.Keys;
      assert forall x | x in l :: l[x] == r[x];
    }
  }

  lemma Least(keys: set<Key>) returns (best: Key)
    requires keys != {}
    ensures best in keys && forall k | k in keys && k != best :: Precedes(best, k)
  {
    var k :| k in keys;
    assert keys == keys - {k} + {k};
    if keys - {k} == {} {
      best := k;
    } else {
      var other := Least(keys - {k});
      best := if Precedes(other, k) then other else k;
    }
  }

  lemma ListingFor(keys: set<Key>) returns (list: seq<Key>)
    ensures IsListing(keys, list)
  {
    if keys == {} {
      list := [];
    } else {
      var first := Least(keys);
      var rest := ListingFor(keys - {first});
      list := [first] + rest;
    }
  }

  lemma WroteAll(s: State, keys: set<Key>, list: seq<Key>, cutoff: int)
    requires IsListing(keys, list)
    ensures Wrote(s, list, cutoff) == Upsert(s, keys, cutoff) && |keys| == |list|
    ensures Wrote(s, list[..0], cutoff) == s && list[..|list|] == list
  {
    ListingSize(keys, list);
    WroteIsUpsert(s, list, cutoff);
    assert Members(list) == keys;
  }

  function Members(page: seq<Key>): set<Key> { set k | k in page }

  lemma MembersSnoc(page: seq<Key>, k: Key)
    ensures Members(page + [k]) == Members(page) + {k}
  {
  }

  // ---------- The report ----------

  datatype Line = Line(weightedTotal: real, samples: nat, peak: nat, average: real)

  /** The average is given to a tenth. */
  function LineOf(s: Stats): Line {
    Line(s.total, s.count, s.peak, if s.count == 0 then 0.0 else Round(10.0 * (s.total / s.count as real)) as real / 10.0)
  }

  /** A whole number of tenths, off the exact average by half a tenth at most; 0 of none. */
  predicate Averages(average: real, total: real, samples: real) {
    if samples == 0.0 then average == 0.0
    else
      && total - samples / 20.0 <= average * samples <= total + samples / 20.0
      && (average * 10.0).Floor as real == average * 10.0
  }

  lemma LineAverages(s: Stats)
    ensures var l := LineOf(s); l.weightedTotal == s.total && l.samples == s.count && l.peak == s.peak
    ensures Averages(LineOf(s).average, s.total, s.count as real)
  {
    if s.count > 0 {
      TenthsAverage(s.total, s.count as real, s.total / s.count as real, LineOf(s).average);
    }
  }

  lemma TenthsAverage(total: real, n: real, q: real, average: real)
    requires n > 0.0 && q == total / n && average == Round(10.0 * q) as real / 10.0
    ensures Averages(average, total, n)
  {
    Quotient(total, n);
    assert -1.0 <= 20.0 * (average - q) <= 1.0;
    NearProduct(average, q, n, total);
    assert average * 10.0 == Round(10.0 * q) as real;
  }

  lemma NearProduct(a: real, b: real, n: real, total: real)
    requires n > 0.0 && -1.0 <= 20.0 * (a - b) <= 1.0 && b * n == total
    ensures total - n / 20.0 <= a * n <= total + n / 20.0
  {
    var off := 20.0 * (a - b);
    Minus(a, b, n);
    assert off * n == 20.0 * (a * n - total);
    Within(off, n);
  }

  lemma Minus(a: real, b: real, n: real)
    ensures (a - b) * n == a * n - b * n
  {
  }

  lemma Within(a: real, n: real)
    requires n > 0.0 && -1.0 <= a <= 1.0
    ensures -n <= a * n <= n
  {
    assert (1.0 - a) * n >= 0.0 && (a + 1.0) * n >= 0.0;
  }

  function Between(st: Station, since: int, until: int): Row -> bool {
    (r: Row) => r.station == st && since <= r.at < until
  }

  /** The first whole hour not before `at`. */
  function Ceiling(at: int): int { -HourOf(-at) }

  /** What the report sums for one station: hourly rows count by their bucket's start. */
  function Window(s: State, st: Station, since: int, until: int): Stats {
    Plus(StatsOf(s.raw, Between(st, since, until)), HourlyStats(s.hourly, st, Ceiling(since), Ceiling(until)))
  }

  function RawStations(raw: seq<Row>, since: int, until: int, wanted: set<Station>): set<Station> {
    set i | 0 <= i < |raw| && raw[i].station in wanted && since <= raw[i].at < until :: raw[i].station
  }

  function HourlyStations(hourly: map<Key, Hourly>, since: int, until: int, wanted: set<Station>): set<Station> {
    set k | k in hourly && k.station in wanted && since <= k.hour * HOUR < until :: k.station
  }

  lemma CeilingIs(at: int, h: int)
    ensures at <= h * HOUR <==> Ceiling(at) <= h
  {
    HourBounds(-at);
  }

  lemma NotRaw(raw: seq<Row>, st: Station, since: int, until: int, wanted: set<Station>)
    requires st in wanted
    ensures st !in RawStations(raw, since, until, wanted) ==> StatsOf(raw, Between(st, since, until)) == ZERO
  {
    if st !in RawStations(raw, since, until, wanted) {
      StatsNone(raw, Between(st, since, until));
    }
  }

  lemma {:induction false} NoHours(hourly: map<Key, Hourly>, st: Station, lo: int, hi: int)
    requires forall h | lo <= h < hi :: Key(st, h) !in hourly
    ensures HourlyStats(hourly, st, lo, hi) == ZERO
    decreases hi - lo
  {
    if lo < hi { NoHours(hourly, st, lo, hi - 1); }
  }

  lemma NotHourly(hourly: map<Key, Hourly>, st: Station, since: int, until: int, wanted: set<Station>)
    requires st in wanted && st !in HourlyStations(hourly, since, until, wanted)
    ensures HourlyStats(hourly, st, Ceiling(since), Ceiling(until)) == ZERO
  {
    forall h | Ceiling(since) <= h < Ceiling(until) ensures Key(st, h) !in hourly {
      CeilingIs(since, h);
      CeilingIs(until, h);
    }
    NoHours(hourly, st, Ceiling(since), Ceiling(until));
  }

  lemma WholeCeiling(h: int)
    ensures Ceiling(h * HOUR) == h
  {
    CeilingIs(h * HOUR, h);
    CeilingIs(h * HOUR, h - 1);
  }

  lemma WithinHours(at: int, lo: int, hi: int)
    ensures lo * HOUR <= at < hi * HOUR <==> lo <= HourOf(at) < hi
  {
    HourBounds(at);
  }

  /** Over whole hours the report is the one a pass preserves. */
  lemma WholeHours(s: State, st: Station, lo: int, hi: int)
    ensures Window(s, st, lo * HOUR, hi * HOUR) == Report(s, st, lo, hi)
  {
    WholeCeiling(lo);
    WholeCeiling(hi);
    SameWindow(s.raw, st, lo, hi, lo * HOUR, hi * HOUR);
  }

  lemma SameWindow(raw: seq<Row>, st: Station, lo: int, hi: int, since: int, until: int)
    requires since == lo * HOUR && until == hi * HOUR
    ensures StatsOf(raw, Between(st, since, until)) == StatsOf(raw, Hours(st, lo, hi))
  {
    forall i | 0 <= i < |raw|
      ensures Between(st, since, until)(raw[i]) <==> Hours(st, lo, hi)(raw[i])
    {
      WithinHours(raw[i].at, lo, hi);
    }
    StatsAgree(raw, Between(st, since, until), Hours(st, lo, hi));
  }

  /** A page size of 0 rolls nothing up, and the rows are deleted all the same. */
  lemma EmptyPagesLose(s: State, cutoff: int, i: nat)
    requires i < |s.raw| && s.raw[i].at < cutoff
    ensures var k := KeyOf(s.raw[i]);
            Share(State(Filter(s.raw, From(cutoff)), s.hourly), k).count < Share(s, k).count
  {
    var k := KeyOf(s.raw[i]);
    RawAfter(s, cutoff, k);
    StatsSome(s.raw, Old(k, cutoff), i);
  }

  /** A hard delete of rows older than the roll-up's own cutoff finds nothing to delete. */
  lemma SafetyNetFindsNothing(s: State, cutoff: int, older: int)
    requires older <= cutoff
    ensures IdsOf(Pass(s, cutoff).raw, Before(older)) == {}
  {
    Filtered(s.raw, From(cutoff));
    forall i | 0 <= i < |Pass(s, cutoff).raw| ensures !Before(older)(Pass(s, cutoff).raw[i]) {
      assert Pass(s, cutoff).raw[i] in Pass(s, cutoff).raw;
    }
  }
}
