/** The external train-position feed (app/api/v1/integrations.py:107-225): one batch is one
    transaction over the last known locations and the events already seen. */
module TrainFeed {
  import opened Wrappers

  type Code = string
  type Source = string
  type Event = (Source, string)

  datatype Record = Record(eventId: string, train: Code, station: Code, next: Option<Code>, progress: real, status: string, observedAt: int)

  datatype Location = Location(station: Code, next: Option<Code>, progress: real, status: string, at: int)

  datatype State = State(locations: map<Code, Location>, events: set<Event>)

  datatype Error =
    | RepeatedEvent
    | Unknown(stations: set<Code>, trains: set<Code>)
    | MissingStation

  datatype Counts = Counts(accepted: int, duplicates: int, rejected: int)

  datatype Verdict = Duplicate | Stale | Moved

  /** An empty code counts as no next station. */
  function LocationOf(r: Record): Location {
    Location(r.station, if r.next == Some("") then None else r.next, r.progress, r.status, r.observedAt)
  }

  /** The row says what the record reports; an empty next code is none. */
  predicate Reports(r: Record, at: Location) {
    && at.station == r.station && at.progress == r.progress && at.status == r.status && at.at == r.observedAt
    && (match r.next
        case None => at.next == None
        case Some(c) => at.next == if c == "" then None else Some(c))
  }

  lemma LocationReports(r: Record)
    ensures Reports(r, LocationOf(r))
  {
  }

  /** A seen event is skipped; a location is replaced unless it is strictly newer. */
  function VerdictOf(s: State, source: Source, r: Record): Verdict {
    if (source, r.eventId) in s.events then Duplicate
    else if r.train in s.locations && r.observedAt < s.locations[r.train].at then Stale
    else Moved
  }

  function Ingest(s: State, source: Source, r: Record): State {
    match VerdictOf(s, source, r)
    case Duplicate => s
    case Stale => s.(events := s.events + {(source, r.eventId)})
    case Moved => State(s.locations[r.train := LocationOf(r)], s.events + {(source, r.eventId)})
  }

  function IngestAll(s: State, source: Source, rs: seq<Record>): State {
    if rs == [] then s else Ingest(IngestAll(s, source, rs[..|rs| - 1]), source, rs[|rs| - 1])
  }

  /** What became of record `i`. */
  function VerdictAt(s: State, source: Source, rs: seq<Record>, i: nat): Verdict
    requires i < |rs|
  {
    VerdictOf(IngestAll(s, source, rs[..i]), source, rs[i])
  }

  // ---------- Order of observation ----------

  /** Goes behind every record that is not later. */
  function Insert(rs: seq<Record>, r: Record): seq<Record> {
    if rs == [] || rs[|rs| - 1].observedAt <= r.observedAt then rs + [r]
    else Insert(rs[..|rs| - 1], r) + [rs[|rs| - 1]]
  }

  function SortByTime(rs: seq<Record>): seq<Record> {
    if rs == [] then [] else Insert(SortByTime(rs[..|rs| - 1]), rs[|rs| - 1])
  }

  ghost predicate InTimeOrder(rs: seq<Record>) {
    forall i, j | 0 <= i < j < |rs| :: rs[i].observedAt <= rs[j].observedAt
  }

  function At(rs: seq<Record>, time: int): seq<Record> {
    if rs == [] then []
    else At(rs[..|rs| - 1], time) + (if rs[|rs| - 1].observedAt == time then [rs[|rs| - 1]] else [])
  }

  lemma {:induction false} NoneAt(rs: seq<Record>, time: int)
    requires forall i | 0 <= i < |rs| :: rs[i].observedAt != time
    ensures At(rs, time) == []
  {
    if rs != [] { NoneAt(rs[..|rs| - 1], time); }
  }

  lemma {:induction false} InsertSorts(rs: seq<Record>, r: Record)
    requires InTimeOrder(rs)
    ensures InTimeOrder(Insert(rs, r)) && multiset(Insert(rs, r)) == multiset(rs) + multiset{r}
  {
    if rs != [] && rs[|rs| - 1].observedAt > r.observedAt {
      var g, last := rs[..|rs| - 1], rs[|rs| - 1];
      assert rs == g + [last];
      InsertSorts(g, r);
      forall i | 0 <= i < |Insert(g, r)| ensures Insert(g, r)[i].observedAt <= last.observedAt {
        assert Insert(g, r)[i] in multiset(Insert(g, r));
        assert Insert(g, r)[i] == r || Insert(g, r)[i] in g;
      }
    }
  }

  lemma {:induction false} InsertIsStable(rs: seq<Record>, r: Record, time: int)
    requires InTimeOrder(rs)
    ensures At(Insert(rs, r), time) == At(rs, time) + (if r.observedAt == time then [r] else [])
  {
    assert (rs + [r])[..|rs|] == rs;
    if rs != [] && rs[|rs| - 1].observedAt > r.observedAt {
      var g, last := rs[..|rs| - 1], rs[|rs| - 1];
      InsertIsStable(g, r, time);
      assert (Insert(g, r) + [last])[..|Insert(g, r)|] == Insert(g, r);
    }
  }

  /** The records in order of time, those of one time in their given order. */
  lemma {:induction false} SortIsStable(rs: seq<Record>, time: int)
    ensures InTimeOrder(SortByTime(rs)) && multiset(SortByTime(rs)) == multiset(rs)
    ensures At(SortByTime(rs), time) == At(rs, time)
  {
    if rs != [] {
      var g, last := rs[..|rs| - 1], rs[|rs| - 1];
      assert rs == g + [last];
      SortIsStable(g, time);
      InsertSorts(SortByTime(g), last);
      InsertIsStable(SortByTime(g), last, time);
    }
  }

  lemma SameRecords(rs: seq<Record>)
    ensures |SortByTime(rs)| == |rs| && forall r :: r in SortByTime(rs) <==> r in rs
  {
    SortIsStable(rs, 0);
    assert |multiset(SortByTime(rs))| == |multiset(rs)|;
    forall r ensures r in SortByTime(rs) <==> r in rs {
      assert r in multiset(SortByTime(rs)) <==> r in multiset(rs);
    }
  }

  // ---------- What a batch reports ----------

  ghost predicate UniqueEvents(rs: seq<Record>) {
    forall i, j | 0 <= i < j < |rs| :: rs[i].eventId != rs[j].eventId
  }

  lemma {:induction false} BatchSoFar(s: State, source: Source, rs: seq<Record>, r: Record)
    requires UniqueEvents(rs + [r]) && InTimeOrder(rs + [r])
    ensures var t := IngestAll(s, source, rs);
            && ((source, r.eventId) in t.events <==> (source, r.eventId) in s.events)
            && (r.train in t.locations && r.observedAt < t.locations[r.train].at <==>
                r.train in s.locations && r.observedAt < s.locations[r.train].at)
  {
    if rs != [] {
      var g, last := rs[..|rs| - 1], rs[|rs| - 1];
      assert (rs + [r])[|rs| - 1] == last && (rs + [r])[|rs|] == r;
      assert forall i | 0 <= i < |g| :: (g + [r])[i] == (rs + [r])[i];
      assert (g + [r])[|g|] == r;
      BatchSoFar(s, source, g, r);
    }
  }

  /** Because a batch is taken in order of time, its own records never make one another
      stale: a record is skipped exactly when its event was seen before the batch, and
      rejected exactly when the location before the batch was strictly newer. */
  lemma VerdictsAreOnTheStateBefore(s: State, source: Source, rs: seq<Record>, i: nat)
    requires UniqueEvents(rs) && InTimeOrder(rs) && i < |rs|
    ensures VerdictAt(s, source, rs, i) == VerdictOf(s, source, rs[i])
  {
    var p := rs[..i] + [rs[i]];
    assert forall j | 0 <= j <= i :: p[j] == rs[j];
    BatchSoFar(s, source, rs[..i], rs[i]);
  }

  // ---------- Convergence ----------

  type Sighting = (Source, Record)

  function EventOf(x: Sighting): Event { (x.0, x.1.eventId) }

  ghost predicate OneRecordPerEvent(all: set<Sighting>) {
    forall x, y | x in all && y in all && EventOf(x) == EventOf(y) :: x == y
  }

  ghost predicate Latest(all: set<Sighting>, t: Code, x: Sighting) {
    x in all && x.1.train == t && forall y | y in all && y.1.train == t :: y.1.observedAt <= x.1.observedAt
  }

  ghost predicate Seen(all: set<Sighting>, e: Event) { exists x :: x in all && EventOf(x) == e }

  ghost predicate Located(all: set<Sighting>, t: Code) { exists x :: x in all && x.1.train == t }

  /** The reports whose event the tables do not know yet. */
  ghost function News(s: State, all: set<Sighting>): set<Sighting> {
    set x | x in all && EventOf(x) !in s.events
  }

  /** The row the tables had is not strictly newer. */
  predicate InTime(s: State, x: Sighting) {
    x.1.train in s.locations ==> s.locations[x.1.train].at <= x.1.observedAt
  }

  ghost predicate Shows(s: State, news: set<Sighting>, t: Code, at: Location) {
    exists x :: Latest(news, t, x) && InTime(s, x) && at == LocationOf(x.1)
  }

  ghost predicate Keeps(s: State, news: set<Sighting>, t: Code, at: Location) {
    t in s.locations && at == s.locations[t] && forall x | x in news && x.1.train == t :: !InTime(s, x)
  }

  /** What became of the tables `s`, whatever they held, after these reports: their events are
      known besides, and a train stands at a latest new sighting of it unless its row was
      strictly newer than all of them. */
  ghost predicate Reflects(s: State, all: set<Sighting>, r: State) {
    (forall e :: e in r.events <==> e in s.events || Seen(all, e)) && Rows(s, News(s, all), r.locations)
  }

  ghost predicate Rows(s: State, news: set<Sighting>, rows: map<Code, Location>) {
    && (forall t :: t in rows <==> t in s.locations || Located(news, t))
    && (forall t | t in rows :: Shows(s, news, t, rows[t]) || Keeps(s, news, t, rows[t]))
  }

  lemma NothingReported(s: State)
    ensures Reflects(s, {}, s)
  {
    forall t | t in s.locations ensures Keeps(s, News(s, {}), t, s.locations[t]) {
    }
  }

  lemma NewsGrows(s: State, all: set<Sighting>, x: Sighting)
    ensures News(s, all + {x}) == News(s, all) + (if EventOf(x) in s.events then {} else {x})
    ensures forall e :: Seen(all + {x}, e) <==> Seen(all, e) || e == EventOf(x)
  {
    forall e | Seen(all, e) ensures Seen(all + {x}, e) {
      var y :| y in all && EventOf(y) == e;
      assert y in all + {x};
    }
    assert x in all + {x};
  }

  lemma LocatedGrows(news: set<Sighting>, x: Sighting)
    ensures forall t :: Located(news + {x}, t) <==> Located(news, t) || t == x.1.train
  {
    forall t | Located(news, t) ensures Located(news + {x}, t) {
      var y :| y in news && y.1.train == t;
      assert y in news + {x};
    }
    assert x in news + {x};
  }

  lemma RowStays(s: State, news: set<Sighting>, x: Sighting, t: Code, at: Location)
    requires t != x.1.train || x.1.observedAt < at.at
    requires Shows(s, news, t, at) || Keeps(s, news, t, at)
    ensures Shows(s, news + {x}, t, at) || Keeps(s, news + {x}, t, at)
  {
    if Shows(s, news, t, at) {
      var y :| Latest(news, t, y) && InTime(s, y) && at == LocationOf(y.1);
      assert Latest(news + {x}, t, y);
    } else {
      assert Keeps(s, news + {x}, t, at);
    }
  }

  lemma NewestShows(s: State, news: set<Sighting>, rows: map<Code, Location>, x: Sighting)
    requires Rows(s, news, rows) && (x.1.train in rows ==> rows[x.1.train].at <= x.1.observedAt)
    ensures Shows(s, news + {x}, x.1.train, LocationOf(x.1))
  {
    var t := x.1.train;
    if t !in rows {
      assert !Located(news, t);
    } else if Shows(s, news, t, rows[t]) {
      var y :| Latest(news, t, y) && InTime(s, y) && rows[t] == LocationOf(y.1);
    }
    assert Latest(news + {x}, t, x) && InTime(s, x);
  }

  lemma RowsStale(s: State, news: set<Sighting>, rows: map<Code, Location>, x: Sighting)
    requires Rows(s, news, rows) && x.1.train in rows && x.1.observedAt < rows[x.1.train].at
    ensures Rows(s, news + {x}, rows)
  {
    LocatedGrows(news, x);
    forall c | c in rows ensures Shows(s, news + {x}, c, rows[c]) || Keeps(s, news + {x}, c, rows[c]) {
      RowStays(s, news, x, c, rows[c]);
    }
  }

  lemma RowsMoved(s: State, news: set<Sighting>, rows: map<Code, Location>, x: Sighting)
    requires Rows(s, news, rows) && (x.1.train in rows ==> rows[x.1.train].at <= x.1.observedAt)
    ensures Rows(s, news + {x}, rows[x.1.train := LocationOf(x.1)])
  {
    LocatedGrows(news, x);
    NewestShows(s, news, rows, x);
    forall c | c in rows && c != x.1.train ensures Shows(s, news + {x}, c, rows[c]) || Keeps(s, news + {x}, c, rows[c]) {
      RowStays(s, news, x, c, rows[c]);
    }
  }

  lemma DuplicateReflects(s: State, all: set<Sighting>, r: State, x: Sighting)
    requires Reflects(s, all, r) && OneRecordPerEvent(News(s, all + {x})) && EventOf(x) in r.events
    ensures Reflects(s, all + {x}, r)
  {
    NewsGrows(s, all, x);
    if EventOf(x) in s.events {
      assert News(s, all + {x}) == News(s, all);
    } else {
      SameEventSameRecord(s, all, x);
      assert all + {x} == all;
    }
  }

  lemma SameEventSameRecord(s: State, all: set<Sighting>, x: Sighting)
    requires OneRecordPerEvent(News(s, all + {x})) && Seen(all, EventOf(x)) && EventOf(x) !in s.events
    ensures x in all
  {
    var y :| y in all && EventOf(y) == EventOf(x);
    assert y in News(s, all + {x}) && x in News(s, all + {x});
  }

  lemma StaleReflects(s: State, all: set<Sighting>, r: State, x: Sighting)
    requires Reflects(s, all, r) && EventOf(x) !in r.events && !InTime(r, x)
    ensures Reflects(s, all + {x}, r.(events := r.events + {EventOf(x)}))
  {
    NewsGrows(s, all, x);
    RowsStale(s, News(s, all), r.locations, x);
  }

  lemma MovedReflects(s: State, all: set<Sighting>, r: State, x: Sighting)
    requires Reflects(s, all, r) && EventOf(x) !in r.events && InTime(r, x)
    ensures Reflects(s, all + {x}, State(r.locations[x.1.train := LocationOf(x.1)], r.events + {EventOf(x)}))
  {
    NewsGrows(s, all, x);
    RowsMoved(s, News(s, all), r.locations, x);
  }

  lemma IngestReflects(s: State, all: set<Sighting>, r: State, x: Sighting)
    requires Reflects(s, all, r) && OneRecordPerEvent(News(s, all + {x}))
    ensures Reflects(s, all + {x}, Ingest(r, x.0, x.1))
  {
    match VerdictOf(r, x.0, x.1)
    case Duplicate => DuplicateReflects(s, all, r, x);
    case Stale => StaleReflects(s, all, r, x);
    case Moved => MovedReflects(s, all, r, x);
  }

  lemma FewerRecords(s: State, all: set<Sighting>, more: set<Sighting>)
    requires all <= more && OneRecordPerEvent(News(s, more))
    ensures OneRecordPerEvent(News(s, all))
  {
  }

  function SightingsOf(source: Source, rs: seq<Record>): set<Sighting> {
    set i | 0 <= i < |rs| :: (source, rs[i])
  }

  lemma {:induction false} IngestAllReflects(s: State, all: set<Sighting>, r: State, source: Source, rs: seq<Record>)
    requires Reflects(s, all, r) && OneRecordPerEvent(News(s, all + SightingsOf(source, rs)))
    ensures Reflects(s, all + SightingsOf(source, rs), IngestAll(r, source, rs))
  {
    if rs == [] {
      assert all + SightingsOf(source, rs) == all;
    } else {
      var g, last := rs[..|rs| - 1], rs[|rs| - 1];
      assert SightingsOf(source, rs) == SightingsOf(source, g) + {(source, last)} by {
        assert forall i | 0 <= i < |g| :: rs[i] == g[i];
        assert (source, rs[|rs| - 1]) in SightingsOf(source, rs);
      }
      assert all + SightingsOf(source, rs) == all + SightingsOf(source, g) + {(source, last)};
      FewerRecords(s, all + SightingsOf(source, g), all + SightingsOf(source, rs));
      IngestAllReflects(s, all, r, source, g);
      IngestReflects(s, all + SightingsOf(source, g), IngestAll(r, source, g), (source, last));
    }
  }

  // ---------- Batches ----------

  datatype Batch = Batch(source: Source, records: seq<Record>)

  /** The stations and trains on file. */
  datatype Known = Known(stations: set<Code>, trains: set<Code>)

  function NextCode(r: Record): Code { match r.next case Some(c) => c case None => "" }

  function CodesOf(rs: seq<Record>): set<Code> {
    (set i | 0 <= i < |rs| :: rs[i].station) + (set i | 0 <= i < |rs| :: NextCode(rs[i])) - {""}
  }

  function TrainsOf(rs: seq<Record>): set<Code> { set i | 0 <= i < |rs| :: rs[i].train }

  /** Unknown codes are checked for all but empty ones; an empty station code passes that
      check and then finds no station. */
  ghost function Refusal(k: Known, b: Batch): Option<Error> {
    if !UniqueEvents(b.records) then Some(RepeatedEvent)
    else if CodesOf(b.records) - k.stations != {} || TrainsOf(b.records) - k.trains != {} then
      Some(Unknown(CodesOf(b.records) - k.stations, TrainsOf(b.records) - k.trains))
    else if exists i :: 0 <= i < |b.records| && b.records[i].station == "" then Some(MissingStation)
    else None
  }

  /** When and why a batch is refused, over its records. */
  lemma RefusalExactly(k: Known, b: Batch)
    ensures var rs := b.records;
            var repeats := exists i, j :: 0 <= i < j < |rs| && rs[i].eventId == rs[j].eventId;
            match Refusal(k, b)
            case Some(RepeatedEvent) => repeats
            case Some(Unknown(stations, trains)) =>
              && !repeats && (stations != {} || trains != {})
              && (forall c :: c in stations <==> c != "" && c !in k.stations && MentionsStation(rs, c))
              && (forall c :: c in trains <==> c !in k.trains && MentionsTrain(rs, c))
            case _ =>
              && !repeats
              && (forall c | MentionsStation(rs, c) && c != "" :: c in k.stations)
              && (forall c | MentionsTrain(rs, c) :: c in k.trains)
              && (Refusal(k, b) == Some(MissingStation) <==> exists i :: 0 <= i < |rs| && rs[i].station == "")
  {
    forall c
      ensures c in CodesOf(b.records) <==> c != "" && MentionsStation(b.records, c)
      ensures c in TrainsOf(b.records) <==> MentionsTrain(b.records, c)
    {
      CodesAre(b.records, c);
    }
    assert forall c | c in TrainsOf(b.records) && c !in k.trains :: c in TrainsOf(b.records) - k.trains;
    assert forall c | c in CodesOf(b.records) && c !in k.stations :: c in CodesOf(b.records) - k.stations;
  }

  ghost predicate MentionsStation(rs: seq<Record>, c: Code) {
    exists i :: 0 <= i < |rs| && (rs[i].station == c || rs[i].next == Some(c))
  }

  ghost predicate MentionsTrain(rs: seq<Record>, c: Code) { exists i :: 0 <= i < |rs| && rs[i].train == c }

  lemma CodesAre(rs: seq<Record>, c: Code)
    ensures c in CodesOf(rs) <==> c != "" && MentionsStation(rs, c)
    ensures c in TrainsOf(rs) <==> MentionsTrain(rs, c)
  {
    if c != "" && MentionsStation(rs, c) {
      var i :| 0 <= i < |rs| && (rs[i].station == c || rs[i].next == Some(c));
      assert rs[i].station == c || NextCode(rs[i]) == c;
    }
    if c in CodesOf(rs) {
      var i :| 0 <= i < |rs| && (rs[i].station == c || NextCode(rs[i]) == c);
      assert rs[i].station == c || rs[i].next == Some(c);
    }
  }

  ghost function IngestBatch(k: Known, s: State, b: Batch): State {
    if Refusal(k, b).Some? then s else IngestAll(s, b.source, SortByTime(b.records))
  }

  ghost function Deliver(k: Known, s: State, batches: seq<Batch>): State {
    if batches == [] then s else IngestBatch(k, Deliver(k, s, batches[..|batches| - 1]), batches[|batches| - 1])
  }

  /** Everything the accepted batches reported. */
  ghost function Reported(k: Known, batches: seq<Batch>): set<Sighting> {
    if batches == [] then {}
    else
      var last := batches[|batches| - 1];
      Reported(k, batches[..|batches| - 1]) + (if Refusal(k, last).Some? then {} else SightingsOf(last.source, last.records))
  }

  lemma {:induction false} DeliverReflects(k: Known, s: State, batches: seq<Batch>)
    requires OneRecordPerEvent(News(s, Reported(k, batches)))
    ensures Reflects(s, Reported(k, batches), Deliver(k, s, batches))
  {
    if batches == [] {
      NothingReported(s);
    } else {
      var g, last := batches[..|batches| - 1], batches[|batches| - 1];
      FewerRecords(s, Reported(k, g), Reported(k, batches));
      DeliverReflects(k, s, g);
      var sorted := SortByTime(last.records);
      if Refusal(k, last).Some? {
        assert Reported(k, batches) == Reported(k, g);
      } else {
        SameRecords(last.records);
        SameSightings(last.source, sorted, last.records);
        IngestAllReflects(s, Reported(k, g), Deliver(k, s, g), last.source, sorted);
      }
    }
  }

  lemma SameSightings(source: Source, a: seq<Record>, b: seq<Record>)
    requires forall r :: r in a <==> r in b
    ensures SightingsOf(source, a) == SightingsOf(source, b)
  {
    forall x | x in SightingsOf(source, a) ensures x in SightingsOf(source, b) { assert x.1 in b; }
    forall x | x in SightingsOf(source, b) ensures x in SightingsOf(source, a) { assert x.1 in a; }
  }

  /** No two latest new sightings of a train put it in different places, if they are in time. */
  ghost predicate NoTie(s: State, news: set<Sighting>) {
    forall t, x, y | Latest(news, t, x) && Latest(news, t, y) && InTime(s, x) :: LocationOf(x.1) == LocationOf(y.1)
  }

  lemma ReflectsOnce(s: State, a: set<Sighting>, b: set<Sighting>, r: State, t: State)
    requires Reflects(s, a, r) && Reflects(s, b, t) && News(s, a) == News(s, b) && NoTie(s, News(s, a))
    ensures r == t
  {
    forall e ensures e in r.events <==> e in t.events {
      SeenIsNews(s, a, e);
      SeenIsNews(s, b, e);
    }
    assert r.events == t.events;
    RowsOnce(s, News(s, a), r.locations, t.locations);
  }

  lemma RowsOnce(s: State, news: set<Sighting>, rows: map<Code, Location>, others: map<Code, Location>)
    requires Rows(s, news, rows) && Rows(s, news, others) && NoTie(s, news)
    ensures rows == others
  {
    assert rows.Keys == others.Keys;
    forall c | c in rows ensures rows[c] == others[c] {
      OneRow(s, news, c, rows[c], others[c]);
    }
  }

  lemma SeenIsNews(s: State, all: set<Sighting>, e: Event)
    ensures e in s.events || Seen(all, e) <==> e in s.events || Seen(News(s, all), e)
  {
    if x :| x in all && EventOf(x) == e && e !in s.events {
      assert x in News(s, all);
    }
  }

  lemma OneRow(s: State, news: set<Sighting>, t: Code, at: Location, other: Location)
    requires NoTie(s, news)
    requires Shows(s, news, t, at) || Keeps(s, news, t, at)
    requires Shows(s, news, t, other) || Keeps(s, news, t, other)
    ensures at == other
  {
  }

  /** From any tables, whatever else they hold, and whatever the order, the split into batches
      and the redeliveries: two histories that reported the same news end in the same state.
      Every train stands at its latest new sighting, unless its row was strictly newer. */
  lemma Converges(k: Known, s: State, a: seq<Batch>, b: seq<Batch>)
    requires News(s, Reported(k, a)) == News(s, Reported(k, b))
    requires OneRecordPerEvent(News(s, Reported(k, a))) && NoTie(s, News(s, Reported(k, a)))
    ensures Deliver(k, s, a) == Deliver(k, s, b)
    ensures var news, end := News(s, Reported(k, a)), Deliver(k, s, a);
            && (forall e :: e in end.events <==> e in s.events || Seen(news, e))
            && (forall t, x | Latest(news, t, x) ::
                  t in end.locations &&
                  if t in s.locations && x.1.observedAt < s.locations[t].at then end.locations[t] == s.locations[t]
                  else Reports(x.1, end.locations[t]))
            && (forall t | !Located(news, t) ::
                  (t in end.locations <==> t in s.locations) && (t in s.locations ==> end.locations[t] == s.locations[t]))
  {
    DeliverReflects(k, s, a);
    DeliverReflects(k, s, b);
    ReflectsOnce(s, Reported(k, a), Reported(k, b), Deliver(k, s, a), Deliver(k, s, b));
    EndsAt(s, Reported(k, a), Deliver(k, s, a));
  }

  lemma EndsAt(s: State, all: set<Sighting>, end: State)
    requires Reflects(s, all, end) && NoTie(s, News(s, all))
    ensures forall e :: e in end.events <==> e in s.events || Seen(News(s, all), e)
    ensures forall t, x | Latest(News(s, all), t, x) ::
              t in end.locations && end.locations[t] == if InTime(s, x) then LocationOf(x.1) else s.locations[t]
    ensures forall t | !Located(News(s, all), t) ::
              (t in end.locations <==> t in s.locations) && (t in s.locations ==> end.locations[t] == s.locations[t])
  {
    var news := News(s, all);
    forall e ensures e in end.events <==> e in s.events || Seen(news, e) {
      SeenIsNews(s, all, e);
    }
    forall t, x | Latest(news, t, x)
      ensures t in end.locations && end.locations[t] == if InTime(s, x) then LocationOf(x.1) else s.locations[t]
    {
      assert Located(news, t);
      if !InTime(s, x) {
        assert Keeps(s, news, t, s.locations[t]);
        OneRow(s, news, t, end.locations[t], s.locations[t]);
      } else {
        assert Shows(s, news, t, LocationOf(x.1));
        OneRow(s, news, t, end.locations[t], LocationOf(x.1));
      }
    }
    forall t | !Located(news, t) && t in s.locations ensures end.locations[t] == s.locations[t] {
      assert Keeps(s, news, t, s.locations[t]);
      OneRow(s, news, t, end.locations[t], s.locations[t]);
    }
  }

  lemma DistinctTimesNeverTie(s: State, news: set<Sighting>)
    requires forall x, y | x in news && y in news && x != y && x.1.train == y.1.train :: x.1.observedAt != y.1.observedAt
    ensures NoTie(s, news)
  {
  }

  lemma IngestTwo(s: State, source: Source, first: Record, second: Record)
    ensures IngestAll(s, source, [first, second]) == Ingest(Ingest(s, source, first), source, second)
  {
    assert [first, second][..1] == [first] && [first][..0] == [];
    assert IngestAll(s, source, [first]) == Ingest(s, source, first);
  }

  /** An event id used for two records keeps the first to arrive. */
  lemma FirstRecordKeepsTheEvent(s: State, source: Source, first: Record, second: Record)
    requires first.eventId == second.eventId
    ensures IngestAll(s, source, [first, second]) == Ingest(s, source, first)
  {
    IngestTwo(s, source, first, second);
  }

  function Single(x: Sighting): Batch { Batch(x.0, [x.1]) }

  lemma SingleIngests(k: Known, s: State, x: Sighting)
    requires Refusal(k, Single(x)).None?
    ensures IngestBatch(k, s, Single(x)) == Ingest(s, x.0, x.1)
  {
    assert [x.1][..0] == [] && SortByTime([]) == [];
    assert SortByTime([x.1]) == [x.1];
    assert IngestAll(s, x.0, []) == s;
  }

  lemma TwoMore(k: Known, s: State, rest: seq<Batch>, x: Sighting, y: Sighting)
    requires Refusal(k, Single(x)).None? && Refusal(k, Single(y)).None?
    ensures Deliver(k, s, rest + [Single(x), Single(y)]) == Ingest(Ingest(Deliver(k, s, rest), x.0, x.1), y.0, y.1)
    ensures Reported(k, rest + [Single(x), Single(y)]) == Reported(k, rest) + {x, y}
  {
    var all := rest + [Single(x), Single(y)];
    assert all[..|all| - 1] == rest + [Single(x)] && (rest + [Single(x)])[..|rest|] == rest;
    SingleIngests(k, Deliver(k, s, rest), x);
    SingleIngests(k, Ingest(Deliver(k, s, rest), x.0, x.1), y);
    assert SightingsOf(x.0, [x.1]) == {x} && SightingsOf(y.0, [y.1]) == {y};
  }

  lemma LatestMoves(s: State, all: set<Sighting>, more: set<Sighting>, r: State, x: Sighting)
    requires Reflects(s, all, r) && all <= more && OneRecordPerEvent(News(s, more)) && x !in all && EventOf(x) !in s.events
    requires Latest(News(s, more), x.1.train, x) && InTime(s, x)
    ensures VerdictOf(r, x.0, x.1) == Moved
  {
    forall y | y in all ensures EventOf(y) != EventOf(x) {
      assert y in more;
      assert EventOf(y) !in s.events ==> y in News(s, more);
    }
    assert News(s, all) <= News(s, more);
    if x.1.train in r.locations {
      assert Shows(s, News(s, all), x.1.train, r.locations[x.1.train]) || Keeps(s, News(s, all), x.1.train, r.locations[x.1.train]);
    }
  }

  /** The condition is needed: when two latest new sightings of a train are in time and disagree, the
      same reports delivered in the two orders end in different states, from any tables. */
  lemma TieDiverges(k: Known, s: State, rest: seq<Batch>, x: Sighting, y: Sighting)
    requires var all := Reported(k, rest);
             && x !in all && y !in all && OneRecordPerEvent(News(s, all + {x, y}))
             && Latest(News(s, all + {x, y}), x.1.train, x) && Latest(News(s, all + {x, y}), x.1.train, y)
    requires InTime(s, x) && LocationOf(x.1) != LocationOf(y.1)
    requires Refusal(k, Single(x)).None? && Refusal(k, Single(y)).None?
    ensures Reported(k, rest + [Single(x), Single(y)]) == Reported(k, rest + [Single(y), Single(x)])
    ensures Deliver(k, s, rest + [Single(x), Single(y)]) != Deliver(k, s, rest + [Single(y), Single(x)])
  {
    var all := Reported(k, rest);
    TwoMore(k, s, rest, x, y);
    TwoMore(k, s, rest, y, x);
    assert {x, y} == {y, x};
    var t := Deliver(k, s, rest);
    FewerRecords(s, all, all + {x, y});
    DeliverReflects(k, s, rest);
    LatestMoves(s, all, all + {x, y}, t, x);
    LatestMoves(s, all, all + {x, y}, t, y);
    SwapDiffers(t, x, y);
  }

  lemma SwapDiffers(t: State, x: Sighting, y: Sighting)
    requires VerdictOf(t, x.0, x.1) == VerdictOf(t, y.0, y.1) == Moved && EventOf(x) != EventOf(y)
    requires x.1.train == y.1.train && x.1.observedAt == y.1.observedAt && LocationOf(x.1) != LocationOf(y.1)
    ensures Ingest(Ingest(t, x.0, x.1), y.0, y.1) != Ingest(Ingest(t, y.0, y.1), x.0, x.1)
  {
    assert Ingest(Ingest(t, x.0, x.1), y.0, y.1).locations[x.1.train] == LocationOf(y.1);
    assert Ingest(Ingest(t, y.0, y.1), x.0, x.1).locations[x.1.train] == LocationOf(x.1);
  }

  // ---------- The endpoint ----------

  lemma {:induction false} UniqueBySize(rs: seq<Record>)
    ensures |set i | 0 <= i < |rs| :: rs[i].eventId| <= |rs|
    ensures UniqueEvents(rs) <==> |set i | 0 <= i < |rs| :: rs[i].eventId| == |rs|
  {
    if rs != [] {
      var g, last := rs[..|rs| - 1], rs[|rs| - 1];
      UniqueBySize(g);
      var before, ids := set i | 0 <= i < |g| :: g[i].eventId, set i | 0 <= i < |rs| :: rs[i].eventId;
      assert ids == before + {last.eventId} by {
        assert forall i | 0 <= i < |g| :: g[i] == rs[i];
        assert rs[|rs| - 1].eventId in ids;
      }
      assert UniqueEvents(rs) <==> UniqueEvents(g) && last.eventId !in before;
    }
  }

  /** How many of the records get this verdict against the state before the batch. */
  ghost function CountOf(s: State, source: Source, rs: seq<Record>, v: Verdict): nat {
    if rs == [] then 0
    else CountOf(s, source, rs[..|rs| - 1], v) + (if VerdictOf(s, source, rs[|rs| - 1]) == v then 1 else 0)
  }

  ghost function MovedOnly(s: State, source: Source, rs: seq<Record>): seq<Record> {
    if rs == [] then []
    else MovedOnly(s, source, rs[..|rs| - 1]) + (if VerdictOf(s, source, rs[|rs| - 1]) == Moved then [rs[|rs| - 1]] else [])
  }

  ghost predicate Tallies(c: Counts, s: State, source: Source, rs: seq<Record>) {
    && c.accepted == CountOf(s, source, rs, Moved)
    && c.duplicates == CountOf(s, source, rs, Duplicate)
    && c.rejected == CountOf(s, source, rs, Stale)
  }

  lemma NextVerdict(s: State, source: Source, rs: seq<Record>, i: nat)
    requires UniqueEvents(rs) && InTimeOrder(rs) && i < |rs|
    ensures VerdictOf(IngestAll(s, source, rs[..i]), source, rs[i]) == VerdictOf(s, source, rs[i])
    ensures IngestAll(s, source, rs[..i + 1]) == Ingest(IngestAll(s, source, rs[..i]), source, rs[i])
    ensures forall v :: CountOf(s, source, rs[..i + 1], v) ==
              CountOf(s, source, rs[..i], v) + (if VerdictOf(s, source, rs[i]) == v then 1 else 0)
    ensures MovedOnly(s, source, rs[..i + 1]) ==
              MovedOnly(s, source, rs[..i]) + (if VerdictOf(s, source, rs[i]) == Moved then [rs[i]] else [])
  {
    VerdictsAreOnTheStateBefore(s, source, rs, i);
    assert rs[..i + 1][..i] == rs[..i];
  }

  /** The records of a known event. */
  ghost function SeenBefore(s: State, source: Source, rs: seq<Record>): set<int> {
    set i | 0 <= i < |rs| && (source, rs[i].eventId) in s.events
  }

  /** Those of a new event whose train has a strictly newer row. */
  ghost function TooLate(s: State, source: Source, rs: seq<Record>): set<int> {
    set i | 0 <= i < |rs| && (source, rs[i].eventId) !in s.events
            && rs[i].train in s.locations && rs[i].observedAt < s.locations[rs[i].train].at
  }

  lemma NextIndex(s: State, source: Source, g: seq<Record>, r: Record)
    ensures SeenBefore(s, source, g + [r]) == SeenBefore(s, source, g) + (if VerdictOf(s, source, r) == Duplicate then {|g|} else {})
    ensures TooLate(s, source, g + [r]) == TooLate(s, source, g) + (if VerdictOf(s, source, r) == Stale then {|g|} else {})
    ensures |g| !in SeenBefore(s, source, g) && |g| !in TooLate(s, source, g)
  {
    assert forall i | 0 <= i < |g| :: (g + [r])[i] == g[i];
  }

  /** The counts over the tables before the batch. */
  lemma {:induction false} CountsAre(s: State, source: Source, rs: seq<Record>)
    ensures CountOf(s, source, rs, Duplicate) == |SeenBefore(s, source, rs)|
    ensures CountOf(s, source, rs, Stale) == |TooLate(s, source, rs)|
  {
    if rs != [] {
      var g, last := rs[..|rs| - 1], rs[|rs| - 1];
      CountsAre(s, source, g);
      NextIndex(s, source, g, last);
      assert rs == g + [last];
    }
  }

  /** The records that moved a train, in order: with a new event, and no strictly newer row. */
  lemma {:induction false} MovedOnlyIs(s: State, source: Source, rs: seq<Record>) returns (at: seq<nat>)
    ensures |at| == |MovedOnly(s, source, rs)| && forall k, m | 0 <= k < m < |at| :: at[k] < at[m]
    ensures forall k | 0 <= k < |at| :: at[k] < |rs| && MovedOnly(s, source, rs)[k] == rs[at[k]]
    ensures forall i | 0 <= i < |rs| :: i in at <==>
              (source, rs[i].eventId) !in s.events
              && (rs[i].train in s.locations ==> s.locations[rs[i].train].at <= rs[i].observedAt)
  {
    at := [];
    if rs != [] {
      var g := rs[..|rs| - 1];
      at := MovedOnlyIs(s, source, g);
      assert forall i | 0 <= i < |g| :: g[i] == rs[i];
      if VerdictOf(s, source, rs[|g|]) == Moved {
        at := at + [|g|];
      }
    }
  }

  lemma SameIds(a: seq<Record>, b: seq<Record>)
    requires forall r | r in a :: r in b
    ensures (set i | 0 <= i < |a| :: a[i].eventId) <= (set i | 0 <= i < |b| :: b[i].eventId)
  {
    forall i | 0 <= i < |a| ensures exists j :: 0 <= j < |b| && b[j].eventId == a[i].eventId {
      assert a[i] in b;
    }
  }

  lemma SortKeepsUnique(rs: seq<Record>)
    requires UniqueEvents(rs)
    ensures UniqueEvents(SortByTime(rs))
  {
    SameRecords(rs);
    SortIsStable(rs, 0);
    UniqueBySize(rs);
    UniqueBySize(SortByTime(rs));
    var ids := set i | 0 <= i < |rs| :: rs[i].eventId;
    var sorted := set i | 0 <= i < |SortByTime(rs)| :: SortByTime(rs)[i].eventId;
    SameIds(rs, SortByTime(rs));
    SameIds(SortByTime(rs), rs);
    assert ids == sorted;
  }

  class Feed {
    var locations: map<Code, Location>
    var events: set<Event>
    const known: Known

    constructor (known: Known)
      ensures locations == map[] && events == {} && this.known == known
    {
      this.known := known;
      locations, events := map[], {};
    }

    ghost function Now(): State
      reads this
    {
      State(locations, events)
    }

    /** The record loop of one transaction: nothing is stored when it fails. */
    method IngestSorted(source: Source, rs: seq<Record>) returns (reply: Result<Counts, Error>, updates: seq<Record>)
      requires UniqueEvents(rs) && InTimeOrder(rs)
      modifies this
      ensures reply.Err? <==> exists i :: 0 <= i < |rs| && rs[i].station == ""
      ensures reply.Err? ==> reply == Err(MissingStation) && updates == [] && Now() == old(Now())
      ensures reply.Ok? ==>
                && Now() == IngestAll(old(Now()), source, rs)
                && Tallies(reply.value, old(Now()), source, rs) && updates == MovedOnly(old(Now()), source, rs)
                && reply.value.accepted + reply.value.duplicates + reply.value.rejected == |rs|
    {
      var locs, seen := locations, events;
      var accepted, duplicates, stale := 0, 0, 0;
      updates := [];
      for i := 0 to |rs|
        invariant locations == old(locations) && events == old(events)
        invariant forall j | 0 <= j < i :: rs[j].station != ""
        invariant State(locs, seen) == IngestAll(old(Now()), source, rs[..i])
        invariant Tallies(Counts(accepted - stale, duplicates, stale), old(Now()), source, rs[..i])
        invariant accepted + duplicates == i && updates == MovedOnly(old(Now()), source, rs[..i])
      {
        var r := rs[i];
        NextVerdict(old(Now()), source, rs, i);
        if r.station == "" {
          return Err(MissingStation), [];
        }
        if (source, r.eventId) in seen {
          duplicates := duplicates + 1;
          continue;
        }
        seen := seen + {(source, r.eventId)};
        accepted := accepted + 1;
        if r.train in locs && !(locs[r.train].at <= r.observedAt) {
          stale := stale + 1;
          continue;
        }
        locs := locs[r.train := LocationOf(r)];
        updates := updates + [r];
      }
      assert rs[..|rs|] == rs;
      locations, events := locs, seen;
      reply := Ok(Counts(accepted - stale, duplicates, stale));
    }

    /** One request: refused as a whole, or its records taken in order of time; `updates` are
        the records that moved a train. */
    method IngestTrainPositions(b: Batch) returns (reply: Result<Counts, Error>, updates: seq<Record>)
      modifies this
      ensures Now() == IngestBatch(known, old(Now()), b)
      ensures match Refusal(known, b)
              case Some(e) => reply == Err(e) && updates == []
              case None =>
                && reply.Ok? && reply.value.accepted + reply.value.duplicates + reply.value.rejected == |b.records|
                && Tallies(reply.value, old(Now()), b.source, SortByTime(b.records))
                && updates == MovedOnly(old(Now()), b.source, SortByTime(b.records))
    {
      UniqueBySize(b.records);
      var ids := set i | 0 <= i < |b.records| :: b.records[i].eventId;
      if |b.records| != |ids| {
        return Err(RepeatedEvent), [];
      }
      var stations, trains := CodesOf(b.records) - known.stations, TrainsOf(b.records) - known.trains;
      if stations != {} || trains != {} {
        return Err(Unknown(stations, trains)), [];
      }
      var sorted := SortByTime(b.records);
      SameRecords(b.records);
      SortIsStable(b.records, 0);
      SortKeepsUnique(b.records);
      reply, updates := IngestSorted(b.source, sorted);
      EmptyStations(b.records, sorted);
    }
  }

  lemma EmptyStations(a: seq<Record>, b: seq<Record>)
    requires forall r :: r in a <==> r in b
    ensures (exists i :: 0 <= i < |a| && a[i].station == "") <==> (exists i :: 0 <= i < |b| && b[i].station == "")
  {
    forall i | 0 <= i < |a| ensures a[i] in b { assert a[i] in a; }
    forall i | 0 <= i < |b| ensures b[i] in a { assert b[i] in b; }
  }
}
