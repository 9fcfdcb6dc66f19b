/** The replay's module state and the functions that update it in place
    (app/simulator/csv_replay_simulator.py). `file` is what reading the file again yields. */
module CsvSimulator {
  import opened Wrappers
  import opened Arith
  import opened CsvReplay
  import opened CsvLoad
  import O = Occupancy

  /** Where a chunk's station changes: the starts and ends of its maximal runs. */
  method RunBounds(chunk: seq<Row>) returns (starts: seq<nat>, ends: seq<nat>)
    requires chunk != []
    ensures Cut(chunk, starts, ends)
  {
    starts, ends := [0], [];
    for i := 1 to |chunk|
      invariant |starts| == |ends| + 1 && starts[0] == 0 && starts[|ends|] < i
      invariant forall j | 0 <= j < |ends| :: IsRun(chunk, starts[j], ends[j]) && starts[j + 1] == ends[j]
      invariant IsRun(chunk, starts[|ends|], i)
    {
      if chunk[i].station != chunk[i - 1].station {
        starts, ends := starts + [i], ends + [i];
      }
    }
    ends := ends + [|chunk|];
  }

  ghost predicate Cut(chunk: seq<Row>, starts: seq<nat>, ends: seq<nat>) {
    && |starts| == |ends| > 0 && starts[0] == 0 && ends[|ends| - 1] == |chunk|
    && (forall i | 0 <= i < |starts| :: IsRun(chunk, starts[i], ends[i]))
    && (forall i | 0 <= i < |starts| - 1 :: starts[i + 1] == ends[i])
  }

  /** The first `n` runs of a chunk added in turn. */
  ghost function AddRuns(l: Loaded, chunk: seq<Row>, offset: nat, starts: seq<nat>, ends: seq<nat>, n: nat): Loaded
    requires Cut(chunk, starts, ends) && n <= |starts|
  {
    if n == 0 then l else AddRun(AddRuns(l, chunk, offset, starts, ends, n - 1), chunk, offset, starts[n - 1], ends[n - 1])
  }

  /** Whatever each run keeps, all of them keep. */
  lemma {:induction false} AddRunsKeep(kept: (nat, Loaded) -> bool, l: Loaded, chunk: seq<Row>, offset: nat,
                                       starts: seq<nat>, ends: seq<nat>, n: nat)
    requires Cut(chunk, starts, ends) && 0 < n <= |starts| && kept(offset, l)
    requires forall i, m | 0 <= i < |starts| && kept(offset + starts[i], m) ::
               kept(offset + ends[i], AddRun(m, chunk, offset, starts[i], ends[i]))
    ensures kept(offset + ends[n - 1], AddRuns(l, chunk, offset, starts, ends, n))
  {
    if n > 1 {
      AddRunsKeep(kept, l, chunk, offset, starts, ends, n - 1);
    }
    var m := AddRuns(l, chunk, offset, starts, ends, n - 1);
    assert n == 1 ==> m == l && starts[0] == 0;
    assert kept(offset + starts[n - 1], m);
  }

  /** The loading invariant as a value, so that lemmas can pass it on unread. */
  ghost function Kept(file: seq<Row>, chunks: Chunks): (nat, Loaded) -> bool {
    (p: nat, m: Loaded) => p <= |file| && LoadInv(file, chunks, p, m)
  }

  lemma RunKeeps(file: seq<Row>, chunks: Chunks, m: Loaded, chunk: seq<Row>, offset: nat, start: nat, end: nat)
    requires Contiguous(file) && ChunkAt(file, chunks, offset, chunk) && IsRun(chunk, start, end)
    ensures Kept(file, chunks)(offset + start, m) ==> Kept(file, chunks)(offset + end, AddRun(m, chunk, offset, start, end))
  {
    if Kept(file, chunks)(offset + start, m) {
      AddRunKeeps(file, chunks, m, chunk, offset, start, end);
    }
  }

  lemma EveryRunKeeps(file: seq<Row>, chunks: Chunks, chunk: seq<Row>, offset: nat, starts: seq<nat>, ends: seq<nat>)
    requires Contiguous(file) && ChunkAt(file, chunks, offset, chunk) && Cut(chunk, starts, ends)
    ensures forall i, m | 0 <= i < |starts| && Kept(file, chunks)(offset + starts[i], m) ::
              Kept(file, chunks)(offset + ends[i], AddRun(m, chunk, offset, starts[i], ends[i]))
  {
    forall i, m | 0 <= i < |starts| && Kept(file, chunks)(offset + starts[i], m)
      ensures Kept(file, chunks)(offset + ends[i], AddRun(m, chunk, offset, starts[i], ends[i]))
    {
      assert IsRun(chunk, starts[i], ends[i]);
      RunKeeps(file, chunks, m, chunk, offset, starts[i], ends[i]);
    }
  }

  lemma ChunkKeeps(file: seq<Row>, chunks: Chunks, l: Loaded, chunk: seq<Row>, offset: nat, starts: seq<nat>, ends: seq<nat>)
    requires Contiguous(file) && ChunkAt(file, chunks, offset, chunk) && Cut(chunk, starts, ends)
    requires Kept(file, chunks)(offset, l)
    ensures Kept(file, chunks)(offset + |chunk|, AddRuns(l, chunk, offset, starts, ends, |starts|))
  {
    EveryRunKeeps(file, chunks, chunk, offset, starts, ends);
    AddRunsKeep(Kept(file, chunks), l, chunk, offset, starts, ends, |starts|);
  }

  class Simulator {
    const file: seq<Row>
    var index: map<Station, Info>
    var rows: map<Station, seq<Row>>
    var cursor: map<Station, nat>
    var occupancy: map<Station, real>
    var lastDay: map<Station, int>

    ghost predicate SameKeys()
      reads this
    {
      index.Keys == rows.Keys == cursor.Keys
    }

    ghost function Table(): Loaded
      reads this
      requires SameKeys()
    {
      map s | s in index :: Entry(index[s], Deck(rows[s], cursor[s]))
    }

    ghost predicate Valid()
      reads this
    {
      SameKeys() && forall s | s in index :: InFile(file, index[s])
    }

    ghost function Gauge(s: Station): O.Gauge
      reads this
    {
      O.Gauge(if s in occupancy then occupancy[s] else 0.0, if s in lastDay then Some(lastDay[s]) else None)
    }

    constructor (file: seq<Row>)
      ensures this.file == file && Valid() && Table() == map[]
      ensures forall s :: Gauge(s) == O.Gauge(0.0, None)
    {
      this.file := file;
      index, rows, cursor, occupancy, lastDay := map[], map[], map[], map[], map[];
    }

    /** The loop body of `_load_csv_once` for one run. */
    method IndexRun(chunk: seq<Row>, offset: nat, start: nat, end: nat)
      requires SameKeys() && start < end <= |chunk|
      modifies `index, `rows, `cursor
      ensures SameKeys() && Table() == AddRun(old(Table()), chunk, offset, start, end)
    {
      var s := chunk[start].station;
      var length := end - start;
      if s !in index {
        index, rows, cursor := index[s := Info(offset + start, length)], rows[s := []], cursor[s := 0];
      } else {
        index := index[s := index[s].(count := index[s].count + length)];
      }
      var buf := rows[s];
      if |buf| < STATION_BUFFER_ROWS {
        var room := STATION_BUFFER_ROWS - |buf|;
        rows := rows[s := buf + chunk[start..Min(start + room, |chunk|)]];
        cursor := cursor[s := cursor[s] + Min(room, length)];
      }
    }

    method IndexRuns(chunk: seq<Row>, offset: nat) returns (ghost starts: seq<nat>, ghost ends: seq<nat>)
      requires SameKeys() && chunk != []
      modifies `index, `rows, `cursor
      ensures Cut(chunk, starts, ends)
      ensures SameKeys() && Table() == AddRuns(old(Table()), chunk, offset, starts, ends, |starts|)
    {
      var from, to := RunBounds(chunk);
      starts, ends := from, to;
      for i := 0 to |from|
        invariant SameKeys() && Table() == AddRuns(old(Table()), chunk, offset, from, to, i)
      {
        assert IsRun(chunk, from[i], to[i]);
        IndexRun(chunk, offset, from[i], to[i]);
      }
    }

    method IndexChunk(chunks: Chunks, chunk: seq<Row>, offset: nat)
      requires Contiguous(file) && ChunkAt(file, chunks, offset, chunk)
      requires SameKeys() && Kept(file, chunks)(offset, Table())
      modifies `index, `rows, `cursor
      ensures SameKeys() && Kept(file, chunks)(offset + |chunk|, Table())
    {
      if chunk != [] {
        ghost var before := Table();
        ghost var starts, ends := IndexRuns(chunk, offset);
        ChunkKeeps(file, chunks, before, chunk, offset, starts, ends);
      }
    }

    /** `_load_csv_once`, for any way of cutting the file into chunks. */
    method LoadCsv(chunks: Chunks)
      requires Contiguous(file) && file == Flat(chunks) && index.Keys == rows.Keys == cursor.Keys == {}
      modifies `index, `rows, `cursor
      ensures Valid() && LoadInv(file, chunks, |file|, Table())
    {
      var offset := 0;
      for c := 0 to |chunks|
        invariant SameKeys() && offset == |Flat(chunks[..c])| <= |file|
        invariant Kept(file, chunks)(offset, Table())
      {
        FlatPart(chunks, c);
        if offset > 0 {
          EndOfPart(chunks, c);
        }
        ghost var next := Flat(chunks[..c + 1]);
        assert next == file[..|next|];
        assert chunks[c] == file[offset..offset + |chunks[c]|];
        IndexChunk(chunks, chunks[c], offset);
        offset := offset + |chunks[c]|;
      }
      assert chunks[..|chunks|] == chunks;
      forall s | s in index
        ensures InFile(file, index[s])
      {
        assert EntryOk(file, chunks, |file|, Table()[s], s);
      }
    }

    method RefillStationBuffer(s: Station) returns (refilled: bool)
      requires Valid()
      modifies `rows, `cursor
      ensures Valid() && (refilled <==> s in index)
      ensures Table() == if s in index
                         then old(Table())[s := Entry(index[s], Refill(file, index[s], old(Table())[s].deck))] else old(Table())
    {
      if s !in index {
        return false;
      }
      var info := index[s];
      var from := if cursor[s] >= info.count then 0 else cursor[s];
      var take := Min(STATION_BUFFER_ROWS, info.count - from);
      var skip := info.start + from;
      var window := file[skip..skip + take];
      rows := rows[s := rows[s] + window];
      cursor := cursor[s := from + |window|];
      refilled := true;
    }

    method NextRow(s: Station) returns (row: Option<Row>)
      requires Valid()
      modifies `rows, `cursor
      ensures Valid() && (row.Some? <==> s in index)
      ensures s !in index ==> Table() == old(Table())
      ensures s in index ==>
                && row.value == NextOf(file, index[s], old(Table())[s].deck).0
                && Table() == old(Table())[s := Entry(index[s], NextOf(file, index[s], old(Table())[s].deck).1)]
    {
      if s !in rows {
        return None;
      }
      ghost var deck := Deck(rows[s], cursor[s]);
      assert old(Table())[s] == Entry(index[s], deck);
      if rows[s] == [] {
        var refilled := RefillStationBuffer(s);
        assert Table()[s].deck == Refill(file, index[s], deck);
      }
      row := PopLeft(s);
    }

    method PopLeft(s: Station) returns (row: Option<Row>)
      requires Valid() && s in index && rows[s] != []
      modifies `rows
      ensures Valid() && row == Some(old(rows)[s][0]) && rows == old(rows)[s := old(rows)[s][1..]]
    {
      row := Some(rows[s][0]);
      rows := rows[s := rows[s][1..]];
    }

    method CurrentCountFromRow(s: Station, row: Row) returns (count: int)
      modifies `occupancy, `lastDay
      ensures Gauge(s) == O.Step(old(Gauge(s)), row) && count == Round(Gauge(s).occupancy)
      ensures var before := if old(Gauge(s)).lastDay == Some(row.day) then old(Gauge(s)).occupancy else 0.0;
              var flow := before + row.entries - row.exits;
              Gauge(s) == O.Gauge(if flow > 0.0 then flow else 0.0, Some(row.day))
      ensures forall t | t != s :: Gauge(t) == old(Gauge(t))
    {
      if s !in lastDay || lastDay[s] != row.day {
        occupancy := occupancy[s := 0.0];
      }
      lastDay := lastDay[s := row.day];
      var before := if s in occupancy then occupancy[s] else 0.0;
      occupancy := occupancy[s := O.NonNegative(before + row.entries - row.exits)];
      count := Round(occupancy[s]);
    }
  }
}
