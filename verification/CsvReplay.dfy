/**
 Replaying a recorded file station by station without holding it in memory: an index
 of where each station's rows are, built chunk by chunk, and a buffer of up to 64 rows
 refilled from the file (app/simulator/csv_replay_simulator.py:98-230).
 */
module CsvReplay {
  import opened Arith

  type Station = string

  datatype Row = Row(station: Station, day: int, entries: real, exits: real)

  const STATION_BUFFER_ROWS: nat := 64

  /** Where a station's rows are in the file. */
  datatype Info = Info(start: nat, count: nat)

  /** A station's buffered rows, and how many rows of its run were read so far. */
  datatype Deck = Deck(buf: seq<Row>, cursor: nat)

  // ---------- Reading one station ----------

  ghost predicate InFile(file: seq<Row>, info: Info) {
    info.count > 0 && info.start + info.count <= |file|
  }

  /** `_refill_station_buffer`: the next window, from the start again at the end. */
  function Refill(file: seq<Row>, info: Info, d: Deck): Deck
    requires InFile(file, info)
  {
    var cursor := if d.cursor >= info.count then 0 else d.cursor;
    var take := Min(STATION_BUFFER_ROWS, info.count - cursor);
    var window := file[info.start + cursor..info.start + cursor + take];
    Deck(d.buf + window, cursor + |window|)
  }

  function NextOf(file: seq<Row>, info: Info, d: Deck): (Row, Deck)
    requires InFile(file, info)
  {
    var f := if d.buf == [] then Refill(file, info, d) else d;
    (f.buf[0], f.(buf := f.buf[1..]))
  }

  /** The row of the n-th call (from 0) of `_next_row`. */
  ghost function Nth(file: seq<Row>, info: Info, d: Deck, n: nat): Row
    requires InFile(file, info)
    decreases n
  {
    if n == 0 then NextOf(file, info, d).0 else Nth(file, info, NextOf(file, info, d).1, n - 1)
  }

  /** The buffer holds the rows of the run just before the cursor. */
  ghost predicate Behind(file: seq<Row>, info: Info, d: Deck)
    requires InFile(file, info)
  {
    && |d.buf| <= d.cursor <= info.count
    && d.buf == file[info.start + d.cursor - |d.buf|..info.start + d.cursor]
  }

  /** The place in the run of the next row to be returned. */
  function Place(info: Info, d: Deck): nat
    requires |d.buf| <= d.cursor <= info.count
  {
    if d.cursor - |d.buf| == info.count then 0 else d.cursor - |d.buf|
  }

  lemma RefillIsBehind(file: seq<Row>, info: Info, d: Deck)
    requires InFile(file, info) && Behind(file, info, d) && d.buf == []
    ensures var e := Refill(file, info, d);
            Behind(file, info, e) && e.buf != [] && e.cursor - |e.buf| == Place(info, d)
  {
  }

  lemma NextIsCyclic(file: seq<Row>, info: Info, d: Deck)
    requires InFile(file, info) && Behind(file, info, d)
    ensures var (row, e) := NextOf(file, info, d);
            && row == file[info.start + Place(info, d)]
            && Behind(file, info, e) && Place(info, e) == Succ(Place(info, d), info.count)
  {
    if d.buf == [] {
      RefillIsBehind(file, info, d);
    }
    var f := if d.buf == [] then Refill(file, info, d) else d;
    var at := info.start + f.cursor - |f.buf|;
    assert f.buf[0] == file[at];
    assert f.buf[1..] == file[at + 1..info.start + f.cursor];
  }

  lemma {:induction false} NthIsCyclic(file: seq<Row>, info: Info, d: Deck, n: nat)
    requires InFile(file, info) && Behind(file, info, d)
    ensures Advance(Place(info, d), n, info.count) < info.count
    ensures Nth(file, info, d, n) == file[info.start + Advance(Place(info, d), n, info.count)]
    decreases n
  {
    NextIsCyclic(file, info, d);
    if n > 0 {
      NthIsCyclic(file, info, NextOf(file, info, d).1, n - 1);
    }
  }

  lemma {:induction false} NthFromBuffer(file: seq<Row>, info: Info, d: Deck, n: nat)
    requires InFile(file, info) && n < |d.buf|
    ensures Nth(file, info, d, n) == d.buf[n]
    decreases n
  {
    if n > 0 {
      NthFromBuffer(file, info, NextOf(file, info, d).1, n - 1);
    }
  }
}
