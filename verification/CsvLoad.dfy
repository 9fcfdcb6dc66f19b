/** Building the index and the first buffers, chunk by chunk, and what the replay then
    returns (app/simulator/csv_replay_simulator.py:98-150, 221-230). */
module CsvLoad {
  import opened Wrappers
  import opened Arith
  import opened CsvReplay

  type Chunks = seq<seq<Row>>

  ghost function Flat(chunks: Chunks): seq<Row> {
    if chunks == [] then [] else Flat(chunks[..|chunks| - 1]) + chunks[|chunks| - 1]
  }

  /** Where the chunk that holds file position `pos` ends. */
  ghost function ChunkEnd(chunks: Chunks, pos: nat): nat {
    if chunks == [] then 0
    else if pos >= |Flat(chunks[..|chunks| - 1])| then |Flat(chunks)|
    else ChunkEnd(chunks[..|chunks| - 1], pos)
  }

  lemma {:induction false} FlatPart(chunks: Chunks, c: nat)
    requires c < |chunks|
    ensures Flat(chunks[..c + 1]) == Flat(chunks[..c]) + chunks[c]
    ensures Flat(chunks[..c + 1]) <= Flat(chunks)
    ensures forall pos | |Flat(chunks[..c])| <= pos < |Flat(chunks[..c + 1])| :: ChunkEnd(chunks, pos) == |Flat(chunks[..c + 1])|
    decreases |chunks|
  {
    var n := |chunks| - 1;
    assert chunks[..c + 1][..c] == chunks[..c];
    if c == n {
      assert chunks[..c + 1] == chunks;
    } else {
      FlatPart(chunks[..n], c);
      assert chunks[..n][..c + 1] == chunks[..c + 1] && chunks[..n][..c] == chunks[..c];
    }
  }

  lemma {:induction false} EndOfPart(chunks: Chunks, c: nat)
    requires c <= |chunks| && |Flat(chunks[..c])| > 0
    ensures ChunkEnd(chunks, |Flat(chunks[..c])| - 1) == |Flat(chunks[..c])|
    decreases c
  {
    FlatPart(chunks, c - 1);
    if chunks[c - 1] == [] {
      EndOfPart(chunks, c - 1);
    }
  }

  /** Every station's rows stand together in the file. */
  ghost predicate Contiguous(file: seq<Row>) {
    forall i, j, k | 0 <= i < j < k < |file| && file[i].station == file[k].station :: file[j].station == file[i].station
  }

  // ---------- One run of equal stations in a chunk ----------

  datatype Entry = Entry(info: Info, deck: Deck)

  type Loaded = map<Station, Entry>

  /** The body of the loop over runs, for the run's own station. The slice that fills
      the buffer ends with the chunk or with the room left, not with the run. */
  function Extend(e: Option<Entry>, chunk: seq<Row>, offset: nat, start: nat, end: nat): Entry
    requires start < end <= |chunk|
  {
    var length := end - start;
    var info := if e.None? then Info(offset + start, length) else e.value.info.(count := e.value.info.count + length);
    var d := if e.None? then Deck([], 0) else e.value.deck;
    var room := STATION_BUFFER_ROWS - |d.buf|;
    Entry(info, if room > 0 then Deck(d.buf + chunk[start..Min(start + room, |chunk|)], d.cursor + Min(room, length)) else d)
  }

  function Get(l: Loaded, s: Station): Option<Entry> {
    if s in l then Some(l[s]) else None
  }

  function AddRun(l: Loaded, chunk: seq<Row>, offset: nat, start: nat, end: nat): Loaded
    requires start < end <= |chunk|
  {
    var s := chunk[start].station;
    l[s := Extend(Get(l, s), chunk, offset, start, end)]
  }

  /** The station's rows among the first `p` of the file are those of `info`. */
  ghost predicate Indexed(file: seq<Row>, p: nat, info: Info, s: Station)
    requires p <= |file|
  {
    && info.count > 0 && info.start + info.count <= p
    && forall i | 0 <= i < p :: file[i].station == s <==> info.start <= i < info.start + info.count
  }

  ghost predicate EntryOk(file: seq<Row>, chunks: Chunks, p: nat, e: Entry, s: Station)
    requires p <= |file|
  {
    var last := e.info.start + e.info.count - 1;
    && Indexed(file, p, e.info, s)
    && last < ChunkEnd(chunks, last) <= |file|
    && e.deck.buf == file[e.info.start..Min(e.info.start + STATION_BUFFER_ROWS, ChunkEnd(chunks, last))]
    && e.deck.cursor == Min(STATION_BUFFER_ROWS, e.info.count)
  }

  ghost predicate LoadInv(file: seq<Row>, chunks: Chunks, p: nat, l: Loaded)
    requires p <= |file|
  {
    && (forall s | s in l :: EntryOk(file, chunks, p, l[s], s))
    && (forall i | 0 <= i < p :: file[i].station in l)
  }

  /** [start, end) of the chunk is a run that does not extend to the left. */
  ghost predicate IsRun(chunk: seq<Row>, start: nat, end: nat) {
    && start < end <= |chunk|
    && (forall i | start <= i < end :: chunk[i].station == chunk[start].station)
    && (start > 0 ==> chunk[start - 1].station != chunk[start].station)
  }

  ghost predicate ChunkAt(file: seq<Row>, chunks: Chunks, offset: nat, chunk: seq<Row>) {
    && offset + |chunk| <= |file|
    && chunk == file[offset..offset + |chunk|]
    && (forall pos | offset <= pos < offset + |chunk| :: ChunkEnd(chunks, pos) == offset + |chunk|)
    && (offset > 0 ==> ChunkEnd(chunks, offset - 1) == offset)
  }

  lemma RunInFile(file: seq<Row>, chunks: Chunks, chunk: seq<Row>, offset: nat, start: nat, end: nat)
    requires ChunkAt(file, chunks, offset, chunk) && IsRun(chunk, start, end)
    ensures forall i | offset + start <= i < offset + end :: file[i].station == chunk[start].station
    ensures start > 0 ==> file[offset + start - 1].station != chunk[start].station
  {
    assert forall i | 0 <= i < |chunk| :: chunk[i] == file[offset + i];
    forall i | offset + start <= i < offset + end
      ensures file[i].station == chunk[start].station
    {
      assert file[i] == chunk[i - offset];
    }
  }

  lemma SliceInFile(file: seq<Row>, chunks: Chunks, chunk: seq<Row>, offset: nat, from: nat, to: nat)
    requires ChunkAt(file, chunks, offset, chunk) && from <= to <= |chunk|
    ensures chunk[from..to] == file[offset + from..offset + to]
  {
    assert forall i | from <= i < to :: chunk[i] == file[offset + i];
  }

  lemma Joined(file: seq<Row>, e: nat, a: nat)
    requires Contiguous(file) && 0 < e <= a < |file| && file[e - 1].station == file[a].station
    ensures e < a ==> file[e].station == file[a].station
  {
  }

  /** A station met again continues exactly where its rows ended, at a chunk's start. */
  lemma Continues(file: seq<Row>, a: nat, info: Info, s: Station)
    requires Contiguous(file) && a < |file| && Indexed(file, a, info, s) && file[a].station == s
    ensures info.start + info.count == a && file[a - 1].station == s
  {
    Joined(file, info.start + info.count, a);
  }

  lemma IndexedGrows(file: seq<Row>, a: nat, b: nat, info: Info, s: Station)
    requires a < b <= |file| && (forall i | a <= i < b :: file[i].station == s)
    requires Indexed(file, a, info, s) && info.start + info.count == a
    ensures Indexed(file, b, info.(count := info.count + (b - a)), s)
  {
  }

  /** The first run of a station. */
  lemma ExtendFirst(file: seq<Row>, chunks: Chunks, chunk: seq<Row>, offset: nat, start: nat, end: nat)
    requires ChunkAt(file, chunks, offset, chunk) && IsRun(chunk, start, end)
    requires forall i | 0 <= i < offset + start :: file[i].station != chunk[start].station
    ensures EntryOk(file, chunks, offset + end, Extend(None, chunk, offset, start, end), chunk[start].station)
  {
    RunInFile(file, chunks, chunk, offset, start, end);
    SliceInFile(file, chunks, chunk, offset, start, Min(start + STATION_BUFFER_ROWS, |chunk|));
  }

  /** A later run: it begins its chunk. */
  lemma ExtendMore(file: seq<Row>, chunks: Chunks, chunk: seq<Row>, offset: nat, end: nat, e: Entry)
    requires ChunkAt(file, chunks, offset, chunk) && IsRun(chunk, 0, end)
    requires EntryOk(file, chunks, offset, e, chunk[0].station) && e.info.start + e.info.count == offset
    ensures EntryOk(file, chunks, offset + end, Extend(Some(e), chunk, offset, 0, end), chunk[0].station)
  {
    RunInFile(file, chunks, chunk, offset, 0, end);
    IndexedGrows(file, offset, offset + end, e.info, chunk[0].station);
    var room := STATION_BUFFER_ROWS - |e.deck.buf|;
    if room > 0 {
      var stop := Min(room, |chunk|);
      SliceInFile(file, chunks, chunk, offset, 0, stop);
      assert file[e.info.start..offset] + file[offset..offset + stop] == file[e.info.start..offset + stop];
    }
  }

  lemma AddRunKeeps(file: seq<Row>, chunks: Chunks, l: Loaded, chunk: seq<Row>, offset: nat, start: nat, end: nat)
    requires Contiguous(file) && ChunkAt(file, chunks, offset, chunk) && IsRun(chunk, start, end)
    requires LoadInv(file, chunks, offset + start, l)
    ensures LoadInv(file, chunks, offset + end, AddRun(l, chunk, offset, start, end))
  {
    var s, r, a := chunk[start].station, AddRun(l, chunk, offset, start, end), offset + start;
    RunInFile(file, chunks, chunk, offset, start, end);
    if s in l {
      assert EntryOk(file, chunks, a, l[s], s);
      Continues(file, a, l[s].info, s);
      ExtendMore(file, chunks, chunk, offset, end, l[s]);
    } else {
      ExtendFirst(file, chunks, chunk, offset, start, end);
    }
    forall t | t in r
      ensures EntryOk(file, chunks, offset + end, r[t], t)
    {
      if t != s { assert EntryOk(file, chunks, a, l[t], t); }
    }
  }

  // ---------- What the loaded index is ----------

  /** However the file was cut into chunks, the index says where each station's rows are. */
  lemma IndexIsTheFile(file: seq<Row>, chunks: Chunks, l: Loaded, s: Station)
    requires LoadInv(file, chunks, |file|, l)
    ensures s in l <==> exists i :: 0 <= i < |file| && file[i].station == s
    ensures s in l ==> forall i | 0 <= i < |file| :: file[i].station == s <==>
                         l[s].info.start <= i < l[s].info.start + l[s].info.count
  {
    if s in l {
      assert EntryOk(file, chunks, |file|, l[s], s);
      assert file[l[s].info.start].station == s;
    }
  }

  lemma IndexIgnoresChunks(file: seq<Row>, chunks: Chunks, l: Loaded, other: Chunks, m: Loaded, s: Station)
    requires LoadInv(file, chunks, |file|, l) && LoadInv(file, other, |file|, m)
    ensures s in l <==> s in m
    ensures s in l ==> l[s].info == m[s].info
  {
    IndexIsTheFile(file, chunks, l, s);
    IndexIsTheFile(file, other, m, s);
    if s in l {
      var a, b := l[s].info, m[s].info;
      assert EntryOk(file, chunks, |file|, l[s], s) && EntryOk(file, other, |file|, m[s], s);
      assert file[a.start].station == s && file[b.start].station == s;
      assert file[a.start + a.count - 1].station == s && file[b.start + b.count - 1].station == s;
    }
  }

  // ---------- What the replay returns ----------

  /** The buffer holds no row of another station: the run fills it, or ends its chunk. */
  ghost predicate FirstWindowClean(chunks: Chunks, info: Info) {
    info.count > 0 && (info.count >= STATION_BUFFER_ROWS || ChunkEnd(chunks, info.start + info.count - 1) == info.start + info.count)
  }

  ghost predicate ReplaysCyclically(file: seq<Row>, e: Entry)
    requires InFile(file, e.info)
  {
    forall n: nat :: Nth(file, e.info, e.deck, n) == file[e.info.start + n % e.info.count]
  }

  lemma CleanReplays(file: seq<Row>, chunks: Chunks, e: Entry, s: Station)
    requires EntryOk(file, chunks, |file|, e, s) && FirstWindowClean(chunks, e.info)
    ensures InFile(file, e.info) && ReplaysCyclically(file, e)
  {
    assert Behind(file, e.info, e.deck) && Place(e.info, e.deck) == 0;
    forall n: nat
      ensures Nth(file, e.info, e.deck, n) == file[e.info.start + n % e.info.count]
    {
      NthIsCyclic(file, e.info, e.deck, n);
      AdvanceIsMod(0, n, e.info.count);
    }
  }

  lemma UncleanBuffer(file: seq<Row>, chunks: Chunks, e: Entry, s: Station)
    requires EntryOk(file, chunks, |file|, e, s) && !FirstWindowClean(chunks, e.info)
    ensures e.info.count < |e.deck.buf| && e.deck.buf[e.info.count].station != s
  {
    var stop := e.info.start + e.info.count;
    assert stop < Min(e.info.start + STATION_BUFFER_ROWS, ChunkEnd(chunks, stop - 1));
    assert e.deck.buf[e.info.count] == file[stop];
  }

  lemma UncleanFails(file: seq<Row>, chunks: Chunks, e: Entry, s: Station)
    requires EntryOk(file, chunks, |file|, e, s) && !FirstWindowClean(chunks, e.info)
    ensures InFile(file, e.info) && !ReplaysCyclically(file, e)
  {
    UncleanBuffer(file, chunks, e, s);
    NthFromBuffer(file, e.info, e.deck, e.info.count);
    if ReplaysCyclically(file, e) {
      CyclicAt(file, e, e.info.count);
      ModUnique(e.info.count, e.info.count, 1, 0);
      assert false;
    }
  }

  lemma CyclicAt(file: seq<Row>, e: Entry, n: nat)
    requires InFile(file, e.info) && ReplaysCyclically(file, e)
    ensures Nth(file, e.info, e.deck, n) == file[e.info.start + n % e.info.count]
  {
  }

  /** The n-th row replayed is row n mod count of the station, for every n, exactly when
      the station has 64 rows or its last row ends its chunk. */
  lemma ReplayExactly(file: seq<Row>, chunks: Chunks, l: Loaded, s: Station)
    requires LoadInv(file, chunks, |file|, l) && s in l
    ensures InFile(file, l[s].info)
    ensures ReplaysCyclically(file, l[s]) <==> FirstWindowClean(chunks, l[s].info)
  {
    if FirstWindowClean(chunks, l[s].info) {
      CleanReplays(file, chunks, l[s], s);
    } else {
      UncleanFails(file, chunks, l[s], s);
    }
  }
}
