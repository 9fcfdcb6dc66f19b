/**
 Coalescing of one event's updates: notifying threads merge into a buffer under a
 lock, the first of them schedules a flush, the flush broadcasts the buffer
 (app/websocket/manager.py:385-436). The same event is also broadcast past the buffer: by
 the simulators on every tick, and for every relayed message. The states below are those
 between the critical sections, so runs cover every interleaving of threads with the loop.
 */
module Coalescing {
  import opened Wrappers
  import opened Messages

  datatype Notice = Notice(updates: seq<Item>, timestamp: Option<string>)

  /** The buffered bucket of one event. */
  datatype Bucket = Bucket(byKey: Dict, timestamp: Option<string>)

  const EMPTY_BUCKET := Bucket(EMPTY_DICT, None)

  function Merge(b: Bucket, n: Notice): Bucket {
    Bucket(Absorb(b.byKey, n.updates), Or(n.timestamp, b.timestamp))
  }

  /** One broadcast of merged updates, with the stretch of notices it was made from. */
  datatype Batch = Batch(from: nat, to: nat, updates: seq<Item>, timestamp: Option<string>)

  /** One write to the latest state, as its writer meant it: a notice, or a direct broadcast
      together with what the buffer held when it was made. */
  datatype Write = Noticed(updates: seq<Item>) | Directly(updates: seq<Item>, over: Dict)

  /** `submitting`: threads that have set the flag and not yet handed the flush to the
      loop; `flushes`: flushes the loop will run; `notices`: everything notified, in lock
      order; `cut`: how many of them were popped; `log`: notices and direct broadcasts in order. */
  datatype State = State(
    buffer: Option<Bucket>,
    scheduled: bool,
    submitting: nat,
    flushes: nat,
    latest: Dict,
    notices: seq<Notice>,
    cut: nat,
    sent: seq<Batch>,
    log: seq<Write>
  )

  const INITIAL := State(None, false, 0, 0, EMPTY_DICT, [], 0, [], [])

  datatype Step = Notify(notice: Notice) | Submitted | SubmitFailed | Flush | Direct(updates: seq<Item>)

  function Buffered(s: State): Dict { if s.buffer.Some? then s.buffer.value.byKey else EMPTY_DICT }

  predicate Enabled(s: State, step: Step) {
    match step
    case Notify(_) => true
    case Submitted => s.submitting > 0
    case SubmitFailed => s.submitting > 0
    case Flush => s.flushes > 0
    case Direct(_) => true
  }

  function Apply(s: State, step: Step): State
    requires Enabled(s, step)
  {
    match step
    case Notify(n) =>
      s.(buffer := Some(Merge(if s.buffer.Some? then s.buffer.value else EMPTY_BUCKET, n)),
         notices := s.notices + [n],
         log := s.log + [Noticed(n.updates)],
         scheduled := true,
         submitting := if s.scheduled then s.submitting else s.submitting + 1)
    case Submitted => s.(submitting := s.submitting - 1, flushes := s.flushes + 1)
    case SubmitFailed => s.(submitting := s.submitting - 1, scheduled := false)
    case Flush =>
      var r := s.(buffer := None, scheduled := false, flushes := s.flushes - 1, cut := |s.notices|);
      if s.buffer.None? || s.buffer.value.byKey.keys == [] then r
      else
        var updates := Values(s.buffer.value.byKey);
        r.(latest := Remember(s.latest, updates),
           sent := s.sent + [Batch(s.cut, |s.notices|, updates, s.buffer.value.timestamp)])
    case Direct(updates) => s.(latest := Remember(s.latest, updates), log := s.log + [Directly(updates, Buffered(s))])
  }

  // ---------- The last write of a key ----------

  ghost function LastWrite(log: seq<Write>, k: MergeKey): Option<Item> {
    if log == [] then None else Or(LastKeyed(log[|log| - 1].updates, k), LastWrite(log[..|log| - 1], k))
  }

  /** The last write of the key was a notice, or a direct broadcast over a buffer that held
      nothing else for the key. */
  ghost predicate Surfaces(log: seq<Write>, k: MergeKey) {
    log != [] ==>
      var last := log[|log| - 1];
      if LastKeyed(last.updates, k).None? then Surfaces(log[..|log| - 1], k)
      else last.Directly? ==> Find(last.over, k).None? || Find(last.over, k) == LastKeyed(last.updates, k)
  }

  // ---------- Invariants of every run ----------

  ghost function BucketOf(ns: seq<Notice>): Bucket {
    if ns == [] then EMPTY_BUCKET else Merge(BucketOf(ns[..|ns| - 1]), ns[|ns| - 1])
  }

  ghost function ItemsOf(ns: seq<Notice>): seq<Item> {
    if ns == [] then [] else ItemsOf(ns[..|ns| - 1]) + ns[|ns| - 1].updates
  }

  ghost predicate Scheduling(s: State) {
    && s.submitting + s.flushes == (if s.scheduled then 1 else 0)
    && (s.scheduled ==> s.buffer.Some?)
  }

  ghost predicate Buffering(s: State) {
    && s.cut <= |s.notices|
    && (s.buffer.None? ==> s.cut == |s.notices|)
    && (s.buffer.Some? ==> s.buffer.value == BucketOf(s.notices[s.cut..]))
  }

  /** What the clients will have once the buffer is flushed. */
  ghost function Pending(s: State, k: MergeKey): Option<Item> {
    Or(Find(Buffered(s), k), Find(s.latest, k))
  }

  /** The last write wins exactly where it surfaces. */
  ghost predicate Wins(s: State, k: MergeKey) {
    Pending(s, k) == LastWrite(s.log, k) <==> Surfaces(s.log, k)
  }

  ghost predicate LastWriteWins(s: State) { forall id :: Wins(s, Key(id)) }

  lemma {:induction false} BucketFinds(ns: seq<Notice>, k: MergeKey)
    ensures Find(BucketOf(ns).byKey, k) == LastBuffered(ItemsOf(ns), k)
  {
    if ns != [] {
      var m := ns[..|ns| - 1];
      BucketFinds(m, k);
      AbsorbFinds(BucketOf(m).byKey, ns[|ns| - 1].updates, k);
      LastBufferedSplit(ItemsOf(m), ns[|ns| - 1].updates, k);
    }
  }

  lemma {:induction false} LastBufferedSplit(a: seq<Item>, b: seq<Item>, k: MergeKey)
    ensures LastBuffered(a + b, k) == Or(LastBuffered(b, k), LastBuffered(a, k))
  {
    if b == [] {
      assert a + b == a;
    } else {
      assert (a + b)[..|a + b| - 1] == a + b[..|b| - 1];
      LastBufferedSplit(a, b[..|b| - 1], k);
    }
  }

  lemma FlushRemembers(latest: Dict, byKey: Dict, k: MergeKey)
    requires k != NullKey
    ensures Find(Remember(latest, Values(byKey)), k) == Or(Find(byKey, k), Find(latest, k))
  {
    RememberFinds(latest, Values(byKey), k);
    ValuesLast(byKey, k);
  }

  lemma NotifyWins(s: State, n: Notice, k: MergeKey)
    requires k != NullKey && Wins(s, k)
    ensures Wins(Apply(s, Notify(n)), k)
  {
    var b := if s.buffer.Some? then s.buffer.value else EMPTY_BUCKET;
    AbsorbFinds(b.byKey, n.updates, k);
    LastIs(n.updates, k);
    assert (s.log + [Noticed(n.updates)])[..|s.log|] == s.log;
  }

  lemma DirectWins(s: State, updates: seq<Item>, k: MergeKey)
    requires k != NullKey && Wins(s, k)
    ensures Wins(Apply(s, Direct(updates)), k)
  {
    RememberFinds(s.latest, updates, k);
    assert (s.log + [Directly(updates, Buffered(s))])[..|s.log|] == s.log;
  }

  ghost predicate Inv(s: State) {
    Scheduling(s) && Buffering(s) && LastWriteWins(s)
  }

  lemma NotifyBuffers(s: State, n: Notice)
    requires Buffering(s)
    ensures Buffering(Apply(s, Notify(n)))
  {
    var ns, stretch := s.notices + [n], s.notices[s.cut..];
    assert ns[s.cut..] == stretch + [n];
    assert (stretch + [n])[..|stretch|] == stretch;
  }

  lemma FlushPends(s: State, k: MergeKey)
    requires Buffering(s) && s.flushes > 0 && k != NullKey
    ensures Pending(Apply(s, Flush), k) == Pending(s, k)
  {
    if s.buffer.Some? {
      FlushRemembers(s.latest, s.buffer.value.byKey, k);
    }
  }

  lemma InvStep(s: State, step: Step)
    requires Inv(s) && Enabled(s, step)
    ensures Inv(Apply(s, step))
  {
    match step
    case Notify(n) =>
      NotifyBuffers(s, n);
      forall id ensures Wins(Apply(s, step), Key(id)) {
        NotifyWins(s, n, Key(id));
      }
    case Submitted =>
    case SubmitFailed =>
    case Flush =>
      assert s.notices[|s.notices|..] == [];
      forall id ensures Wins(Apply(s, step), Key(id)) {
        assert Wins(s, Key(id));
        FlushPends(s, Key(id));
      }
    case Direct(updates) =>
      forall id ensures Wins(Apply(s, step), Key(id)) {
        DirectWins(s, updates, Key(id));
      }
  }

  /** The state after a run from the start, or None when a step of it cannot happen. */
  ghost function Exec(run: seq<Step>): Option<State> {
    if run == [] then Some(INITIAL)
    else
      var before := Exec(run[..|run| - 1]);
      if before.Some? && Enabled(before.value, run[|run| - 1]) then Some(Apply(before.value, run[|run| - 1]))
      else None
  }

  lemma {:induction false} InvRun(run: seq<Step>)
    requires Exec(run).Some?
    ensures Inv(Exec(run).value)
  {
    if run != [] {
      InvRun(run[..|run| - 1]);
      InvStep(Exec(run[..|run| - 1]).value, run[|run| - 1]);
    }
  }

  /** For any interleaving of notices, direct broadcasts and flushes, failed submissions
      included: the latest state overlaid with what is still buffered holds the last write of
      a key exactly where that was a notice, or a direct broadcast over a buffer holding
      nothing else for the key. Once the buffer has drained, the latest state alone does. */
  lemma CoalescingKeepsLastWrites(run: seq<Step>, id: int)
    requires Exec(run).Some?
    ensures var s := Exec(run).value;
            && (Pending(s, Key(id)) == LastWrite(s.log, Key(id)) <==> Surfaces(s.log, Key(id)))
            && (s.buffer.None? ==> Find(s.latest, Key(id)) == Pending(s, Key(id)))
  {
    InvRun(run);
    assert Wins(Exec(run).value, Key(id));
  }

  ghost predicate OnlyNotices(run: seq<Step>) { forall i | 0 <= i < |run| :: !run[i].Direct? }

  lemma NoticeSurfaces(s: State, n: Notice, k: MergeKey)
    requires Surfaces(s.log, k) && LastWrite(s.log, k) == LastKeyed(ItemsOf(s.notices), k)
    ensures var t := Apply(s, Notify(n)); Surfaces(t.log, k) && LastWrite(t.log, k) == LastKeyed(ItemsOf(t.notices), k)
  {
    assert (s.log + [Noticed(n.updates)])[..|s.log|] == s.log;
    assert (s.notices + [n])[..|s.notices|] == s.notices;
    LastKeyedSplit(ItemsOf(s.notices), n.updates, k);
  }

  lemma {:induction false} OnlyNoticesSurface(run: seq<Step>, k: MergeKey)
    requires Exec(run).Some? && OnlyNotices(run)
    ensures var s := Exec(run).value; Surfaces(s.log, k) && LastWrite(s.log, k) == LastKeyed(ItemsOf(s.notices), k)
  {
    if run != [] {
      var g, step := run[..|run| - 1], run[|run| - 1];
      OnlyNoticesSurface(g, k);
      if step.Notify? {
        NoticeSurfaces(Exec(g).value, step.notice, k);
      }
    }
  }

  /** So with notices alone no write is ever lost: what is pending is the uncoalesced
      last-write-wins fold of all notices, in lock order. */
  lemma NoticesKeepLastWrites(run: seq<Step>, id: int)
    requires Exec(run).Some? && OnlyNotices(run)
    ensures var s := Exec(run).value;
            && Pending(s, Key(id)) == LastKeyed(ItemsOf(s.notices), Key(id))
            && (s.buffer.None? ==> Find(s.latest, Key(id)) == LastKeyed(ItemsOf(s.notices), Key(id)))
  {
    CoalescingKeepsLastWrites(run, id);
    OnlyNoticesSurface(run, Key(id));
  }

  lemma ExecSnoc(run: seq<Step>, step: Step)
    requires Exec(run).Some? && Enabled(Exec(run).value, step)
    ensures Exec(run + [step]) == Some(Apply(Exec(run).value, step))
  {
    assert (run + [step])[..|run|] == run;
  }

  /** Whatever a direct broadcast says of a key that is buffered, the flush undoes it: the
      latest state ends at the older, buffered item. */
  lemma DirectIsUndone(run: seq<Step>, updates: seq<Item>, id: int)
    requires Exec(run).Some? && Exec(run).value.flushes > 0 && Find(Buffered(Exec(run).value), Key(id)).Some?
    ensures var r := Exec(run + [Direct(updates)] + [Flush]);
            && r.Some? && r.value.buffer.None?
            && Find(r.value.latest, Key(id)) == Find(Buffered(Exec(run).value), Key(id))
  {
    var s := Exec(run).value;
    ExecSnoc(run, Direct(updates));
    ExecSnoc(run + [Direct(updates)], Flush);
    FlushRemembers(Remember(s.latest, updates), s.buffer.value.byKey, Key(id));
  }

  /** Such a run: an older count is notified, a tick broadcasts the newer one, the flush puts
      the older one back. */
  lemma DirectIsOvertaken(id: int, older: string, newer: string)
    ensures var run := [Notify(Notice([Keyed(Key(id), older)], None))] + [Submitted];
            var r := Exec(run + [Direct([Keyed(Key(id), newer)])] + [Flush]);
            && r.Some? && Find(r.value.latest, Key(id)) == Some(Keyed(Key(id), older))
            && LastWrite(r.value.log, Key(id)) == Some(Keyed(Key(id), newer))
  {
    var a, b := Keyed(Key(id), older), Keyed(Key(id), newer);
    var n := Notice([a], None);
    assert [] + [Notify(n)] == [Notify(n)] && [a][..0] == [] && [b][..0] == [];
    ExecSnoc([], Notify(n));
    ExecSnoc([Notify(n)], Submitted);
    var s := Exec([Notify(n)] + [Submitted]).value;
    AbsorbFinds(EMPTY_DICT, [a], Key(id));
    DirectIsUndone([Notify(n)] + [Submitted], [b], id);
    ExecSnoc([Notify(n)] + [Submitted], Direct([b]));
    ExecSnoc([Notify(n)] + [Submitted] + [Direct([b])], Flush);
    assert (s.log + [Directly([b], Buffered(s))])[..|s.log|] == s.log;
    assert LastKeyed([b], Key(id)) == Some(b);
  }

  ghost predicate NoneFails(run: seq<Step>) {
    forall i | 0 <= i < |run| :: !run[i].SubmitFailed?
  }

  lemma {:induction false} BufferedIsScheduled(run: seq<Step>)
    requires Exec(run).Some? && NoneFails(run)
    ensures Exec(run).value.buffer.Some? <==> Exec(run).value.scheduled
  {
    if run != [] {
      BufferedIsScheduled(run[..|run| - 1]);
      InvRun(run[..|run| - 1]);
    }
  }

  /** While no submission fails, a buffer has exactly one flush on its way, and a flush
      on its way has a buffer. */
  lemma ExactlyOneFlush(run: seq<Step>)
    requires Exec(run).Some? && NoneFails(run)
    ensures var s := Exec(run).value;
            s.submitting + s.flushes == if s.buffer.Some? then 1 else 0
  {
    InvRun(run);
    BufferedIsScheduled(run);
  }

  /** A submission failed, and nothing was notified since. */
  ghost predicate Stranded(run: seq<Step>) {
    run != [] && (run[|run| - 1].SubmitFailed? || (!run[|run| - 1].Notify? && Stranded(run[..|run| - 1])))
  }

  /** In every run a buffer has no flush on its way exactly when the last submission failed
      and no notice came since; the next notice then sends one. */
  lemma {:induction false} StrandedExactly(run: seq<Step>)
    requires Exec(run).Some?
    ensures var s := Exec(run).value;
            && (s.buffer.Some? && s.submitting + s.flushes == 0 <==> Stranded(run))
            && (s.buffer.Some? ==> (s.submitting + s.flushes == 1 <==> s.scheduled))
  {
    InvRun(run);
    if run != [] {
      StrandedExactly(run[..|run| - 1]);
      InvRun(run[..|run| - 1]);
    }
  }

  /** Such a run. */
  lemma FailureStrands(n: Notice)
    ensures var r := Exec([Notify(n), SubmitFailed]);
            r.Some? && r.value.buffer.Some? && r.value.submitting + r.value.flushes == 0
  {
    assert [Notify(n), SubmitFailed][..1] == [Notify(n)] && [Notify(n)][..0] == [];
    assert Exec([Notify(n)]) == Some(Apply(INITIAL, Notify(n)));
  }

  // ---------- Nothing is lost but what was superseded ----------

  /** A batch is the merge of a stretch of notices, and the last such stamp. */
  ghost predicate Covers(b: Batch, s: State) {
    && b.from < b.to <= |s.notices|
    && b.updates == Values(BucketOf(s.notices[b.from..b.to]).byKey)
    && b.timestamp == BucketOf(s.notices[b.from..b.to]).timestamp
  }

  ghost predicate Covered(s: State, j: nat) {
    exists b :: 0 <= b < |s.sent| && s.sent[b].from <= j < s.sent[b].to
  }

  ghost predicate Tiled(s: State) {
    && (forall b | 0 <= b < |s.sent| :: Covers(s.sent[b], s))
    && (forall j: nat | j < s.cut && j < |s.notices| && s.notices[j].updates != [] :: Covered(s, j))
  }

  lemma {:induction false} AbsorbGrows(t: Dict, u: seq<Item>)
    ensures |Absorb(t, u).keys| >= |t.keys|
    ensures u != [] ==> Absorb(t, u).keys != []
  {
    if u != [] {
      AbsorbGrows(t, u[..|u| - 1]);
      assert Find(Absorb(t, u), BufferKey(u[|u| - 1])).Some?;
    }
  }

  lemma {:induction false} EmptyBucketOf(ns: seq<Notice>)
    requires BucketOf(ns).byKey.keys == []
    ensures forall n | n in ns :: n.updates == []
  {
    if ns != [] {
      var m := ns[..|ns| - 1];
      assert ns == m + [ns[|ns| - 1]];
      AbsorbGrows(BucketOf(m).byKey, ns[|ns| - 1].updates);
      EmptyBucketOf(m);
    }
  }

  lemma CoversStays(b: Batch, s: State, r: State)
    requires Covers(b, s) && s.notices <= r.notices
    ensures Covers(b, r)
  {
    assert r.notices[b.from..b.to] == s.notices[b.from..b.to];
  }

  lemma TiledNotify(s: State, n: Notice)
    requires Tiled(s) && s.cut <= |s.notices|
    ensures Tiled(Apply(s, Notify(n)))
  {
    var r := Apply(s, Notify(n));
    forall b | 0 <= b < |r.sent|
      ensures Covers(r.sent[b], r)
    {
      CoversStays(s.sent[b], s, r);
    }
    forall j: nat | j < r.cut && r.notices[j].updates != []
      ensures Covered(r, j)
    {
      assert Covered(s, j);
    }
  }

  lemma TiledFlush(s: State)
    requires Buffering(s) && Tiled(s) && s.flushes > 0
    ensures Tiled(Apply(s, Flush))
  {
    var r := Apply(s, Flush);
    var stretch := s.notices[s.cut..];
    assert s.notices[s.cut..|s.notices|] == stretch;
    forall b | 0 <= b < |r.sent|
      ensures Covers(r.sent[b], r)
    {
      if b < |s.sent| {
        CoversStays(s.sent[b], s, r);
      }
    }
    if s.buffer.Some? && s.buffer.value.byKey.keys == [] {
      EmptyBucketOf(stretch);
    }
    forall j: nat | j < r.cut && r.notices[j].updates != []
      ensures Covered(r, j)
    {
      if j < s.cut {
        assert Covered(s, j);
        var b :| 0 <= b < |s.sent| && s.sent[b].from <= j < s.sent[b].to;
        assert r.sent[b] == s.sent[b];
      } else {
        assert stretch[j - s.cut] == s.notices[j];
        assert r.sent[|s.sent|].from <= j < r.sent[|s.sent|].to;
      }
    }
  }

  lemma TiledStep(s: State, step: Step)
    requires Inv(s) && Tiled(s) && Enabled(s, step)
    ensures Tiled(Apply(s, step))
  {
    match step
    case Notify(n) => TiledNotify(s, n);
    case Flush => TiledFlush(s);
    case _ =>
      var r := Apply(s, step);
      assert forall j: nat :: Covered(s, j) ==> Covered(r, j);
      assert forall b :: Covers(b, s) ==> Covers(b, r);
  }

  lemma {:induction false} TiledRun(run: seq<Step>)
    requires Exec(run).Some?
    ensures Tiled(Exec(run).value)
  {
    if run != [] {
      TiledRun(run[..|run| - 1]);
      InvRun(run[..|run| - 1]);
      TiledStep(Exec(run[..|run| - 1]).value, run[|run| - 1]);
    }
  }

  ghost function Stamps(ns: seq<Notice>): seq<Option<string>> {
    seq(|ns|, i requires 0 <= i < |ns| => ns[i].timestamp)
  }

  lemma {:induction false} BucketStamp(ns: seq<Notice>)
    ensures IsLastStamp(Stamps(ns), BucketOf(ns).timestamp)
  {
    if ns != [] {
      var g, last := ns[..|ns| - 1], ns[|ns| - 1];
      BucketStamp(g);
      NextStamp(Stamps(g), BucketOf(g).timestamp, last.timestamp);
      assert Stamps(ns) == Stamps(g) + [last.timestamp];
    }
  }

  /** Every broadcast batch carries the last stamp of the notices it was made from. */
  lemma BatchesAreStamped(run: seq<Step>, b: nat)
    requires Exec(run).Some? && b < |Exec(run).value.sent|
    ensures var s := Exec(run).value;
            && s.sent[b].from < s.sent[b].to <= |s.notices|
            && IsLastStamp(Stamps(s.notices[s.sent[b].from..s.sent[b].to]), s.sent[b].timestamp)
  {
    TiledRun(run);
    var s := Exec(run).value;
    assert Covers(s.sent[b], s);
    BucketStamp(s.notices[s.sent[b].from..s.sent[b].to]);
  }

  lemma {:induction false} LastBufferedIs(items: seq<Item>, i: Item)
    requires i in items
    ensures LastBuffered(items, BufferKey(i)).Some?
  {
    if items[|items| - 1] != i {
      assert items == items[..|items| - 1] + [items[|items| - 1]];
      LastBufferedIs(items[..|items| - 1], i);
    }
  }

  lemma {:induction false} ItemsOfHas(ns: seq<Notice>, j: nat, i: Item)
    requires j < |ns| && i in ns[j].updates
    ensures i in ItemsOf(ns)
  {
    if j < |ns| - 1 {
      ItemsOfHas(ns[..|ns| - 1], j, i);
    }
  }

  /** Batch `b` merges a stretch of notices with the j-th, and carries the last item of that
      stretch with this item's buffer key. */
  ghost predicate Carries(s: State, b: nat, j: nat, i: Item) {
    && b < |s.sent| && s.sent[b].from <= j < s.sent[b].to <= |s.notices|
    && var last := LastBuffered(ItemsOf(s.notices[s.sent[b].from..s.sent[b].to]), BufferKey(i));
       last.Some? && last.value in s.sent[b].updates
  }

  /** Every popped item was broadcast, or one broadcast in its stead: the last of its
      buffer key in the stretch of notices it was merged with. */
  lemma BroadcastOrSuperseded(run: seq<Step>, j: nat, i: Item)
    requires Exec(run).Some?
    requires var s := Exec(run).value; j < s.cut && j < |s.notices| && i in s.notices[j].updates
    ensures exists b :: Carries(Exec(run).value, b, j, i)
  {
    TiledRun(run);
    var s := Exec(run).value;
    assert Covered(s, j);
    var b :| 0 <= b < |s.sent| && s.sent[b].from <= j < s.sent[b].to;
    assert Covers(s.sent[b], s);
    BatchCarries(s, b, j, i);
  }

  lemma BatchCarries(s: State, b: nat, j: nat, i: Item)
    requires b < |s.sent| && Covers(s.sent[b], s) && s.sent[b].from <= j < s.sent[b].to
    requires j < |s.notices| && i in s.notices[j].updates
    ensures Carries(s, b, j, i)
  {
    var stretch := s.notices[s.sent[b].from..s.sent[b].to];
    assert stretch[j - s.sent[b].from] == s.notices[j];
    StretchHas(stretch, j - s.sent[b].from, i);
  }

  lemma StretchHas(stretch: seq<Notice>, j: nat, i: Item)
    requires j < |stretch| && i in stretch[j].updates
    ensures var last := LastBuffered(ItemsOf(stretch), BufferKey(i));
            last.Some? && last.value in Values(BucketOf(stretch).byKey)
  {
    ItemsOfHas(stretch, j, i);
    LastBufferedIs(ItemsOf(stretch), i);
    var k := BufferKey(i);
    BucketFinds(stretch, k);
    var t := BucketOf(stretch).byKey;
    var n :| 0 <= n < |t.keys| && t.keys[n] == k;
    assert Values(t)[n] == t.items[k];
  }

  // ---------- The None key ----------

  /** For an explicit None the flush writes the last keyed item exactly when no keyless
      item, which shares its buffer slot, came after it in the stretch, or the state
      happened to hold that item already. */
  lemma NullKeyExactly(latest: Dict, ns: seq<Notice>)
    ensures var items := ItemsOf(ns);
            Find(Remember(latest, Values(BucketOf(ns).byKey)), NullKey) == Or(LastKeyed(items, NullKey), Find(latest, NullKey))
            <==>
            || LastKeyed(items, NullKey).None?
            || LastBuffered(items, NullKey) == LastKeyed(items, NullKey)
            || Find(latest, NullKey) == LastKeyed(items, NullKey)
  {
    BucketFinds(ns, NullKey);
    RememberFinds(latest, Values(BucketOf(ns).byKey), NullKey);
    ValuesLast(BucketOf(ns).byKey, NullKey);
    LastBoth(ItemsOf(ns));
  }

  lemma {:induction false} LastBoth(items: seq<Item>)
    ensures var b := LastBuffered(items, NullKey);
            var k := LastKeyed(items, NullKey);
            (b.Some? && b.value.Keyed? ==> k == b) && (b.None? ==> k.None?) && (k.Some? ==> k.value.Keyed?)
  {
    if items != [] {
      LastBoth(items[..|items| - 1]);
    }
  }

  /** Such a loss: the keyed item reaches no latest state, and no keyed item replaced it. */
  lemma NullKeyLost()
    ensures var ns := [Notice([Keyed(NullKey, "a")], None), Notice([Plain("b")], None)];
            LastKeyed(ItemsOf(ns), NullKey).Some? &&
            Find(Remember(EMPTY_DICT, Values(BucketOf(ns).byKey)), NullKey).None?
  {
    var a, b := Notice([Keyed(NullKey, "a")], None), Notice([Plain("b")], None);
    var ns := [a, b];
    assert ns[..1] == [a] && [a][..0] == [];
    LastKeyedSplit(ItemsOf([a]), b.updates, NullKey);
    LastBufferedSplit(ItemsOf([a]), b.updates, NullKey);
    assert ItemsOf([a]) == [Keyed(NullKey, "a")];
    BucketFinds(ns, NullKey);
    RememberFinds(EMPTY_DICT, Values(BucketOf(ns).byKey), NullKey);
    ValuesLast(BucketOf(ns).byKey, NullKey);
  }
}
