/** What the connection manager passes around: items merged by a key, insertion-ordered
    tables of them, and the three folds the manager performs
    (app/websocket/manager.py:42-45, 231-243, 407-418). */
module Messages {
  import opened Wrappers

  type Event = string
  type Socket = nat

  const CROWD_UPDATE: Event := "crowd_update"
  const TRAIN_POSITION: Event := "train_position"

  /** Events that have a merge key: the only ones coalesced and remembered. */
  predicate HasMergeKey(e: Event) {
    e == CROWD_UPDATE || e == TRAIN_POSITION
  }

  /** A merge-key value; NullKey is Python's None. */
  datatype MergeKey = NullKey | Key(id: int)

  /** A dictionary that has the merge key, or anything else in an update list. */
  datatype Item = Keyed(key: MergeKey, body: string) | Plain(body: string)

  /** The key an item is buffered under: without one, None. */
  function BufferKey(i: Item): MergeKey {
    if i.Keyed? then i.key else NullKey
  }

  datatype Data = Updates(updates: seq<Item>, timestamp: Option<string>) | Other(body: string)

  /** A Python dictionary from buffer keys to items, with its insertion order. */
  datatype Table = Table(keys: seq<MergeKey>, items: map<MergeKey, Item>)

  ghost predicate WfTable(t: Table) {
    && (forall i, j | 0 <= i < j < |t.keys| :: t.keys[i] != t.keys[j])
    && (forall k :: k in t.keys <==> k in t.items)
    && (forall k | k in t.items :: BufferKey(t.items[k]) == k)
  }

  type Dict = t: Table | WfTable(t) witness Table([], map[])

  const EMPTY_DICT: Dict := Table([], map[])

  function Find(t: Dict, k: MergeKey): Option<Item> {
    if k in t.items then Some(t.items[k]) else None
  }

  function PutItem(t: Dict, i: Item): (r: Dict)
    ensures forall j :: Find(r, j) == if j == BufferKey(i) then Some(i) else Find(t, j)
  {
    var k := BufferKey(i);
    Table(if k in t.items then t.keys else t.keys + [k], t.items[k := i])
  }

  /** `list(table.values())` */
  function Values(t: Dict): (r: seq<Item>)
    ensures |r| == |t.keys| && forall n | 0 <= n < |r| :: r[n] == t.items[t.keys[n]]
  {
    seq(|t.keys|, n requires 0 <= n < |t.keys| => t.items[t.keys[n]])
  }

  // ---------- Merging into a buffer, and into the latest state ----------

  function Absorb(t: Dict, updates: seq<Item>): Dict {
    if updates == [] then t
    else PutItem(Absorb(t, updates[..|updates| - 1]), updates[|updates| - 1])
  }

  /** Only a dictionary that has the merge key is remembered. */
  function RememberItem(t: Dict, i: Item): Dict {
    if i.Keyed? then PutItem(t, i) else t
  }

  function Remember(t: Dict, updates: seq<Item>): Dict {
    if updates == [] then t
    else RememberItem(Remember(t, updates[..|updates| - 1]), updates[|updates| - 1])
  }

  // ---------- The last item of a key ----------

  ghost function LastBuffered(updates: seq<Item>, k: MergeKey): Option<Item> {
    if updates == [] then None
    else if BufferKey(updates[|updates| - 1]) == k then Some(updates[|updates| - 1])
    else LastBuffered(updates[..|updates| - 1], k)
  }

  /** The last item that carries the key itself. */
  ghost function LastKeyed(updates: seq<Item>, k: MergeKey): Option<Item> {
    if updates == [] then None
    else if updates[|updates| - 1].Keyed? && updates[|updates| - 1].key == k then Some(updates[|updates| - 1])
    else LastKeyed(updates[..|updates| - 1], k)
  }

  function Or<T>(a: Option<T>, b: Option<T>): Option<T> {
    if a.Some? then a else b
  }

  lemma {:induction false} AbsorbFinds(t: Dict, updates: seq<Item>, k: MergeKey)
    ensures Find(Absorb(t, updates), k) == Or(LastBuffered(updates, k), Find(t, k))
  {
    if updates != [] {
      AbsorbFinds(t, updates[..|updates| - 1], k);
    }
  }

  /** The key first comes with update `i`. */
  ghost predicate FirstAt(updates: seq<Item>, k: MergeKey, i: nat) {
    i < |updates| && BufferKey(updates[i]) == k && forall j | 0 <= j < i :: BufferKey(updates[j]) != k
  }

  lemma FirstNext(updates: seq<Item>, k: MergeKey, i: nat)
    requires updates != []
    ensures var last := |updates| - 1;
            && (FirstAt(updates[..last], k, i) ==> FirstAt(updates, k, i))
            && (BufferKey(updates[last]) == k && LastBuffered(updates[..last], k).None? ==> FirstAt(updates, k, last))
  {
    NoneBuffered(updates[..|updates| - 1], k);
  }

  lemma {:induction false} NoneBuffered(updates: seq<Item>, k: MergeKey)
    ensures LastBuffered(updates, k).None? ==> forall j | 0 <= j < |updates| :: BufferKey(updates[j]) != k
  {
    if updates != [] {
      NoneBuffered(updates[..|updates| - 1], k);
    }
  }

  /** A buffer's entries stand in the order in which their keys first came. */
  lemma {:induction false} AbsorbKeepsOrder(updates: seq<Item>) returns (at: seq<nat>)
    ensures var keys := Absorb(EMPTY_DICT, updates).keys;
            |at| == |keys| && forall i | 0 <= i < |at| :: FirstAt(updates, keys[i], at[i])
    ensures forall i, j | 0 <= i < j < |at| :: at[i] < at[j]
  {
    at := [];
    if updates != [] {
      var g, last := updates[..|updates| - 1], updates[|updates| - 1];
      at := AbsorbKeepsOrder(g);
      var before, k := Absorb(EMPTY_DICT, g), BufferKey(last);
      forall i | 0 <= i < |at| ensures FirstAt(updates, before.keys[i], at[i]) {
        FirstNext(updates, before.keys[i], at[i]);
      }
      if k !in before.items {
        AbsorbFinds(EMPTY_DICT, g, k);
        FirstNext(updates, k, |g|);
        at := at + [|g|];
      }
    }
  }

  lemma {:induction false} RememberFinds(t: Dict, updates: seq<Item>, k: MergeKey)
    ensures Find(Remember(t, updates), k) == Or(LastKeyed(updates, k), Find(t, k))
  {
    if updates != [] {
      RememberFinds(t, updates[..|updates| - 1], k);
    }
  }

  lemma {:induction false} LastIs(updates: seq<Item>, k: MergeKey)
    ensures k != NullKey ==> LastKeyed(updates, k) == LastBuffered(updates, k)
    ensures LastKeyed(updates, k).Some? ==>
              LastKeyed(updates, k).value in updates && BufferKey(LastKeyed(updates, k).value) == k
    ensures LastKeyed(updates, k).None? <==> forall i | i in updates :: !(i.Keyed? && i.key == k)
  {
    if updates != [] {
      LastIs(updates[..|updates| - 1], k);
      assert updates == updates[..|updates| - 1] + [updates[|updates| - 1]];
    }
  }

  lemma {:induction false} LastKeyedSplit(a: seq<Item>, b: seq<Item>, k: MergeKey)
    ensures LastKeyed(a + b, k) == Or(LastKeyed(b, k), LastKeyed(a, k))
  {
    if b == [] {
      assert a + b == a;
    } else {
      assert (a + b)[..|a + b| - 1] == a + b[..|b| - 1];
      LastKeyedSplit(a, b[..|b| - 1], k);
    }
  }

  /** The values of a table, remembered, overwrite with the table's keyed items. */
  lemma ValuesLast(t: Dict, k: MergeKey)
    ensures LastKeyed(Values(t), k) == if k in t.items && t.items[k].Keyed? then Some(t.items[k]) else None
  {
    var vs := Values(t);
    LastIs(vs, k);
    if k in t.items && t.items[k].Keyed? {
      var n :| 0 <= n < |t.keys| && t.keys[n] == k;
      assert vs[n] in vs && vs[n].key == k;
      var i := LastKeyed(vs, k).value;
      var m :| 0 <= m < |vs| && vs[m] == i;
      assert BufferKey(t.items[t.keys[m]]) == t.keys[m];
    }
  }

  /** The last stamp given, if any was. */
  ghost predicate IsLastStamp(given: seq<Option<string>>, t: Option<string>) {
    match t
    case None => forall i | 0 <= i < |given| :: given[i] == None
    case Some(_) => exists i :: 0 <= i < |given| && given[i] == t && forall j | i < j < |given| :: given[j] == None
  }

  lemma NextStamp(given: seq<Option<string>>, t: Option<string>, last: Option<string>)
    requires IsLastStamp(given, t)
    ensures IsLastStamp(given + [last], if last.Some? then last else t)
  {
    if last.Some? {
      assert (given + [last])[|given|] == last;
    } else if t.Some? {
      var i :| 0 <= i < |given| && given[i] == t && forall j | i < j < |given| :: given[j] == None;
      assert (given + [last])[i] == t;
    }
  }

  // ---------- Per-event latest state ----------

  /** `_latest_state` with its insertion order, and `_latest_state_ts`. */
  datatype Merged = Merged(order: seq<Event>, tables: map<Event, Dict>, stamps: map<Event, string>)

  const NOTHING_MERGED := Merged([], map[], map[])

  ghost predicate WfMerged(m: Merged) {
    && (forall i, j | 0 <= i < j < |m.order| :: m.order[i] != m.order[j])
    && (forall e :: e in m.order <==> e in m.tables)
  }

  /** `_remember_latest_state`: events without a merge key and data without an update
      list change nothing. */
  function Learn(m: Merged, e: Event, data: Data): Merged {
    if !HasMergeKey(e) || !data.Updates? then m
    else
      Merged(
        if e in m.tables then m.order else m.order + [e],
        m.tables[e := Remember(if e in m.tables then m.tables[e] else EMPTY_DICT, data.updates)],
        if data.timestamp.Some? then m.stamps[e := data.timestamp.value] else m.stamps)
  }

  function At(m: Merged, e: Event, k: MergeKey): Option<Item> {
    if e in m.tables then Find(m.tables[e], k) else None
  }

  lemma LearnAt(m: Merged, e: Event, data: Data, f: Event, k: MergeKey)
    ensures At(Learn(m, e, data), f, k) ==
            if f == e && HasMergeKey(e) && data.Updates? then Or(LastKeyed(data.updates, k), At(m, e, k)) else At(m, f, k)
    ensures WfMerged(m) ==> WfMerged(Learn(m, e, data))
    ensures HasMergeKey(e) <==> e == "crowd_update" || e == "train_position"
    ensures Learn(m, e, data).order == m.order || Learn(m, e, data).order == m.order + [e]
    ensures Learn(m, e, data).stamps ==
            if (e == "crowd_update" || e == "train_position") && data.Updates? && data.timestamp.Some?
            then m.stamps[e := data.timestamp.value] else m.stamps
  {
    if data.Updates? {
      RememberFinds(if e in m.tables then m.tables[e] else EMPTY_DICT, data.updates, k);
    }
  }
}
