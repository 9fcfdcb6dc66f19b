/** The in-process cache of app/core/cache.py: bounded, least recently used first out,
    entries with an optional expiry. Compared with an unbounded map with expiry. */
module LocalCache {
  import opened Wrappers
  import opened Lru

  type Time = real
  type Key = string

  /** Entries kept by the program itself; the results below are for any bound. */
  const LOCAL_CACHE_MAX_ENTRIES: nat := 5000

  datatype Entry = Entry(raw: string, expires: Option<Time>)

  predicate LiveAt(e: Entry, t: Time) {
    e.expires.None? || t < e.expires.value
  }

  datatype Op =
    | Get(key: Key)
    | Set(key: Key, raw: string, ttl: Option<Time>)
    | SetNx(key: Key, raw: string, seconds: Time)
    | Delete(key: Key)

  /** An operation and the clock reading it makes. */
  datatype Call = Call(op: Op, at: Time)

  function EntryFor(c: Call): Entry
    requires c.op.Set? || c.op.SetNx?
  {
    if c.op.SetNx? then Entry(c.op.raw, Some(c.at + c.op.seconds))
    else Entry(c.op.raw, if c.op.ttl.Some? then Some(c.at + c.op.ttl.value) else None)
  }

  // ---------- The bounded cache ----------

  datatype Cache = Cache(order: seq<Key>, entries: map<Key, Entry>)

  ghost predicate Wf(c: Cache, cap: nat) {
    Distinct(c.order) && Elements(c.order) == c.entries.Keys && |c.order| <= cap
  }

  function Lookup(entries: map<Key, Entry>, k: Key, t: Time): Option<string> {
    if k in entries && LiveAt(entries[k], t) then Some(entries[k].raw) else None
  }

  function Restrict(entries: map<Key, Entry>, order: seq<Key>): map<Key, Entry> {
    map k | k in entries && k in order :: entries[k]
  }

  function Put(c: Cache, k: Key, e: Entry, cap: nat): Cache {
    var order := Mark(c.order, k, cap);
    Cache(order, Restrict(c.entries[k := e], order))
  }

  function Drop(c: Cache, k: Key): Cache {
    Cache(Without(c.order, k), c.entries - {k})
  }

  function Step(c: Cache, call: Call, cap: nat): Cache {
    var k := call.op.key;
    match call.op
    case Get(_) =>
      if k !in c.entries then c
      else if !LiveAt(c.entries[k], call.at) then Drop(c, k)
      else c.(order := Touch(c.order, k))
    case Set(_, _, _) => Put(c, k, EntryFor(call), cap)
    case SetNx(_, _, _) => if Lookup(c.entries, k, call.at).Some? then c else Put(c, k, EntryFor(call), cap)
    case Delete(_) => Drop(c, k)
  }

  ghost function Bounded(h: seq<Call>, cap: nat): Cache {
    if h == [] then Cache([], map[]) else Step(Bounded(h[..|h| - 1], cap), h[|h| - 1], cap)
  }

  // ---------- The unbounded map ----------

  ghost function Reference(h: seq<Call>): map<Key, Entry> {
    if h == [] then map[]
    else
      var m := Reference(h[..|h| - 1]);
      var c := h[|h| - 1];
      match c.op
      case Get(_) => m
      case Set(k, _, _) => m[k := EntryFor(c)]
      case SetNx(k, _, _) => if Lookup(m, k, c.at).Some? then m else m[k := EntryFor(c)]
      case Delete(k) => m - {k}
  }

  /** A read that finds nothing, or a refused set-if-absent, of a key never displaced. */
  ghost predicate NoUse(g: seq<Call>, c: Call, cap: nat)
    decreases |g|, 2
  {
    && !Displaced(g, c.op.key, cap)
    && match c.op
       case Get(k) => Lookup(Reference(g), k, c.at).None?
       case SetNx(k, _, _) => Lookup(Reference(g), k, c.at).Some?
       case _ => false
  }

  /** The other keys used since `k` last was. */
  ghost function UsedSince(h: seq<Call>, k: Key, cap: nat): set<Key>
    decreases |h|, 0
  {
    if h == [] then {}
    else
      var g, c := h[..|h| - 1], h[|h| - 1];
      if c.op.key != k then UsedSince(g, k, cap) + (if c.op.Delete? || NoUse(g, c, cap) then {} else {c.op.key})
      else if c.op.Delete? || (c.op.SetNx? && Lookup(Reference(g), k, c.at).Some?) then UsedSince(g, k, cap)
      else {}
  }

  /** Since it was last set or deleted, `k` has at some time had `cap` other keys used
      after it. */
  ghost predicate Displaced(h: seq<Call>, k: Key, cap: nat)
    decreases |h|, 1
  {
    h != [] &&
    var g, c := h[..|h| - 1], h[|h| - 1];
    if c.op.key == k && (c.op.Set? || c.op.Delete?) then false
    else Displaced(g, k, cap) || (k in Reference(g) && |UsedSince(h, k, cap)| >= cap)
  }

  ghost predicate Ordered(h: seq<Call>) {
    forall i, j | 0 <= i <= j < |h| :: h[i].at <= h[j].at
  }

  lemma PutIs(c: Cache, k: Key, e: Entry, cap: nat)
    requires Wf(c, cap) && cap >= 1
    ensures var d := Put(c, k, e, cap);
            && Wf(d, cap) && k in d.entries && d.entries[k] == e
            && (forall j | j in d.entries && j != k :: j in c.entries && d.entries[j] == c.entries[j])
  {
    TouchIs(c.order, k);
    TrimIs(Touch(c.order, k), cap);
    AfterTouch(c.order, k, k);
    assert k in Touch(c.order, k);
    TrimKeeps(Touch(c.order, k), cap, k);
    var d := Put(c, k, e, cap);
    forall j | j in d.order
      ensures j in c.entries[k := e]
    {
      assert j in Elements(Touch(c.order, k));
      if j != k { assert j in Elements(c.order); }
    }
    assert Elements(d.order) == d.entries.Keys;
  }

  lemma DropIs(c: Cache, k: Key, cap: nat)
    requires Wf(c, cap)
    ensures Wf(Drop(c, k), cap)
  {
    WithoutIs(c.order, k);
  }

  lemma StepIs(c: Cache, call: Call, cap: nat)
    requires Wf(c, cap) && cap >= 1
    ensures Wf(Step(c, call, cap), cap)
  {
    var k := call.op.key;
    match call.op
    case Get(_) =>
      if k in c.entries {
        DropIs(c, k, cap);
        TouchIs(c.order, k);
        assert k in Elements(c.order);
        WithoutPrefix(c.order, [], k);
        assert c.order + [] == c.order;
      }
    case Set(_, _, _) => PutIs(c, k, EntryFor(call), cap);
    case SetNx(_, _, _) => PutIs(c, k, EntryFor(call), cap);
    case Delete(_) => DropIs(c, k, cap);
  }

  lemma {:induction false} BoundedIs(h: seq<Call>, cap: nat)
    requires cap >= 1
    ensures Wf(Bounded(h, cap), cap)
  {
    if h != [] {
      BoundedIs(h[..|h| - 1], cap);
      StepIs(Bounded(h[..|h| - 1], cap), h[|h| - 1], cap);
    }
  }

  /** The bounded cache agrees with the reference on `k`, whose recency it also knows;
      or it has popped the expired entry. */
  ghost predicate Agrees(c: Cache, m: map<Key, Entry>, k: Key, used: set<Key>, t: Time) {
    && (k in c.entries ==> k in m && c.entries[k] == m[k] && After(c.order, k) <= used)
    && (k in m && k !in c.entries ==> !LiveAt(m[k], t))
  }

  lemma SubsetSize<K>(a: set<K>, b: set<K>)
    requires a <= b
    ensures |a| <= |b|
  {
    if a != {} {
      var x :| x in a;
      SubsetSize(a - {x}, b - {x});
    }
  }

  /** What one use of another key does to `k`. */
  lemma OtherPut(c: Cache, k: Key, j: Key, e: Entry, used: set<Key>, cap: nat)
    requires Wf(c, cap) && cap >= 1 && j != k && k in c.entries
    requires After(c.order, k) <= used && |used + {j}| < cap
    ensures var d := Put(c, j, e, cap); k in d.entries && d.entries[k] == c.entries[k] && After(d.order, k) <= used + {j}
  {
    assert k in Elements(c.order);
    TouchIs(c.order, j);
    AfterTouch(c.order, j, k);
    assert k in Elements(Touch(c.order, j));
    SubsetSize(After(Touch(c.order, j), k), used + {j});
    TrimKeeps(Touch(c.order, j), cap, k);
  }

  lemma OtherKey(c: Cache, m: map<Key, Entry>, k: Key, used: set<Key>, t: Time, call: Call, cap: nat)
    requires Wf(c, cap) && cap >= 1 && Agrees(c, m, k, used, t) && t <= call.at
    requires call.op.key != k && (!call.op.Delete? && k in m ==> |used + {call.op.key}| < cap)
    ensures Agrees(Step(c, call, cap), m, k, if call.op.Delete? then used else used + {call.op.key}, call.at)
  {
    var j := call.op.key;
    WithoutIs(c.order, j);
    if k in c.entries {
      assert k in Elements(c.order);
      AfterWithout(c.order, j, k);
      match call.op
      case Get(_) => AfterTouch(c.order, j, k);
      case Set(_, _, _) => OtherPut(c, k, j, EntryFor(call), used, cap);
      case SetNx(_, _, _) => OtherPut(c, k, j, EntryFor(call), used, cap);
      case Delete(_) =>
    } else if !call.op.Get? && !call.op.Delete? {
      PutIs(c, j, EntryFor(call), cap);
    }
  }

  /** A call that finds nothing to read, or is refused, moves no key up. */
  lemma OtherNoUse(c: Cache, m: map<Key, Entry>, k: Key, used: set<Key>, t: Time, call: Call, cap: nat)
    requires Wf(c, cap) && Agrees(c, m, k, used, t) && t <= call.at && call.op.key != k
    requires if call.op.Get? then Lookup(c.entries, call.op.key, call.at).None?
             else call.op.SetNx? && Lookup(c.entries, call.op.key, call.at).Some?
    ensures Agrees(Step(c, call, cap), m, k, used, call.at)
  {
    var j := call.op.key;
    WithoutIs(c.order, j);
    if k in c.entries {
      assert k in Elements(c.order);
      AfterWithout(c.order, j, k);
    }
  }

  lemma SameKey(c: Cache, g: seq<Call>, k: Key, t: Time, call: Call, cap: nat)
    requires Wf(c, cap) && cap >= 1 && call.op.key == k && t <= call.at
    requires call.op.Set? || call.op.Delete? || Agrees(c, Reference(g), k, UsedSince(g, k, cap), t)
    ensures Agrees(Step(c, call, cap), Reference(g + [call]), k, UsedSince(g + [call], k, cap), call.at)
  {
    assert (g + [call])[..|g|] == g;
    WithoutIs(c.order, k);
    AfterTouch(c.order, k, k);
    TouchIs(c.order, k);
    assert k in Touch(c.order, k);
    TrimKeeps(Touch(c.order, k), cap, k);
    match call.op
    case Set(_, _, _) => PutIs(c, k, EntryFor(call), cap);
    case SetNx(_, _, _) => PutIs(c, k, EntryFor(call), cap);
    case _ =>
  }

  lemma {:induction false} AgreesAlways(h: seq<Call>, k: Key, cap: nat)
    requires cap >= 1 && h != [] && Ordered(h) && !Displaced(h, k, cap)
    ensures Agrees(Bounded(h, cap), Reference(h), k, UsedSince(h, k, cap), h[|h| - 1].at)
    decreases |h|
  {
    var g, call := h[..|h| - 1], h[|h| - 1];
    assert h == g + [call];
    BoundedIs(g, cap);
    var t := if g == [] then call.at else g[|g| - 1].at;
    if g != [] && !Displaced(g, k, cap) {
      AgreesAlways(g, k, cap);
    }
    assert !Displaced(g, k, cap) ==> Agrees(Bounded(g, cap), Reference(g), k, UsedSince(g, k, cap), t);
    if call.op.key == k {
      SameKey(Bounded(g, cap), g, k, t, call, cap);
    } else if NoUse(g, call, cap) {
      if g != [] { AgreesAlways(g, call.op.key, cap); }
      OtherNoUse(Bounded(g, cap), Reference(g), k, UsedSince(g, k, cap), t, call, cap);
    } else {
      OtherKey(Bounded(g, cap), Reference(g), k, UsedSince(g, k, cap), t, call, cap);
    }
  }

  /** A read answers as the unbounded map would, for any key not displaced by `cap`
      other keys used after it. */
  lemma AnswersLikeUnbounded(h: seq<Call>, k: Key, t: Time, cap: nat)
    requires cap >= 1 && Ordered(h) && !Displaced(h, k, cap)
    requires h != [] ==> h[|h| - 1].at <= t
    ensures Lookup(Bounded(h, cap).entries, k, t) == Lookup(Reference(h), k, t)
  {
    if h != [] {
      AgreesAlways(h, k, cap);
    }
  }

  // ---------- What a read answers ----------

  /** The call stores its value for its key: a set, or a set-if-absent that finds nothing. */
  ghost predicate Stores(h: seq<Call>, i: nat, cap: nat)
    requires i < |h|
  {
    h[i].op.Set? || (h[i].op.SetNx? && Lookup(Bounded(h[..i], cap).entries, h[i].op.key, h[i].at).None?)
  }

  /** A value stored for `seconds` from `start` on, None for ever, is there at `t`. */
  predicate Lasts(start: Time, seconds: Option<Time>, t: Time) {
    seconds.None? || t < start + seconds.value
  }

  function SecondsOf(op: Op): Option<Time>
    requires op.Set? || op.SetNx?
  {
    match op
    case Set(_, _, ttl) => ttl
    case SetNx(_, _, seconds) => Some(seconds)
  }

  /** Since call `i` the key was read, or offered again while the value lasted, only. */
  ghost predicate Unwritten(h: seq<Call>, i: nat)
    requires i < |h| && (h[i].op.Set? || h[i].op.SetNx?)
  {
    forall j | i < j < |h| && h[j].op.key == h[i].op.key ::
      h[j].op.Get? || (h[j].op.SetNx? && Lasts(h[i].at, SecondsOf(h[i].op), h[j].at))
  }

  lemma NotBefore(g: seq<Call>, last: Call, k: Key, cap: nat)
    requires !Displaced(g + [last], k, cap) && (last.op.key != k || (!last.op.Set? && !last.op.Delete?))
    ensures !Displaced(g, k, cap)
  {
    assert (g + [last])[..|g|] == g;
  }

  lemma EntryLasts(c: Call, t: Time)
    requires c.op.Set? || c.op.SetNx?
    ensures EntryFor(c).raw == c.op.raw && (LiveAt(EntryFor(c), t) <==> Lasts(c.at, SecondsOf(c.op), t))
  {
  }

  lemma {:induction false} StillStored(h: seq<Call>, i: nat, cap: nat)
    requires cap >= 1 && Ordered(h) && i < |h| && Stores(h, i, cap) && Unwritten(h, i) && !Displaced(h, h[i].op.key, cap)
    ensures h[i].op.key in Reference(h) && Reference(h)[h[i].op.key] == EntryFor(h[i])
    decreases |h|
  {
    var g, last, k := h[..|h| - 1], h[|h| - 1], h[i].op.key;
    assert h == g + [last];
    if i == |h| - 1 {
      if last.op.SetNx? {
        NotBefore(g, last, k, cap);
        AnswersLikeUnbounded(g, k, last.at, cap);
      }
    } else {
      assert h[..i] == g[..i];
      NotBefore(g, last, k, cap);
      StillStored(g, i, cap);
      EntryLasts(h[i], last.at);
    }
  }

  /** A read gives back the value last stored exactly as long as it lasts, for a key not
      displaced by `cap` other keys used after it. */
  lemma ReadsBack(h: seq<Call>, i: nat, t: Time, cap: nat)
    requires cap >= 1 && Ordered(h) && i < |h| && h[|h| - 1].at <= t
    requires Stores(h, i, cap) && Unwritten(h, i) && !Displaced(h, h[i].op.key, cap)
    ensures Lookup(Bounded(h, cap).entries, h[i].op.key, t) ==
              if Lasts(h[i].at, SecondsOf(h[i].op), t) then Some(h[i].op.raw) else None
  {
    StillStored(h, i, cap);
    EntryLasts(h[i], t);
    AnswersLikeUnbounded(h, h[i].op.key, t, cap);
  }

  /** And nothing for a key not offered since it was deleted, or ever. */
  lemma {:induction false} ReadsNothing(h: seq<Call>, i: nat, k: Key, t: Time, cap: nat)
    requires cap >= 1
    requires i <= |h| && (i == 0 || h[i - 1].op == Delete(k))
    requires forall j | i <= j < |h| && h[j].op.key == k :: h[j].op.Get? || h[j].op.Delete?
    ensures Lookup(Bounded(h, cap).entries, k, t) == None
  {
    NotStored(h, i, k, cap);
  }

  lemma OthersOnly(c: Cache, call: Call, k: Key, cap: nat)
    requires Wf(c, cap) && cap >= 1 && k !in c.entries && (call.op.key == k ==> call.op.Get? || call.op.Delete?)
    ensures k !in Step(c, call, cap).entries
  {
    if call.op.Set? || call.op.SetNx? {
      PutIs(c, call.op.key, EntryFor(call), cap);
    }
  }

  lemma {:induction false} NotStored(h: seq<Call>, i: nat, k: Key, cap: nat)
    requires cap >= 1
    requires i <= |h| && (i == 0 || h[i - 1].op == Delete(k))
    requires forall j | i <= j < |h| && h[j].op.key == k :: h[j].op.Get? || h[j].op.Delete?
    ensures k !in Bounded(h, cap).entries
  {
    if h != [] {
      var g, last := h[..|h| - 1], h[|h| - 1];
      if i < |h| {
        NotStored(g, i, k, cap);
        BoundedIs(g, cap);
        OthersOnly(Bounded(g, cap), last, k, cap);
      }
    }
  }

  // ---------- The stateful form ----------

  lemma PlaceFits(c: Cache, k: Key, e: Entry)
    requires Distinct(c.order) && Elements(c.order) == c.entries.Keys
    ensures Distinct(Touch(c.order, k))
    ensures c.entries[k := e] == Restrict(c.entries[k := e], Touch(c.order, k))
  {
    TouchIs(c.order, k);
    forall j | j in c.entries[k := e]
      ensures j in Touch(c.order, k)
    {
      assert j in Elements(Touch(c.order, k));
    }
  }

  lemma EvictOldest(all: map<Key, Entry>, order: seq<Key>, cap: nat)
    requires Distinct(order) && |order| > cap
    ensures Distinct(order[1..]) && Trim(order[1..], cap) == Trim(order, cap)
    ensures Restrict(all, order) - {order[0]} == Restrict(all, order[1..])
  {
    assert order == [order[0]] + order[1..];
    assert order[0] !in order[1..];
  }

  class LocalStore {
    var order: seq<Key>
    var entries: map<Key, Entry>
    const cap: nat := LOCAL_CACHE_MAX_ENTRIES

    ghost function State(): Cache
      reads this
    {
      Cache(order, entries)
    }

    constructor ()
      ensures State() == Cache([], map[])
    {
      order, entries := [], map[];
    }

    method GetRaw(k: Key, now: Time) returns (raw: Option<string>)
      modifies this
      ensures State() == Step(old(State()), Call(Get(k), now), cap)
      ensures raw == Lookup(old(entries), k, now)
    {
      if k !in entries {
        return None;
      }
      var entry := entries[k];
      if entry.expires.Some? && entry.expires.value <= now {
        order, entries := Without(order, k), entries - {k};
        return None;
      }
      order := Without(order, k) + [k];
      raw := Some(entry.raw);
    }

    /** The common tail of both setters: store, move to the end, evict the oldest. */
    method Place(k: Key, e: Entry)
      requires Wf(State(), cap) && cap >= 1
      modifies this
      ensures State() == Put(old(State()), k, e, cap) && Wf(State(), cap)
    {
      ghost var before := State();
      ghost var all := entries[k := e];
      PlaceFits(before, k, e);
      PutIs(before, k, e, cap);
      entries := entries[k := e];
      order := Without(order, k) + [k];
      while |order| > cap
        invariant Distinct(order)
        invariant Trim(order, cap) == Trim(Touch(before.order, k), cap)
        invariant entries == Restrict(all, order)
        decreases |order|
      {
        EvictOldest(all, order, cap);
        entries := entries - {order[0]};
        order := order[1..];
      }
    }

    method SetRaw(k: Key, raw: string, ttl: Option<Time>, now: Time)
      requires Wf(State(), cap) && cap >= 1
      modifies this
      ensures State() == Step(old(State()), Call(Set(k, raw, ttl), now), cap) && Wf(State(), cap)
    {
      var expires := if ttl.Some? then Some(now + ttl.value) else None;
      Place(k, Entry(raw, expires));
    }

    method SetNxRaw(k: Key, raw: string, seconds: Time, now: Time) returns (stored: bool)
      requires Wf(State(), cap) && cap >= 1
      modifies this
      ensures State() == Step(old(State()), Call(SetNx(k, raw, seconds), now), cap) && Wf(State(), cap)
      ensures stored <==> Lookup(old(entries), k, now).None?
    {
      if k in entries {
        var expires := entries[k].expires;
        if expires.None? || expires.value > now {
          return false;
        }
      }
      Place(k, Entry(raw, Some(now + seconds)));
      stored := true;
    }

    method DeleteRaw(k: Key)
      modifies this
      ensures forall now: Time :: State() == Step(old(State()), Call(Delete(k), now), cap)
    {
      order, entries := Without(order, k), entries - {k};
    }
  }
}
