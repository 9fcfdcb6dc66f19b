/** The connection manager of one process (app/websocket/manager.py), method by method,
    against Messages, Coalescing, Relay, LateJoin and Lru. A socket's `outbox` lists the
    payloads handed to it; which sends fail is an input. */
module ConnectionManager {
  import opened Wrappers
  import opened Messages
  import opened Lru
  import C = Coalescing
  import R = Relay
  import L = LateJoin

  function WithoutDead(s: seq<Socket>, dead: set<Socket>): (r: seq<Socket>)
    ensures forall w :: w in r <==> w in s && w !in dead
    ensures |r| <= |s|
  {
    if s == [] then []
    else if s[0] in dead then WithoutDead(s[1..], dead)
    else [s[0]] + WithoutDead(s[1..], dead)
  }

  /** What a new socket is sent: one payload an event, empty tables skipped. */
  function Snapshots(m: Merged, order: seq<Event>): seq<L.Payload>
    requires forall e | e in order :: e in m.tables
  {
    if order == [] then []
    else
      var e := order[|order| - 1];
      Snapshots(m, order[..|order| - 1]) + if m.tables[e].keys == [] then [] else [L.Payload(e, L.Snapshot(m, e))]
  }

  /** A payload that tells all of an event: its items and its last stamp. */
  predicate TellsAll(m: Merged, e: Event, p: L.Payload)
    requires e in m.tables
  {
    p == L.Payload(e, Updates(Values(m.tables[e]), if e in m.stamps then Some(m.stamps[e]) else None))
  }

  const MAX_CONNECTIONS: nat := 200
  const MAX_CONNECTIONS_PER_USER: nat := 20

  ghost function UserSockets(users: map<Socket, Option<string>>, user: Option<string>): set<Socket> {
    set w | w in users && users[w] == user
  }

  class Manager {
    const instance: R.Instance
    const cap: nat := R.DEDUPE_MAX_ENTRIES
    var seen: seq<R.Id>
    ghost var ran: seq<R.Id>
    var buffers: map<Event, C.Bucket>
    var scheduled: set<Event>
    var order: seq<Event>
    var tables: map<Event, Dict>
    var stamps: map<Event, string>
    var connections: seq<Socket>
    var users: map<Socket, Option<string>>
    var outbox: map<Socket, seq<L.Payload>>
    var published: seq<R.Message>

    ghost function Latest(): Merged
      reads this
    {
      Merged(order, tables, stamps)
    }

    ghost function Node(): R.Node
      reads this
    {
      R.Node(seen, ran)
    }

    ghost predicate Valid()
      reads this
    {
      && WfMerged(Latest())
      && Distinct(connections)
      && (forall w :: w in connections <==> w in users)
      && users.Keys == outbox.Keys
      && Distinct(seen)
    }

    constructor (instance: R.Instance)
      ensures Valid() && this.instance == instance
      ensures Node() == R.Node([], []) && Latest() == NOTHING_MERGED
      ensures buffers == map[] && scheduled == {} && connections == [] && published == []
    {
      this.instance := instance;
      seen, ran, buffers, scheduled := [], [], map[], {};
      order, tables, stamps := [], map[], map[];
      connections, users, outbox, published := [], map[], map[], [];
    }

    // ---------- De-duplication ----------

    method MarkSeen(id: R.Id)
      requires Distinct(seen)
      modifies `seen
      ensures seen == Mark(old(seen), id, cap) && Distinct(seen)
    {
      TouchIs(seen, id);
      ghost var touched := Touch(seen, id);
      seen := Without(seen, id) + [id];
      while |seen| > cap
        invariant Distinct(seen) && Trim(seen, cap) == Trim(touched, cap)
        decreases |seen|
      {
        TrimSuffix(seen[..1], seen[1..], cap);
        assert seen[..1] + seen[1..] == seen;
        seen := seen[1..];
      }
    }

    // ---------- The latest state ----------

    method RememberItems(start: Dict, updates: seq<Item>) returns (bucket: Dict)
      ensures bucket == Remember(start, updates)
    {
      bucket := start;
      for i := 0 to |updates|
        invariant bucket == Remember(start, updates[..i])
      {
        assert updates[..i + 1][..i] == updates[..i];
        if updates[i].Keyed? {
          bucket := PutItem(bucket, updates[i]);
        }
      }
      assert updates[..|updates|] == updates;
    }

    method RememberLatestState(e: Event, data: Data)
      requires Valid()
      modifies `order, `tables, `stamps
      ensures Valid() && Latest() == Learn(old(Latest()), e, data)
      ensures stamps == if (e == "crowd_update" || e == "train_position") && data.Updates? && data.timestamp.Some?
                        then old(stamps)[e := data.timestamp.value] else old(stamps)
    {
      if !HasMergeKey(e) || !data.Updates? {
        return;
      }
      LearnAt(Latest(), e, data, e, NullKey);
      var bucket := RememberItems(if e in tables then tables[e] else EMPTY_DICT, data.updates);
      if e !in tables {
        order := order + [e];
      }
      tables := tables[e := bucket];
      if data.timestamp.Some? {
        stamps := stamps[e := data.timestamp.value];
      }
    }

    // ---------- Coalescing ----------

    method AbsorbItems(start: Dict, updates: seq<Item>) returns (byKey: Dict)
      ensures byKey == Absorb(start, updates)
    {
      byKey := start;
      for i := 0 to |updates|
        invariant byKey == Absorb(start, updates[..i])
      {
        assert updates[..i + 1][..i] == updates[..i];
        byKey := PutItem(byKey, updates[i]);
      }
      assert updates[..|updates|] == updates;
    }

    /** The critical section of `_buffer_for_coalesce`: true when the caller has to
        submit a flush. */
    method BufferForCoalesce(e: Event, n: C.Notice) returns (scheduleNeeded: bool)
      modifies `buffers, `scheduled
      ensures buffers == old(buffers)[e := C.Merge(if e in old(buffers) then old(buffers)[e] else C.EMPTY_BUCKET, n)]
      ensures buffers[e].timestamp == if n.timestamp.Some? then n.timestamp
                                      else if e in old(buffers) then old(buffers)[e].timestamp else None
      ensures scheduled == old(scheduled) + {e} && (scheduleNeeded <==> e !in old(scheduled))
    {
      var bucket := if e in buffers then buffers[e] else C.EMPTY_BUCKET;
      var byKey := AbsorbItems(bucket.byKey, n.updates);
      var stamp := bucket.timestamp;
      if n.timestamp.Some? {
        stamp := n.timestamp;
      }
      buffers := buffers[e := C.Bucket(byKey, stamp)];
      scheduleNeeded := e !in scheduled;
      scheduled := scheduled + {e};
    }

    method SubmitFailed(e: Event)
      modifies `scheduled
      ensures scheduled == old(scheduled) - {e}
    {
      scheduled := scheduled - {e};
    }

    /** The critical section of the flush: what to broadcast, if anything. */
    method PopCoalesced(e: Event) returns (merged: Option<Data>)
      modifies `buffers, `scheduled
      ensures buffers == old(buffers) - {e} && scheduled == old(scheduled) - {e}
      ensures merged == if e in old(buffers) && old(buffers)[e].byKey.keys != []
                        then Some(Updates(Values(old(buffers)[e].byKey), old(buffers)[e].timestamp)) else None
    {
      merged := None;
      if e in buffers && buffers[e].byKey.keys != [] {
        merged := Some(Updates(Values(buffers[e].byKey), buffers[e].timestamp));
      }
      buffers := buffers - {e};
      scheduled := scheduled - {e};
    }

    // ---------- Sending ----------

    /** Hands a payload to every target, then drops the targets whose send failed. */
    method SendAll(targets: seq<Socket>, p: L.Payload, dead: set<Socket>)
      requires Valid() && Distinct(targets) && forall w | w in targets :: w in users
      modifies `connections, `users, `outbox
      ensures Valid()
      ensures connections == WithoutDead(old(connections), dead * Elements(targets))
      ensures users == old(users) - (dead * Elements(targets))
      ensures forall w | w in users ::
                outbox[w] == old(outbox)[w] + if w in targets then [p] else []
    {
      for i := 0 to |targets|
        invariant Valid() && connections == old(connections) && users == old(users)
        invariant forall w | w in users :: outbox[w] == old(outbox)[w] + if w in targets[..i] then [p] else []
      {
        assert targets[i] !in targets[..i];
        assert targets[..i + 1] == targets[..i] + [targets[i]];
        outbox := outbox[targets[i] := outbox[targets[i]] + [p]];
      }
      assert targets[..|targets|] == targets;
      ghost var handed := outbox;
      var gone := set w | w in targets && w in dead;
      assert gone == dead * Elements(targets);
      KeepsDistinct(connections, gone);
      connections := WithoutDead(connections, gone);
      users := users - gone;
      outbox := outbox - gone;
    }

    method SendToAll(p: L.Payload, dead: set<Socket>)
      requires Valid()
      modifies `connections, `users, `outbox
      ensures Valid() && users.Keys == old(users).Keys - dead
      ensures forall w | w in users :: outbox[w] == old(outbox)[w] + [p] && users[w] == old(users)[w]
    {
      assert Elements(connections) == users.Keys;
      SendAll(connections, p, dead);
    }

    static lemma {:induction false} KeepsDistinct(s: seq<Socket>, dead: set<Socket>)
      requires Distinct(s)
      ensures Distinct(WithoutDead(s, dead))
    {
      if s != [] {
        KeepsDistinct(s[1..], dead);
        assert s[0] !in s[1..];
      }
    }

    method Disconnect(w: Socket)
      requires Valid()
      modifies `connections, `users, `outbox
      ensures Valid() && connections == WithoutDead(old(connections), {w}) && users == old(users) - {w}
      ensures forall v | v in users :: outbox[v] == old(outbox)[v]
    {
      KeepsDistinct(connections, {w});
      connections := WithoutDead(connections, {w});
      users := users - {w};
      outbox := outbox - {w};
    }

    method PublishRelay(id: R.Id, redisUp: bool)
      modifies `published
      ensures published == old(published) + if redisUp then [R.Message(instance, id)] else []
    {
      if redisUp {
        published := published + [R.Message(instance, id)];
      }
    }

    /** The delivery body of `broadcast`. */
    method Deliver(e: Event, data: Data, dead: set<Socket>)
      requires Valid()
      modifies `order, `tables, `stamps, `connections, `users, `outbox
      ensures Valid() && Latest() == Learn(old(Latest()), e, data)
      ensures users.Keys == old(users).Keys - dead
      ensures forall w | w in users :: outbox[w] == old(outbox)[w] + [L.Payload(e, data)] && users[w] == old(users)[w]
    {
      RememberLatestState(e, data);
      SendToAll(L.Payload(e, data), dead);
    }

    /** `broadcast`. The de-duplication record, the latest state, what each socket is
        handed and what is published, for a seen id and for a new one. */
    method Broadcast(e: Event, data: Data, fromRelay: bool, id: R.Id, dead: set<Socket>, redisUp: bool)
      requires Valid()
      modifies this
      ensures Valid() && Node() == R.Receive(old(Node()), id, cap)
      ensures buffers == old(buffers) && scheduled == old(scheduled)
      ensures id in old(seen) ==> Latest() == old(Latest()) && published == old(published) &&
                                  connections == old(connections) && users == old(users) && outbox == old(outbox)
      ensures id !in old(seen) ==>
                && Latest() == Learn(old(Latest()), e, data)
                && users.Keys == old(users).Keys - dead
                && (forall w | w in users :: outbox[w] == old(outbox)[w] + [L.Payload(e, data)] && users[w] == old(users)[w])
                && published == old(published) + if redisUp && !fromRelay then [R.Message(instance, id)] else []
    {
      if id in seen {
        return;
      }
      MarkSeen(id);
      ran := ran + [id];
      assert Valid();
      Deliver(e, data, dead);
      if !fromRelay {
        PublishRelay(id, redisUp);
      }
    }

    /** The sockets of a user, in some order. */
    method Targets(user: string) returns (targets: seq<Socket>)
      requires Valid()
      ensures Distinct(targets) && forall w :: w in targets <==> w in users && users[w] == Some(user)
    {
      targets := [];
      for i := 0 to |connections|
        invariant Distinct(targets)
        invariant forall w :: w in targets <==> w in connections[..i] && users[w] == Some(user)
      {
        assert connections[i] !in connections[..i];
        if users[connections[i]] == Some(user) {
          targets := targets + [connections[i]];
        }
      }
      assert connections[..|connections|] == connections;
    }

    /** `broadcast_to_user`: only that user's sockets, and nothing is remembered. */
    method BroadcastToUser(user: string, e: Event, data: Data, fromRelay: bool, id: R.Id, dead: set<Socket>, redisUp: bool)
      requires Valid()
      modifies this
      ensures Valid() && Node() == R.Receive(old(Node()), id, cap) && Latest() == old(Latest())
      ensures buffers == old(buffers) && scheduled == old(scheduled)
      ensures id in old(seen) ==> published == old(published) &&
                                  connections == old(connections) && users == old(users) && outbox == old(outbox)
      ensures id !in old(seen) ==>
                && (forall w :: w in users <==> w in old(users) && !(w in dead && old(users)[w] == Some(user)))
                && (forall w | w in users ::
                      users[w] == old(users)[w] &&
                      outbox[w] == old(outbox)[w] + if users[w] == Some(user) then [L.Payload(e, data)] else [])
                && published == old(published) + if redisUp && !fromRelay then [R.Message(instance, id)] else []
    {
      if id in seen {
        return;
      }
      MarkSeen(id);
      ran := ran + [id];
      var targets := Targets(user);
      SendAll(targets, L.Payload(e, data), dead);
      if !fromRelay {
        PublishRelay(id, redisUp);
      }
    }

    /** One message of the relay loop: the origin's own is skipped, any other is
        broadcast without being published again. */
    method HandleRelay(m: R.Message, user: Option<string>, e: Event, data: Data, dead: set<Socket>)
      requires Valid()
      modifies this
      ensures Valid() && published == old(published)
      ensures Node() == if m.origin == instance then old(Node()) else R.Receive(old(Node()), m.id, cap)
      ensures m.origin == instance || m.id in old(seen) ==> outbox == old(outbox) && Latest() == old(Latest())
      ensures m.origin != instance && m.id !in old(seen) && user == None ==>
                && Latest() == Learn(old(Latest()), e, data)
                && users.Keys == old(users).Keys - dead
                && (forall w | w in users :: outbox[w] == old(outbox)[w] + [L.Payload(e, data)] && users[w] == old(users)[w])
      ensures m.origin != instance && m.id !in old(seen) && user.Some? ==>
                && Latest() == old(Latest())
                && (forall w :: w in users <==> w in old(users) && !(w in dead && old(users)[w] == user))
                && (forall w | w in users ::
                      users[w] == old(users)[w] && outbox[w] == old(outbox)[w] + if users[w] == user then [L.Payload(e, data)] else [])
    {
      if m.origin == instance {
        return;
      }
      match user {
        case Some(u) => BroadcastToUser(u, e, data, true, m.id, dead, false);
        case None => Broadcast(e, data, true, m.id, dead, false);
      }
    }

    /** The flush on the loop: pop, then broadcast under a fresh id. */
    method FlushCoalesced(e: Event, id: R.Id, dead: set<Socket>, redisUp: bool)
      requires Valid() && id !in seen
      modifies this
      ensures Valid() && buffers == old(buffers) - {e} && scheduled == old(scheduled) - {e}
      ensures e in old(buffers) && old(buffers)[e].byKey.keys != [] ==>
                && Latest() == Learn(old(Latest()), e, Updates(Values(old(buffers)[e].byKey), old(buffers)[e].timestamp))
                && users.Keys == old(users).Keys - dead
                && (forall w | w in users :: outbox[w] == old(outbox)[w] +
                      [L.Payload(e, Updates(Values(old(buffers)[e].byKey), old(buffers)[e].timestamp))])
      ensures e !in old(buffers) || old(buffers)[e].byKey.keys == [] ==> Latest() == old(Latest()) && outbox == old(outbox)
    {
      var merged := PopCoalesced(e);
      if merged.Some? {
        Broadcast(e, merged.value, false, id, dead, redisUp);
      }
    }

    // ---------- New connections ----------

    /** The payloads of `_send_latest_state` up to the first send that fails. */
    method LatestPayloads(sends: nat) returns (sent: seq<L.Payload>)
      requires WfMerged(Latest())
      ensures var all := Snapshots(Latest(), order); sent == if sends < |all| then all[..sends] else all
    {
      ghost var m := Latest();
      sent := [];
      var i := 0;
      while i < |order| && |sent| <= sends
        invariant i <= |order| && |sent| <= sends + 1
        invariant sent == Snapshots(m, order[..i])
      {
        SnapshotsStep(m, order, i);
        var e := order[i];
        if tables[e].keys != [] {
          var data := Updates(Values(tables[e]), if e in stamps then Some(stamps[e]) else None);
          assert data == L.Snapshot(m, e);
          sent := sent + [L.Payload(e, data)];
        }
        i := i + 1;
      }
      assert i == |order| ==> order[..i] == order;
      SnapshotsGrow(m, order, i);
      CutOff(sent, Snapshots(m, order), sends);
      sent := if |sent| > sends then sent[..sends] else sent;
    }

    static lemma CutOff(sent: seq<L.Payload>, all: seq<L.Payload>, sends: nat)
      requires sent <= all && (|sent| > sends || sent == all)
      ensures (if |sent| > sends then sent[..sends] else sent) == if sends < |all| then all[..sends] else all
    {
    }

    /** `_send_latest_state`, undisturbed: `sends` of its sends succeed before one fails. */
    method SendLatestState(w: Socket, sends: nat)
      requires Valid() && w in users
      modifies `outbox
      ensures Valid() && outbox.Keys == old(outbox).Keys
      ensures forall v | v in outbox && v != w :: outbox[v] == old(outbox)[v]
      ensures var all := Snapshots(Latest(), order);
              outbox[w] == old(outbox)[w] + if sends < |all| then all[..sends] else all
    {
      var sent := LatestPayloads(sends);
      outbox := outbox[w := outbox[w] + sent];
    }

    static lemma SnapshotsStep(m: Merged, order: seq<Event>, i: nat)
      requires i < |order| && forall e | e in order :: e in m.tables
      ensures Snapshots(m, order[..i + 1]) ==
              Snapshots(m, order[..i]) + if m.tables[order[i]].keys == [] then [] else [L.Payload(order[i], L.Snapshot(m, order[i]))]
    {
      assert order[..i + 1][..i] == order[..i];
    }

    static lemma {:induction false} SnapshotsGrow(m: Merged, order: seq<Event>, i: nat)
      requires i <= |order| && forall e | e in order :: e in m.tables
      ensures Snapshots(m, order[..i]) <= Snapshots(m, order)
    {
      if i == |order| {
        assert order[..i] == order;
      } else {
        SnapshotsGrow(m, order[..|order| - 1], i);
        assert order[..|order| - 1][..i] == order[..i];
      }
    }

    /** One such payload for every event with anything to tell, behind those of the events
        before it, and none for the others. */
    static lemma SnapshotAt(m: Merged, order: seq<Event>, i: nat)
      requires i < |order| && forall e | e in order :: e in m.tables
      ensures var (before, all) := (|Snapshots(m, order[..i])|, Snapshots(m, order));
              && |Snapshots(m, order[..i + 1])| == before + (if m.tables[order[i]].keys == [] then 0 else 1) <= |all|
              && (m.tables[order[i]].keys != [] ==> TellsAll(m, order[i], all[before]))
              && Snapshots(m, order[..0]) == [] && order[..|order|] == order
    {
      SnapshotsStep(m, order, i);
      SnapshotsGrow(m, order, i + 1);
    }

    /** `connect`: refused at capacity, over all sockets or over the user's. */
    method Connect(w: Socket, user: Option<string>, sends: nat) returns (accepted: bool)
      requires Valid() && w !in users
      modifies `connections, `users, `outbox
      ensures Valid()
      ensures accepted <==> |old(connections)| < MAX_CONNECTIONS &&
                            (user == None || |UserSockets(old(users), user)| < MAX_CONNECTIONS_PER_USER)
      ensures !accepted ==> connections == old(connections) && users == old(users) && outbox == old(outbox)
      ensures accepted ==>
                && connections == old(connections) + [w] && users == old(users)[w := user]
                && (forall v | v in users && v != w :: outbox[v] == old(outbox)[v])
                && var all := Snapshots(Latest(), order); outbox[w] == if sends < |all| then all[..sends] else all
    {
      if |connections| >= MAX_CONNECTIONS {
        return false;
      }
      if user.Some? {
        var mine := Targets(user.value);
        Size(mine);
        assert Elements(mine) == UserSockets(users, user);
        if |mine| >= MAX_CONNECTIONS_PER_USER {
          return false;
        }
      }
      connections := connections + [w];
      users := users[w := user];
      outbox := outbox[w := []];
      SendLatestState(w, sends);
      accepted := true;
    }
  }
}
