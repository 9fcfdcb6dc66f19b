/**
 New connections: a socket is first registered, then sent the latest state event by
 event while broadcasts go on (app/websocket/manager.py:231-286, 321-336). A socket
 receives what was handed to it, in that order; a client folds it by merge key.
 */
module LateJoin {
  import opened Wrappers
  import opened Messages

  datatype Payload = Payload(event: Event, data: Data)

  /** `todo`: events of the snapshot still to be sent; `size`: how many there were when
      the iteration over the dictionary began. */
  datatype Client = Client(sent: seq<Payload>, joining: bool, todo: seq<Event>, size: nat)

  datatype State = State(server: Merged, clients: map<Socket, Client>)

  const INITIAL := State(NOTHING_MERGED, map[])

  datatype Step =
    | Broadcast(event: Event, data: Data)
    | Accept(socket: Socket)
    | SnapshotNext(socket: Socket)
    | Gone(socket: Socket)

  predicate Enabled(s: State, step: Step) {
    match step
    case Broadcast(_, _) => true
    case Accept(w) => w !in s.clients
    case SnapshotNext(w) => w in s.clients && s.clients[w].joining
    case Gone(w) => w in s.clients
  }

  function Snapshot(server: Merged, e: Event): Data
    requires e in server.tables
  {
    Updates(Values(server.tables[e]), if e in server.stamps then Some(server.stamps[e]) else None)
  }

  function Handed(c: Client, e: Event, data: Data): Client {
    c.(sent := c.sent + [Payload(e, data)])
  }

  /** One turn of the iteration. Python refuses to go on with a dictionary that grew
      under it: `connect` raises and the socket is lost. */
  function NextSnapshot(s: State, w: Socket): State
    requires w in s.clients
  {
    var c := s.clients[w];
    if |s.server.order| != c.size then s.(clients := s.clients - {w})
    else if c.todo == [] then s.(clients := s.clients[w := c.(joining := false)])
    else
      var e := c.todo[0];
      var d := c.(todo := c.todo[1..]);
      if e !in s.server.tables || s.server.tables[e].keys == [] then s.(clients := s.clients[w := d])
      else s.(clients := s.clients[w := Handed(d, e, Snapshot(s.server, e))])
  }

  function Apply(s: State, step: Step): State
    requires Enabled(s, step)
  {
    match step
    case Broadcast(e, data) =>
      State(Learn(s.server, e, data), map w | w in s.clients :: Handed(s.clients[w], e, data))
    case Accept(w) => s.(clients := s.clients[w := Client([], true, s.server.order, |s.server.order|)])
    case SnapshotNext(w) => NextSnapshot(s, w)
    case Gone(w) => s.(clients := s.clients - {w})
  }

  ghost function Exec(run: seq<Step>): Option<State> {
    if run == [] then Some(INITIAL)
    else
      var before := Exec(run[..|run| - 1]);
      if before.Some? && Enabled(before.value, run[|run| - 1]) then Some(Apply(before.value, run[|run| - 1]))
      else None
  }

  /** What a client has made of what it was sent. */
  ghost function View(sent: seq<Payload>): Merged {
    if sent == [] then NOTHING_MERGED
    else Learn(View(sent[..|sent| - 1]), sent[|sent| - 1].event, sent[|sent| - 1].data)
  }

  ghost predicate KeyedTables(m: Merged) {
    forall e, k | At(m, e, k).Some? :: At(m, e, k).value.Keyed? && HasMergeKey(e)
  }

  /** Up to date except for events the snapshot has still to reach, and never wrong. */
  ghost predicate Follows(c: Client, server: Merged) {
    && (forall e, k :: At(View(c.sent), e, k) == At(server, e, k) || (c.joining && e in c.todo && At(View(c.sent), e, k).None?))
    && (forall i, j | 0 <= i < j < |c.todo| :: c.todo[i] != c.todo[j])
    && (forall i | 0 <= i < |c.todo| :: HasMergeKey(c.todo[i]))
  }

  ghost predicate Inv(s: State) {
    && WfMerged(s.server) && KeyedTables(s.server)
    && (forall e | e in s.server.order :: HasMergeKey(e))
    && (forall w | w in s.clients :: Follows(s.clients[w], s.server))
  }

  lemma HandedView(c: Client, e: Event, data: Data, f: Event, k: MergeKey)
    ensures At(View(Handed(c, e, data).sent), f, k) ==
            if f == e && HasMergeKey(e) && data.Updates? then Or(LastKeyed(data.updates, k), At(View(c.sent), e, k))
            else At(View(c.sent), f, k)
  {
    assert Handed(c, e, data).sent[..|c.sent|] == c.sent;
    LearnAt(View(c.sent), e, data, f, k);
  }

  lemma BroadcastFollows(c: Client, server: Merged, e: Event, data: Data)
    requires Follows(c, server)
    ensures Follows(Handed(c, e, data), Learn(server, e, data))
  {
    forall f, k
      ensures At(View(Handed(c, e, data).sent), f, k) == At(Learn(server, e, data), f, k) ||
              (c.joining && f in c.todo && At(View(Handed(c, e, data).sent), f, k).None?)
    {
      HandedView(c, e, data, f, k);
      LearnAt(server, e, data, f, k);
      assert At(View(c.sent), f, k) == At(server, f, k) || (c.joining && f in c.todo && At(View(c.sent), f, k).None?);
    }
  }

  lemma SnapshotFollows(c: Client, server: Merged)
    requires Follows(c, server) && KeyedTables(server) && c.joining && c.todo != []
    ensures var e, d := c.todo[0], c.(todo := c.todo[1..]);
            if e !in server.tables || server.tables[e].keys == [] then Follows(d, server)
            else Follows(Handed(d, e, Snapshot(server, e)), server)
  {
    var e, d := c.todo[0], c.(todo := c.todo[1..]);
    assert c.todo == [e] + d.todo;
    var empty := e !in server.tables || server.tables[e].keys == [];
    var n := if empty then d else Handed(d, e, Snapshot(server, e));
    forall f, k
      ensures At(View(n.sent), f, k) == At(server, f, k) || (f in d.todo && At(View(n.sent), f, k).None?)
    {
      assert At(View(c.sent), f, k) == At(server, f, k) || (f in c.todo && At(View(c.sent), f, k).None?);
      if !empty {
        HandedView(d, e, Snapshot(server, e), f, k);
        ValuesLast(server.tables[e], k);
        assert At(server, e, k).Some? ==> At(server, e, k).value.Keyed?;
      } else if e in server.tables {
        assert forall j :: j !in server.tables[e].items;
      }
    }
  }

  lemma InvStep(s: State, step: Step)
    requires Inv(s) && Enabled(s, step)
    ensures Inv(Apply(s, step))
  {
    var r := Apply(s, step);
    match step
    case Broadcast(e, data) =>
      forall f, k ensures At(r.server, f, k).Some? ==> At(r.server, f, k).value.Keyed? && HasMergeKey(f) {
        LearnAt(s.server, e, data, f, k);
        if data.Updates? { LastKeyedHas(data.updates, k); }
      }
      LearnAt(s.server, e, data, e, NullKey);
      forall w | w in r.clients ensures Follows(r.clients[w], r.server) {
        BroadcastFollows(s.clients[w], s.server, e, data);
      }
    case Accept(w) => AcceptFollows(s.server);
    case SnapshotNext(w) =>
      if s.clients[w].todo != [] {
        SnapshotFollows(s.clients[w], s.server);
      }
    case Gone(w) =>
  }

  lemma AcceptFollows(server: Merged)
    requires WfMerged(server) && forall e | e in server.order :: HasMergeKey(e)
    ensures Follows(Client([], true, server.order, |server.order|), server)
  {
  }

  lemma {:induction false} LastKeyedHas(updates: seq<Item>, k: MergeKey)
    ensures LastKeyed(updates, k).Some? ==> LastKeyed(updates, k).value.Keyed?
  {
    if updates != [] {
      LastKeyedHas(updates[..|updates| - 1], k);
    }
  }

  lemma {:induction false} InvRun(run: seq<Step>)
    requires Exec(run).Some?
    ensures Inv(Exec(run).value)
  {
    if run != [] {
      InvRun(run[..|run| - 1]);
      InvStep(Exec(run[..|run| - 1]).value, run[|run| - 1]);
    }
  }

  /** The stamps broadcast for an event, None for any other step. */
  ghost function StampsOf(run: seq<Step>, e: Event): seq<Option<string>> {
    seq(|run|, i requires 0 <= i < |run| =>
      if run[i].Broadcast? && run[i].event == e && (e == "crowd_update" || e == "train_position") && run[i].data.Updates?
      then run[i].data.timestamp else None)
  }

  ghost function StampAt(m: Merged, e: Event): Option<string> { if e in m.stamps then Some(m.stamps[e]) else None }

  /** The latest state keeps the last stamp broadcast for an event. */
  lemma {:induction false} LatestStampIs(run: seq<Step>, e: Event)
    requires Exec(run).Some?
    ensures IsLastStamp(StampsOf(run, e), StampAt(Exec(run).value.server, e))
  {
    if run != [] {
      var g, last := run[..|run| - 1], run[|run| - 1];
      LatestStampIs(g, e);
      var s := Exec(g).value;
      var given := StampsOf(run, e)[|g|];
      NextStamp(StampsOf(g, e), StampAt(s.server, e), given);
      assert StampsOf(run, e) == StampsOf(g, e) + [given];
      if last.Broadcast? {
        LearnAt(s.server, last.event, last.data, e, NullKey);
      }
    }
  }

  /** A client whose snapshot is complete holds, once it has received what it was sent,
      the server's latest item of every key and nothing else, whatever was broadcast
      before, while and after it connected. */
  lemma LateJoinerConverges(run: seq<Step>, w: Socket, e: Event, k: MergeKey)
    requires Exec(run).Some? && w in Exec(run).value.clients && !Exec(run).value.clients[w].joining
    ensures At(View(Exec(run).value.clients[w].sent), e, k) == At(Exec(run).value.server, e, k)
  {
    InvRun(run);
    var s := Exec(run).value;
    assert Follows(s.clients[w], s.server);
  }
}
