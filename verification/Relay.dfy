/**
 The relay between instances: a local broadcast publishes one message, every other
 instance that gets it runs the delivery body unless it has recently seen the event id
 (app/websocket/manager.py:148-229, 321-383). The channel may delay, reorder, drop and
 repeat messages: handling any published message at any time is a step.
 */
module Relay {
  import opened Wrappers
  import opened Lru

  type Id = string
  type Instance = nat

  const DEDUPE_MAX_ENTRIES: nat := 4096

  datatype Message = Message(origin: Instance, id: Id)

  /** `seen` is the de-duplication set; `ran` lists the ids whose delivery body ran. */
  datatype Node = Node(seen: seq<Id>, ran: seq<Id>)

  /** `handled` remembers which messages each instance got; `local` all local broadcasts. */
  datatype State = State(
    nodes: map<Instance, Node>,
    channel: seq<Message>,
    local: seq<Message>,
    handled: set<(Instance, Message)>
  )

  datatype Step =
    | Join(i: Instance)
    | Local(i: Instance, id: Id, published: bool)
    | Handle(i: Instance, m: Message)

  const INITIAL := State(map[], [], [], {})

  /** Fresh ids: a local broadcast draws one nobody drew before. */
  predicate Enabled(s: State, step: Step) {
    match step
    case Join(i) => i !in s.nodes
    case Local(i, id, _) => i in s.nodes && forall m | m in s.local :: m.id != id
    case Handle(i, m) => i in s.nodes && m in s.channel
  }

  /** The head of `broadcast` and `broadcast_to_user`: nothing for a seen id, else mark
      it and run the body. */
  function Receive(n: Node, id: Id, cap: nat): Node {
    if id in n.seen then n else Node(Mark(n.seen, id, cap), n.ran + [id])
  }

  function Apply(s: State, step: Step, cap: nat): State
    requires Enabled(s, step)
  {
    match step
    case Join(i) => s.(nodes := s.nodes[i := Node([], [])])
    case Local(i, id, published) =>
      var m := Message(i, id);
      s.(nodes := s.nodes[i := Receive(s.nodes[i], id, cap)],
         local := s.local + [m],
         channel := if published then s.channel + [m] else s.channel)
    case Handle(i, m) =>
      if m.origin == i then s
      else s.(nodes := s.nodes[i := Receive(s.nodes[i], m.id, cap)], handled := s.handled + {(i, m)})
  }

  ghost function Exec(run: seq<Step>, cap: nat): Option<State> {
    if run == [] then Some(INITIAL)
    else
      var before := Exec(run[..|run| - 1], cap);
      if before.Some? && Enabled(before.value, run[|run| - 1]) then Some(Apply(before.value, run[|run| - 1], cap))
      else None
  }

  ghost function Runs(s: State, i: Instance, id: Id): nat {
    if i in s.nodes then multiset(s.nodes[i].ran)[id] else 0
  }

  // ---------- What holds in every run ----------

  ghost predicate SeenRight(s: State, cap: nat) {
    forall i | i in s.nodes :: s.nodes[i].seen == SeenAfter(s.nodes[i].ran, cap)
  }

  /** One message a broadcast at most, none repeated; no id drawn twice. */
  ghost predicate Logs(s: State) {
    && |s.channel| <= |s.local|
    && (forall m | m in s.channel :: m in s.local)
    && (forall a, b | 0 <= a < b < |s.local| :: s.local[a].id != s.local[b].id)
    && (forall a, b | 0 <= a < b < |s.channel| :: s.channel[a] != s.channel[b])
  }

  /** An instance runs its own ids once. */
  ghost predicate OwnOnce(s: State) {
    forall m | m in s.local :: m.origin in s.nodes && Runs(s, m.origin, m.id) == 1
  }

  ghost predicate Caused(s: State, i: Instance, id: Id) {
    exists m :: m in s.local && m.id == id && (m.origin == i || (i, m) in s.handled)
  }

  /** It runs otherwise only what it handled, and everything it handled. */
  ghost predicate Causes(s: State) {
    && (forall i, id | i in s.nodes && id in s.nodes[i].ran :: Caused(s, i, id))
    && (forall i, m | (i, m) in s.handled :: i in s.nodes && m in s.channel && m.id in s.nodes[i].ran && m.origin != i)
  }

  ghost predicate Inv(s: State, cap: nat) {
    SeenRight(s, cap) && Logs(s) && OwnOnce(s) && Causes(s)
  }

  lemma ReceiveIs(n: Node, id: Id, cap: nat)
    requires n.seen == SeenAfter(n.ran, cap)
    ensures var r := Receive(n, id, cap);
            && r.seen == SeenAfter(r.ran, cap)
            && (r == n || r.ran == n.ran + [id])
            && (r == n <==> id in n.seen)
            && (forall j :: multiset(r.ran)[j] == multiset(n.ran)[j] + if j == id && r != n then 1 else 0)
  {
    assert (n.ran + [id])[..|n.ran|] == n.ran;
    if id !in n.seen {
      assert |n.ran + [id]| == |n.ran| + 1;
    }
  }

  lemma SameIdSameMessage(s: State, a: Message, b: Message)
    requires Logs(s) && a in s.local && b in s.local && a.id == b.id
    ensures a == b
  {
    var i, j :| 0 <= i < |s.local| && 0 <= j < |s.local| && s.local[i] == a && s.local[j] == b;
    assert i == j;
  }

  lemma NewId(s: State, i: Instance, id: Id)
    requires Causes(s) && i in s.nodes && forall m | m in s.local :: m.id != id
    ensures id !in s.nodes[i].ran
  {
    assert id in s.nodes[i].ran ==> Caused(s, i, id);
  }

  lemma CausedStays(s: State, r: State)
    requires forall m | m in s.local :: m in r.local
    requires s.handled <= r.handled
    ensures forall i, id | Caused(s, i, id) :: Caused(r, i, id)
  {
  }

  lemma LocalOwn(s: State, i: Instance, id: Id, published: bool, cap: nat)
    requires cap >= 1 && Inv(s, cap) && Enabled(s, Local(i, id, published))
    ensures OwnOnce(Apply(s, Local(i, id, published), cap))
  {
    var r := Apply(s, Local(i, id, published), cap);
    ReceiveIs(s.nodes[i], id, cap);
    NewId(s, i, id);
    SeenExactly(s.nodes[i].ran, cap, id);
    forall m | m in r.local
      ensures m.origin in r.nodes && Runs(r, m.origin, m.id) == 1
    {
      if m in s.local {
        assert Runs(s, m.origin, m.id) == 1;
      }
    }
  }

  lemma LocalCauses(s: State, i: Instance, id: Id, published: bool, cap: nat)
    requires Inv(s, cap) && Enabled(s, Local(i, id, published))
    ensures Causes(Apply(s, Local(i, id, published), cap))
  {
    var r := Apply(s, Local(i, id, published), cap);
    ReceiveIs(s.nodes[i], id, cap);
    CausedStays(s, r);
    assert Message(i, id) in r.local;
    forall j, x | j in r.nodes && x in r.nodes[j].ran
      ensures Caused(r, j, x)
    {
      if j != i || x != id {
        assert x in s.nodes[j].ran && Caused(s, j, x);
      }
    }
  }

  lemma OwnKept(s: State, i: Instance, n: Node, x: Id)
    requires OwnOnce(s) && i in s.nodes && forall m | m in s.local && m.origin == i :: m.id != x
    requires forall y | y != x :: multiset(n.ran)[y] == multiset(s.nodes[i].ran)[y]
    ensures OwnOnce(s.(nodes := s.nodes[i := n]))
  {
    var r := s.(nodes := s.nodes[i := n]);
    forall m | m in r.local
      ensures m.origin in r.nodes && Runs(r, m.origin, m.id) == 1
    {
      assert Runs(s, m.origin, m.id) == 1;
    }
  }

  lemma HandleOwn(s: State, i: Instance, m: Message, n: Node)
    requires Logs(s) && OwnOnce(s) && i in s.nodes && m in s.channel && m.origin != i
    requires forall y | y != m.id :: multiset(n.ran)[y] == multiset(s.nodes[i].ran)[y]
    ensures OwnOnce(s.(nodes := s.nodes[i := n], handled := s.handled + {(i, m)}))
  {
    forall l | l in s.local && l.origin == i
      ensures l.id != m.id
    {
      if l.id == m.id { SameIdSameMessage(s, l, m); }
    }
    OwnKept(s, i, n, m.id);
    var a, b := s.(nodes := s.nodes[i := n]), s.(nodes := s.nodes[i := n], handled := s.handled + {(i, m)});
    forall l | l in b.local
      ensures l.origin in b.nodes && Runs(b, l.origin, l.id) == 1
    {
      assert Runs(a, l.origin, l.id) == 1;
    }
  }

  lemma HandleCauses(s: State, i: Instance, m: Message, n: Node)
    requires Causes(s) && i in s.nodes && m in s.channel && m in s.local && m.origin != i
    requires m.id in n.ran && (n == s.nodes[i] || n.ran == s.nodes[i].ran + [m.id])
    ensures Causes(s.(nodes := s.nodes[i := n], handled := s.handled + {(i, m)}))
  {
    var r := s.(nodes := s.nodes[i := n], handled := s.handled + {(i, m)});
    CausedStays(s, r);
    assert (i, m) in r.handled && Caused(r, i, m.id);
    forall j, id | j in r.nodes && id in r.nodes[j].ran
      ensures Caused(r, j, id)
    {
      if !(j == i && id == m.id) {
        assert id in s.nodes[j].ran && Caused(s, j, id);
      }
    }
  }

  lemma InvJoin(s: State, i: Instance, cap: nat)
    requires Inv(s, cap) && Enabled(s, Join(i))
    ensures Inv(Apply(s, Join(i), cap), cap)
  {
    var r := Apply(s, Join(i), cap);
    CausedStays(s, r);
    assert forall m | m in s.local :: Runs(s, m.origin, m.id) == Runs(r, m.origin, m.id);
    forall j, id | j in r.nodes && id in r.nodes[j].ran
      ensures Caused(r, j, id)
    {
      assert id in s.nodes[j].ran && Caused(s, j, id);
    }
  }

  lemma InvLocal(s: State, i: Instance, id: Id, published: bool, cap: nat)
    requires cap >= 1 && Inv(s, cap) && Enabled(s, Local(i, id, published))
    ensures Inv(Apply(s, Local(i, id, published), cap), cap)
  {
    ReceiveIs(s.nodes[i], id, cap);
    LocalOwn(s, i, id, published, cap);
    LocalCauses(s, i, id, published, cap);
    assert Logs(Apply(s, Local(i, id, published), cap));
  }

  lemma InvHandle(s: State, i: Instance, m: Message, cap: nat)
    requires cap >= 1 && Inv(s, cap) && Enabled(s, Handle(i, m)) && m.origin != i
    ensures Inv(Apply(s, Handle(i, m), cap), cap)
  {
    var n := Receive(s.nodes[i], m.id, cap);
    ReceiveIs(s.nodes[i], m.id, cap);
    SeenExactly(s.nodes[i].ran, cap, m.id);
    HandleOwn(s, i, m, n);
    HandleCauses(s, i, m, n);
  }

  lemma InvStep(s: State, step: Step, cap: nat)
    requires cap >= 1 && Inv(s, cap) && Enabled(s, step)
    ensures Inv(Apply(s, step, cap), cap)
  {
    match step
    case Join(i) => InvJoin(s, i, cap);
    case Local(i, id, published) => InvLocal(s, i, id, published, cap);
    case Handle(i, m) => if m.origin != i { InvHandle(s, i, m, cap); }
  }

  lemma {:induction false} InvRun(run: seq<Step>, cap: nat)
    requires cap >= 1 && Exec(run, cap).Some?
    ensures Inv(Exec(run, cap).value, cap)
  {
    if run != [] {
      InvRun(run[..|run| - 1], cap);
      InvStep(Exec(run[..|run| - 1], cap).value, run[|run| - 1], cap);
    }
  }

  /** However the channel behaves: an event's body runs exactly once where it was first
      broadcast, elsewhere only after its message was handled; messages never outnumber
      local broadcasts, so no relayed event is published again. */
  lemma OriginRunsOnce(run: seq<Step>, cap: nat)
    requires cap >= 1 && Exec(run, cap).Some?
    ensures var s := Exec(run, cap).value;
            && (forall m | m in s.local :: Runs(s, m.origin, m.id) == 1)
            && (forall i, id | Runs(s, i, id) > 0 ::
                  exists m :: m in s.local && m.id == id && (m.origin == i || ((i, m) in s.handled && m in s.channel)))
            && |s.channel| <= |s.local|
            && (forall a, b | 0 <= a < b < |s.channel| :: s.channel[a] != s.channel[b])
  {
    InvRun(run, cap);
    var s := Exec(run, cap).value;
    forall i, id | Runs(s, i, id) > 0
      ensures exists m :: m in s.local && m.id == id && (m.origin == i || ((i, m) in s.handled && m in s.channel))
    {
      assert id in s.nodes[i].ran;
      var m :| m in s.local && m.id == id && (m.origin == i || (i, m) in s.handled);
    }
  }

  lemma HandleRuns(s: State, i: Instance, m: Message, cap: nat)
    requires cap >= 1 && Inv(s, cap) && Enabled(s, Handle(i, m))
    ensures var ran := s.nodes[i].ran;
            var r := Apply(s, Handle(i, m), cap);
            && (forall j, id | !(j == i && id == m.id) :: Runs(r, j, id) == Runs(s, j, id))
            && Runs(r, i, m.id) == Runs(s, i, m.id) +
                 if m.origin != i && (m.id !in ran || |Since(ran, m.id)| >= cap) then 1 else 0
  {
    ReceiveIs(s.nodes[i], m.id, cap);
    SeenExactly(s.nodes[i].ran, cap, m.id);
  }

  /** A message handled in any reachable state runs the body exactly when the instance is
      not its origin and either never ran the event or has run `cap` other events since. */
  lemma BodyRunsExactly(run: seq<Step>, i: Instance, m: Message, cap: nat)
    requires cap >= 1 && Exec(run, cap).Some? && Enabled(Exec(run, cap).value, Handle(i, m))
    ensures var s := Exec(run, cap).value;
            var ran := s.nodes[i].ran;
            var r := Apply(s, Handle(i, m), cap);
            Runs(r, i, m.id) == Runs(s, i, m.id) +
              if m.origin != i && (m.id !in ran || |Since(ran, m.id)| >= cap) then 1 else 0
  {
    InvRun(run, cap);
    HandleRuns(Exec(run, cap).value, i, m, cap);
  }

  // ---------- Within the de-duplication window ----------

  /** A repeat comes before `cap` other events ran at that instance. */
  ghost predicate InWindow(s: State, step: Step, cap: nat) {
    step.Handle? && step.i in s.nodes && step.m.id in s.nodes[step.i].ran ==>
      |Since(s.nodes[step.i].ran, step.m.id)| < cap
  }

  /** Every repeat of this one event at this one instance comes in time. */
  ghost predicate RepeatsInWindow(run: seq<Step>, i: Instance, id: Id, cap: nat) {
    forall n | 0 <= n < |run| && run[n].Handle? && run[n].i == i && run[n].m.id == id ::
      Exec(run[..n], cap).Some? ==> InWindow(Exec(run[..n], cap).value, run[n], cap)
  }

  lemma OnceStep(s: State, step: Step, i: Instance, id: Id, cap: nat)
    requires cap >= 1 && Inv(s, cap) && Enabled(s, step) && Runs(s, i, id) <= 1
    requires step.Handle? && step.i == i && step.m.id == id ==> InWindow(s, step, cap)
    ensures Runs(Apply(s, step, cap), i, id) <= 1
  {
    match step
    case Join(_) =>
    case Handle(j, m) => HandleRuns(s, j, m, cap);
    case Local(j, x, published) =>
      NewId(s, j, x);
      ReceiveIs(s.nodes[j], x, cap);
  }

  /** Whatever happens to other events and elsewhere, an instance whose repeats of an event
      come in time runs its body once at most. */
  lemma {:induction false} AtMostOnce(run: seq<Step>, i: Instance, id: Id, cap: nat)
    requires cap >= 1 && Exec(run, cap).Some? && RepeatsInWindow(run, i, id, cap)
    ensures Runs(Exec(run, cap).value, i, id) <= 1
  {
    if run != [] {
      var p, step := run[..|run| - 1], run[|run| - 1];
      forall n | 0 <= n < |p| && p[n].Handle? && p[n].i == i && p[n].m.id == id && Exec(p[..n], cap).Some?
        ensures InWindow(Exec(p[..n], cap).value, p[n], cap)
      {
        assert p[..n] == run[..n] && run[n] == p[n];
      }
      AtMostOnce(p, i, id, cap);
      InvRun(p, cap);
      OnceStep(Exec(p, cap).value, step, i, id, cap);
    }
  }

  /** And exactly once if it is the event's origin or ever got its message; otherwise never. */
  lemma ExactlyOnce(run: seq<Step>, i: Instance, m: Message, cap: nat)
    requires cap >= 1 && Exec(run, cap).Some? && RepeatsInWindow(run, i, m.id, cap)
    requires i in Exec(run, cap).value.nodes && m in Exec(run, cap).value.local
    ensures var s := Exec(run, cap).value;
            Runs(s, i, m.id) == if m.origin == i || (i, m) in s.handled then 1 else 0
  {
    InvRun(run, cap);
    AtMostOnce(run, i, m.id, cap);
    RunsIfCaused(Exec(run, cap).value, i, m, cap);
  }

  lemma RunsIfCaused(s: State, i: Instance, m: Message, cap: nat)
    requires Inv(s, cap) && i in s.nodes && m in s.local
    ensures Runs(s, i, m.id) >= 1 <==> m.origin == i || (i, m) in s.handled
  {
    if m.id in s.nodes[i].ran {
      assert Caused(s, i, m.id);
      var other :| other in s.local && other.id == m.id && (other.origin == i || (i, other) in s.handled);
      SameIdSameMessage(s, m, other);
    }
  }
}
