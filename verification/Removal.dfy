/**
 Concurrent removal of sessions. `remove_session`, `disconnect` and `disconnect_all` run as tasks
 whose locked regions are single steps: take a snapshot of ids, then for each id erase the session
 under the lock and, outside it, call its `disconnect()`. A leave message erases without calling.
 */
module Removal {
  import opened Protocol
  import opened Registry

  /** A running call: the ids left to remove, the session it has taken out of the registry and not
      yet disconnected, and what its snapshot held. */
  datatype Task = Task(todo: seq<Uuid>, held: Option<Ref>, ids: set<Uuid>, snapshot: set<Ref>)

  /** `owner` is the id every session object was created with; `calls` counts `disconnect()` calls. */
  datatype System = System(registry: map<Uuid, Ref>, owner: map<Ref, Uuid>, tasks: seq<Task>, calls: map<Ref, nat>)

  const EMPTY := System(map[], map[], [], map[])

  datatype Event =
    | Register(id: Uuid, ref: Ref)
    | RemoveOne(id: Uuid)
    | RemoveSome(ids: seq<Uuid>)
    | Erase(task: nat)
    | Disconnect(task: nat)
    | Leave(id: Uuid)

  function Snapshot(s: System, ids: seq<Uuid>): set<Ref> {
    set id | id in ids && id in s.registry :: s.registry[id]
  }

  function Elements(ids: seq<Uuid>): set<Uuid> {
    set id | id in ids
  }

  /** `RemoveSome` is a `disconnect` or `disconnect_all` past its snapshot: the ids are those of
      registered sessions. */
  predicate Enabled(s: System, ev: Event) {
    match ev
    case Register(id, ref) => ref !in s.owner
    case RemoveOne(_) => true
    case RemoveSome(ids) => forall i :: 0 <= i < |ids| ==> ids[i] in s.registry
    case Erase(t) => t < |s.tasks| && s.tasks[t].held.None? && s.tasks[t].todo != []
    case Disconnect(t) => t < |s.tasks| && s.tasks[t].held.Some?
    case Leave(_) => true
  }

  function Calls(s: System, ref: Ref): nat {
    if ref in s.calls then s.calls[ref] else 0
  }

  function Step(s: System, ev: Event): System
    requires Enabled(s, ev)
  {
    match ev
    case Register(id, ref) =>
      s.(owner := s.owner[ref := id], registry := if id in s.registry then s.registry else s.registry[id := ref])
    case RemoveOne(id) =>
      s.(tasks := s.tasks + [Task([id], None, {id}, Snapshot(s, [id]))])
    case RemoveSome(ids) =>
      s.(tasks := s.tasks + [Task(ids, None, Elements(ids), Snapshot(s, ids))])
    case Erase(t) =>
      var k := s.tasks[t];
      var held := if k.todo[0] in s.registry then Some(s.registry[k.todo[0]]) else None;
      s.(registry := s.registry - {k.todo[0]}, tasks := s.tasks[t := k.(todo := k.todo[1..], held := held)])
    case Disconnect(t) =>
      var k := s.tasks[t];
      s.(calls := s.calls[k.held.value := Calls(s, k.held.value) + 1], tasks := s.tasks[t := k.(held := None)])
    case Leave(id) =>
      s.(registry := s.registry - {id})
  }

  predicate Registered(s: System, ref: Ref) {
    exists id :: id in s.registry && s.registry[id] == ref
  }

  /** Sessions are registered under their own id. */
  ghost predicate Owned(s: System) {
    && (forall id :: id in s.registry ==> s.registry[id] in s.owner && s.owner[s.registry[id]] == id)
    && (forall t :: 0 <= t < |s.tasks| && s.tasks[t].held.Some? ==> s.tasks[t].held.value in s.owner)
    && (forall r :: r in s.calls ==> r in s.owner)
  }

  /** A session is in one place only: registered, held by one task, or disconnected once. */
  ghost predicate Exclusive(s: System) {
    && (forall t :: 0 <= t < |s.tasks| && s.tasks[t].held.Some? ==>
          !Registered(s, s.tasks[t].held.value) && Calls(s, s.tasks[t].held.value) == 0)
    && (forall t, u :: 0 <= t < u < |s.tasks| && s.tasks[t].held.Some? ==> s.tasks[t].held != s.tasks[u].held)
    && (forall r :: r in s.calls && s.calls[r] > 0 ==> !Registered(s, r))
    && (forall r :: r in s.calls ==> s.calls[r] <= 1)
  }

  /** Every session of a snapshot is either still to be removed by its task or gone. */
  predicate TaskInv(s: System, k: Task) {
    && Elements(k.todo) <= k.ids
    && forall r :: r in k.snapshot ==> r in s.owner && (s.owner[r] in k.todo || !Registered(s, r))
  }

  ghost predicate Inv(s: System) {
    Owned(s) && Exclusive(s) && forall t :: 0 <= t < |s.tasks| ==> TaskInv(s, s.tasks[t])
  }

  lemma RegisteredUnderOwner(s: System, ref: Ref)
    requires Owned(s) && Registered(s, ref)
    ensures ref in s.owner && s.owner[ref] in s.registry && s.registry[s.owner[ref]] == ref
  {
    var id :| id in s.registry && s.registry[id] == ref;
  }

  lemma OwnedStep(s: System, ev: Event)
    requires Owned(s) && Enabled(s, ev)
    ensures Owned(Step(s, ev))
  {
  }

  lemma RegisterKeeps(s: System, id: Uuid, ref: Ref)
    requires Inv(s) && Enabled(s, Register(id, ref))
    ensures Inv(Step(s, Register(id, ref)))
  {
    var s' := Step(s, Register(id, ref));
    OwnedStep(s, Register(id, ref));
    forall r | r != ref
      ensures Registered(s', r) ==> Registered(s, r)
    {
      if Registered(s', r) {
        var x :| x in s'.registry && s'.registry[x] == r;
        assert x in s.registry && s.registry[x] == r;
      }
    }
    assert Calls(s, ref) == 0;
    forall t | 0 <= t < |s'.tasks|
      ensures TaskInv(s', s'.tasks[t])
    {
      assert TaskInv(s, s.tasks[t]);
    }
  }

  lemma ShrinkKeeps(s: System, s': System, id: Uuid)
    requires Inv(s) && s' == s.(registry := s.registry - {id})
    ensures Inv(s')
  {
    forall r
      ensures Registered(s', r) ==> Registered(s, r)
    {
      if Registered(s', r) {
        var x :| x in s'.registry && s'.registry[x] == r;
        assert x in s.registry && s.registry[x] == r;
      }
    }
    forall t | 0 <= t < |s'.tasks|
      ensures TaskInv(s', s'.tasks[t])
    {
      assert TaskInv(s, s.tasks[t]);
    }
  }

  lemma SpawnKeeps(s: System, ids: seq<Uuid>)
    requires Inv(s)
    ensures Inv(s.(tasks := s.tasks + [Task(ids, None, Elements(ids), Snapshot(s, ids))]))
  {
    var k := Task(ids, None, Elements(ids), Snapshot(s, ids));
    var s' := s.(tasks := s.tasks + [k]);
    assert forall r :: Registered(s', r) <==> Registered(s, r);
    forall t | 0 <= t < |s'.tasks|
      ensures TaskInv(s', s'.tasks[t])
    {
      if t < |s.tasks| {
        assert s'.tasks[t] == s.tasks[t] && TaskInv(s, s.tasks[t]);
      }
    }
  }

  lemma EraseKeeps(s: System, t: nat)
    requires Inv(s) && Enabled(s, Erase(t))
    ensures Inv(Step(s, Erase(t)))
  {
    var s' := Step(s, Erase(t));
    var k, k' := s.tasks[t], s'.tasks[t];
    var id := k.todo[0];
    OwnedStep(s, Erase(t));
    forall r
      ensures Registered(s', r) ==> Registered(s, r) && r in s.owner && s.owner[r] != id
    {
      if Registered(s', r) {
        var x :| x in s'.registry && s'.registry[x] == r;
        assert x in s.registry && s.registry[x] == r;
      }
    }
    assert k.todo == [id] + k.todo[1..];
    EraseExclusive(s, t);
    forall u | 0 <= u < |s'.tasks|
      ensures TaskInv(s', s'.tasks[u])
    {
      assert TaskInv(s, s.tasks[u]);
    }
  }

  lemma EraseExclusive(s: System, t: nat)
    requires Inv(s) && Enabled(s, Erase(t))
    ensures Exclusive(Step(s, Erase(t)))
  {
    var s' := Step(s, Erase(t));
    var id := s.tasks[t].todo[0];
    forall r
      ensures Registered(s', r) ==> Registered(s, r) && r in s.owner && s.owner[r] != id
    {
      if Registered(s', r) {
        var x :| x in s'.registry && s'.registry[x] == r;
        assert x in s.registry && s.registry[x] == r;
      }
    }
    if id in s.registry {
      assert Registered(s, s.registry[id]);
    }
  }

  lemma DisconnectKeeps(s: System, t: nat)
    requires Inv(s) && Enabled(s, Disconnect(t))
    ensures Inv(Step(s, Disconnect(t)))
  {
    var s' := Step(s, Disconnect(t));
    OwnedStep(s, Disconnect(t));
    assert forall r :: Registered(s', r) <==> Registered(s, r);
    forall u | 0 <= u < |s'.tasks|
      ensures TaskInv(s', s'.tasks[u])
    {
      assert TaskInv(s, s.tasks[u]);
    }
  }

  /** Every step keeps the invariant. */
  lemma StepKeeps(s: System, ev: Event)
    requires Inv(s) && Enabled(s, ev)
    ensures Inv(Step(s, ev))
  {
    match ev
    case Register(id, ref) => RegisterKeeps(s, id, ref);
    case RemoveOne(id) =>
      assert Elements([id]) == {id};
      SpawnKeeps(s, [id]);
    case RemoveSome(ids) => SpawnKeeps(s, ids);
    case Erase(t) => EraseKeeps(s, t);
    case Disconnect(t) => DisconnectKeeps(s, t);
    case Leave(id) => ShrinkKeeps(s, Step(s, ev), id);
  }

  ghost predicate Run(ss: seq<System>, evs: seq<Event>) {
    && |ss| == |evs| + 1
    && forall i :: 0 <= i < |evs| ==> Enabled(ss[i], evs[i]) && ss[i + 1] == Step(ss[i], evs[i])
  }

  lemma {:induction false} RunKeeps(ss: seq<System>, evs: seq<Event>, i: nat)
    requires Run(ss, evs) && ss[0] == EMPTY && i < |ss|
    ensures Inv(ss[i])
  {
    if i > 0 {
      RunKeeps(ss, evs, i - 1);
      StepKeeps(ss[i - 1], evs[i - 1]);
    }
  }

  /** Whatever the interleaving, `disconnect()` is called at most once on a session, and only when
      the session has left the registry for good. */
  lemma DisconnectedAtMostOnce(ss: seq<System>, evs: seq<Event>, i: nat, ref: Ref)
    requires Run(ss, evs) && ss[0] == EMPTY && i < |ss|
    ensures Calls(ss[i], ref) <= 1
    ensures Calls(ss[i], ref) == 1 ==> !Registered(ss[i], ref)
  {
    RunKeeps(ss, evs, i);
  }

  /** When a removal call returns, every session of its snapshot is out of the registry. */
  lemma SnapshotGone(ss: seq<System>, evs: seq<Event>, i: nat, t: nat, ref: Ref)
    requires Run(ss, evs) && ss[0] == EMPTY && i < |ss|
    requires t < |ss[i].tasks| && ss[i].tasks[t].todo == []
    requires ref in ss[i].tasks[t].snapshot
    ensures !Registered(ss[i], ref)
  {
    RunKeeps(ss, evs, i);
    assert TaskInv(ss[i], ss[i].tasks[t]);
  }

  /** One turn of a removal call takes out exactly the session registered under the id it has come to,
      whenever that session arrived. */
  lemma EraseTakesIff(ss: seq<System>, evs: seq<Event>, i: nat, ref: Ref)
    requires Run(ss, evs) && ss[0] == EMPTY && i < |evs| && evs[i].Erase?
    requires Registered(ss[i], ref)
    ensures ref in ss[i].owner
    ensures !Registered(ss[i + 1], ref) <==> ss[i].owner[ref] == ss[i].tasks[evs[i].task].todo[0]
  {
    RunKeeps(ss, evs, i);
    RunKeeps(ss, evs, i + 1);
    var s := ss[i];
    RegisteredUnderOwner(s, ref);
    if s.owner[ref] != s.tasks[evs[i].task].todo[0] {
      assert s.owner[ref] in ss[i + 1].registry;
    } else if Registered(ss[i + 1], ref) {
      RegisteredUnderOwner(ss[i + 1], ref);
    }
  }

  /** So it takes out only sessions with an id of its snapshot: a session that arrives later under a
      fresh id is untouched by it. */
  lemma OthersUntouched(ss: seq<System>, evs: seq<Event>, i: nat, ref: Ref)
    requires Run(ss, evs) && ss[0] == EMPTY && i < |evs| && evs[i].Erase?
    requires Registered(ss[i], ref) && ref in ss[i].owner && ss[i].owner[ref] !in ss[i].tasks[evs[i].task].ids
    ensures Registered(ss[i + 1], ref)
  {
    RunKeeps(ss, evs, i);
    var s, k := ss[i], ss[i].tasks[evs[i].task];
    RegisteredUnderOwner(s, ref);
    assert TaskInv(s, k);
    assert k.todo[0] in Elements(k.todo);
    assert s.owner[ref] in ss[i + 1].registry;
  }

  /** A registered session stays so until a removal call comes to its id or a leave names it; a second
      session under the id is refused. */
  lemma RegisteredUntil(ss: seq<System>, evs: seq<Event>, i: nat, ref: Ref)
    requires Run(ss, evs) && ss[0] == EMPTY && i < |evs| && Registered(ss[i], ref)
    ensures ref in ss[i].owner
    ensures !Registered(ss[i + 1], ref) <==>
            || (evs[i].Erase? && ss[i].owner[ref] == ss[i].tasks[evs[i].task].todo[0])
            || (evs[i].Leave? && ss[i].owner[ref] == evs[i].id)
  {
    RunKeeps(ss, evs, i);
    RunKeeps(ss, evs, i + 1);
    RegisteredUnderOwner(ss[i], ref);
    if evs[i].Erase? {
      EraseTakesIff(ss, evs, i, ref);
    } else if evs[i].Leave? && ss[i].owner[ref] == evs[i].id {
      if Registered(ss[i + 1], ref) {
        RegisteredUnderOwner(ss[i + 1], ref);
      }
    } else {
      assert ss[i].owner[ref] in ss[i + 1].registry;
    }
  }

  /** The removal call that takes a session out holds it. */
  lemma TakenIsHeld(ss: seq<System>, evs: seq<Event>, i: nat, ref: Ref)
    requires Run(ss, evs) && ss[0] == EMPTY && i < |evs| && evs[i].Erase? && Registered(ss[i], ref)
    requires ref in ss[i].owner && ss[i].owner[ref] == ss[i].tasks[evs[i].task].todo[0]
    ensures evs[i].task < |ss[i + 1].tasks| && ss[i + 1].tasks[evs[i].task].held == Some(ref)
  {
    RunKeeps(ss, evs, i);
    RegisteredUnderOwner(ss[i], ref);
  }

  /** What a call holds it holds until it has disconnected it. */
  lemma {:induction false} HeldUntilDisconnected(ss: seq<System>, evs: seq<Event>, i: nat, j: nat, t: nat, ref: Ref)
    requires Run(ss, evs) && ss[0] == EMPTY && i <= j < |ss|
    requires t < |ss[i].tasks| && ss[i].tasks[t].held == Some(ref)
    ensures t < |ss[j].tasks| && (ss[j].tasks[t].held == Some(ref) || Calls(ss[j], ref) == 1)
    decreases j
  {
    if i < j {
      HeldUntilDisconnected(ss, evs, i, j - 1, t, ref);
      RunKeeps(ss, evs, j - 1);
      RunKeeps(ss, evs, j);
      HeldStep(ss[j - 1], evs[j - 1], t, ref);
    }
  }

  lemma HeldStep(s: System, ev: Event, t: nat, ref: Ref)
    requires Inv(s) && Enabled(s, ev) && Inv(Step(s, ev))
    requires t < |s.tasks| && (s.tasks[t].held == Some(ref) || Calls(s, ref) == 1)
    ensures var d := Step(s, ev);
            t < |d.tasks| && (d.tasks[t].held == Some(ref) || Calls(d, ref) == 1)
  {
    if s.tasks[t].held == Some(ref) {
      assert Calls(s, ref) == 0;
    }
  }

  /** A session that a removal call takes out has been disconnected, exactly once, by the time the call
      holds nothing. */
  lemma TakenIsDisconnected(ss: seq<System>, evs: seq<Event>, i: nat, j: nat, ref: Ref)
    requires Run(ss, evs) && ss[0] == EMPTY && i < j < |ss| && evs[i].Erase? && Registered(ss[i], ref)
    requires ref in ss[i].owner && ss[i].owner[ref] == ss[i].tasks[evs[i].task].todo[0]
    ensures evs[i].task < |ss[j].tasks|
    ensures ss[j].tasks[evs[i].task].held == None ==> Calls(ss[j], ref) == 1
  {
    TakenIsHeld(ss, evs, i, ref);
    HeldUntilDisconnected(ss, evs, i + 1, j, evs[i].task, ref);
  }
}
