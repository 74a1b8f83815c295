/** Removing several sessions at once: by the node they belong to, or all of them. */
module Disconnects {
  import opened Protocol
  import opened Registry
  import NodeModel
  import Index = IndexAgreement
  import S = State
  import Routing

  /** The references of the elements whose id is listed, and nothing twice. */
  ghost predicate Gone(filed: seq<Filing>, ids: seq<Uuid>, gone: seq<Ref>) {
    && (forall r :: r in gone <==> exists f :: f in filed && f.ref == r && f.id in ids)
    && (forall i, j :: 0 <= i < j < |gone| ==> gone[i] != gone[j])
  }

  /** The elements whose id is not listed. */
  ghost predicate Kept(filed: seq<Filing>, ids: seq<Uuid>, rest: seq<Filing>) {
    forall f :: f in rest <==> f in filed && f.id !in ids
  }

  lemma IdsGrow(ids: seq<Uuid>, i: nat)
    requires i < |ids|
    ensures forall id :: id in ids[..i + 1] <==> id in ids[..i] || id == ids[i]
  {
    assert ids[..i + 1] == ids[..i] + [ids[i]];
  }

  lemma SameElement(filed: seq<Filing>, f: Filing, g: Filing)
    requires UniqueIds(filed) && UniqueRefs(filed) && f in filed && g in filed
    ensures f.ref == g.ref <==> f == g
    ensures f.id == g.id <==> f == g
  {
    var i :| 0 <= i < |filed| && filed[i] == f;
    var j :| 0 <= j < |filed| && filed[j] == g;
  }

  lemma KeptStep(filed: seq<Filing>, ids: seq<Uuid>, i: nat, rest: seq<Filing>)
    requires i < |ids| && Kept(filed, ids[..i], rest)
    ensures Kept(filed, ids[..i + 1], WithoutId(rest, ids[i]))
  {
    IdsGrow(ids, i);
    WithoutIdMembers(rest, ids[i]);
  }

  /** An id that is no longer found was removed before. */
  lemma GoneSkip(filed: seq<Filing>, ids: seq<Uuid>, i: nat, rest: seq<Filing>, gone: seq<Ref>)
    requires i < |ids| && Kept(filed, ids[..i], rest) && Gone(filed, ids[..i], gone)
    requires !IdTaken(rest, ids[i])
    ensures Gone(filed, ids[..i + 1], gone)
  {
    IdsGrow(ids, i);
    TakenIsMember(rest, ids[i]);
    assert forall f :: f in filed && f.id in ids[..i + 1] ==> f.id in ids[..i];
  }

  lemma GoneTake(filed: seq<Filing>, ids: seq<Uuid>, i: nat, gone: seq<Ref>, f: Filing)
    requires UniqueIds(filed) && UniqueRefs(filed) && i < |ids| && Gone(filed, ids[..i], gone)
    requires f in filed && f.id == ids[i] && f.id !in ids[..i]
    ensures Gone(filed, ids[..i + 1], gone + [f.ref])
  {
    IdsGrow(ids, i);
    forall g | g in filed
      ensures g.ref == f.ref <==> g == f
      ensures g.id == f.id <==> g == f
    {
      SameElement(filed, f, g);
    }
    assert f.ref !in gone;
  }

  /** `remove_session` for every id in turn: the sessions of these ids and no others are taken out
      and disconnected, each once. */
  method RemoveEach(state: S.State, ids: seq<Uuid>) returns (gone: seq<Ref>)
    requires state.Valid()
    modifies state, state.sessions
    ensures state.Valid() && state.View() == old(state.View()).(filed := state.sessions.filed)
    ensures Kept(old(state.sessions.filed), ids, state.sessions.filed)
    ensures Gone(old(state.sessions.filed), ids, gone)
  {
    gone := [];
    ghost var filed := state.sessions.filed;
    for i := 0 to |ids|
      invariant state.Valid() && state.View() == old(state.View()).(filed := state.sessions.filed)
      invariant Kept(filed, ids[..i], state.sessions.filed)
      invariant Gone(filed, ids[..i], gone)
    {
      KeptStep(filed, ids, i, state.sessions.filed);
      if !IdTaken(state.sessions.filed, ids[i]) {
        GoneSkip(filed, ids, i, state.sessions.filed, gone);
      }
      var removed := state.RemoveSession(ids[i]);
      if removed.Some? {
        GoneTake(filed, ids, i, gone, removed.value);
        gone := gone + [removed.value.ref];
      }
    }
    assert ids[..|ids|] == ids;
  }

  lemma NothingKept(filed: seq<Filing>, ids: seq<Uuid>, rest: seq<Filing>)
    requires Kept(filed, ids, rest) && forall f :: f in filed ==> f.id in ids
    ensures rest == []
  {
    FirstIsMember(rest);
  }

  lemma FirstIsMember(filed: seq<Filing>)
    ensures filed != [] ==> filed[0] in filed
  {
  }

  /** Every session leaves, and each is disconnected once. */
  method DisconnectAll(state: S.State) returns (gone: seq<Ref>)
    requires state.Valid()
    modifies state, state.sessions
    ensures state.Valid() && state.View() == old(state.View()).(filed := [])
    ensures forall r :: r in gone <==> RefFiled(old(state.sessions.filed), r)
    ensures forall i, j :: 0 <= i < j < |gone| ==> gone[i] != gone[j]
  {
    var filed := state.sessions.filed;
    var ids: seq<Uuid> := seq(|filed|, i requires 0 <= i < |filed| => filed[i].id);
    assert forall i :: 0 <= i < |filed| ==> ids[i] == filed[i].id;
    gone := RemoveEach(state, ids);
    assert forall f :: f in filed ==> f.id in ids;
    NothingKept(filed, ids, state.sessions.filed);
  }

  // ----------------------------------------------------------- by node id

  /** Filed under the node id and still bound to it. */
  predicate Bound(n: NodeModel.Node, f: Filing, node: Uuid) {
    f.node == node && NodeModel.At(n, f.ref).nodeId == node
  }

  lemma {:induction false} FiledScanMembers(n: NodeModel.Node, filed: seq<Filing>, node: Uuid)
    ensures forall r :: r in Index.FiledScan(n, filed, ByNode(node)) <==> exists f :: f in filed && f.ref == r && Bound(n, f, node)
  {
    if filed != [] {
      FiledScanMembers(n, filed[1..], node);
      assert forall f :: f in filed <==> f == filed[0] || f in filed[1..];
    }
  }

  /** The ids of the sessions found by a node id. */
  lemma IdsBound(n: NodeModel.Node, refs: seq<Ref>, ids: seq<Uuid>, node: Uuid)
    requires NodeModel.Sound(n) && refs == Index.Lookup(n, Select(n.filed, ByNode(node)), ByNode(node))
    requires |ids| == |refs| && forall i :: 0 <= i < |refs| ==> ids[i] == NodeModel.At(n, refs[i]).id
    ensures forall f :: f in n.filed ==> (f.id in ids <==> Bound(n, f, node))
  {
    Index.LookupIsFiledScan(n, n.filed, ByNode(node));
    FiledScanMembers(n, n.filed, node);
    forall f | f in n.filed
      ensures f.id in ids <==> Bound(n, f, node)
    {
      BoundId(n, refs, ids, node, f);
    }
  }

  lemma MemberFiled(n: NodeModel.Node, f: Filing)
    requires NodeModel.Sound(n) && f in n.filed
    ensures NodeModel.At(n, f.ref).id == f.id
  {
    var i :| 0 <= i < |n.filed| && n.filed[i] == f;
    assert NodeModel.Filed(n, n.filed[i]);
  }

  lemma BoundId(n: NodeModel.Node, refs: seq<Ref>, ids: seq<Uuid>, node: Uuid, f: Filing)
    requires NodeModel.Sound(n) && f in n.filed
    requires forall r :: r in refs <==> exists g :: g in n.filed && g.ref == r && Bound(n, g, node)
    requires |ids| == |refs| && forall i :: 0 <= i < |refs| ==> ids[i] == NodeModel.At(n, refs[i]).id
    ensures f.id in ids <==> Bound(n, f, node)
  {
    MemberFiled(n, f);
    if Bound(n, f, node) {
      assert f.ref in refs;
      var i :| 0 <= i < |refs| && refs[i] == f.ref;
      assert ids[i] == f.id;
    }
    if f.id in ids {
      var i :| 0 <= i < |ids| && ids[i] == f.id;
      assert refs[i] in refs;
      var g :| g in n.filed && g.ref == refs[i] && Bound(n, g, node);
      MemberFiled(n, g);
      SameElement(n.filed, f, g);
    }
  }

  /** Exactly the sessions bound to the node id they were filed under leave, each disconnected once. */
  method DisconnectNode(state: S.State, node: Uuid) returns (gone: seq<Ref>)
    requires state.Valid()
    modifies state, state.sessions
    ensures state.Valid() && state.View() == old(state.View()).(filed := state.sessions.filed)
    ensures forall f :: f in state.sessions.filed <==> f in old(state.sessions.filed) && !Bound(old(state.View()), f, node)
    ensures forall r :: r in gone <==> exists f :: f in old(state.sessions.filed) && f.ref == r && Bound(old(state.View()), f, node)
    ensures forall i, j :: 0 <= i < j < |gone| ==> gone[i] != gone[j]
  {
    var refs := Routing.LookupRange(state, ByNode(node));
    var objects := state.objects;
    var ids: seq<Uuid> := seq(|refs|, i requires 0 <= i < |refs| =>
      if refs[i] in objects then objects[refs[i]].id else NIL);
    IdsBound(state.View(), refs, ids, node);
    gone := RemoveEach(state, ids);
  }
}
