/** The delegation chain above a grant, as the service rebuilds it from stored links, and the checks a
    new hop must pass. */
module Lineage {
  import opened Prelude
  import opened Forest

  // ---------- Rebuilding the chain ----------

  datatype Walked = Found(ids: seq<GrantId>) | AncestorRevoked(id: GrantId)

  /** The upward walk from `id`, root first, with its three exits: a link already visited and a missing
      parent end it quietly, a revoked ancestor refuses it. */
  function Walk(t: Table, id: GrantId, visited: set<GrantId>): (w: Walked)
    requires id in t
    ensures w.Found? ==> forall x :: x in w.ids ==> x in t
    decreases t.Keys - visited
  {
    match t[id].parent
    case None => Found([id])
    case Some(p) =>
      if p in visited || p !in t then Found([id])
      else if !t[p].active then AncestorRevoked(p)
      else
        match Walk(t, p, visited + {p})
        case Found(ids) => Found(ids + [id])
        case AncestorRevoked(a) => AncestorRevoked(a)
  }

  /** The lineage of a grant in a forest, root first. */
  ghost function Line(t: Table, id: GrantId): seq<GrantId>
    requires IsForest(t) && id in t
    decreases t[id].depth
  {
    assert Linked(t, id);
    if t[id].parent.None? then [id] else Line(t, t[id].parent.value) + [id]
  }

  /** In a sound table the walk takes none of its early exits: it returns the whole lineage. */
  lemma {:induction false} WalkIsLine(t: Table, id: GrantId, visited: set<GrantId>)
    requires IsForest(t) && RevokedClosed(t) && id in t && t[id].active
    requires forall v :: v in visited ==> v in t && t[v].depth >= t[id].depth
    ensures Walk(t, id, visited) == Found(Line(t, id))
    decreases t[id].depth
  {
    assert Linked(t, id);
    if t[id].parent.Some? {
      var p := t[id].parent.value;
      assert Linked(t, p);
      WalkIsLine(t, p, visited + {p});
    }
  }

  /** The walked length is the stored depth, and position `i` holds the ancestor `depth - 1 - i` links up. */
  lemma {:induction false} LineFacts(t: Table, id: GrantId)
    requires IsForest(t) && id in t
    ensures |Line(t, id)| == t[id].depth
    ensures forall i :: 0 <= i < |Line(t, id)| ==>
      Line(t, id)[i] in t && t[Line(t, id)[i]].depth == i + 1 && Up(t, id, t[id].depth - 1 - i) == Some(Line(t, id)[i])
    decreases t[id].depth
  {
    assert Linked(t, id);
    if t[id].parent.Some? {
      var p := t[id].parent.value;
      LineFacts(t, p);
      forall i | 0 <= i < |Line(t, id)|
        ensures Line(t, id)[i] in t && t[Line(t, id)[i]].depth == i + 1 && Up(t, id, t[id].depth - 1 - i) == Some(Line(t, id)[i])
      {
        if i < |Line(t, p)| { assert Up(t, p, t[p].depth - 1 - i) == Some(Line(t, p)[i]); }
      }
    }
  }

  function Rows(t: Table, ids: seq<GrantId>): seq<Grant>
    requires forall id :: id in ids ==> id in t
  {
    if ids == [] then [] else [t[ids[0]]] + Rows(t, ids[1..])
  }

  lemma {:induction false} RowsAppend(t: Table, ids: seq<GrantId>, id: GrantId)
    requires id in t && forall x :: x in ids ==> x in t
    ensures Rows(t, ids + [id]) == Rows(t, ids) + [t[id]] && |Rows(t, ids)| == |ids|
  {
    if ids == [] {
      assert ids + [id] == [id] && [id][1..] == [];
    } else {
      assert (ids + [id])[1..] == ids[1..] + [id];
      RowsAppend(t, ids[1..], id);
    }
  }

  // ---------- Validating a hop ----------

  function Participants(links: seq<Grant>): set<AgentId>
  {
    (set g | g in links :: g.delegator) + (set g | g in links :: g.delegatee)
  }

  datatype Refusal =
    | DelegatorNotFound | DelegateeNotFound | DelegateeNotActive
    | OwnGrantRevoked | BrokenAncestor(id: GrantId)
    | DepthExceeded | CycleDetected | SelfDelegation | ScopesExceeded
    | DepthGuard

  datatype Approval = Approved(scopes: set<Scope>) | Refused(why: Refusal)

  /** A request with a repeated scope is refused too: the intersection is a set, so its size falls short. */
  function ScopeSubset(requested: seq<Scope>, held: set<Scope>): Approval
  {
    var valid := (set s | s in requested) * held;
    if |valid| != |requested| then Refused(ScopesExceeded) else Approved(valid)
  }

  function Validate(links: seq<Grant>, delegator: AgentId, delegatee: AgentId, held: set<Scope>, requested: seq<Scope>, max: nat): Approval
  {
    if |links| + 1 > max then Refused(DepthExceeded)
    else if delegatee in Participants(links) then Refused(CycleDetected)
    else if delegator == delegatee then Refused(SelfDelegation)
    else ScopeSubset(requested, held)
  }

  lemma {:induction false} DistinctSize<T>(s: seq<T>)
    ensures |set x | x in s| <= |s|
    ensures |set x | x in s| == |s| <==> forall i, j :: 0 <= i < j < |s| ==> s[i] != s[j]
  {
    var xs := set x | x in s;
    if s == [] {
      assert xs == {};
    } else {
      var init, last := s[..|s| - 1], s[|s| - 1];
      DistinctSize(init);
      var ys := set x | x in init;
      assert s == init + [last];
      assert xs == ys + {last};
      if last in ys {
        assert xs == ys;
        var i :| 0 <= i < |init| && init[i] == last;
        assert s[i] == s[|s| - 1];
      } else {
        assert |xs| == |ys| + 1;
        assert forall i :: 0 <= i < |init| ==> init[i] == s[i] && init[i] in ys;
      }
    }
  }

  /** Scopes are approved exactly when each is held and none is repeated, and then they are the requested ones. */
  lemma ScopeSubsetExact(requested: seq<Scope>, held: set<Scope>)
    ensures ScopeSubset(requested, held).Approved? <==>
      (forall s :: s in requested ==> s in held) && forall i, j :: 0 <= i < j < |requested| ==> requested[i] != requested[j]
    ensures ScopeSubset(requested, held).Approved? ==> ScopeSubset(requested, held).scopes == set s | s in requested
  {
    var all := set s | s in requested;
    var valid := all * held;
    DistinctSize(requested);
    assert valid <= all;
    SubsetSize(valid, all);
    if |valid| == |all| {
      assert forall s :: s in requested ==> s in valid;
    }
    if forall s :: s in requested ==> s in held { assert valid == all; }
  }

  // ---------- The agents of a chain ----------

  /** A grant's delegatee appears nowhere above it. */
  ghost predicate NewToLine(t: Table, id: GrantId)
    requires IsForest(t) && id in t
  {
    assert Linked(t, id);
    && t[id].delegatee != t[id].delegator
    && (t[id].parent.Some? ==> t[id].delegatee !in LineAgents(t, t[id].parent.value))
  }

  ghost function LineAgents(t: Table, id: GrantId): set<AgentId>
    requires IsForest(t) && id in t
  {
    LineFacts(t, id);
    Participants(Rows(t, Line(t, id)))
  }

  ghost predicate NoRevisit(t: Table)
    requires IsForest(t)
  {
    forall id :: id in t ==> NewToLine(t, id)
  }

  /** The agents along a chain, from the root delegator down. */
  ghost function ChainAgents(t: Table, id: GrantId): seq<AgentId>
    requires IsForest(t) && id in t
    decreases t[id].depth
  {
    assert Linked(t, id);
    if t[id].parent.None? then [t[id].delegator, t[id].delegatee]
    else ChainAgents(t, t[id].parent.value) + [t[id].delegatee]
  }

  lemma LineAgentsStep(t: Table, id: GrantId)
    requires IsForest(t) && id in t
    ensures Linked(t, id)
    ensures LineAgents(t, id) ==
      (if t[id].parent.Some? then LineAgents(t, t[id].parent.value) else {}) + {t[id].delegator, t[id].delegatee}
  {
    assert Linked(t, id);
    LineFacts(t, id);
    var above := if t[id].parent.Some? then Line(t, t[id].parent.value) else [];
    if t[id].parent.Some? { LineFacts(t, t[id].parent.value); }
    RowsAppend(t, above, id);
    assert Line(t, id) == above + [id];
    var links, more := Rows(t, above), Rows(t, Line(t, id));
    assert more == links + [t[id]];
    assert Participants(more) == Participants(links) + {t[id].delegator, t[id].delegatee};
  }

  /** A chain of depth d has d + 1 agents, pairwise distinct. */
  lemma {:induction false} ChainAgentsDistinct(t: Table, id: GrantId)
    requires IsForest(t) && NoRevisit(t) && id in t
    ensures var a := ChainAgents(t, id);
      && |a| == t[id].depth + 1 && a[|a| - 1] == t[id].delegatee
      && (forall i, j :: 0 <= i < j < |a| ==> a[i] != a[j])
      && (forall x :: x in a <==> x in LineAgents(t, id))
    decreases t[id].depth
  {
    assert Linked(t, id) && NewToLine(t, id);
    LineAgentsStep(t, id);
    if t[id].parent.Some? {
      ChainAgentsDistinct(t, t[id].parent.value);
    }
  }

  // ---------- What updates and inserts leave alone ----------

  /** `t'` keeps every row of `t`, up to its revocation columns. */
  ghost predicate KeepsRows(t: Table, t': Table)
  {
    forall id :: id in t ==> id in t' && t'[id].(active := t[id].active, revokedAt := t[id].revokedAt) == t[id]
  }

  lemma {:induction false} LineKept(t: Table, t': Table, id: GrantId)
    requires IsForest(t) && IsForest(t') && KeepsRows(t, t') && id in t
    ensures Line(t', id) == Line(t, id) && LineAgents(t', id) == LineAgents(t, id)
    decreases t[id].depth
  {
    assert Linked(t, id) && Linked(t', id);
    LineAgentsStep(t, id);
    LineAgentsStep(t', id);
    if t[id].parent.Some? { LineKept(t, t', t[id].parent.value); }
  }
}
