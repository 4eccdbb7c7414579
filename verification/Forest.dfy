/** Delegation grants linked by parent_grant_id: lineages, descendants, and the invariant that makes
    both walks over the links terminate and be exact. */
module Forest {
  import opened Prelude

  type GrantId = string
  type AgentId = string
  type OrgId = string
  type Scope = string

  datatype Grant = Grant(
    org: OrgId, delegator: AgentId, delegatee: AgentId, scopes: set<Scope>, depth: int, jti: Jti,
    parent: Option<GrantId>, expiresAt: int, active: bool, revokedAt: Option<int>)

  type Table = map<GrantId, Grant>

  // ---------- Following parent links ----------

  /** The grant `k` links above `id`, if the links reach that far. */
  function Up(t: Table, id: GrantId, k: nat): Option<GrantId>
    decreases k
  {
    if k == 0 then Some(id)
    else if id in t && t[id].parent.Some? then Up(t, t[id].parent.value, k - 1)
    else None
  }

  /** The grants exactly `k` links below `top`. */
  ghost function Level(t: Table, top: GrantId, k: nat): set<GrantId>
  {
    set d | d in t && Up(t, d, k) == Some(top)
  }

  ghost predicate DescendsFrom(t: Table, d: GrantId, top: GrantId)
  {
    exists k: nat :: k >= 1 && Up(t, d, k) == Some(top)
  }

  /** The proper descendants of `top`. */
  ghost function Descendants(t: Table, top: GrantId): set<GrantId>
  {
    set d | d in t && DescendsFrom(t, d, top)
  }

  lemma {:induction false} UpAdds(t: Table, id: GrantId, i: nat, j: nat)
    requires Up(t, id, i).Some?
    ensures Up(t, id, i + j) == Up(t, Up(t, id, i).value, j)
    decreases i
  {
    if i > 0 { UpAdds(t, t[id].parent.value, i - 1, j); }
  }

  // ---------- The forest invariant ----------

  predicate Linked(t: Table, id: GrantId)
    requires id in t
  {
    var g := t[id];
    && g.depth >= 1
    && match g.parent
       case None => g.depth == 1
       case Some(p) =>
         p in t && g.depth == t[p].depth + 1 && g.delegator == t[p].delegatee && g.org == t[p].org
  }

  ghost predicate IsForest(t: Table) { forall id :: id in t ==> Linked(t, id) }

  /** No grant is deeper than the MAX_DELEGATION_DEPTH setting. */
  ghost predicate DepthBounded(t: Table, max: nat) { forall id :: id in t ==> t[id].depth <= max }

  /** A revoked grant has no active child. */
  ghost predicate RevokedClosed(t: Table)
  {
    forall id :: id in t && t[id].parent.Some? && t[id].parent.value in t && !t[t[id].parent.value].active ==> !t[id].active
  }

  /** Each link up lowers the depth by one and stays in one organisation, so links never cycle. */
  lemma {:induction false} UpDepth(t: Table, id: GrantId, k: nat)
    requires IsForest(t) && id in t && Up(t, id, k).Some?
    ensures var top := Up(t, id, k).value; top in t && t[id].depth == t[top].depth + k && t[id].org == t[top].org
    decreases k
  {
    assert Linked(t, id);
    if k > 0 { UpDepth(t, t[id].parent.value, k - 1); }
  }

  lemma LevelNext(t: Table, top: GrantId, k: nat)
    requires IsForest(t)
    ensures forall d :: d in Level(t, top, k + 1) <==> d in t && t[d].parent.Some? && t[d].parent.value in Level(t, top, k)
  {
    forall d | d in t ensures t[d].parent.Some? ==> t[d].parent.value in t { assert Linked(t, d); }
  }

  lemma {:induction false} RevokedSubtree(t: Table, d: GrantId, k: nat)
    requires IsForest(t) && RevokedClosed(t) && d in t && Up(t, d, k).Some?
    requires Up(t, d, k).value in t && !t[Up(t, d, k).value].active
    ensures !t[d].active
    decreases k
  {
    if k > 0 {
      assert Linked(t, d);
      RevokedSubtree(t, t[d].parent.value, k - 1);
    }
  }

  /** No revoked grant ever has an active descendant. */
  lemma RevokedHasNoActiveDescendant(t: Table, top: GrantId, d: GrantId)
    requires IsForest(t) && RevokedClosed(t) && top in t && !t[top].active && d in Descendants(t, top)
    ensures !t[d].active
  {
    var k: nat :| k >= 1 && Up(t, d, k) == Some(top);
    RevokedSubtree(t, d, k);
  }

  // ---------- When a search without a visited set stops ----------

  lemma {:induction false} CycleRepeats(t: Table, top: GrantId, j: nat, n: nat)
    requires j >= 1 && Up(t, top, j) == Some(top)
    ensures Up(t, top, n * j) == Some(top)
  {
    if n == 0 {
      assert n * j == 0;
    } else {
      CycleRepeats(t, top, j, n - 1);
      UpAdds(t, top, (n - 1) * j, j);
      assert (n - 1) * j + j == n * j;
    }
  }

  ghost function Path(t: Table, d: GrantId, k: nat): set<GrantId>
    requires Up(t, d, k).Some?
  {
    set i: nat | i <= k && Up(t, d, i).Some? :: Up(t, d, i).value
  }

  lemma UpPrefix(t: Table, d: GrantId, k: nat, i: nat)
    requires Up(t, d, k).Some? && i <= k
    ensures Up(t, d, i).Some? && Up(t, Up(t, d, i).value, k - i) == Up(t, d, k)
    ensures i < k ==> Up(t, d, i).value in t
    decreases i
  {
    if i > 0 { UpPrefix(t, t[d].parent.value, k - 1, i - 1); }
  }

  lemma {:induction false} PathSize(t: Table, d: GrantId, k: nat)
    requires Up(t, d, k).Some?
    requires forall i: nat, j: nat :: i < j <= k ==> Up(t, d, i) != Up(t, d, j)
    ensures |Path(t, d, k)| == k + 1
  {
    if k == 0 {
      assert Path(t, d, 0) == {d};
    } else {
      UpPrefix(t, d, k, k - 1);
      PathSize(t, d, k - 1);
      assert Path(t, d, k) == Path(t, d, k - 1) + {Up(t, d, k).value};
    }
  }

  /** A walk longer than the table passes some grant twice. */
  lemma LongWalkRepeats(t: Table, d: GrantId, k: nat)
    requires Up(t, d, k).Some? && k > |t|
    ensures exists i: nat, j: nat :: i < j <= k && Up(t, d, i) == Up(t, d, j)
  {
    if forall i: nat, j: nat :: i < j <= k ==> Up(t, d, i) != Up(t, d, j) {
      PathSize(t, d, k);
      var rest := Path(t, d, k) - {Up(t, d, k).value};
      forall x | x in rest ensures x in t.Keys {
        var i: nat :| i <= k && Up(t, d, i).Some? && Up(t, d, i).value == x;
        UpPrefix(t, d, k, i);
      }
      SubsetSize(rest, t.Keys);
    }
  }

  lemma DeepLevelMeansCycle(t: Table, top: GrantId, d: GrantId, k: nat)
    requires d in Level(t, top, k) && k > |t|
    ensures DescendsFrom(t, top, top)
  {
    LongWalkRepeats(t, d, k);
    var i: nat, j: nat :| i < j <= k && Up(t, d, i) == Up(t, d, j);
    UpPrefix(t, d, k, i);
    UpPrefix(t, d, k, j);
    UpPrefix(t, d, j, i);
    var x := Up(t, d, i).value;
    UpAdds(t, x, j - i, k - i);
    UpAdds(t, x, k - i, j - i);
    assert Up(t, top, j - i) == Some(top);
  }

  /** On any table at all, sound or malformed, level-by-level search below `top` runs dry if and only if
      `top` is not its own ancestor. */
  lemma SearchStopsExactly(t: Table, top: GrantId)
    requires top in t
    ensures (exists k: nat :: Level(t, top, k) == {}) <==> !DescendsFrom(t, top, top)
  {
    if DescendsFrom(t, top, top) {
      var j: nat :| j >= 1 && Up(t, top, j) == Some(top);
      forall k: nat ensures Level(t, top, k) != {} {
        CycleRepeats(t, top, j, k + 1);
        assert (k + 1) * j >= k + 1 by { assert (k + 1) * j == k * j + j && k * j >= k; }
        var n := (k + 1) * j;
        UpPrefix(t, top, n, n - k);
        if k == 0 {
          assert top in Level(t, top, 0);
        } else {
          assert Up(t, top, n - k).value in Level(t, top, k);
        }
      }
    } else {
      if Level(t, top, |t| + 1) != {} {
        var d :| d in Level(t, top, |t| + 1);
        DeepLevelMeansCycle(t, top, d, |t| + 1);
      }
      assert Level(t, top, |t| + 1) == {};
    }
  }
}
