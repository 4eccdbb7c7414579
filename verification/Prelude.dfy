/** What several modules here share: the optional value Python writes as None, token ids, agent status, the
    known scopes, and the sizes of sets. */
module Prelude {
  datatype Option<+T> = None | Some(value: T)

  type Jti = string

  datatype AgentStatus = Pending | Active | Suspended | Decommissioned

  /** The agent columns the services decide from; `allowed` is allowed_scopes. */
  datatype Agent = Agent(org: string, status: AgentStatus, allowed: set<string>)

  /** The scopes the token enum knows; anything else a key or code carries is left out of its tokens. */
  predicate IsPermissionScope(s: string)
  {
    s == "agent:read" || s == "agent:write" || s == "tool:execute" || s == "audit:read"
    || s == "credential:rotate" || s == "delegate"
  }

  /** The scope whose tokens must name one task. */
  const TASK_SCOPED: string := "credential:rotate"

  lemma SubsetSize<T>(a: set<T>, b: set<T>)
    requires a <= b
    ensures |a| <= |b|
    ensures |a| == |b| ==> a == b
  {
    assert |b - a| + |a| == |b - a + a| && b - a + a == b;
  }

  /** The `n` integers from `lo` on. */
  ghost function Range(lo: int, n: nat): set<int>
  {
    if n == 0 then {} else Range(lo, n - 1) + {lo + n - 1}
  }

  lemma {:induction false} RangeIs(lo: int, n: nat)
    ensures |Range(lo, n)| == n && forall i :: i in Range(lo, n) <==> lo <= i < lo + n
  {
    if n > 0 { RangeIs(lo, n - 1); }
  }
}
