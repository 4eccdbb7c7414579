/** The services as they run: the loops over stored rows and the in-place updates, each tied to the step
    of the shared world it performs. */
module DelegationService {
  import opened Prelude
  import opened Forest
  import opened Lineage
  import opened Revocation
  import opened Authority
  import opened AuthorityInv
  import Effects

  function Reverse(ids: seq<GrantId>): seq<GrantId>
  {
    if ids == [] then [] else [ids[|ids| - 1]] + Reverse(ids[..|ids| - 1])
  }

  /** A walk continued below by the already collected descendants, leaf first. */
  function Below(w: Walked, collected: seq<GrantId>): Walked
  {
    match w
    case Found(ids) => Found(ids + Reverse(collected))
    case AncestorRevoked(a) => AncestorRevoked(a)
  }

  ghost predicate NoDuplicates(ids: seq<GrantId>)
  {
    forall i, j :: 0 <= i < j < |ids| ==> ids[i] != ids[j]
  }

  /** The ids found are exactly the grants one to `k` levels below `top`. */
  ghost predicate FoundLevels(t: Table, top: GrantId, ids: seq<GrantId>, k: nat)
  {
    forall d :: d in ids <==> d in t && exists i: nat :: 1 <= i <= k && Up(t, d, i) == Some(top)
  }

  lemma LevelDepth(t: Table, top: GrantId, k: nat, d: GrantId)
    requires IsForest(t) && top in t && d in Level(t, top, k)
    ensures t[d].depth == t[top].depth + k && Linked(t, d)
  {
    UpDepth(t, d, k);
    assert Linked(t, d);
  }

  lemma NextLevels(t: Table, top: GrantId, ids: seq<GrantId>, k: nat, children: seq<GrantId>)
    requires FoundLevels(t, top, ids, k) && forall d :: d in children <==> d in Level(t, top, k + 1)
    ensures FoundLevels(t, top, ids + children, k + 1)
  {
    forall d | d in ids + children ensures d in t && exists i: nat :: 1 <= i <= k + 1 && Up(t, d, i) == Some(top) {
      if d in ids {
        var i: nat :| 1 <= i <= k && Up(t, d, i) == Some(top);
      } else {
        assert d in Level(t, top, k + 1);
      }
    }
    forall d | d in t && exists i: nat :: 1 <= i <= k + 1 && Up(t, d, i) == Some(top) ensures d in ids + children {
      var i: nat :| 1 <= i <= k + 1 && Up(t, d, i) == Some(top);
      if i == k + 1 { assert d in Level(t, top, k + 1); }
    }
  }

  ghost predicate NearestFirst(t: Table, ids: seq<GrantId>)
    requires forall d :: d in ids ==> d in t
  {
    forall i, j :: 0 <= i < j < |ids| ==> t[ids[i]].depth <= t[ids[j]].depth
  }

  /** The search after `k` rounds: everything found lies 1 to `k` levels below, the frontier is level `k`. */
  ghost predicate Searching(t: Table, top: GrantId, ids: seq<GrantId>, frontier: seq<GrantId>, k: nat, max: nat)
    requires top in t
  {
    && frontier != [] && k <= max
    && (forall d :: d in frontier <==> d in Level(t, top, k))
    && NoDuplicates(ids) && FoundLevels(t, top, ids, k)
    && (forall d :: d in ids ==> t[d].depth <= t[top].depth + k)
    && NearestFirst(t, ids)
  }

  /** Appending a deeper level keeps the ids distinct and nearest first. */
  lemma DeeperLevel(t: Table, ids: seq<GrantId>, children: seq<GrantId>, depth: int)
    requires NoDuplicates(ids) && NoDuplicates(children)
    requires forall d :: d in ids || d in children ==> d in t
    requires NearestFirst(t, ids) && forall d :: d in ids ==> t[d].depth < depth
    requires forall d :: d in children ==> t[d].depth == depth
    ensures NoDuplicates(ids + children) && NearestFirst(t, ids + children)
  {
    var more := ids + children;
    forall i | 0 <= i < |more| ensures if i < |ids| then more[i] == ids[i] && t[more[i]].depth < depth else
      more[i] == children[i - |ids|] && t[more[i]].depth == depth
    {
      if i < |ids| { assert ids[i] in ids; } else { assert children[i - |ids|] in children; }
    }
  }

  lemma SearchRound(t: Table, top: GrantId, ids: seq<GrantId>, frontier: seq<GrantId>, k: nat, children: seq<GrantId>, max: nat)
    requires IsForest(t) && DepthBounded(t, max) && top in t && Searching(t, top, ids, frontier, k, max)
    requires NoDuplicates(children)
    requires forall d :: d in children <==> d in t && t[d].parent.Some? && t[d].parent.value in frontier
    ensures children == [] ==> Level(t, top, k + 1) == {}
    ensures children != [] ==> k < max && Searching(t, top, ids + children, children, k + 1, max)
  {
    LevelNext(t, top, k);
    assert forall d :: d in children <==> d in Level(t, top, k + 1);
    if children != [] {
      NextLevels(t, top, ids, k, children);
      forall d | d in children ensures t[d].depth == t[top].depth + k + 1 <= max {
        LevelDepth(t, top, k + 1, d);
      }
      assert children[0] in children && Linked(t, top);
      DeeperLevel(t, ids, children, t[top].depth + k + 1);
    }
  }

  lemma {:induction false} EmptyLevels(t: Table, top: GrantId, k: nat, n: nat)
    requires IsForest(t) && Level(t, top, k) == {}
    ensures Level(t, top, k + n) == {}
    decreases n
  {
    if n > 0 {
      EmptyLevels(t, top, k, n - 1);
      LevelNext(t, top, k + n - 1);
    }
  }

  lemma BeyondEmptyLevel(t: Table, top: GrantId, k: nat, i: nat, d: GrantId)
    requires IsForest(t) && Level(t, top, k + 1) == {} && i > k && d in t
    ensures Up(t, d, i) != Some(top)
  {
    EmptyLevels(t, top, k + 1, i - k - 1);
    assert d !in Level(t, top, i);
  }

  /** Once a level is empty the search has found every proper descendant. */
  lemma SearchComplete(t: Table, top: GrantId, ids: seq<GrantId>, k: nat)
    requires IsForest(t) && FoundLevels(t, top, ids, k) && Level(t, top, k + 1) == {}
    ensures forall d :: d in ids <==> d in Descendants(t, top)
  {
    forall d | d in t && DescendsFrom(t, d, top) ensures d in ids {
      var i: nat :| i >= 1 && Up(t, d, i) == Some(top);
      if i > k { BeyondEmptyLevel(t, top, k, i, d); }
    }
  }

  lemma DueAdd(t: Table, ids: set<GrantId>, id: GrantId, now: int)
    requires id in t
    ensures DueJtis(t, ids + {id}, now) == DueJtis(t, ids, now) + if Remaining(t[id].expiresAt, now) > 0 then {t[id].jti} else {}
  {
  }

  lemma MapAdd(m: map<Jti, int>, n: map<Jti, int>, base: map<Jti, int>, j: Jti, v: int)
    requires n.Keys == m.Keys + {j} && n[j] == v && forall k :: k in m && k != j ==> n[k] == m[k]
    ensures base + n == (base + m)[j := v]
  {
  }

  lemma GrantEntriesAdd(base: map<Jti, int>, t: Table, ids: set<GrantId>, id: GrantId, now: int)
    requires UniqueJtis(t) && id in t
    ensures base + GrantEntries(t, ids + {id}, now) ==
      if Remaining(t[id].expiresAt, now) > 0
      then (base + GrantEntries(t, ids, now))[t[id].jti := EndOf(now, Remaining(t[id].expiresAt, now))]
      else base + GrantEntries(t, ids, now)
  {
    HolderIs(t, id);
    DueAdd(t, ids, id, now);
    var m, n := GrantEntries(t, ids, now), GrantEntries(t, ids + {id}, now);
    if Remaining(t[id].expiresAt, now) > 0 {
      MapAdd(m, n, base, t[id].jti, EndOf(now, Remaining(t[id].expiresAt, now)));
    } else {
      assert m == n;
    }
  }

  lemma MarkedDue(t: Table, ids: set<GrantId>, now: int)
    requires UniqueJtis(t)
    ensures UniqueJtis(Marked(t, ids, now)) && DueJtis(Marked(t, ids, now), ids, now) == DueJtis(t, ids, now)
  {
    var t' := Marked(t, ids, now);
    forall id | id in t ensures t'[id].jti == t[id].jti && t'[id].expiresAt == t[id].expiresAt {
    }
  }

  /** Each listed grant's token with a whole second left has an entry for its whole seconds, and every other token
      has the entry it had. */
  ghost predicate Blacklisted(base: map<Jti, int>, after: map<Jti, int>, t: Table, ids: set<GrantId>, now: int)
    requires forall id :: id in ids ==> id in t
  {
    && (forall id :: id in ids && now + 1000 <= 1000 * t[id].expiresAt ==>
          t[id].jti in after && after[t[id].jti] == now + 1000 * ((1000 * t[id].expiresAt - now) / 1000))
    && (forall j :: (forall id :: id in ids && now + 1000 <= 1000 * t[id].expiresAt ==> t[id].jti != j) ==>
          (j in after <==> j in base) && (j in after ==> after[j] == base[j]))
  }

  lemma NotDue(t: Table, ids: set<GrantId>, now: int, j: Jti)
    requires forall id :: id in ids ==> id in t
    requires forall id :: id in ids && now + 1000 <= 1000 * t[id].expiresAt ==> t[id].jti != j
    ensures j !in GrantEntries(t, ids, now)
  {
    forall id | id in ids ensures Remaining(t[id].expiresAt, now) > 0 ==> t[id].jti != j {
      RemainingPositive(t[id].expiresAt, now);
    }
  }

  lemma EntriesBlacklist(base: map<Jti, int>, t: Table, ids: set<GrantId>, now: int)
    requires UniqueJtis(t) && forall id :: id in ids ==> id in t
    ensures Blacklisted(base, base + GrantEntries(t, ids, now), t, ids, now)
  {
    forall id | id in ids && now + 1000 <= 1000 * t[id].expiresAt
      ensures t[id].jti in GrantEntries(t, ids, now)
      ensures GrantEntries(t, ids, now)[t[id].jti] == now + 1000 * ((1000 * t[id].expiresAt - now) / 1000)
    {
      Effects.ListedEntry(t, ids, id, now);
    }
    forall j | forall id :: id in ids && now + 1000 <= 1000 * t[id].expiresAt ==> t[id].jti != j
      ensures j !in GrantEntries(t, ids, now)
    {
      NotDue(t, ids, now, j);
    }
  }

  /** Stamping rows inactive changes neither their jtis nor their expiries. */
  lemma MarkedEntries(t: Table, ids: set<GrantId>, now: int)
    requires UniqueJtis(t)
    ensures UniqueJtis(Marked(t, ids, now)) && GrantEntries(Marked(t, ids, now), ids, now) == GrantEntries(t, ids, now)
  {
    var t' := Marked(t, ids, now);
    MarkedDue(t, ids, now);
    forall j | j in DueJtis(t, ids, now) ensures ExpiryOf(t', j) == ExpiryOf(t, j) {
      var id :| id in t && id in ids && t[id].jti == j;
      HolderIs(t, id);
      HolderIs(t', id);
    }
  }

  lemma RevokeKeysNext(s: State, keys: seq<string>, i: nat)
    requires i < |keys|
    ensures RevokeKeys(s, keys[..i + 1]) == RevokeIndex(RevokeKeys(s, keys[..i]), KeyIndex(keys[i]))
  {
    assert keys[..i + 1][..i] == keys[..i];
  }

  class DelegationService {
    const maxDepth: nat
    var now: int
    var agents: map<AgentId, Agent>
    var issued: map<Jti, Token>
    var grants: Table
    const redis: RedisStore
    ghost var hops: map<GrantId, Hop>
    ghost var tracked: map<Jti, set<IndexKey>>

    ghost function Abs(): State
      reads this, redis
    {
      State(maxDepth, now, agents, issued, grants, redis.Abs(), hops, tracked)
    }

    constructor (maxDepth: nat)
      ensures Abs() == Initial(maxDepth) && Inv(Abs()) && fresh(redis)
    {
      this.maxDepth := maxDepth;
      now, agents, issued, grants, hops, tracked := 0, map[], map[], map[], map[], map[];
      redis := new RedisStore();
      new;
      InitialInv(maxDepth);
    }

    // ---------- Walking up ----------

    method FindByJti(jti: Jti) returns (id: Option<GrantId>)
      requires UniqueJtis(grants)
      ensures id == Holder(grants, jti)
    {
      var ids := set x | x in grants && grants[x].jti == jti;
      if ids == {} {
        id := None;
        assert forall x :: HasJti(grants, x, jti) ==> x in ids;
      } else {
        var x :| x in ids;
        id := Some(x);
        HolderIs(grants, x);
      }
    }

    /** Follows parent links from `own`, stopping at a link already visited or missing. */
    method WalkUp(own: GrantId) returns (w: Walked)
      requires own in grants
      ensures w == Walk(grants, own, {own})
    {
      var ancestors, visited, current := [own], {own}, own;
      assert ancestors[..0] == [];
      while grants[current].parent.Some?
        invariant current in grants && |ancestors| > 0 && ancestors[|ancestors| - 1] == current
        invariant Walk(grants, own, {own}) == Below(Walk(grants, current, visited), ancestors[..|ancestors| - 1])
        decreases grants.Keys - visited
      {
        var parent := grants[current].parent.value;
        if parent in visited || parent !in grants { break; }
        if !grants[parent].active {
          return AncestorRevoked(parent);
        }
        assert (ancestors + [parent])[..|ancestors|] == ancestors;
        assert Walk(grants, parent, visited + {parent}).Found? ==>
          Walk(grants, parent, visited + {parent}).ids + [current] + Reverse(ancestors[..|ancestors| - 1])
            == Walk(grants, parent, visited + {parent}).ids + Reverse(ancestors);
        ancestors := ancestors + [parent];
        visited := visited + {parent};
        current := parent;
      }
      assert Walk(grants, current, visited) == Found([current]);
      return Found(Reverse(ancestors));
    }

    method LoadChain(jti: Jti) returns (chain: Loaded)
      requires UniqueJtis(grants)
      ensures chain == Authority.LoadChain(grants, jti)
    {
      var own := FindByJti(jti);
      if own.None? { return Chain([], None); }
      if !grants[own.value].active { return Rejected(OwnGrantRevoked); }
      var w := WalkUp(own.value);
      match w
      case Found(ids) => return Chain(Rows(grants, ids), own);
      case AncestorRevoked(a) => return Rejected(BrokenAncestor(a));
    }

    // ---------- Walking down ----------

    /** `SELECT id WHERE parent_grant_id IN frontier`: each matching row once, in no particular order. */
    method SelectChildren(frontier: seq<GrantId>) returns (children: seq<GrantId>)
      ensures NoDuplicates(children)
      ensures forall d :: d in children <==> d in grants && grants[d].parent.Some? && grants[d].parent.value in frontier
    {
      var rest := set d | d in grants && grants[d].parent.Some? && grants[d].parent.value in frontier;
      ghost var all := rest;
      children := [];
      while rest != {}
        invariant NoDuplicates(children) && rest <= all
        invariant forall d :: d in children <==> d in all && d !in rest
        decreases rest
      {
        var d :| d in rest;
        children := children + [d];
        rest := rest - {d};
      }
    }

    /** Breadth-first search with no visited set. In a sound table it terminates and finds every proper
        descendant once, nearest first; round `k` starts from exactly the grants `k` levels below. */
    method FindDescendantIds(top: GrantId) returns (descendants: seq<GrantId>)
      requires IsForest(grants) && DepthBounded(grants, maxDepth) && top in grants
      ensures NoDuplicates(descendants)
      ensures forall d :: d in descendants <==> d in Descendants(grants, top)
      ensures forall d :: d in descendants ==> d in grants
      ensures NearestFirst(grants, descendants)
    {
      descendants := [];
      var frontier := [top];
      ghost var k: nat := 0;
      while frontier != []
        invariant Searching(grants, top, descendants, frontier, k, maxDepth)
        decreases maxDepth - k
      {
        var children := SelectChildren(frontier);
        SearchRound(grants, top, descendants, frontier, k, children, maxDepth);
        if children == [] { break; }
        descendants := descendants + children;
        frontier := children;
        k := k + 1;
      }
      SearchComplete(grants, top, descendants, k);
    }

    // ---------- Serving requests ----------

    /** The middleware's checks, in its order; no answer from the revocation index is a denial. */
    method Authenticate(jti: Jti, redisUp: bool) returns (ok: bool)
      ensures ok <==> redisUp && Accepts(Abs(), jti)
      ensures ok <==>
        && redisUp && jti in issued && now < 1000 * issued[jti].exp && issued[jti].depth <= maxDepth
        && (jti in redis.revoked ==> redis.revoked[jti] <= now)
    {
      var revoked := redis.IsRevoked(jti, now, redisUp);
      if revoked.None? || revoked.value || jti !in issued { return false; }
      if now >= 1000 * issued[jti].exp { return false; }
      return issued[jti].depth <= maxDepth;
    }

    method AllAgentIds(links: seq<Grant>) returns (ids: set<AgentId>)
      ensures ids == Participants(links)
    {
      ids := {};
      for i := 0 to |links|
        invariant ids == Participants(links[..i])
      {
        assert links[..i + 1] == links[..i] + [links[i]];
        ids := ids + {links[i].delegator, links[i].delegatee};
      }
      assert links[..|links|] == links;
    }

    method ValidateHop(links: seq<Grant>, delegator: AgentId, delegatee: AgentId, held: set<Scope>, requested: seq<Scope>)
      returns (verdict: Approval)
      ensures verdict == Validate(links, delegator, delegatee, held, requested, maxDepth)
    {
      if |links| + 1 > maxDepth { return Refused(DepthExceeded); }
      var existing := AllAgentIds(links);
      if delegatee in existing { return Refused(CycleDetected); }
      if delegator == delegatee { return Refused(SelfDelegation); }
      return ScopeSubset(requested, held);
    }

    /** Everything that precedes the grant: the agents, the rebuilt chain, the hop's checks. */
    method Review(presented: Jti, delegatee: AgentId, requested: seq<Scope>) returns (d: Decision)
      requires UniqueJtis(grants) && presented in issued
      ensures d == Decide(Abs(), presented, delegatee, requested)
    {
      var tok := issued[presented];
      if tok.sub !in agents || agents[tok.sub].org != tok.org { return Denies(DelegatorNotFound); }
      if delegatee !in agents || agents[delegatee].org != tok.org { return Denies(DelegateeNotFound); }
      if agents[delegatee].status != Active { return Denies(DelegateeNotActive); }
      var chain := LoadChain(presented);
      if chain.Rejected? { return Denies(chain.why); }
      var verdict := ValidateHop(chain.links, tok.sub, delegatee, tok.scopes * agents[tok.sub].allowed, requested);
      if verdict.Refused? { return Denies(verdict.why); }
      if |chain.links| >= maxDepth { return Denies(DepthGuard); }
      return Grants(verdict.scopes, chain.links, chain.parent);
    }

    /** Persists the approved grant and tracks its token under the delegatee. */
    method StoreGrant(presented: Jti, delegatee: AgentId, d: Decision, gid: GrantId, jti: Jti)
      requires presented in issued && issued[presented].sub in agents && d.Grants? && jti !in issued
      modifies this, redis
      ensures Abs() == AddGrant(old(Abs()), presented, delegatee, d, gid, jti)
    {
      var via, exp := issued[presented], Seconds(now) + DELEGATION_SECONDS;
      hops := hops[gid := Hop(presented, agents[via.sub].allowed)];
      tracked := tracked[jti := {}];
      tracked := tracked[jti := tracked[jti] + {AgentIndex(delegatee)}];
      issued := issued[jti := Token(delegatee, via.org, KnownScopes(d.scopes), |d.links| + 1, exp, via.onBehalfOf, ANYWHERE)];
      grants := grants[gid := Grant(via.org, via.sub, delegatee, d.scopes, |d.links| + 1, jti, d.parent, exp, true, None)];
      redis.TrackIssuedJti(AgentIndex(delegatee), jti, exp, now);
    }

    /** Issues a grant and its token for a presented token that has passed the middleware. */
    method Delegate(presented: Jti, delegatee: AgentId, requested: seq<Scope>, gid: GrantId, jti: Jti) returns (d: Decision)
      requires Inv(Abs()) && Accepts(Abs(), presented) && gid !in grants && jti !in issued
      modifies this, redis
      ensures d == old(Decide(Abs(), presented, delegatee, requested))
      ensures Abs() == Apply(old(Abs()), Event.Delegate(presented, delegatee, requested, gid, jti)) && Inv(Abs())
    {
      StepKeepsInv(Abs(), Event.Delegate(presented, delegatee, requested, gid, jti));
      d := Review(presented, delegatee, requested);
      if d.Grants? { StoreGrant(presented, delegatee, d, gid, jti); }
    }

    /** Signs a token and tracks it under its agent. */
    method IssueTracked(jti: Jti, tok: Token)
      requires jti !in issued
      modifies this, redis
      ensures Abs() == Track(AddToken(old(Abs()), jti, tok), AgentIndex(tok.sub), jti)
    {
      issued := issued[jti := tok];
      tracked := tracked[jti := {}];
      TrackUnder(AgentIndex(tok.sub), jti);
    }

    method TrackUnder(key: IndexKey, jti: Jti)
      requires jti in issued && jti in tracked
      modifies this`tracked, redis
      ensures Abs() == Track(old(Abs()), key, jti)
    {
      redis.TrackIssuedJti(key, jti, issued[jti].exp, now);
      tracked := tracked[jti := tracked[jti] + {key}];
    }

    method SignAndTrack(jti: Jti, q: MintRequest)
      requires jti !in issued && q.sub in agents
      modifies this, redis
      ensures Abs() == MintToken(old(Abs()), jti, q)
    {
      ghost var s := Abs();
      var exp := Seconds(now) + ACCESS_SECONDS;
      IssueTracked(jti, Token(q.sub, agents[q.sub].org, KnownScopes(q.scopes), 0, exp, q.onBehalfOf, q.target));
      assert Abs() == Track(AddToken(s, jti, AccessToken(s, q)), AgentIndex(q.sub), jti);
      if q.key.Some? { TrackUnder(KeyIndex(q.key.value), jti); }
    }

    /** Mints a depth-0 token and tracks it, under its agent and, for an exchange, under its key. A scope that
        must be task-scoped is refused without a task. */
    method MintAccess(jti: Jti, q: MintRequest) returns (ok: bool)
      requires Inv(Abs()) && jti !in issued && q.sub in agents
      modifies this, redis
      ensures Abs() == Apply(old(Abs()), Mint(jti, q)) && Inv(Abs())
      ensures ok <==> (TASK_SCOPED in q.scopes ==> q.target.task.Some?)
    {
      StepKeepsInv(Abs(), Mint(jti, q));
      if TASK_SCOPED in q.scopes && q.target.task.None? { return false; }
      SignAndTrack(jti, q);
      return true;
    }

    method BlacklistEach(ids: set<GrantId>)
      requires UniqueJtis(grants) && forall id :: id in ids ==> id in grants
      modifies redis`revoked
      ensures redis.revoked == old(redis.revoked) + GrantEntries(grants, ids, now)
    {
      ghost var base := redis.revoked;
      var rest := ids;
      assert redis.revoked == base + GrantEntries(grants, ids - rest, now);
      while rest != {}
        invariant rest <= ids && redis.revoked == base + GrantEntries(grants, ids - rest, now)
        decreases rest
      {
        var id :| id in rest;
        GrantEntriesAdd(base, grants, ids - rest, id, now);
        assert ids - rest + {id} == ids - (rest - {id});
        var remaining := Remaining(grants[id].expiresAt, now);
        if remaining > 0 { redis.RevokeJti(grants[id].jti, remaining, now); }
        rest := rest - {id};
      }
      assert ids - rest == ids;
    }

    /** Blacklists the token of every listed grant that has a whole second left, row by row, and no other token. */
    method BlacklistGrants(ids: set<GrantId>)
      requires UniqueJtis(grants) && forall id :: id in ids ==> id in grants
      modifies redis`revoked
      ensures redis.revoked == old(redis.revoked) + GrantEntries(grants, ids, now)
      ensures Blacklisted(old(redis.revoked), redis.revoked, grants, ids, now)
    {
      EntriesBlacklist(redis.revoked, grants, ids, now);
      BlacklistEach(ids);
    }

    /** Marks the listed rows inactive, then blacklists their tokens. */
    method RevokeRows(ids: set<GrantId>)
      requires UniqueJtis(grants) && forall id :: id in ids ==> id in grants
      modifies this`grants, redis`revoked
      ensures grants == Marked(old(grants), ids, now)
      ensures redis.revoked == old(redis.revoked) + GrantEntries(old(grants), ids, now)
    {
      MarkedEntries(grants, ids, now);
      grants := Marked(grants, ids, now);
      BlacklistGrants(ids);
    }

    method RevokeSubtree(top: GrantId) returns (below: nat)
      requires IsForest(grants) && DepthBounded(grants, maxDepth) && UniqueJtis(grants) && top in grants
      modifies this, redis
      ensures Abs() == RevokeTree(old(Abs()), top) && below == |Descendants(old(grants), top)|
    {
      var descendants := FindDescendantIds(top);
      DistinctSize(descendants);
      var ids := (set d | d in descendants) + {top};
      assert (set d | d in descendants) == Descendants(grants, top);
      RevokeRows(ids);
      below := |descendants|;
    }

    /** Revokes a grant and everything delegated from it; answers how many descendants there were. */
    method RevokeGrant(gid: GrantId, org: OrgId) returns (revoked: Option<nat>)
      requires Inv(Abs())
      modifies this, redis
      ensures Abs() == Apply(old(Abs()), Event.RevokeGrant(gid, org)) && Inv(Abs())
      ensures revoked == if gid in old(grants) && old(grants)[gid].org == org then Some(|Descendants(old(grants), gid)|) else None
    {
      StepKeepsInv(Abs(), Event.RevokeGrant(gid, org));
      if gid !in grants || grants[gid].org != org { return None; }
      var below := RevokeSubtree(gid);
      return Some(below);
    }

    method RevokeKey(kid: string) returns (count: nat)
      requires Inv(Abs())
      modifies this, redis
      ensures Abs() == Apply(old(Abs()), Event.RevokeKey(kid)) && Inv(Abs())
    {
      StepKeepsInv(Abs(), Event.RevokeKey(kid));
      count := Cascade(KeyIndex(kid));
    }

    method Suspend(id: AgentId, org: OrgId) returns (ok: bool)
      requires Inv(Abs())
      modifies this, redis
      ensures Abs() == Apply(old(Abs()), Event.Suspend(id, org)) && Inv(Abs())
      ensures ok <==> id in old(agents) && old(agents)[id].org == org && old(agents)[id].status != Decommissioned
    {
      StepKeepsInv(Abs(), Event.Suspend(id, org));
      if id !in agents || agents[id].org != org || agents[id].status == Decommissioned { return false; }
      agents := agents[id := agents[id].(status := Suspended)];
      var count := Cascade(AgentIndex(id));
      return true;
    }

    method Cascade(key: IndexKey) returns (count: nat)
      modifies redis
      ensures Abs() == RevokeIndex(old(Abs()), key)
    {
      count := redis.RevokeAllInIndex(key, now);
    }

    method RevokeKeyIndexes(keys: seq<string>)
      modifies redis
      ensures Abs() == RevokeKeys(old(Abs()), keys)
    {
      ghost var s := Abs();
      for i := 0 to |keys|
        invariant Abs() == RevokeKeys(s, keys[..i])
      {
        RevokeKeysNext(s, keys, i);
        var revoked := Cascade(KeyIndex(keys[i]));
      }
      assert keys[..|keys|] == keys;
    }

    /** Revokes every token of the given active keys, closes the agent, then revokes whatever else it holds. */
    method Decommission(id: AgentId, org: OrgId, keys: seq<string>) returns (ok: bool)
      requires Inv(Abs())
      modifies this, redis
      ensures Abs() == Apply(old(Abs()), Event.Decommission(id, org, keys)) && Inv(Abs())
      ensures ok <==> id in old(agents) && old(agents)[id].org == org && old(agents)[id].status != Decommissioned
    {
      StepKeepsInv(Abs(), Event.Decommission(id, org, keys));
      if id !in agents || agents[id].org != org || agents[id].status == Decommissioned { return false; }
      RevokeKeyIndexes(keys);
      agents := agents[id := agents[id].(status := Decommissioned)];
      var count := Cascade(AgentIndex(id));
      return true;
    }
  }
}
