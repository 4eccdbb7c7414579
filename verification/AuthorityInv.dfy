/** The invariant of every run of the delegation, token and revocation services, and what follows from it. */
module AuthorityInv {
  import opened Prelude
  import opened Forest
  import opened Lineage
  import opened Revocation
  import opened Authority

  // ---------- The invariant ----------

  ghost predicate UniqueJtis(t: Table)
  {
    forall a, b :: a in t && b in t && t[a].jti == t[b].jti ==> a == b
  }

  ghost predicate GrantsOk(t: Table)
  {
    IsForest(t) && NoRevisit(t) && RevokedClosed(t) && UniqueJtis(t)
  }

  /** A grant's token says what the row says: subject, organisation, scopes, depth and expiry. */
  ghost predicate TokenOfGrant(issued: map<Jti, Token>, g: Grant)
  {
    && g.jti in issued
    && var tok := issued[g.jti];
       tok.sub == g.delegatee && tok.org == g.org && tok.scopes == g.scopes && tok.depth == g.depth && tok.exp == g.expiresAt
  }

  ghost predicate TokensOk(t: Table, issued: map<Jti, Token>)
  {
    && (forall id :: id in t ==> TokenOfGrant(issued, t[id]))
    && (forall j :: j in issued ==>
          issued[j].depth >= 0 && issued[j].scopes == KnownScopes(issued[j].scopes)
          && (issued[j].depth > 0 ==> exists id :: HasJti(t, id, j)))
  }

  /** A grant attenuates the token it was made from, which is its parent's token or a root token. */
  ghost predicate HopOk(t: Table, issued: map<Jti, Token>, hop: Hop, g: Grant)
  {
    && hop.via in issued
    && var via := issued[hop.via];
       && via.sub == g.delegator && via.org == g.org
       && g.scopes <= via.scopes && g.scopes <= hop.ceiling
       && (g.jti in issued ==> issued[g.jti].onBehalfOf == via.onBehalfOf)
       && match g.parent
          case None => via.depth == 0
          case Some(p) => p in t && hop.via == t[p].jti
  }

  ghost predicate HopsOk(t: Table, issued: map<Jti, Token>, hops: map<GrantId, Hop>)
  {
    forall id :: id in t ==> id in hops && HopOk(t, issued, hops[id], t[id])
  }

  ghost predicate IndexScored(issued: map<Jti, Token>, redis: Redis)
  {
    forall k, j :: k in redis.index && j in redis.index[k] ==> j in issued && redis.index[k][j] == issued[j].exp
  }

  ghost predicate EntryLong(tok: Token, until: int)
  {
    until > 1000 * tok.exp - 1000 && (tok.depth == 0 ==> until >= 1000 * tok.exp)
  }

  ghost predicate EntriesLong(issued: map<Jti, Token>, redis: Redis)
  {
    forall j :: j in redis.revoked ==> j in issued && EntryLong(issued[j], redis.revoked[j])
  }

  /** Every live token is still in each index it was tracked under, or blacklisted. */
  ghost predicate IndexComplete(now: int, issued: map<Jti, Token>, tracked: map<Jti, set<IndexKey>>, redis: Redis)
  {
    forall j, k :: j in issued && j in tracked && k in tracked[j] && Live(issued[j].exp, now) ==>
      j in Members(redis, k) || j in redis.revoked
  }

  ghost predicate TrackedBySubject(issued: map<Jti, Token>, tracked: map<Jti, set<IndexKey>>)
  {
    forall j :: j in issued ==> j in tracked && AgentIndex(issued[j].sub) in tracked[j]
  }

  /** A revoked grant's token is blacklisted, or had less than a second left. */
  ghost predicate RevokedBlacklisted(now: int, t: Table, redis: Redis)
  {
    forall id :: id in t && !t[id].active ==> t[id].jti in redis.revoked || now > 1000 * t[id].expiresAt - 1000
  }

  ghost predicate RedisOk(s: State)
  {
    && IndexScored(s.issued, s.redis)
    && EntriesLong(s.issued, s.redis)
    && IndexComplete(s.now, s.issued, s.tracked, s.redis)
  }

  ghost predicate Inv(s: State)
  {
    && GrantsOk(s.grants)
    && DepthBounded(s.grants, s.maxDepth)
    && TokensOk(s.grants, s.issued)
    && HopsOk(s.grants, s.issued, s.hops)
    && RedisOk(s)
    && TrackedBySubject(s.issued, s.tracked)
    && RevokedBlacklisted(s.now, s.grants, s.redis)
  }

  // ---------- Reloading a chain ----------

  lemma HolderIs(t: Table, id: GrantId)
    requires UniqueJtis(t) && id in t
    ensures Holder(t, t[id].jti) == Some(id)
  {
    assert HasJti(t, id, t[id].jti);
  }

  /** The rebuilt chain against the stored counters. A root token starts an empty chain; an active grant's
      token yields its whole lineage, as long as the row's depth and the token's depth claim both say. The
      quiet exits and the broken-ancestor refusal never happen; only the grant's own revocation refuses. */
  lemma LoadChainExact(s: State, jti: Jti)
    requires Inv(s) && jti in s.issued
    ensures match Holder(s.grants, jti)
      case None => s.issued[jti].depth == 0 && LoadChain(s.grants, jti) == Chain([], None)
      case Some(id) =>
        && id in s.grants && s.grants[id].jti == jti
        && s.issued[jti].depth == s.grants[id].depth
        && s.issued[jti].sub == s.grants[id].delegatee
        && (forall x :: x in Line(s.grants, id) ==> x in s.grants)
        && |Line(s.grants, id)| == s.grants[id].depth == |Rows(s.grants, Line(s.grants, id))|
        && LoadChain(s.grants, jti) ==
             if s.grants[id].active then Chain(Rows(s.grants, Line(s.grants, id)), Some(id)) else Rejected(OwnGrantRevoked)
  {
    var h := Holder(s.grants, jti);
    if h.Some? {
      var id := h.value;
      assert HasJti(s.grants, id, jti) && TokenOfGrant(s.issued, s.grants[id]);
      LineFacts(s.grants, id);
      RowsAppend(s.grants, Line(s.grants, id), id);
      if s.grants[id].active { WalkIsLine(s.grants, id, {id}); }
    }
  }

  /** Validation has already bounded the chain, whatever the state. */
  lemma ValidationBoundsChain(s: State, presented: Jti, delegatee: AgentId, requested: seq<Scope>)
    requires presented in s.issued
    ensures Decide(s, presented, delegatee, requested) != Denies(DepthGuard)
    ensures forall a :: Decide(s, presented, delegatee, requested) == Denies(BrokenAncestor(a)) ==>
      LoadChain(s.grants, presented) == Rejected(BrokenAncestor(a))
  {
  }

  /** The guard inside token creation and the broken-ancestor refusal are unreachable. */
  lemma DepthGuardUnreachable(s: State, presented: Jti, delegatee: AgentId, requested: seq<Scope>)
    requires Inv(s) && presented in s.issued
    ensures Decide(s, presented, delegatee, requested) != Denies(DepthGuard)
    ensures forall a :: Decide(s, presented, delegatee, requested) != Denies(BrokenAncestor(a))
  {
    ValidationBoundsChain(s, presented, delegatee, requested);
    LoadChainExact(s, presented);
  }

  /** A revoked grant's own token passes the middleware only in the last second of its life, so the
      own-grant refusal can come at no other time. */
  lemma RevokedTokenAcceptedOnlyAtTheEnd(s: State, id: GrantId)
    requires Inv(s) && id in s.grants && !s.grants[id].active && Accepts(s, s.grants[id].jti)
    ensures s.now > 1000 * s.grants[id].expiresAt - 1000
  {
    assert TokenOfGrant(s.issued, s.grants[id]);
  }

  // ---------- Index steps ----------

  lemma RevokeIndexKeeps(s: State, key: IndexKey)
    requires Inv(s)
    ensures Inv(RevokeIndex(s, key))
    ensures s.redis.revoked.Keys <= RevokeIndex(s, key).redis.revoked.Keys
    ensures forall j :: j in s.issued && key in s.tracked[j] && Live(s.issued[j].exp, s.now) ==> j in RevokeIndex(s, key).redis.revoked
  {
    var s' := RevokeIndex(s, key);
    var m := Members(s.redis, key);
    var due := Due(m, s.now);
    forall j | j in s'.redis.revoked
      ensures j in s.issued && EntryLong(s.issued[j], s'.redis.revoked[j])
    {
      if j in due { assert m[j] == s.issued[j].exp; }
    }
    forall j, k | j in s.issued && j in s.tracked && k in s.tracked[j] && Live(s.issued[j].exp, s.now)
      ensures j in Members(s'.redis, k) || j in s'.redis.revoked
    {
      assert j in Members(s.redis, k) || j in s.redis.revoked;
      if k == key && j in m { assert m[j] == s.issued[j].exp && j in due; }
    }
  }

  lemma TrackKeeps(s: State, key: IndexKey, jti: Jti)
    requires RedisOk(s) && jti in s.issued && jti in s.tracked
    ensures RedisOk(Track(s, key, jti))
  {
    var s' := Track(s, key, jti);
    var exp := s.issued[jti].exp;
    forall j ensures j in Members(s'.redis, key) <==> (j in Members(s.redis, key)[jti := exp] && Live(Members(s.redis, key)[jti := exp][j], s.now)) {
      PruneDropsOnlyDead(s.redis, s.now, key, jti, exp, j);
    }
    forall j, k | j in s'.issued && j in s'.tracked && k in s'.tracked[j] && Live(s'.issued[j].exp, s'.now)
      ensures j in Members(s'.redis, k) || j in s'.redis.revoked
    {
      if j == jti && k == key {
        assert j in Members(s'.redis, k);
      } else {
        assert k in s.tracked[j];
        assert j in Members(s.redis, k) || j in s.redis.revoked;
        if k == key && j in Members(s.redis, k) { assert Members(s.redis, k)[j] == s.issued[j].exp; }
      }
    }
  }

  lemma AddTokenKeeps(s: State, jti: Jti, tok: Token)
    requires RedisOk(s) && jti !in s.issued
    ensures RedisOk(AddToken(s, jti, tok))
  {
  }

  // ---------- Each step keeps the invariant ----------

  lemma IssueTrackedKeeps(s: State, jti: Jti, tok: Token)
    requires RedisOk(s) && jti !in s.issued
    ensures RedisOk(Track(AddToken(s, jti, tok), AgentIndex(tok.sub), jti))
  {
    AddTokenKeeps(s, jti, tok);
    TrackKeeps(AddToken(s, jti, tok), AgentIndex(tok.sub), jti);
  }

  lemma MintRedis(s: State, jti: Jti, q: MintRequest)
    requires RedisOk(s) && jti !in s.issued && q.sub in s.agents
    ensures RedisOk(MintToken(s, jti, q))
  {
    var tok := AccessToken(s, q);
    var tracked := Track(AddToken(s, jti, tok), AgentIndex(q.sub), jti);
    IssueTrackedKeeps(s, jti, tok);
    if q.key.Some? { TrackKeeps(tracked, KeyIndex(q.key.value), jti); }
    assert MintToken(s, jti, q) == if q.key.Some? then Track(tracked, KeyIndex(q.key.value), jti) else tracked;
  }

  lemma KnownScopesOf(held: set<Scope>, scopes: set<Scope>)
    requires scopes <= KnownScopes(held)
    ensures KnownScopes(scopes) == scopes
  {
  }

  lemma MintShape(s: State, jti: Jti, q: MintRequest)
    requires jti !in s.issued && q.sub in s.agents
    ensures var s' := MintToken(s, jti, q);
      && jti in s'.issued && s'.issued - {jti} == s.issued
      && s'.issued[jti].depth == 0 && s'.issued[jti].scopes == KnownScopes(s'.issued[jti].scopes)
      && s'.grants == s.grants && s'.hops == s.hops && s'.now == s.now && s'.redis.revoked == s.redis.revoked
  {
    KnownScopesOf(q.scopes, KnownScopes(q.scopes));
  }

  lemma MintTracks(s: State, jti: Jti, q: MintRequest)
    requires TrackedBySubject(s.issued, s.tracked) && jti !in s.issued && q.sub in s.agents
    ensures TrackedBySubject(MintToken(s, jti, q).issued, MintToken(s, jti, q).tracked)
  {
    var s' := MintToken(s, jti, q);
    forall j | j in s'.issued ensures j in s'.tracked && AgentIndex(s'.issued[j].sub) in s'.tracked[j] {
      if j != jti { assert s'.issued[j] == s.issued[j] && s'.tracked[j] == s.tracked[j]; }
    }
  }

  lemma MintKeeps(s: State, jti: Jti, q: MintRequest)
    requires Inv(s) && jti !in s.issued && q.sub in s.agents
    ensures Inv(MintToken(s, jti, q))
  {
    MintShape(s, jti, q);
    MintTracks(s, jti, q);
    MintRedis(s, jti, q);
    TokensKept(s, MintToken(s, jti, q), jti);
  }

  /** Issuing one fresh token leaves everything said about the older ones true. */
  lemma TokensKept(s: State, s': State, jti: Jti)
    requires Inv(s) && jti !in s.issued && jti in s'.issued && s'.issued - {jti} == s.issued
    requires s'.grants == s.grants && s'.hops == s.hops
    requires s'.issued[jti].depth == 0 && s'.issued[jti].scopes == KnownScopes(s'.issued[jti].scopes)
    ensures TokensOk(s'.grants, s'.issued) && HopsOk(s'.grants, s'.issued, s'.hops)
  {
    assert forall j :: j in s.issued ==> j in s'.issued && s'.issued[j] == s.issued[j];
    forall id | id in s.grants
      ensures TokenOfGrant(s'.issued, s.grants[id]) && HopOk(s.grants, s'.issued, s.hops[id], s.grants[id])
    {
      assert TokenOfGrant(s.issued, s.grants[id]) && HopOk(s.grants, s.issued, s.hops[id], s.grants[id]);
    }
  }

  /** What approval says about scopes and agents, on any state. */
  lemma ApprovedScopes(s: State, presented: Jti, delegatee: AgentId, requested: seq<Scope>)
    requires presented in s.issued && Decide(s, presented, delegatee, requested).Grants?
    ensures var d := Decide(s, presented, delegatee, requested);
      var via := s.issued[presented];
      && via.sub in s.agents && d.scopes <= via.scopes && d.scopes <= s.agents[via.sub].allowed
      && d.scopes == (set x | x in requested)
      && |d.links| < s.maxDepth && delegatee != via.sub && delegatee !in Participants(d.links)
      && LoadChain(s.grants, presented) == Chain(d.links, d.parent)
  {
    var via := s.issued[presented];
    ScopeSubsetExact(requested, via.scopes * s.agents[via.sub].allowed);
  }

  /** An approved delegation extends the forest: the new row links to an active parent one level up and
      names an agent new to the line. */
  lemma ApprovedHop(s: State, presented: Jti, delegatee: AgentId, requested: seq<Scope>)
    requires Inv(s) && presented in s.issued && Decide(s, presented, delegatee, requested).Grants?
    ensures var d := Decide(s, presented, delegatee, requested);
      var via := s.issued[presented];
      && via.sub in s.agents && d.scopes <= via.scopes && d.scopes <= s.agents[via.sub].allowed
      && d.scopes == (set x | x in requested)
      && via.depth == |d.links| < s.maxDepth
      && d.parent == Holder(s.grants, presented)
      && delegatee != via.sub
      && match d.parent
         case None => via.depth == 0
         case Some(p) =>
           && p in s.grants && s.grants[p].active && s.grants[p].jti == presented
           && s.grants[p].depth == via.depth && s.grants[p].delegatee == via.sub && s.grants[p].org == via.org
           && delegatee !in LineAgents(s.grants, p)
  {
    LoadChainExact(s, presented);
    ApprovedScopes(s, presented, delegatee, requested);
    var h := Holder(s.grants, presented);
    if h.Some? { assert TokenOfGrant(s.issued, s.grants[h.value]); }
  }

  lemma GrantAdded(t: Table, gid: GrantId, row: Grant)
    requires GrantsOk(t) && gid !in t && row.active
    requires row.depth >= 1 && row.delegatee != row.delegator
    requires forall id :: id in t ==> t[id].jti != row.jti
    requires match row.parent
      case None => row.depth == 1
      case Some(p) =>
        && p in t && t[p].active && row.depth == t[p].depth + 1
        && row.delegator == t[p].delegatee && row.org == t[p].org && row.delegatee !in LineAgents(t, p)
    ensures GrantsOk(t[gid := row]) && KeepsRows(t, t[gid := row])
  {
    var t' := t[gid := row];
    forall id | id in t' ensures Linked(t', id) {
      if id != gid { assert Linked(t, id); }
    }
    forall id | id in t' ensures NewToLine(t', id) {
      assert Linked(t', id);
      if id != gid {
        assert Linked(t, id) && NewToLine(t, id);
      }
      if t'[id].parent.Some? { LineKept(t, t', t'[id].parent.value); }
    }
  }

  lemma TokensAdded(t: Table, issued: map<Jti, Token>, gid: GrantId, row: Grant, tok: Token)
    requires TokensOk(t, issued) && gid !in t && row.jti !in issued
    requires TokenOfGrant(issued[row.jti := tok], row) && row.depth > 0 && tok.scopes == KnownScopes(tok.scopes)
    ensures TokensOk(t[gid := row], issued[row.jti := tok])
  {
    var t', issued' := t[gid := row], issued[row.jti := tok];
    assert HasJti(t', gid, row.jti);
    forall j | j in issued && issued[j].depth > 0 ensures exists id :: HasJti(t', id, j) {
      var id :| HasJti(t, id, j);
      assert HasJti(t', id, j);
    }
    forall id | id in t ensures TokenOfGrant(issued', t[id]) {
      assert TokenOfGrant(issued, t[id]);
    }
  }

  lemma HopsAdded(t: Table, issued: map<Jti, Token>, hops: map<GrantId, Hop>, gid: GrantId, row: Grant, tok: Token, hop: Hop)
    requires TokensOk(t, issued) && HopsOk(t, issued, hops) && gid !in t && row.jti !in issued
    requires HopOk(t, issued[row.jti := tok], hop, row)
    ensures HopsOk(t[gid := row], issued[row.jti := tok], hops[gid := hop])
  {
    forall id | id in t ensures HopOk(t[gid := row], issued[row.jti := tok], hops[id], t[id]) {
      assert TokenOfGrant(issued, t[id]) && HopOk(t, issued, hops[id], t[id]);
    }
  }

  lemma DelegateTokens(s: State, presented: Jti, delegatee: AgentId, requested: seq<Scope>, gid: GrantId, jti: Jti)
    requires Inv(s) && Enabled(s, Delegate(presented, delegatee, requested, gid, jti))
    ensures var s' := AddGrant(s, presented, delegatee, Decide(s, presented, delegatee, requested), gid, jti);
      TokensOk(s'.grants, s'.issued) && HopsOk(s'.grants, s'.issued, s'.hops)
  {
    var d := Decide(s, presented, delegatee, requested);
    var s' := AddGrant(s, presented, delegatee, d, gid, jti);
    ApprovedHop(s, presented, delegatee, requested);
    KnownScopesOf(s.issued[presented].scopes, d.scopes);
    TokensAdded(s.grants, s.issued, gid, s'.grants[gid], s'.issued[jti]);
    HopsAdded(s.grants, s.issued, s.hops, gid, s'.grants[gid], s'.issued[jti], s'.hops[gid]);
  }

  lemma DelegateGrants(s: State, presented: Jti, delegatee: AgentId, requested: seq<Scope>, gid: GrantId, jti: Jti)
    requires Inv(s) && Enabled(s, Delegate(presented, delegatee, requested, gid, jti))
    ensures GrantsOk(AddGrant(s, presented, delegatee, Decide(s, presented, delegatee, requested), gid, jti).grants)
  {
    var d := Decide(s, presented, delegatee, requested);
    ApprovedHop(s, presented, delegatee, requested);
    assert forall id :: id in s.grants ==> TokenOfGrant(s.issued, s.grants[id]);
    GrantAdded(s.grants, gid, AddGrant(s, presented, delegatee, d, gid, jti).grants[gid]);
  }

  lemma DelegateRedis(s: State, presented: Jti, delegatee: AgentId, d: Decision, gid: GrantId, jti: Jti)
    requires RedisOk(s) && presented in s.issued && s.issued[presented].sub in s.agents && d.Grants? && jti !in s.issued
    ensures RedisOk(AddGrant(s, presented, delegatee, d, gid, jti))
  {
    var s' := AddGrant(s, presented, delegatee, d, gid, jti);
    IssueTrackedKeeps(s, jti, s'.issued[jti]);
  }

  lemma DelegateIndexes(s: State, presented: Jti, delegatee: AgentId, d: Decision, gid: GrantId, jti: Jti)
    requires presented in s.issued && s.issued[presented].sub in s.agents && d.Grants?
    requires gid !in s.grants && jti !in s.issued
    requires TrackedBySubject(s.issued, s.tracked) && RevokedBlacklisted(s.now, s.grants, s.redis)
    ensures var s' := AddGrant(s, presented, delegatee, d, gid, jti);
      TrackedBySubject(s'.issued, s'.tracked) && RevokedBlacklisted(s'.now, s'.grants, s'.redis)
  {
    var s' := AddGrant(s, presented, delegatee, d, gid, jti);
    assert s'.redis.revoked == s.redis.revoked && s'.now == s.now;
    forall id | id in s'.grants && !s'.grants[id].active ensures id in s.grants && s'.grants[id] == s.grants[id] {
    }
  }

  lemma DelegateBounded(s: State, presented: Jti, delegatee: AgentId, requested: seq<Scope>, gid: GrantId, jti: Jti)
    requires presented in s.issued && Decide(s, presented, delegatee, requested).Grants?
    requires DepthBounded(s.grants, s.maxDepth)
    ensures s.issued[presented].sub in s.agents
    ensures DepthBounded(AddGrant(s, presented, delegatee, Decide(s, presented, delegatee, requested), gid, jti).grants, s.maxDepth)
  {
    ApprovedScopes(s, presented, delegatee, requested);
  }

  lemma DelegateKeeps(s: State, presented: Jti, delegatee: AgentId, requested: seq<Scope>, gid: GrantId, jti: Jti)
    requires Inv(s) && Enabled(s, Delegate(presented, delegatee, requested, gid, jti))
    ensures Inv(Apply(s, Delegate(presented, delegatee, requested, gid, jti)))
  {
    var d := Decide(s, presented, delegatee, requested);
    DelegateBounded(s, presented, delegatee, requested, gid, jti);
    DelegateTokens(s, presented, delegatee, requested, gid, jti);
    DelegateGrants(s, presented, delegatee, requested, gid, jti);
    DelegateRedis(s, presented, delegatee, d, gid, jti);
    DelegateIndexes(s, presented, delegatee, d, gid, jti);
  }

  // ---------- Cascading revocation ----------

  lemma ExpiryIs(s: State, id: GrantId)
    requires Inv(s) && id in s.grants
    ensures ExpiryOf(s.grants, s.grants[id].jti) == s.grants[id].expiresAt
    ensures s.grants[id].jti in s.issued && s.issued[s.grants[id].jti].exp == s.grants[id].expiresAt
  {
    HolderIs(s.grants, id);
    assert TokenOfGrant(s.issued, s.grants[id]);
  }

  lemma DescendantOrg(t: Table, id: GrantId, top: GrantId)
    requires IsForest(t) && id in t && top in t && DescendsFrom(t, id, top)
    ensures t[id].org == t[top].org
  {
    var k: nat :| k >= 1 && Up(t, id, k) == Some(top);
    UpDepth(t, id, k);
  }

  lemma MarkedSubtree(t: Table, top: GrantId, now: int)
    requires IsForest(t) && top in t
    ensures var t' := Marked(t, Descendants(t, top) + {top}, now);
      && t'.Keys == t.Keys
      && (forall id :: id in t && (id == top || DescendsFrom(t, id, top)) ==>
            t'[id] == t[id].(active := false, revokedAt := Some(now)) && t[id].org == t[top].org)
      && (forall id :: id in t && id != top && !DescendsFrom(t, id, top) ==> t'[id] == t[id])
  {
    forall id | id in t && DescendsFrom(t, id, top) ensures t[id].org == t[top].org {
      DescendantOrg(t, id, top);
    }
  }

  /** What revoking does to the table: exactly the subtree is inactive afterwards besides what already was,
      every row of it is stamped, all of it belongs to the grant's organisation, and nothing else changes. */
  lemma RevokedSubtreeExactly(s: State, top: GrantId)
    requires Inv(s) && top in s.grants
    ensures var t, t' := s.grants, RevokeTree(s, top).grants;
      && t'.Keys == t.Keys
      && (forall id :: id in t && (id == top || DescendsFrom(t, id, top)) ==>
            t'[id] == t[id].(active := false, revokedAt := Some(s.now)) && t[id].org == t[top].org)
      && (forall id :: id in t && id != top && !DescendsFrom(t, id, top) ==> t'[id] == t[id])
  {
    MarkedSubtree(s.grants, top, s.now);
  }

  lemma {:induction false} DescendsThroughParent(t: Table, id: GrantId, top: GrantId)
    requires IsForest(t) && id in t && t[id].parent.Some?
    ensures DescendsFrom(t, id, top) <==> t[id].parent.value == top || DescendsFrom(t, t[id].parent.value, top)
  {
    var p := t[id].parent.value;
    if DescendsFrom(t, id, top) {
      var k: nat :| k >= 1 && Up(t, id, k) == Some(top);
      assert Up(t, p, k - 1) == Some(top);
    }
    if p == top { assert Up(t, p, 0) == Some(top); assert Up(t, id, 1) == Some(top); }
    if DescendsFrom(t, p, top) {
      var k: nat :| k >= 1 && Up(t, p, k) == Some(top);
      assert Up(t, id, k + 1) == Some(top);
    }
  }

  lemma MarkedForest(t: Table, ids: set<GrantId>, now: int)
    requires IsForest(t)
    ensures IsForest(Marked(t, ids, now)) && KeepsRows(t, Marked(t, ids, now))
  {
    var t' := Marked(t, ids, now);
    forall id | id in t' ensures Linked(t', id) { assert Linked(t, id); }
  }

  lemma MarkedNoRevisit(t: Table, ids: set<GrantId>, now: int)
    requires IsForest(t) && NoRevisit(t)
    ensures IsForest(Marked(t, ids, now)) && NoRevisit(Marked(t, ids, now))
  {
    var t' := Marked(t, ids, now);
    MarkedForest(t, ids, now);
    forall id | id in t' ensures NewToLine(t', id) {
      assert Linked(t, id) && Linked(t', id) && NewToLine(t, id);
      if t[id].parent.Some? { LineKept(t, t', t[id].parent.value); }
    }
  }

  lemma MarkedClosed(t: Table, top: GrantId, now: int)
    requires IsForest(t) && RevokedClosed(t)
    ensures RevokedClosed(Marked(t, Descendants(t, top) + {top}, now))
  {
    forall id | id in t && t[id].parent.Some? ensures DescendsFrom(t, id, top) <==> t[id].parent.value == top || DescendsFrom(t, t[id].parent.value, top) {
      DescendsThroughParent(t, id, top);
    }
  }

  lemma RevokeKeepsGrants(s: State, top: GrantId)
    requires Inv(s) && top in s.grants
    ensures GrantsOk(RevokeTree(s, top).grants) && KeepsRows(s.grants, RevokeTree(s, top).grants)
  {
    var ids := Descendants(s.grants, top) + {top};
    MarkedForest(s.grants, ids, s.now);
    MarkedNoRevisit(s.grants, ids, s.now);
    MarkedClosed(s.grants, top, s.now);
  }

  /** Each listed row with a second or more left gets an entry good until exp - 1 s; the rest get none. */
  lemma GrantEntriesLong(s: State, ids: set<GrantId>, j: Jti)
    requires Inv(s) && j in GrantEntries(s.grants, ids, s.now)
    ensures j in s.issued && EntryLong(s.issued[j], GrantEntries(s.grants, ids, s.now)[j])
  {
    var id :| id in s.grants && id in ids && Remaining(s.grants[id].expiresAt, s.now) > 0 && s.grants[id].jti == j;
    ExpiryIs(s, id);
    assert TokenOfGrant(s.issued, s.grants[id]) && Linked(s.grants, id);
  }

  lemma RevokeEntriesLong(s: State, top: GrantId)
    requires Inv(s) && top in s.grants
    ensures EntriesLong(s.issued, RevokeTree(s, top).redis)
  {
    var ids := Descendants(s.grants, top) + {top};
    forall j | j in GrantEntries(s.grants, ids, s.now)
      ensures j in s.issued && EntryLong(s.issued[j], GrantEntries(s.grants, ids, s.now)[j])
    {
      GrantEntriesLong(s, ids, j);
    }
  }

  lemma MoreEntriesComplete(now: int, issued: map<Jti, Token>, tracked: map<Jti, set<IndexKey>>, redis: Redis, more: map<Jti, int>)
    requires IndexScored(issued, redis) && IndexComplete(now, issued, tracked, redis)
    ensures var redis' := redis.(revoked := redis.revoked + more);
      IndexScored(issued, redis') && IndexComplete(now, issued, tracked, redis')
  {
    var redis' := redis.(revoked := redis.revoked + more);
    forall j, k | j in issued && j in tracked && k in tracked[j] && Live(issued[j].exp, now)
      ensures j in Members(redis', k) || j in redis'.revoked
    {
      assert j in Members(redis, k) || j in redis.revoked;
    }
  }

  lemma RevokeKeepsRedis(s: State, top: GrantId)
    requires Inv(s) && top in s.grants
    ensures RedisOk(RevokeTree(s, top))
  {
    RevokeEntriesLong(s, top);
    MoreEntriesComplete(s.now, s.issued, s.tracked, s.redis, GrantEntries(s.grants, Descendants(s.grants, top) + {top}, s.now));
  }

  lemma ListedIsBlacklisted(t: Table, ids: set<GrantId>, id: GrantId, now: int)
    requires id in t && id in ids
    ensures t[id].jti in GrantEntries(t, ids, now) || now > 1000 * t[id].expiresAt - 1000
  {
    RemainingPositive(t[id].expiresAt, now);
    if Remaining(t[id].expiresAt, now) > 0 { assert t[id].jti in DueJtis(t, ids, now); }
  }

  lemma MarkedBlacklisted(now: int, t: Table, ids: set<GrantId>, redis: Redis)
    requires RevokedBlacklisted(now, t, redis)
    ensures RevokedBlacklisted(now, Marked(t, ids, now), redis.(revoked := redis.revoked + GrantEntries(t, ids, now)))
  {
    var t' := Marked(t, ids, now);
    forall id | id in t' && !t'[id].active
      ensures t'[id].jti in redis.revoked + GrantEntries(t, ids, now) || now > 1000 * t'[id].expiresAt - 1000
    {
      if id in ids { ListedIsBlacklisted(t, ids, id, now); }
    }
  }

  lemma RevokeBlacklists(s: State, top: GrantId)
    requires Inv(s) && top in s.grants
    ensures RevokedBlacklisted(s.now, RevokeTree(s, top).grants, RevokeTree(s, top).redis)
  {
    MarkedBlacklisted(s.now, s.grants, Descendants(s.grants, top) + {top}, s.redis);
  }

  lemma RowsKept(t: Table, t': Table, issued: map<Jti, Token>, hops: map<GrantId, Hop>)
    requires TokensOk(t, issued) && HopsOk(t, issued, hops) && KeepsRows(t, t') && t'.Keys == t.Keys
    ensures TokensOk(t', issued) && HopsOk(t', issued, hops)
  {
    forall id | id in t' ensures TokenOfGrant(issued, t'[id]) && HopOk(t', issued, hops[id], t'[id]) {
      assert TokenOfGrant(issued, t[id]) && HopOk(t, issued, hops[id], t[id]);
    }
    forall j | j in issued && issued[j].depth > 0 ensures exists id :: HasJti(t', id, j) {
      var id :| HasJti(t, id, j);
      assert HasJti(t', id, j);
    }
  }

  lemma RevokeKeeps(s: State, top: GrantId)
    requires Inv(s) && top in s.grants
    ensures Inv(RevokeTree(s, top))
  {
    RevokeKeepsGrants(s, top);
    RevokeKeepsRedis(s, top);
    RevokeBlacklists(s, top);
    RowsKept(s.grants, RevokeTree(s, top).grants, s.issued, s.hops);
  }

  lemma NoEntryAtTheEnd(t: Table, ids: set<GrantId>, id: GrantId, now: int)
    requires UniqueJtis(t) && id in t && now > 1000 * t[id].expiresAt - 1000
    ensures t[id].jti !in GrantEntries(t, ids, now)
  {
    RemainingPositive(t[id].expiresAt, now);
  }

  lemma OwnGrantRefuses(t: Table, id: GrantId)
    requires UniqueJtis(t) && id in t && !t[id].active
    ensures LoadChain(t, t[id].jti) == Rejected(OwnGrantRevoked)
  {
    HolderIs(t, id);
  }

  lemma RevokedOwnToken(s: State, id: GrantId)
    requires Inv(s) && id in s.grants
    ensures var t, t' := s.grants, RevokeTree(s, id).grants;
      && id in t' && t'[id].jti == t[id].jti && !t'[id].active && UniqueJtis(t')
      && t[id].jti in s.issued && s.issued[t[id].jti].exp == t[id].expiresAt
  {
    RevokedSubtreeExactly(s, id);
    RevokeKeepsGrants(s, id);
    ExpiryIs(s, id);
  }

  /** And then it does come: a token accepted when its own grant is revoked is still accepted afterwards if and
      only if it is in its last second, and delegating with it is refused because of its own grant. */
  lemma RevokedAtTheEndExactly(s: State, id: GrantId)
    requires Inv(s) && id in s.grants && Accepts(s, s.grants[id].jti)
    ensures Accepts(RevokeTree(s, id), s.grants[id].jti) <==> s.now > 1000 * s.grants[id].expiresAt - 1000
    ensures LoadChain(RevokeTree(s, id).grants, s.grants[id].jti) == Rejected(OwnGrantRevoked)
  {
    var ids := Descendants(s.grants, id) + {id};
    RevokedOwnToken(s, id);
    OwnGrantRefuses(RevokeTree(s, id).grants, id);
    if s.now > 1000 * s.grants[id].expiresAt - 1000 {
      NoEntryAtTheEnd(s.grants, ids, id, s.now);
    } else {
      ListedIsBlacklisted(s.grants, ids, id, s.now);
      GrantEntriesLong(s, ids, s.grants[id].jti);
    }
  }

  lemma {:induction false} RevokeKeysKeeps(s: State, keys: seq<string>)
    requires Inv(s)
    ensures Inv(RevokeKeys(s, keys))
    ensures s.redis.revoked.Keys <= RevokeKeys(s, keys).redis.revoked.Keys
    ensures forall j, k :: j in s.issued && k in keys && KeyIndex(k) in s.tracked[j] && Live(s.issued[j].exp, s.now) ==>
      j in RevokeKeys(s, keys).redis.revoked
  {
    if keys != [] {
      var init, last := keys[..|keys| - 1], keys[|keys| - 1];
      RevokeKeysKeeps(s, init);
      RevokeIndexKeeps(RevokeKeys(s, init), KeyIndex(last));
      assert keys == init + [last];
    }
  }

  lemma StepKeepsInv(s: State, e: Event)
    requires Inv(s)
    ensures Inv(Apply(s, e))
  {
    if Enabled(s, e) {
      match e
      case Tick(_) =>
      case SetAgent(_, _) =>
      case Mint(jti, q) => MintKeeps(s, jti, q);
      case Delegate(presented, delegatee, requested, gid, jti) => DelegateKeeps(s, presented, delegatee, requested, gid, jti);
      case RevokeGrant(gid, _) => RevokeKeeps(s, gid);
      case RevokeKey(kid) => RevokeIndexKeeps(s, KeyIndex(kid));
      case Suspend(a, _) => RevokeIndexKeeps(SetStatus(s, a, Suspended), AgentIndex(a));
      case Decommission(a, _, keys) =>
        RevokeKeysKeeps(s, keys);
        RevokeIndexKeeps(SetStatus(RevokeKeys(s, keys), a, Decommissioned), AgentIndex(a));
    }
  }

  /** Every run of the services keeps the invariant. */
  lemma {:induction false} RunKeepsInv(s: State, events: seq<Event>)
    requires Inv(s)
    ensures Inv(Run(s, events))
  {
    if events != [] {
      RunKeepsInv(s, events[..|events| - 1]);
      StepKeepsInv(Run(s, events[..|events| - 1]), events[|events| - 1]);
    }
  }

  lemma InitialInv(maxDepth: nat)
    ensures Inv(Initial(maxDepth))
  {
  }
}
