/** What minting and revoking do to the blacklist and to each token's acceptance, entry by entry: exactly the tokens
    they are meant for are touched, and a token nobody revokes is accepted until it expires. */
module Effects {
  import opened Prelude
  import opened Forest
  import opened Revocation
  import opened Authority
  import opened AuthorityInv

  /** The token's blacklist entry, if there is one, is the same in both states. */
  ghost predicate SameEntry(s: State, s': State, j: Jti)
  {
    (j in s'.redis.revoked <==> j in s.redis.revoked) && (j in s.redis.revoked ==> s'.redis.revoked[j] == s.redis.revoked[j])
  }

  /** The states agree on everything acceptance reads besides entries. */
  ghost predicate SameTokens(s: State, s': State) { s'.issued == s.issued && s'.now == s.now && s'.maxDepth == s.maxDepth }

  /** Acceptance, in the token's own columns and its entry. */
  lemma AcceptedExactly(s: State, j: Jti)
    ensures Accepts(s, j) <==>
      && j in s.issued && s.now < 1000 * s.issued[j].exp && s.issued[j].depth <= s.maxDepth
      && (j in s.redis.revoked ==> s.redis.revoked[j] <= s.now)
  {
  }

  // ---------- Revoking a grant ----------

  ghost predicate Below(t: Table, id: GrantId, top: GrantId) { id in t && (id == top || DescendsFrom(t, id, top)) }

  lemma ListedEntry(t: Table, ids: set<GrantId>, id: GrantId, now: int)
    requires UniqueJtis(t) && id in t && id in ids
    ensures t[id].jti in GrantEntries(t, ids, now) <==> now + 1000 <= 1000 * t[id].expiresAt
    ensures now + 1000 <= 1000 * t[id].expiresAt ==>
      GrantEntries(t, ids, now)[t[id].jti] == now + 1000 * ((1000 * t[id].expiresAt - now) / 1000)
  {
    HolderIs(t, id);
    RemainingPositive(t[id].expiresAt, now);
    if now + 1000 <= 1000 * t[id].expiresAt { assert t[id].jti in DueJtis(t, ids, now); }
  }

  lemma UnlistedEntry(t: Table, ids: set<GrantId>, j: Jti, now: int)
    requires forall id :: id in t && id in ids ==> t[id].jti != j
    ensures j !in GrantEntries(t, ids, now)
  {
  }

  lemma RevokingIs(s: State, top: GrantId)
    requires top in s.grants
    ensures var s' := Apply(s, RevokeGrant(top, s.grants[top].org));
      && SameTokens(s, s') && s'.agents == s.agents && s'.redis.index == s.redis.index
      && s'.redis.revoked == s.redis.revoked + GrantEntries(s.grants, Descendants(s.grants, top) + {top}, s.now)
  {
  }

  /** Afterwards the token has an entry until `until` if one is due, and otherwise what it had. */
  ghost predicate EntryBecomes(s: State, s': State, j: Jti, due: bool, until: int)
  {
    if due then j in s'.redis.revoked && s'.redis.revoked[j] == until else SameEntry(s, s', j)
  }

  lemma ListedBecomes(s: State, s': State, ids: set<GrantId>, id: GrantId)
    requires UniqueJtis(s.grants) && id in s.grants && id in ids
    requires s'.redis.revoked == s.redis.revoked + GrantEntries(s.grants, ids, s.now)
    ensures var g := s.grants[id];
      EntryBecomes(s, s', g.jti, s.now + 1000 <= 1000 * g.expiresAt, s.now + 1000 * ((1000 * g.expiresAt - s.now) / 1000))
  {
    var g := s.grants[id];
    ListedEntry(s.grants, ids, id, s.now);
    Overlaid(s, s', GrantEntries(s.grants, ids, s.now), g.jti,
             s.now + 1000 <= 1000 * g.expiresAt, s.now + 1000 * ((1000 * g.expiresAt - s.now) / 1000));
  }

  /** The token of the revoked grant and of each one below it gets an entry for its remaining whole seconds, if it
      has one, and otherwise keeps what it had. */
  lemma RevokedEntries(s: State, top: GrantId, id: GrantId)
    requires UniqueJtis(s.grants) && top in s.grants && Below(s.grants, id, top)
    ensures var s', g := Apply(s, RevokeGrant(top, s.grants[top].org)), s.grants[id];
      EntryBecomes(s, s', g.jti, s.now + 1000 <= 1000 * g.expiresAt, s.now + 1000 * ((1000 * g.expiresAt - s.now) / 1000))
  {
    RevokingIs(s, top);
    ListedBecomes(s, Apply(s, RevokeGrant(top, s.grants[top].org)), Descendants(s.grants, top) + {top}, id);
  }

  lemma Overlaid(s: State, s': State, entries: map<Jti, int>, j: Jti, due: bool, until: int)
    requires s'.redis.revoked == s.redis.revoked + entries && (j in entries <==> due) && (due ==> entries[j] == until)
    ensures EntryBecomes(s, s', j, due, until)
  {
  }

  /** Two states that agree on a token and its entry agree on its acceptance. */
  lemma SameAcceptance(s: State, s': State, j: Jti)
    requires SameTokens(s, s') && SameEntry(s, s', j)
    ensures Accepts(s', j) <==> Accepts(s, j)
  {
  }

  lemma NotListed(t: Table, top: GrantId, j: Jti)
    requires forall id :: Below(t, id, top) ==> t[id].jti != j
    ensures forall id :: id in t && id in Descendants(t, top) + {top} ==> t[id].jti != j
  {
    forall id | id in t && id in Descendants(t, top) + {top} ensures t[id].jti != j { assert Below(t, id, top); }
  }

  /** Every other token, of whatever organisation, keeps its entry and its acceptance. */
  lemma RevocationSparesOthers(s: State, top: GrantId, j: Jti)
    requires top in s.grants
    requires forall id :: Below(s.grants, id, top) ==> s.grants[id].jti != j
    ensures var s' := Apply(s, RevokeGrant(top, s.grants[top].org));
      SameEntry(s, s', j) && (Accepts(s', j) <==> Accepts(s, j))
  {
    RevokingIs(s, top);
    NotListed(s.grants, top, j);
    UnlistedEntry(s.grants, Descendants(s.grants, top) + {top}, j, s.now);
    SameAcceptance(s, Apply(s, RevokeGrant(top, s.grants[top].org)), j);
  }

  /** A grant of another organisation is refused, and nothing changes. */
  lemma ForeignRevocation(s: State, gid: GrantId, org: OrgId)
    requires gid !in s.grants || s.grants[gid].org != org
    ensures Apply(s, RevokeGrant(gid, org)) == s
  {
  }

  // ---------- Cascades ----------

  ghost predicate Indexed(r: Redis, key: IndexKey, j: Jti) { key in r.index && j in r.index[key] }

  lemma CascadeIs(s: State, key: IndexKey, j: Jti)
    ensures var s' := RevokeIndex(s, key);
      && SameTokens(s, s') && s'.agents == s.agents && s'.redis.index == s.redis.index - {key}
      && (!Indexed(s.redis, key, j) ==> SameEntry(s, s', j))
      && (Indexed(s.redis, key, j) ==>
            var left := s.redis.index[key][j] - s.now / 1000;
            if left < 0 then SameEntry(s, s', j)
            else j in s'.redis.revoked && s'.redis.revoked[j] == s.now + if left > 1 then 1000 * left else 1000)
  {
  }

  /** Revoking a key gives each token of the key's index an entry that reaches its expiry, and touches no other. */
  lemma KeyRevocationEffect(s: State, kid: string, j: Jti)
    ensures var s' := Apply(s, RevokeKey(kid));
      && s'.agents == s.agents && s'.redis.index == s.redis.index - {KeyIndex(kid)}
      && (!Indexed(s.redis, KeyIndex(kid), j) ==> SameEntry(s, s', j) && (Accepts(s', j) <==> Accepts(s, j)))
      && (Indexed(s.redis, KeyIndex(kid), j) ==>
            var left := s.redis.index[KeyIndex(kid)][j] - s.now / 1000;
            if left < 0 then SameEntry(s, s', j)
            else j in s'.redis.revoked && s'.redis.revoked[j] == s.now + if left > 1 then 1000 * left else 1000)
  {
    CascadeIs(s, KeyIndex(kid), j);
  }

  /** Suspending an agent known in the organisation and not decommissioned sets its status and no other row's, and
      cascades through its own index alone; anything else is refused. */
  lemma SuspensionEffect(s: State, a: AgentId, org: OrgId, j: Jti)
    ensures var s' := Apply(s, Suspend(a, org));
      if a in s.agents && s.agents[a].org == org && s.agents[a].status != Decommissioned then
        && s'.agents == s.agents[a := Agent(s.agents[a].org, Suspended, s.agents[a].allowed)]
        && s'.redis.index == s.redis.index - {AgentIndex(a)}
        && (!Indexed(s.redis, AgentIndex(a), j) ==> SameEntry(s, s', j) && (Accepts(s', j) <==> Accepts(s, j)))
      else s' == s
  {
    if a in s.agents && s.agents[a].org == org && s.agents[a].status != Decommissioned {
      CascadeIs(SetStatus(s, a, Suspended), AgentIndex(a), j);
    }
  }

  lemma {:induction false} CascadesSpare(s: State, keys: seq<string>, j: Jti)
    requires forall k :: k in keys ==> !Indexed(s.redis, KeyIndex(k), j)
    ensures var s' := RevokeKeys(s, keys);
      && SameEntry(s, s', j)
      && forall key :: (key in s'.redis.index ==> key in s.redis.index && s'.redis.index[key] == s.redis.index[key])
                    && (key in s.redis.index && (key.KeyIndex? ==> key.key !in keys) ==> key in s'.redis.index)
  {
    if keys != [] {
      var init, last := keys[..|keys| - 1], keys[|keys| - 1];
      assert keys == init + [last];
      CascadesSpare(s, init, j);
      CascadeIs(RevokeKeys(s, init), KeyIndex(last), j);
    }
  }

  /** Decommissioning, likewise, with the listed keys' indexes as well. */
  lemma DecommissionEffect(s: State, a: AgentId, org: OrgId, keys: seq<string>, j: Jti)
    ensures var s' := Apply(s, Decommission(a, org, keys));
      if a in s.agents && s.agents[a].org == org && s.agents[a].status != Decommissioned then
        && s'.agents == s.agents[a := Agent(s.agents[a].org, Decommissioned, s.agents[a].allowed)]
        && (!Indexed(s.redis, AgentIndex(a), j) && (forall k :: k in keys ==> !Indexed(s.redis, KeyIndex(k), j)) ==>
              SameEntry(s, s', j) && (Accepts(s', j) <==> Accepts(s, j)))
      else s' == s
  {
    if a in s.agents && s.agents[a].org == org && s.agents[a].status != Decommissioned {
      var mid := SetStatus(RevokeKeys(s, keys), a, Decommissioned);
      CascadeIs(mid, AgentIndex(a), j);
      if forall k :: k in keys ==> !Indexed(s.redis, KeyIndex(k), j) { CascadesSpare(s, keys, j); }
    }
  }

  // ---------- A fresh token ----------

  /** What minting issues: the scopes asked for that the token enum knows, fifteen minutes, the human and the target
      asked for, indexed under its agent and its key; no other token and no blacklist entry changes. */
  lemma MintedToken(s: State, jti: Jti, q: MintRequest)
    requires Enabled(s, Mint(jti, q))
    ensures var s' := Apply(s, Mint(jti, q));
      && jti in s'.issued && s'.issued - {jti} == s.issued
      && s'.issued[jti] == Token(q.sub, s.agents[q.sub].org, set x | x in q.scopes && IsPermissionScope(x), 0,
                                 s.now / 1000 + 900, q.onBehalfOf, q.target)
      && s'.redis.revoked == s.redis.revoked && s'.agents == s.agents && s'.grants == s.grants && s'.now == s.now
      && s'.maxDepth == s.maxDepth
  {
  }

  lemma MintedIndexed(s: State, jti: Jti, q: MintRequest)
    requires Enabled(s, Mint(jti, q))
    ensures var s' := Apply(s, Mint(jti, q));
      && Indexed(s'.redis, AgentIndex(q.sub), jti) && (q.key.Some? ==> Indexed(s'.redis, KeyIndex(q.key.value), jti))
  {
  }

  /** A minting is refused exactly when the scope that must name a task comes without one (agent known, jti fresh). */
  lemma MintRefused(s: State, jti: Jti, q: MintRequest)
    requires jti !in s.issued && q.sub in s.agents
    ensures "credential:rotate" in q.scopes && q.target.task.None? <==> !Enabled(s, Mint(jti, q))
  {
  }

  /** The step revokes neither the token's agent nor its key. */
  ghost predicate Leaves(e: Event, q: MintRequest)
  {
    match e
    case RevokeKey(kid) => q.key != Some(kid)
    case Suspend(a, _) => a != q.sub
    case Decommission(a, _, keys) => a != q.sub && (q.key.Some? ==> q.key.value !in keys)
    case _ => true
  }

  /** The token is as minted, has no entry, and is indexed nowhere but under its agent and its key. */
  ghost predicate Standing(s: State, jti: Jti, q: MintRequest, tok: Token)
  {
    && jti in s.issued && s.issued[jti] == tok && jti !in s.redis.revoked
    && forall key :: Indexed(s.redis, key, jti) ==> key == AgentIndex(q.sub) || (q.key.Some? && key == KeyIndex(q.key.value))
  }

  lemma TrackingOthers(s: State, key: IndexKey, other: Jti, j: Jti, k: IndexKey)
    requires other in s.issued && other in s.tracked && j != other && Indexed(Track(s, key, other).redis, k, j)
    ensures Indexed(s.redis, k, j)
  {
  }

  lemma MintIndexesOthers(s: State, e: Event, j: Jti, k: IndexKey)
    requires e.Mint? && Enabled(s, e) && j != e.jti && Indexed(Apply(s, e).redis, k, j)
    ensures Indexed(s.redis, k, j)
  {
    var q := e.request;
    var added := AddToken(s, e.jti, AccessToken(s, q));
    var tracked := Track(added, AgentIndex(q.sub), e.jti);
    if q.key.Some? { TrackingOthers(tracked, KeyIndex(q.key.value), e.jti, j, k); }
    TrackingOthers(added, AgentIndex(q.sub), e.jti, j, k);
  }

  lemma MintLeavesStanding(s: State, e: Event, jti: Jti, q: MintRequest, tok: Token)
    requires Standing(s, jti, q, tok) && e.Mint? && Enabled(s, e)
    ensures Standing(Apply(s, e), jti, q, tok)
  {
    var s' := Apply(s, e);
    MintedToken(s, e.jti, e.request);
    assert s'.issued[jti] == (s'.issued - {e.jti})[jti];
    forall key | Indexed(s'.redis, key, jti) ensures key == AgentIndex(q.sub) || (q.key.Some? && key == KeyIndex(q.key.value)) {
      MintIndexesOthers(s, e, jti, key);
    }
  }

  lemma GrantLeavesStanding(s: State, e: Event, jti: Jti, q: MintRequest, tok: Token)
    requires Standing(s, jti, q, tok) && e.Delegate? && Enabled(s, e) && s.issued[e.presented].sub in s.agents
    ensures Standing(Apply(s, e), jti, q, tok)
  {
    var s' := Apply(s, e);
    forall key | Indexed(s'.redis, key, jti) ensures key == AgentIndex(q.sub) || (q.key.Some? && key == KeyIndex(q.key.value)) {
      assert Indexed(s.redis, key, jti);
    }
  }

  /** No grant holds a minted token. */
  lemma MintedIsNoGrants(s: State, jti: Jti)
    requires Inv(s) && jti in s.issued && s.issued[jti].depth == 0
    ensures forall id :: id in s.grants ==> s.grants[id].jti != jti
  {
    forall id | id in s.grants ensures s.grants[id].jti != jti {
      assert TokenOfGrant(s.issued, s.grants[id]) && Linked(s.grants, id);
    }
  }

  lemma RevocationLeavesStanding(s: State, e: Event, jti: Jti, q: MintRequest, tok: Token)
    requires Inv(s) && Standing(s, jti, q, tok) && tok.depth == 0 && e.RevokeGrant? && Enabled(s, e)
    ensures Standing(Apply(s, e), jti, q, tok)
  {
    MintedIsNoGrants(s, jti);
    RevokingIs(s, e.gid);
    RevocationSparesOthers(s, e.gid, jti);
    var s' := Apply(s, e);
    forall key | Indexed(s'.redis, key, jti) ensures key == AgentIndex(q.sub) || (q.key.Some? && key == KeyIndex(q.key.value)) {
      assert Indexed(s.redis, key, jti);
    }
  }

  lemma CascadeLeavesStanding(s: State, key: IndexKey, jti: Jti, q: MintRequest, tok: Token)
    requires Standing(s, jti, q, tok) && !Indexed(s.redis, key, jti)
    ensures Standing(RevokeIndex(s, key), jti, q, tok)
  {
    CascadeIs(s, key, jti);
    var s' := RevokeIndex(s, key);
    forall k | Indexed(s'.redis, k, jti) ensures k == AgentIndex(q.sub) || (q.key.Some? && k == KeyIndex(q.key.value)) {
      assert Indexed(s.redis, k, jti);
    }
  }

  lemma {:induction false} CascadesLeaveStanding(s: State, keys: seq<string>, jti: Jti, q: MintRequest, tok: Token)
    requires Standing(s, jti, q, tok) && (q.key.Some? ==> q.key.value !in keys)
    ensures Standing(RevokeKeys(s, keys), jti, q, tok)
  {
    if keys != [] {
      var init, last := keys[..|keys| - 1], keys[|keys| - 1];
      assert keys == init + [last];
      CascadesLeaveStanding(s, init, jti, q, tok);
      CascadeLeavesStanding(RevokeKeys(s, init), KeyIndex(last), jti, q, tok);
    }
  }

  lemma StepLeavesStanding(s: State, e: Event, jti: Jti, q: MintRequest, tok: Token)
    requires Inv(s) && Standing(s, jti, q, tok) && tok.depth == 0 && Leaves(e, q) && Enabled(s, e)
    requires e.Delegate? ==> s.issued[e.presented].sub in s.agents
    ensures Standing(Apply(s, e), jti, q, tok)
  {
    match e
    case Mint(_, _) => MintLeavesStanding(s, e, jti, q, tok);
    case Delegate(_, _, _, _, _) => GrantLeavesStanding(s, e, jti, q, tok);
    case RevokeGrant(_, _) => RevocationLeavesStanding(s, e, jti, q, tok);
    case RevokeKey(kid) => CascadeLeavesStanding(s, KeyIndex(kid), jti, q, tok);
    case Suspend(a, _) => CascadeLeavesStanding(SetStatus(s, a, Suspended), AgentIndex(a), jti, q, tok);
    case Decommission(a, _, keys) =>
      CascadesLeaveStanding(s, keys, jti, q, tok);
      CascadeLeavesStanding(SetStatus(RevokeKeys(s, keys), a, Decommissioned), AgentIndex(a), jti, q, tok);
    case _ =>
  }

  lemma {:induction false} RunLeavesStanding(s: State, events: seq<Event>, jti: Jti, q: MintRequest, tok: Token)
    requires Inv(s) && Standing(s, jti, q, tok) && tok.depth == 0
    requires forall i :: 0 <= i < |events| ==> Leaves(events[i], q)
    ensures Inv(Run(s, events)) && Standing(Run(s, events), jti, q, tok) && Run(s, events).maxDepth == s.maxDepth
  {
    if events != [] {
      var n := |events| - 1;
      var mid := Run(s, events[..n]);
      RunLeavesStanding(s, events[..n], jti, q, tok);
      StepKeepsInv(mid, events[n]);
      if Enabled(mid, events[n]) { StepLeavesStanding(mid, events[n], jti, q, tok); }
    }
  }

  lemma MintedStands(s: State, jti: Jti, q: MintRequest)
    requires Inv(s) && Enabled(s, Mint(jti, q))
    ensures var s' := Apply(s, Mint(jti, q)); jti in s'.issued && Standing(s', jti, q, s'.issued[jti])
  {
    MintedToken(s, jti, q);
    var s' := Apply(s, Mint(jti, q));
    forall key | Indexed(s'.redis, key, jti) ensures key == AgentIndex(q.sub) || (q.key.Some? && key == KeyIndex(q.key.value)) {
      assert !Indexed(s.redis, key, jti);
    }
  }

  /** A minted token is accepted at every instant up to fifteen minutes later, and at none after, in every run that
      revokes neither its agent nor its key, whatever else is minted, delegated, revoked or cascaded. */
  lemma MintedTokenLives(s: State, jti: Jti, q: MintRequest, events: seq<Event>)
    requires Inv(s) && Enabled(s, Mint(jti, q))
    requires forall i :: 0 <= i < |events| ==> Leaves(events[i], q)
    ensures var s' := Run(Apply(s, Mint(jti, q)), events);
      Accepts(s', jti) <==> s'.now < 1000 * (s.now / 1000 + 900)
  {
    MintedToken(s, jti, q);
    MintedStands(s, jti, q);
    StepKeepsInv(s, Mint(jti, q));
    RunLeavesStanding(Apply(s, Mint(jti, q)), events, jti, q, Apply(s, Mint(jti, q)).issued[jti]);
  }
}
