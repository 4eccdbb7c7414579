/** What operators and agents can rely on over whole runs of the delegation and revocation services. */
module Guarantees {
  import opened Prelude
  import opened Forest
  import opened Lineage
  import opened Revocation
  import opened Authority
  import opened AuthorityInv

  // ---------- What never changes back ----------

  ghost predicate Later(s: State, s': State)
  {
    && s.now <= s'.now && s.maxDepth == s'.maxDepth
    && (forall j :: j in s.issued ==> j in s'.issued && s'.issued[j] == s.issued[j])
    && s.redis.revoked.Keys <= s'.redis.revoked.Keys
    && KeepsRows(s.grants, s'.grants)
    && (forall id :: id in s.grants && !s.grants[id].active ==> !s'.grants[id].active)
    && (forall id :: id in s.grants && id in s.hops ==> id in s'.hops && s'.hops[id] == s.hops[id])
  }

  lemma LaterTransitive(s: State, s': State, s'': State)
    requires Later(s, s') && Later(s', s'')
    ensures Later(s, s'')
  {
  }

  lemma MintIsLater(s: State, jti: Jti, q: MintRequest)
    requires jti !in s.issued && q.sub in s.agents
    ensures Later(s, MintToken(s, jti, q))
  {
    MintShape(s, jti, q);
    assert forall j :: j in s.issued ==> j in MintToken(s, jti, q).issued - {jti};
  }

  lemma GrantIsLater(s: State, presented: Jti, delegatee: AgentId, d: Decision, gid: GrantId, jti: Jti)
    requires presented in s.issued && s.issued[presented].sub in s.agents && d.Grants? && gid !in s.grants && jti !in s.issued
    ensures Later(s, AddGrant(s, presented, delegatee, d, gid, jti))
  {
  }

  lemma RevokeIsLater(s: State, top: GrantId)
    requires Inv(s) && top in s.grants
    ensures Later(s, RevokeTree(s, top))
  {
    RevokeKeepsGrants(s, top);
    RevokedSubtreeExactly(s, top);
  }

  lemma IndexIsLater(s: State, key: IndexKey)
    ensures Later(s, RevokeIndex(s, key))
  {
  }

  lemma StatusIsLater(s: State, a: AgentId, status: AgentStatus)
    requires a in s.agents
    ensures Later(s, SetStatus(s, a, status))
  {
  }

  lemma {:induction false} KeysAreLater(s: State, keys: seq<string>)
    ensures Later(s, RevokeKeys(s, keys))
  {
    if keys != [] {
      var mid := RevokeKeys(s, keys[..|keys| - 1]);
      KeysAreLater(s, keys[..|keys| - 1]);
      IndexIsLater(mid, KeyIndex(keys[|keys| - 1]));
      LaterTransitive(s, mid, RevokeKeys(s, keys));
    }
  }

  lemma SuspendIsLater(s: State, a: AgentId, status: AgentStatus)
    requires a in s.agents
    ensures Later(s, RevokeIndex(SetStatus(s, a, status), AgentIndex(a)))
  {
    StatusIsLater(s, a, status);
    IndexIsLater(SetStatus(s, a, status), AgentIndex(a));
    LaterTransitive(s, SetStatus(s, a, status), RevokeIndex(SetStatus(s, a, status), AgentIndex(a)));
  }

  lemma DecommissionIsLater(s: State, a: AgentId, keys: seq<string>)
    requires a in s.agents
    ensures Later(s, RevokeIndex(SetStatus(RevokeKeys(s, keys), a, Decommissioned), AgentIndex(a)))
  {
    KeysAreLater(s, keys);
    SuspendIsLater(RevokeKeys(s, keys), a, Decommissioned);
    LaterTransitive(s, RevokeKeys(s, keys), RevokeIndex(SetStatus(RevokeKeys(s, keys), a, Decommissioned), AgentIndex(a)));
  }

  lemma IssuingIsLater(s: State, e: Event)
    requires Enabled(s, e) && (e.Mint? || e.Delegate?)
    requires e.Delegate? ==> s.issued[e.presented].sub in s.agents
    ensures Later(s, Apply(s, e))
  {
    match e
    case Mint(jti, q) => MintIsLater(s, jti, q);
    case Delegate(presented, delegatee, requested, gid, jti) =>
      GrantIsLater(s, presented, delegatee, Decide(s, presented, delegatee, requested), gid, jti);
  }

  lemma CascadeIsLater(s: State, e: Event)
    requires Enabled(s, e) && (e.RevokeKey? || e.Suspend? || e.Decommission?)
    ensures Later(s, Apply(s, e))
  {
    match e
    case RevokeKey(kid) => IndexIsLater(s, KeyIndex(kid));
    case Suspend(a, _) => SuspendIsLater(s, a, Suspended);
    case Decommission(a, _, keys) => DecommissionIsLater(s, a, keys);
  }

  lemma RevocationIsLater(s: State, e: Event)
    requires Inv(s) && Enabled(s, e) && e.RevokeGrant?
    ensures Later(s, Apply(s, e))
  {
    RevokeIsLater(s, e.gid);
  }

  lemma OtherIsLater(s: State, e: Event)
    requires !Enabled(s, e) || e.Tick? || e.SetAgent?
    ensures Later(s, Apply(s, e))
  {
  }

  lemma StepIsLater(s: State, e: Event)
    requires Inv(s)
    ensures Later(s, Apply(s, e))
  {
    if !Enabled(s, e) || e.Tick? || e.SetAgent? { OtherIsLater(s, e); }
    else if e.Mint? || e.Delegate? { IssuingIsLater(s, e); }
    else if e.RevokeGrant? { RevocationIsLater(s, e); }
    else { CascadeIsLater(s, e); }
  }

  lemma {:induction false} RunIsLater(s: State, events: seq<Event>)
    requires Inv(s)
    ensures Inv(Run(s, events)) && Later(s, Run(s, events))
  {
    if events != [] {
      var mid, last := Run(s, events[..|events| - 1]), events[|events| - 1];
      RunIsLater(s, events[..|events| - 1]);
      StepKeepsInv(mid, last);
      StepIsLater(mid, last);
      LaterTransitive(s, mid, Apply(mid, last));
    }
  }

  // ---------- Revoked tokens stay rejected ----------

  /** The token is rejected: a token that was minted rather than delegated always, a delegated one as long as it
      has a second or more to live. */
  ghost predicate Rejected(s: State, j: Jti)
  {
    j in s.issued && (s.issued[j].depth == 0 || s.now <= 1000 * s.issued[j].exp - 1000 ==> !Accepts(s, j))
  }

  /** The token is blacklisted, or dead, or a delegated one in its last second. */
  ghost predicate Ended(s: State, j: Jti)
  {
    && j in s.issued
    && (|| j in s.redis.revoked || !Live(s.issued[j].exp, s.now)
        || (s.issued[j].depth != 0 && s.now > 1000 * s.issued[j].exp - 1000))
  }

  lemma EndedIsRejected(s: State, j: Jti)
    requires Inv(s) && Ended(s, j)
    ensures Rejected(s, j)
  {
    if j in s.redis.revoked { assert EntryLong(s.issued[j], s.redis.revoked[j]); }
  }

  /** Once ended, a token stays rejected whatever else is revoked, minted, pruned or delegated in between; only a
      delegated token has the last second before its exp, in which a revocation may have left it uncovered. */
  lemma StaysRejected(s: State, events: seq<Event>, j: Jti)
    requires Inv(s) && Ended(s, j)
    ensures Rejected(Run(s, events), j)
  {
    RunIsLater(s, events);
    EndedIsRejected(Run(s, events), j);
  }

  /** Cascading through an index rejects every token tracked under it, for good. */
  lemma CascadeRejects(s: State, key: IndexKey, events: seq<Event>, j: Jti)
    requires Inv(s) && j in s.issued && key in s.tracked[j]
    ensures Rejected(Run(RevokeIndex(s, key), events), j)
  {
    RevokeIndexKeeps(s, key);
    StaysRejected(RevokeIndex(s, key), events, j);
  }

  /** After a suspension every token issued to the agent earlier, by any path, is rejected in every later state of
      every run: without exception if it was minted, up to its last second if it was delegated. */
  lemma SuspensionRejects(max: nat, before: seq<Event>, a: AgentId, org: OrgId, after: seq<Event>, j: Jti)
    requires var s := Run(Initial(max), before); Enabled(s, Suspend(a, org)) && j in s.issued && s.issued[j].sub == a
    ensures Rejected(Run(Apply(Run(Initial(max), before), Suspend(a, org)), after), j)
  {
    InitialInv(max);
    RunKeepsInv(Initial(max), before);
    CascadeRejects(SetStatus(Run(Initial(max), before), a, Suspended), AgentIndex(a), after, j);
  }

  lemma DecommissionEnds(s: State, a: AgentId, org: OrgId, keys: seq<string>, j: Jti)
    requires Inv(s) && Enabled(s, Decommission(a, org, keys)) && j in s.issued && j in s.tracked
    requires s.issued[j].sub == a || exists k :: k in keys && KeyIndex(k) in s.tracked[j]
    ensures Inv(Apply(s, Decommission(a, org, keys))) && Ended(Apply(s, Decommission(a, org, keys)), j)
  {
    RevokeKeysKeeps(s, keys);
    RevokeIndexKeeps(SetStatus(RevokeKeys(s, keys), a, Decommissioned), AgentIndex(a));
  }

  /** Decommissioning does the same, and also for tokens tracked under any key on the list. */
  lemma DecommissionRejects(max: nat, before: seq<Event>, a: AgentId, org: OrgId, keys: seq<string>, after: seq<Event>, j: Jti)
    requires var s := Run(Initial(max), before);
      && Enabled(s, Decommission(a, org, keys)) && j in s.issued && j in s.tracked
      && (s.issued[j].sub == a || exists k :: k in keys && KeyIndex(k) in s.tracked[j])
    ensures Rejected(Run(Apply(Run(Initial(max), before), Decommission(a, org, keys)), after), j)
  {
    InitialInv(max);
    RunKeepsInv(Initial(max), before);
    DecommissionEnds(Run(Initial(max), before), a, org, keys, j);
    StaysRejected(Apply(Run(Initial(max), before), Decommission(a, org, keys)), after, j);
  }

  lemma KeyCascadeRejects(s: State, kid: string, after: seq<Event>, j: Jti)
    requires Inv(s) && j in s.issued && KeyIndex(kid) in s.tracked[j]
    ensures Rejected(Run(Apply(s, RevokeKey(kid)), after), j)
  {
    assert Apply(s, RevokeKey(kid)) == RevokeIndex(s, KeyIndex(kid));
    CascadeRejects(s, KeyIndex(kid), after, j);
  }

  /** Revoking an API key rejects every token exchanged from it. */
  lemma KeyRevocationRejects(max: nat, before: seq<Event>, kid: string, after: seq<Event>, j: Jti)
    requires var s := Run(Initial(max), before); j in s.issued && j in s.tracked && KeyIndex(kid) in s.tracked[j]
    ensures Rejected(Run(Apply(Run(Initial(max), before), RevokeKey(kid)), after), j)
  {
    InitialInv(max);
    RunKeepsInv(Initial(max), before);
    KeyCascadeRejects(Run(Initial(max), before), kid, after, j);
  }

  lemma InactiveIsEnded(s: State, id: GrantId)
    requires Inv(s) && id in s.grants && !s.grants[id].active
    ensures Ended(s, s.grants[id].jti) && s.issued[s.grants[id].jti].exp == s.grants[id].expiresAt
  {
    assert TokenOfGrant(s.issued, s.grants[id]) && Linked(s.grants, id);
  }

  lemma InactiveStaysRejected(s: State, after: seq<Event>, id: GrantId)
    requires Inv(s) && id in s.grants && !s.grants[id].active
    ensures var s' := Run(s, after);
      && id in s'.grants && !s'.grants[id].active && s'.grants[id].org == s.grants[id].org
      && s'.grants[id].jti in s'.issued
      && (s'.now <= 1000 * s'.grants[id].expiresAt - 1000 ==> !Accepts(s', s'.grants[id].jti))
  {
    InactiveIsEnded(s, id);
    RunIsLater(s, after);
    StaysRejected(s, after, s.grants[id].jti);
  }

  lemma RevokedTreeRejects(s: State, top: GrantId, after: seq<Event>, id: GrantId)
    requires Inv(s) && top in s.grants && id in s.grants && (id == top || DescendsFrom(s.grants, id, top))
    ensures var s' := Run(RevokeTree(s, top), after);
      && id in s'.grants && !s'.grants[id].active && s'.grants[id].org == s.grants[top].org
      && s'.grants[id].jti in s'.issued
      && (s'.now <= 1000 * s'.grants[id].expiresAt - 1000 ==> !Accepts(s', s'.grants[id].jti))
  {
    RevokeKeeps(s, top);
    RevokedSubtreeExactly(s, top);
    InactiveStaysRejected(RevokeTree(s, top), after, id);
  }

  /** Revoking a grant: the whole subtree is inactive in every later state, and each of its tokens is
      rejected up to a second before it would have expired. */
  lemma RevocationCascades(max: nat, before: seq<Event>, top: GrantId, org: OrgId, after: seq<Event>, id: GrantId)
    requires var s := Run(Initial(max), before);
      Enabled(s, RevokeGrant(top, org)) && id in s.grants && (id == top || DescendsFrom(s.grants, id, top))
    ensures var s' := Run(Apply(Run(Initial(max), before), RevokeGrant(top, org)), after);
      && id in s'.grants && !s'.grants[id].active && s'.grants[id].org == org
      && s'.grants[id].jti in s'.issued
      && (s'.now <= 1000 * s'.grants[id].expiresAt - 1000 ==> !Accepts(s', s'.grants[id].jti))
  {
    InitialInv(max);
    RunKeepsInv(Initial(max), before);
    RevokedTreeRejects(Run(Initial(max), before), top, after, id);
  }

  // ---------- Chains ----------

  /** One link: what a grant, its token and the token it was made from say about each other. */
  ghost predicate SoundHop(s: State, id: GrantId)
  {
    && id in s.grants && id in s.hops && s.grants[id].jti in s.issued && s.hops[id].via in s.issued
    && var g, tok, via := s.grants[id], s.issued[s.grants[id].jti], s.issued[s.hops[id].via];
       && tok.scopes == g.scopes && tok.org == g.org == via.org && tok.onBehalfOf == via.onBehalfOf
       && g.scopes <= via.scopes && g.scopes <= s.hops[id].ceiling
       && (match g.parent
           case None => via.depth == 0
           case Some(p) => p in s.grants && s.hops[id].via == s.grants[p].jti)
  }

  lemma HopsAreSound(s: State, id: GrantId)
    requires Inv(s) && id in s.grants
    ensures SoundHop(s, id)
  {
    assert TokenOfGrant(s.issued, s.grants[id]) && HopOk(s.grants, s.issued, s.hops[id], s.grants[id]);
  }

  /** A grant stays within a grant above it: its scopes, the token it was made from, the ceiling read at its hop,
      organisation and human anchor. */
  ghost predicate Within(s: State, id: GrantId, a: GrantId)
  {
    && id in s.grants && s.grants[id].jti in s.issued && a in s.grants && a in s.hops && s.hops[a].via in s.issued
    && s.grants[id].scopes <= s.grants[a].scopes
    && s.grants[id].scopes <= s.hops[a].ceiling
    && s.grants[id].scopes <= s.issued[s.hops[a].via].scopes
    && s.issued[s.grants[id].jti].org == s.grants[id].org == s.issued[s.hops[a].via].org
    && s.issued[s.grants[id].jti].onBehalfOf == s.issued[s.hops[a].via].onBehalfOf
    && (s.grants[a].parent.None? ==> s.issued[s.hops[a].via].depth == 0)
  }

  lemma WithinThroughParent(s: State, id: GrantId, a: GrantId)
    requires SoundHop(s, id) && s.grants[id].parent.Some?
    requires SoundHop(s, s.grants[id].parent.value) && Within(s, s.grants[id].parent.value, a)
    ensures Within(s, id, a)
  {
  }

  ghost predicate AllSound(s: State) { forall id :: id in s.grants ==> SoundHop(s, id) }

  lemma {:induction false} ChainWithin(s: State, id: GrantId, k: nat)
    requires AllSound(s) && id in s.grants && Up(s.grants, id, k).Some?
    ensures Within(s, id, Up(s.grants, id, k).value)
    decreases k
  {
    assert SoundHop(s, id);
    if k > 0 {
      var p := s.grants[id].parent.value;
      assert SoundHop(s, p);
      ChainWithin(s, p, k - 1);
      WithinThroughParent(s, id, Up(s.grants, id, k).value);
    }
  }

  /** Attenuation along a whole chain: a grant's scopes are among those of every grant above it, of the
      token each of those was made from (the root token for the topmost) and of each delegating agent's
      allowed_scopes as read at that hop; organisation and human anchor are those of the root token. */
  lemma ChainAttenuates(s: State, id: GrantId, k: nat)
    requires Inv(s) && id in s.grants && Up(s.grants, id, k).Some?
    ensures Within(s, id, Up(s.grants, id, k).value)
  {
    forall x | x in s.grants ensures SoundHop(s, x) { HopsAreSound(s, x); }
    ChainWithin(s, id, k);
  }

  /** In every reachable state every grant heads a sound chain: as deep as its row, its token and the walk
      all say, at most the configured maximum, through depth + 1 pairwise distinct agents, with no cycle. */
  lemma ReachableChain(max: nat, events: seq<Event>, id: GrantId)
    requires id in Run(Initial(max), events).grants
    ensures var s := Run(Initial(max), events);
      && IsForest(s.grants) && NoRevisit(s.grants)
      && |Line(s.grants, id)| == s.grants[id].depth <= max
      && s.grants[id].jti in s.issued && s.issued[s.grants[id].jti].depth == s.grants[id].depth
      && (s.grants[id].active ==> Walk(s.grants, id, {id}) == Found(Line(s.grants, id)))
      && |ChainAgents(s.grants, id)| == s.grants[id].depth + 1
      && (forall i, j :: 0 <= i < j < |ChainAgents(s.grants, id)| ==> ChainAgents(s.grants, id)[i] != ChainAgents(s.grants, id)[j])
      && !DescendsFrom(s.grants, id, id)
  {
    InitialInv(max);
    RunIsLater(Initial(max), events);
    var s := Run(Initial(max), events);
    assert TokenOfGrant(s.issued, s.grants[id]);
    assert Linked(s.grants, id);
    LineFacts(s.grants, id);
    ChainAgentsDistinct(s.grants, id);
    if s.grants[id].active { WalkIsLine(s.grants, id, {id}); }
    if DescendsFrom(s.grants, id, id) {
      var k: nat :| k >= 1 && Up(s.grants, id, k) == Some(id);
      UpDepth(s.grants, id, k);
    }
  }
}
