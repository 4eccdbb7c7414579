/** When a delegation is granted, which condition refuses it, and what a granted one leaves behind, in the columns
    of the rows themselves. */
module Delegating {
  import opened Prelude
  import opened Forest
  import opened Lineage
  import opened Revocation
  import opened Authority
  import opened AuthorityInv

  // ---------- The conditions ----------

  ghost predicate KnownIn(s: State, agent: AgentId, org: OrgId) { agent in s.agents && s.agents[agent].org == org }

  ghost predicate ActiveIn(s: State, agent: AgentId) { agent in s.agents && s.agents[agent].status == Active }

  /** No grant made this token, or that grant is active. */
  ghost predicate OwnGrantActive(s: State, jti: Jti)
  {
    forall id :: id in s.grants && s.grants[id].jti == jti ==> s.grants[id].active
  }

  /** The agent delegates or is delegated to in grant `id` or one above it. */
  ghost predicate OnLine(t: Table, id: GrantId, agent: AgentId)
  {
    exists k: nat :: Up(t, id, k).Some? && Up(t, id, k).value in t
      && (t[Up(t, id, k).value].delegator == agent || t[Up(t, id, k).value].delegatee == agent)
  }

  /** The agent already takes part in the chain the token ends. */
  ghost predicate InChain(s: State, jti: Jti, agent: AgentId)
  {
    exists id :: id in s.grants && s.grants[id].jti == jti && OnLine(s.grants, id, agent)
  }

  ghost predicate MayPassOn(s: State, tok: Token, requested: seq<Scope>)
  {
    && (forall x :: x in requested ==> x in tok.scopes && tok.sub in s.agents && x in s.agents[tok.sub].allowed)
    && forall i, j :: 0 <= i < j < |requested| ==> requested[i] != requested[j]
  }

  // ---------- The line of a token ----------

  lemma RowsAre(t: Table, ids: seq<GrantId>, i: nat)
    requires (forall x :: x in ids ==> x in t) && i < |ids|
    ensures |Rows(t, ids)| == |ids| && Rows(t, ids)[i] == t[ids[i]]
    decreases |ids|
  {
    assert ids[0] in ids;
    if |ids| > 1 { RowsAre(t, ids[1..], if i > 0 then i - 1 else 0); }
  }

  lemma RowsOf(t: Table, ids: seq<GrantId>, g: Grant)
    requires forall x :: x in ids ==> x in t
    ensures g in Rows(t, ids) <==> exists i :: 0 <= i < |ids| && t[ids[i]] == g
  {
    if |ids| > 0 { RowsAre(t, ids, 0); }
    if g in Rows(t, ids) && |ids| > 0 {
      var i :| 0 <= i < |ids| && Rows(t, ids)[i] == g;
      RowsAre(t, ids, i);
    }
    if exists i :: 0 <= i < |ids| && t[ids[i]] == g {
      var i :| 0 <= i < |ids| && t[ids[i]] == g;
      RowsAre(t, ids, i);
      assert Rows(t, ids)[i] == g;
    }
  }

  /** Every grant `k` links up stands at its place in the line. */
  lemma AtPlace(t: Table, id: GrantId, k: nat)
    requires IsForest(t) && id in t && Up(t, id, k).Some?
    ensures k < |Line(t, id)| == t[id].depth && Line(t, id)[t[id].depth - 1 - k] == Up(t, id, k).value
  {
    LineFacts(t, id);
    UpDepth(t, id, k);
    assert Linked(t, Up(t, id, k).value);
    var i := t[id].depth - 1 - k;
    assert Up(t, id, t[id].depth - 1 - i) == Some(Line(t, id)[i]);
  }

  lemma ParticipantsAre(links: seq<Grant>, agent: AgentId)
    ensures agent in Participants(links) <==> exists g :: g in links && (g.delegator == agent || g.delegatee == agent)
  {
  }

  /** The agents of the rebuilt chain are those found by following links up. */
  lemma LineIsChain(t: Table, id: GrantId, agent: AgentId)
    requires IsForest(t) && id in t
    ensures forall x :: x in Line(t, id) ==> x in t
    ensures agent in Participants(Rows(t, Line(t, id))) <==> OnLine(t, id, agent)
  {
    LineFacts(t, id);
    var line := Line(t, id);
    ParticipantsAre(Rows(t, line), agent);
    if agent in Participants(Rows(t, line)) {
      var g :| g in Rows(t, line) && (g.delegator == agent || g.delegatee == agent);
      RowsOf(t, line, g);
      var i :| 0 <= i < |line| && t[line[i]] == g;
      assert Up(t, id, t[id].depth - 1 - i) == Some(line[i]);
    }
    if OnLine(t, id, agent) {
      var k: nat :| Up(t, id, k).Some? && Up(t, id, k).value in t
        && (t[Up(t, id, k).value].delegator == agent || t[Up(t, id, k).value].delegatee == agent);
      AtPlace(t, id, k);
      RowsOf(t, line, t[Up(t, id, k).value]);
      assert t[Up(t, id, k).value] in Rows(t, line);
    }
  }

  /** What reloading the presented token's chain yields, in rows. */
  ghost predicate Reloads(s: State, jti: Jti, agent: AgentId)
    requires jti in s.issued
  {
    match LoadChain(s.grants, jti)
    case Rejected(why) => why == OwnGrantRevoked && !OwnGrantActive(s, jti)
    case Chain(links, parent) =>
      && OwnGrantActive(s, jti) && |links| == s.issued[jti].depth
      && (agent in Participants(links) <==> InChain(s, jti, agent))
      && (parent.None? ==> links == [] && forall id :: id in s.grants ==> s.grants[id].jti != jti)
      && (parent.Some? ==> parent.value in s.grants && s.grants[parent.value].jti == jti && InChain(s, jti, s.issued[jti].sub))
  }

  lemma Reloaded(s: State, jti: Jti, agent: AgentId)
    requires Inv(s) && jti in s.issued
    ensures Reloads(s, jti, agent)
  {
    LoadChainExact(s, jti);
    var h := Holder(s.grants, jti);
    if h.None? {
      assert forall id :: id in s.grants && s.grants[id].jti == jti ==> HasJti(s.grants, id, jti);
    } else {
      var id := h.value;
      OnlyHolder(s, jti, id);
      LineIsChain(s.grants, id, agent);
      assert Up(s.grants, id, 0) == Some(id);
      assert OnLine(s.grants, id, s.grants[id].delegatee);
    }
  }

  lemma OnlyHolder(s: State, jti: Jti, id: GrantId)
    requires UniqueJtis(s.grants) && id in s.grants && s.grants[id].jti == jti
    ensures OwnGrantActive(s, jti) <==> s.grants[id].active
    ensures forall agent :: InChain(s, jti, agent) <==> OnLine(s.grants, id, agent)
  {
  }

  // ---------- The decision ----------

  /** The agents are in order. */
  ghost predicate AgentsFit(s: State, tok: Token, delegatee: AgentId)
  {
    KnownIn(s, tok.sub, tok.org) && KnownIn(s, delegatee, tok.org) && ActiveIn(s, delegatee)
  }

  /** Refusals that concern the two agents, in the order they are checked. */
  lemma AgentRefusals(s: State, presented: Jti, delegatee: AgentId, requested: seq<Scope>)
    requires presented in s.issued && Reloads(s, presented, delegatee)
    ensures var tok, d := s.issued[presented], Decide(s, presented, delegatee, requested);
      && (d == Denies(DelegatorNotFound) <==> !KnownIn(s, tok.sub, tok.org))
      && (d == Denies(DelegateeNotFound) <==> KnownIn(s, tok.sub, tok.org) && !KnownIn(s, delegatee, tok.org))
      && (d == Denies(DelegateeNotActive) <==>
            KnownIn(s, tok.sub, tok.org) && KnownIn(s, delegatee, tok.org) && !ActiveIn(s, delegatee))
  {
  }

  /** Refusals that concern the chain, the agents being in order. */
  lemma ChainRefusals(s: State, presented: Jti, delegatee: AgentId, requested: seq<Scope>)
    requires presented in s.issued && Reloads(s, presented, delegatee) && AgentsFit(s, s.issued[presented], delegatee)
    ensures var tok, d := s.issued[presented], Decide(s, presented, delegatee, requested);
      && (d == Denies(OwnGrantRevoked) <==> !OwnGrantActive(s, presented))
      && (d == Denies(DepthExceeded) <==> OwnGrantActive(s, presented) && tok.depth >= s.maxDepth)
      && (d == Denies(CycleDetected) <==>
            OwnGrantActive(s, presented) && tok.depth < s.maxDepth && InChain(s, presented, delegatee))
      && (d == Denies(SelfDelegation) <==>
            OwnGrantActive(s, presented) && tok.depth < s.maxDepth && !InChain(s, presented, delegatee) && delegatee == tok.sub)
  {
  }

  /** The last refusal, and the grant. */
  lemma ScopeRefusal(s: State, presented: Jti, delegatee: AgentId, requested: seq<Scope>)
    requires presented in s.issued && Reloads(s, presented, delegatee) && AgentsFit(s, s.issued[presented], delegatee)
    requires OwnGrantActive(s, presented) && s.issued[presented].depth < s.maxDepth
    requires !InChain(s, presented, delegatee) && delegatee != s.issued[presented].sub
    ensures var tok, d := s.issued[presented], Decide(s, presented, delegatee, requested);
      && (d == Denies(ScopesExceeded) <==> !MayPassOn(s, tok, requested))
      && (d.Grants? <==> MayPassOn(s, tok, requested))
  {
    var tok := s.issued[presented];
    ScopeSubsetExact(requested, tok.scopes * s.agents[tok.sub].allowed);
  }

  /** Which condition refuses: each refusal, in rows, is the first of the conditions that fails. Nothing else ever
      refuses a delegation. */
  lemma RefusedExactly(s: State, presented: Jti, delegatee: AgentId, requested: seq<Scope>)
    requires Inv(s) && presented in s.issued
    ensures var tok, d := s.issued[presented], Decide(s, presented, delegatee, requested);
      if !KnownIn(s, tok.sub, tok.org) then d == Denies(DelegatorNotFound)
      else if !KnownIn(s, delegatee, tok.org) then d == Denies(DelegateeNotFound)
      else if s.agents[delegatee].status != Active then d == Denies(DelegateeNotActive)
      else if !OwnGrantActive(s, presented) then d == Denies(OwnGrantRevoked)
      else if tok.depth >= s.maxDepth then d == Denies(DepthExceeded)
      else if InChain(s, presented, delegatee) then d == Denies(CycleDetected)
      else if delegatee == tok.sub then d == Denies(SelfDelegation)
      else if !MayPassOn(s, tok, requested) then d == Denies(ScopesExceeded)
      else d.Grants?
  {
    Reloaded(s, presented, delegatee);
    AgentRefusals(s, presented, delegatee, requested);
    if AgentsFit(s, s.issued[presented], delegatee) {
      ChainRefusals(s, presented, delegatee, requested);
      if OwnGrantActive(s, presented) && s.issued[presented].depth < s.maxDepth
         && !InChain(s, presented, delegatee) && delegatee != s.issued[presented].sub
      {
        ScopeRefusal(s, presented, delegatee, requested);
      }
    }
  }

  /** A delegation is granted exactly when: the delegator is known in the token's organisation; the delegatee is
      known there and active; the presented token's own grant, if it has one, is active; the token is not at the
      maximum depth; the delegatee is neither in the token's chain nor the delegator; and every requested scope is
      in the token and in the delegator's allowed scopes, none repeated. */
  lemma GrantedExactly(s: State, presented: Jti, delegatee: AgentId, requested: seq<Scope>)
    requires Inv(s) && presented in s.issued
    ensures var tok := s.issued[presented];
      Decide(s, presented, delegatee, requested).Grants? <==>
        && tok.sub in s.agents && s.agents[tok.sub].org == tok.org
        && delegatee in s.agents && s.agents[delegatee].org == tok.org && s.agents[delegatee].status == Active
        && (forall id :: id in s.grants && s.grants[id].jti == presented ==> s.grants[id].active)
        && tok.depth < s.maxDepth
        && !InChain(s, presented, delegatee) && delegatee != tok.sub
        && (forall x :: x in requested ==> x in tok.scopes && x in s.agents[tok.sub].allowed)
        && (forall i, j :: 0 <= i < j < |requested| ==> requested[i] != requested[j])
  {
    RefusedExactly(s, presented, delegatee, requested);
  }

  // ---------- What a granted delegation leaves behind ----------

  lemma AddedRow(s: State, presented: Jti, delegatee: AgentId, d: Decision, gid: GrantId, jti: Jti)
    requires presented in s.issued && s.issued[presented].sub in s.agents && d.Grants? && gid !in s.grants
    ensures var s', tok := AddGrant(s, presented, delegatee, d, gid, jti), s.issued[presented];
      && gid in s'.grants && s'.grants - {gid} == s.grants
      && s'.grants[gid] == Grant(tok.org, tok.sub, delegatee, d.scopes, |d.links| + 1, jti, d.parent, s.now / 1000 + 600, true, None)
  {
  }

  lemma GrantedParent(s: State, presented: Jti, delegatee: AgentId, requested: seq<Scope>)
    requires Inv(s) && presented in s.issued && Decide(s, presented, delegatee, requested).Grants?
    ensures var d, tok := Decide(s, presented, delegatee, requested), s.issued[presented];
      && tok.sub in s.agents && d.scopes == (set x | x in requested) && |d.links| == tok.depth
      && match d.parent
         case None => forall id :: id in s.grants ==> s.grants[id].jti != presented
         case Some(p) => p in s.grants && s.grants[p].jti == presented
  {
    Reloaded(s, presented, delegatee);
    ApprovedScopes(s, presented, delegatee, requested);
  }

  lemma GrantedRow(s: State, presented: Jti, delegatee: AgentId, requested: seq<Scope>, gid: GrantId, jti: Jti)
    requires Inv(s) && Enabled(s, Delegate(presented, delegatee, requested, gid, jti))
    ensures var s', tok := Apply(s, Delegate(presented, delegatee, requested, gid, jti)), s.issued[presented];
      && gid in s'.grants && s'.grants - {gid} == s.grants
      && var row := s'.grants[gid];
         && row.org == tok.org && row.delegator == tok.sub && row.delegatee == delegatee
         && row.scopes == (set x | x in requested) && row.depth == tok.depth + 1 && row.jti == jti
         && row.expiresAt == s.now / 1000 + 600 && row.active && row.revokedAt == None
         && (match row.parent
             case None => forall id :: id in s.grants ==> s.grants[id].jti != presented
             case Some(p) => p in s.grants && s.grants[p].jti == presented)
  {
    GrantedParent(s, presented, delegatee, requested);
    AddedRow(s, presented, delegatee, Decide(s, presented, delegatee, requested), gid, jti);
  }

  lemma GrantedToken(s: State, presented: Jti, delegatee: AgentId, requested: seq<Scope>, gid: GrantId, jti: Jti)
    requires Inv(s) && Enabled(s, Delegate(presented, delegatee, requested, gid, jti))
    ensures var s', tok := Apply(s, Delegate(presented, delegatee, requested, gid, jti)), s.issued[presented];
      && jti in s'.issued && s'.issued - {jti} == s.issued
      && s'.agents == s.agents && s'.now == s.now && s'.redis.revoked == s.redis.revoked
      && var leaf := s'.issued[jti];
         && leaf.sub == delegatee && leaf.org == tok.org && leaf.scopes == (set x | x in requested)
         && leaf.depth == tok.depth + 1 && leaf.exp == s.now / 1000 + 600 && leaf.onBehalfOf == tok.onBehalfOf
         && leaf.target == Target(None, None)
  {
    ApprovedHop(s, presented, delegatee, requested);
    KnownScopesOf(s.issued[presented].scopes, set x | x in requested);
  }
}
