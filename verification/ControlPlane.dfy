/** Keys, authorization codes and tokens together: the services as steps of one joint world. Each joint step is at
    most one step of the token world, one of the key world and one of the code world, so what holds of their runs
    holds here; and it is the only way a token comes to be. */
module ControlPlane {
  import opened Prelude
  import opened Revocation
  import A = Authority
  import AI = AuthorityInv
  import F = Forest
  import G = Guarantees
  import K = ApiKeys
  import O = OAuth
  import C = Confinement
  import Proxy
  import TokenExchange

  /** `s256` is the PKCE transformation. */
  datatype Plane = Plane(auth: A.State, keys: K.World, oauth: O.World, s256: string -> string)

  datatype Event =
    | Tick(ms: nat)
    | SetAgent(agent: string, row: Agent, bindings: seq<Proxy.Binding>)
    | KeyEvent(k: K.Event)
    | CodeEvent(o: O.Event)
    | TokenEvent(a: A.Event)
    | RevokeKey(id: K.KeyId, org: string)
    | Exchange(presented: string, jti: Jti, intent: Option<(string, string)>, obo: Option<string>)
    | Redeem(exchange: int, jti: Jti, obo: Option<string>)
    | Suspend(agent: string, org: string)
    | Decommission(agent: string, org: string, order: seq<K.KeyId>)

  /** Events that concern keys alone: issuing, rotating, verifying without exchanging. */
  predicate KeysAlone(k: K.Event) { k.Issue? || k.Rotate? || k.Present? }

  /** Events that concern codes alone: registering clients, authorizing, taking a code. */
  predicate CodesAlone(o: O.Event) { o.SetClient? || o.Authorize? || o.Take? }

  /** Events that concern tokens alone: delegating, revoking a grant. */
  predicate TokensAlone(a: A.Event) { a.Delegate? || a.RevokeGrant? }

  function Answer(p: Plane, presented: string): K.Outcome { K.Verify(p.keys.keys, presented, None, [], p.keys.now) }

  /** The agent's own mcp_bindings, which an intent is checked against. */
  function Bindings(p: Plane, agent: string): seq<Proxy.Binding>
  {
    if agent in p.oauth.agents then p.oauth.agents[agent].bindings else []
  }

  /** The mint an exchange leads to, if the key is accepted and the intent allows it. */
  function Minting(p: Plane, e: Event): Option<A.Event>
    requires e.Exchange?
  {
    var o := Answer(p, e.presented);
    if o.Accepted? && o.id in p.keys.keys
      && TokenExchange.Scope(Bindings(p, p.keys.keys[o.id].agent), p.keys.keys[o.id].scopes, e.intent).Minted?
    then Some(A.Mint(e.jti, C.ExchangeRequest(p.keys.keys[o.id].agent, o.id, p.keys.keys[o.id].scopes, e.intent, e.obo)))
    else None
  }

  /** How an exchange of an accepted key is scoped. */
  function Scoping(p: Plane, presented: string, intent: Option<(string, string)>): TokenExchange.Exchange
  {
    var o := Answer(p, presented);
    if o.Accepted? && o.id in p.keys.keys
    then TokenExchange.Scope(Bindings(p, p.keys.keys[o.id].agent), p.keys.keys[o.id].scopes, intent)
    else TokenExchange.InvalidIntent
  }

  /** The mint a taken code leads to, if its checks pass. */
  function Redeeming(p: Plane, e: Event): Option<A.Event>
    requires e.Redeem?
  {
    if e.jti !in p.auth.issued && e.exchange in p.oauth.taken && O.CanMint(p.oauth, p.oauth.taken[e.exchange], p.s256)
    then Some(A.Mint(e.jti, C.CodeRequest(p.oauth.taken[e.exchange].data, e.obo)))
    else None
  }

  /** `order` lists the agent's active keys, in whatever order the database returns them. */
  predicate ListsActive(p: Plane, agent: string, order: seq<K.KeyId>)
  {
    (set k | k in order) == K.ActiveOf(p.keys.keys, agent)
  }

  predicate CanSuspend(p: Plane, agent: string, org: string)
  {
    agent in p.auth.agents && p.auth.agents[agent].org == org && p.auth.agents[agent].status != Decommissioned
  }

  predicate CanSet(p: Plane, agent: string, row: Agent) { agent in p.auth.agents ==> row.org == p.auth.agents[agent].org }

  function OnTokens(p: Plane, e: Event): Option<A.Event>
  {
    match e
    case Tick(ms) => Some(A.Tick(ms))
    case SetAgent(agent, row, _) => Some(A.SetAgent(agent, row))
    case KeyEvent(_) => None
    case CodeEvent(_) => None
    case TokenEvent(a) => if TokensAlone(a) then Some(a) else None
    case RevokeKey(id, org) => if id in p.keys.keys && p.keys.keys[id].org == org then Some(A.RevokeKey(id)) else None
    case Exchange(_, _, _, _) => Minting(p, e)
    case Redeem(_, _, _) => Redeeming(p, e)
    case Suspend(agent, org) => Some(A.Suspend(agent, org))
    case Decommission(agent, org, order) => if ListsActive(p, agent, order) then Some(A.Decommission(agent, org, order)) else None
  }

  function OnKeys(p: Plane, e: Event): Option<K.Event>
  {
    match e
    case Tick(ms) => Some(K.Tick(p.keys.now + ms))
    case SetAgent(agent, row, _) => if CanSet(p, agent, row) then Some(K.SetAgent(agent, row)) else None
    case KeyEvent(k) => if KeysAlone(k) then Some(k) else None
    case CodeEvent(_) => None
    case TokenEvent(_) => None
    case RevokeKey(id, org) => Some(K.Revoke(id, org))
    case Exchange(presented, _, _, _) => Some(K.Present(presented, None, []))
    case Redeem(_, _, _) => None
    case Suspend(agent, org) =>
      if CanSuspend(p, agent, org) then Some(K.SetAgent(agent, p.auth.agents[agent].(status := Suspended))) else None
    case Decommission(agent, org, order) => if ListsActive(p, agent, order) then Some(K.Decommission(agent, org)) else None
  }

  function OnCodes(p: Plane, e: Event): Option<O.Event>
  {
    match e
    case Tick(ms) => Some(O.Tick(p.oauth.now + ms))
    case SetAgent(agent, row, bindings) => if CanSet(p, agent, row) then Some(O.SetAgent(agent, O.BoundAgent(row, bindings))) else None
    case CodeEvent(o) => if CodesAlone(o) then Some(o) else None
    case Redeem(exchange, jti, _) => if jti in p.auth.issued then None else Some(O.Finish(exchange))
    case Suspend(agent, org) => if CanSuspend(p, agent, org) then Some(StatusInCodes(p, agent, Suspended)) else None
    case Decommission(agent, org, order) =>
      if CanSuspend(p, agent, org) && ListsActive(p, agent, order) then Some(StatusInCodes(p, agent, Decommissioned)) else None
    case _ => None
  }

  function StatusInCodes(p: Plane, agent: string, status: AgentStatus): O.Event
    requires agent in p.auth.agents
  {
    O.SetAgent(agent, O.BoundAgent(p.auth.agents[agent].(status := status), Bindings(p, agent)))
  }

  ghost function ApplyTokens(s: A.State, e: Option<A.Event>): A.State { if e.Some? then A.Apply(s, e.value) else s }

  function ApplyKeys(w: K.World, e: Option<K.Event>): K.World { if e.Some? then K.Apply(w, e.value) else w }

  function ApplyCodes(w: O.World, e: Option<O.Event>, s256: string -> string): O.World
  {
    if e.Some? then O.Apply(w, e.value, s256) else w
  }

  ghost function Apply(p: Plane, e: Event): Plane
  {
    Plane(ApplyTokens(p.auth, OnTokens(p, e)), ApplyKeys(p.keys, OnKeys(p, e)), ApplyCodes(p.oauth, OnCodes(p, e), p.s256), p.s256)
  }

  ghost function Run(p: Plane, events: seq<Event>): Plane
  {
    if events == [] then p else Apply(Run(p, events[..|events| - 1]), events[|events| - 1])
  }

  function Initial(max: nat, s256: string -> string): Plane { Plane(A.Initial(max), K.Empty, O.Run([], s256), s256) }

  // ---------- Joint runs are runs of each part ----------

  lemma TokenRunSnoc(s: A.State, events: seq<A.Event>, e: A.Event)
    ensures A.Run(s, events + [e]) == A.Apply(A.Run(s, events), e)
  {
    assert (events + [e])[..|events|] == events;
  }

  lemma KeyRunSnoc(w: K.World, events: seq<K.Event>, e: K.Event)
    ensures K.Run(w, events + [e]) == K.Apply(K.Run(w, events), e)
  {
    assert (events + [e])[..|events|] == events;
  }

  lemma {:induction false} Projects(p: Plane, events: seq<Event>) returns (tokens: seq<A.Event>, keys: seq<K.Event>)
    ensures Run(p, events).auth == A.Run(p.auth, tokens) && Run(p, events).keys == K.Run(p.keys, keys)
  {
    if events == [] {
      tokens, keys := [], [];
    } else {
      var e := events[|events| - 1];
      tokens, keys := Projects(p, events[..|events| - 1]);
      var mid := Run(p, events[..|events| - 1]);
      if OnTokens(mid, e).Some? {
        TokenRunSnoc(p.auth, tokens, OnTokens(mid, e).value);
        tokens := tokens + [OnTokens(mid, e).value];
      }
      if OnKeys(mid, e).Some? {
        KeyRunSnoc(p.keys, keys, OnKeys(mid, e).value);
        keys := keys + [OnKeys(mid, e).value];
      }
    }
  }

  lemma CodeRunSnoc(events: seq<O.Event>, e: O.Event, s256: string -> string)
    ensures O.Run(events + [e], s256) == O.Apply(O.Run(events, s256), e, s256)
  {
    assert (events + [e])[..|events|] == events;
  }

  lemma {:induction false} ProjectsCodes(max: nat, s256: string -> string, events: seq<Event>) returns (codes: seq<O.Event>)
    ensures Run(Initial(max, s256), events).s256 == s256
    ensures Run(Initial(max, s256), events).oauth == O.Run(codes, s256)
  {
    if events == [] {
      codes := [];
    } else {
      var mid, e := Run(Initial(max, s256), events[..|events| - 1]), events[|events| - 1];
      codes := ProjectsCodes(max, s256, events[..|events| - 1]);
      if OnCodes(mid, e).Some? {
        CodeRunSnoc(codes, OnCodes(mid, e).value, s256);
        codes := codes + [OnCodes(mid, e).value];
      }
    }
  }

  /** Both parts keep their own invariants, tokens never lose what they had, and key rows only retire. */
  lemma PartsKeep(p: Plane, events: seq<Event>)
    requires AI.Inv(p.auth) && K.Inv(p.keys)
    ensures AI.Inv(Run(p, events).auth) && K.Inv(Run(p, events).keys)
    ensures G.Later(p.auth, Run(p, events).auth) && K.Follows(p.keys.keys, Run(p, events).keys.keys)
  {
    var tokens, keys := Projects(p, events);
    G.RunIsLater(p.auth, tokens);
    K.RunKeepsInv(p.keys, keys);
    K.RunFollows(p.keys, keys);
  }

  // ---------- What ties the parts together ----------

  /** The code world's agents are the others', with their bindings. */
  ghost predicate SameAgents(agents: map<string, Agent>, bound: map<string, O.BoundAgent>)
  {
    bound.Keys == agents.Keys && forall a :: a in agents ==> bound[a].agent == agents[a]
  }

  /** One clock and one table of agents. */
  ghost predicate Synced(p: Plane)
  {
    && p.auth.now == p.keys.now == p.oauth.now
    && p.auth.agents == p.keys.agents && SameAgents(p.auth.agents, p.oauth.agents)
  }

  /** A code for a scope that must be task-scoped names a tool. */
  ghost predicate Scoped(d: O.CodeData) { TASK_SCOPED in d.scopes ==> d.tool.Some? }

  ghost predicate CodesScoped(w: O.World)
  {
    (forall c :: c in w.codes ==> Scoped(w.codes[c].data)) && forall i :: i in w.taken ==> Scoped(w.taken[i].data)
  }

  /** A key belongs to an agent of its own organisation. */
  ghost predicate Owned(agents: map<string, Agent>, keys: K.Keys)
  {
    forall k :: k in keys ==> keys[k].agent in agents && agents[keys[k].agent].org == keys[k].org
  }

  /** A token tracked under a key acts for the key's agent, in its organisation, with its scopes. */
  ghost predicate FromKey(tok: A.Token, k: K.Key)
  {
    tok.sub == k.agent && tok.org == k.org && tok.scopes == A.KnownScopes(C.ScopeSet(k.scopes)) && tok.depth == 0
  }

  ghost predicate TrackedUnder(s: A.State, j: Jti, k: K.KeyId) { j in s.tracked && KeyIndex(k) in s.tracked[j] }

  ghost predicate Tied(s: A.State, keys: K.Keys)
  {
    && s.tracked.Keys <= s.issued.Keys
    && forall j, k :: TrackedUnder(s, j, k) ==> k in keys && FromKey(s.issued[j], keys[k])
  }

  ghost predicate Joined(p: Plane)
  {
    Synced(p) && Owned(p.auth.agents, p.keys.keys) && Tied(p.auth, p.keys.keys) && CodesScoped(p.oauth)
  }

  lemma TokensAloneKeepAgents(s: A.State, a: A.Event)
    requires a.Mint? || a.Delegate? || a.RevokeGrant? || a.RevokeKey?
    ensures A.Apply(s, a).now == s.now && A.Apply(s, a).agents == s.agents
  {
  }

  lemma KeysAloneKeepAgents(w: K.World, k: K.Event)
    requires k.Issue? || k.Rotate? || k.Present? || k.Revoke?
    ensures K.Apply(w, k).now == w.now && K.Apply(w, k).agents == w.agents
  {
  }

  lemma CodesAloneKeepAgents(w: O.World, o: O.Event, s256: string -> string)
    requires CodesAlone(o) || o.Finish?
    ensures O.Apply(w, o, s256).now == w.now && O.Apply(w, o, s256).agents == w.agents
  {
  }

  lemma StatusesAgree(p: Plane, e: Event)
    requires Synced(p) && (e.Suspend? || e.Decommission?)
    ensures Synced(Apply(p, e))
  {
  }

  lemma RowsAgree(p: Plane, e: Event)
    requires Synced(p) && (e.SetAgent? || e.Tick?)
    ensures Synced(Apply(p, e))
  {
  }

  lemma SyncStays(p: Plane, e: Event)
    requires Synced(p)
    ensures Synced(Apply(p, e))
  {
    if e.Suspend? || e.Decommission? {
      StatusesAgree(p, e);
    } else if e.SetAgent? || e.Tick? {
      RowsAgree(p, e);
    } else {
      if OnTokens(p, e).Some? { TokensAloneKeepAgents(p.auth, OnTokens(p, e).value); }
      if OnKeys(p, e).Some? { KeysAloneKeepAgents(p.keys, OnKeys(p, e).value); }
      if OnCodes(p, e).Some? { CodesAloneKeepAgents(p.oauth, OnCodes(p, e).value, p.s256); }
    }
  }

  lemma ScopedStays(w: O.World, o: O.Event, s256: string -> string)
    requires CodesScoped(w)
    ensures CodesScoped(O.Apply(w, o, s256))
  {
    if o.Authorize? { O.DecisionsAreBacked(w.clients, w.agents, o.request); }
  }

  /** The agents keep their organisations. */
  ghost predicate SameOrgs(before: map<string, Agent>, after: map<string, Agent>)
  {
    forall a :: a in before ==> a in after && after[a].org == before[a].org
  }

  lemma OrgsStay(s: A.State, e: A.Event)
    ensures SameOrgs(s.agents, A.Apply(s, e).agents)
  {
  }

  lemma OwnedStays(p: Plane, e: Event)
    requires Synced(p) && Owned(p.auth.agents, p.keys.keys)
    ensures Owned(Apply(p, e).auth.agents, Apply(p, e).keys.keys)
  {
    if OnTokens(p, e).Some? { OrgsStay(p.auth, OnTokens(p, e).value); }
    if OnKeys(p, e).Some? { KeyOwners(p.keys, OnKeys(p, e).value); }
  }

  lemma KeyOwners(w: K.World, e: K.Event)
    requires Owned(w.agents, w.keys)
    ensures Owned(w.agents, K.Apply(w, e).keys)
  {
    if !e.Issue? && !e.Rotate? { K.RowsOnlyChangeSo(w, e); }
  }

  /** What tracks a token under a key afterwards: it did before and is the same token, or it was just minted. */
  ghost predicate TrackedFrom(s: A.State, e: A.Event, s': A.State, j: Jti, k: K.KeyId)
  {
    || (TrackedUnder(s, j, k) && j in s.issued && j in s'.issued && s'.issued[j] == s.issued[j])
    || (e.Mint? && A.Enabled(s, e) && j == e.jti && e.request.key == Some(k) && j in s'.issued && s'.issued[j] == A.AccessToken(s, e.request))
  }

  lemma MintTracking(s: A.State, e: A.Event, j: Jti, k: K.KeyId)
    requires s.tracked.Keys <= s.issued.Keys && e.Mint? && A.Enabled(s, e) && TrackedUnder(A.Apply(s, e), j, k)
    ensures TrackedFrom(s, e, A.Apply(s, e), j, k)
  {
  }

  lemma GrantTracking(s: A.State, e: A.Event, j: Jti, k: K.KeyId)
    requires s.tracked.Keys <= s.issued.Keys && e.Delegate? && A.Enabled(s, e) && TrackedUnder(A.Apply(s, e), j, k)
    ensures TrackedFrom(s, e, A.Apply(s, e), j, k)
  {
  }

  lemma OtherTracking(s: A.State, e: A.Event)
    requires !A.Enabled(s, e) || !(e.Mint? || e.Delegate?)
    ensures A.Apply(s, e).tracked == s.tracked && A.Apply(s, e).issued == s.issued
  {
  }

  /** Tracking under keys changes only by minting for one. */
  lemma TrackingChanges(s: A.State, e: A.Event)
    requires s.tracked.Keys <= s.issued.Keys
    ensures A.Apply(s, e).tracked.Keys <= A.Apply(s, e).issued.Keys
    ensures forall j, k :: TrackedUnder(A.Apply(s, e), j, k) ==> TrackedFrom(s, e, A.Apply(s, e), j, k)
  {
    if !A.Enabled(s, e) || !(e.Mint? || e.Delegate?) {
      OtherTracking(s, e);
    } else {
      forall j, k | TrackedUnder(A.Apply(s, e), j, k) ensures TrackedFrom(s, e, A.Apply(s, e), j, k) {
        if e.Mint? { MintTracking(s, e, j, k); } else { GrantTracking(s, e, j, k); }
      }
    }
  }

  /** Only an exchange mints for a key, and then for the key it accepted. */
  lemma MintedForKey(p: Plane, e: Event, k: K.KeyId)
    requires Synced(p) && Owned(p.auth.agents, p.keys.keys) && OnTokens(p, e).Some?
    requires OnTokens(p, e).value.Mint? && A.Enabled(p.auth, OnTokens(p, e).value) && OnTokens(p, e).value.request.key == Some(k)
    ensures k in p.keys.keys && FromKey(A.AccessToken(p.auth, OnTokens(p, e).value.request), p.keys.keys[k])
  {
    assert e.Exchange? && Answer(p, e.presented).id == k;
  }

  lemma PairStays(p: Plane, e: Event, j: Jti, k: K.KeyId)
    requires Synced(p) && Owned(p.auth.agents, p.keys.keys) && Tied(p.auth, p.keys.keys) && OnTokens(p, e).Some?
    requires TrackedFrom(p.auth, OnTokens(p, e).value, Apply(p, e).auth, j, k)
    ensures k in p.keys.keys && FromKey(Apply(p, e).auth.issued[j], p.keys.keys[k])
  {
    var a := OnTokens(p, e).value;
    if a.Mint? && A.Enabled(p.auth, a) && a.request.key == Some(k) { MintedForKey(p, e, k); }
  }

  lemma TiedStays(p: Plane, e: Event)
    requires Synced(p) && Owned(p.auth.agents, p.keys.keys) && Tied(p.auth, p.keys.keys)
    ensures Tied(Apply(p, e).auth, Apply(p, e).keys.keys)
  {
    var p' := Apply(p, e);
    KeysFollow(p, e);
    if OnTokens(p, e).Some? {
      TrackingChanges(p.auth, OnTokens(p, e).value);
      forall j, k | TrackedUnder(p'.auth, j, k) ensures k in p'.keys.keys && FromKey(p'.auth.issued[j], p'.keys.keys[k]) {
        PairStays(p, e, j, k);
      }
    }
  }

  lemma KeysFollow(p: Plane, e: Event)
    ensures K.Follows(p.keys.keys, Apply(p, e).keys.keys)
  {
    if OnKeys(p, e).Some? { K.StepFollows(p.keys, OnKeys(p, e).value); }
  }

  lemma StepKeepsJoined(p: Plane, e: Event)
    requires Joined(p)
    ensures Joined(Apply(p, e))
  {
    SyncStays(p, e);
    OwnedStays(p, e);
    TiedStays(p, e);
    if OnCodes(p, e).Some? { ScopedStays(p.oauth, OnCodes(p, e).value, p.s256); }
  }

  lemma {:induction false} JoinedStays(p: Plane, events: seq<Event>)
    requires Joined(p)
    ensures Joined(Run(p, events))
  {
    if events != [] {
      JoinedStays(p, events[..|events| - 1]);
      StepKeepsJoined(Run(p, events[..|events| - 1]), events[|events| - 1]);
    }
  }

  /** In every joint run the worlds share clock and agents, every exchanged token acts exactly as the key it came
      from, and every code that must name a tool does. */
  lemma RunKeepsJoined(max: nat, s256: string -> string, events: seq<Event>)
    ensures Joined(Run(Initial(max, s256), events))
  {
    JoinedStays(Initial(max, s256), events);
  }

  /** Everything a joint run keeps. */
  ghost predicate Sound(p: Plane) { Joined(p) && AI.Inv(p.auth) && K.Inv(p.keys) }

  lemma StepKeepsSound(p: Plane, e: Event)
    requires Sound(p)
    ensures Sound(Apply(p, e))
  {
    StepKeepsJoined(p, e);
    if OnTokens(p, e).Some? { AI.StepKeepsInv(p.auth, OnTokens(p, e).value); }
    if OnKeys(p, e).Some? { K.StepKeepsInv(p.keys, OnKeys(p, e).value); }
  }

  lemma ExchangeIsSound(p: Plane, e: Event)
    requires Sound(p) && e.Exchange? && e.jti !in p.auth.issued
    ensures Sound(Apply(p, e))
    ensures Minting(p, e).Some? ==>
      Scoping(p, e.presented, e.intent).Minted? && Carries(Apply(p, e).auth, e.jti, Scoping(p, e.presented, e.intent).claims)
  {
    StepKeepsSound(p, e);
    if Minting(p, e).Some? { ExchangeCarries(p, e); }
  }

  lemma InvariantsHold(max: nat, s256: string -> string, events: seq<Event>)
    ensures Sound(Run(Initial(max, s256), events))
  {
    RunKeepsJoined(max, s256, events);
    AI.InitialInv(max);
    PartsKeep(Initial(max, s256), events);
  }

  // ---------- What mints ----------

  /** An accepted key's owner is known, and the mint an exchange leads to is not refused. */
  lemma ExchangeMints(p: Plane, e: Event)
    requires Joined(p) && e.Exchange? && e.jti !in p.auth.issued
    ensures var o := Answer(p, e.presented);
      o.Accepted? ==> o.id in p.keys.keys && p.keys.keys[o.id].agent in p.auth.agents
    ensures Minting(p, e).Some? ==>
      var q := Minting(p, e).value.request;
      && A.Enabled(p.auth, A.Mint(e.jti, q))
      && var tok := A.AccessToken(p.auth, q);
         var k := p.keys.keys[Answer(p, e.presented).id];
         var x := TokenExchange.Scope(Bindings(p, k.agent), k.scopes, e.intent);
         C.ProxyClaims(tok, x.claims.scopes) == x.claims && C.ScopeSet(x.claims.scopes) == tok.scopes
  {
    AcceptedIsActive(p, e.presented);
    var o := Answer(p, e.presented);
    if o.Accepted? {
      var k := p.keys.keys[o.id];
      C.ExchangeTokenCarriesClaims(p.auth, e.jti, k.agent, o.id, Bindings(p, k.agent), k.scopes, e.intent, e.obo);
    }
  }

  /** The token's row carries exactly these claims. */
  ghost predicate Carries(s: A.State, jti: Jti, claims: Proxy.Claims)
  {
    jti in s.issued && C.ProxyClaims(s.issued[jti], claims.scopes) == claims && C.ScopeSet(claims.scopes) == s.issued[jti].scopes
  }

  lemma ExchangeCarries(p: Plane, e: Event)
    requires Joined(p) && e.Exchange? && e.jti !in p.auth.issued && Minting(p, e).Some?
    ensures Scoping(p, e.presented, e.intent).Minted? && Carries(Apply(p, e).auth, e.jti, Scoping(p, e.presented, e.intent).claims)
  {
    ExchangeMints(p, e);
  }

  /** Nor is the mint a taken code leads to. */
  lemma RedeemMints(p: Plane, e: Event)
    requires Joined(p) && e.Redeem? && Redeeming(p, e).Some?
    ensures A.Enabled(p.auth, Redeeming(p, e).value)
  {
    assert Scoped(p.oauth.taken[e.exchange].data);
    if TASK_SCOPED in C.ScopeSet(p.oauth.taken[e.exchange].data.scopes) {
      assert p.oauth.taken[e.exchange].data.tool.Some?;
    }
  }

  // ---------- A retired key yields no token ----------

  /** The key is inactive and every token tracked under it is one of `known`. */
  ghost predicate Quiet(p: Plane, k: K.KeyId, known: set<Jti>)
  {
    && k in p.keys.keys && !p.keys.keys[k].active
    && p.auth.tracked.Keys <= p.auth.issued.Keys
    && forall j :: TrackedUnder(p.auth, j, k) ==> j in known
  }

  lemma QuietStep(p: Plane, e: Event, k: K.KeyId, known: set<Jti>)
    requires Quiet(p, k, known)
    ensures Quiet(Apply(p, e), k, known)
  {
    KeysFollow(p, e);
    if OnTokens(p, e).Some? { TrackingChanges(p.auth, OnTokens(p, e).value); }
    if e.Exchange? { AcceptedIsActive(p, e.presented); }
  }

  lemma AcceptedIsActive(p: Plane, presented: string)
    ensures var o := Answer(p, presented); o.Accepted? ==> o.id in p.keys.keys && p.keys.keys[o.id].active
  {
  }

  lemma {:induction false} QuietRun(p: Plane, events: seq<Event>, k: K.KeyId, known: set<Jti>)
    requires Quiet(p, k, known)
    ensures Quiet(Run(p, events), k, known)
  {
    if events != [] {
      QuietRun(p, events[..|events| - 1], k, known);
      QuietStep(Run(p, events[..|events| - 1]), events[|events| - 1], k, known);
    }
  }

  /** Once ended, tokens stay rejected through every joint run. */
  lemma StaysRejected(p: Plane, events: seq<Event>, j: Jti)
    requires AI.Inv(p.auth) && K.Inv(p.keys) && G.Ended(p.auth, j)
    ensures G.Rejected(Run(p, events).auth, j)
  {
    var tokens, keys := Projects(p, events);
    G.StaysRejected(p.auth, tokens, j);
  }

  /** A token exchanged from a key is a minted one, so once ended it is never accepted again. */
  lemma KeyTokenIsMinted(p: Plane, j: Jti, k: K.KeyId)
    requires Joined(p) && TrackedUnder(p.auth, j, k) && G.Rejected(p.auth, j)
    ensures !A.Accepts(p.auth, j)
  {
    assert FromKey(p.auth.issued[j], p.keys.keys[k]);
  }

  lemma RevokedKeyIsQuiet(p: Plane, id: K.KeyId)
    requires Joined(p) && AI.Inv(p.auth) && id in p.keys.keys
    ensures var p' := Apply(p, RevokeKey(id, p.keys.keys[id].org));
      && Quiet(p', id, p.auth.issued.Keys) && p'.auth == A.RevokeIndex(p.auth, KeyIndex(id))
  {
  }

  lemma RevokedKeyEndsToken(p: Plane, id: K.KeyId, org: string, after: seq<Event>, j: Jti)
    requires Sound(p) && id in p.keys.keys && p.keys.keys[id].org == org
    ensures var p' := Run(Apply(p, RevokeKey(id, org)), after); TrackedUnder(p'.auth, j, id) ==> !A.Accepts(p'.auth, j)
  {
    var p' := Apply(p, RevokeKey(id, org));
    if TrackedUnder(Run(p', after).auth, j, id) {
      RevokedKeyIsQuiet(p, id);
      AI.RevokeIndexKeeps(p.auth, KeyIndex(id));
      StepKeepsSound(p, RevokeKey(id, org));
      TrackedBefore(p', after, j, id);
      StaysRejected(p', after, j);
      JoinedStays(p', after);
      KeyTokenIsMinted(Run(p', after), j, id);
    }
  }

  /** Revoking a key ends it: in every later state of every run, no token ever exchanged from it, before the
      revocation or after, is accepted. */
  lemma RevokedKeyEndsTokens(max: nat, s256: string -> string, before: seq<Event>, id: K.KeyId, org: string, after: seq<Event>, j: Jti)
    ensures var p := Run(Initial(max, s256), before);
      var p' := Run(Apply(p, RevokeKey(id, org)), after);
      id in p.keys.keys && p.keys.keys[id].org == org && TrackedUnder(p'.auth, j, id) ==> !A.Accepts(p'.auth, j)
  {
    InvariantsHold(max, s256, before);
    var p := Run(Initial(max, s256), before);
    if id in p.keys.keys && p.keys.keys[id].org == org { RevokedKeyEndsToken(p, id, org, after, j); }
  }

  /** A token tracked under a quiet key was tracked when the key went quiet. */
  lemma TrackedBefore(p: Plane, events: seq<Event>, j: Jti, k: K.KeyId)
    requires p.auth.tracked.Keys <= p.auth.issued.Keys
    requires k in p.keys.keys && !p.keys.keys[k].active && TrackedUnder(Run(p, events).auth, j, k)
    ensures TrackedUnder(p.auth, j, k)
  {
    var known := set j | j in p.auth.tracked && TrackedUnder(p.auth, j, k);
    QuietRun(p, events, k, known);
  }

  // ---------- A decommissioned agent ----------

  lemma DecommissionedKeysInactive(p: Plane, agent: string, org: string, order: seq<K.KeyId>, k: K.KeyId)
    requires Synced(p) && A.Enabled(p.auth, A.Decommission(agent, org, order)) && ListsActive(p, agent, order)
    requires k in p.keys.keys && p.keys.keys[k].agent == agent
    ensures var keys := Apply(p, Decommission(agent, org, order)).keys.keys; k in keys && !keys[k].active && keys[k].agent == agent
  {
  }

  lemma DecommissionBlacklists(s: A.State, agent: string, org: string, keys: seq<K.KeyId>, j: Jti)
    requires AI.Inv(s) && A.Enabled(s, A.Decommission(agent, org, keys)) && j in s.issued && s.issued[j].sub == agent
    ensures var s' := A.Apply(s, A.Decommission(agent, org, keys));
      G.Ended(s', j) && s'.issued[j] == s.issued[j]
  {
    AI.RevokeKeysKeeps(s, keys);
    AI.RevokeIndexKeeps(A.SetStatus(A.RevokeKeys(s, keys), agent, Decommissioned), AgentIndex(agent));
  }

  /** A token ever tracked under a key the agent had is one issued to the agent before. */
  lemma KeysTokensWereIssued(
      p: Plane, agent: string, org: string, order: seq<K.KeyId>, after: seq<Event>, k: K.KeyId, j: Jti)
    requires Joined(p) && A.Enabled(p.auth, A.Decommission(agent, org, order)) && ListsActive(p, agent, order)
    requires k in p.keys.keys && p.keys.keys[k].agent == agent
    requires TrackedUnder(Run(Apply(p, Decommission(agent, org, order)), after).auth, j, k)
    ensures j in p.auth.issued && p.auth.issued[j].sub == agent
  {
    DecommissionedKeysInactive(p, agent, org, order, k);
    TrackingChanges(p.auth, A.Decommission(agent, org, order));
    TrackedBefore(Apply(p, Decommission(agent, org, order)), after, j, k);
  }

  lemma DecommissionEndsToken(p: Plane, agent: string, org: string, order: seq<K.KeyId>, after: seq<Event>, j: Jti)
    requires AI.Inv(p.auth) && K.Inv(p.keys) && j in p.auth.issued && p.auth.issued[j].sub == agent
    requires A.Enabled(p.auth, A.Decommission(agent, org, order)) && ListsActive(p, agent, order)
    ensures G.Rejected(Run(Apply(p, Decommission(agent, org, order)), after).auth, j)
  {
    AI.StepKeepsInv(p.auth, A.Decommission(agent, org, order));
    K.StepKeepsInv(p.keys, K.Decommission(agent, org));
    DecommissionBlacklists(p.auth, agent, org, order, j);
    StaysRejected(Apply(p, Decommission(agent, org, order)), after, j);
  }

  /** The agent is decommissioned in this state, its active keys as listed. */
  ghost predicate Decommissions(p: Plane, agent: string, org: string, order: seq<K.KeyId>)
  {
    A.Enabled(p.auth, A.Decommission(agent, org, order)) && ListsActive(p, agent, order)
  }

  /** Decommissioning an agent, its active keys as read then: every token issued to it earlier is rejected in
      every later state of every run. */
  lemma DecommissionEndsTokens(
      max: nat, s256: string -> string, before: seq<Event>, agent: string, org: string, order: seq<K.KeyId>, after: seq<Event>, j: Jti)
    ensures var p := Run(Initial(max, s256), before);
      Decommissions(p, agent, org, order) && j in p.auth.issued && p.auth.issued[j].sub == agent ==>
        G.Rejected(Run(Apply(p, Decommission(agent, org, order)), after).auth, j)
  {
    InvariantsHold(max, s256, before);
    var p := Run(Initial(max, s256), before);
    if Decommissions(p, agent, org, order) && j in p.auth.issued && p.auth.issued[j].sub == agent {
      DecommissionEndsToken(p, agent, org, order, after, j);
    }
  }

  lemma DecommissionEndsKey(
      p: Plane, agent: string, org: string, order: seq<K.KeyId>, after: seq<Event>, k: K.KeyId, j: Jti)
    requires Joined(p) && AI.Inv(p.auth) && K.Inv(p.keys)
    requires A.Enabled(p.auth, A.Decommission(agent, org, order)) && ListsActive(p, agent, order)
    requires k in p.keys.keys && p.keys.keys[k].agent == agent
    ensures var p' := Run(Apply(p, Decommission(agent, org, order)), after); TrackedUnder(p'.auth, j, k) ==> !A.Accepts(p'.auth, j)
  {
    if TrackedUnder(Run(Apply(p, Decommission(agent, org, order)), after).auth, j, k) {
      KeysTokensWereIssued(p, agent, org, order, after, k, j);
      DecommissionEndsToken(p, agent, org, order, after, j);
      StepKeepsJoined(p, Decommission(agent, org, order));
      JoinedStays(Apply(p, Decommission(agent, org, order)), after);
      KeyTokenIsMinted(Run(Apply(p, Decommission(agent, org, order)), after), j, k);
    }
  }

  /** And no token ever exchanged, before or after, from any key the agent had, active or not, is accepted. */
  lemma DecommissionEndsKeys(
      max: nat, s256: string -> string, before: seq<Event>, agent: string, org: string, order: seq<K.KeyId>, after: seq<Event>,
      k: K.KeyId, j: Jti)
    ensures var p := Run(Initial(max, s256), before);
      var p' := Run(Apply(p, Decommission(agent, org, order)), after);
      Decommissions(p, agent, org, order) && k in p.keys.keys && p.keys.keys[k].agent == agent && TrackedUnder(p'.auth, j, k) ==>
        !A.Accepts(p'.auth, j)
  {
    InvariantsHold(max, s256, before);
    var p := Run(Initial(max, s256), before);
    if Decommissions(p, agent, org, order) && k in p.keys.keys && p.keys.keys[k].agent == agent {
      DecommissionEndsKey(p, agent, org, order, after, k, j);
    }
  }

  // ---------- From a key to the last delegate ----------

  /** However long the chain below an exchanged token, its last grant stays within the scopes the key was issued
      with, and within the key's organisation. */
  lemma KeyBoundsChain(max: nat, s256: string -> string, events: seq<Event>, id: F.GrantId, n: nat, k: K.KeyId)
    requires var p := Run(Initial(max, s256), events);
      && id in p.auth.grants && F.Up(p.auth.grants, id, n).Some?
      && F.Up(p.auth.grants, id, n).value in p.auth.hops
      && TrackedUnder(p.auth, p.auth.hops[F.Up(p.auth.grants, id, n).value].via, k)
    ensures var p := Run(Initial(max, s256), events);
      && k in p.keys.keys && p.auth.grants[id].org == p.keys.keys[k].org
      && p.auth.grants[id].scopes <= C.ScopeSet(p.keys.keys[k].scopes)
  {
    InvariantsHold(max, s256, events);
    var p := Run(Initial(max, s256), events);
    G.ChainAttenuates(p.auth, id, n);
  }
}
