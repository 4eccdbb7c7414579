/** The service calls that touch keys, codes and tokens together, each tied to joint steps. */
module ControlPlaneService {
  import opened Prelude
  import DS = DelegationService
  import KS = ApiKeyService
  import opened ControlPlane

  class ControlPlaneService {
    const tokens: DS.DelegationService
    const keys: KS.ApiKeyService
    const codes: O.OAuthServer

    ghost function Abs(): Plane
      reads this, tokens, tokens.redis, keys, codes
    {
      Plane(tokens.Abs(), keys.Abs(tokens.now), codes.Abs(tokens.now), codes.s256)
    }

    ghost predicate Valid()
      reads this, tokens, tokens.redis, keys, codes
    {
      Sound(Abs())
    }

    constructor (max: nat, s256: string -> string)
      ensures Abs() == Initial(max, s256) && Valid() && fresh(tokens) && fresh(tokens.redis) && fresh(keys) && fresh(codes)
    {
      tokens := new DS.DelegationService(max);
      keys := new KS.ApiKeyService();
      codes := new O.OAuthServer(s256);
      new;
      InvariantsHold(max, s256, []);
    }

    /** Retires the key's row, then every token exchanged from it; refused for a missing or foreign key. */
    method RevokeApiKey(id: K.KeyId, org: string) returns (ok: bool)
      requires Valid()
      modifies tokens, tokens.redis, keys
      ensures Abs() == Apply(old(Abs()), RevokeKey(id, org)) && Valid()
      ensures ok <==> id in old(keys.keys) && old(keys.keys)[id].org == org
    {
      StepKeepsSound(Abs(), RevokeKey(id, org));
      ok := keys.RevokeKey(id, org, tokens.now);
      if ok { var count := tokens.RevokeKey(id); }
    }

    /** The scoping of an exchange, against the agent's own bindings as the code service's row has them. */
    method Scope(agent: string, scopes: seq<string>, intent: Option<(string, string)>) returns (x: TokenExchange.Exchange)
      ensures x == TokenExchange.Scope(if agent in codes.agents then codes.agents[agent].bindings else [], scopes, intent)
    {
      var bindings := if agent in codes.agents then codes.agents[agent].bindings else [];
      x := TokenExchange.ExchangeToken(bindings, scopes, intent);
    }

    /** Verifies a compound credential on the indexed path. */
    method Identify(presented: string) returns (who: Option<KS.Identity>, ghost o: K.Outcome)
      requires K.Inv(keys.Abs(tokens.now))
      modifies keys`keys, keys`audit
      ensures o == old(K.Verify(keys.keys, presented, None, [], tokens.now)) && who == KS.IdentityOf(old(keys.keys), o)
      ensures keys.Abs(tokens.now) == K.Recorded(old(keys.Abs(tokens.now)), o)
    {
      var outcome;
      ghost var before := keys.keys;
      who, outcome := keys.VerifyKey(presented, None, tokens.now);
      o := outcome;
      assert K.Verify(before, presented, None, [], tokens.now) == o;
    }

    /** Verifies and decides. */
    method Decide(presented: string, jti: Jti, intent: Option<(string, string)>, obo: Option<string>)
        returns (claims: Option<Proxy.Claims>, request: Option<A.MintRequest>)
      requires K.Inv(keys.Abs(tokens.now))
      modifies keys`keys, keys`audit
      ensures keys.Abs(tokens.now) == ApplyKeys(old(keys.Abs(tokens.now)), OnKeys(old(Abs()), Exchange(presented, jti, intent, obo)))
      ensures var minting := old(Minting(Abs(), Exchange(presented, jti, intent, obo)));
        && (claims.Some? <==> minting.Some?) && (request.Some? <==> minting.Some?)
        && (minting.Some? ==> minting.value == A.Mint(jti, request.value))
      ensures claims.Some? ==> old(Scoping(Abs(), presented, intent)) == TokenExchange.Minted(claims.value)
    {
      DecidedByIdentity(Abs(), presented, jti, intent, obo);
      var who, o := Identify(presented);
      if who.None? { return None, None; }
      var x := Scope(who.value.agent, who.value.scopes, intent);
      if !x.Minted? { return None, None; }
      return Some(x.claims), Some(C.ExchangeRequest(who.value.agent, who.value.id, who.value.scopes, intent, obo));
    }

    method DecideAndMint(presented: string, jti: Jti, intent: Option<(string, string)>, obo: Option<string>)
        returns (minted: Option<Proxy.Claims>)
      requires Sound(Abs()) && jti !in tokens.issued
      modifies tokens, tokens.redis, keys
      ensures tokens.now == old(tokens.now)
      ensures tokens.Abs() == ApplyTokens(old(tokens.Abs()), old(Minting(Abs(), Exchange(presented, jti, intent, obo))))
      ensures keys.Abs(tokens.now) == ApplyKeys(old(keys.Abs(tokens.now)), OnKeys(old(Abs()), Exchange(presented, jti, intent, obo)))
      ensures minted.Some? <==> old(Minting(Abs(), Exchange(presented, jti, intent, obo))).Some?
      ensures minted.Some? ==> old(Scoping(Abs(), presented, intent)) == TokenExchange.Minted(minted.value)
    {
      ExchangeMints(Abs(), Exchange(presented, jti, intent, obo));
      var request;
      minted, request := Decide(presented, jti, intent, obo);
      if request.Some? { var ok := tokens.MintAccess(jti, request.value); }
    }

    /** Verifies, decides the scoping, and mints a tracked token that carries the decided claims. */
    method ExchangeToken(presented: string, jti: Jti, intent: Option<(string, string)>, obo: Option<string>)
        returns (minted: Option<Proxy.Claims>)
      requires Valid() && jti !in tokens.issued
      modifies tokens, tokens.redis, keys
      ensures Abs() == Apply(old(Abs()), Exchange(presented, jti, intent, obo)) && Valid()
      ensures minted.Some? <==> old(Minting(Abs(), Exchange(presented, jti, intent, obo))).Some?
      ensures minted.Some? ==> Carries(tokens.Abs(), jti, minted.value)
    {
      ExchangeIsSound(Abs(), Exchange(presented, jti, intent, obo));
      minted := DecideAndMint(presented, jti, intent, obo);
    }

    /** Takes an authorization code and checks it. */
    method TakeAndFinish(q: O.TokenRequest) returns (claims: Option<Proxy.Claims>, granted: Option<O.CodeData>)
      modifies codes
      ensures codes.agents == old(codes.agents)
      ensures var taken := O.Apply(old(codes.Abs(tokens.now)), O.Take(0, q), codes.s256);
        && codes.Abs(tokens.now) == O.Apply(taken, O.Finish(0), codes.s256)
        && (claims.Some? <==> granted.Some?)
        && (granted.Some? <==> |codes.minted| == |taken.minted| + 1)
        && (granted.Some? ==> codes.minted[|taken.minted|].data == granted.value)
    {
      TakingMintsNothing(codes.Abs(tokens.now), q, codes.s256);
      claims, granted := codes.ExchangeAuthorizationCode(q, tokens.now);
    }

    method TakeAndMint(q: O.TokenRequest, jti: Jti, obo: Option<string>) returns (minted: Option<Proxy.Claims>)
      requires AI.Inv(tokens.Abs()) && Joined(Apply(Abs(), CodeEvent(O.Take(0, q)))) && jti !in tokens.issued
      modifies tokens, tokens.redis, codes
      ensures tokens.now == old(tokens.now)
      ensures var taken, e := old(Apply(Abs(), CodeEvent(O.Take(0, q)))), Redeem(0, jti, obo);
        && codes.Abs(tokens.now) == Apply(taken, e).oauth && tokens.Abs() == Apply(taken, e).auth
        && (minted.Some? <==> Redeeming(taken, e).Some?)
    {
      RedeemedOrNot(Apply(Abs(), CodeEvent(O.Take(0, q))), 0, jti, obo);
      var granted;
      minted, granted := TakeAndFinish(q);
      if granted.Some? { var ok := tokens.MintAccess(jti, C.CodeRequest(granted.value, obo)); }
    }

    /** Takes an authorization code, checks it, and mints a tracked token: two joint steps with nothing between. */
    method RedeemCode(q: O.TokenRequest, jti: Jti, obo: Option<string>) returns (minted: Option<Proxy.Claims>)
      requires Valid() && jti !in tokens.issued
      modifies tokens, tokens.redis, codes
      ensures Abs() == Apply(Apply(old(Abs()), CodeEvent(O.Take(0, q))), Redeem(0, jti, obo)) && Valid()
      ensures minted.Some? <==> old(Redeeming(Apply(Abs(), CodeEvent(O.Take(0, q))), Redeem(0, jti, obo))).Some?
    {
      StepKeepsSound(Abs(), CodeEvent(O.Take(0, q)));
      StepKeepsSound(Apply(Abs(), CodeEvent(O.Take(0, q))), Redeem(0, jti, obo));
      minted := TakeAndMint(q, jti, obo);
    }

    /** The same status column in the rows the key and code services read. */
    method SuspendElsewhere(agent: string)
      requires agent in keys.agents && agent in codes.agents
      modifies keys`agents, codes`agents
      ensures keys.Abs(tokens.now) == K.Apply(old(keys.Abs(tokens.now)), K.SetAgent(agent, old(keys.agents)[agent].(status := Suspended)))
      ensures codes.Abs(tokens.now) == O.Apply(old(codes.Abs(tokens.now)),
        O.SetAgent(agent, O.BoundAgent(old(codes.agents)[agent].agent.(status := Suspended), old(codes.agents)[agent].bindings)), codes.s256)
    {
      keys.agents := keys.agents[agent := keys.agents[agent].(status := Suspended)];
      SetStatusInCodes(agent, Suspended);
    }

    method SuspendRows(agent: string, org: string) returns (ok: bool)
      requires AI.Inv(tokens.Abs()) && Synced(Abs())
      modifies tokens, tokens.redis, keys`agents, codes`agents
      ensures tokens.Abs() == A.Apply(old(tokens.Abs()), A.Suspend(agent, org)) && tokens.now == old(tokens.now)
      ensures ok <==> old(CanSuspend(Abs(), agent, org))
      ensures keys.Abs(tokens.now) == ApplyKeys(old(keys.Abs(tokens.now)), OnKeys(old(Abs()), Event.Suspend(agent, org)))
      ensures codes.Abs(tokens.now) == ApplyCodes(old(codes.Abs(tokens.now)), OnCodes(old(Abs()), Event.Suspend(agent, org)), codes.s256)
    {
      ok := tokens.Suspend(agent, org);
      if ok { SuspendElsewhere(agent); }
    }

    method Suspend(agent: string, org: string) returns (ok: bool)
      requires Valid()
      modifies tokens, tokens.redis, keys, codes
      ensures Abs() == Apply(old(Abs()), Event.Suspend(agent, org)) && Valid()
      ensures ok <==> old(CanSuspend(Abs(), agent, org))
    {
      StepKeepsSound(Abs(), Event.Suspend(agent, org));
      ok := SuspendRows(agent, org);
    }

    /** The same status column in the rows the code service reads. */
    method SetStatusInCodes(agent: string, status: AgentStatus)
      requires agent in codes.agents
      modifies codes`agents
      ensures codes.agents == old(codes.agents)[agent := O.BoundAgent(old(codes.agents)[agent].agent.(status := status), old(codes.agents)[agent].bindings)]
    {
      codes.agents := codes.agents[agent := codes.agents[agent].(agent := codes.agents[agent].agent.(status := status))];
    }

    /** Retires the listed keys and their tokens, then the agent and whatever else it holds. */
    method EndAgent(agent: string, org: string, active: seq<K.KeyId>) returns (ok: bool)
      requires AI.Inv(tokens.Abs()) && tokens.agents == keys.agents
      modifies tokens, tokens.redis, keys
      ensures tokens.Abs() == A.Apply(old(tokens.Abs()), A.Decommission(agent, org, active)) && tokens.now == old(tokens.now)
      ensures keys.Abs(tokens.now) == K.Apply(old(keys.Abs(tokens.now)), K.Decommission(agent, org))
      ensures ok <==> old(K.CanDecommission(keys.Abs(tokens.now), agent, org))
      ensures keys.agents == old(if ok then keys.agents[agent := keys.agents[agent].(status := Decommissioned)] else keys.agents)
    {
      ok := keys.DecommissionAgent(agent, org, tokens.now);
      if ok { var done := tokens.Decommission(agent, org, active); }
    }

    method EndEverywhere(agent: string, org: string, active: seq<K.KeyId>) returns (ok: bool)
      requires AI.Inv(tokens.Abs()) && Synced(Abs()) && ListsActive(Abs(), agent, active)
      modifies tokens, tokens.redis, keys, codes`agents
      ensures tokens.Abs() == A.Apply(old(tokens.Abs()), A.Decommission(agent, org, active)) && tokens.now == old(tokens.now)
      ensures keys.Abs(tokens.now) == K.Apply(old(keys.Abs(tokens.now)), K.Decommission(agent, org))
      ensures codes.Abs(tokens.now) == ApplyCodes(old(codes.Abs(tokens.now)), OnCodes(old(Abs()), Event.Decommission(agent, org, active)), codes.s256)
      ensures ok <==> old(CanSuspend(Abs(), agent, org))
    {
      ok := EndAgent(agent, org, active);
      if ok { SetStatusInCodes(agent, Decommissioned); }
    }

    /** Reads the agent's active keys and ends them, their tokens, the agent and whatever else it holds. */
    method Decommission(agent: string, org: string) returns (ok: bool, ghost order: seq<K.KeyId>)
      requires Valid()
      modifies tokens, tokens.redis, keys, codes
      ensures ListsActive(old(Abs()), agent, order)
      ensures Abs() == Apply(old(Abs()), Event.Decommission(agent, org, order)) && Valid()
      ensures ok <==> old(CanSuspend(Abs(), agent, org))
    {
      var active := keys.SelectActive(agent);
      order := active;
      StepKeepsSound(Abs(), Event.Decommission(agent, org, active));
      ok := EndEverywhere(agent, org, active);
    }
  }

  /** An exchange in terms of the identity the key check answers. */
  lemma DecidedByIdentity(p: Plane, presented: string, jti: Jti, intent: Option<(string, string)>, obo: Option<string>)
    ensures var e, who := Exchange(presented, jti, intent, obo), KS.IdentityOf(p.keys.keys, Answer(p, presented));
      && ApplyKeys(p.keys, OnKeys(p, e)) == K.Recorded(p.keys, Answer(p, presented))
      && match who
         case None => Minting(p, e).None?
         case Some(i) =>
           var x := TokenExchange.Scope(Bindings(p, i.agent), i.scopes, intent);
           && Scoping(p, presented, intent) == x
           && Minting(p, e) == if x.Minted? then Some(A.Mint(jti, C.ExchangeRequest(i.agent, i.id, i.scopes, intent, obo))) else None
  {
    AcceptedIsActive(p, presented);
  }

  lemma TakingMintsNothing(w: O.World, q: O.TokenRequest, s256: string -> string)
    ensures O.Apply(w, O.Take(0, q), s256).minted == w.minted
  {
  }

  lemma RedeemedOrNot(p: Plane, exchange: int, jti: Jti, obo: Option<string>)
    requires Joined(p) && jti !in p.auth.issued
    ensures var e, p' := Redeem(exchange, jti, obo), Apply(p, Redeem(exchange, jti, obo));
      && p'.oauth == O.Apply(p.oauth, O.Finish(exchange), p.s256) && p'.keys == p.keys
      && if Redeeming(p, e).Some? then
           && p'.oauth.minted == p.oauth.minted + [p.oauth.taken[exchange]]
           && A.Enabled(p.auth, A.Mint(jti, C.CodeRequest(p.oauth.taken[exchange].data, obo)))
           && p'.auth == A.Apply(p.auth, A.Mint(jti, C.CodeRequest(p.oauth.taken[exchange].data, obo)))
         else p'.oauth.minted == p.oauth.minted && p'.auth == p.auth
  {
    if Redeeming(p, Redeem(exchange, jti, obo)).Some? { RedeemMints(p, Redeem(exchange, jti, obo)); }
  }
}
