/** Which tokens are held to one server or one tool: what is minted is, what is delegated from it is not. */
module Confinement {
  import opened Prelude
  import opened Lineage
  import opened Authority
  import Policy
  import Proxy
  import OAuth
  import TokenExchange

  // ---------- From a token row to the claims the proxy reads ----------

  /** `scopes` lists the token's scopes in the order the token carries them. */
  function ProxyClaims(tok: Token, scopes: seq<string>): Proxy.Claims
  {
    Proxy.Claims(scopes, tok.depth, tok.target.resource, if tok.target.task.Some? then Some([tok.target.task.value]) else None)
  }

  function ScopeSet(scopes: seq<string>): set<string> { set s | s in scopes }

  /** What a redeemed code asks to be minted. */
  function CodeRequest(d: OAuth.CodeData, obo: Option<string>): MintRequest
  {
    MintRequest(d.agent, None, ScopeSet(d.scopes), obo,
      Target(OAuth.ClaimsOf(d).resource,
             if d.tool.Some? then Some((if d.resource.Some? then d.resource.value else "", d.tool.value)) else None))
  }

  /** What an exchanged key asks to be minted. */
  function ExchangeRequest(sub: string, key: string, scopes: seq<string>, intent: Option<(string, string)>, obo: Option<string>): MintRequest
  {
    MintRequest(sub, Some(key), ScopeSet(scopes), obo, Target(None, intent))
  }

  lemma KnownSet(scopes: seq<string>)
    ensures ScopeSet(OAuth.Known(scopes)) == KnownScopes(ScopeSet(scopes))
  {
    forall s ensures s in OAuth.Known(scopes) <==> s in scopes && IsPermissionScope(s) { OAuth.KnownIs(scopes, s); }
  }

  /** A code's token carries exactly the claims the code stands for, and minting it is not refused. */
  lemma CodeTokenCarriesClaims(s: State, jti: Jti, d: OAuth.CodeData, obo: Option<string>, clients: map<string, OAuth.Client>, agents: map<string, OAuth.BoundAgent>)
    requires OAuth.Backed(clients, agents, d) && jti !in s.issued && d.agent in s.agents
    ensures Enabled(s, Mint(jti, CodeRequest(d, obo)))
    ensures var tok := AccessToken(s, CodeRequest(d, obo));
      ProxyClaims(tok, OAuth.Known(d.scopes)) == OAuth.ClaimsOf(d) && ScopeSet(OAuth.Known(d.scopes)) == tok.scopes
  {
    KnownSet(d.scopes);
  }

  /** Minting for an exchange is refused by the one rule exactly when the exchange itself asks for a task. */
  lemma ExchangeTokenCarriesClaims(
      s: State, jti: Jti, sub: string, key: string, bindings: seq<Proxy.Binding>, scopes: seq<string>,
      intent: Option<(string, string)>, obo: Option<string>)
    requires jti !in s.issued && sub in s.agents
    ensures var x := TokenExchange.Scope(bindings, scopes, intent);
      && (x.TaskScopingRequired? <==> !Enabled(s, Mint(jti, ExchangeRequest(sub, key, scopes, intent, obo))))
      && (x.Minted? ==>
            && ProxyClaims(AccessToken(s, ExchangeRequest(sub, key, scopes, intent, obo)), OAuth.Known(scopes)) == x.claims
            && ScopeSet(x.claims.scopes) == AccessToken(s, ExchangeRequest(sub, key, scopes, intent, obo)).scopes)
  {
    KnownSet(scopes);
  }

  // ---------- Over whole runs ----------

  ghost predicate TargetsOk(s: State)
  {
    forall j :: j in s.issued ==>
      if s.issued[j].depth == 0 then TASK_SCOPED in s.issued[j].scopes ==> s.issued[j].target.task.Some?
      else s.issued[j].target == ANYWHERE
  }

  lemma MintKeepsTargets(s: State, jti: Jti, q: MintRequest)
    requires TargetsOk(s) && Enabled(s, Mint(jti, q))
    ensures TargetsOk(MintToken(s, jti, q))
  {
    var s' := MintToken(s, jti, q);
    assert s'.issued == s.issued[jti := AccessToken(s, q)];
  }

  lemma GrantKeepsTargets(s: State, presented: Jti, delegatee: string, d: Decision, gid: string, jti: Jti)
    requires TargetsOk(s) && presented in s.issued && s.issued[presented].sub in s.agents && d.Grants? && jti !in s.issued
    ensures TargetsOk(AddGrant(s, presented, delegatee, d, gid, jti))
  {
  }

  lemma StepKeepsTargets(s: State, e: Event)
    requires TargetsOk(s)
    ensures TargetsOk(Apply(s, e))
  {
    if Enabled(s, e) {
      match e
      case Mint(jti, q) => MintKeepsTargets(s, jti, q);
      case Delegate(presented, delegatee, requested, gid, jti) =>
        GrantKeepsTargets(s, presented, delegatee, Decide(s, presented, delegatee, requested), gid, jti);
      case _ => assert Apply(s, e).issued == s.issued;
    }
  }

  lemma {:induction false} RunKeepsTargets(max: nat, events: seq<Event>)
    ensures TargetsOk(Run(Initial(max), events))
  {
    if events != [] {
      RunKeepsTargets(max, events[..|events| - 1]);
      StepKeepsTargets(Run(Initial(max), events[..|events| - 1]), events[|events| - 1]);
    }
  }

  /** In every run a token that may rotate credentials is task-scoped if and only if its depth is 0: task
      scoping is demanded where tokens are minted and not passed on where they are delegated. */
  lemma TaskScopedExactlyAtRoot(max: nat, events: seq<Event>, j: Jti)
    requires var s := Run(Initial(max), events); j in s.issued && TASK_SCOPED in s.issued[j].scopes
    ensures var tok := Run(Initial(max), events).issued[j]; tok.target.task.Some? <==> tok.depth == 0
  {
    RunKeepsTargets(max, events);
  }

  // ---------- What the proxy makes of it ----------

  /** Whatever the agent's bindings, its trace and the clock, the gates forward this token for one call only. */
  ghost predicate OneCallOnly(tok: Token, scopes: seq<string>)
  {
    exists server, tool :: ForwardsOnly(tok, scopes, server, tool)
  }

  ghost predicate ForwardsOnly(tok: Token, scopes: seq<string>, server: string, tool: string)
  {
    forall bindings, c: Proxy.Call, tainted, engineUp ::
      (c.claims == ProxyClaims(tok, scopes) && c.agent == tok.sub && c.org == tok.org
        && Proxy.Judge(bindings, c, tainted, engineUp).Forwarded?) ==> c.server == server && c.tool == tool
  }

  function CallTo(tok: Token, scopes: seq<string>, server: string): Proxy.Call
  {
    Proxy.Call(tok.sub, tok.org, server, "t", "", ProxyClaims(tok, scopes))
  }

  /** The policy can allow this token some tool call. */
  predicate Executes(tok: Token, scopes: seq<string>)
  {
    tok.sub != "" && tok.org != "" && "tool:execute" in scopes && tok.depth <= Policy.POLICY_MAX_DEPTH
  }

  lemma TargetedForwardsOnly(tok: Token, scopes: seq<string>)
    requires tok.target.task.Some? || !Executes(tok, scopes)
    ensures OneCallOnly(tok, scopes)
  {
    var (server, tool) := if tok.target.task.Some? then tok.target.task.value else ("", "");
    forall bindings, c: Proxy.Call, tainted, engineUp
      | c.claims == ProxyClaims(tok, scopes) && c.agent == tok.sub && c.org == tok.org
        && Proxy.Judge(bindings, c, tainted, engineUp).Forwarded?
      ensures c.server == server && c.tool == tool
    {
      Proxy.ForwardedMeans(bindings, c, tainted, engineUp);
    }
    assert ForwardsOnly(tok, scopes, server, tool);
  }

  lemma UntargetedForwards(tok: Token, scopes: seq<string>, server: string)
    requires tok.target == ANYWHERE && Executes(tok, scopes)
    ensures Proxy.Judge([Proxy.Binding(server, Some("u"), None, false, map[])], CallTo(tok, scopes, server), false, true).Forwarded?
  {
    var binding := Proxy.Binding(server, Some("u"), None, false, map[]);
    Proxy.ForwardedMeans([binding], CallTo(tok, scopes, server), false, true);
    assert Proxy.Resolve([binding], server) == Some(binding);
  }

  /** So in every run such a token is held to one call of one server exactly when it was minted and not
      delegated, or the policy allows it no call at all. */
  lemma RotationConfinedExactlyAtRoot(max: nat, events: seq<Event>, j: Jti, scopes: seq<string>)
    requires var s := Run(Initial(max), events);
      j in s.issued && TASK_SCOPED in s.issued[j].scopes && ScopeSet(scopes) == s.issued[j].scopes
    ensures var tok := Run(Initial(max), events).issued[j];
      OneCallOnly(tok, scopes) <==> tok.depth == 0 || !Executes(tok, scopes)
  {
    RunKeepsTargets(max, events);
    var tok := Run(Initial(max), events).issued[j];
    if tok.depth == 0 || !Executes(tok, scopes) {
      TargetedForwardsOnly(tok, scopes);
    } else {
      forall server, tool ensures !ForwardsOnly(tok, scopes, server, tool) {
        UntargetedForwards(tok, scopes, server + "x");
        assert |server + "x"| != |server|;
      }
    }
  }

  // ---------- One delegated token ----------

  const BOTH: set<string> := {TASK_SCOPED, "tool:execute"}

  function RootRequest(): MintRequest { MintRequest("a", None, BOTH, None, Target(Some("s"), Some(("s", "t")))) }

  function RootMinted(max: nat): State
  {
    var agent := Agent("o", Active, BOTH);
    MintToken(Initial(max).(agents := map["a" := agent, "b" := agent]), "root", RootRequest())
  }

  lemma RunSnoc(s: State, events: seq<Event>, e: Event)
    ensures Run(s, events + [e]) == Apply(Run(s, events), e)
  {
    assert (events + [e])[..|events|] == events;
  }

  lemma RootReached(max: nat) returns (events: seq<Event>)
    ensures Run(Initial(max), events) == RootMinted(max)
  {
    var agent := Agent("o", Active, BOTH);
    var e1, e2, e3 := SetAgent("a", agent), SetAgent("b", agent), Mint("root", RootRequest());
    RunSnoc(Initial(max), [], e1);
    RunSnoc(Initial(max), [e1], e2);
    RunSnoc(Initial(max), [e1, e2], e3);
    assert [] + [e1] == [e1] && [e1] + [e2] == [e1, e2] && [e1, e2] + [e3] == [e1, e2, e3];
    events := [e1, e2, e3];
    assert Run(Initial(max), [e1, e2]) == Initial(max).(agents := map["a" := agent, "b" := agent]);
  }

  lemma RootDelegates(max: nat)
    requires max >= 1
    ensures var s := RootMinted(max);
      && Accepts(s, "root") && "root" in s.issued
      && Decide(s, "root", "b", [TASK_SCOPED, "tool:execute"]) == Grants(BOTH, [], None)
  {
    var s := RootMinted(max);
    assert s.issued["root"].scopes == BOTH;
    assert forall id :: !HasJti(s.grants, id, "root");
    var requested := [TASK_SCOPED, "tool:execute"];
    ScopeSubsetExact(requested, BOTH * BOTH);
    assert ScopeSet(requested) == BOTH && BOTH * BOTH == BOTH;
    assert requested[0] != requested[1] by { assert |requested[0]| == 17 && |requested[1]| == 12; }
  }

  lemma LeafMinted(max: nat)
    requires max >= 1
    ensures var e := Delegate("root", "b", [TASK_SCOPED, "tool:execute"], "g", "leaf");
      var s := Apply(RootMinted(max), e);
      && "root" in s.issued && s.issued["root"] == RootMinted(max).issued["root"]
      && "leaf" in s.issued && s.issued["leaf"].scopes == KnownScopes(BOTH) && s.issued["leaf"].target == ANYWHERE
  {
    RootDelegates(max);
  }

  /** A run in which a root token held to one call is delegated, and the delegated token, holding the same
      scopes, is held to nothing. */
  lemma DelegatedTokenIsFree(max: nat)
    requires max >= 1
    ensures exists events ::
      var s := Run(Initial(max), events);
      && "root" in s.issued && s.issued["root"].target.task == Some(("s", "t"))
      && "leaf" in s.issued && s.issued["leaf"].scopes == s.issued["root"].scopes == BOTH && s.issued["leaf"].target == ANYWHERE
  {
    var events := RootReached(max);
    var e := Delegate("root", "b", [TASK_SCOPED, "tool:execute"], "g", "leaf");
    RunSnoc(Initial(max), events, e);
    LeafMinted(max);
    assert KnownScopes(BOTH) == BOTH;
  }
}
