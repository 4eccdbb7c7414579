/** Exchanging an API key for a token: the optional intent narrows the token to one call, and scopes that need
    it are refused without it. */
module TokenExchange {
  import opened Prelude
  import Policy
  import Proxy
  import Provenance
  import OAuth

  datatype Exchange = InvalidIntent | TaskScopingRequired | Minted(claims: Proxy.Claims)

  /** `intent` is the (server, tool) pair asked for; `bindings` are the agent's own, as read at the exchange. */
  function Scope(bindings: seq<Proxy.Binding>, scopes: seq<string>, intent: Option<(string, string)>): Exchange
  {
    var b := if intent.Some? then Proxy.Resolve(bindings, intent.value.0) else None;
    if intent.Some? && (b.None? || (b.value.toolFilter.Some? && intent.value.1 !in b.value.toolFilter.value)) then InvalidIntent
    else if TASK_SCOPED in scopes && intent.None? then TaskScopingRequired
    else Minted(Proxy.Claims(OAuth.Known(scopes), 0, None, if intent.Some? then Some([intent.value]) else None))
  }

  /** Which exchanges are refused and why, in the binding's entries; and what a minted token carries. */
  lemma ScopedExactly(bindings: seq<Proxy.Binding>, scopes: seq<string>, intent: Option<(string, string)>)
    ensures var x := Scope(bindings, scopes, intent);
      && (x == InvalidIntent <==>
            intent.Some? && !(exists b :: Proxy.Bound(bindings, intent.value.0, b) && Proxy.Admits(b, intent.value.1)))
      && (x == TaskScopingRequired <==> "credential:rotate" in scopes && intent.None?)
      && (x.Minted? ==>
            && x.claims.depth == 0 && x.claims.resource == None
            && x.claims.task == (if intent.Some? then Some([(intent.value.0, intent.value.1)]) else None)
            && forall s :: s in x.claims.scopes <==> s in scopes && IsPermissionScope(s))
  {
    if intent.Some? {
      var r := Proxy.Resolve(bindings, intent.value.0);
      forall b ensures r == Some(b) <==> Proxy.Bound(bindings, intent.value.0, b) { Proxy.ResolveExactly(bindings, intent.value.0, b); }
    }
    forall s ensures s in OAuth.Known(scopes) <==> s in scopes && IsPermissionScope(s) { OAuth.KnownIs(scopes, s); }
  }

  /** The method behind the route, after the key has been verified: scopes are kept one by one. */
  method ExchangeToken(bindings: seq<Proxy.Binding>, scopes: seq<string>, intent: Option<(string, string)>) returns (r: Exchange)
    ensures r == Scope(bindings, scopes, intent)
  {
    var known := [];
    for i := 0 to |scopes|
      invariant known == OAuth.Known(scopes[..i])
    {
      assert scopes[..i + 1][..i] == scopes[..i];
      if IsPermissionScope(scopes[i]) { known := known + [scopes[i]]; }
    }
    assert scopes[..|scopes|] == scopes;
    var details: Option<seq<(string, string)>> := None;
    if intent.Some? {
      var b := Proxy.Resolve(bindings, intent.value.0);
      if b.None? { return InvalidIntent; }
      if b.value.toolFilter.Some? && intent.value.1 !in b.value.toolFilter.value { return InvalidIntent; }
      details := Some([intent.value]);
    }
    if TASK_SCOPED in scopes && details.None? { return TaskScopingRequired; }
    return Minted(Proxy.Claims(known, 0, None, details));
  }

  /** An intent is accepted only for a call the agent could then make: of the five gates only the policy can
      still stop it. */
  lemma IntentIsReachable(
      bindings: seq<Proxy.Binding>, scopes: seq<string>, intent: (string, string), c: Proxy.Call, tainted: bool, engineUp: bool)
    requires Scope(bindings, scopes, Some(intent)).Minted?
    requires c.claims == Scope(bindings, scopes, Some(intent)).claims && (c.server, c.tool) == intent
    ensures var v := Proxy.Judge(bindings, c, tainted, engineUp);
      v.Forwarded? || v.kind in {Policy.PolicyDenied, Policy.ProvenanceDenied, Policy.PolicyDown}
  {
    assert (c.server, c.tool) in [intent];
  }

  /** In every proxy run, a token minted for an intent, and so every exchanged token that may rotate
      credentials, is forwarded for that one call of that one server only. */
  lemma IntentConfines(
      bindings: seq<Proxy.Binding>, scopes: seq<string>, intent: Option<(string, string)>,
      calls: seq<Proxy.Event>, id: string, c: Proxy.Call)
    requires Scope(bindings, scopes, intent).Minted? && c.claims == Scope(bindings, scopes, intent).claims
    requires intent.Some? || TASK_SCOPED in c.claims.scopes
    requires Provenance.Underway(Proxy.Run(Proxy.Fresh, calls), id, c)
    ensures intent == Some((c.server, c.tool))
  {
    OAuth.KnownIs(scopes, TASK_SCOPED);
    Provenance.UnderwayWasJudged(calls, id, c);
    var m: nat :| Provenance.JudgedAt(calls, m, id, c);
    var w := Proxy.Run(Proxy.Fresh, calls[..m]);
    Proxy.ForwardedMeans(Proxy.BindingsOf(w, c.agent, c.org), c, Proxy.Tainted(w.sessions, c.org, c.trace), calls[m].engineUp);
    assert (c.server, c.tool) in [intent.value];
  }
}
