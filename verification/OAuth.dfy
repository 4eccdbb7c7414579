/** The authorization-code grant with PKCE: /authorize stores a single-use code, /token takes it and mints a
    token bound to what was authorized. Taking the code and checking it are separate steps that interleave
    across requests. `s256` is the PKCE transformation (section 4.6 of RFC 7636), an arbitrary function. */
module OAuth {
  import opened Prelude
  import Proxy
  import Provenance

  datatype Client = Client(org: string, redirects: seq<string>)

  /** An agent row with its mcp_bindings. */
  datatype BoundAgent = BoundAgent(agent: Agent, bindings: seq<Proxy.Binding>)

  /** A request to /authorize; `scopes` is the scope parameter already split at whitespace. */
  datatype AuthRequest = AuthRequest(
    client: string, redirect: string, responseType: string, challenge: string, method_: string,
    scopes: seq<string>, resource: Option<string>, tool: Option<string>, agent: string, org: string)

  /** What a code stands for. */
  datatype CodeData = CodeData(
    client: string, redirect: string, challenge: string, agent: string, org: string,
    scopes: seq<string>, resource: Option<string>, tool: Option<string>)

  datatype AuthError =
    | UnknownClient | RedirectNotRegistered | UnsupportedResponseType | InvalidRequest | InvalidScope | InvalidTarget

  /** `Shown` errors are never delivered to the redirect URI. */
  datatype Decision = Shown(error: AuthError) | Redirected(error: AuthError) | Authorized(data: CodeData)

  const CODE_TTL: int := 120_000

  /** The agent's first binding for the server, usable url or not. */
  function FirstBinding(bindings: seq<Proxy.Binding>, server: string): Option<Proxy.Binding>
  {
    if bindings == [] then None
    else if bindings[0].serverId == server then Some(bindings[0])
    else FirstBinding(bindings[1..], server)
  }

  function Decide(clients: map<string, Client>, agents: map<string, BoundAgent>, q: AuthRequest): Decision
  {
    if q.client !in clients || clients[q.client].org != q.org then Shown(UnknownClient)
    else if q.redirect !in clients[q.client].redirects then Shown(RedirectNotRegistered)
    else if q.responseType != "code" then Redirected(UnsupportedResponseType)
    else if q.method_ != "S256" || q.challenge == "" then Redirected(InvalidRequest)
    else if q.agent !in agents || agents[q.agent].agent.org != q.org || agents[q.agent].agent.status != Active then Redirected(InvalidRequest)
    else if exists s :: s in q.scopes && s !in agents[q.agent].agent.allowed then Redirected(InvalidScope)
    else DecideBinding(agents[q.agent].bindings, q)
  }

  function DecideBinding(bindings: seq<Proxy.Binding>, q: AuthRequest): Decision
  {
    var b := if q.resource.Some? then FirstBinding(bindings, q.resource.value) else None;
    if q.resource.Some? && b.None? then Redirected(InvalidTarget)
    else if q.tool.Some? && q.resource.None? then Redirected(InvalidRequest)
    else if q.tool.Some? && b.value.toolFilter.Some? && q.tool.value !in b.value.toolFilter.value then Redirected(InvalidTarget)
    else if TASK_SCOPED in q.scopes && q.tool.None? then Redirected(InvalidScope)
    else Authorized(CodeData(q.client, q.redirect, q.challenge, q.agent, q.org, q.scopes, q.resource, q.tool))
  }

  /** The binding is for the code's resource and does not rule out its tool. */
  predicate Reaches(b: Proxy.Binding, d: CodeData)
  {
    && d.resource == Some(b.serverId)
    && (d.tool.Some? && b.toolFilter.Some? ==> d.tool.value in b.toolFilter.value)
  }

  /** What an authorized code says about the rows it was decided from. */
  ghost predicate Backed(clients: map<string, Client>, agents: map<string, BoundAgent>, d: CodeData)
  {
    && d.client in clients && clients[d.client].org == d.org && d.redirect in clients[d.client].redirects
    && d.challenge != ""
    && d.agent in agents && agents[d.agent].agent.org == d.org && agents[d.agent].agent.status == Active
    && (forall s :: s in d.scopes ==> s in agents[d.agent].agent.allowed)
    && (d.resource.Some? ==> exists b :: b in agents[d.agent].bindings && Reaches(b, d))
    && (d.tool.Some? ==> d.resource.Some?)
    && (TASK_SCOPED in d.scopes ==> d.tool.Some?)
  }

  lemma {:induction false} FirstBindingIn(bindings: seq<Proxy.Binding>, server: string)
    ensures var b := FirstBinding(bindings, server);
      if b.Some? then b.value in bindings && b.value.serverId == server
      else forall x :: x in bindings ==> x.serverId != server
  {
    if bindings != [] { FirstBindingIn(bindings[1..], server); }
  }

  /** A code is only ever given out for a request backed by the rows as they were read, whatever is requested;
      and an error is kept from the redirect URI exactly when client and URI are not registered together. */
  lemma DecisionsAreBacked(clients: map<string, Client>, agents: map<string, BoundAgent>, q: AuthRequest)
    ensures var r := Decide(clients, agents, q);
      && (r.Authorized? ==> Backed(clients, agents, r.data) && q.responseType == "code" && q.method_ == "S256")
      && (r.Shown? <==> !(q.client in clients && clients[q.client].org == q.org && q.redirect in clients[q.client].redirects))
  {
    if q.agent in agents && q.resource.Some? {
      FirstBindingIn(agents[q.agent].bindings, q.resource.value);
    }
  }

  /** The agent's first binding for the server, in the entries themselves. */
  ghost predicate IsFirst(bindings: seq<Proxy.Binding>, server: string, b: Proxy.Binding)
  {
    exists i :: 0 <= i < |bindings| && bindings[i] == b && b.serverId == server
      && forall j :: 0 <= j < i ==> bindings[j].serverId != server
  }

  lemma {:induction false} FirstBindingExactly(bindings: seq<Proxy.Binding>, server: string, b: Proxy.Binding)
    ensures FirstBinding(bindings, server) == Some(b) <==> IsFirst(bindings, server, b)
    ensures FirstBinding(bindings, server).None? <==> forall i :: 0 <= i < |bindings| ==> bindings[i].serverId != server
  {
    if bindings != [] {
      FirstBindingExactly(bindings[1..], server, b);
      if IsFirst(bindings[1..], server, b) && bindings[0].serverId != server {
        var i :| 0 <= i < |bindings[1..]| && bindings[1..][i] == b && b.serverId == server
          && forall j :: 0 <= j < i ==> bindings[1..][j].serverId != server;
        assert bindings[i + 1] == b;
        assert forall j :: 0 < j < i + 1 ==> bindings[j] == bindings[1..][j - 1];
      }
      if IsFirst(bindings, server, b) && bindings[0].serverId != server {
        var i :| 0 <= i < |bindings| && bindings[i] == b && b.serverId == server
          && forall j :: 0 <= j < i ==> bindings[j].serverId != server;
        assert bindings[1..][i - 1] == b;
        assert forall j :: 0 <= j < i - 1 ==> bindings[1..][j] == bindings[j + 1];
      }
    }
  }

  /** The agent's first binding for the server admits the tool. */
  ghost predicate FirstAdmits(bindings: seq<Proxy.Binding>, server: string, tool: string)
  {
    exists b :: IsFirst(bindings, server, b) && (b.toolFilter.Some? ==> tool in b.toolFilter.value)
  }

  ghost predicate HasBinding(bindings: seq<Proxy.Binding>, server: string) { exists b :: IsFirst(bindings, server, b) }

  /** The resource, if any, is one the agent is bound to; a tool needs a resource whose first binding admits it; and a
      scope that must name a task needs a tool. */
  ghost predicate TargetFits(bindings: seq<Proxy.Binding>, q: AuthRequest)
  {
    && (q.resource.Some? ==> HasBinding(bindings, q.resource.value))
    && (q.tool.Some? ==> q.resource.Some? && FirstAdmits(bindings, q.resource.value, q.tool.value))
    && ("credential:rotate" in q.scopes ==> q.tool.Some?)
  }

  lemma FirstIsOne(bindings: seq<Proxy.Binding>, server: string)
    ensures var r := FirstBinding(bindings, server);
      && (r.Some? <==> HasBinding(bindings, server))
      && (r.Some? ==> forall tool :: FirstAdmits(bindings, server, tool) <==>
            (r.value.toolFilter.Some? ==> tool in r.value.toolFilter.value))
  {
    var r := FirstBinding(bindings, server);
    forall b ensures r == Some(b) <==> IsFirst(bindings, server, b) { FirstBindingExactly(bindings, server, b); }
    if r.Some? { assert IsFirst(bindings, server, r.value); }
  }

  lemma TargetDecides(bindings: seq<Proxy.Binding>, q: AuthRequest)
    ensures DecideBinding(bindings, q).Authorized? <==> TargetFits(bindings, q)
    ensures var r := DecideBinding(bindings, q);
      if q.resource.Some? && !HasBinding(bindings, q.resource.value) then r == Redirected(InvalidTarget)
      else if q.tool.Some? && q.resource.None? then r == Redirected(InvalidRequest)
      else if q.tool.Some? && !FirstAdmits(bindings, q.resource.value, q.tool.value) then r == Redirected(InvalidTarget)
      else if "credential:rotate" in q.scopes && q.tool.None? then r == Redirected(InvalidScope)
      else r.Authorized?
  {
    if q.resource.Some? { FirstIsOne(bindings, q.resource.value); }
  }

  /** A code is given out exactly when the client is registered in the organisation with that redirect URI, the
      request is for a code with an S256 challenge, the agent is known there and active, every scope is allowed, and
      the target fits; and it stands for just what was requested. */
  lemma AuthorizedExactly(clients: map<string, Client>, agents: map<string, BoundAgent>, q: AuthRequest)
    ensures var r := Decide(clients, agents, q);
      && (r.Authorized? <==>
            && q.client in clients && clients[q.client].org == q.org && q.redirect in clients[q.client].redirects
            && q.responseType == "code" && q.method_ == "S256" && q.challenge != ""
            && q.agent in agents && agents[q.agent].agent.org == q.org && agents[q.agent].agent.status == Active
            && (forall s :: s in q.scopes ==> s in agents[q.agent].agent.allowed)
            && TargetFits(agents[q.agent].bindings, q))
      && (r.Authorized? ==>
            && r.data.client == q.client && r.data.redirect == q.redirect && r.data.challenge == q.challenge
            && r.data.agent == q.agent && r.data.org == q.org && r.data.scopes == q.scopes
            && r.data.resource == q.resource && r.data.tool == q.tool)
  {
    if q.agent in agents { TargetDecides(agents[q.agent].bindings, q); }
  }

  /** Which error: the first condition that fails. */
  lemma RefusedBecause(clients: map<string, Client>, agents: map<string, BoundAgent>, q: AuthRequest)
    ensures var r := Decide(clients, agents, q);
      if !(q.client in clients && clients[q.client].org == q.org) then r == Shown(UnknownClient)
      else if q.redirect !in clients[q.client].redirects then r == Shown(RedirectNotRegistered)
      else if q.responseType != "code" then r == Redirected(UnsupportedResponseType)
      else if q.method_ != "S256" || q.challenge == "" then r == Redirected(InvalidRequest)
      else if !(q.agent in agents && agents[q.agent].agent.org == q.org && agents[q.agent].agent.status == Active)
      then r == Redirected(InvalidRequest)
      else if exists s :: s in q.scopes && s !in agents[q.agent].agent.allowed then r == Redirected(InvalidScope)
      else
        var bindings := agents[q.agent].bindings;
        if q.resource.Some? && !HasBinding(bindings, q.resource.value) then r == Redirected(InvalidTarget)
        else if q.tool.Some? && q.resource.None? then r == Redirected(InvalidRequest)
        else if q.tool.Some? && !FirstAdmits(bindings, q.resource.value, q.tool.value) then r == Redirected(InvalidTarget)
        else if "credential:rotate" in q.scopes && q.tool.None? then r == Redirected(InvalidScope)
        else r.Authorized?
  {
    if q.agent in agents { TargetDecides(agents[q.agent].bindings, q); }
  }

  // ---------- Redeeming a code ----------

  datatype TokenRequest = TokenRequest(
    grantType: string, code: string, redirect: string, client: string, verifier: string, resource: Option<string>)

  /** A code fetched and deleted, not yet checked. */
  datatype Taken = Taken(request: TokenRequest, data: CodeData, at: int)

  predicate Matches(t: Taken, s256: string -> string)
  {
    && t.data.client == t.request.client && t.data.redirect == t.request.redirect
    && s256(t.request.verifier) == t.data.challenge
    && (t.data.resource.Some? ==> t.request.resource == t.data.resource)
  }

  /** The scopes the enum knows, in order. */
  function Known(scopes: seq<string>): seq<string>
  {
    if scopes == [] then []
    else
      var n := |scopes| - 1;
      Known(scopes[..n]) + if IsPermissionScope(scopes[n]) then [scopes[n]] else []
  }

  lemma {:induction false} KnownIs(scopes: seq<string>, s: string)
    ensures s in Known(scopes) <==> s in scopes && IsPermissionScope(s)
  {
    if scopes != [] {
      var n := |scopes| - 1;
      KnownIs(scopes[..n], s);
      assert scopes == scopes[..n] + [scopes[n]];
    }
  }

  /** The claims of the minted token. An empty resource is dropped from the token. */
  function ClaimsOf(d: CodeData): Proxy.Claims
  {
    Proxy.Claims(Known(d.scopes), 0,
                 if d.resource.Some? && d.resource.value != "" then d.resource else None,
                 if d.tool.Some? then Some([(if d.resource.Some? then d.resource.value else "", d.tool.value)]) else None)
  }

  /** The claims of a code's token: the known scopes, depth 0, the resource unless it is empty, and the one call. */
  lemma ClaimsExactly(d: CodeData)
    ensures var k := ClaimsOf(d);
      && (forall s :: s in k.scopes <==> s in d.scopes && IsPermissionScope(s)) && k.depth == 0
      && (forall r :: k.resource == Some(r) <==> d.resource == Some(r) && r != "")
      && (d.tool.None? ==> k.task == None)
      && (d.tool.Some? && d.resource.Some? ==> k.task == Some([(d.resource.value, d.tool.value)]))
  {
    forall s ensures s in Known(d.scopes) <==> s in d.scopes && IsPermissionScope(s) { KnownIs(d.scopes, s); }
  }

  // ---------- Steps ----------

  datatype Stored = Stored(data: CodeData, until: int)

  /** `used` and `minted` are history. */
  datatype World = World(
    now: int, clients: map<string, Client>, agents: map<string, BoundAgent>,
    codes: map<string, Stored>, taken: map<int, Taken>, used: set<string>, minted: seq<Taken>)

  datatype Event =
    | Tick(to: int)
    | SetClient(client: string, registered: Client)
    | SetAgent(agent: string, row: BoundAgent)
    | Authorize(request: AuthRequest, code: string)
    | Take(id: int, exchange: TokenRequest)
    | Finish(id: int)

  function Store(w: World, code: string, d: CodeData): World
  {
    w.(codes := w.codes[code := Stored(d, w.now + CODE_TTL)], used := w.used + {code})
  }

  /** The agent row a token is minted for must still exist. */
  predicate CanMint(w: World, t: Taken, s256: string -> string)
  {
    Matches(t, s256) && t.data.agent in w.agents && w.agents[t.data.agent].agent.org == t.data.org
  }

  /** One step. Codes and exchange ids are fresh. Taking a code deletes it, whatever becomes of the request. */
  function Apply(w: World, e: Event, s256: string -> string): World
  {
    match e
    case Tick(to) => if to >= w.now then w.(now := to) else w
    case SetClient(client, row) => w.(clients := w.clients[client := row])
    case SetAgent(agent, row) => w.(agents := w.agents[agent := row])
    case Authorize(q, code) =>
      var r := Decide(w.clients, w.agents, q);
      if r.Authorized? && code !in w.used then Store(w, code, r.data) else w
    case Take(id, q) =>
      if id in w.taken || q.grantType != "authorization_code" || q.code !in w.codes then w
      else
        var gone := w.(codes := w.codes - {q.code});
        if w.now < w.codes[q.code].until then gone.(taken := w.taken[id := Taken(q, w.codes[q.code].data, w.now)]) else gone
    case Finish(id) =>
      if id !in w.taken then w
      else
        var over := w.(taken := w.taken - {id});
        if CanMint(w, w.taken[id], s256) then over.(minted := w.minted + [w.taken[id]]) else over
  }

  function Run(events: seq<Event>, s256: string -> string): World
  {
    if events == [] then World(0, map[], map[], map[], map[], {}, [])
    else Apply(Run(events[..|events| - 1], s256), events[|events| - 1], s256)
  }

  // ---------- One token per code ----------

  /** A code is in one place only: stored, in one exchange, or behind one token. */
  ghost predicate Single(w: World)
  {
    && w.codes.Keys <= w.used
    && (forall i :: i in w.taken ==> w.taken[i].request.code in w.used && w.taken[i].request.code !in w.codes)
    && (forall i, j :: i in w.taken && j in w.taken && w.taken[i].request.code == w.taken[j].request.code ==> i == j)
    && (forall k :: 0 <= k < |w.minted| ==> w.minted[k].request.code in w.used && w.minted[k].request.code !in w.codes)
    && (forall k, i :: 0 <= k < |w.minted| && i in w.taken ==> w.minted[k].request.code != w.taken[i].request.code)
    && (forall k, l :: 0 <= k < l < |w.minted| ==> w.minted[k].request.code != w.minted[l].request.code)
  }

  lemma TakeKeepsSingle(w: World, e: Event, s256: string -> string)
    requires Single(w) && e.Take?
    ensures Single(Apply(w, e, s256))
  {
  }

  lemma FinishKeepsSingle(w: World, e: Event, s256: string -> string)
    requires Single(w) && e.Finish?
    ensures Single(Apply(w, e, s256))
  {
  }

  lemma StepKeepsSingle(w: World, e: Event, s256: string -> string)
    requires Single(w)
    ensures Single(Apply(w, e, s256))
  {
    if e.Take? { TakeKeepsSingle(w, e, s256); }
    else if e.Finish? { FinishKeepsSingle(w, e, s256); }
  }

  /** In every interleaving, no code yields two tokens (section 4.1.2 of RFC 6749). */
  lemma {:induction false} OneTokenPerCode(events: seq<Event>, s256: string -> string)
    ensures Single(Run(events, s256))
    ensures var minted := Run(events, s256).minted;
      forall k, l :: 0 <= k < l < |minted| ==> minted[k].request.code != minted[l].request.code
  {
    if events != [] {
      OneTokenPerCode(events[..|events| - 1], s256);
      StepKeepsSingle(Run(events[..|events| - 1], s256), events[|events| - 1], s256);
    }
  }

  // ---------- A token is what was authorized ----------

  /** Event `n` is the /authorize call that gave out `code` for `d`. */
  ghost predicate AuthorizedAt(events: seq<Event>, n: nat, code: string, d: CodeData, s256: string -> string)
  {
    && n < |events| && events[n].Authorize? && events[n].code == code
    && var w := Run(events[..n], s256);
       code !in w.used && Decide(w.clients, w.agents, events[n].request) == Authorized(d)
  }

  /** ... and no later than `until` its two minutes were not over. */
  ghost predicate GivenOut(events: seq<Event>, code: string, d: CodeData, until: int, s256: string -> string)
  {
    exists n: nat :: AuthorizedAt(events, n, code, d, s256) && until <= Run(events[..n], s256).now + CODE_TTL
  }

  lemma GivenOutStays(events: seq<Event>, e: Event, code: string, d: CodeData, until: int, s256: string -> string)
    requires GivenOut(events, code, d, until, s256)
    ensures GivenOut(events + [e], code, d, until, s256)
  {
    var n: nat :| AuthorizedAt(events, n, code, d, s256) && until <= Run(events[..n], s256).now + CODE_TTL;
    assert (events + [e])[..n] == events[..n];
    assert AuthorizedAt(events + [e], n, code, d, s256);
  }

  ghost predicate CodesGiven(events: seq<Event>, codes: map<string, Stored>, s256: string -> string)
  {
    forall c :: c in codes ==> GivenOut(events, c, codes[c].data, codes[c].until, s256)
  }

  ghost predicate TakenGiven(events: seq<Event>, t: Taken, s256: string -> string)
  {
    GivenOut(events, t.request.code, t.data, t.at + 1, s256)
  }

  ghost predicate AllTakenGiven(events: seq<Event>, taken: map<int, Taken>, s256: string -> string)
  {
    forall i :: i in taken ==> TakenGiven(events, taken[i], s256)
  }

  ghost predicate MintedGiven(events: seq<Event>, minted: seq<Taken>, s256: string -> string)
  {
    forall k :: 0 <= k < |minted| ==> Matches(minted[k], s256) && TakenGiven(events, minted[k], s256)
  }

  /** Stored, taken and redeemed codes of a world all go back to their /authorize call. */
  ghost predicate Traced(events: seq<Event>, w: World, s256: string -> string)
  {
    && CodesGiven(events, w.codes, s256)
    && AllTakenGiven(events, w.taken, s256)
    && MintedGiven(events, w.minted, s256)
  }

  lemma CodesStayGiven(events: seq<Event>, e: Event, codes: map<string, Stored>, s256: string -> string)
    requires CodesGiven(events, codes, s256)
    ensures CodesGiven(events + [e], codes, s256)
  {
    forall c | c in codes ensures GivenOut(events + [e], c, codes[c].data, codes[c].until, s256) {
      GivenOutStays(events, e, c, codes[c].data, codes[c].until, s256);
    }
  }

  lemma TakenStaysGiven(events: seq<Event>, e: Event, t: Taken, s256: string -> string)
    requires TakenGiven(events, t, s256)
    ensures TakenGiven(events + [e], t, s256)
  {
    GivenOutStays(events, e, t.request.code, t.data, t.at + 1, s256);
  }

  lemma TracedStays(events: seq<Event>, e: Event, w: World, s256: string -> string)
    requires Traced(events, w, s256)
    ensures Traced(events + [e], w, s256)
  {
    CodesStayGiven(events, e, w.codes, s256);
    forall i | i in w.taken ensures TakenGiven(events + [e], w.taken[i], s256) {
      TakenStaysGiven(events, e, w.taken[i], s256);
    }
    forall k | 0 <= k < |w.minted| ensures TakenGiven(events + [e], w.minted[k], s256) {
      TakenStaysGiven(events, e, w.minted[k], s256);
    }
  }

  lemma GivenOutBy(events: seq<Event>, code: string, d: CodeData, until: int, sooner: int, s256: string -> string)
    requires GivenOut(events, code, d, until, s256) && sooner <= until
    ensures GivenOut(events, code, d, sooner, s256)
  {
    var n: nat :| AuthorizedAt(events, n, code, d, s256) && until <= Run(events[..n], s256).now + CODE_TTL;
    assert AuthorizedAt(events, n, code, d, s256) && sooner <= Run(events[..n], s256).now + CODE_TTL;
  }

  lemma AuthorizeIsGivenOut(init: seq<Event>, e: Event, s256: string -> string)
    requires e.Authorize?
    requires var w := Run(init, s256); e.code !in w.used && Decide(w.clients, w.agents, e.request).Authorized?
    ensures var w := Run(init, s256);
      GivenOut(init + [e], e.code, Decide(w.clients, w.agents, e.request).data, w.now + CODE_TTL, s256)
  {
    var w := Run(init, s256);
    assert (init + [e])[..|init|] == init;
    assert AuthorizedAt(init + [e], |init|, e.code, Decide(w.clients, w.agents, e.request).data, s256);
  }

  lemma FewerCodesGiven(events: seq<Event>, codes: map<string, Stored>, code: string, s256: string -> string)
    requires CodesGiven(events, codes, s256)
    ensures CodesGiven(events, codes - {code}, s256)
  {
  }

  lemma MoreTakenGiven(events: seq<Event>, taken: map<int, Taken>, id: int, t: Taken, s256: string -> string)
    requires AllTakenGiven(events, taken, s256) && TakenGiven(events, t, s256)
    ensures AllTakenGiven(events, taken[id := t], s256)
  {
  }

  lemma TakeIsTraced(events: seq<Event>, w: World, e: Event, s256: string -> string)
    requires Traced(events, w, s256) && e.Take?
    ensures Traced(events, Apply(w, e, s256), s256)
  {
    var code := e.exchange.code;
    FewerCodesGiven(events, w.codes, code, s256);
    if code in w.codes && w.now < w.codes[code].until {
      GivenOutBy(events, code, w.codes[code].data, w.codes[code].until, w.now + 1, s256);
      MoreTakenGiven(events, w.taken, e.id, Taken(e.exchange, w.codes[code].data, w.now), s256);
    }
  }

  lemma FinishIsTraced(events: seq<Event>, w: World, e: Event, s256: string -> string)
    requires Traced(events, w, s256) && e.Finish?
    ensures Traced(events, Apply(w, e, s256), s256)
  {
  }

  lemma TracedStep(events: seq<Event>, w: World, e: Event, s256: string -> string)
    requires Traced(events, w, s256)
    requires e.Authorize? && e.code !in w.used && Decide(w.clients, w.agents, e.request).Authorized? ==>
      GivenOut(events, e.code, Decide(w.clients, w.agents, e.request).data, w.now + CODE_TTL, s256)
    ensures Traced(events, Apply(w, e, s256), s256)
  {
    if e.Take? { TakeIsTraced(events, w, e, s256); }
    else if e.Finish? { FinishIsTraced(events, w, e, s256); }
  }

  lemma {:induction false} EverythingIsTraced(events: seq<Event>, s256: string -> string)
    ensures Traced(events, Run(events, s256), s256)
  {
    if events != [] {
      var n := |events| - 1;
      var init, e := events[..n], events[n];
      var w := Run(init, s256);
      EverythingIsTraced(init, s256);
      assert init + [e] == events;
      TracedStays(init, e, w, s256);
      if e.Authorize? && e.code !in w.used && Decide(w.clients, w.agents, e.request).Authorized? {
        AuthorizeIsGivenOut(init, e, s256);
      }
      TracedStep(events, w, e, s256);
    }
  }

  /** Every minted token goes back to one /authorize call, whose code was taken before its two minutes were
      over and presented with the client, redirect URI, verifier and resource recorded there; and that call was
      backed by the client and agent rows as they then were. */
  lemma TokenWasAuthorized(events: seq<Event>, k: nat, s256: string -> string) returns (n: nat)
    requires k < |Run(events, s256).minted|
    ensures var t := Run(events, s256).minted[k];
      && AuthorizedAt(events, n, t.request.code, t.data, s256)
      && t.at < Run(events[..n], s256).now + 120_000
      && t.request.client == t.data.client && t.request.redirect == t.data.redirect
      && s256(t.request.verifier) == t.data.challenge
      && (t.data.resource.Some? ==> t.request.resource == t.data.resource)
      && Backed(Run(events[..n], s256).clients, Run(events[..n], s256).agents, t.data)
  {
    EverythingIsTraced(events, s256);
    var t := Run(events, s256).minted[k];
    assert TakenGiven(events, t, s256);
    n :| AuthorizedAt(events, n, t.request.code, t.data, s256) && t.at + 1 <= Run(events[..n], s256).now + CODE_TTL;
    DecisionsAreBacked(Run(events[..n], s256).clients, Run(events[..n], s256).agents, events[n].request);
  }

  /** Redeeming exactly. In one go, a request mints a token if and only if: it is for the authorization-code grant; its
      code is stored and less than two minutes old; client, redirect URI and transformed verifier are the recorded
      ones, and so is the resource if one was recorded; and the agent's row is still there in the code's organisation.
      The token is then for what the code recorded; and whatever happens, a code presented for this grant is gone. */
  lemma RedeemedExactly(w: World, id: int, q: TokenRequest, s256: string -> string)
    requires id !in w.taken
    ensures var w' := Apply(Apply(w, Take(id, q), s256), Finish(id), s256);
      && (w'.minted != w.minted <==>
            && q.grantType == "authorization_code" && q.code in w.codes && w.now < w.codes[q.code].until
            && var d := w.codes[q.code].data;
               && q.client == d.client && q.redirect == d.redirect && s256(q.verifier) == d.challenge
               && (d.resource.Some? ==> q.resource == d.resource)
               && d.agent in w.agents && w.agents[d.agent].agent.org == d.org)
      && (w'.minted != w.minted ==> w'.minted == w.minted + [Taken(q, w.codes[q.code].data, w.now)])
      && (q.grantType == "authorization_code" ==> w'.codes == w.codes - {q.code})
      && (q.grantType != "authorization_code" ==> w'.codes == w.codes)
  {
    assert forall t: Taken :: |w.minted + [t]| == |w.minted| + 1;
    if q.code !in w.codes { assert w.codes - {q.code} == w.codes; }
  }

  // ---------- Where the token works ----------

  /** The one kind of authorized code whose token is not held to its resource: the empty resource name without a
      tool, which the token does not record, on a token that can execute tools. */
  predicate Unrecorded(d: CodeData)
  {
    d.resource == Some("") && d.tool.None? && "tool:execute" in d.scopes && d.agent != "" && d.org != ""
  }

  /** The gates forward no call under these claims to another server or, if bound to one, another tool. */
  ghost predicate Confined(d: CodeData)
  {
    forall bindings, c: Proxy.Call, tainted, engineUp ::
      c.claims == ClaimsOf(d) && c.agent == d.agent && c.org == d.org && Proxy.Judge(bindings, c, tainted, engineUp).Forwarded? ==>
        && (d.resource.Some? ==> c.server == d.resource.value)
        && (d.tool.Some? ==> c.tool == d.tool.value)
  }

  function Elsewhere(d: CodeData): Proxy.Call { Proxy.Call(d.agent, d.org, "x", "t", "", ClaimsOf(d)) }

  const ELSEWHERE: Proxy.Binding := Proxy.Binding("x", Some("u"), None, false, map[])

  /** A token authorized for a resource is confined to it and to its tool, with exactly that exception. */
  lemma ConfinedExactly(d: CodeData)
    requires d.tool.Some? ==> d.resource.Some?
    ensures Confined(d) <==> !Unrecorded(d)
  {
    KnownIs(d.scopes, "tool:execute");
    if Unrecorded(d) {
      var c := Elsewhere(d);
      Proxy.ForwardedMeans([ELSEWHERE], c, false, true);
      assert Proxy.Resolve([ELSEWHERE], "x") == Some(ELSEWHERE);
      assert Proxy.Judge([ELSEWHERE], c, false, true).Forwarded? && c.server != "";
    } else {
      forall bindings, c: Proxy.Call, tainted, engineUp
        | c.claims == ClaimsOf(d) && c.agent == d.agent && c.org == d.org && Proxy.Judge(bindings, c, tainted, engineUp).Forwarded?
        ensures (d.resource.Some? ==> c.server == d.resource.value) && (d.tool.Some? ==> c.tool == d.tool.value)
      {
        Proxy.ForwardedMeans(bindings, c, tainted, engineUp);
      }
    }
  }

  /** End to end: in every proxy run, whatever is in progress or forwarded under a token minted from a code goes
      to the server, and the tool if one was named, that /authorize recorded. */
  lemma ForwardedWhereAuthorized(
      events: seq<Event>, k: nat, s256: string -> string, calls: seq<Proxy.Event>, id: string, c: Proxy.Call)
    requires k < |Run(events, s256).minted|
    requires var d := Run(events, s256).minted[k].data;
      !Unrecorded(d) && c.claims == ClaimsOf(d) && c.agent == d.agent && c.org == d.org
    requires Provenance.Underway(Proxy.Run(Proxy.Fresh, calls), id, c)
    ensures var d := Run(events, s256).minted[k].data;
      && (exists n: nat :: AuthorizedAt(events, n, Run(events, s256).minted[k].request.code, d, s256))
      && (d.resource.Some? ==> c.server == d.resource.value)
      && (d.tool.Some? ==> c.tool == d.tool.value)
  {
    var d := Run(events, s256).minted[k].data;
    var n := TokenWasAuthorized(events, k, s256);
    ConfinedExactly(d);
    Provenance.UnderwayWasJudged(calls, id, c);
    var m: nat :| Provenance.JudgedAt(calls, m, id, c);
    var w := Proxy.Run(Proxy.Fresh, calls[..m]);
    assert Proxy.Judge(Proxy.BindingsOf(w, c.agent, c.org), c, Proxy.Tainted(w.sessions, c.org, c.trace), calls[m].engineUp).Forwarded?;
  }

  /** A token that may rotate credentials names one tool of one server, and works for that call alone. */
  lemma RotationIsTaskScoped(events: seq<Event>, k: nat, s256: string -> string, calls: seq<Proxy.Event>, id: string, c: Proxy.Call)
    requires k < |Run(events, s256).minted|
    requires var d := Run(events, s256).minted[k].data;
      TASK_SCOPED in ClaimsOf(d).scopes && c.claims == ClaimsOf(d) && c.agent == d.agent && c.org == d.org
    requires Provenance.Underway(Proxy.Run(Proxy.Fresh, calls), id, c)
    ensures var d := Run(events, s256).minted[k].data;
      d.resource == Some(c.server) && d.tool == Some(c.tool)
  {
    var d := Run(events, s256).minted[k].data;
    var n := TokenWasAuthorized(events, k, s256);
    KnownIs(d.scopes, TASK_SCOPED);
    ConfinedExactly(d);
    Provenance.UnderwayWasJudged(calls, id, c);
    var m: nat :| Provenance.JudgedAt(calls, m, id, c);
    var w := Proxy.Run(Proxy.Fresh, calls[..m]);
    assert Proxy.Judge(Proxy.BindingsOf(w, c.agent, c.org), c, Proxy.Tainted(w.sessions, c.org, c.trace), calls[m].engineUp).Forwarded?;
  }

  // ---------- The server ----------

  class OAuthServer {
    const s256: string -> string
    var clients: map<string, Client>
    var agents: map<string, BoundAgent>
    var codes: map<string, Stored>
    ghost var used: set<string>
    ghost var minted: seq<Taken>

    ghost function Abs(now: int): World reads this { World(now, clients, agents, codes, map[], used, minted) }

    constructor (s256: string -> string)
      ensures this.s256 == s256 && Abs(0) == Run([], s256)
    {
      this.s256 := s256;
      clients, agents, codes, used, minted := map[], map[], map[], {}, [];
    }

    method BuildAuthorizationRedirect(q: AuthRequest, code: string, now: int) returns (r: Decision)
      requires code !in used
      modifies this`codes, this`used
      ensures r == Decide(clients, agents, q)
      ensures Abs(now) == Apply(old(Abs(now)), Authorize(q, code), s256)
      ensures old(Single(Abs(now))) ==> Single(Abs(now))
    {
      if Single(Abs(now)) { StepKeepsSingle(Abs(now), Authorize(q, code), s256); }
      if q.client !in clients || clients[q.client].org != q.org { return Shown(UnknownClient); }
      if q.redirect !in clients[q.client].redirects { return Shown(RedirectNotRegistered); }
      if q.responseType != "code" { return Redirected(UnsupportedResponseType); }
      if q.method_ != "S256" { return Redirected(InvalidRequest); }
      if q.challenge == "" { return Redirected(InvalidRequest); }
      if q.agent !in agents || agents[q.agent].agent.org != q.org { return Redirected(InvalidRequest); }
      if agents[q.agent].agent.status != Active { return Redirected(InvalidRequest); }
      if exists s :: s in q.scopes && s !in agents[q.agent].agent.allowed { return Redirected(InvalidScope); }
      r := DecideBinding(agents[q.agent].bindings, q);
      if r.Authorized? {
        codes := codes[code := Stored(r.data, now + CODE_TTL)];
        used := used + {code};
      }
    }

    method KnownScopes(scopes: seq<string>) returns (known: seq<string>)
      ensures known == Known(scopes)
    {
      known := [];
      for i := 0 to |scopes|
        invariant known == Known(scopes[..i])
      {
        assert scopes[..i + 1][..i] == scopes[..i];
        if IsPermissionScope(scopes[i]) { known := known + [scopes[i]]; }
      }
      assert scopes[..|scopes|] == scopes;
    }

    /** GETDEL, the checks in order, and the claims of the token, with what the code stood for. */
    method ExchangeAuthorizationCode(q: TokenRequest, now: int) returns (claims: Option<Proxy.Claims>, granted: Option<CodeData>)
      modifies this`codes, this`minted
      ensures Abs(now) == Apply(Apply(old(Abs(now)), Take(0, q), s256), Finish(0), s256)
      ensures claims.Some? <==> |minted| == |old(minted)| + 1
      ensures claims.Some? ==> claims.value == ClaimsOf(minted[|old(minted)|].data)
      ensures granted == if claims.Some? then Some(minted[|old(minted)|].data) else None
      ensures q.grantType == "authorization_code" ==> q.code !in codes
      ensures claims.Some? <==>
        && q.grantType == "authorization_code" && q.code in old(codes) && now < old(codes)[q.code].until
        && var d := old(codes)[q.code].data;
           && q.client == d.client && q.redirect == d.redirect && s256(q.verifier) == d.challenge
           && (d.resource.Some? ==> q.resource == d.resource)
           && d.agent in agents && agents[d.agent].agent.org == d.org
      ensures old(Single(Abs(now))) ==> Single(Abs(now))
    {
      if Single(Abs(now)) {
        StepKeepsSingle(Abs(now), Take(0, q), s256);
        StepKeepsSingle(Apply(Abs(now), Take(0, q), s256), Finish(0), s256);
      }
      if q.grantType != "authorization_code" || q.code !in codes { return None, None; }
      var stored := codes[q.code];
      codes := codes - {q.code};
      if now >= stored.until { return None, None; }
      var d := stored.data;
      assert map[0 := Taken(q, d, now)] - {0} == map[];
      if d.client != q.client || d.redirect != q.redirect { return None, None; }
      if s256(q.verifier) != d.challenge { return None, None; }
      if d.resource.Some? && q.resource != d.resource { return None, None; }
      if d.agent !in agents || agents[d.agent].agent.org != d.org { return None, None; }
      var scopes := KnownScopes(d.scopes);
      minted := minted + [Taken(q, d, now)];
      return Some(ClaimsOf(d).(scopes := scopes)), Some(d);
    }
  }
}
