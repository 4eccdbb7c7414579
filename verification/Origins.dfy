/** Where tokens come from: every minted token of a joint run goes back to one accepted key or one taken code. */
module Origins {
  import opened Prelude
  import opened ControlPlane

  /** The step mints the token from a key it has just accepted. */
  ghost predicate ByKey(p: Plane, e: Event, j: Jti)
  {
    e.Exchange? && e.jti == j && j !in p.auth.issued && Minting(p, e).Some?
  }

  /** The step mints the token from a code it took. */
  ghost predicate ByCode(p: Plane, e: Event, j: Jti)
  {
    e.Redeem? && e.jti == j && Redeeming(p, e).Some?
  }

  /** What the step asks to be minted. */
  ghost function Asked(p: Plane, e: Event): A.MintRequest
    requires (e.Exchange? && Minting(p, e).Some?) || (e.Redeem? && Redeeming(p, e).Some?)
  {
    if e.Exchange? then Minting(p, e).value.request else Redeeming(p, e).value.request
  }

  /** What a key's or a code's token is asked to be: for the key row's agent and scopes, tracked under that key, with
      the intent as its task; for the code's agent and scopes, with the recorded resource and tool. */
  lemma AskedExactly(p: Plane, e: Event, j: Jti)
    requires ByKey(p, e, j) || ByCode(p, e, j)
    ensures var q := Asked(p, e);
      q.onBehalfOf == e.obo &&
      if e.Exchange? then
        && Answer(p, e.presented).Accepted? && Answer(p, e.presented).id in p.keys.keys
        && var k := p.keys.keys[Answer(p, e.presented).id];
           && q.sub == k.agent && q.key == Some(Answer(p, e.presented).id) && q.scopes == (set s | s in k.scopes)
           && q.target.resource == None && q.target.task == e.intent
      else
        && e.exchange in p.oauth.taken
        && var d := p.oauth.taken[e.exchange].data;
           && q.sub == d.agent && q.key == None && q.scopes == (set s | s in d.scopes)
           && (forall r :: q.target.resource == Some(r) <==> d.resource == Some(r) && r != "")
           && (d.tool.None? ==> q.target.task == None)
           && (d.tool.Some? && d.resource.Some? ==> q.target.task == Some((d.resource.value, d.tool.value)))
  {
  }

  ghost predicate Born(p: Plane, e: Event, j: Jti) { ByKey(p, e, j) || ByCode(p, e, j) }

  /** Holds a minted token. */
  ghost predicate Holds(p: Plane, j: Jti) { j in p.auth.issued && p.auth.issued[j].depth == 0 }

  lemma IssuedChanges(s: A.State, a: A.Event, j: Jti)
    requires AI.Inv(s) && j in A.Apply(s, a).issued && j !in s.issued
    ensures A.Enabled(s, a) && (a.Mint? || a.Delegate?) && a.jti == j
    ensures a.Delegate? ==> A.Apply(s, a).issued[j].depth > 0
  {
  }

  /** A minted token that a step adds was asked for by an exchange or a redemption. */
  lemma AddedWasBorn(p: Plane, e: Event, j: Jti)
    requires AI.Inv(p.auth) && j !in p.auth.issued
    ensures Holds(Apply(p, e), j) ==> Born(p, e, j)
  {
    if Holds(Apply(p, e), j) { IssuedChanges(p.auth, OnTokens(p, e).value, j); }
  }

  lemma BornIsAdded(p: Plane, e: Event, j: Jti)
    requires Joined(p) && Born(p, e, j)
    ensures j in Apply(p, e).auth.issued && Asked(p, e).sub in p.auth.agents
    ensures Apply(p, e).auth.issued[j] == A.AccessToken(p.auth, Asked(p, e))
  {
    if e.Exchange? { ExchangeMints(p, e); } else { RedeemMints(p, e); }
  }

  ghost predicate BornAt(start: Plane, events: seq<Event>, n: nat, j: Jti)
  {
    n < |events| && Born(Run(start, events[..n]), events[n], j)
  }

  lemma RunNext(start: Plane, events: seq<Event>, n: nat)
    requires n < |events|
    ensures Run(start, events[..n + 1]) == Apply(Run(start, events[..n]), events[n])
  {
    assert events[..n + 1][..n] == events[..n];
  }

  lemma StepKeepsTokens(p: Plane, e: Event)
    requires AI.Inv(p.auth)
    ensures forall j :: j in p.auth.issued ==> j in Apply(p, e).auth.issued && Apply(p, e).auth.issued[j] == p.auth.issued[j]
  {
    if OnTokens(p, e).Some? { G.StepIsLater(p.auth, OnTokens(p, e).value); }
  }

  /** A token of the one state is the same token of the other. */
  ghost predicate Keeps(p: Plane, q: Plane, j: Jti)
  {
    j in p.auth.issued ==> j in q.auth.issued && q.auth.issued[j] == p.auth.issued[j]
  }

  lemma {:induction false} KeepsAlong(states: seq<Plane>, n: nat, m: nat, j: Jti)
    requires n <= m < |states| && forall k :: 0 < k < |states| ==> Keeps(states[k - 1], states[k], j)
    ensures Keeps(states[n], states[m], j)
    decreases m
  {
    if n < m { KeepsAlong(states, n, m - 1, j); }
  }

  lemma KeepsNext(max: nat, s256: string -> string, events: seq<Event>, m: nat, j: Jti)
    requires m < |events|
    ensures Keeps(Run(Initial(max, s256), events[..m]), Run(Initial(max, s256), events[..m + 1]), j)
  {
    InvariantsHold(max, s256, events[..m]);
    RunNext(Initial(max, s256), events, m);
    StepKeepsTokens(Run(Initial(max, s256), events[..m]), events[m]);
  }

  lemma TokensStay(max: nat, s256: string -> string, events: seq<Event>, n: nat, m: nat, j: Jti)
    requires n <= m <= |events|
    ensures Keeps(Run(Initial(max, s256), events[..n]), Run(Initial(max, s256), events[..m]), j)
  {
    var states := seq(|events| + 1, k requires 0 <= k <= |events| => Run(Initial(max, s256), events[..k]));
    forall k | 0 < k < |states| ensures Keeps(states[k - 1], states[k], j) { KeepsNext(max, s256, events, k - 1, j); }
    KeepsAlong(states, n, m, j);
  }

  lemma BornBefore(max: nat, s256: string -> string, events: seq<Event>, n: nat, m: nat, j: Jti)
    ensures BornAt(Initial(max, s256), events, n, j) && BornAt(Initial(max, s256), events, m, j) ==> n >= m
  {
    if BornAt(Initial(max, s256), events, n, j) && n < m < |events| {
      InvariantsHold(max, s256, events[..n]);
      RunNext(Initial(max, s256), events, n);
      BornIsAdded(Run(Initial(max, s256), events[..n]), events[n], j);
      TokensStay(max, s256, events, n + 1, m, j);
    }
  }

  /** A token is born at most once. */
  lemma BornOnce(max: nat, s256: string -> string, events: seq<Event>, n: nat, m: nat, j: Jti)
    ensures BornAt(Initial(max, s256), events, n, j) && BornAt(Initial(max, s256), events, m, j) ==> n == m
  {
    BornBefore(max, s256, events, n, m, j);
    BornBefore(max, s256, events, m, n, j);
  }

  lemma BirthStep(p: Plane, e: Event, j: Jti)
    requires AI.Inv(p.auth) && Holds(Apply(p, e), j)
    ensures Holds(p, j) || Born(p, e, j)
  {
    if j in p.auth.issued { StepKeepsTokens(p, e); } else { AddedWasBorn(p, e, j); }
  }

  lemma BirthStepAt(max: nat, s256: string -> string, events: seq<Event>, m: nat, j: Jti)
    requires m < |events| && Holds(Run(Initial(max, s256), events[..m + 1]), j)
    ensures Holds(Run(Initial(max, s256), events[..m]), j) || BornAt(Initial(max, s256), events, m, j)
  {
    RunNext(Initial(max, s256), events, m);
    InvariantsHold(max, s256, events[..m]);
    BirthStep(Run(Initial(max, s256), events[..m]), events[m], j);
  }

  lemma NoneAtFirst(max: nat, s256: string -> string, events: seq<Event>, j: Jti)
    ensures !Holds(Run(Initial(max, s256), events[..0]), j)
  {
    assert events[..0] == [];
  }

  lemma {:induction false} FindBirth(max: nat, s256: string -> string, events: seq<Event>, m: nat, j: Jti) returns (n: nat)
    requires m <= |events| && Holds(Run(Initial(max, s256), events[..m]), j)
    ensures n < m && BornAt(Initial(max, s256), events, n, j)
    decreases m
  {
    NoneAtFirst(max, s256, events, j);
    BirthStepAt(max, s256, events, m - 1, j);
    if Holds(Run(Initial(max, s256), events[..m - 1]), j) {
      n := FindBirth(max, s256, events, m - 1, j);
    } else {
      n := m - 1;
    }
  }

  /** Step `n` is the one at which the token is minted, and the token is still what was asked for there. */
  ghost predicate OriginOf(start: Plane, events: seq<Event>, n: nat, j: Jti)
  {
    && BornAt(start, events, n, j) && (forall m :: BornAt(start, events, m, j) ==> m == n)
    && var p := Run(start, events[..n]);
       && Asked(p, events[n]).sub in p.auth.agents && j in Run(start, events).auth.issued
       && Run(start, events).auth.issued[j] == A.AccessToken(p.auth, Asked(p, events[n]))
  }

  lemma BirthIsOrigin(max: nat, s256: string -> string, events: seq<Event>, n: nat, j: Jti)
    requires BornAt(Initial(max, s256), events, n, j)
    ensures OriginOf(Initial(max, s256), events, n, j)
  {
    assert events[..|events|] == events;
    forall m | BornAt(Initial(max, s256), events, m, j) ensures m == n { BornOnce(max, s256, events, n, m, j); }
    InvariantsHold(max, s256, events[..n]);
    RunNext(Initial(max, s256), events, n);
    BornIsAdded(Run(Initial(max, s256), events[..n]), events[n], j);
    TokensStay(max, s256, events, n + 1, |events|, j);
  }

  /** Every token of depth 0 in every joint run was minted at exactly one step, from one key accepted there or one
      code taken before, and is what that key or code asked for. */
  lemma MintedTokenHasOneOrigin(max: nat, s256: string -> string, events: seq<Event>, j: Jti)
    ensures Holds(Run(Initial(max, s256), events), j) ==> exists n: nat :: OriginOf(Initial(max, s256), events, n, j)
  {
    if Holds(Run(Initial(max, s256), events), j) {
      assert events[..|events|] == events;
      var n := FindBirth(max, s256, events, |events|, j);
      BirthIsOrigin(max, s256, events, n, j);
    }
  }

  // ---------- One token per code, across the joint world ----------

  ghost predicate BornByCode(start: Plane, events: seq<Event>, n: nat, j: Jti)
  {
    n < |events| && ByCode(Run(start, events[..n]), events[n], j)
  }

  ghost function CodeOf(p: Plane, e: Event): O.Taken
    requires e.Redeem? && Redeeming(p, e).Some?
  {
    p.oauth.taken[e.exchange]
  }

  lemma RedeemedIsMinted(p: Plane, e: Event)
    requires e.Redeem? && Redeeming(p, e).Some?
    ensures Apply(p, e).oauth.minted == p.oauth.minted + [CodeOf(p, e)]
  {
  }

  ghost predicate Extends(a: seq<O.Taken>, b: seq<O.Taken>) { |a| <= |b| && b[..|a|] == a }

  lemma ExtendsFurther(a: seq<O.Taken>, b: seq<O.Taken>, c: seq<O.Taken>)
    requires Extends(a, b) && Extends(b, c)
    ensures Extends(a, c)
  {
    assert c[..|a|] == c[..|b|][..|a|];
  }

  function Minted(p: Plane): seq<O.Taken> { p.oauth.minted }

  lemma MintedGrows(p: Plane, e: Event)
    ensures Extends(Minted(p), Minted(Apply(p, e)))
  {
  }

  lemma {:induction false} ExtendsAlong(lists: seq<seq<O.Taken>>, n: nat, m: nat)
    requires n <= m < |lists| && forall k :: 0 < k < |lists| ==> Extends(lists[k - 1], lists[k])
    ensures Extends(lists[n], lists[m])
    decreases m
  {
    if n < m {
      ExtendsAlong(lists, n, m - 1);
      ExtendsFurther(lists[n], lists[m - 1], lists[m]);
    }
  }

  lemma MintedGrowsAt(start: Plane, events: seq<Event>, k: nat)
    requires k < |events|
    ensures Extends(Minted(Run(start, events[..k])), Minted(Run(start, events[..k + 1])))
  {
    RunNext(start, events, k);
    MintedGrows(Run(start, events[..k]), events[k]);
  }

  lemma MintedStays(start: Plane, events: seq<Event>, n: nat, m: nat)
    requires n <= m <= |events|
    ensures Extends(Minted(Run(start, events[..n])), Minted(Run(start, events[..m])))
  {
    var lists := seq(|events| + 1, k requires 0 <= k <= |events| => Minted(Run(start, events[..k])));
    forall k | 0 < k < |lists| ensures Extends(lists[k - 1], lists[k]) { MintedGrowsAt(start, events, k - 1); }
    ExtendsAlong(lists, n, m);
  }

  lemma SeparateCodes(a: seq<O.Taken>, x: O.Taken, b: seq<O.Taken>, y: O.Taken)
    requires Extends(a + [x], b)
    requires Apart(b + [y])
    ensures x.request.code != y.request.code
  {
    assert b[|a|] == b[..|a| + 1][|a|] == x;
    assert (b + [y])[|a|] == x && (b + [y])[|b|] == y;
  }

  lemma MintedApart(max: nat, s256: string -> string, events: seq<Event>)
    ensures Apart(Minted(Run(Initial(max, s256), events)))
  {
    var codes := ProjectsCodes(max, s256, events);
    O.OneTokenPerCode(codes, s256);
  }

  ghost predicate Apart(minted: seq<O.Taken>)
  {
    forall k, l :: 0 <= k < l < |minted| ==> minted[k].request.code != minted[l].request.code
  }

  lemma CodesDiffer(p: Plane, e: Event, q: Plane, f: Event)
    requires e.Redeem? && Redeeming(p, e).Some? && f.Redeem? && Redeeming(q, f).Some?
    requires Extends(Minted(Apply(p, e)), Minted(q)) && Apart(Minted(Apply(q, f)))
    ensures CodeOf(p, e).request.code != CodeOf(q, f).request.code
  {
    RedeemedIsMinted(p, e);
    RedeemedIsMinted(q, f);
    SeparateCodes(Minted(p), CodeOf(p, e), Minted(q), CodeOf(q, f));
  }

  lemma LaterCodeDiffers(max: nat, s256: string -> string, events: seq<Event>, n: nat, m: nat, i: Jti, j: Jti)
    requires BornByCode(Initial(max, s256), events, n, i) && BornByCode(Initial(max, s256), events, m, j) && n < m
    ensures CodeOf(Run(Initial(max, s256), events[..n]), events[n]).request.code
         != CodeOf(Run(Initial(max, s256), events[..m]), events[m]).request.code
  {
    var start := Initial(max, s256);
    RunNext(start, events, n);
    RunNext(start, events, m);
    MintedStays(start, events, n + 1, m);
    MintedApart(max, s256, events[..m + 1]);
    CodesDiffer(Run(start, events[..n]), events[n], Run(start, events[..m]), events[m]);
  }

  ghost predicate SameCode(start: Plane, events: seq<Event>, n: nat, m: nat, i: Jti, j: Jti)
  {
    && BornByCode(start, events, n, i) && BornByCode(start, events, m, j)
    && CodeOf(Run(start, events[..n]), events[n]).request.code == CodeOf(Run(start, events[..m]), events[m]).request.code
  }

  /** Two redemptions of one code are the same step: a code stands behind at most one token of a joint run. */
  lemma OneTokenPerCode(max: nat, s256: string -> string, events: seq<Event>, n: nat, m: nat, i: Jti, j: Jti)
    ensures SameCode(Initial(max, s256), events, n, m, i, j) ==> n == m && i == j
  {
    if SameCode(Initial(max, s256), events, n, m, i, j) {
      if n < m { LaterCodeDiffers(max, s256, events, n, m, i, j); }
      if m < n { LaterCodeDiffers(max, s256, events, m, n, j, i); }
    }
  }

  /** And the code goes back to one /authorize call of the code world's own run: taken in time, presented with the
      client, redirect URI, verifier and resource recorded there, and backed by the rows as they then were. */
  lemma CodeTokenWasAuthorized(max: nat, s256: string -> string, events: seq<Event>, n: nat, j: Jti) returns (codes: seq<O.Event>, k: nat)
    requires BornByCode(Initial(max, s256), events, n, j)
    ensures var t := CodeOf(Run(Initial(max, s256), events[..n]), events[n]);
      && O.Run(codes, s256) == Run(Initial(max, s256), events[..n + 1]).oauth
      && O.AuthorizedAt(codes, k, t.request.code, t.data, s256) && t.at < O.Run(codes[..k], s256).now + 120_000
      && t.request.client == t.data.client && t.request.redirect == t.data.redirect
      && s256(t.request.verifier) == t.data.challenge
      && (t.data.resource.Some? ==> t.request.resource == t.data.resource)
      && O.Backed(O.Run(codes[..k], s256).clients, O.Run(codes[..k], s256).agents, t.data)
  {
    var p := Run(Initial(max, s256), events[..n]);
    RunNext(Initial(max, s256), events, n);
    RedeemedIsMinted(p, events[n]);
    codes := ProjectsCodes(max, s256, events[..n + 1]);
    k := O.TokenWasAuthorized(codes, |p.oauth.minted|, s256);
  }
}
