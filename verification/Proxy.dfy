/** The tool-call proxy: five gates in order, what each outcome records, and many calls in flight at once.
    A call's checks, its sending and the recording of its result are separate steps that interleave freely. */
module Proxy {
  import opened Prelude
  import opened Policy

  /** One entry of an agent's own mcp_bindings. */
  datatype Binding = Binding(
    serverId: string, serverUrl: Option<string>, toolFilter: Option<seq<string>>, untrusted: bool,
    capabilities: map<string, seq<string>>)

  /** The claims of the presented token the gates read. `task` lists the (server, tool) pairs of authorization_details. */
  datatype Claims = Claims(scopes: seq<string>, depth: int, resource: Option<string>, task: Option<seq<(string, string)>>)

  datatype Call = Call(agent: string, org: string, server: string, tool: string, trace: string, claims: Claims)

  // ---------- The gates ----------

  /** The agent's first binding for the server, if it has one with a usable url. */
  function Resolve(bindings: seq<Binding>, server: string): Option<Binding>
  {
    if bindings == [] then None
    else if bindings[0].serverId == server then
      (if bindings[0].serverUrl.Some? && bindings[0].serverUrl.value != "" then Some(bindings[0]) else None)
    else Resolve(bindings[1..], server)
  }

  function Capabilities(b: Binding, tool: string): seq<string>
  {
    if tool in b.capabilities then b.capabilities[tool] else []
  }

  function PolicyInput(b: Binding, c: Call, tainted: bool): Input
  {
    ToolInput(c.agent, c.org, c.tool, c.claims.scopes, c.claims.depth, Capabilities(b, c.tool), tainted)
  }

  datatype Verdict = Blocked(kind: Label) | Forwarded(binding: Binding)

  /** The first gate that fails names the denial. */
  function Judge(bindings: seq<Binding>, c: Call, tainted: bool, engineUp: bool): Verdict
  {
    var b := Resolve(bindings, c.server);
    if b.None? then Blocked(BindingDenied)
    else if c.claims.resource.Some? && c.claims.resource.value != c.server then Blocked(ResourceDenied)
    else if c.claims.task.Some? && (c.server, c.tool) !in c.claims.task.value then Blocked(TaskScopeDenied)
    else
      var answer := CheckPermission(PolicyInput(b.value, c, tainted), engineUp);
      if answer.Denied? then Blocked(ClassifyDenial(answer.reasons))
      else if b.value.toolFilter.Some? && c.tool !in b.value.toolFilter.value then Blocked(ToolFilterDenied)
      else Forwarded(b.value)
  }

  /** What a forwarded call has shown: its own binding, its token's server and tool, its scope, an
      unblocked tool, the binding's allowlist, and no high-risk capability if its trace was tainted. */
  lemma ForwardedMeans(bindings: seq<Binding>, c: Call, tainted: bool, engineUp: bool)
    ensures Judge(bindings, c, tainted, engineUp).Forwarded? <==>
      var b := Resolve(bindings, c.server);
      && b.Some? && engineUp
      && (c.claims.resource.Some? ==> c.claims.resource.value == c.server)
      && (c.claims.task.Some? ==> (c.server, c.tool) in c.claims.task.value)
      && c.agent != "" && c.org != "" && "tool:execute" in c.claims.scopes && c.claims.depth <= POLICY_MAX_DEPTH
      && !IsBlockedTool(c.tool)
      && (tainted ==> !HighRisk(Capabilities(b.value, c.tool)))
      && (b.value.toolFilter.Some? ==> c.tool in b.value.toolFilter.value)
  {
    var b := Resolve(bindings, c.server);
    if b.Some? {
      var i := PolicyInput(b.value, c, tainted);
      assert TaintedHighRisk(i) <==> tainted && HighRisk(Capabilities(b.value, c.tool));
      assert !IsBlockedTool("");
      assert BlockedCall(i) <==> IsBlockedTool(c.tool);
      assert ScopeGranted(i) <==> "tool:execute" in c.claims.scopes;
      assert WellFormed(i) <==> c.agent != "" && c.org != "";
    }
  }

  // ---------- The gates, condition by condition ----------

  /** The agent's first entry for the server, and its url is usable. */
  ghost predicate Bound(bindings: seq<Binding>, server: string, b: Binding)
  {
    && b.serverUrl.Some? && b.serverUrl.value != "" && b.serverId == server
    && exists i :: 0 <= i < |bindings| && bindings[i] == b && forall j :: 0 <= j < i ==> bindings[j].serverId != server
  }

  lemma {:induction false} ResolveExactly(bindings: seq<Binding>, server: string, b: Binding)
    ensures Resolve(bindings, server) == Some(b) <==> Bound(bindings, server, b)
  {
    if bindings != [] && bindings[0].serverId != server {
      var rest := bindings[1..];
      ResolveExactly(rest, server, b);
      if Bound(rest, server, b) {
        var i :| 0 <= i < |rest| && rest[i] == b && forall j :: 0 <= j < i ==> rest[j].serverId != server;
        assert bindings[i + 1] == b && forall j :: 0 < j < i + 1 ==> bindings[j] == rest[j - 1];
      }
      if Bound(bindings, server, b) {
        var i :| 0 <= i < |bindings| && bindings[i] == b && forall j :: 0 <= j < i ==> bindings[j].serverId != server;
        assert rest[i - 1] == b && forall j :: 0 <= j < i - 1 ==> rest[j] == bindings[j + 1];
      }
    } else if bindings != [] {
      if Bound(bindings, server, b) {
        var i :| 0 <= i < |bindings| && bindings[i] == b && forall j :: 0 <= j < i ==> bindings[j].serverId != server;
        assert i == 0;
      }
    }
  }

  lemma ResolveNone(bindings: seq<Binding>, server: string)
    ensures Resolve(bindings, server).None? <==> forall b :: !Bound(bindings, server, b)
  {
    forall b ensures Resolve(bindings, server) == Some(b) <==> Bound(bindings, server, b) { ResolveExactly(bindings, server, b); }
    if Resolve(bindings, server).Some? { assert Bound(bindings, server, Resolve(bindings, server).value); }
  }

  /** The binding gives the tool a capability that may not follow untrusted content. */
  ghost predicate Risky(b: Binding, tool: string)
  {
    tool in b.capabilities && ("external_send" in b.capabilities[tool] || "credential_access" in b.capabilities[tool])
  }

  lemma RiskyIs(b: Binding, tool: string)
    ensures HighRisk(Capabilities(b, tool)) <==> Risky(b, tool)
  {
    if Risky(b, tool) {
      assert IsHighRisk("external_send") && IsHighRisk("credential_access");
    }
  }

  /** What the policy asks of a call besides taint. */
  ghost predicate PolicyAllows(c: Call)
  {
    && c.agent != "" && c.org != "" && "tool:execute" in c.claims.scopes && c.claims.depth <= 5
    && c.tool != "delete_database" && c.tool != "drop_table" && c.tool != "exfiltrate_data" && c.tool != "rm_rf"
  }

  ghost predicate OnTarget(c: Call)
  {
    && (c.claims.resource.Some? ==> c.claims.resource.value == c.server)
    && (c.claims.task.Some? ==> (c.server, c.tool) in c.claims.task.value)
  }

  ghost predicate Admits(b: Binding, tool: string) { b.toolFilter.Some? ==> tool in b.toolFilter.value }

  /** Every condition of a forwarded call, in the binding's entries, the token's claims and the call itself. The
      binding it is forwarded under is the agent's first for that very server. */
  lemma ForwardedExactly(bindings: seq<Binding>, c: Call, tainted: bool, engineUp: bool, b: Binding)
    ensures Judge(bindings, c, tainted, engineUp) == Forwarded(b) <==>
      && Bound(bindings, c.server, b) && engineUp && OnTarget(c) && PolicyAllows(c)
      && (tainted ==> !Risky(b, c.tool)) && Admits(b, c.tool)
  {
    ResolveExactly(bindings, c.server, b);
    ForwardedMeans(bindings, c, tainted, engineUp);
    RiskyIs(b, c.tool);
  }

  lemma PolicyAnswer(b: Binding, c: Call, tainted: bool, engineUp: bool)
    ensures var answer := CheckPermission(PolicyInput(b, c, tainted), engineUp);
      && (answer.Permitted? <==> engineUp && PolicyAllows(c) && (tainted ==> !Risky(b, c.tool)))
      && (answer.Denied? ==>
            ClassifyDenial(answer.reasons) ==
              if !engineUp then PolicyDown
              else if PolicyAllows(c) then ProvenanceDenied
              else PolicyDenied)
  {
    var i, clean := PolicyInput(b, c, tainted), PolicyInput(b, c, false);
    RiskyIs(b, c.tool);
    assert clean == i.(tainted := Some(false));
    assert Allow(clean) <==> PolicyAllows(c) by {
      assert !IsBlockedTool("") && (BlockedCall(clean) <==> IsBlockedTool(c.tool)) && !TaintedHighRisk(clean);
    }
    assert Allow(i) <==> PolicyAllows(c) && (tainted ==> !Risky(b, c.tool)) by {
      assert !IsBlockedTool("") && (BlockedCall(i) <==> IsBlockedTool(c.tool));
      assert TaintedHighRisk(i) <==> tainted && HighRisk(Capabilities(b, c.tool));
    }
    if CheckPermission(i, engineUp).Denied? { LabelMeaning(i, engineUp); LabelsOfPolicy(i, engineUp); }
  }

  lemma LabelsOfPolicy(i: Input, engineUp: bool)
    requires CheckPermission(i, engineUp).Denied?
    ensures ClassifyDenial(CheckPermission(i, engineUp).reasons) in {PolicyDown, ProvenanceDenied, PolicyDenied}
  {
  }

  /** Each label of a denied call is the first condition that fails. */
  lemma BlockedBecause(bindings: seq<Binding>, c: Call, tainted: bool, engineUp: bool)
    ensures var v := Judge(bindings, c, tainted, engineUp);
      && (v == Blocked(BindingDenied) <==> forall b :: !Bound(bindings, c.server, b))
      && forall b :: Bound(bindings, c.server, b) ==>
           v == if c.claims.resource.Some? && c.claims.resource.value != c.server then Blocked(ResourceDenied)
                else if c.claims.task.Some? && (c.server, c.tool) !in c.claims.task.value then Blocked(TaskScopeDenied)
                else if !engineUp then Blocked(PolicyDown)
                else if !PolicyAllows(c) then Blocked(PolicyDenied)
                else if tainted && Risky(b, c.tool) then Blocked(ProvenanceDenied)
                else if !Admits(b, c.tool) then Blocked(ToolFilterDenied)
                else Forwarded(b)
  {
    ResolveNone(bindings, c.server);
    forall b | Bound(bindings, c.server, b) ensures Resolve(bindings, c.server) == Some(b) { ResolveExactly(bindings, c.server, b); }
    if Resolve(bindings, c.server).Some? { PolicyAnswer(Resolve(bindings, c.server).value, c, tainted, engineUp); }
  }

  // ---------- What is recorded ----------

  datatype Status = Success | Error | Refused

  /** A recorded session; `decision` is None for an allowed call. */
  datatype Session = Session(call: Call, status: Status, decision: Option<Label>, untrusted: bool)

  datatype AuditAction = ToolCompleted | ToolCalled | ToolBlocked

  datatype Phase = Approved(call: Call, binding: Binding) | InFlight(call: Call, binding: Binding)

  /** Committed rows, counters and audit entries; calls in progress by session id. `sent` is history: every
      call forwarded to a server, with the id it ran under. */
  datatype World = World(
    bindings: map<(string, string), seq<Binding>>,
    sessions: seq<Session>,
    denials: map<Label, nat>,
    audit: seq<AuditAction>,
    calls: map<string, Phase>,
    used: set<string>,
    sent: seq<(string, Call)>)

  function BindingsOf(w: World, agent: string, org: string): seq<Binding>
  {
    if (agent, org) in w.bindings then w.bindings[(agent, org)] else []
  }

  predicate Taints(s: Session, org: string, trace: string)
  {
    s.call.org == org && s.call.trace == trace && s.untrusted && s.status == Success
  }

  predicate Tainted(sessions: seq<Session>, org: string, trace: string)
  {
    exists s :: s in sessions && Taints(s, org, trace)
  }

  function Denials(w: World, kind: Label): nat { if kind in w.denials then w.denials[kind] else 0 }

  function Block(w: World, c: Call, kind: Label): World
  {
    w.(denials := w.denials[kind := Denials(w, kind) + 1],
       sessions := w.sessions + [Session(c, Refused, Some(kind), false)],
       audit := w.audit + [ToolBlocked])
  }

  function Complete(w: World, phase: Phase, ok: bool): World
  {
    w.(sessions := w.sessions + [Session(phase.call, if ok then Success else Error, None, phase.binding.untrusted && ok)],
       audit := w.audit + [if ok then ToolCompleted else ToolCalled])
  }

  datatype Event =
    | SetBindings(agent: string, org: string, entries: seq<Binding>)
    | Check(id: string, call: Call, engineUp: bool)
    | Send(id: string)
    | Record(id: string, ok: bool)

  /** One step. Session ids are fresh. A call the breaker short-circuits is recorded as an error without being
      sent; a success is recorded only for a call that was sent. */
  function Apply(w: World, e: Event): World
  {
    match e
    case SetBindings(agent, org, entries) => w.(bindings := w.bindings[(agent, org) := entries])
    case Check(id, c, engineUp) =>
      if id in w.used then w
      else
        var claimed := w.(used := w.used + {id});
        (match Judge(BindingsOf(w, c.agent, c.org), c, Tainted(w.sessions, c.org, c.trace), engineUp)
         case Blocked(kind) => Block(claimed, c, kind)
         case Forwarded(b) => claimed.(calls := w.calls[id := Approved(c, b)]))
    case Send(id) =>
      if id in w.calls && w.calls[id].Approved? then
        w.(calls := w.calls[id := InFlight(w.calls[id].call, w.calls[id].binding)], sent := w.sent + [(id, w.calls[id].call)])
      else w
    case Record(id, ok) =>
      if id in w.calls && (ok ==> w.calls[id].InFlight?) then Complete(w, w.calls[id], ok).(calls := w.calls - {id}) else w
  }

  function Run(w: World, events: seq<Event>): World
  {
    if events == [] then w else Apply(Run(w, events[..|events| - 1]), events[|events| - 1])
  }

  const Fresh: World := World(map[], [], map[], [], map[], {}, [])

  // ---------- What each step leaves, column by column ----------

  /** A blocked check adds one row for the call with its label, one to that label's counter and one blocked entry, and
      starts nothing; a passed check adds none of these and starts the call under its binding. */
  lemma CheckRecords(w: World, id: string, c: Call, engineUp: bool)
    requires id !in w.used
    ensures var w', v := Apply(w, Check(id, c, engineUp)), Judge(BindingsOf(w, c.agent, c.org), c, Tainted(w.sessions, c.org, c.trace), engineUp);
      && w'.used == w.used + {id} && w'.bindings == w.bindings && w'.sent == w.sent
      && if v.Blocked? then
           && w'.sessions == w.sessions + [Session(c, Refused, Some(v.kind), false)] && w'.audit == w.audit + [ToolBlocked]
           && w'.calls == w.calls
           && forall kind :: Denials(w', kind) == Denials(w, kind) + if kind == v.kind then 1 else 0
         else
           && w'.sessions == w.sessions && w'.audit == w.audit && w'.denials == w.denials
           && w'.calls == w.calls[id := Approved(c, v.binding)]
  {
  }

  /** An agent's bindings are the last ones set for it in its organisation. */
  lemma BindingsAreSet(w: World, agent: string, org: string, entries: seq<Binding>, other: string, elsewhere: string)
    ensures var w' := Apply(w, SetBindings(agent, org, entries));
      && BindingsOf(w', agent, org) == entries
      && ((other, elsewhere) != (agent, org) ==> BindingsOf(w', other, elsewhere) == BindingsOf(w, other, elsewhere))
      && w' == w.(bindings := w'.bindings)
  {
  }

  /** A result adds one row for the call, successful exactly if it was, untrusted exactly if it was and its binding is,
      and one entry that says which; it ends the call. A success of a call that was never sent is not recorded. */
  lemma RecordRecords(w: World, id: string, ok: bool)
    requires id in w.calls
    ensures var w', phase := Apply(w, Record(id, ok)), w.calls[id];
      if ok && phase.Approved? then w' == w
      else
        && w'.sessions == w.sessions + [Session(phase.call, if ok then Success else Error, None, ok && phase.binding.untrusted)]
        && w'.audit == w.audit + [if ok then ToolCompleted else ToolCalled]
        && w'.denials == w.denials && w'.calls == w.calls - {id} && w'.sent == w.sent && w'.bindings == w.bindings
  {
  }

  // ---------- Counting denials ----------

  function CountKind(sessions: seq<Session>, kind: Label): nat
  {
    if sessions == [] then 0
    else CountKind(sessions[..|sessions| - 1], kind) + if sessions[|sessions| - 1].decision == Some(kind) then 1 else 0
  }

  function CountRefused(sessions: seq<Session>): nat
  {
    if sessions == [] then 0
    else CountRefused(sessions[..|sessions| - 1]) + if sessions[|sessions| - 1].status == Refused then 1 else 0
  }

  function CountBlocked(audit: seq<AuditAction>): nat
  {
    if audit == [] then 0
    else CountBlocked(audit[..|audit| - 1]) + if audit[|audit| - 1] == ToolBlocked then 1 else 0
  }

  function TotalDenials(w: World): nat
  {
    Denials(w, PolicyDenied) + Denials(w, ProvenanceDenied) + Denials(w, PolicyDown) + Denials(w, ToolFilterDenied)
    + Denials(w, BindingDenied) + Denials(w, ResourceDenied) + Denials(w, TaskScopeDenied)
  }

  ghost predicate Tallied(w: World)
  {
    && (forall kind :: Denials(w, kind) == CountKind(w.sessions, kind))
    && TotalDenials(w) == CountRefused(w.sessions) == CountBlocked(w.audit)
    && |w.sessions| == |w.audit|
  }

  lemma CountAppend(sessions: seq<Session>, s: Session, audit: seq<AuditAction>, a: AuditAction)
    ensures forall kind :: CountKind(sessions + [s], kind) == CountKind(sessions, kind) + if s.decision == Some(kind) then 1 else 0
    ensures CountRefused(sessions + [s]) == CountRefused(sessions) + if s.status == Refused then 1 else 0
    ensures CountBlocked(audit + [a]) == CountBlocked(audit) + if a == ToolBlocked then 1 else 0
  {
    assert (sessions + [s])[..|sessions|] == sessions && (audit + [a])[..|audit|] == audit;
  }

  lemma DenialCounted(w: World, c: Call, kind: Label)
    ensures var w' := Block(w, c, kind);
      && (forall k :: Denials(w', k) == Denials(w, k) + if k == kind then 1 else 0)
      && TotalDenials(w') == TotalDenials(w) + 1
  {
    var w' := Block(w, c, kind);
    forall k ensures Denials(w', k) == Denials(w, k) + if k == kind then 1 else 0 {
    }
  }

  lemma BlockTallied(w: World, c: Call, kind: Label)
    requires Tallied(w)
    ensures Tallied(Block(w, c, kind))
  {
    DenialCounted(w, c, kind);
    CountAppend(w.sessions, Session(c, Refused, Some(kind), false), w.audit, ToolBlocked);
  }

  lemma CompleteTallied(w: World, phase: Phase, ok: bool)
    requires Tallied(w)
    ensures Tallied(Complete(w, phase, ok))
  {
    var s := Session(phase.call, if ok then Success else Error, None, phase.binding.untrusted && ok);
    CountAppend(w.sessions, s, w.audit, if ok then ToolCompleted else ToolCalled);
  }

  lemma CheckKeepsTallied(w: World, e: Event)
    requires Tallied(w) && e.Check?
    ensures Tallied(Apply(w, e))
  {
    var c := e.call;
    var verdict := Judge(BindingsOf(w, c.agent, c.org), c, Tainted(w.sessions, c.org, c.trace), e.engineUp);
    if e.id !in w.used && verdict.Blocked? { BlockTallied(w.(used := w.used + {e.id}), c, verdict.kind); }
  }

  lemma StepKeepsTallied(w: World, e: Event)
    requires Tallied(w)
    ensures Tallied(Apply(w, e))
  {
    match e
    case Check(_, _, _) => CheckKeepsTallied(w, e);
    case Record(id, ok) =>
      if id in w.calls && (ok ==> w.calls[id].InFlight?) { CompleteTallied(w, w.calls[id], ok); }
    case _ =>
  }

  /** Over every run, each denial counter equals the blocked rows carrying its label, and their sum equals
      both the blocked rows and the blocked audit entries; every recorded call has one audit entry. */
  lemma {:induction false} DenialsAddUp(events: seq<Event>)
    ensures Tallied(Run(Fresh, events))
  {
    if events != [] {
      DenialsAddUp(events[..|events| - 1]);
      StepKeepsTallied(Run(Fresh, events[..|events| - 1]), events[|events| - 1]);
    }
  }
}
