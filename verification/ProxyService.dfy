/** The proxy as it runs one call from end to end, tied to the steps of the interleaved machine. */
module ProxyService {
  import opened Prelude
  import opened Policy
  import opened Proxy
  import CB = CircuitBreaker

  /** The steps one uninterrupted call performs: only a call the breaker lets through is sent, and only a sent
      call can succeed. */
  function Served(w: World, id: string, c: Call, engineUp: bool, cooling: bool, serverOk: bool): World
  {
    var checked := Apply(w, Check(id, c, engineUp));
    if id !in checked.calls then checked
    else if cooling then Apply(checked, Record(id, false))
    else Apply(Apply(checked, Send(id)), Record(id, serverOk))
  }

  /** The breaker after a forwarded call: it was asked, and told how the call went if one was made. */
  function AfterCall(b: CB.Breaker, server: string, serverOk: bool, start: int, end: int, threshold: nat, cooldown: int): CB.Breaker
  {
    var asked := CB.AfterAsking(b, server, start, cooldown);
    if CB.Cooling(b, server, start, cooldown) then asked
    else if serverOk then CB.AfterSuccess(asked, server)
    else CB.AfterFailure(asked, server, end, threshold)
  }

  /** What one uninterrupted call leaves behind, outcome by outcome. */
  lemma ServedLeaves(w: World, id: string, c: Call, engineUp: bool, cooling: bool, serverOk: bool)
    requires id !in w.used && w.calls.Keys <= w.used
    ensures var claimed := w.(used := w.used + {id});
      var ok := serverOk && !cooling;
      Served(w, id, c, engineUp, cooling, serverOk) ==
        match Judge(BindingsOf(w, c.agent, c.org), c, Tainted(w.sessions, c.org, c.trace), engineUp)
        case Blocked(kind) => Block(claimed, c, kind)
        case Forwarded(b) =>
          claimed.(sent := if cooling then w.sent else w.sent + [(id, c)],
                   sessions := w.sessions + [Session(c, if ok then Success else Error, None, b.untrusted && ok)],
                   audit := w.audit + [if ok then ToolCompleted else ToolCalled])
  {
    var verdict := Judge(BindingsOf(w, c.agent, c.org), c, Tainted(w.sessions, c.org, c.trace), engineUp);
    if verdict.Forwarded? {
      assert w.calls[id := Approved(c, verdict.binding)] - {id} == w.calls;
      assert w.calls[id := Approved(c, verdict.binding)][id := InFlight(c, verdict.binding)] - {id} == w.calls;
    }
  }

  /** ... and it keeps the denial counters in step with the rows and the audit log. */
  lemma ServedKeepsTallied(w: World, id: string, c: Call, engineUp: bool, cooling: bool, serverOk: bool)
    ensures Tallied(w) ==> Tallied(Served(w, id, c, engineUp, cooling, serverOk))
  {
    if Tallied(w) { TalliedCall(w, id, c, engineUp, serverOk); }
  }

  lemma TalliedCall(w: World, id: string, c: Call, engineUp: bool, serverOk: bool)
    requires Tallied(w)
    ensures var checked := Apply(w, Check(id, c, engineUp));
      Tallied(checked) && Tallied(Apply(checked, Record(id, false))) && Tallied(Apply(Apply(checked, Send(id)), Record(id, serverOk)))
  {
    var checked := Apply(w, Check(id, c, engineUp));
    StepKeepsTallied(w, Check(id, c, engineUp));
    StepKeepsTallied(checked, Record(id, false));
    StepKeepsTallied(checked, Send(id));
    StepKeepsTallied(Apply(checked, Send(id)), Record(id, serverOk));
  }

  class McpProxy {
    var bindings: map<(string, string), seq<Binding>>
    var sessions: seq<Session>
    var denials: map<Label, nat>
    var audit: seq<AuditAction>
    const breaker: CB.CircuitBreaker
    ghost var calls: map<string, Phase>
    ghost var used: set<string>
    ghost var sent: seq<(string, Call)>

    ghost function Abs(): World reads this { World(bindings, sessions, denials, audit, calls, used, sent) }

    ghost predicate Valid() reads this, breaker { breaker.Valid() && calls.Keys <= used }

    constructor (threshold: nat, cooldown: int)
      requires threshold >= 1
      ensures Valid() && Abs() == Fresh && fresh(breaker)
    {
      bindings, sessions, denials, audit := map[], [], map[], [];
      calls, used, sent := map[], {}, [];
      breaker := new CB.CircuitBreaker(threshold, cooldown);
    }

    /** Any earlier success of the trace from an untrusted source. */
    method TraceIsTainted(trace: string, org: string) returns (tainted: bool)
      ensures tainted <==> Tainted(sessions, org, trace)
    {
      for i := 0 to |sessions|
        invariant forall s :: s in sessions[..i] ==> !Taints(s, org, trace)
      {
        if Taints(sessions[i], org, trace) { return true; }
        assert sessions[..i + 1] == sessions[..i] + [sessions[i]];
      }
      assert sessions[..|sessions|] == sessions;
      return false;
    }

    method ResolveBinding(agent: string, org: string, server: string) returns (binding: Option<Binding>)
      ensures binding == Resolve(BindingsOf(Abs(), agent, org), server)
      ensures binding.Some? ==> Bound(BindingsOf(Abs(), agent, org), server, binding.value)
      ensures binding.None? ==> forall b :: !Bound(BindingsOf(Abs(), agent, org), server, b)
    {
      var entries := if (agent, org) in bindings then bindings[(agent, org)] else [];
      ResolveNone(entries, server);
      if Resolve(entries, server).Some? { ResolveExactly(entries, server, Resolve(entries, server).value); }
      for i := 0 to |entries|
        invariant Resolve(entries, server) == Resolve(entries[i..], server)
      {
        if entries[i].serverId == server {
          if entries[i].serverUrl.None? || entries[i].serverUrl.value == "" { return None; }
          return Some(entries[i]);
        }
        assert entries[i..][1..] == entries[i + 1..];
      }
      return None;
    }

    /** The gates in order; the first that fails blocks the call. */
    method Gate(c: Call, engineUp: bool) returns (verdict: Verdict)
      ensures verdict == Judge(BindingsOf(Abs(), c.agent, c.org), c, Tainted(sessions, c.org, c.trace), engineUp)
    {
      var binding := ResolveBinding(c.agent, c.org, c.server);
      if binding.None? { return Blocked(BindingDenied); }
      if c.claims.resource.Some? && c.claims.resource.value != c.server { return Blocked(ResourceDenied); }
      if c.claims.task.Some? && (c.server, c.tool) !in c.claims.task.value { return Blocked(TaskScopeDenied); }
      var tainted := TraceIsTainted(c.trace, c.org);
      var answer := CheckPermission(PolicyInput(binding.value, c, tainted), engineUp);
      if answer.Denied? { return Blocked(ClassifyDenial(answer.reasons)); }
      if binding.value.toolFilter.Some? && c.tool !in binding.value.toolFilter.value { return Blocked(ToolFilterDenied); }
      return Forwarded(binding.value);
    }

    /** Counts, records and audits a denial. */
    method RecordBlock(c: Call, kind: Label)
      modifies this`denials, this`sessions, this`audit
      ensures Abs() == Block(old(Abs()), c, kind)
    {
      denials := denials[kind := (if kind in denials then denials[kind] else 0) + 1];
      sessions := sessions + [Session(c, Refused, Some(kind), false)];
      audit := audit + [ToolBlocked];
    }

    /** Asks the breaker, makes the call if it may, and tells the breaker how it went. */
    method CallServer(server: string, serverOk: bool, start: int, end: int) returns (ok: bool)
      requires breaker.Valid()
      modifies breaker
      ensures breaker.Valid()
      ensures ok <==> serverOk && !CB.Cooling(old(breaker.Abs()), server, start, breaker.cooldown)
      ensures breaker.Abs() == AfterCall(old(breaker.Abs()), server, serverOk, start, end, breaker.threshold, breaker.cooldown)
    {
      var open := breaker.IsOpen(server, start);
      if open { return false; }
      if serverOk { breaker.RecordSuccess(server); } else { breaker.RecordFailure(server, end); }
      return serverOk;
    }

    /** Records how a forwarded call went. */
    method RecordResult(c: Call, untrusted: bool, ok: bool)
      modifies this`sessions, this`audit
      ensures sessions == old(sessions) + [Session(c, if ok then Success else Error, None, untrusted && ok)]
      ensures audit == old(audit) + [if ok then ToolCompleted else ToolCalled]
    {
      sessions := sessions + [Session(c, if ok then Success else Error, None, untrusted && ok)];
      audit := audit + [if ok then ToolCompleted else ToolCalled];
    }

    /** Calls the server for a call the gates let through, and records how it went. */
    method Forward(id: string, c: Call, binding: Binding, serverOk: bool, start: int, end: int) returns (ok: bool)
      requires breaker.Valid()
      modifies this`sent, this`sessions, this`audit, breaker
      ensures breaker.Valid()
      ensures breaker.Abs() == AfterCall(old(breaker.Abs()), c.server, serverOk, start, end, breaker.threshold, breaker.cooldown)
      ensures var cooling := old(CB.Cooling(breaker.Abs(), c.server, start, breaker.cooldown));
        && ok == (serverOk && !cooling)
        && Abs() == old(Abs()).(
             sent := if cooling then old(sent) else old(sent) + [(id, c)],
             sessions := old(sessions) + [Session(c, if ok then Success else Error, None, binding.untrusted && ok)],
             audit := old(audit) + [if ok then ToolCompleted else ToolCalled])
    {
      ghost var cooling := CB.Cooling(breaker.Abs(), c.server, start, breaker.cooldown);
      ok := CallServer(c.server, serverOk, start, end);
      if !cooling { sent := sent + [(id, c)]; }
      RecordResult(c, binding.untrusted, ok);
    }

    /** One tool call under a fresh session id. It keeps the denial counters in step with the rows and the audit. */
    method ExecuteTool(id: string, c: Call, engineUp: bool, serverOk: bool, start: int, end: int) returns (verdict: Verdict, ok: bool)
      requires Valid() && id !in used
      modifies this, breaker
      ensures Valid()
      ensures verdict == old(Judge(BindingsOf(Abs(), c.agent, c.org), c, Tainted(sessions, c.org, c.trace), engineUp))
      ensures verdict.Forwarded? ==> Bound(old(BindingsOf(Abs(), c.agent, c.org)), c.server, verdict.binding)
      ensures verdict.Forwarded? ==> verdict.binding.serverId == c.server
      ensures Abs() == Served(old(Abs()), id, c, engineUp, old(CB.Cooling(breaker.Abs(), c.server, start, breaker.cooldown)), serverOk)
      ensures breaker.Abs() == (if verdict.Blocked? then old(breaker.Abs()) else
        AfterCall(old(breaker.Abs()), c.server, serverOk, start, end, breaker.threshold, breaker.cooldown))
      ensures old(Tallied(Abs())) ==> Tallied(Abs())
    {
      ghost var cooling := CB.Cooling(breaker.Abs(), c.server, start, breaker.cooldown);
      ServedLeaves(Abs(), id, c, engineUp, cooling, serverOk);
      ServedKeepsTallied(Abs(), id, c, engineUp, cooling, serverOk);
      verdict := Gate(c, engineUp);
      if verdict.Forwarded? {
        ForwardedExactly(BindingsOf(Abs(), c.agent, c.org), c, Tainted(sessions, c.org, c.trace), engineUp, verdict.binding);
      }
      used := used + {id};
      ok := false;
      if verdict.Blocked? {
        RecordBlock(c, verdict.kind);
      } else {
        ok := Forward(id, c, verdict.binding, serverOk, start, end);
      }
    }
  }
}
