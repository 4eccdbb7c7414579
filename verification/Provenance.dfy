/** Taint across whole runs of the proxy: where it comes from, that it never clears, and what it stops. */
module Provenance {
  import opened Prelude
  import opened Policy
  import opened Proxy

  ghost predicate TaintedAt(events: seq<Event>, n: nat, org: string, trace: string)
    requires n <= |events|
  {
    Tainted(Run(Fresh, events[..n]).sessions, org, trace)
  }

  lemma RunSnoc(events: seq<Event>, e: Event)
    ensures Run(Fresh, events + [e]) == Apply(Run(Fresh, events), e)
  {
    assert (events + [e])[..|events|] == events;
  }

  lemma RunNext(events: seq<Event>, n: nat)
    requires n < |events|
    ensures Run(Fresh, events[..n + 1]) == Apply(Run(Fresh, events[..n]), events[n])
  {
    assert events[..n + 1][..n] == events[..n];
  }

  /** A trace becomes tainted by exactly one thing: recording the success of a sent call of that organisation
      and trace whose binding is marked untrusted. Blocked and errored calls never taint, and nothing untaints. */
  lemma TaintStep(w: World, e: Event, org: string, trace: string)
    ensures Tainted(Apply(w, e).sessions, org, trace) <==>
      || Tainted(w.sessions, org, trace)
      || (&& e.Record? && e.ok && e.id in w.calls && w.calls[e.id].InFlight?
          && w.calls[e.id].binding.untrusted && w.calls[e.id].call.org == org && w.calls[e.id].call.trace == trace)
  {
    var s, s' := w.sessions, Apply(w, e).sessions;
    assert |s| <= |s'| <= |s| + 1 && s'[..|s|] == s;
    if Tainted(s, org, trace) {
      var row :| row in s && Taints(row, org, trace);
      assert row in s';
    }
    if |s'| == |s| + 1 {
      assert s' == s + [s'[|s|]];
      if Taints(s'[|s|], org, trace) { assert s'[|s|] in s'; }
    } else {
      assert s' == s;
    }
  }

  lemma {:induction false} TaintStays(events: seq<Event>, i: nat, m: nat, org: string, trace: string)
    requires i <= m <= |events| && TaintedAt(events, i, org, trace)
    ensures TaintedAt(events, m, org, trace)
    decreases m
  {
    if i < m {
      TaintStays(events, i, m - 1, org, trace);
      RunNext(events, m - 1);
      TaintStep(Run(Fresh, events[..m - 1]), events[m - 1], org, trace);
    }
  }

  // ---------- Every sent call was judged ----------

  /** Event `n` is the policy check of session `id`, it was the first use of that id, and it let `c` through. */
  ghost predicate JudgedAt(events: seq<Event>, n: nat, id: string, c: Call)
  {
    && n < |events| && events[n].Check? && events[n].id == id && events[n].call == c
    && var w := Run(Fresh, events[..n]);
       && id !in w.used
       && Judge(BindingsOf(w, c.agent, c.org), c, Tainted(w.sessions, c.org, c.trace), events[n].engineUp).Forwarded?
  }

  ghost predicate Underway(w: World, id: string, c: Call)
  {
    (id, c) in w.sent || (id in w.calls && w.calls[id].call == c)
  }

  /** Whatever is in progress or has been forwarded passed all five gates at its own check. */
  lemma {:induction false} UnderwayWasJudged(events: seq<Event>, id: string, c: Call)
    requires Underway(Run(Fresh, events), id, c)
    ensures exists n: nat :: JudgedAt(events, n, id, c)
  {
    if events != [] {
      var k := |events| - 1;
      var init, last := events[..k], events[k];
      var w := Run(Fresh, init);
      if Underway(w, id, c) {
        UnderwayWasJudged(init, id, c);
        var n: nat :| JudgedAt(init, n, id, c);
        assert init[..n] == events[..n];
        assert JudgedAt(events, n, id, c);
      } else {
        assert last.Check?;
        assert JudgedAt(events, k, id, c);
      }
    }
  }

  lemma {:induction false} UsedStays(events: seq<Event>, n: nat, m: nat, id: string)
    requires n < m <= |events| && events[n].Check? && events[n].id == id
    ensures id in Run(Fresh, events[..m]).used
    decreases m
  {
    RunNext(events, m - 1);
    if n < m - 1 { UsedStays(events, n, m - 1, id); }
  }

  lemma CheckedOnce(events: seq<Event>, n: nat, m: nat, id: string, c: Call)
    requires JudgedAt(events, n, id, c)
    requires m < |events| && events[m].Check? && events[m].id == id && id !in Run(Fresh, events[..m]).used
    ensures n == m
  {
    if n < m { UsedStays(events, n, m, id); }
    if m < n { UsedStays(events, m, n, id); }
  }

  /** Provenance safety. Once an untrusted success is recorded for an organisation's trace, at any point `i` of
      any run, a call of that trace checked at any later point `m` whose tool carries a high-risk capability in
      its binding is never forwarded, at any time. */
  lemma TaintedTraceNeverSends(events: seq<Event>, i: nat, m: nat, c: Call)
    requires i <= m < |events| && TaintedAt(events, i, c.org, c.trace)
    requires events[m].Check? && events[m].call == c && events[m].id !in Run(Fresh, events[..m]).used
    requires exists b :: Bound(BindingsOf(Run(Fresh, events[..m]), c.agent, c.org), c.server, b) && Risky(b, c.tool)
    ensures forall other :: (events[m].id, other) !in Run(Fresh, events).sent
  {
    var b :| Bound(BindingsOf(Run(Fresh, events[..m]), c.agent, c.org), c.server, b) && Risky(b, c.tool);
    ResolveExactly(BindingsOf(Run(Fresh, events[..m]), c.agent, c.org), c.server, b);
    RiskyIs(b, c.tool);
    TaintStays(events, i, m, c.org, c.trace);
    var id, w := events[m].id, Run(Fresh, events[..m]);
    ForwardedMeans(BindingsOf(w, c.agent, c.org), c, true, events[m].engineUp);
    forall other ensures (id, other) !in Run(Fresh, events).sent {
      if (id, other) in Run(Fresh, events).sent {
        UnderwayWasJudged(events, id, other);
        var n: nat :| JudgedAt(events, n, id, other);
        CheckedOnce(events, n, m, id, other);
      }
    }
  }

  // ---------- Exactly which calls go out in a tainted trace ----------

  lemma {:induction false} LongerThanAll(used: set<string>) returns (id: string)
    ensures forall u :: u in used ==> |u| < |id|
    ensures id !in used
    decreases used
  {
    if used == {} {
      id := "0";
    } else {
      var u :| u in used;
      var rest := LongerThanAll(used - {u});
      id := if |u| < |rest| then rest else u + "0";
    }
  }

  /** An untrusted source anyone may read. */
  function Reader(c: Call): Call { Call("reader", c.org, "web", "read", c.trace, Claims(["tool:execute"], 0, None, None)) }

  const WEB: Binding := Binding("web", Some("http://web"), None, true, map[])

  lemma ReaderForwarded(c: Call, tainted: bool)
    requires c.org != ""
    ensures Judge([WEB], Reader(c), tainted, true) == Forwarded(WEB)
  {
    ForwardedMeans([WEB], Reader(c), tainted, true);
    assert Resolve([WEB], "web") == Some(WEB) && !HighRisk([]);
  }

  /** Four steps that taint a call's trace and leave the call itself where it was. */
  function Tainting(c: Call, rid: string): seq<Event>
  {
    [SetBindings("reader", c.org, [WEB]), Check(rid, Reader(c), true), Send(rid), Record(rid, true)]
  }

  lemma TaintingSteps(w: World, c: Call, rid: string)
    requires c.org != "" && rid !in w.used && rid !in w.calls
    ensures var w' := Apply(Apply(Apply(Apply(w, Tainting(c, rid)[0]), Tainting(c, rid)[1]), Tainting(c, rid)[2]), Tainting(c, rid)[3]);
      && Tainted(w'.sessions, c.org, c.trace)
      && forall id :: id in w.calls ==> id in w'.calls && w'.calls[id] == w.calls[id]
  {
    var w1 := Apply(w, Tainting(c, rid)[0]);
    ReaderForwarded(c, Tainted(w1.sessions, c.org, c.trace));
    var w2 := Apply(w1, Tainting(c, rid)[1]);
    assert w2 == w1.(used := w1.used + {rid}, calls := w1.calls[rid := Approved(Reader(c), WEB)]);
    var w3 := Apply(w2, Tainting(c, rid)[2]);
    var w4 := Apply(w3, Tainting(c, rid)[3]);
    var row := Session(Reader(c), Success, None, true);
    assert w4.sessions == w.sessions + [row] && row in w4.sessions && Taints(row, c.org, c.trace);
  }

  lemma RunTwo(events: seq<Event>, a: Event, b: Event)
    ensures Run(Fresh, events + [a, b]) == Apply(Apply(Run(Fresh, events), a), b)
  {
    var one := events + [a];
    assert events + [a, b] == one + [b];
    RunSnoc(events, a);
    RunSnoc(one, b);
  }

  lemma RunFour(events: seq<Event>, a: Event, b: Event, c: Event, d: Event)
    ensures Run(Fresh, events + [a, b, c, d]) == Apply(Apply(Apply(Apply(Run(Fresh, events), a), b), c), d)
  {
    RunTwo(events, a, b);
    RunTwo(events + [a, b], c, d);
    assert events + [a, b, c, d] == events + [a, b] + [c, d];
  }

  /** After `w` the call can be sent at once. */
  ghost predicate GoesOutTainted(w: World, id: string, c: Call)
  {
    Tainted(w.sessions, c.org, c.trace) && Apply(w, Send(id)).sent == w.sent + [(id, c)]
  }

  /** Some continuation of the run taints the call's trace and then sends the call. */
  ghost predicate CanGoOutTainted(events: seq<Event>, id: string, c: Call)
  {
    exists more: seq<Event> :: GoesOutTainted(Run(Fresh, events + more), id, c)
  }

  /** Event `m` is the first check under its id. */
  ghost predicate ChecksFirst(events: seq<Event>, m: nat, id: string, c: Call)
  {
    m < |events| && events[m].Check? && events[m].id == id && events[m].call == c && id !in Run(Fresh, events[..m]).used
  }

  ghost predicate LetThrough(events: seq<Event>, m: nat, tainted: bool)
    requires m < |events| && events[m].Check?
  {
    var w, c := Run(Fresh, events[..m]), events[m].call;
    Judge(BindingsOf(w, c.agent, c.org), c, tainted, events[m].engineUp).Forwarded?
  }

  ghost predicate CleanAt(events: seq<Event>, m: nat, c: Call)
    requires m < |events|
  {
    !Tainted(Run(Fresh, events[..m]).sessions, c.org, c.trace)
  }

  lemma SendNeedsApproval(w: World, id: string, c: Call)
    ensures Apply(w, Send(id)).sent == w.sent + [(id, c)] <==> id in w.calls && w.calls[id].Approved? && w.calls[id].call == c
  {
    assert |w.sent + [(id, c)]| == |w.sent| + 1 && (w.sent + [(id, c)])[|w.sent|] == (id, c);
    if id in w.calls && w.calls[id].Approved? { assert Apply(w, Send(id)).sent[|w.sent|] == (id, w.calls[id].call); }
  }

  lemma GoesOutMeansJudged(events: seq<Event>, m: nat, id: string, c: Call, more: seq<Event>)
    requires ChecksFirst(events, m, id, c) && GoesOutTainted(Run(Fresh, events[..m + 1] + more), id, c)
    ensures LetThrough(events, m, !CleanAt(events, m, c))
  {
    var all := events[..m + 1] + more;
    assert all[..m] == events[..m] && all[m] == events[m];
    var w := Run(Fresh, all);
    SendNeedsApproval(w, id, c);
    UnderwayWasJudged(all, id, c);
    var n: nat :| JudgedAt(all, n, id, c);
    CheckedOnce(all, n, m, id, c);
  }

  lemma LetThroughIsApproved(events: seq<Event>, m: nat, id: string, c: Call)
    requires ChecksFirst(events, m, id, c) && LetThrough(events, m, !CleanAt(events, m, c))
    ensures var w := Run(Fresh, events[..m + 1]); id in w.calls && w.calls[id].Approved? && w.calls[id].call == c
    ensures c.org != ""
  {
    RunNext(events, m);
    ForwardedMeans(BindingsOf(Run(Fresh, events[..m]), c.agent, c.org), c, !CleanAt(events, m, c), events[m].engineUp);
  }

  lemma JudgedGoesOut(events: seq<Event>, m: nat, id: string, c: Call)
    requires ChecksFirst(events, m, id, c) && LetThrough(events, m, !CleanAt(events, m, c))
    ensures CanGoOutTainted(events[..m + 1], id, c)
  {
    LetThroughIsApproved(events, m, id, c);
    var w := Run(Fresh, events[..m + 1]);
    var rid := LongerThanAll(w.used + w.calls.Keys);
    TaintingSteps(w, c, rid);
    var t := Tainting(c, rid);
    RunFour(events[..m + 1], t[0], t[1], t[2], t[3]);
    assert t == [t[0], t[1], t[2], t[3]];
    var w' := Run(Fresh, events[..m + 1] + Tainting(c, rid));
    SendNeedsApproval(w', id, c);
    assert GoesOutTainted(w', id, c);
  }

  /** The exact reach of taint. Whatever the run, a call checked at `m` can still go out in a tainted trace if and
      only if the gates let it through at `m`. If its binding gives the tool a high-risk capability, that is: if and
      only if every other gate lets it through and its trace was clean at the check. */
  lemma GoesOutTaintedExactly(events: seq<Event>, m: nat, id: string, c: Call)
    requires ChecksFirst(events, m, id, c)
    ensures CanGoOutTainted(events[..m + 1], id, c) <==> LetThrough(events, m, !CleanAt(events, m, c))
    ensures (exists b :: Bound(BindingsOf(Run(Fresh, events[..m]), c.agent, c.org), c.server, b) && Risky(b, c.tool)) ==>
        (CanGoOutTainted(events[..m + 1], id, c) <==> LetThrough(events, m, false) && CleanAt(events, m, c))
  {
    if CanGoOutTainted(events[..m + 1], id, c) {
      var more: seq<Event> :| GoesOutTainted(Run(Fresh, events[..m + 1] + more), id, c);
      GoesOutMeansJudged(events, m, id, c, more);
    }
    if LetThrough(events, m, !CleanAt(events, m, c)) { JudgedGoesOut(events, m, id, c); }
    var bindings := BindingsOf(Run(Fresh, events[..m]), c.agent, c.org);
    if exists b :: Bound(bindings, c.server, b) && Risky(b, c.tool) {
      var b :| Bound(bindings, c.server, b) && Risky(b, c.tool);
      ResolveExactly(bindings, c.server, b);
      RiskyIs(b, c.tool);
    }
    ForwardedMeans(bindings, c, true, events[m].engineUp);
    ForwardedMeans(bindings, c, false, events[m].engineUp);
  }

  // ---------- The limit of the guarantee, on one run ----------

  const SENDER: Binding := Binding("mail", Some("http://mail"), None, false, map["send" := ["external_send"]])

  function GapSend(): Call { Call("a", "o", "mail", "send", "t", Claims(["tool:execute"], 0, None, None)) }

  /** "Checked later" cannot be weakened to "sent later": a high-risk call checked while its trace is clean can be
      sent after a concurrent call has tainted the trace. */
  lemma ConcurrentCheckGap()
    ensures var events := [SetBindings("a", "o", [SENDER]), Check("1", GapSend(), true)];
      CanGoOutTainted(events, "1", GapSend()) && HighRisk(Capabilities(SENDER, "send"))
  {
    var e0, e1 := SetBindings("a", "o", [SENDER]), Check("1", GapSend(), true);
    var events := [e0, e1];
    assert events[..1] == [] + [e0] && events[..2] == events;
    RunSnoc([], e0);
    var w := Run(Fresh, events[..1]);
    assert BindingsOf(w, "a", "o") == [SENDER] && Resolve([SENDER], "mail") == Some(SENDER);
    ForwardedMeans([SENDER], GapSend(), false, true);
    GoesOutTaintedExactly(events, 1, "1", GapSend());
    assert "external_send" in Capabilities(SENDER, "send") && IsHighRisk("external_send");
  }
}
