/** The per-server circuit breaker, and how many network calls it lets through to a server that always fails. */
module CircuitBreaker {
  import opened Prelude

  /** Consecutive failures per server, and when a server was short-circuited; instants in milliseconds. */
  datatype Breaker = Breaker(failures: map<string, nat>, openedAt: map<string, int>)

  function Failures(b: Breaker, server: string): nat { if server in b.failures then b.failures[server] else 0 }

  predicate Cooling(b: Breaker, server: string, now: int, cooldown: int)
  {
    server in b.openedAt && now - b.openedAt[server] < cooldown
  }

  /** Asking whether a server is open also closes it again once the cooldown has passed. */
  function AfterAsking(b: Breaker, server: string, now: int, cooldown: int): Breaker
  {
    if server in b.openedAt && !Cooling(b, server, now, cooldown)
    then Breaker(b.failures[server := 0], b.openedAt - {server})
    else b
  }

  function AfterSuccess(b: Breaker, server: string): Breaker
  {
    Breaker(b.failures[server := 0], b.openedAt - {server})
  }

  function AfterFailure(b: Breaker, server: string, now: int, threshold: nat): Breaker
  {
    var count := Failures(b, server) + 1;
    Breaker(b.failures[server := count], if count >= threshold then b.openedAt[server := now] else b.openedAt)
  }

  /** A server is held open exactly when its failure streak has reached the threshold. */
  ghost predicate Consistent(b: Breaker, threshold: nat)
  {
    forall server :: server in b.openedAt <==> Failures(b, server) >= threshold
  }

  /** Every operation, in any interleaving, keeps the two maps in step. */
  lemma OperationsKeepConsistent(b: Breaker, server: string, now: int, cooldown: int, threshold: nat)
    requires threshold >= 1 && Consistent(b, threshold)
    ensures Consistent(AfterAsking(b, server, now, cooldown), threshold)
    ensures Consistent(AfterSuccess(b, server), threshold)
    ensures Consistent(AfterFailure(b, server, now, threshold), threshold)
  {
    var asked, won, lost := AfterAsking(b, server, now, cooldown), AfterSuccess(b, server), AfterFailure(b, server, now, threshold);
    forall s
      ensures s in asked.openedAt <==> Failures(asked, s) >= threshold
      ensures s in won.openedAt <==> Failures(won, s) >= threshold
      ensures s in lost.openedAt <==> Failures(lost, s) >= threshold
    {
      assert s in b.openedAt <==> Failures(b, s) >= threshold;
    }
  }

  class CircuitBreaker {
    const threshold: nat
    const cooldown: int
    var failures: map<string, nat>
    var openedAt: map<string, int>

    ghost function Abs(): Breaker reads this { Breaker(failures, openedAt) }

    ghost predicate Valid() reads this { threshold >= 1 && Consistent(Abs(), threshold) }

    constructor (threshold: nat, cooldown: int)
      requires threshold >= 1
      ensures Valid() && Abs() == Breaker(map[], map[]) && this.threshold == threshold && this.cooldown == cooldown
    {
      this.threshold, this.cooldown := threshold, cooldown;
      failures, openedAt := map[], map[];
    }

    method IsOpen(server: string, now: int) returns (open: bool)
      requires Valid()
      modifies this
      ensures Valid() && Abs() == AfterAsking(old(Abs()), server, now, cooldown)
      ensures open <==> Cooling(old(Abs()), server, now, cooldown)
    {
      OperationsKeepConsistent(Abs(), server, now, cooldown, threshold);
      if server !in openedAt { return false; }
      if now - openedAt[server] >= cooldown {
        openedAt := openedAt - {server};
        failures := failures[server := 0];
        return false;
      }
      return true;
    }

    method RecordSuccess(server: string)
      requires Valid()
      modifies this
      ensures Valid() && Abs() == AfterSuccess(old(Abs()), server)
    {
      OperationsKeepConsistent(Abs(), server, 0, cooldown, threshold);
      failures := failures[server := 0];
      openedAt := openedAt - {server};
    }

    method RecordFailure(server: string, now: int)
      requires Valid()
      modifies this
      ensures Valid() && Abs() == AfterFailure(old(Abs()), server, now, threshold)
    {
      OperationsKeepConsistent(Abs(), server, now, cooldown, threshold);
      var count := (if server in failures then failures[server] else 0) + 1;
      failures := failures[server := count];
      if count >= threshold { openedAt := openedAt[server := now]; }
    }
  }

  // ---------- A server that always fails ----------

  /** One proxied call: when it asks the breaker, and when its failure, if it was sent, is recorded. */
  datatype Attempt = Attempt(start: int, end: int)

  function AfterAttempt(b: Breaker, server: string, a: Attempt, threshold: nat, cooldown: int): Breaker
  {
    var asked := AfterAsking(b, server, a.start, cooldown);
    if Cooling(b, server, a.start, cooldown) then asked else AfterFailure(asked, server, a.end, threshold)
  }

  function AfterAttempts(b: Breaker, server: string, attempts: seq<Attempt>, threshold: nat, cooldown: int): Breaker
  {
    if attempts == [] then b
    else
      var n := |attempts| - 1;
      AfterAttempt(AfterAttempts(b, server, attempts[..n], threshold, cooldown), server, attempts[n], threshold, cooldown)
  }

  /** When network calls were made. */
  function Calls(b: Breaker, server: string, attempts: seq<Attempt>, threshold: nat, cooldown: int): seq<int>
  {
    if attempts == [] then []
    else
      var n := |attempts| - 1;
      var before := AfterAttempts(b, server, attempts[..n], threshold, cooldown);
      Calls(b, server, attempts[..n], threshold, cooldown)
        + if Cooling(before, server, attempts[n].start, cooldown) then [] else [attempts[n].start]
  }

  /** Sequential use: each attempt ends before the next starts. */
  ghost predicate Sequential(attempts: seq<Attempt>)
  {
    && (forall i :: 0 <= i < |attempts| ==> attempts[i].start <= attempts[i].end)
    && forall i, j :: 0 <= i < j < |attempts| ==> attempts[i].end <= attempts[j].start
  }

  /** Calls are in order, and any call is at least a cooldown after the one `threshold` places earlier. */
  ghost predicate Spaced(calls: seq<int>, threshold: nat, cooldown: int)
  {
    && (forall i, j :: 0 <= i < j < |calls| ==> calls[i] <= calls[j])
    && forall i :: 0 <= i && i + threshold < |calls| ==> calls[i] + cooldown <= calls[i + threshold]
  }

  ghost predicate Paced(b: Breaker, server: string, calls: seq<int>, now: int, threshold: nat, cooldown: int)
  {
    && Spaced(calls, threshold, cooldown)
    && (forall i :: 0 <= i < |calls| ==> calls[i] <= now)
    && if server in b.openedAt then forall i :: 0 <= i < |calls| ==> calls[i] <= b.openedAt[server]
       else forall i :: 0 <= i < |calls| - Failures(b, server) ==> calls[i] + cooldown <= now
  }

  lemma AttemptKeepsPace(b: Breaker, server: string, calls: seq<int>, a: Attempt, now: int, threshold: nat, cooldown: int)
    requires threshold >= 1 && Paced(b, server, calls, a.start, threshold, cooldown) && a.start <= a.end <= now
    requires server in b.openedAt <==> Failures(b, server) >= threshold
    ensures Paced(AfterAttempt(b, server, a, threshold, cooldown), server,
                  calls + (if Cooling(b, server, a.start, cooldown) then [] else [a.start]), now, threshold, cooldown)
  {
    if Cooling(b, server, a.start, cooldown) {
      assert calls + [] == calls;
    }
  }

  lemma {:induction false} CallsAreSpaced(b: Breaker, server: string, attempts: seq<Attempt>, now: int, threshold: nat, cooldown: int)
    requires threshold >= 1 && Consistent(b, threshold) && Sequential(attempts)
    requires forall i :: 0 <= i < |attempts| ==> attempts[i].end <= now
    ensures Consistent(AfterAttempts(b, server, attempts, threshold, cooldown), threshold)
    ensures Paced(AfterAttempts(b, server, attempts, threshold, cooldown), server,
                  Calls(b, server, attempts, threshold, cooldown), now, threshold, cooldown)
  {
    if attempts != [] {
      var n := |attempts| - 1;
      var init, a := attempts[..n], attempts[n];
      CallsAreSpaced(b, server, init, a.start, threshold, cooldown);
      var mid := AfterAttempts(b, server, init, threshold, cooldown);
      OperationsKeepConsistent(mid, server, a.start, cooldown, threshold);
      OperationsKeepConsistent(AfterAsking(mid, server, a.start, cooldown), server, a.end, cooldown, threshold);
      AttemptKeepsPace(mid, server, Calls(b, server, init, threshold, cooldown), a, now, threshold, cooldown);
    }
  }

  lemma {:induction false} SpacedBy(calls: seq<int>, i: nat, k: nat, threshold: nat, cooldown: int)
    requires Spaced(calls, threshold, cooldown) && i + k * threshold < |calls|
    ensures calls[i] + k * cooldown <= calls[i + k * threshold]
    decreases k
  {
    if k > 0 {
      assert k * threshold == (k - 1) * threshold + threshold && k * cooldown == (k - 1) * cooldown + cooldown;
      SpacedBy(calls, i, k - 1, threshold, cooldown);
      var m := i + (k - 1) * threshold;
      assert calls[m] + cooldown <= calls[m + threshold];
    } else {
      assert k * threshold == 0 && k * cooldown == 0;
    }
  }

  ghost function Inside(calls: seq<int>, from: int, width: int): set<int>
  {
    set i | 0 <= i < |calls| && from <= calls[i] <= from + width
  }

  lemma InsideNear(calls: seq<int>, threshold: nat, cooldown: int, from: int, width: nat, k: nat, lo: nat, i: int)
    requires Spaced(calls, threshold, cooldown) && k * cooldown > width
    requires lo < |calls| && calls[lo] >= from && i in Inside(calls, from, width)
    ensures i < lo + k * threshold
  {
    if lo + k * threshold < |calls| {
      SpacedBy(calls, lo, k, threshold, cooldown);
      assert calls[lo + k * threshold] > from + width;
    }
  }

  lemma FirstFrom(calls: seq<int>, from: int) returns (lo: nat)
    ensures lo <= |calls| && (lo < |calls| ==> calls[lo] >= from) && forall i :: 0 <= i < lo ==> calls[i] < from
  {
    lo := 0;
    while lo < |calls| && calls[lo] < from
      invariant lo <= |calls| && forall i :: 0 <= i < lo ==> calls[i] < from
    {
      lo := lo + 1;
    }
  }

  lemma SpacedCount(calls: seq<int>, threshold: nat, cooldown: int, from: int, width: nat, k: nat, n: nat)
    requires Spaced(calls, threshold, cooldown) && k * cooldown > width && n == k * threshold
    ensures |Inside(calls, from, width)| <= n
  {
    var inside := Inside(calls, from, width);
    var lo := FirstFrom(calls, from);
    RangeIs(lo, n);
    forall i | i in inside ensures i in Range(lo, n) {
      InsideNear(calls, threshold, cooldown, from, width, k, lo, i);
    }
    SubsetSize(inside, Range(lo, n));
  }

  lemma EnoughCooldowns(threshold: nat, cooldown: nat, width: nat) returns (k: nat, n: nat)
    requires cooldown >= 1
    ensures k == width / cooldown + 1 && n == threshold * k == k * threshold && k * cooldown > width
  {
    k := width / cooldown + 1;
    n := threshold * k;
    assert width == cooldown * (width / cooldown) + width % cooldown;
  }

  /** For a server that always fails under sequential use, any span of length `width` sees at most
      threshold * (width / cooldown + 1) network calls. */
  lemma FailingServerIsSpared(b: Breaker, server: string, attempts: seq<Attempt>, threshold: nat, cooldown: int, from: int, width: nat)
    requires threshold >= 1 && cooldown >= 1 && Consistent(b, threshold) && Sequential(attempts)
    ensures |Inside(Calls(b, server, attempts, threshold, cooldown), from, width)| <= threshold * (width / cooldown + 1)
  {
    var now := if attempts == [] then 0 else attempts[|attempts| - 1].end;
    CallsAreSpaced(b, server, attempts, now, threshold, cooldown);
    var k, n := EnoughCooldowns(threshold, cooldown, width);
    SpacedCount(Calls(b, server, attempts, threshold, cooldown), threshold, cooldown, from, width, k, n);
  }

  /** Once the cooldown has passed the breaker lets `threshold` failing calls through before it opens again,
      not a single trial call: the streak restarts from zero. */
  lemma {:induction false} HalfOpenTrial(b: Breaker, server: string, attempts: seq<Attempt>, threshold: nat, cooldown: int)
    requires Consistent(b, threshold) && server in b.openedAt && threshold >= 1 && 1 <= |attempts| <= threshold
    requires forall i :: 0 <= i < |attempts| ==> attempts[i].start - b.openedAt[server] >= cooldown
    ensures |Calls(b, server, attempts, threshold, cooldown)| == |attempts|
    ensures var after := AfterAttempts(b, server, attempts, threshold, cooldown);
      Failures(after, server) == |attempts| && (server in after.openedAt <==> |attempts| == threshold)
  {
    var n := |attempts| - 1;
    if n == 0 {
      assert attempts[..0] == [];
    } else {
      HalfOpenTrial(b, server, attempts[..n], threshold, cooldown);
    }
  }

  /** A failure adds one to the server's streak and holds it open from now if the streak has reached the threshold;
      asking a server whose cooldown has passed closes it and forgets its streak, and asking any other changes nothing. */
  lemma FailureAndAskingExactly(b: Breaker, server: string, now: int, threshold: nat, cooldown: int, other: string)
    ensures var failed := AfterFailure(b, server, now, threshold);
      && Failures(failed, server) == Failures(b, server) + 1
      && (Failures(b, server) + 1 >= threshold ==> server in failed.openedAt && failed.openedAt[server] == now)
      && (Failures(b, server) + 1 < threshold ==> failed.openedAt == b.openedAt)
      && (other != server ==> Failures(failed, other) == Failures(b, other) && (other in failed.openedAt <==> other in b.openedAt))
    ensures var asked := AfterAsking(b, server, now, cooldown);
      if server in b.openedAt && now >= b.openedAt[server] + cooldown
      then Failures(asked, server) == 0 && asked.openedAt == b.openedAt - {server} && (other != server ==> Failures(asked, other) == Failures(b, other))
      else asked == b
    ensures Cooling(b, server, now, cooldown) <==> server in b.openedAt && now < b.openedAt[server] + cooldown
  {
  }

  /** A success closes the server and forgets its failures, and no other server's. */
  lemma SuccessForgets(b: Breaker, server: string, other: string)
    ensures var after := AfterSuccess(b, server);
      && server !in after.openedAt && Failures(after, server) == 0
      && (other != server ==>
            && Failures(after, other) == Failures(b, other)
            && (other in after.openedAt <==> other in b.openedAt)
            && (other in b.openedAt ==> after.openedAt[other] == b.openedAt[other]))
  {
  }

  /** From a closed server, failing calls count up one by one and none is held back before the threshold. */
  lemma {:induction false} FailuresCount(b: Breaker, server: string, attempts: seq<Attempt>, threshold: nat, cooldown: int)
    requires server !in b.openedAt && threshold >= 1 && Failures(b, server) + |attempts| <= threshold
    ensures var after := AfterAttempts(b, server, attempts, threshold, cooldown);
      && Failures(after, server) == Failures(b, server) + |attempts|
      && (server in after.openedAt <==> |attempts| > 0 && Failures(b, server) + |attempts| == threshold)
      && |Calls(b, server, attempts, threshold, cooldown)| == |attempts|
  {
    if attempts != [] {
      var n := |attempts| - 1;
      FailuresCount(b, server, attempts[..n], threshold, cooldown);
    }
  }

  /** After a success a full threshold of failures goes through before the server is held open, whatever its streak
      was before. */
  lemma FullThresholdAfterSuccess(b: Breaker, server: string, attempts: seq<Attempt>, threshold: nat, cooldown: int)
    requires threshold >= 1 && |attempts| <= threshold
    ensures var after := AfterAttempts(AfterSuccess(b, server), server, attempts, threshold, cooldown);
      && (server in after.openedAt <==> |attempts| == threshold)
      && |Calls(AfterSuccess(b, server), server, attempts, threshold, cooldown)| == |attempts|
  {
    SuccessForgets(b, server, server);
    FailuresCount(AfterSuccess(b, server), server, attempts, threshold, cooldown);
  }
}
