/** The fixed-window rate limiter over Redis. `width` is 1000 * window_seconds; instants are milliseconds.
    Reading the clock, INCR and EXPIRE are separate steps that interleave across requests. */
module RateLimit {
  import opened Prelude

  datatype Key = Key(bucket: string, ip: string, window: int)

  /** A Redis counter, with the instant it expires once EXPIRE has been sent. */
  datatype Counter = Counter(count: nat, expires: Option<int>)

  datatype Request = Waiting(key: Key) | Counted(key: Key)

  /** History: one INCR, when it ran, and whether it let the request through. */
  datatype Hit = Hit(key: Key, at: int, admitted: bool)

  datatype World = World(now: int, counters: map<Key, Counter>, requests: map<int, Request>, hits: seq<Hit>)

  datatype Event = Tick(to: int) | Arrive(id: int, bucket: string, ip: string) | Incr(id: int) | Expire(id: int)

  function Window(now: int, width: nat): int requires width >= 1 { now / width }

  predicate Alive(c: Counter, now: int) { c.expires.Some? ==> now < c.expires.value }

  function Count(counters: map<Key, Counter>, key: Key, now: int): nat
  {
    if key in counters && Alive(counters[key], now) then counters[key].count else 0
  }

  /** INCR keeps the expiry of a counter that exists and otherwise creates one that has none. */
  function Incremented(counters: map<Key, Counter>, key: Key, now: int): map<Key, Counter>
  {
    counters[key := if key in counters && Alive(counters[key], now)
                    then Counter(counters[key].count + 1, counters[key].expires) else Counter(1, None)]
  }

  /** EXPIRE does nothing to a counter that is gone. */
  function Expiring(counters: map<Key, Counter>, key: Key, now: int, width: nat): map<Key, Counter>
  {
    if key in counters && Alive(counters[key], now) then counters[key := Counter(counters[key].count, Some(now + width))]
    else counters
  }

  /** One step. The request that created a counter, and no other, sends EXPIRE for it. */
  function Apply(w: World, e: Event, limit: string -> nat, width: nat): World
    requires width >= 1
  {
    match e
    case Tick(to) => if to >= w.now then w.(now := to) else w
    case Arrive(id, bucket, ip) =>
      if id in w.requests then w
      else w.(requests := w.requests[id := Waiting(Key(bucket, ip, Window(w.now, width)))])
    case Incr(id) =>
      if id in w.requests && w.requests[id].Waiting? then
        var key := w.requests[id].key;
        var count := Count(w.counters, key, w.now) + 1;
        w.(counters := Incremented(w.counters, key, w.now),
           requests := if count == 1 then w.requests[id := Counted(key)] else w.requests - {id},
           hits := w.hits + [Hit(key, w.now, count <= limit(key.bucket))])
      else w
    case Expire(id) =>
      if id in w.requests && w.requests[id].Counted? then
        w.(counters := Expiring(w.counters, w.requests[id].key, w.now, width), requests := w.requests - {id})
      else w
  }

  function Run(w: World, events: seq<Event>, limit: string -> nat, width: nat): World
    requires width >= 1
  {
    if events == [] then w
    else Apply(Run(w, events[..|events| - 1], limit, width), events[|events| - 1], limit, width)
  }

  // ---------- What every step keeps ----------

  function Total(hits: seq<Hit>, key: Key): nat
  {
    if hits == [] then 0
    else Total(hits[..|hits| - 1], key) + if hits[|hits| - 1].key == key then 1 else 0
  }

  /** The INCR ran inside the window whose index it counts towards. */
  predicate Timely(h: Hit, width: nat) requires width >= 1 { Window(h.at, width) == h.key.window }

  /** Until its window is over, a counter exists as soon as it was hit, is not due to expire before the
      window ends, and has counted every hit. */
  ghost predicate CounterOk(w: World, key: Key, width: nat)
    requires width >= 1
  {
    Window(w.now, width) <= key.window ==>
      && Total(w.hits, key) == (if key in w.counters then w.counters[key].count else 0)
      && (key in w.counters ==> w.counters[key].expires.Some? ==> w.counters[key].expires.value >= (key.window + 1) * width)
  }

  ghost predicate HitOk(hits: seq<Hit>, i: nat, limit: string -> nat, width: nat)
    requires width >= 1 && i < |hits|
  {
    Timely(hits[i], width) ==> (hits[i].admitted <==> Total(hits[..i], hits[i].key) < limit(hits[i].key.bucket))
  }

  ghost predicate Inv(w: World, limit: string -> nat, width: nat)
    requires width >= 1
  {
    && (forall key :: CounterOk(w, key, width))
    && (forall id :: id in w.requests ==> w.requests[id].key.window <= Window(w.now, width))
    && (forall i :: 0 <= i < |w.hits| ==> HitOk(w.hits, i, limit, width))
  }

  /** While its window is current, a counter that meets the invariant is alive. */
  lemma WindowEnds(now: int, width: nat, window: int)
    requires width >= 1
    ensures Window(now, width) <= window ==> now < (window + 1) * width
    ensures window <= Window(now, width) ==> window * width <= now && (window + 1) * width <= now + width
  {
    var q := Window(now, width);
    assert q * width <= now < q * width + width;
    if q <= window { assert q * width <= window * width; }
    if window <= q { assert window * width <= q * width; }
  }

  lemma LaterWindow(a: int, b: int, width: nat)
    requires width >= 1 && a <= b
    ensures Window(a, width) <= Window(b, width)
  {
    WindowEnds(b, width, Window(b, width));
    if Window(a, width) > Window(b, width) {
      WindowEnds(a, width, Window(b, width) + 1);
      assert false;
    }
  }

  lemma IncrKeepsInv(w: World, id: int, limit: string -> nat, width: nat)
    requires width >= 1 && Inv(w, limit, width) && id in w.requests && w.requests[id].Waiting?
    ensures Inv(Apply(w, Incr(id), limit, width), limit, width)
  {
    var w' := Apply(w, Incr(id), limit, width);
    var hit := w'.hits[|w.hits|];
    var n := |w.hits|;
    assert w'.hits[..n] == w.hits && w'.hits[..|w'.hits| - 1] == w.hits;
    WindowEnds(w.now, width, hit.key.window);
    assert CounterOk(w, hit.key, width);
    forall key ensures CounterOk(w', key, width) {
      assert CounterOk(w, key, width);
    }
    forall i | 0 <= i < |w'.hits| ensures HitOk(w'.hits, i, limit, width) {
      if i < n { assert HitOk(w.hits, i, limit, width) && w'.hits[..i] == w.hits[..i]; }
    }
  }

  lemma StepKeepsInv(w: World, e: Event, limit: string -> nat, width: nat)
    requires width >= 1 && Inv(w, limit, width)
    ensures Inv(Apply(w, e, limit, width), limit, width)
  {
    var w' := Apply(w, e, limit, width);
    match e
    case Tick(to) =>
      LaterWindow(w.now, w'.now, width);
      forall key ensures CounterOk(w', key, width) { assert CounterOk(w, key, width); }
    case Arrive(id, bucket, ip) =>
      forall key ensures CounterOk(w', key, width) { assert CounterOk(w, key, width); }
    case Incr(id) =>
      if id in w.requests && w.requests[id].Waiting? { IncrKeepsInv(w, id, limit, width); }
    case Expire(id) =>
      forall key ensures CounterOk(w', key, width) {
        assert CounterOk(w, key, width);
        WindowEnds(w.now, width, key.window);
      }
  }

  lemma {:induction false} RunKeepsInv(now: int, events: seq<Event>, limit: string -> nat, width: nat)
    requires width >= 1
    ensures Inv(Run(World(now, map[], map[], []), events, limit, width), limit, width)
  {
    if events != [] {
      RunKeepsInv(now, events[..|events| - 1], limit, width);
      StepKeepsInv(Run(World(now, map[], map[], []), events[..|events| - 1], limit, width), events[|events| - 1], limit, width);
    }
  }

  /** In every run a counter that was hit in the current window is alive, and has counted every request of
      that window. */
  lemma CounterOutlivesWindow(now: int, events: seq<Event>, limit: string -> nat, width: nat, bucket: string, ip: string)
    requires width >= 1
    ensures var w := Run(World(now, map[], map[], []), events, limit, width);
      var key := Key(bucket, ip, Window(w.now, width));
      Count(w.counters, key, w.now) == Total(w.hits, key)
  {
    RunKeepsInv(now, events, limit, width);
    var w := Run(World(now, map[], map[], []), events, limit, width);
    var key := Key(bucket, ip, Window(w.now, width));
    assert CounterOk(w, key, width);
    WindowEnds(w.now, width, key.window);
  }

  /** In every run, a request counted inside the window it read is admitted exactly when fewer than `limit`
      requests of its client were counted in that window before it. */
  lemma AdmitsExactly(now: int, events: seq<Event>, limit: string -> nat, width: nat, i: nat)
    requires width >= 1
    requires var hits := Run(World(now, map[], map[], []), events, limit, width).hits; i < |hits| && Timely(hits[i], width)
    ensures var hits := Run(World(now, map[], map[], []), events, limit, width).hits;
      hits[i].admitted <==> Total(hits[..i], hits[i].key) < limit(hits[i].key.bucket)
  {
    RunKeepsInv(now, events, limit, width);
    assert HitOk(Run(World(now, map[], map[], []), events, limit, width).hits, i, limit, width);
  }

  lemma RunSnoc(w: World, events: seq<Event>, e: Event, limit: string -> nat, width: nat)
    requires width >= 1
    ensures Run(w, events + [e], limit, width) == Apply(Run(w, events, limit, width), e, limit, width)
  {
    assert (events + [e])[..|events|] == events;
  }

  // ---------- The limiter as it runs ----------

  /** The steps of one uninterrupted request. */
  function Served(w: World, id: int, bucket: string, ip: string, limit: string -> nat, width: nat): World
    requires width >= 1
  {
    Apply(Apply(Apply(w, Arrive(id, bucket, ip), limit, width), Incr(id), limit, width), Expire(id), limit, width)
  }

  /** One request on its own adds one to the counter of its bucket, address and current window, starting afresh if that
      has expired; the first of a counter, and no other, sets its expiry one width ahead; it is admitted exactly if the
      bucket's limit had not been reached; no other counter changes. */
  lemma ServedExactly(w: World, id: int, bucket: string, ip: string, limit: string -> nat, width: nat)
    requires width >= 1 && id !in w.requests
    ensures var w', key := Served(w, id, bucket, ip, limit, width), Key(bucket, ip, w.now / width);
      var before := if key in w.counters && (w.counters[key].expires.Some? ==> w.now < w.counters[key].expires.value)
                    then w.counters[key].count else 0;
      && w'.hits == w.hits + [Hit(key, w.now, before < limit(bucket))]
      && key in w'.counters && w'.counters - {key} == w.counters - {key}
      && w'.counters[key].count == before + 1
      && w'.counters[key].expires == (if before == 0 then Some(w.now + width) else w.counters[key].expires)
      && w'.requests == w.requests && w'.now == w.now
  {
  }

  lemma ServedKeepsInv(w: World, id: int, bucket: string, ip: string, limit: string -> nat, width: nat)
    requires width >= 1 && Inv(w, limit, width)
    ensures Inv(Served(w, id, bucket, ip, limit, width), limit, width)
  {
    var arrived := Apply(w, Arrive(id, bucket, ip), limit, width);
    StepKeepsInv(w, Arrive(id, bucket, ip), limit, width);
    StepKeepsInv(arrived, Incr(id), limit, width);
    StepKeepsInv(Apply(arrived, Incr(id), limit, width), Expire(id), limit, width);
  }

  class RateLimiter {
    const width: nat
    const limit: string -> nat
    var counters: map<Key, Counter>
    ghost var hits: seq<Hit>

    ghost function At(now: int): World reads this { World(now, counters, map[], hits) }

    constructor (width: nat, limit: string -> nat)
      ensures this.width == width && this.limit == limit && forall now :: At(now) == World(now, map[], map[], [])
    {
      this.width, this.limit := width, limit;
      counters, hits := map[], [];
    }

    /** Refuses with 429 over the limit; does nothing and lets everything through when Redis is down. */
    method Enforce(bucket: string, ip: string, now: int, redisUp: bool) returns (refused: bool)
      requires width >= 1
      modifies this
      ensures !redisUp ==> !refused && At(now) == old(At(now))
      ensures redisUp ==>
        && At(now) == Served(old(At(now)), 0, bucket, ip, limit, width)
        && hits == old(hits) + [Hit(Key(bucket, ip, Window(now, width)), now, !refused)]
      ensures old(Inv(At(now), limit, width)) ==> Inv(At(now), limit, width)
    {
      ghost var w := At(now);
      if Inv(w, limit, width) { ServedKeepsInv(w, 0, bucket, ip, limit, width); }
      var key := Key(bucket, ip, now / width);
      if !redisUp { return false; }
      var count := Count(counters, key, now) + 1;
      counters := Incremented(counters, key, now);
      if count == 1 { counters := Expiring(counters, key, now, width); }
      refused := count > limit(bucket);
      hits := hits + [Hit(key, now, !refused)];
      assert map[0 := Waiting(key)] - {0} == map[] && map[0 := Counted(key)] - {0} == map[];
    }
  }
}
