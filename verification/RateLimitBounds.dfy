/** How much the fixed-window limiter admits when requests may be counted late: a request that read the clock in
    one window may run its INCR in a later one, after the counter it should have joined has expired. */
module RateLimitBounds {
  import opened Prelude
  import opened RateLimit

  /** The instant `m` windows after the start of the key's own. */
  function Edge(key: Key, m: int, width: nat): int { (key.window + m) * width }

  lemma EdgeNext(key: Key, m: int, width: nat)
    ensures Edge(key, m + 1, width) == Edge(key, m, width) + width
  {
    assert (key.window + m + 1) * width == (key.window + m) * width + width;
  }

  lemma Products(x: int, y: int, width: nat)
    requires x <= y
    ensures x * width <= y * width
  {
    assert (y - x) * width >= 0;
  }

  /** Admissions counted towards `key`, whenever their INCR ran. */
  function AdmittedEver(hits: seq<Hit>, key: Key): nat
  {
    if hits == [] then 0
    else
      var h := hits[|hits| - 1];
      AdmittedEver(hits[..|hits| - 1], key) + if h.key == key && h.admitted then 1 else 0
  }

  /** Admissions counted towards `key` by INCRs that ran before `cutoff`. */
  function AdmittedBefore(hits: seq<Hit>, key: Key, cutoff: int): nat
  {
    if hits == [] then 0
    else
      var h := hits[|hits| - 1];
      AdmittedBefore(hits[..|hits| - 1], key, cutoff) + if h.key == key && h.admitted && h.at < cutoff then 1 else 0
  }

  lemma {:induction false} BeforeWithinEver(hits: seq<Hit>, key: Key, cutoff: int)
    ensures AdmittedBefore(hits, key, cutoff) <= AdmittedEver(hits, key)
  {
    if hits != [] { BeforeWithinEver(hits[..|hits| - 1], key, cutoff); }
  }

  lemma HitAdded(hits: seq<Hit>, h: Hit, key: Key, cutoff: int)
    ensures AdmittedEver(hits + [h], key) == AdmittedEver(hits, key) + if h.key == key && h.admitted then 1 else 0
    ensures AdmittedBefore(hits + [h], key, cutoff)
         == AdmittedBefore(hits, key, cutoff) + if h.key == key && h.admitted && h.at < cutoff then 1 else 0
  {
    assert (hits + [h])[..|hits|] == hits;
  }

  // ---------- What every step keeps ----------

  /** The product, by repeated addition. */
  function Times(most: nat, n: nat): nat { if n == 0 then 0 else Times(most, n - 1) + most }

  lemma {:induction false} TimesIs(most: nat, n: nat)
    ensures Times(most, n) == most * n
    decreases n
  {
    if n > 0 {
      TimesIs(most, n - 1);
      assert most * n == most * (n - 1) + most;
    }
  }

  function Least(a: nat, b: nat): nat { if a < b then a else b }

  /** The key has had `c` counters. The last began no sooner than `c - 1` windows after the key's own and lasts at
      least to the end of the next; the earlier ones admitted at most the limit each. */
  ghost predicate Generation(w: World, key: Key, c: nat, most: nat, width: nat)
  {
    if c == 0 then key !in w.counters && AdmittedEver(w.hits, key) == 0
    else
      && key in w.counters && Edge(key, c - 1, width) <= w.now
      && (w.counters[key].expires.Some? ==> w.counters[key].expires.value >= Edge(key, c, width))
      && AdmittedEver(w.hits, key) <= Times(most, c - 1) + Least(w.counters[key].count, most)
  }

  ghost predicate Bounded(hits: seq<Hit>, key: Key, most: nat, width: nat)
  {
    forall m: nat :: AdmittedBefore(hits, key, Edge(key, m, width)) <= most * m
  }

  ghost predicate KeyOk(w: World, key: Key, most: nat, width: nat)
  {
    Bounded(w.hits, key, most, width) && exists c: nat :: Generation(w, key, c, most, width)
  }

  /** No request counts towards a window that has not begun. */
  ghost predicate NotEarly(w: World, width: nat)
    requires width >= 1
  {
    && (forall id :: id in w.requests ==> w.requests[id].key.window <= Window(w.now, width))
    && (forall i :: 0 <= i < |w.hits| ==> w.hits[i].key.window <= Window(w.hits[i].at, width))
  }

  ghost predicate LateInv(w: World, limit: string -> nat, width: nat)
    requires width >= 1
  {
    NotEarly(w, width) && forall key: Key :: KeyOk(w, key, limit(key.bucket), width)
  }

  lemma NotEarlyStays(w: World, e: Event, limit: string -> nat, width: nat)
    requires width >= 1 && NotEarly(w, width)
    ensures NotEarly(Apply(w, e, limit, width), width)
  {
    if e.Tick? { LaterWindow(w.now, Apply(w, e, limit, width).now, width); }
  }

  /** An INCR on a live counter continues it. */
  lemma CounterContinues(w: World, key: Key, c: nat, most: nat, width: nat)
    requires Generation(w, key, c, most, width) && key in w.counters && Alive(w.counters[key], w.now)
    ensures var count := w.counters[key].count + 1;
      c >= 1 && Generation(
        w.(counters := Incremented(w.counters, key, w.now), hits := w.hits + [Hit(key, w.now, count <= most)]), key, c, most, width)
  {
    HitAdded(w.hits, Hit(key, w.now, w.counters[key].count + 1 <= most), key, 0);
  }

  /** An INCR on none begins the next. */
  lemma CounterBegins(w: World, key: Key, c: nat, most: nat, width: nat)
    requires Generation(w, key, c, most, width) && Edge(key, 0, width) <= w.now
    requires !(key in w.counters && Alive(w.counters[key], w.now))
    ensures Generation(
      w.(counters := Incremented(w.counters, key, w.now), hits := w.hits + [Hit(key, w.now, 1 <= most)]), key, c + 1, most, width)
  {
    HitAdded(w.hits, Hit(key, w.now, 1 <= most), key, 0);
    assert AdmittedEver(w.hits, key) <= Times(most, c);
  }

  lemma IncrGeneration(w: World, key: Key, c: nat, most: nat, width: nat) returns (c': nat)
    requires Generation(w, key, c, most, width) && Edge(key, 0, width) <= w.now
    ensures var count := Count(w.counters, key, w.now) + 1;
      var w' := w.(counters := Incremented(w.counters, key, w.now), hits := w.hits + [Hit(key, w.now, count <= most)]);
      c' >= 1 && Generation(w', key, c', most, width)
  {
    if key in w.counters && Alive(w.counters[key], w.now) {
      CounterContinues(w, key, c, most, width);
      c' := c;
    } else {
      CounterBegins(w, key, c, most, width);
      c' := c + 1;
    }
  }

  /** Whatever was counted before the `m`-th edge came from the first `m` counters. */
  lemma GenerationBounds(w: World, key: Key, c: nat, most: nat, width: nat, m: nat)
    requires Generation(w, key, c, most, width) && c >= 1 && w.now < Edge(key, m, width)
    ensures AdmittedBefore(w.hits, key, Edge(key, m, width)) <= most * m
  {
    BeforeWithinEver(w.hits, key, Edge(key, m, width));
    if c > m { Products(key.window + m, key.window + c - 1, width); }
    if c <= m {
      TimesIs(most, c);
      Products(c, m, most);
    }
  }

  lemma IncrKeyOk(w: World, key: Key, most: nat, width: nat)
    requires width >= 1 && KeyOk(w, key, most, width) && Edge(key, 0, width) <= w.now
    ensures var count := Count(w.counters, key, w.now) + 1;
      KeyOk(w.(counters := Incremented(w.counters, key, w.now), hits := w.hits + [Hit(key, w.now, count <= most)]), key, most, width)
  {
    var c: nat :| Generation(w, key, c, most, width);
    var c' := IncrGeneration(w, key, c, most, width);
    var hit := Hit(key, w.now, Count(w.counters, key, w.now) + 1 <= most);
    var w' := w.(counters := Incremented(w.counters, key, w.now), hits := w.hits + [hit]);
    forall m: nat ensures AdmittedBefore(w'.hits, key, Edge(key, m, width)) <= most * m {
      HitAdded(w.hits, hit, key, Edge(key, m, width));
      if w.now < Edge(key, m, width) { GenerationBounds(w', key, c', most, width, m); }
    }
  }

  lemma ExpireKeyOk(w: World, key: Key, most: nat, width: nat)
    requires KeyOk(w, key, most, width)
    ensures KeyOk(w.(counters := Expiring(w.counters, key, w.now, width)), key, most, width)
  {
    var c: nat :| Generation(w, key, c, most, width);
    EdgeNext(key, c - 1, width);
    assert Generation(w.(counters := Expiring(w.counters, key, w.now, width)), key, c, most, width);
  }

  /** A step that leaves a key's counter and its admissions alone. */
  lemma UntouchedKeyOk(w: World, w': World, key: Key, most: nat, width: nat)
    requires KeyOk(w, key, most, width) && w.now <= w'.now
    requires key in w'.counters <==> key in w.counters
    requires key in w.counters ==> w'.counters[key] == w.counters[key]
    requires w'.hits == w.hits || (exists h :: w'.hits == w.hits + [h] && h.key != key)
    ensures KeyOk(w', key, most, width)
  {
    if w'.hits != w.hits {
      var h :| w'.hits == w.hits + [h] && h.key != key;
      forall cutoff ensures AdmittedBefore(w'.hits, key, cutoff) == AdmittedBefore(w.hits, key, cutoff) {
        HitAdded(w.hits, h, key, cutoff);
      }
      HitAdded(w.hits, h, key, 0);
    }
    var c: nat :| Generation(w, key, c, most, width);
    assert Generation(w', key, c, most, width);
  }

  lemma Begun(now: int, key: Key, width: nat)
    requires width >= 1 && key.window <= Window(now, width)
    ensures Edge(key, 0, width) <= now
  {
    WindowEnds(now, width, key.window);
  }

  lemma OwnIncrKeyOk(w: World, id: int, limit: string -> nat, width: nat)
    requires width >= 1 && NotEarly(w, width) && id in w.requests && w.requests[id].Waiting?
    requires KeyOk(w, w.requests[id].key, limit(w.requests[id].key.bucket), width)
    ensures KeyOk(Apply(w, Incr(id), limit, width), w.requests[id].key, limit(w.requests[id].key.bucket), width)
  {
    var w', key := Apply(w, Incr(id), limit, width), w.requests[id].key;
    Begun(w.now, key, width);
    IncrKeyOk(w, key, limit(key.bucket), width);
    UntouchedKeyOk(w.(counters := w'.counters, hits := w'.hits), w', key, limit(key.bucket), width);
  }

  lemma OwnExpireKeyOk(w: World, id: int, limit: string -> nat, width: nat)
    requires width >= 1 && id in w.requests && w.requests[id].Counted?
    requires KeyOk(w, w.requests[id].key, limit(w.requests[id].key.bucket), width)
    ensures KeyOk(Apply(w, Expire(id), limit, width), w.requests[id].key, limit(w.requests[id].key.bucket), width)
  {
    var w', key := Apply(w, Expire(id), limit, width), w.requests[id].key;
    ExpireKeyOk(w, key, limit(key.bucket), width);
    UntouchedKeyOk(w.(counters := w'.counters), w', key, limit(key.bucket), width);
  }

  lemma KeyOkStays(w: World, e: Event, key: Key, limit: string -> nat, width: nat)
    requires width >= 1 && NotEarly(w, width) && KeyOk(w, key, limit(key.bucket), width)
    ensures KeyOk(Apply(w, e, limit, width), key, limit(key.bucket), width)
  {
    if e.Incr? && e.id in w.requests && w.requests[e.id].Waiting? && w.requests[e.id].key == key {
      OwnIncrKeyOk(w, e.id, limit, width);
    } else if e.Expire? && e.id in w.requests && w.requests[e.id].Counted? && w.requests[e.id].key == key {
      OwnExpireKeyOk(w, e.id, limit, width);
    } else {
      var w' := Apply(w, e, limit, width);
      if w'.hits != w.hits { assert w'.hits == w.hits + [w'.hits[|w.hits|]]; }
      UntouchedKeyOk(w, w', key, limit(key.bucket), width);
    }
  }

  lemma StartKeyOk(now: int, key: Key, most: nat, width: nat)
    ensures KeyOk(World(now, map[], map[], []), key, most, width)
  {
    assert Generation(World(now, map[], map[], []), key, 0, most, width);
  }

  lemma {:induction false} RunKeepsLateInv(now: int, events: seq<Event>, limit: string -> nat, width: nat)
    requires width >= 1
    ensures LateInv(Run(World(now, map[], map[], []), events, limit, width), limit, width)
  {
    var start := World(now, map[], map[], []);
    if events == [] {
      forall key: Key ensures KeyOk(start, key, limit(key.bucket), width) { StartKeyOk(now, key, limit(key.bucket), width); }
    } else {
      var init, e := events[..|events| - 1], events[|events| - 1];
      RunKeepsLateInv(now, init, limit, width);
      NotEarlyStays(Run(start, init, limit, width), e, limit, width);
      forall key: Key ensures KeyOk(Run(start, events, limit, width), key, limit(key.bucket), width) {
        KeyOkStays(Run(start, init, limit, width), e, key, limit, width);
      }
    }
  }

  // ---------- One window ----------

  /** In every run, whatever the delays, INCRs that run less than `m` windows after the start of the window they
      count towards admit at most `m` times the limit. With `m` = 1: nothing counted before its window ended
      exceeds the limit. */
  lemma WindowBound(now: int, events: seq<Event>, key: Key, m: nat, limit: string -> nat, width: nat)
    requires width >= 1
    ensures AdmittedBefore(Run(World(now, map[], map[], []), events, limit, width).hits, key, Edge(key, m, width)) <= limit(key.bucket) * m
  {
    RunKeepsLateInv(now, events, limit, width);
    assert KeyOk(Run(World(now, map[], map[], []), events, limit, width), key, limit(key.bucket), width);
  }

  ghost predicate AdmitsAtMost(key: Key, cutoff: int, most: nat, limit: string -> nat, width: nat)
    requires width >= 1
  {
    forall now, events :: AdmittedBefore(Run(World(now, map[], map[], []), events, limit, width).hits, key, cutoff) <= most
  }

  /** That is exact: over all runs, INCRs that run before `cutoff` admit at most `m` times the limit if and only
      if `cutoff` is at most `m` windows after the start of the key's own, or the limit is zero. */
  lemma BoundExactly(key: Key, cutoff: int, m: nat, limit: string -> nat, width: nat)
    requires width >= 1
    ensures AdmitsAtMost(key, cutoff, limit(key.bucket) * m, limit, width)
      <==> cutoff <= Edge(key, m, width) || limit(key.bucket) == 0
  {
    if cutoff <= Edge(key, m, width) {
      forall now, events
        ensures AdmittedBefore(Run(World(now, map[], map[], []), events, limit, width).hits, key, cutoff) <= limit(key.bucket) * m
      {
        WindowBound(now, events, key, m, limit, width);
        SoonerAdmitsLess(Run(World(now, map[], map[], []), events, limit, width).hits, key, cutoff, Edge(key, m, width));
      }
    } else if limit(key.bucket) == 0 {
      forall now, events
        ensures AdmittedBefore(Run(World(now, map[], map[], []), events, limit, width).hits, key, cutoff) <= limit(key.bucket) * m
      {
        NothingAdmitted(now, events, key, cutoff, limit, width);
      }
    } else {
      var events := OneTooMany(key, m, cutoff, limit, width);
      assert AdmittedBefore(Run(World(Edge(key, 0, width), map[], map[], []), events, limit, width).hits, key, cutoff)
          > limit(key.bucket) * m;
    }
  }

  lemma {:induction false} SoonerAdmitsLess(hits: seq<Hit>, key: Key, sooner: int, later: int)
    requires sooner <= later
    ensures AdmittedBefore(hits, key, sooner) <= AdmittedBefore(hits, key, later)
  {
    if hits != [] { SoonerAdmitsLess(hits[..|hits| - 1], key, sooner, later); }
  }

  lemma {:induction false} NothingAdmitted(now: int, events: seq<Event>, key: Key, cutoff: int, limit: string -> nat, width: nat)
    requires width >= 1 && limit(key.bucket) == 0
    ensures AdmittedBefore(Run(World(now, map[], map[], []), events, limit, width).hits, key, cutoff) == 0
  {
    if events != [] {
      var w := Run(World(now, map[], map[], []), events[..|events| - 1], limit, width);
      NothingAdmitted(now, events[..|events| - 1], key, cutoff, limit, width);
      var after := Apply(w, events[|events| - 1], limit, width);
      if after.hits != w.hits { HitAdded(w.hits, after.hits[|w.hits|], key, cutoff); }
    }
  }

  // ---------- Runs that reach the bound ----------

  /** Requests `done` to `n - 1` of the key wait; its live counter, if any, stands at `count`; `admitted` were let
      through, all of them by now. */
  ghost predicate Waits(w: World, key: Key, done: nat, n: nat, count: nat, admitted: nat)
  {
    && (forall i: nat :: done <= i < n ==> i in w.requests && w.requests[i] == Waiting(key))
    && Count(w.counters, key, w.now) == count
    && AdmittedEver(w.hits, key) == admitted
  }

  /** The counter is due to expire exactly one width from now. */
  ghost predicate Fresh(w: World, key: Key, width: nat)
  {
    key in w.counters && w.counters[key].expires == Some(w.now + width)
  }

  lemma Arrived(w: World, key: Key, limit: string -> nat, width: nat, n: nat) returns (events: seq<Event>)
    requires width >= 1 && w == World(Edge(key, 0, width), map[], map[], [])
    ensures var w' := Run(w, events, limit, width);
      Waits(w', key, 0, n, 0, 0) && w'.now == w.now && w'.counters == map[] && w'.hits == [] && forall id :: id in w'.requests ==> 0 <= id < n
    decreases n
  {
    if n == 0 {
      events := [];
    } else {
      var init := Arrived(w, key, limit, width, n - 1);
      RunSnoc(w, init, Arrive(n - 1, key.bucket, key.ip), limit, width);
      events := init + [Arrive(n - 1, key.bucket, key.ip)];
      WindowStart(key, width);
    }
  }

  lemma WindowStart(key: Key, width: nat)
    requires width >= 1
    ensures Window(Edge(key, 0, width), width) == key.window
  {
    WindowEnds(Edge(key, 0, width), width, key.window);
    WindowEnds(Edge(key, 0, width), width, Window(Edge(key, 0, width), width));
    var q := Window(Edge(key, 0, width), width);
    if q < key.window { Products(q + 1, key.window, width); }
    if q > key.window { Products(key.window + 1, q, width); EdgeNext(key, 0, width); }
  }

  lemma IncrWaiting(w: World, key: Key, done: nat, n: nat, count: nat, admitted: nat, limit: string -> nat, width: nat)
    requires width >= 1 && Waits(w, key, done, n, count, admitted) && done < n && count < limit(key.bucket)
    ensures var w' := Apply(w, Incr(done), limit, width);
      && Waits(w', key, done + 1, n, count + 1, admitted + 1) && w'.now == w.now
      && (count > 0 && Fresh(w, key, width) ==> Fresh(w', key, width))
      && (count == 0 ==> done in w'.requests && w'.requests[done] == Counted(key))
  {
    var w' := Apply(w, Incr(done), limit, width);
    assert w.requests[done] == Waiting(key);
    HitAdded(w.hits, Hit(key, w.now, true), key, 0);
    assert w'.hits == w.hits + [Hit(key, w.now, true)];
    assert w'.counters == Incremented(w.counters, key, w.now);
  }

  /** The first request of a counter runs INCR and EXPIRE. */
  lemma Opened(w: World, key: Key, done: nat, n: nat, admitted: nat, limit: string -> nat, width: nat)
    requires width >= 1 && Waits(w, key, done, n, 0, admitted) && done < n && limit(key.bucket) > 0
    ensures var w' := Apply(Apply(w, Incr(done), limit, width), Expire(done), limit, width);
      Waits(w', key, done + 1, n, 1, admitted + 1) && w'.now == w.now && Fresh(w', key, width)
  {
    IncrWaiting(w, key, done, n, 0, admitted, limit, width);
  }

  lemma Filled(start: World, events: seq<Event>, key: Key, done: nat, n: nat, count: nat, admitted: nat, limit: string -> nat, width: nat)
      returns (more: seq<Event>)
    requires width >= 1 && 0 < count <= limit(key.bucket) && done + limit(key.bucket) - count <= n
    requires var w := Run(start, events, limit, width); Waits(w, key, done, n, count, admitted) && Fresh(w, key, width)
    ensures var left, w' := limit(key.bucket) - count, Run(start, more, limit, width);
      && Waits(w', key, done + left, n, limit(key.bucket), admitted + left) && Fresh(w', key, width)
      && w'.now == Run(start, events, limit, width).now
    decreases limit(key.bucket) - count
  {
    if count == limit(key.bucket) {
      more := events;
    } else {
      var w := Run(start, events, limit, width);
      IncrWaiting(w, key, done, n, count, admitted, limit, width);
      RunSnoc(start, events, Incr(done), limit, width);
      more := Filled(start, events + [Incr(done)], key, done + 1, n, count + 1, admitted + 1, limit, width);
    }
  }

  /** One more full counter, and the clock at the instant it expires. */
  lemma OneMoreCounter(start: World, events: seq<Event>, key: Key, done: nat, n: nat, limit: string -> nat, width: nat)
      returns (more: seq<Event>)
    requires width >= 1 && limit(key.bucket) > 0 && done + limit(key.bucket) <= n
    requires Waits(Run(start, events, limit, width), key, done, n, 0, done)
    ensures var w' := Run(start, more, limit, width);
      Waits(w', key, done + limit(key.bucket), n, 0, done + limit(key.bucket)) && w'.now == Run(start, events, limit, width).now + width
  {
    var w := Run(start, events, limit, width);
    Opened(w, key, done, n, done, limit, width);
    RunSnoc(start, events, Incr(done), limit, width);
    RunSnoc(start, events + [Incr(done)], Expire(done), limit, width);
    var begun := events + [Incr(done)] + [Expire(done)];
    var full := Filled(start, begun, key, done + 1, n, 1, done + 1, limit, width);
    var f := Run(start, full, limit, width);
    RunSnoc(start, full, Tick(f.now + width), limit, width);
    more := full + [Tick(f.now + width)];
  }

  /** Whatever has run, ran by now. */
  lemma {:induction false} EverIsBefore(now: int, events: seq<Event>, key: Key, cutoff: int, limit: string -> nat, width: nat)
    requires width >= 1
    ensures var w := Run(World(now, map[], map[], []), events, limit, width);
      w.now < cutoff ==> AdmittedBefore(w.hits, key, cutoff) == AdmittedEver(w.hits, key)
  {
    if events != [] {
      var w := Run(World(now, map[], map[], []), events[..|events| - 1], limit, width);
      EverIsBefore(now, events[..|events| - 1], key, cutoff, limit, width);
      var after := Apply(w, events[|events| - 1], limit, width);
      if after.hits != w.hits { HitAdded(w.hits, after.hits[|w.hits|], key, cutoff); }
    }
  }

  lemma Full(key: Key, g: nat, n: nat, limit: string -> nat, width: nat) returns (events: seq<Event>)
    requires width >= 1 && limit(key.bucket) > 0 && g * limit(key.bucket) <= n
    ensures var w := Run(World(Edge(key, 0, width), map[], map[], []), events, limit, width);
      Waits(w, key, g * limit(key.bucket), n, 0, g * limit(key.bucket)) && w.now == Edge(key, g, width)
    decreases g
  {
    var start := World(Edge(key, 0, width), map[], map[], []);
    if g == 0 {
      events := Arrived(start, key, limit, width, n);
    } else {
      assert g * limit(key.bucket) == (g - 1) * limit(key.bucket) + limit(key.bucket);
      var init := Full(key, g - 1, n, limit, width);
      events := OneMoreCounter(start, init, key, (g - 1) * limit(key.bucket), n, limit, width);
      EdgeNext(key, g - 1, width);
    }
  }

  /** Requests that all read the clock in one window, counted one full counter after another. */
  lemma OneTooMany(key: Key, m: nat, cutoff: int, limit: string -> nat, width: nat) returns (events: seq<Event>)
    requires width >= 1 && limit(key.bucket) > 0 && cutoff > Edge(key, m, width)
    ensures AdmittedBefore(Run(World(Edge(key, 0, width), map[], map[], []), events, limit, width).hits, key, cutoff) > limit(key.bucket) * m
  {
    var start := World(Edge(key, 0, width), map[], map[], []);
    var done := m * limit(key.bucket);
    var init := Full(key, m, done + 1, limit, width);
    var w := Run(start, init, limit, width);
    IncrWaiting(w, key, done, done + 1, 0, done, limit, width);
    RunSnoc(start, init, Incr(done), limit, width);
    events := init + [Incr(done)];
    EverIsBefore(start.now, events, key, cutoff, limit, width);
  }

  // ---------- Any span ----------

  /** The INCR ran less than `m` windows after the start of the window it counts towards. */
  predicate OnTime(h: Hit, m: nat, width: nat) { h.at < Edge(h.key, m, width) }

  /** On-time admissions of one client in one of the `n` windows from `lo` on. */
  function Admitted(hits: seq<Hit>, bucket: string, ip: string, lo: int, n: nat, m: nat, width: nat): nat
  {
    if hits == [] then 0
    else
      var h := hits[|hits| - 1];
      Admitted(hits[..|hits| - 1], bucket, ip, lo, n, m, width)
        + if h.admitted && OnTime(h, m, width) && h.key.bucket == bucket && h.key.ip == ip && lo <= h.key.window < lo + n then 1 else 0
  }

  /** On-time admissions of one client at instants from `from` to `to`, both included. */
  function AdmittedBetween(hits: seq<Hit>, bucket: string, ip: string, from: int, to: int, m: nat, width: nat): nat
  {
    if hits == [] then 0
    else
      var h := hits[|hits| - 1];
      AdmittedBetween(hits[..|hits| - 1], bucket, ip, from, to, m, width)
        + if h.admitted && OnTime(h, m, width) && h.key.bucket == bucket && h.key.ip == ip && from <= h.at <= to then 1 else 0
  }

  lemma {:induction false} OneWindow(hits: seq<Hit>, key: Key, m: nat, width: nat)
    ensures Admitted(hits, key.bucket, key.ip, key.window, 1, m, width) == AdmittedBefore(hits, key, Edge(key, m, width))
  {
    if hits != [] {
      OneWindow(hits[..|hits| - 1], key, m, width);
      var h := hits[|hits| - 1];
      assert h.key == key <==> h.key.bucket == key.bucket && h.key.ip == key.ip && h.key.window == key.window;
    }
  }

  lemma {:induction false} SplitWindows(hits: seq<Hit>, bucket: string, ip: string, lo: int, n: nat, m: nat, width: nat)
    ensures Admitted(hits, bucket, ip, lo, 0, m, width) == 0
    ensures Admitted(hits, bucket, ip, lo, n + 1, m, width)
         == Admitted(hits, bucket, ip, lo, n, m, width) + Admitted(hits, bucket, ip, lo + n, 1, m, width)
  {
    if hits != [] { SplitWindows(hits[..|hits| - 1], bucket, ip, lo, n, m, width); }
  }

  lemma {:induction false} ManyWindows(hits: seq<Hit>, bucket: string, ip: string, lo: int, n: nat, m: nat, most: nat, width: nat)
    requires forall window :: Admitted(hits, bucket, ip, window, 1, m, width) <= most
    ensures Admitted(hits, bucket, ip, lo, n, m, width) <= most * n
    decreases n
  {
    if n == 0 {
      SplitWindows(hits, bucket, ip, lo, 0, m, width);
    } else {
      ManyWindows(hits, bucket, ip, lo, n - 1, m, most, width);
      SplitWindows(hits, bucket, ip, lo, n - 1, m, width);
      assert most * n == most * (n - 1) + most;
    }
  }

  /** An on-time hit lies at most `m - 1` windows after the one it counts towards. */
  lemma OnTimeWindow(h: Hit, m: nat, width: nat)
    requires width >= 1 && OnTime(h, m, width)
    ensures Window(h.at, width) < h.key.window + m
  {
    WindowEnds(h.at, width, Window(h.at, width));
    if Window(h.at, width) >= h.key.window + m { Products(h.key.window + m, Window(h.at, width), width); }
  }

  lemma {:induction false} SpanInWindows(hits: seq<Hit>, bucket: string, ip: string, from: int, to: int, m: nat, width: nat, n: nat)
    requires width >= 1 && from <= to && n == Window(to, width) - Window(from, width) + m
    requires forall i :: 0 <= i < |hits| ==> hits[i].key.window <= Window(hits[i].at, width)
    ensures AdmittedBetween(hits, bucket, ip, from, to, m, width)
         <= Admitted(hits, bucket, ip, Window(from, width) - m + 1, n, m, width)
  {
    if hits != [] {
      var h := hits[|hits| - 1];
      SpanInWindows(hits[..|hits| - 1], bucket, ip, from, to, m, width, n);
      if from <= h.at <= to && OnTime(h, m, width) {
        OnTimeWindow(h, m, width);
        LaterWindow(from, h.at, width);
        LaterWindow(h.at, to, width);
      }
    }
  }

  lemma WindowsOf(from: int, length: nat, width: nat)
    requires width >= 1
    ensures 0 <= Window(from + length, width) - Window(from, width) <= (length + width - 1) / width
  {
    LaterWindow(from, from + length, width);
    var a, b, c := Window(from, width), Window(from + length, width), (length + width - 1) / width;
    WindowEnds(from, width, a);
    WindowEnds(from + length, width, b);
    WindowEnds(length + width - 1, width, c);
    assert (c + 1) * width == c * width + width && (a + 1) * width == a * width + width;
    assert (a + c + 1) * width == a * width + c * width + width;
    if b > a + c { Products(a + c + 1, b, width); }
  }

  /** In every run, among requests counted less than `m` windows after the start of the window they read, any
      span of `length` milliseconds admits at most limit * m * (length / width rounded up, plus m) of a client.
      With `m` = 1, requests counted inside their own window: limit * (length / width rounded up, plus one). */
  lemma SpanBound(now: int, events: seq<Event>, limit: string -> nat, width: nat, bucket: string, ip: string, from: int, length: nat, m: nat)
    requires width >= 1
    ensures AdmittedBetween(Run(World(now, map[], map[], []), events, limit, width).hits, bucket, ip, from, from + length, m, width)
         <= limit(bucket) * m * ((length + width - 1) / width + m)
  {
    var hits := Run(World(now, map[], map[], []), events, limit, width).hits;
    RunKeepsLateInv(now, events, limit, width);
    WindowsOf(from, length, width);
    var n: nat := Window(from + length, width) - Window(from, width) + m;
    SpanInWindows(hits, bucket, ip, from, from + length, m, width, n);
    forall window ensures Admitted(hits, bucket, ip, window, 1, m, width) <= limit(bucket) * m {
      OneWindow(hits, Key(bucket, ip, window), m, width);
      WindowBound(now, events, Key(bucket, ip, window), m, limit, width);
    }
    ManyWindows(hits, bucket, ip, Window(from, width) - m + 1, n, m, limit(bucket) * m, width);
    SpanArithmetic(limit(bucket) * m, n, (length + width - 1) / width + m);
  }

  lemma SpanArithmetic(most: nat, n: nat, windows: nat)
    requires n <= windows
    ensures most * n <= most * windows
  {
    Products(n, windows, most);
  }
}
