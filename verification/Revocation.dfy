/** The Redis-backed revocation index. Instants are integer milliseconds, token expiries are unix
    seconds, and `int(time.time())` is floor division by 1000. */
module Revocation {
  import opened Prelude

  /** `agent:<id>:jtis` or `key:<id>:jtis`. */
  datatype IndexKey = AgentIndex(agent: string) | KeyIndex(key: string)

  /** `revoked` maps a jti to the instant its `revoked_jti:` entry expires; `index` holds the sorted sets, scored by exp. */
  datatype Redis = Redis(revoked: map<Jti, int>, index: map<IndexKey, map<Jti, int>>)

  function Seconds(now: int): int { now / 1000 }

  /** A token is live while now < exp (section 4.1.4 of RFC 7519). */
  predicate Live(exp: int, now: int) { now < 1000 * exp }

  predicate Revoked(r: Redis, jti: Jti, now: int) { jti in r.revoked && now < r.revoked[jti] }

  function Members(r: Redis, key: IndexKey): map<Jti, int>
  {
    if key in r.index then r.index[key] else map[]
  }

  /** When an entry set at `now` for `ttl` seconds, but at least one, expires. */
  function EndOf(now: int, ttl: int): int { now + 1000 * if ttl > 1 then ttl else 1 }

  /** SET with EX: a later call replaces the earlier expiry. */
  function Blacklist(r: Redis, now: int, jti: Jti, ttl: int): Redis
  {
    r.(revoked := r.revoked[jti := EndOf(now, ttl)])
  }

  function Prune(m: map<Jti, int>, now: int): map<Jti, int>
  {
    map j | j in m && m[j] > Seconds(now) :: m[j]
  }

  function TrackIssued(r: Redis, now: int, key: IndexKey, jti: Jti, exp: int): Redis
  {
    r.(index := r.index[key := Prune(Members(r, key)[jti := exp], now)])
  }

  function Due(m: map<Jti, int>, now: int): map<Jti, int>
  {
    map j | j in m && m[j] >= Seconds(now) :: m[j]
  }

  /** The blacklist entries a cascade writes for the members in `keys`. */
  function Entries(due: map<Jti, int>, keys: set<Jti>, now: int): map<Jti, int>
  {
    map j | j in keys && j in due :: EndOf(now, due[j] - Seconds(now))
  }

  lemma EntriesAdd(base: map<Jti, int>, due: map<Jti, int>, rest: set<Jti>, now: int, j: Jti)
    requires j in due && j in rest
    ensures base + Entries(due, due.Keys - (rest - {j}), now)
         == (base + Entries(due, due.Keys - rest, now))[j := EndOf(now, due[j] - Seconds(now))]
  {
  }

  function RevokeAll(r: Redis, now: int, key: IndexKey): Redis
  {
    var due := Due(Members(r, key), now);
    Redis(r.revoked + Entries(due, due.Keys, now), r.index - {key})
  }

  /** `int((expires_at - now).total_seconds())`, truncated toward zero. */
  function Remaining(exp: int, now: int): int
  {
    var left := 1000 * exp - now;
    if left >= 0 then left / 1000 else -((-left) / 1000)
  }

  // ---------- What an entry covers ----------

  ghost predicate Covers(r: Redis, jti: Jti, from: int, to: int)
  {
    forall t :: from <= t < to ==> Revoked(r, jti, t)
  }

  /** An entry written by a cascade revoke covers every instant from the revocation up to exp, and
      every live member of the index gets one. */
  lemma CascadeCovers(r: Redis, now: int, key: IndexKey, jti: Jti)
    requires jti in Members(r, key) && Live(Members(r, key)[jti], now)
    ensures Covers(RevokeAll(r, now, key), jti, now, 1000 * Members(r, key)[jti])
  {
    var exp := Members(r, key)[jti];
    assert jti in Due(Members(r, key), now);
    assert RevokeAll(r, now, key).revoked[jti] == EndOf(now, exp - Seconds(now)) >= 1000 * exp;
  }

  /** An entry written with the truncated remaining time covers every instant up to exp - 1 s; it reaches
      exp itself if and only if a whole number of seconds was left. */
  lemma TruncatedCovers(r: Redis, now: int, jti: Jti, exp: int)
    requires Remaining(exp, now) > 0
    ensures Covers(Blacklist(r, now, jti, Remaining(exp, now)), jti, now, 1000 * exp - 999)
    ensures Covers(Blacklist(r, now, jti, Remaining(exp, now)), jti, now, 1000 * exp) <==> (1000 * exp - now) % 1000 == 0
  {
    var after := Blacklist(r, now, jti, Remaining(exp, now));
    assert after.revoked[jti] == now + 1000 * Remaining(exp, now);
    assert now <= after.revoked[jti] <= 1000 * exp;
    if (1000 * exp - now) % 1000 != 0 {
      assert !Revoked(after, jti, after.revoked[jti]);
    }
  }

  /** The truncated time is zero, and no entry is written, exactly in the last second and after. */
  lemma RemainingPositive(exp: int, now: int)
    ensures Remaining(exp, now) > 0 <==> now <= 1000 * exp - 1000
  {
  }

  /** Opportunistic pruning drops exactly the members whose tokens are dead. */
  lemma PruneDropsOnlyDead(r: Redis, now: int, key: IndexKey, jti: Jti, exp: int, j: Jti)
    ensures var before, after := Members(r, key)[jti := exp], Members(TrackIssued(r, now, key, jti, exp), key);
      j in after <==> j in before && Live(before[j], now)
    ensures var before, after := Members(r, key)[jti := exp], Members(TrackIssued(r, now, key, jti, exp), key);
      j in after ==> after[j] == before[j]
  {
  }

  /** The shared Redis instance and the four functions over it. */
  class RedisStore {
    var revoked: map<Jti, int>
    var index: map<IndexKey, map<Jti, int>>

    ghost function Abs(): Redis reads this { Redis(revoked, index) }

    constructor ()
      ensures Abs() == Redis(map[], map[])
    {
      revoked, index := map[], map[];
    }

    /** No answer when Redis cannot be reached. */
    method IsRevoked(jti: Jti, now: int, up: bool) returns (answer: Option<bool>)
      ensures answer == if up then Some(Revoked(Abs(), jti, now)) else None
    {
      if !up { return None; }
      answer := Some(jti in revoked && now < revoked[jti]);
    }

    method RevokeJti(jti: Jti, ttl: int, now: int)
      modifies this`revoked
      ensures revoked == old(revoked)[jti := now + if ttl > 1 then 1000 * ttl else 1000]
      ensures Abs() == Blacklist(old(Abs()), now, jti, ttl)
    {
      revoked := revoked[jti := EndOf(now, ttl)];
    }

    method TrackIssuedJti(key: IndexKey, jti: Jti, exp: int, now: int)
      modifies this
      ensures Abs() == TrackIssued(old(Abs()), now, key, jti, exp)
      ensures forall other :: other != key ==>
        (other in index <==> other in old(index)) && (other in index ==> index[other] == old(index)[other])
    {
      var members := if key in index then index[key] else map[];
      members := members[jti := exp];
      members := map j | j in members && members[j] > Seconds(now) :: members[j];
      index := index[key := members];
    }

    /** Blacklists the given members one at a time, in no particular order. */
    method RevokeEach(members: map<Jti, int>, now: int) returns (count: nat)
      modifies this`revoked
      ensures revoked == old(revoked) + Entries(members, members.Keys, now) && count == |members|
    {
      ghost var base := revoked;
      var rest := members.Keys;
      count := 0;
      assert revoked == base + Entries(members, members.Keys - rest, now);
      while rest != {}
        invariant rest <= members.Keys && count + |rest| == |members|
        invariant revoked == base + Entries(members, members.Keys - rest, now)
        decreases rest
      {
        var jti :| jti in rest;
        EntriesAdd(base, members, rest, now, jti);
        RevokeJti(jti, members[jti] - Seconds(now), now);
        rest := rest - {jti};
        count := count + 1;
      }
      assert members.Keys - rest == members.Keys;
    }

    /** Blacklists every member that has not expired, then deletes the index. */
    method RevokeAllInIndex(key: IndexKey, now: int) returns (count: nat)
      modifies this
      ensures Abs() == RevokeAll(old(Abs()), now, key)
      ensures index == old(index) - {key}
      ensures count == |Due(Members(old(Abs()), key), now)|
    {
      var members := if key in index then index[key] else map[];
      members := map j | j in members && members[j] >= Seconds(now) :: members[j];
      assert members == Due(Members(Abs(), key), now);
      count := RevokeEach(members, now);
      index := index - {key};
    }
  }
}
