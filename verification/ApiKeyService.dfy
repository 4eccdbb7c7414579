/** The key service and its repository: rows updated in place, tied to the steps of the key machine. */
module ApiKeyService {
  import opened Prelude
  import opened ApiKeys

  /** What a caller whose credential was accepted acts as. */
  datatype Identity = Identity(agent: string, org: string, scopes: seq<string>, id: KeyId, grace: bool)

  function IdentityOf(keys: Keys, o: Outcome): Option<Identity>
  {
    if o.Accepted? && o.id in keys then
      Some(Identity(keys[o.id].agent, keys[o.id].org, keys[o.id].scopes, o.id, o.grace))
    else None
  }

  /** The scan's answer, whichever order the rows come in. */
  ghost predicate ScanAnswers(keys: Keys, org: string, secret: string, now: int, o: Outcome)
  {
    forall order ::
      Lists(order, keys, org) && (forall id :: id in order ==> id in keys) ==> Scan(keys, org, order, secret, now) == o
  }

  ghost predicate Answers(keys: Keys, presented: string, org: Option<string>, now: int, o: Outcome)
  {
    forall order :: (org.Some? ==> Lists(order, keys, org.value)) ==> Verify(keys, presented, org, order, now) == o
  }

  lemma FoundAnswers(w: World, org: string, secret: string, id: KeyId, grace: bool)
    requires Inv(w) && id in ActiveIn(w.keys, org) && Match(w.keys[id], secret, w.now) == Some(grace)
    ensures ScanAnswers(w.keys, org, secret, w.now, Accepted(id, grace))
  {
    forall order | Lists(order, w.keys, org) && (forall i :: i in order ==> i in w.keys)
      ensures Scan(w.keys, org, order, secret, w.now) == Accepted(id, grace)
    {
      ScanIsExact(w, org, order, secret, w.now, id, grace);
    }
  }

  lemma MissAnswers(w: World, org: string, secret: string)
    requires forall id :: id in ActiveIn(w.keys, org) ==> Match(w.keys[id], secret, w.now).None?
    ensures ScanAnswers(w.keys, org, secret, w.now, Refused(Some(DeniedEntry(org, None))))
  {
    forall order | Lists(order, w.keys, org) && (forall i :: i in order ==> i in w.keys)
      ensures Scan(w.keys, org, order, secret, w.now) == Refused(Some(DeniedEntry(org, None)))
    {
      ListsKeys(order, w.keys, org);
      ScanFinds(w.keys, org, order, secret, w.now);
    }
  }

  lemma BareAnswers(keys: Keys, presented: string, org: string, now: int, o: Outcome)
    requires Split(presented).0.None? && StartsWith(presented, KEY_PREFIX) && ScanAnswers(keys, org, presented, now, o)
    ensures Answers(keys, presented, Some(org), now, o)
  {
    forall order | Lists(order, keys, org) ensures Verify(keys, presented, Some(org), order, now) == o {
      ListsKeys(order, keys, org);
      assert Split(presented).1 == presented;
    }
  }

  class ApiKeyService {
    var agents: map<string, Agent>
    var keys: Keys
    var audit: multiset<Entry>

    ghost function Abs(now: int): World reads this { World(now, agents, keys, audit) }

    constructor ()
      ensures Abs(0) == Empty
    {
      agents, keys, audit := map[], map[], multiset{};
    }

    method DeactivateKey(id: KeyId) returns (found: bool)
      modifies this`keys
      ensures keys == Deactivated(old(keys), {id}) && (found <==> id in old(keys))
    {
      found := id in keys;
      if found { keys := keys[id := keys[id].(active := false)]; }
    }

    method RecordUsage(id: KeyId)
      requires id in keys
      modifies this`keys
      ensures keys == old(keys)[id := old(keys)[id].(uses := old(keys)[id].uses + 1)]
    {
      keys := keys[id := keys[id].(uses := keys[id].uses + 1)];
    }

    /** Stores the new key with the old secret in its grace slot, then retires the old key. */
    method StoreRotation(id: KeyId, newId: KeyId, newKey: Key, graceSecret: string, graceUntil: int)
      requires id in keys && newId !in keys
      modifies this`keys
      ensures keys == old(keys)[newId := newKey.(grace := Some(Grace(graceSecret, Some(graceUntil))))]
                               [id := old(keys)[id].(active := false)]
    {
      keys := keys[newId := newKey.(grace := Some(Grace(graceSecret, Some(graceUntil))))];
      keys := keys[id := keys[id].(active := false)];
    }

    method IssueKey(agent: string, org: string, scopes: seq<string>, ttlDays: Option<int>, id: KeyId, secret: string, now: int)
        returns (ok: bool)
      requires Fresh(keys, id, secret)
      modifies this
      ensures ok <==>
        && agent in old(agents) && old(agents)[agent].org == org && old(agents)[agent].status == Active
        && forall x :: x in scopes ==> x in old(agents)[agent].allowed
      ensures Abs(now) == Apply(old(Abs(now)), Issue(agent, org, scopes, ttlDays, id, secret))
      ensures old(Inv(Abs(now))) ==> Inv(Abs(now))
    {
      if Inv(Abs(now)) { StepKeepsInv(Abs(now), Issue(agent, org, scopes, ttlDays, id, secret)); }
      if agent !in agents || agents[agent].org != org || agents[agent].status != Active { return false; }
      if !((set s | s in scopes) <= agents[agent].allowed) { return false; }
      keys := keys[id := Key(agent, org, secret, scopes, true, Some(now + Lifetime(ttlDays)), None, None, 0)];
      audit := audit + multiset{IssuedEntry(org, id)};
      return true;
    }

    /** Tries one row: its own secret, then its grace slot; records the use, or on request the denial. */
    method MatchAndRecord(id: KeyId, secret: string, now: int, recordDenial: bool) returns (o: Outcome)
      requires id in keys
      modifies this`keys, this`audit
      ensures o.Accepted? ==> o.id == id
      ensures (if o.Accepted? then Some(o.grace) else None) == Match(old(keys)[id], secret, now)
      ensures o.Refused? ==>
        o.denial == (if recordDenial && !Expired(old(keys)[id].expires, now) then Some(DeniedEntry(old(keys)[id].org, Some(id))) else None)
      ensures Abs(now) == Recorded(old(Abs(now)), o)
    {
      var k := keys[id];
      if Expired(k.expires, now) { return Refused(None); }
      var grace;
      if secret == k.secret {
        grace := false;
      } else if k.grace.Some? && k.grace.value.until.Some? && !Expired(k.grace.value.until, now) && secret == k.grace.value.secret {
        grace := true;
      } else {
        if recordDenial {
          audit := audit + multiset{DeniedEntry(k.org, Some(id))};
          return Refused(Some(DeniedEntry(k.org, Some(id))));
        }
        return Refused(None);
      }
      RecordUsage(id);
      audit := audit + multiset{UsedEntry(k.org, id, grace)};
      return Accepted(id, grace);
    }

    method VerifyByKeyId(id: KeyId, secret: string, now: int) returns (o: Outcome)
      modifies this`keys, this`audit
      ensures o == ById(old(keys), id, secret, now)
      ensures Abs(now) == Recorded(old(Abs(now)), o)
    {
      if id !in keys || !keys[id].active { return Refused(None); }
      o := MatchAndRecord(id, secret, now, true);
    }

    /** Tries the organisation's active keys as the database happens to return them, up to the first match. */
    method VerifyByFullScan(org: string, secret: string, now: int) returns (o: Outcome)
      requires Inv(Abs(now))
      modifies this`keys, this`audit
      ensures ScanAnswers(old(keys), org, secret, now, o)
      ensures Abs(now) == Recorded(old(Abs(now)), o)
    {
      ghost var w := Abs(now);
      var rest := ActiveIn(keys, org);
      while rest != {}
        invariant keys == w.keys && audit == w.audit && rest <= ActiveIn(keys, org)
        invariant forall id :: id in ActiveIn(keys, org) - rest ==> Match(keys[id], secret, now).None?
        decreases rest
      {
        var id :| id in rest;
        o := MatchAndRecord(id, secret, now, false);
        if o.Accepted? {
          FoundAnswers(w, org, secret, id, o.grace);
          return;
        }
        rest := rest - {id};
      }
      MissAnswers(w, org, secret);
      audit := audit + multiset{DeniedEntry(org, None)};
      o := Refused(Some(DeniedEntry(org, None)));
    }

    method VerifyKey(presented: string, org: Option<string>, now: int) returns (who: Option<Identity>, o: Outcome)
      requires Inv(Abs(now))
      modifies this`keys, this`audit
      ensures Answers(old(keys), presented, org, now, o) && who == IdentityOf(old(keys), o)
      ensures Abs(now) == Recorded(old(Abs(now)), o) && Inv(Abs(now))
    {
      ghost var w := Abs(now);
      ghost var before := keys;
      var (id, secret) := Split(presented);
      if id.Some? {
        o := VerifyByKeyId(id.value, secret, now);
      } else if !StartsWith(presented, KEY_PREFIX) || org.None? {
        o := Refused(None);
      } else {
        o := VerifyByFullScan(org.value, presented, now);
        BareAnswers(before, presented, org.value, now, o);
      }
      who := IdentityOf(keys, o);
      RecordedSameRows(w, o);
      SameRowsKeepInv(w, Abs(now));
    }

    method RotateKey(id: KeyId, org: string, newId: KeyId, newSecret: string, graceHours: int, now: int) returns (ok: bool)
      requires Fresh(keys, newId, newSecret)
      modifies this
      ensures ok <==> id in old(keys) && old(keys)[id].org == org && old(keys)[id].active
      ensures Abs(now) == Apply(old(Abs(now)), Rotate(id, org, newId, newSecret, graceHours))
      ensures old(Inv(Abs(now))) ==> Inv(Abs(now))
    {
      if Inv(Abs(now)) { StepKeepsInv(Abs(now), Rotate(id, org, newId, newSecret, graceHours)); }
      if id !in keys || keys[id].org != org || !keys[id].active { return false; }
      var prior := keys[id];
      var newKey := Key(prior.agent, org, newSecret, prior.scopes, true, Some(now + DEFAULT_TTL), Some(id), None, 0);
      StoreRotation(id, newId, newKey, prior.secret, now + graceHours * HOUR);
      audit := audit + multiset{RotatedEntry(org, id, newId)};
      return true;
    }

    method RevokeKey(id: KeyId, org: string, now: int) returns (ok: bool)
      modifies this
      ensures ok <==> id in old(keys) && old(keys)[id].org == org
      ensures Abs(now) == Apply(old(Abs(now)), Revoke(id, org))
      ensures old(Inv(Abs(now))) ==> Inv(Abs(now))
    {
      if Inv(Abs(now)) { StepKeepsInv(Abs(now), Revoke(id, org)); }
      if id !in keys || keys[id].org != org { return false; }
      var found := DeactivateKey(id);
      audit := audit + multiset{RevokedEntry(org, id)};
      return true;
    }

    /** The agent's active keys, in no particular order. */
    method SelectActive(agent: string) returns (ids: seq<KeyId>)
      ensures (set id | id in ids) == ActiveOf(keys, agent)
    {
      var rest := ActiveOf(keys, agent);
      ids := [];
      while rest != {}
        invariant rest <= ActiveOf(keys, agent) && (set id | id in ids) == ActiveOf(keys, agent) - rest
        decreases rest
      {
        var id :| id in rest;
        assert (set i | i in ids + [id]) == (set i | i in ids) + {id};
        ids := ids + [id];
        rest := rest - {id};
      }
    }

    /** Retires the agent's active keys one by one. */
    method DeactivateAll(agent: string, org: string)
      modifies this`keys, this`audit
      ensures keys == Deactivated(old(keys), ActiveOf(old(keys), agent))
      ensures audit == old(audit) + multiset(set id | id in ActiveOf(old(keys), agent) :: RevokedEntry(org, id))
    {
      ghost var before, log := keys, audit;
      ghost var all := ActiveOf(keys, agent);
      var rest := ActiveOf(keys, agent);
      while rest != {}
        invariant rest <= all && keys == Deactivated(before, all - rest)
        invariant audit == log + multiset(set id | id in all - rest :: RevokedEntry(org, id))
        decreases rest
      {
        var id :| id in rest;
        DeactivatedAdd(before, all, rest, id);
        EntriesAdd(all, rest, id, org);
        var found := DeactivateKey(id);
        audit := audit + multiset{RevokedEntry(org, id)};
        rest := rest - {id};
      }
      assert all - rest == all;
    }

    method DecommissionAgent(agent: string, org: string, now: int) returns (ok: bool)
      modifies this
      ensures ok <==> agent in old(agents) && old(agents)[agent].org == org && old(agents)[agent].status != Decommissioned
      ensures Abs(now) == Apply(old(Abs(now)), Decommission(agent, org))
      ensures old(Inv(Abs(now))) ==> Inv(Abs(now))
    {
      if Inv(Abs(now)) { StepKeepsInv(Abs(now), Decommission(agent, org)); }
      if agent !in agents || agents[agent].org != org || agents[agent].status == Decommissioned { return false; }
      DeactivateAll(agent, org);
      agents := agents[agent := agents[agent].(status := Decommissioned)];
      return true;
    }
  }

  lemma DeactivatedAdd(keys: Keys, all: set<KeyId>, rest: set<KeyId>, id: KeyId)
    requires id in rest && rest <= all
    ensures Deactivated(Deactivated(keys, all - rest), {id}) == Deactivated(keys, all - (rest - {id}))
  {
  }

  lemma EntriesAdd(all: set<KeyId>, rest: set<KeyId>, id: KeyId, org: string)
    requires id in rest && rest <= all
    ensures multiset(set i | i in all - (rest - {id}) :: RevokedEntry(org, i))
         == multiset(set i | i in all - rest :: RevokedEntry(org, i)) + multiset{RevokedEntry(org, id)}
  {
    var before := set i | i in all - rest :: RevokedEntry(org, i);
    assert (set i | i in all - (rest - {id}) :: RevokedEntry(org, i)) == before + {RevokedEntry(org, id)};
    assert RevokedEntry(org, id) !in before;
  }
}
