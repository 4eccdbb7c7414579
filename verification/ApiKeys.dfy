/** API keys: issue, rotation with a grace slot, revocation, and the two ways a credential is verified.
    Rows are never deleted. `secret` stands for the stored bcrypt hash: a presented secret matches it when they
    are equal. Instants are milliseconds. */
module ApiKeys {
  import opened Prelude

  type KeyId = string

  const KEY_PREFIX: string := "aiiam_"
  const ID_PREFIX: string := "kid_"
  const HOUR: int := 3_600_000
  const DEFAULT_TTL: int := 30 * 24 * HOUR

  /** The previous secret a rotated key still answers to, and until when. */
  datatype Grace = Grace(secret: string, until: Option<int>)

  datatype Key = Key(
    agent: string, org: string, secret: string, scopes: seq<string>, active: bool, expires: Option<int>,
    rotatedFrom: Option<KeyId>, grace: Option<Grace>, uses: nat)

  datatype Entry =
    | IssuedEntry(org: string, id: KeyId)
    | RotatedEntry(org: string, id: KeyId, next: KeyId)
    | RevokedEntry(org: string, id: KeyId)
    | UsedEntry(org: string, id: KeyId, grace: bool)
    | DeniedEntry(org: string, key: Option<KeyId>)

  type Keys = map<KeyId, Key>

  datatype World = World(now: int, agents: map<string, Agent>, keys: Keys, audit: multiset<Entry>)

  // ---------- Presented credentials ----------

  predicate StartsWith(s: string, prefix: string) { |prefix| <= |s| && s[..|prefix|] == prefix }

  /** Everything before the first colon. */
  function Head(s: string): string { if s == "" || s[0] == ':' then "" else [s[0]] + Head(s[1..]) }

  /** `kid_...:aiiam_...` as key id and secret; anything else whole, with no id. */
  function Split(presented: string): (Option<KeyId>, string)
  {
    if ':' !in presented then (None, presented)
    else
      var id := Head(presented);
      HeadIs(presented);
      var secret := presented[|id| + 1..];
      if !StartsWith(id, ID_PREFIX) || !StartsWith(secret, KEY_PREFIX) then (None, presented) else (Some(id), secret)
  }

  lemma {:induction false} HeadIs(s: string)
    ensures ':' !in Head(s)
    ensures |Head(s)| <= |s| && s[..|Head(s)|] == Head(s)
    ensures ':' in s <==> |Head(s)| < |s|
    ensures ':' in s ==> s[|Head(s)|] == ':'
  {
    if s != "" && s[0] != ':' { HeadIs(s[1..]); }
  }

  lemma {:induction false} HeadOf(id: string, rest: string)
    requires ':' !in id
    ensures Head(id + ":" + rest) == id
  {
    if id != "" {
      assert (id + ":" + rest)[1..] == id[1..] + ":" + rest;
      HeadOf(id[1..], rest);
    }
  }

  /** A compound credential is read back as its two parts exactly when the id is a colon-free key id and the
      secret carries the key prefix; and whatever is split is the two parts joined again. */
  lemma SplitExactly(id: string, secret: string, presented: string)
    ensures Split(id + ":" + secret) == (Some(id), secret)
      <==> ':' !in id && StartsWith(id, ID_PREFIX) && StartsWith(secret, KEY_PREFIX)
    ensures Split(presented) == (Some(id), secret) ==> presented == id + ":" + secret
  {
    HeadIs(id + ":" + secret);
    if ':' !in id {
      HeadOf(id, secret);
      assert (id + ":" + secret)[|id| + 1..] == secret;
    }
    if Split(presented) == (Some(id), secret) {
      HeadIs(presented);
      assert presented == presented[..|id|] + [presented[|id|]] + presented[|id| + 1..];
    }
  }

  // ---------- Verification ----------

  /** An instant equal to the expiry is still accepted. */
  predicate Expired(at: Option<int>, now: int) { at.Some? && now > at.value }

  /** Whether a row accepts a secret, and if so whether through its grace slot. */
  function Match(k: Key, secret: string, now: int): Option<bool>
  {
    if Expired(k.expires, now) then None
    else if secret == k.secret then Some(false)
    else if k.grace.Some? && k.grace.value.until.Some? && !Expired(k.grace.value.until, now) && secret == k.grace.value.secret
    then Some(true)
    else None
  }

  datatype Outcome = Accepted(id: KeyId, grace: bool) | Refused(denial: Option<Entry>)

  /** A miss is audited against the key's own organisation, except when the key is unknown, inactive or expired. */
  function ById(keys: Keys, id: KeyId, secret: string, now: int): Outcome
  {
    if id !in keys || !keys[id].active then Refused(None)
    else
      match Match(keys[id], secret, now)
      case Some(grace) => Accepted(id, grace)
      case None => Refused(if Expired(keys[id].expires, now) then None else Some(DeniedEntry(keys[id].org, Some(id))))
  }

  function ActiveIn(keys: Keys, org: string): set<KeyId>
  {
    set id | id in keys && keys[id].active && keys[id].org == org
  }

  /** `order` lists the active keys of the organisation, in whatever order the database returns them. */
  predicate Lists(order: seq<KeyId>, keys: Keys, org: string) { (set id | id in order) == ActiveIn(keys, org) }

  /** The first row that matches answers. */
  function Scan(keys: Keys, org: string, order: seq<KeyId>, secret: string, now: int): Outcome
    requires forall id :: id in order ==> id in keys
  {
    if order == [] then Refused(Some(DeniedEntry(org, None)))
    else
      match Match(keys[order[0]], secret, now)
      case Some(grace) => Accepted(order[0], grace)
      case None => Scan(keys, org, order[1..], secret, now)
  }

  function Verify(keys: Keys, presented: string, org: Option<string>, order: seq<KeyId>, now: int): Outcome
    requires org.Some? ==> Lists(order, keys, org.value)
  {
    var (id, secret) := Split(presented);
    if id.Some? then ById(keys, id.value, secret, now)
    else if !StartsWith(presented, KEY_PREFIX) || org.None? then Refused(None)
    else
      ListsKeys(order, keys, org.value);
      Scan(keys, org.value, order, presented, now)
  }

  lemma ListsKeys(order: seq<KeyId>, keys: Keys, org: string)
    requires Lists(order, keys, org)
    ensures forall id :: id in order <==> id in keys && keys[id].active && keys[id].org == org
  {
    forall id ensures id in order <==> id in ActiveIn(keys, org) {
      assert id in (set i | i in order) <==> id in order;
    }
  }

  /** What verification leaves behind: a use and its entry, or the denial, or nothing. */
  function Recorded(w: World, o: Outcome): World
  {
    match o
    case Accepted(id, grace) =>
      if id in w.keys then
        w.(keys := w.keys[id := w.keys[id].(uses := w.keys[id].uses + 1)],
           audit := w.audit + multiset{UsedEntry(w.keys[id].org, id, grace)})
      else w
    case Refused(denial) => if denial.Some? then w.(audit := w.audit + multiset{denial.value}) else w
  }

  // ---------- Steps ----------

  datatype Event =
    | Tick(to: int)
    | SetAgent(agent: string, row: Agent)
    | Issue(agent: string, org: string, scopes: seq<string>, ttlDays: Option<int>, id: KeyId, secret: string)
    | Rotate(id: KeyId, org: string, newId: KeyId, newSecret: string, graceHours: int)
    | Revoke(id: KeyId, org: string)
    | Decommission(agent: string, org: string)
    | Present(presented: string, orgOf: Option<string>, order: seq<KeyId>)

  predicate Fresh(keys: Keys, id: KeyId, secret: string)
  {
    && id !in keys && StartsWith(id, ID_PREFIX) && ':' !in id
    && (forall other :: other in keys ==> keys[other].secret != secret) && StartsWith(secret, KEY_PREFIX) && ':' !in secret
  }

  /** An absent lifetime, or one of zero days, is the default. */
  function Lifetime(ttlDays: Option<int>): int
  {
    if ttlDays.Some? && ttlDays.value != 0 then ttlDays.value * 24 * HOUR else DEFAULT_TTL
  }

  predicate CanIssue(w: World, agent: string, org: string, scopes: seq<string>)
  {
    && agent in w.agents && w.agents[agent].org == org && w.agents[agent].status == Active
    && (set s | s in scopes) <= w.agents[agent].allowed
  }

  /** Rotation asks for an active row of the organisation; neither the row's expiry nor its agent is looked at. */
  predicate CanRotate(keys: Keys, id: KeyId, org: string) { id in keys && keys[id].org == org && keys[id].active }

  function Successor(prior: Key, id: KeyId, secret: string, graceHours: int, now: int): Key
  {
    Key(prior.agent, prior.org, secret, prior.scopes, true, Some(now + DEFAULT_TTL), Some(id),
        Some(Grace(prior.secret, Some(now + graceHours * HOUR))), 0)
  }

  function ActiveOf(keys: Keys, agent: string): set<KeyId>
  {
    set id | id in keys && keys[id].active && keys[id].agent == agent
  }

  function Deactivated(keys: Keys, ids: set<KeyId>): Keys
  {
    map id | id in keys :: if id in ids then keys[id].(active := false) else keys[id]
  }

  predicate CanDecommission(w: World, agent: string, org: string)
  {
    agent in w.agents && w.agents[agent].org == org && w.agents[agent].status != Decommissioned
  }

  function Issued(w: World, agent: string, org: string, scopes: seq<string>, ttlDays: Option<int>, id: KeyId, secret: string): World
  {
    w.(keys := w.keys[id := Key(agent, org, secret, scopes, true, Some(w.now + Lifetime(ttlDays)), None, None, 0)],
       audit := w.audit + multiset{IssuedEntry(org, id)})
  }

  function RotatedKeys(keys: Keys, id: KeyId, newId: KeyId, newSecret: string, graceHours: int, now: int): Keys
    requires id in keys
  {
    keys[newId := Successor(keys[id], id, newSecret, graceHours, now)][id := keys[id].(active := false)]
  }

  function DecommissionedAgent(w: World, agent: string): World
    requires agent in w.agents
  {
    w.(agents := w.agents[agent := w.agents[agent].(status := Decommissioned)],
       keys := Deactivated(w.keys, ActiveOf(w.keys, agent)),
       audit := w.audit + multiset(set id | id in ActiveOf(w.keys, agent) :: RevokedEntry(w.agents[agent].org, id)))
  }

  /** One step; a refused call changes nothing. Key ids and secrets are fresh. */
  function Apply(w: World, e: Event): World
  {
    match e
    case Tick(to) => if to >= w.now then w.(now := to) else w
    case SetAgent(agent, row) => w.(agents := w.agents[agent := row])
    case Issue(agent, org, scopes, ttlDays, id, secret) =>
      if CanIssue(w, agent, org, scopes) && Fresh(w.keys, id, secret) then Issued(w, agent, org, scopes, ttlDays, id, secret) else w
    case Rotate(id, org, newId, newSecret, graceHours) =>
      if CanRotate(w.keys, id, org) && Fresh(w.keys, newId, newSecret) then
        w.(keys := RotatedKeys(w.keys, id, newId, newSecret, graceHours, w.now),
           audit := w.audit + multiset{RotatedEntry(org, id, newId)})
      else w
    case Revoke(id, org) =>
      if id in w.keys && w.keys[id].org == org then
        w.(keys := Deactivated(w.keys, {id}), audit := w.audit + multiset{RevokedEntry(org, id)})
      else w
    case Decommission(agent, org) => if CanDecommission(w, agent, org) then DecommissionedAgent(w, agent) else w
    case Present(presented, orgOf, order) =>
      if orgOf.Some? && !Lists(order, w.keys, orgOf.value) then w
      else Recorded(w, Verify(w.keys, presented, orgOf, order, w.now))
  }

  function Run(w: World, events: seq<Event>): World
  {
    if events == [] then w else Apply(Run(w, events[..|events| - 1]), events[|events| - 1])
  }

  const Empty: World := World(0, map[], map[], multiset{})

  // ---------- Each step, column by column ----------

  /** A key is issued exactly for an agent known and active in the organisation and for scopes it is allowed (its id and
      secret fresh); the row is active, carries just what was asked for, succeeds no key, and expires the requested
      days later, thirty if none or zero are given. */
  lemma IssuedExactly(w: World, agent: string, org: string, scopes: seq<string>, ttlDays: Option<int>, id: KeyId, secret: string)
    requires Fresh(w.keys, id, secret)
    ensures var w' := Apply(w, Issue(agent, org, scopes, ttlDays, id, secret));
      if agent in w.agents && w.agents[agent].org == org && w.agents[agent].status == Active
         && (forall s :: s in scopes ==> s in w.agents[agent].allowed)
      then
        && id in w'.keys && w'.keys - {id} == w.keys && w'.agents == w.agents && w'.now == w.now
        && w'.audit == w.audit + multiset{IssuedEntry(org, id)}
        && var k := w'.keys[id];
           && k.agent == agent && k.org == org && k.secret == secret && k.scopes == scopes && k.active && k.uses == 0
           && k.rotatedFrom == None && k.grace == None
           && k.expires == Some(w.now + 86_400_000 * if ttlDays.Some? && ttlDays.value != 0 then ttlDays.value else 30)
      else w' == w
  {
    var x := if ttlDays.Some? && ttlDays.value != 0 then ttlDays.value else 30;
    assert Lifetime(ttlDays) == 86_400_000 * x by { assert x * 24 * HOUR == x * 86_400_000; }
  }

  /** A key is rotated exactly if it is an active key of the organisation (the new id and secret fresh): the new row
      takes over agent, organisation and scopes, keeps the old secret until the grace period ends, and expires in
      thirty days; the old row is retired. */
  lemma RotatedExactly(w: World, id: KeyId, org: string, newId: KeyId, newSecret: string, graceHours: int)
    requires Fresh(w.keys, newId, newSecret)
    ensures var w' := Apply(w, Rotate(id, org, newId, newSecret, graceHours));
      if id in w.keys && w.keys[id].org == org && w.keys[id].active then
        && id in w'.keys && newId in w'.keys && w'.keys - {newId} - {id} == w.keys - {id}
        && w'.keys[id] == w.keys[id].(active := false)
        && w'.audit == w.audit + multiset{RotatedEntry(org, id, newId)}
        && var k, prior := w'.keys[newId], w.keys[id];
           && k.agent == prior.agent && k.org == prior.org && k.scopes == prior.scopes && k.secret == newSecret
           && k.active && k.uses == 0 && k.rotatedFrom == Some(id) && k.expires == Some(w.now + 30 * 86_400_000)
           && k.grace == Some(Grace(prior.secret, Some(w.now + 3_600_000 * graceHours)))
      else w' == w
  {
  }

  /** Revoking retires exactly the one row, if it is the organisation's; decommissioning exactly the active rows of an
      agent of the organisation that is not decommissioned yet. */
  lemma RetiredExactly(w: World, id: KeyId, agent: string, org: string, other: KeyId)
    requires other in w.keys
    ensures var keys := Apply(w, Revoke(id, org)).keys;
      && keys.Keys == w.keys.Keys
      && keys[other] == (if other == id && w.keys[id].org == org then w.keys[id].(active := false) else w.keys[other])
    ensures var keys := Apply(w, Decommission(agent, org)).keys;
      && keys.Keys == w.keys.Keys
      && keys[other] ==
           if agent in w.agents && w.agents[agent].org == org && w.agents[agent].status != Decommissioned && w.keys[other].agent == agent
           then w.keys[other].(active := false) else w.keys[other]
  {
  }

  /** When a row accepts a secret, and through which slot. */
  lemma MatchedExactly(k: Key, secret: string, now: int)
    ensures Match(k, secret, now) == Some(false) <==> (k.expires.Some? ==> now <= k.expires.value) && secret == k.secret
    ensures Match(k, secret, now) == Some(true) <==>
      && (k.expires.Some? ==> now <= k.expires.value) && secret != k.secret
      && k.grace.Some? && secret == k.grace.value.secret && k.grace.value.until.Some? && now <= k.grace.value.until.value
  {
  }

  /** What presenting a compound credential records: a use of that row, or a denial against its organisation if the
      row is active and unexpired, or nothing. */
  lemma PresentedById(w: World, id: KeyId, secret: string)
    requires ':' !in id && StartsWith(id, ID_PREFIX) && StartsWith(secret, KEY_PREFIX)
    ensures var w' := Apply(w, Present(id + ":" + secret, None, []));
      if id !in w.keys || !w.keys[id].active || (w.keys[id].expires.Some? && w.now > w.keys[id].expires.value) then w' == w
      else
        match Match(w.keys[id], secret, w.now)
        case Some(grace) =>
          && w'.keys == w.keys[id := w.keys[id].(uses := w.keys[id].uses + 1)]
          && w'.audit == w.audit + multiset{UsedEntry(w.keys[id].org, id, grace)} && w'.agents == w.agents
        case None => w'.keys == w.keys && w'.audit == w.audit + multiset{DeniedEntry(w.keys[id].org, Some(id))}
  {
    SplitExactly(id, secret, "");
  }

  // ---------- What every step keeps ----------

  /** A rotated key continues its predecessor: same agent, organisation and scopes, its secret in the grace
      slot, and the predecessor retired. */
  predicate Continues(keys: Keys, id: KeyId)
    requires id in keys
  {
    var k := keys[id];
    if k.rotatedFrom.None? then k.grace.None?
    else
      && k.rotatedFrom.value in keys && k.grace.Some?
      && var prior := keys[k.rotatedFrom.value];
         && k.agent == prior.agent && k.org == prior.org && k.scopes == prior.scopes
         && k.grace.value.secret == prior.secret && !prior.active
  }

  predicate WellNamed(keys: Keys, id: KeyId)
    requires id in keys
  {
    && StartsWith(id, ID_PREFIX) && ':' !in id && StartsWith(keys[id].secret, KEY_PREFIX) && ':' !in keys[id].secret
  }

  ghost predicate Distinct(keys: Keys)
  {
    forall a, b :: a in keys && b in keys && keys[a].secret == keys[b].secret ==> a == b
  }

  /** Each key has at most one successor. */
  ghost predicate OneSuccessor(keys: Keys)
  {
    forall a, b :: a in keys && b in keys && keys[a].rotatedFrom.Some? && keys[a].rotatedFrom == keys[b].rotatedFrom ==> a == b
  }

  ghost predicate Linked(keys: Keys) { forall id :: id in keys ==> Continues(keys, id) && WellNamed(keys, id) }

  ghost predicate Inv(w: World) { Linked(w.keys) && Distinct(w.keys) && OneSuccessor(w.keys) }

  /** Each key's use count is the number of its uses in the audit log. */
  ghost predicate Counted(w: World)
  {
    && (forall id :: id in w.keys ==>
          w.keys[id].uses == w.audit[UsedEntry(w.keys[id].org, id, true)] + w.audit[UsedEntry(w.keys[id].org, id, false)])
    && (forall id, org, grace :: id !in w.keys ==> UsedEntry(org, id, grace) !in w.audit)
  }

  lemma RotateKeepsLinked(keys: Keys, id: KeyId, org: string, newId: KeyId, newSecret: string, graceHours: int, now: int)
    requires Linked(keys) && CanRotate(keys, id, org) && Fresh(keys, newId, newSecret)
    ensures Linked(RotatedKeys(keys, id, newId, newSecret, graceHours, now))
  {
    var after := RotatedKeys(keys, id, newId, newSecret, graceHours, now);
    forall a | a in after ensures Continues(after, a) && WellNamed(after, a) {
      if a != newId {
        assert Continues(keys, a) && WellNamed(keys, a);
      } else {
        assert WellNamed(keys, id) && after[newId].rotatedFrom == Some(id);
      }
    }
  }

  lemma ActiveHasNoSuccessor(keys: Keys, id: KeyId)
    requires Linked(keys) && id in keys && keys[id].active
    ensures forall a :: a in keys ==> keys[a].rotatedFrom != Some(id)
  {
    forall a | a in keys ensures keys[a].rotatedFrom != Some(id) {
      assert Continues(keys, a);
    }
  }

  lemma RotatedColumns(keys: Keys, id: KeyId, newId: KeyId, newSecret: string, graceHours: int, now: int)
    requires id in keys && newId !in keys
    ensures var after := RotatedKeys(keys, id, newId, newSecret, graceHours, now);
      forall a :: a in after ==>
        && after[a].secret == (if a == newId then newSecret else keys[a].secret)
        && after[a].rotatedFrom == (if a == newId then Some(id) else keys[a].rotatedFrom)
  {
  }

  lemma RotateKeepsDistinct(keys: Keys, id: KeyId, newId: KeyId, newSecret: string, graceHours: int, now: int)
    requires Distinct(keys) && id in keys && Fresh(keys, newId, newSecret)
    ensures Distinct(RotatedKeys(keys, id, newId, newSecret, graceHours, now))
  {
    RotatedColumns(keys, id, newId, newSecret, graceHours, now);
  }

  lemma RotateKeepsOneSuccessor(keys: Keys, id: KeyId, newId: KeyId, newSecret: string, graceHours: int, now: int)
    requires Linked(keys) && OneSuccessor(keys) && id in keys && keys[id].active && newId !in keys
    ensures OneSuccessor(RotatedKeys(keys, id, newId, newSecret, graceHours, now))
  {
    ActiveHasNoSuccessor(keys, id);
    RotatedColumns(keys, id, newId, newSecret, graceHours, now);
  }

  /** The same rows, up to retirement and use counts. */
  ghost predicate SameRows(before: Keys, after: Keys)
  {
    && after.Keys == before.Keys
    && forall id :: id in before ==>
         && after[id] == before[id].(active := after[id].active, uses := after[id].uses)
         && (after[id].active ==> before[id].active)
  }

  lemma SameRowsKeepInv(before: World, after: World)
    requires Inv(before) && SameRows(before.keys, after.keys)
    ensures Inv(after)
  {
    forall id | id in after.keys ensures Continues(after.keys, id) && WellNamed(after.keys, id) {
      assert Continues(before.keys, id) && WellNamed(before.keys, id);
    }
  }

  lemma RecordedSameRows(w: World, o: Outcome)
    ensures SameRows(w.keys, Recorded(w, o).keys)
  {
  }

  lemma DeactivatedSameRows(keys: Keys, ids: set<KeyId>)
    ensures SameRows(keys, Deactivated(keys, ids))
  {
  }

  lemma RowsOnlyChangeSo(w: World, e: Event)
    requires !e.Issue? && !e.Rotate?
    ensures SameRows(w.keys, Apply(w, e).keys)
  {
    match e
    case Revoke(id, _) => DeactivatedSameRows(w.keys, {id});
    case Decommission(agent, _) => DeactivatedSameRows(w.keys, ActiveOf(w.keys, agent));
    case Present(presented, orgOf, order) =>
      if orgOf.None? || Lists(order, w.keys, orgOf.value) {
        RecordedSameRows(w, Verify(w.keys, presented, orgOf, order, w.now));
      }
    case _ =>
  }

  lemma IssueKeepsInv(w: World, e: Event)
    requires Inv(w) && e.Issue?
    ensures Inv(Apply(w, e))
  {
    var keys := Apply(w, e).keys;
    forall id | id in keys ensures Continues(keys, id) && WellNamed(keys, id) {
      if id in w.keys { assert Continues(w.keys, id) && WellNamed(w.keys, id); }
    }
  }

  lemma StepKeepsInv(w: World, e: Event)
    requires Inv(w)
    ensures Inv(Apply(w, e))
  {
    if e.Rotate? {
      if CanRotate(w.keys, e.id, e.org) && Fresh(w.keys, e.newId, e.newSecret) {
        RotateKeepsLinked(w.keys, e.id, e.org, e.newId, e.newSecret, e.graceHours, w.now);
        RotateKeepsDistinct(w.keys, e.id, e.newId, e.newSecret, e.graceHours, w.now);
        RotateKeepsOneSuccessor(w.keys, e.id, e.newId, e.newSecret, e.graceHours, w.now);
      }
    } else if e.Issue? {
      IssueKeepsInv(w, e);
    } else {
      RowsOnlyChangeSo(w, e);
      SameRowsKeepInv(w, Apply(w, e));
    }
  }

  lemma {:induction false} RunKeepsInv(w: World, events: seq<Event>)
    requires Inv(w)
    ensures Inv(Run(w, events))
  {
    if events != [] {
      RunKeepsInv(w, events[..|events| - 1]);
      StepKeepsInv(Run(w, events[..|events| - 1]), events[|events| - 1]);
    }
  }

  lemma VerifiedAgainstRow(keys: Keys, presented: string, org: Option<string>, order: seq<KeyId>, now: int)
    requires org.Some? ==> Lists(order, keys, org.value)
    ensures var o := Verify(keys, presented, org, order, now);
      (o.Accepted? ==> o.id in keys) && (o.Refused? && o.denial.Some? ==> o.denial.value.DeniedEntry?)
  {
    if org.Some? {
      ListsKeys(order, keys, org.value);
      ScanFinds(keys, org.value, order, presented, now);
    }
  }

  /** Steps that audit no use and count none. */
  lemma UncountedStep(w: World, after: World, extra: multiset<Entry>)
    requires Counted(w) && after.audit == w.audit + extra && forall entry :: entry in extra ==> !entry.UsedEntry?
    requires w.keys.Keys <= after.keys.Keys
    requires forall id :: id in after.keys ==>
      if id in w.keys then after.keys[id].uses == w.keys[id].uses && after.keys[id].org == w.keys[id].org else after.keys[id].uses == 0
    ensures Counted(after)
  {
    forall id, org, grace ensures extra[UsedEntry(org, id, grace)] == 0 {
      assert UsedEntry(org, id, grace) !in extra;
    }
  }

  lemma UseIsCounted(w: World, id: KeyId, grace: bool)
    requires Counted(w) && id in w.keys
    ensures Counted(Recorded(w, Accepted(id, grace)))
  {
  }

  lemma PresentKeepsCounted(w: World, o: Outcome)
    requires Counted(w) && (o.Accepted? ==> o.id in w.keys) && (o.Refused? && o.denial.Some? ==> o.denial.value.DeniedEntry?)
    ensures Counted(Recorded(w, o))
  {
    match o
    case Accepted(id, grace) => UseIsCounted(w, id, grace);
    case Refused(denial) => if denial.Some? { UncountedStep(w, Recorded(w, o), multiset{denial.value}); }
  }

  lemma DecommissionKeepsCounted(w: World, agent: string)
    requires Counted(w) && agent in w.agents
    ensures Counted(DecommissionedAgent(w, agent))
  {
    UncountedStep(w, DecommissionedAgent(w, agent),
                  multiset(set id | id in ActiveOf(w.keys, agent) :: RevokedEntry(w.agents[agent].org, id)));
  }

  lemma StepKeepsCounted(w: World, e: Event)
    requires Counted(w)
    ensures Counted(Apply(w, e))
  {
    var after := Apply(w, e);
    match e
    case Issue(_, org, _, _, id, _) => if after != w { UncountedStep(w, after, multiset{IssuedEntry(org, id)}); }
    case Rotate(id, org, newId, _, _) => if after != w { UncountedStep(w, after, multiset{RotatedEntry(org, id, newId)}); }
    case Revoke(id, org) => if after != w { UncountedStep(w, after, multiset{RevokedEntry(org, id)}); }
    case Decommission(agent, org) =>
      if CanDecommission(w, agent, org) { DecommissionKeepsCounted(w, agent); }
    case Present(presented, orgOf, order) =>
      if orgOf.None? || Lists(order, w.keys, orgOf.value) {
        VerifiedAgainstRow(w.keys, presented, orgOf, order, w.now);
        PresentKeepsCounted(w, Verify(w.keys, presented, orgOf, order, w.now));
      }
    case _ =>
  }

  /** In every run, use counts and audited uses agree, key by key. */
  lemma {:induction false} UsesAreAudited(events: seq<Event>)
    ensures Counted(Run(Empty, events))
  {
    if events != [] {
      UsesAreAudited(events[..|events| - 1]);
      StepKeepsCounted(Run(Empty, events[..|events| - 1]), events[|events| - 1]);
    }
  }

  // ---------- Lineages ----------

  /** `n` rotations back. */
  function Back(keys: Keys, id: KeyId, n: nat): Option<KeyId>
    decreases n
  {
    if n == 0 then Some(id)
    else
      var next := Back(keys, id, n - 1);
      if next.Some? && next.value in keys then keys[next.value].rotatedFrom else None
  }

  lemma {:induction false} BackStays(keys: Keys, id: KeyId, n: nat)
    requires forall a :: a in keys ==> Continues(keys, a)
    requires id in keys && Back(keys, id, n).Some?
    ensures Back(keys, id, n).value in keys
    ensures n > 0 ==> !keys[Back(keys, id, n).value].active
    decreases n
  {
    if n > 0 {
      BackStays(keys, id, n - 1);
      assert Continues(keys, Back(keys, id, n - 1).value);
    }
  }

  /** Each lineage has at most one active key: two active keys that share an ancestor are the same key. */
  lemma {:induction false} OneActivePerLineage(w: World, a: KeyId, n: nat, b: KeyId, m: nat)
    requires Inv(w) && a in w.keys && b in w.keys && w.keys[a].active && w.keys[b].active
    requires Back(w.keys, a, n).Some? && Back(w.keys, a, n) == Back(w.keys, b, m)
    ensures a == b
    decreases n
  {
    BackStays(w.keys, a, n);
    BackStays(w.keys, b, m);
    if n > 0 && m > 0 {
      BackStays(w.keys, a, n - 1);
      BackStays(w.keys, b, m - 1);
      OneActivePerLineage(w, a, n - 1, b, m - 1);
    }
  }

  // ---------- One secret, one key ----------

  /** In a reachable state any secret matches at most one active key. */
  lemma OneMatch(w: World, a: KeyId, b: KeyId, secret: string, now: int)
    requires Inv(w) && a in w.keys && b in w.keys && w.keys[a].active && w.keys[b].active
    requires Match(w.keys[a], secret, now).Some? && Match(w.keys[b], secret, now).Some?
    ensures a == b
  {
    assert Continues(w.keys, a) && Continues(w.keys, b);
  }

  lemma {:induction false} ScanFinds(keys: Keys, org: string, order: seq<KeyId>, secret: string, now: int)
    requires forall id :: id in order ==> id in keys
    ensures var o := Scan(keys, org, order, secret, now);
      if o.Accepted? then o.id in order && Match(keys[o.id], secret, now) == Some(o.grace)
      else o.denial == Some(DeniedEntry(org, None)) && forall id :: id in order ==> Match(keys[id], secret, now).None?
  {
    if order != [] { ScanFinds(keys, org, order[1..], secret, now); }
  }

  /** The scan accepts exactly when some active key of the organisation matches, and it then names that key,
      so the order in which the rows arrive makes no difference. */
  lemma ScanIsExact(w: World, org: string, order: seq<KeyId>, secret: string, now: int, id: KeyId, grace: bool)
    requires Inv(w) && Lists(order, w.keys, org)
    requires forall i :: i in order ==> i in w.keys
    ensures Scan(w.keys, org, order, secret, now) == Accepted(id, grace)
      <==> id in w.keys && w.keys[id].active && w.keys[id].org == org && Match(w.keys[id], secret, now) == Some(grace)
  {
    ListsKeys(order, w.keys, org);
    ScanFinds(w.keys, org, order, secret, now);
    var o := Scan(w.keys, org, order, secret, now);
    if o.Accepted? && id in w.keys && w.keys[id].active && Match(w.keys[id], secret, now).Some? {
      OneMatch(w, o.id, id, secret, now);
    }
  }

  lemma BareIs(w: World, secret: string, org: string, order: seq<KeyId>)
    requires Lists(order, w.keys, org) && ':' !in secret
    ensures forall id :: id in order ==> id in w.keys
    ensures Apply(w, Present(secret, Some(org), order)) ==
      if StartsWith(secret, KEY_PREFIX) then Recorded(w, Scan(w.keys, org, order, secret, w.now)) else w
  {
    ListsKeys(order, w.keys, org);
  }

  /** What presenting a bare secret records: nothing without the key prefix; otherwise one use of the active key of the
      organisation that matches. */
  lemma PresentedBare(w: World, secret: string, org: string, order: seq<KeyId>, id: KeyId, grace: bool)
    requires Inv(w) && Lists(order, w.keys, org) && ':' !in secret
    requires id in w.keys && w.keys[id].active && w.keys[id].org == org && Match(w.keys[id], secret, w.now) == Some(grace)
    ensures var w' := Apply(w, Present(secret, Some(org), order));
      if !StartsWith(secret, KEY_PREFIX) then w' == w
      else
        && w'.keys == w.keys[id := w.keys[id].(uses := w.keys[id].uses + 1)]
        && w'.audit == w.audit + multiset{UsedEntry(org, id, grace)}
  {
    BareIs(w, secret, org, order);
    ScanIsExact(w, org, order, secret, w.now, id, grace);
  }

  /** If no active key of the organisation matches, one denial against the organisation. */
  lemma BareMissed(w: World, secret: string, org: string, order: seq<KeyId>)
    requires Lists(order, w.keys, org) && ':' !in secret
    requires forall id :: id in w.keys && w.keys[id].active && w.keys[id].org == org ==> Match(w.keys[id], secret, w.now).None?
    ensures var w' := Apply(w, Present(secret, Some(org), order));
      w' == if StartsWith(secret, KEY_PREFIX) then w.(audit := w.audit + multiset{DeniedEntry(org, None)}) else w
  {
    BareIs(w, secret, org, order);
    ListsKeys(order, w.keys, org);
    ScanFinds(w.keys, org, order, secret, w.now);
  }

  lemma OrderIsIrrelevant(w: World, presented: string, org: Option<string>, first: seq<KeyId>, second: seq<KeyId>, now: int)
    requires Inv(w) && (org.Some? ==> Lists(first, w.keys, org.value) && Lists(second, w.keys, org.value))
    ensures Verify(w.keys, presented, org, first, now) == Verify(w.keys, presented, org, second, now)
  {
    if org.Some? {
      ListsKeys(first, w.keys, org.value);
      ListsKeys(second, w.keys, org.value);
      ScanFinds(w.keys, org.value, first, presented, now);
      ScanFinds(w.keys, org.value, second, presented, now);
      var o := Scan(w.keys, org.value, first, presented, now);
      if o.Accepted? { ScanIsExact(w, org.value, second, presented, now, o.id, o.grace); }
    }
  }

  /** The indexed path accepts `id:secret` exactly when the scan of the key's organisation would accept the
      bare secret as that same key. */
  lemma PathsAgree(w: World, id: KeyId, secret: string, order: seq<KeyId>, grace: bool)
    requires Inv(w) && id in w.keys && Lists(order, w.keys, w.keys[id].org)
    requires StartsWith(secret, KEY_PREFIX) && ':' !in secret
    ensures Verify(w.keys, id + ":" + secret, None, [], w.now) == Accepted(id, grace)
      <==> Verify(w.keys, secret, Some(w.keys[id].org), order, w.now) == Accepted(id, grace)
  {
    assert WellNamed(w.keys, id);
    SplitExactly(id, secret, secret);
    ListsKeys(order, w.keys, w.keys[id].org);
    ScanIsExact(w, w.keys[id].org, order, secret, w.now, id, grace);
  }

  // ---------- Retired secrets ----------

  /** No credential containing the secret is accepted, on either path and whatever the clock says. */
  ghost predicate NeverMatches(keys: Keys, secret: string)
  {
    forall id, now :: id in keys && keys[id].active ==> Match(keys[id], secret, now).None?
  }

  /** Rows persist, an inactive row never becomes active again, and who rotated from whom never changes. */
  ghost predicate Follows(before: Keys, after: Keys)
  {
    forall id :: id in before ==>
      && id in after && after[id] == before[id].(active := after[id].active, uses := after[id].uses)
      && (after[id].active ==> before[id].active)
      && (!before[id].active ==> forall a :: a in after && after[a].rotatedFrom == Some(id) ==> a in before)
  }

  lemma StepFollows(w: World, e: Event)
    ensures Follows(w.keys, Apply(w, e).keys)
  {
    if !e.Issue? && !e.Rotate? { RowsOnlyChangeSo(w, e); }
  }

  lemma {:induction false} RunFollows(w: World, events: seq<Event>)
    ensures Follows(w.keys, Run(w, events).keys)
  {
    if events != [] {
      var mid := Run(w, events[..|events| - 1]);
      RunFollows(w, events[..|events| - 1]);
      StepFollows(mid, events[|events| - 1]);
      var after := Run(w, events).keys;
      forall id | id in w.keys && !w.keys[id].active
        ensures forall a :: a in after && after[a].rotatedFrom == Some(id) ==> a in w.keys
      {
        assert !mid.keys[id].active;
      }
    }
  }

  /** Once a key is inactive and its successor, if it ever had one, is inactive too, its secret is never
      accepted again in any continuation of the run. */
  lemma RetiredForGood(w: World, id: KeyId, events: seq<Event>)
    requires Inv(w) && id in w.keys && !w.keys[id].active
    requires forall a :: a in w.keys && w.keys[a].rotatedFrom == Some(id) ==> !w.keys[a].active
    ensures NeverMatches(Run(w, events).keys, w.keys[id].secret)
  {
    RunFollows(w, events);
    RunKeepsInv(w, events);
    var after := Run(w, events).keys;
    forall a, now | a in after && after[a].active ensures Match(after[a], w.keys[id].secret, now).None? {
      assert after[id].secret == w.keys[id].secret && !after[id].active;
      assert Continues(after, a);
      assert a != id && after[a].rotatedFrom != Some(id);
    }
  }

  /** A secret two rotations back is never accepted again. */
  lemma TwoRotationsBack(w: World, id: KeyId, events: seq<Event>)
    requires Inv(w) && id in w.keys && Back(w.keys, id, 2).Some?
    ensures Back(w.keys, id, 2).value in w.keys
    ensures NeverMatches(Run(w, events).keys, w.keys[Back(w.keys, id, 2).value].secret)
  {
    BackStays(w.keys, id, 1);
    BackStays(w.keys, id, 2);
    RetiredForGood(w, Back(w.keys, id, 2).value, events);
  }

  /** Revoking a key ends both its own secret and the one in its grace slot, for good. */
  lemma RevokedForGood(w: World, id: KeyId, events: seq<Event>)
    requires Inv(w) && id in w.keys && w.keys[id].active
    ensures var after := Run(Apply(w, Revoke(id, w.keys[id].org)), events).keys;
      && NeverMatches(after, w.keys[id].secret)
      && (w.keys[id].grace.Some? ==> NeverMatches(after, w.keys[id].grace.value.secret))
  {
    var w' := Apply(w, Revoke(id, w.keys[id].org));
    StepKeepsInv(w, Revoke(id, w.keys[id].org));
    ActiveHasNoSuccessor(w.keys, id);
    RetiredForGood(w', id, events);
    assert Continues(w.keys, id);
    if w.keys[id].rotatedFrom.Some? { RetiredForGood(w', w.keys[id].rotatedFrom.value, events); }
  }

  // ---------- Grace rotation ----------

  /** The step neither rotates nor retires the key. */
  predicate Spares(e: Event, id: KeyId, agent: string)
  {
    match e
    case Rotate(rotated, _, _, _, _) => rotated != id
    case Revoke(revoked, _) => revoked != id
    case Decommission(a, _) => a != agent
    case _ => true
  }

  lemma SparedByStep(w: World, id: KeyId, e: Event)
    requires id in w.keys && w.keys[id].active && Spares(e, id, w.keys[id].agent)
    ensures var keys := Apply(w, e).keys; id in keys && keys[id] == w.keys[id].(uses := keys[id].uses)
  {
    if e.Rotate? && CanRotate(w.keys, e.id, e.org) && Fresh(w.keys, e.newId, e.newSecret) {
      assert id != e.id && id != e.newId;
    } else if e.Decommission? && CanDecommission(w, e.agent, e.org) {
      assert id !in ActiveOf(w.keys, e.agent);
    }
  }

  lemma {:induction false} SparedStaysActive(w: World, id: KeyId, events: seq<Event>)
    requires id in w.keys && w.keys[id].active
    requires forall i :: 0 <= i < |events| ==> Spares(events[i], id, w.keys[id].agent)
    ensures id in Run(w, events).keys
    ensures Run(w, events).keys[id] == w.keys[id].(uses := Run(w, events).keys[id].uses)
  {
    if events != [] {
      var n := |events| - 1;
      SparedStaysActive(w, id, events[..n]);
      SparedByStep(Run(w, events[..n]), id, events[n]);
    }
  }

  /** If of the organisation's active keys at most one answers to a bare secret, that one decides. */
  lemma SoleAnswer(w: World, org: string, order: seq<KeyId>, secret: string, id: KeyId)
    requires Inv(w) && Lists(order, w.keys, org) && id in w.keys && w.keys[id].active && w.keys[id].org == org
    requires StartsWith(secret, KEY_PREFIX) && ':' !in secret
    requires forall a :: a in w.keys && w.keys[a].active && a != id ==> Match(w.keys[a], secret, w.now).None?
    ensures Verify(w.keys, secret, Some(org), order, w.now)
         == match Match(w.keys[id], secret, w.now)
            case Some(grace) => Accepted(id, grace)
            case None => Refused(Some(DeniedEntry(org, None)))
  {
    ListsKeys(order, w.keys, org);
    ScanFinds(w.keys, org, order, secret, w.now);
    assert id in order;
  }

  lemma RotationMakes(w: World, id: KeyId, org: string, newId: KeyId, newSecret: string, graceHours: int)
    requires Inv(w) && CanRotate(w.keys, id, org) && Fresh(w.keys, newId, newSecret)
    ensures var rotated := Apply(w, Rotate(id, org, newId, newSecret, graceHours));
      && Inv(rotated) && newId in rotated.keys && id in rotated.keys
      && rotated.keys[newId] == Successor(w.keys[id], id, newSecret, graceHours, w.now)
      && rotated.keys[id].secret == w.keys[id].secret
  {
    StepKeepsInv(w, Rotate(id, org, newId, newSecret, graceHours));
  }

  /** How the scan answers either secret of a spared successor at the end of the run. */
  lemma SuccessorAnswers(w: World, id: KeyId, newId: KeyId, events: seq<Event>, order: seq<KeyId>, secret: string)
    requires Inv(w) && id in w.keys && newId in w.keys && w.keys[newId].rotatedFrom == Some(id) && w.keys[newId].active
    requires forall i :: 0 <= i < |events| ==> Spares(events[i], newId, w.keys[newId].agent)
    requires Lists(order, Run(w, events).keys, w.keys[newId].org)
    requires secret == w.keys[newId].secret || secret == w.keys[id].secret
    ensures var k := w.keys[newId];
      var after := Run(w, events);
      Verify(after.keys, secret, Some(k.org), order, after.now) ==
        match Match(k, secret, after.now)
        case Some(grace) => Accepted(newId, grace)
        case None => Refused(Some(DeniedEntry(k.org, None)))
  {
    RunKeepsInv(w, events);
    SparedStaysActive(w, newId, events);
    OnlyKey(w, id, newId, events);
    assert WellNamed(w.keys, id) && WellNamed(w.keys, newId);
    SoleAnswer(Run(w, events), w.keys[newId].org, order, secret, newId);
  }

  /** The scan's answer to the new and to the previous secret, `now` being when they are presented. */
  function AnswerToNew(newId: KeyId, org: string, rotatedAt: int, now: int): Outcome
  {
    if now <= rotatedAt + DEFAULT_TTL then Accepted(newId, false) else Refused(Some(DeniedEntry(org, None)))
  }

  function AnswerToPrevious(newId: KeyId, org: string, rotatedAt: int, graceHours: int, now: int): Outcome
  {
    if now <= rotatedAt + DEFAULT_TTL && now <= rotatedAt + graceHours * HOUR then Accepted(newId, true)
    else Refused(Some(DeniedEntry(org, None)))
  }

  lemma SuccessorMatches(prior: Key, id: KeyId, newId: KeyId, newSecret: string, graceHours: int, rotatedAt: int, now: int)
    requires newSecret != prior.secret
    ensures var k := Successor(prior, id, newSecret, graceHours, rotatedAt);
      && AnswerToNew(newId, k.org, rotatedAt, now) == (match Match(k, newSecret, now)
           case Some(grace) => Accepted(newId, grace)
           case None => Refused(Some(DeniedEntry(k.org, None))))
      && AnswerToPrevious(newId, k.org, rotatedAt, graceHours, now) == (match Match(k, prior.secret, now)
           case Some(grace) => Accepted(newId, grace)
           case None => Refused(Some(DeniedEntry(k.org, None))))
  {
  }

  /** After a rotation at `w.now`, and absent further rotation or revocation of the new key, the scan accepts the
      new secret exactly up to the new key's own expiry, and the previous one, as the new key's grace secret,
      exactly up to the earlier of that and the end of the grace period, both included. */
  lemma GraceWindow(w: World, id: KeyId, org: string, newId: KeyId, newSecret: string, graceHours: int, events: seq<Event>, order: seq<KeyId>)
    requires Inv(w) && CanRotate(w.keys, id, org) && Fresh(w.keys, newId, newSecret)
    requires forall i :: 0 <= i < |events| ==> Spares(events[i], newId, w.keys[id].agent)
    requires Lists(order, Run(Apply(w, Rotate(id, org, newId, newSecret, graceHours)), events).keys, org)
    ensures var after := Run(Apply(w, Rotate(id, org, newId, newSecret, graceHours)), events);
      && Verify(after.keys, newSecret, Some(org), order, after.now) == AnswerToNew(newId, org, w.now, after.now)
      && Verify(after.keys, w.keys[id].secret, Some(org), order, after.now)
           == AnswerToPrevious(newId, org, w.now, graceHours, after.now)
  {
    var rotated := Apply(w, Rotate(id, org, newId, newSecret, graceHours));
    RotationMakes(w, id, org, newId, newSecret, graceHours);
    SuccessorMatches(w.keys[id], id, newId, newSecret, graceHours, w.now, Run(rotated, events).now);
    SuccessorAnswers(rotated, id, newId, events, order, newSecret);
    SuccessorAnswers(rotated, id, newId, events, order, w.keys[id].secret);
  }

  /** Of all active keys only the successor answers to either secret. */
  lemma OnlyKey(w: World, id: KeyId, newId: KeyId, events: seq<Event>)
    requires Inv(w) && id in w.keys && newId in w.keys && w.keys[newId].rotatedFrom == Some(id) && w.keys[newId].active
    requires var after := Run(w, events).keys; Inv(Run(w, events)) && newId in after && after[newId].active
    ensures var after := Run(w, events).keys;
      forall a, now :: a in after && after[a].active && a != newId ==>
        Match(after[a], w.keys[id].secret, now).None? && Match(after[a], w.keys[newId].secret, now).None?
  {
    RunFollows(w, events);
    var after := Run(w, events).keys;
    assert after[id].secret == w.keys[id].secret && after[newId].secret == w.keys[newId].secret;
    forall a, now | a in after && after[a].active && a != newId
      ensures Match(after[a], w.keys[id].secret, now).None? && Match(after[a], w.keys[newId].secret, now).None?
    {
      assert Continues(after, a) && Continues(after, newId);
    }
  }

  /** On the indexed path the old credential stops at the rotation: `id:secret` is refused for good, whatever
      the grace period, and the previous secret is accepted only under the new key's id. */
  lemma OldIdStopsAtRotation(w: World, id: KeyId, org: string, newId: KeyId, newSecret: string, graceHours: int, events: seq<Event>, secret: string)
    requires Inv(w) && CanRotate(w.keys, id, org) && Fresh(w.keys, newId, newSecret)
    requires StartsWith(secret, KEY_PREFIX)
    ensures var rotated := Apply(w, Rotate(id, org, newId, newSecret, graceHours));
      && Verify(Run(rotated, events).keys, id + ":" + secret, None, [], Run(rotated, events).now) == Refused(None)
      && (graceHours >= 0 ==> Verify(rotated.keys, newId + ":" + w.keys[id].secret, None, [], rotated.now) == Accepted(newId, true))
  {
    var rotated := Apply(w, Rotate(id, org, newId, newSecret, graceHours));
    RunFollows(rotated, events);
    assert WellNamed(w.keys, id);
    SplitExactly(id, secret, "");
    SplitExactly(newId, w.keys[id].secret, "");
  }
}
