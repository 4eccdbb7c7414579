/** The world the delegation, revocation and token services share: agents, issued tokens, grants, the
    revocation index and the clock. Each service call is one step over it. */
module Authority {
  import opened Prelude
  import opened Forest
  import opened Lineage
  import opened Revocation

  /** What a token is narrowed to: one server (resource), one (server, tool) pair (authorization_details). */
  datatype Target = Target(resource: Option<string>, task: Option<(string, string)>)

  const ANYWHERE: Target := Target(None, None)

  datatype Token = Token(
    sub: AgentId, org: OrgId, scopes: set<Scope>, depth: int, exp: int, onBehalfOf: Option<string>, target: Target)

  /** What an exchange (with a key) or an authorization code (without) asks to be minted. */
  datatype MintRequest = MintRequest(
    sub: AgentId, key: Option<string>, scopes: set<Scope>, onBehalfOf: Option<string>, target: Target)

  /** What a hop was decided from: the token presented and the delegator's allowed_scopes as read then. */
  datatype Hop = Hop(via: Jti, ceiling: set<Scope>)

  /** `maxDepth` is the MAX_DELEGATION_DEPTH setting. `hops` and `tracked` are history: they record where grants
      and index entries came from and decide nothing. */
  datatype State = State(
    maxDepth: nat,
    now: int,
    agents: map<AgentId, Agent>,
    issued: map<Jti, Token>,
    grants: Table,
    redis: Redis,
    hops: map<GrantId, Hop>,
    tracked: map<Jti, set<IndexKey>>)

  const ACCESS_SECONDS: int := 900
  const DELEGATION_SECONDS: int := 600

  function KnownScopes(scopes: set<Scope>): set<Scope> { set s | s in scopes && IsPermissionScope(s) }

  /** The middleware lets a presented token through. */
  predicate Accepts(s: State, jti: Jti)
  {
    && jti in s.issued
    && !Revoked(s.redis, jti, s.now)
    && Live(s.issued[jti].exp, s.now)
    && s.issued[jti].depth <= s.maxDepth
  }

  // ---------- Delegating ----------

  ghost predicate HasJti(t: Table, id: GrantId, jti: Jti) { id in t && t[id].jti == jti }

  /** The grant whose delegation_jti is `jti`; the column is unique. */
  ghost function Holder(t: Table, jti: Jti): Option<GrantId>
  {
    if exists id :: HasJti(t, id, jti) then var id :| HasJti(t, id, jti); Some(id) else None
  }

  datatype Loaded = Chain(links: seq<Grant>, parent: Option<GrantId>) | Rejected(why: Refusal)

  ghost function LoadChain(t: Table, jti: Jti): Loaded
  {
    match Holder(t, jti)
    case None => Chain([], None)
    case Some(id) =>
      if !t[id].active then Rejected(OwnGrantRevoked)
      else
        match Walk(t, id, {id})
        case Found(ids) => Chain(Rows(t, ids), Some(id))
        case AncestorRevoked(a) => Rejected(BrokenAncestor(a))
  }

  datatype Decision = Grants(scopes: set<Scope>, links: seq<Grant>, parent: Option<GrantId>) | Denies(why: Refusal)

  predicate InOrg(agents: map<AgentId, Agent>, a: AgentId, org: OrgId) { a in agents && agents[a].org == org }

  ghost function Decide(s: State, presented: Jti, delegatee: AgentId, requested: seq<Scope>): Decision
    requires presented in s.issued
  {
    var tok := s.issued[presented];
    if !InOrg(s.agents, tok.sub, tok.org) then Denies(DelegatorNotFound)
    else if !InOrg(s.agents, delegatee, tok.org) then Denies(DelegateeNotFound)
    else if s.agents[delegatee].status != Active then Denies(DelegateeNotActive)
    else
      match LoadChain(s.grants, presented)
      case Rejected(why) => Denies(why)
      case Chain(links, parent) =>
        match Validate(links, tok.sub, delegatee, tok.scopes * s.agents[tok.sub].allowed, requested, s.maxDepth)
        case Refused(why) => Denies(why)
        case Approved(scopes) =>
          if |links| >= s.maxDepth then Denies(DepthGuard) else Grants(scopes, links, parent)
  }

  // ---------- Issuing and revoking ----------

  function AddToken(s: State, jti: Jti, tok: Token): State
  {
    s.(issued := s.issued[jti := tok], tracked := s.tracked[jti := {}])
  }

  function Track(s: State, key: IndexKey, jti: Jti): State
    requires jti in s.issued && jti in s.tracked
  {
    s.(redis := TrackIssued(s.redis, s.now, key, jti, s.issued[jti].exp),
       tracked := s.tracked[jti := s.tracked[jti] + {key}])
  }

  function RevokeIndex(s: State, key: IndexKey): State { s.(redis := RevokeAll(s.redis, s.now, key)) }

  function RevokeKeys(s: State, keys: seq<string>): (r: State)
    ensures r == s.(redis := r.redis)
  {
    if keys == [] then s else RevokeIndex(RevokeKeys(s, keys[..|keys| - 1]), KeyIndex(keys[|keys| - 1]))
  }

  /** The bulk UPDATE of a revocation: every listed row, active or not, is stamped. */
  function Marked(t: Table, ids: set<GrantId>, now: int): Table
  {
    map id | id in t :: if id in ids then t[id].(active := false, revokedAt := Some(now)) else t[id]
  }

  function DueJtis(t: Table, ids: set<GrantId>, now: int): set<Jti>
  {
    set id | id in t && id in ids && Remaining(t[id].expiresAt, now) > 0 :: t[id].jti
  }

  /** The blacklist entries written for the listed rows that have a whole second left. */
  ghost function GrantEntries(t: Table, ids: set<GrantId>, now: int): map<Jti, int>
  {
    map j | j in DueJtis(t, ids, now) :: EndOf(now, Remaining(ExpiryOf(t, j), now))
  }

  ghost function ExpiryOf(t: Table, jti: Jti): int
  {
    if Holder(t, jti).Some? then t[Holder(t, jti).value].expiresAt else 0
  }

  ghost function RevokeTree(s: State, top: GrantId): State
  {
    var ids := Descendants(s.grants, top) + {top};
    s.(grants := Marked(s.grants, ids, s.now),
       redis := s.redis.(revoked := s.redis.revoked + GrantEntries(s.grants, ids, s.now)))
  }

  // ---------- Steps ----------

  datatype Event =
    | Tick(ms: nat)
    | SetAgent(id: AgentId, row: Agent)
    | Mint(jti: Jti, request: MintRequest)
    | Delegate(presented: Jti, delegatee: AgentId, requested: seq<Scope>, gid: GrantId, jti: Jti)
    | RevokeGrant(gid: GrantId, org: OrgId)
    | RevokeKey(kid: string)
    | Suspend(id: AgentId, org: OrgId)
    | Decommission(id: AgentId, org: OrgId, keys: seq<string>)

  /** Where a step finds nothing to do (an unknown row, a refused request) it changes nothing.
      Ids and jtis are fresh; an agent's organisation never changes. */
  ghost predicate Enabled(s: State, e: Event)
  {
    match e
    case Tick(_) => true
    case SetAgent(id, agent) => id in s.agents ==> agent.org == s.agents[id].org
    case Mint(jti, q) =>
      && jti !in s.issued && q.sub in s.agents
      && (TASK_SCOPED in q.scopes ==> q.target.task.Some?)
    case Delegate(presented, delegatee, requested, gid, jti) =>
      && Accepts(s, presented) && gid !in s.grants && jti !in s.issued
      && Decide(s, presented, delegatee, requested).Grants?
    case RevokeGrant(gid, org) => gid in s.grants && s.grants[gid].org == org
    case RevokeKey(_) => true
    case Suspend(a, org) => InOrg(s.agents, a, org) && s.agents[a].status != Decommissioned
    case Decommission(a, org, _) => InOrg(s.agents, a, org) && s.agents[a].status != Decommissioned
  }

  function SetStatus(s: State, a: AgentId, status: AgentStatus): State
    requires a in s.agents
  {
    s.(agents := s.agents[a := s.agents[a].(status := status)])
  }

  function AccessToken(s: State, q: MintRequest): Token
    requires q.sub in s.agents
  {
    Token(q.sub, s.agents[q.sub].org, KnownScopes(q.scopes), 0, Seconds(s.now) + ACCESS_SECONDS, q.onBehalfOf, q.target)
  }

  /** The token a key exchange or an authorization code yields: depth 0, tracked under its agent and, for an
      exchange, under its key. */
  function MintToken(s: State, jti: Jti, q: MintRequest): State
    requires q.sub in s.agents
  {
    var tracked := Track(AddToken(s, jti, AccessToken(s, q)), AgentIndex(q.sub), jti);
    if q.key.Some? then Track(tracked, KeyIndex(q.key.value), jti) else tracked
  }

  /** The grant row and the delegation token an approved request yields; the token carries no target. */
  function AddGrant(s: State, presented: Jti, delegatee: AgentId, d: Decision, gid: GrantId, jti: Jti): State
    requires presented in s.issued && s.issued[presented].sub in s.agents && d.Grants?
  {
    var via := s.issued[presented];
    var exp := Seconds(s.now) + DELEGATION_SECONDS;
    var tok := Token(delegatee, via.org, KnownScopes(d.scopes), |d.links| + 1, exp, via.onBehalfOf, ANYWHERE);
    var row := Grant(via.org, via.sub, delegatee, d.scopes, |d.links| + 1, jti, d.parent, exp, true, None);
    Track(AddToken(s, jti, tok), AgentIndex(delegatee), jti)
      .(grants := s.grants[gid := row], hops := s.hops[gid := Hop(presented, s.agents[via.sub].allowed)])
  }

  ghost function Apply(s: State, e: Event): State
  {
    if !Enabled(s, e) then s
    else
      match e
      case Tick(ms) => s.(now := s.now + ms)
      case SetAgent(id, agent) => s.(agents := s.agents[id := agent])
      case Mint(jti, q) => MintToken(s, jti, q)
      case Delegate(presented, delegatee, requested, gid, jti) =>
        AddGrant(s, presented, delegatee, Decide(s, presented, delegatee, requested), gid, jti)
      case RevokeGrant(gid, _) => RevokeTree(s, gid)
      case RevokeKey(key) => RevokeIndex(s, KeyIndex(key))
      case Suspend(a, _) => RevokeIndex(SetStatus(s, a, Suspended), AgentIndex(a))
      case Decommission(a, _, keys) => RevokeIndex(SetStatus(RevokeKeys(s, keys), a, Decommissioned), AgentIndex(a))
  }

  ghost function Run(s: State, events: seq<Event>): State
  {
    if events == [] then s else Apply(Run(s, events[..|events| - 1]), events[|events| - 1])
  }

  function Initial(maxDepth: nat): State { State(maxDepth, 0, map[], map[], map[], Redis(map[], map[]), map[], map[]) }
}
