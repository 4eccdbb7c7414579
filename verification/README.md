# Identity and authorisation protocols of the agent control plane, in Dafny

This project models the control plane that gives AI agents their identities and permissions, and proves what its
protocols keep over whole runs:

- **Delegation and revocation** (`Forest`, `Lineage`, `Authority`, `AuthorityInv`, `Delegating`, `Effects`, `Guarantees`,
  `DelegationService`):
  agents, tokens, delegation grants, the Redis revocation index and the clock are one shared world. A run is any
  sequence of service calls and clock ticks. One invariant, kept by every step, carries the results: grants form a
  forest of bounded depth, a grant and its token say the same, scopes only shrink, and every live token is in the
  indexes a cascade reads or is already blacklisted. `Delegating` and `Effects` say in rows when a delegation is granted
  and which tokens each operation touches.
- **Revocation index** (`Revocation`): the floor-division and TTL arithmetic of entries, pruning and cascades.
- **Audit chain** (`Json`, `AuditChain`, `AuditAppend`, `AuditEdits`): the canonical JSON printer with a proof that it is
  injective, hash-chained rows, replay, tamper evidence by extracting a collision, the exact answer after any edit, and
  appenders interleaved at the granularity of lock, read tip, insert, commit and abort.
- **Tool proxy** (`Policy`, `Proxy`, `Provenance`, `CircuitBreaker`, `ProxyService`): the Rego policy with undefined
  values, the five gates, taint through a causal trace with the check, the sending and the recording of each call as
  separate steps, denial accounting, and the timed circuit breaker.
- **Rate limiter** (`RateLimit`, `RateLimitBounds`): reading the clock, INCR and EXPIRE as separate steps across requests,
  with exact bounds for requests that are counted late.
- **Credentials** (`ApiKeys`, `ApiKeyService`, `OAuth`, `TokenExchange`): key lineages with a grace slot, the two
  verification paths, single-use authorization codes with PKCE and resource binding, and task scoping, composed with the
  proxy: a token is followed from the `/authorize` call to every forwarded tool call.
- **The parts together** (`ControlPlane`, `ControlPlaneService`, `Origins`, `Confinement`): keys, codes and tokens in one
  joint world, so a key revocation or a decommissioning ends rows and tokens at once and every minted token has one
  origin; and which tokens stay held to one call.

Each stateful component is a class whose methods are proved equal to a step (or a short sequence of steps) of its
machine; the properties are proved about the machine.

## Assumptions

- uuids, jtis, key ids, secrets and authorization codes are fresh; a presented token is one the service issued.
- Settings are parameters (the maximum delegation depth, rate limits, the breaker's threshold and cooldown) except the
  policy's depth limit, token lifetimes and the scopes that must be task-scoped, which have the source's values.
- Signatures, bcrypt and SHA-256 are abstract: a secret matches its stored hash when equal, SHA-256 and the PKCE
  transformation are arbitrary functions (the audit chain asks for 64-character digests where it matters).
- Instants are integer milliseconds; `int(time.time())` is floor division by 1000; a token is live while now < exp
  (section 4.1.4 of RFC 7519).
- A service call on grants, keys and agents is one step. Audit appends, proxy calls, rate-limited requests and code
  exchanges are split into the steps that can interleave.
- `hops`, `tracked`, `sent`, `hits`, `used` and `minted` are history: no decision reads them, except that ids and codes
  come out fresh.

## Where the code and its own documentation differ

The model follows the code.

- `verify_chain` documents the count as the entries before the break; the code includes the broken row (`AuditChain.Replay`).
  The `previous_hash` column is never compared. Removing rows goes unnoticed exactly when nothing follows them or the next
  row's stored hash fits the row before the gap (`AuditEdits.RemovalVerdict`); short of a collision that is removing the
  newest rows (`AuditEdits.UnnoticedRemoval`).
- The `append` docstring says `SELECT FOR UPDATE`; the code takes an advisory lock on a hash of the organisation id,
  which may collide between organisations. The chain holds with such collisions.
- The Rego file says a request is allowed exactly when the reasons are empty. With the depth missing and nothing else
  wrong the reasons are empty and the request is denied; that is the only case (`Policy.ReasonsAgree`).
- After a rotation the old key is said to keep working. It does on the organisation scan, up to the earlier of the
  grace end and the new key's expiry, both included (`ApiKeys.GraceWindow`), whether or not the old key had itself
  expired, since rotation does not look at the old expiry. On the indexed path `/token/exchange` uses, the old key id is
  refused at once and the old secret works only under the new key id (`ApiKeys.OldIdStopsAtRotation`).
- The breaker's half-open state lets `threshold` calls through after the cooldown, not one (`CircuitBreaker.HalfOpenTrial`).
- `revoke_grant` writes entries for the truncated remaining seconds, so the last fraction of a second is covered only
  when a whole number of seconds was left (`Revocation.TruncatedCovers`). Tokens that were minted rather than delegated have
  no such gap.
- A scope requested twice in a delegation is refused although it is held (`Lineage.ScopeSubsetExact`).
- `delegate` accepts `ttl_seconds` and always issues ten minutes.
- An empty `resource` is accepted by `/authorize` and dropped from the token, so such a token without a tool is not
  confined (`OAuth.ConfinedExactly`).
- A request that reads the clock in one window and is counted after its counter expired is counted afresh: one window can
  admit the limit again for every width of delay (`RateLimitBounds.BoundExactly`).
- Task scoping is demanded where tokens are minted. A delegation token carries no target, so a delegated token that may
  rotate credentials is not held to the call its parent was scoped to (`Confinement.TaskScopedExactlyAtRoot`).
- The taint guarantee is about calls checked after the untrusted result was recorded. A high-risk call can go out in a
  tainted trace exactly when every other gate let it through and its trace was clean at its own check
  (`Provenance.GoesOutTaintedExactly`).

## Model

| member | source | states |
|---|---|---|
| `Guarantees.ReachableChain` | backend/app/services/delegation_service.py:112-203 | In every reachable state every grant heads a sound chain: walked length, stored depth and token depth agree, at most MAX_DELEGATION_DEPTH (any value), depth + 1 pairwise distinct agents, no cycle |
| `Guarantees.ChainAttenuates` | backend/app/services/delegation_service.py:131-203 | Along a whole chain scopes stay inside those of every grant above, of the token each hop was made from down from the root token, and of each delegator's allowed_scopes as read at its hop; organisation and on_behalf_of are the root token's |
| `AuthorityInv.RunKeepsInv` | backend/app/services/delegation_service.py:112-203 | Every run of minting, delegating, revoking, suspending, decommissioning, agent changes and clock ticks keeps the shared invariant: forest, unique jtis, grants and tokens saying the same, attenuation per hop, index completeness, entries that outlast their tokens' last second |
| `AuthorityInv.LoadChainExact` | backend/app/services/delegation_service.py:244-321 | Rebuilding a presented token's chain yields the whole lineage, as long as the row and the token claim both say; the visited, missing-parent and revoked-ancestor exits are unreachable; only the grant's own revocation refuses |
| `AuthorityInv.DepthGuardUnreachable` | backend/app/core/jwt.py:147-151 | In a reachable state neither the depth guard inside token creation nor the revoked-ancestor refusal can ever be the outcome of a delegation |
| `AuthorityInv.RevokedTokenAcceptedOnlyAtTheEnd` | backend/app/services/delegation_service.py:269-283 | The own-grant-revoked refusal can come only in the last second of the token's life |
| `AuthorityInv.RevokedAtTheEndExactly` | backend/app/services/delegation_service.py:372-378 | And then it does: a token accepted when its own grant is revoked is still accepted afterwards if and only if it is in its last second, and delegating with it is refused because of its own grant |
| `AuthorityInv.ApprovedHop` | backend/app/core/delegation.py:89-132 | What every approved hop has: scopes exactly as requested and held by both token and agent, an active parent one level up that holds the presented jti, a delegatee new to the whole line |
| `Delegating.GrantedExactly` | backend/app/services/delegation_service.py:94-150 | A delegation is granted if and only if: the delegator is known in the token's organisation; the delegatee is known there and active; the presented token's own grant, if it has one, is active; the token is below the maximum depth; the delegatee is neither in the token's chain, found by following parent links, nor the delegator; every requested scope is in the token and in the delegator's allowed scopes, none repeated |
| `Delegating.RefusedExactly` | backend/app/core/delegation.py:102-132 | Each of the eight refusals that can occur is the first of those conditions that fails, and nothing else refuses |
| `Delegating.LineIsChain` | backend/app/services/delegation_service.py:285-321 | The agents of the rebuilt chain are exactly those met by following parent links up from the grant |
| `Delegating.GrantedRow` | backend/app/services/delegation_service.py:152-203 | The new grant, column by column: delegator, delegatee, organisation, scopes as requested, one level deeper, ten minutes, its parent the grant that made the presented token if one did; no other row changes |
| `Delegating.GrantedToken` | backend/app/core/jwt.py:154-173 | The new token, column by column: the delegatee, the delegator's organisation and human anchor, the requested scopes, one level deeper, ten minutes, no target; no other token and no blacklist entry changes |
| `Lineage.WalkIsLine` | backend/app/services/delegation_service.py:285-321 | In a sound table the upward walk takes none of its early exits and returns the whole lineage |
| `Lineage.LineFacts` | backend/app/services/delegation_service.py:285-321 | The walked list has the stored depth's length, and its position i is the ancestor depth - 1 - i links up |
| `Lineage.ChainAgentsDistinct` | backend/app/core/delegation.py:102-124 | A chain of depth d names exactly d + 1 agents, pairwise distinct |
| `Lineage.ScopeSubsetExact` | backend/app/core/permissions.py:212-228 | Requested scopes are approved exactly when each is held and none is repeated, and then they are the requested set |
| `Forest.RevokedHasNoActiveDescendant` | backend/app/services/delegation_service.py:323-400 | No revoked grant has an active descendant |
| `Forest.SearchStopsExactly` | backend/app/services/delegation_service.py:402-425 | On any table whatever, search by levels without a visited set runs dry if and only if its start is not its own ancestor |
| `AuthorityInv.RevokedSubtreeExactly` | backend/app/services/delegation_service.py:340-378 | Revoking stamps exactly the grant and its descendants, all of one organisation, and changes no other row |
| `Guarantees.RevocationCascades` | backend/app/services/delegation_service.py:323-400 | After revoke_grant, in every continuation, the whole subtree stays inactive and each of its tokens is rejected up to a second before its exp |
| `Effects.RevokedEntries` | backend/app/services/delegation_service.py:372-378 | The token of the revoked grant and of each below it gets an entry for its whole remaining seconds if it has one, and otherwise keeps what it had |
| `Effects.RevocationSparesOthers` | backend/app/services/delegation_service.py:372-378 | Every token that neither the revoked grant nor one below it made keeps its blacklist entry and its acceptance |
| `Effects.ForeignRevocation` | backend/app/services/delegation_service.py:340-355 | Revoking a missing grant or one of another organisation changes nothing |
| `DelegationService.DelegationService.FindDescendantIds` | backend/app/services/delegation_service.py:402-425 | The search terminates with no visited set and returns each proper descendant once, nearest first; the loop invariant says round k's frontier is exactly the grants k levels below |
| `DelegationService.SearchRound` | backend/app/services/delegation_service.py:412-425 | One round: an empty child set means the next level is empty, otherwise the children are the next level, are new, and the depth bound is not yet reached |
| `DelegationService.SearchComplete` | backend/app/services/delegation_service.py:412-425 | When a level is empty, what was found is all proper descendants |
| `DelegationService.DelegationService.WalkUp` | backend/app/services/delegation_service.py:285-311 | The upward loop, with its visited set and all three exits, computes the specification walk on any table |
| `DelegationService.DelegationService.LoadChain` | backend/app/services/delegation_service.py:244-321 | The loop form equals the specification's rebuilt chain, error cases included |
| `DelegationService.DelegationService.ValidateHop` | backend/app/core/delegation.py:89-132 | Depth, cycle, self-delegation and scope checks in the source's order |
| `DelegationService.DelegationService.Review` | backend/app/services/delegation_service.py:92-150 | All checks of a delegation in order, with the outcome that Delegating.GrantedExactly and RefusedExactly spell out in rows |
| `DelegationService.DelegationService.Delegate` | backend/app/services/delegation_service.py:54-242 | One delegation is one step of the shared world, granted and refused as Delegating.GrantedExactly says, with the row and token of GrantedRow and GrantedToken, the token's index entry and nothing else; a refusal changes nothing |
| `DelegationService.DelegationService.RevokeGrant` | backend/app/services/delegation_service.py:323-400 | One revocation is one step of the shared world: the subtree stamped, its tokens with a whole second left blacklisted and no other token touched, the descendant count returned |
| `DelegationService.DelegationService.BlacklistGrants` | backend/app/services/delegation_service.py:372-378 | Row by row, the token of each listed grant with a positive truncated remaining time gets an entry of that length, and no other token's entry changes |
| `Guarantees.SuspensionRejects` | backend/app/services/agent_service.py:409-451 | After a suspension every token issued to the agent earlier, by exchange, code or delegation, is rejected in every later state of every run: a minted token without exception, a delegated one up to exp - 1 s |
| `Guarantees.DecommissionRejects` | backend/app/services/agent_service.py:484-503 | The same after the cascades of a decommissioning, and for the tokens tracked under any key whose index is cascaded; here the keys are a given list, which ControlPlane.DecommissionEndsTokens ties to the agent's key rows |
| `Guarantees.KeyRevocationRejects` | backend/app/services/api_key_service.py:452-455 | After the cascade through a key's index every token exchanged from the key is rejected in every later state, likewise |
| `Guarantees.StaysRejected` | backend/app/core/revocation.py:100-139 | Once blacklisted a token is rejected for good, a minted one to its very end and a delegated one up to exp - 1 s: no later revoke, prune or re-revoke shortens the entry below that |
| `Effects.KeyRevocationEffect` | backend/app/core/revocation.py:141-155 | A key cascade gives each token of the key's index not past its exp an entry that reaches its exp, at least one second, deletes that index alone, and every other token keeps its entry and its acceptance |
| `Effects.SuspensionEffect` | backend/app/services/agent_service.py:409-451 | A suspension changes the one agent's status and deletes its own index alone; tokens outside that index keep entry and acceptance; an unknown, foreign or decommissioned agent is refused with nothing changed |
| `Effects.DecommissionEffect` | backend/app/services/agent_service.py:484-503 | A decommissioning likewise; tokens outside the agent's and the listed keys' indexes keep entry and acceptance |
| `Effects.AcceptedExactly` | backend/app/middleware/agent_auth.py:92-140 | A token is accepted exactly when issued, before its exp, not too deep, and without an unexpired entry |
| `Effects.MintedToken` | backend/app/core/jwt.py:81-121 | What minting issues, column by column: the asked scopes the enum knows, depth 0, exp 900 seconds on, the human anchor and target asked for; no other token and no entry changes |
| `Effects.MintedTokenLives` | backend/app/middleware/agent_auth.py:92-140 | In every run that revokes neither its agent nor its key, whatever else is minted, delegated, revoked or cascaded, a minted token is accepted if and only if its 900 seconds have not passed |
| `AuthorityInv.RevokeIndexKeeps` | backend/app/core/revocation.py:141-155 | A cascade keeps the invariant, unblacklists nothing and blacklists every live token tracked under the index |
| `AuthorityInv.TrackKeeps` | backend/app/core/revocation.py:122-139 | Tracking with pruning keeps every live token in each index it was tracked under, scored by its exp |
| `AuthorityInv.MintKeeps` | backend/app/api/token.py:132-150 | Minting and tracking under the agent, and the key for an exchange, keeps the invariant |
| `Revocation.CascadeCovers` | backend/app/core/revocation.py:141-155 | An entry a cascade writes covers every instant from the revocation up to exp |
| `Revocation.TruncatedCovers` | backend/app/services/delegation_service.py:372-378 | An entry of the truncated remaining time covers up to exp - 1 s, and up to exp itself if and only if a whole number of seconds was left |
| `Revocation.RemainingPositive` | backend/app/services/delegation_service.py:372-378 | No entry is written exactly in the last second and after |
| `Revocation.PruneDropsOnlyDead` | backend/app/core/revocation.py:122-139 | Pruning by whole seconds drops exactly the dead tokens and rescores none |
| `Revocation.RedisStore.IsRevoked` | backend/app/core/revocation.py:100-110 | Answers whether an unexpired entry exists; no answer when Redis cannot be reached |
| `Revocation.RedisStore.RevokeJti` | backend/app/core/revocation.py:112-120 | Sets the entry for at least one second, replacing an earlier one |
| `Revocation.RedisStore.TrackIssuedJti` | backend/app/core/revocation.py:122-139 | Adds, then prunes what has expired |
| `Revocation.RedisStore.RevokeAllInIndex` | backend/app/core/revocation.py:141-155 | Blacklists every member not yet expired, counts them, deletes the index |
| `DelegationService.DelegationService.Authenticate` | backend/app/middleware/agent_auth.py:92-183 | The acceptance checks in order equal the specified acceptance; an unreachable revocation index is a denial |
| `DelegationService.DelegationService.MintAccess` | backend/app/api/token.py:113-150 | Minting is one step of the shared world; refused exactly when a scope that must name a task comes without one |
| `DelegationService.DelegationService.Suspend` | backend/app/services/agent_service.py:409-451 | Suspension is one step of the shared world; refused exactly for an unknown or decommissioned agent |
| `DelegationService.DelegationService.Decommission` | backend/app/services/agent_service.py:484-503 | The cascades for a list of keys, the status and the agent's own cascade are one step of the token world |
| `DelegationService.DelegationService.RevokeKey` | backend/app/services/api_key_service.py:452-455 | The cascade of a key revocation is one step of the token world |
| `Json.DumpInjective` | backend/app/repositories/audit_repo.py:90-98 | The sorted-key JSON text determines the value: nested objects, arrays, escaped strings, integers |
| `Json.DumpIsText` | backend/app/repositories/audit_repo.py:90-98 | The printer the injectivity proof works on writes exactly the plain recursive text of the value |
| `AuditChain.PreimageInjective` | backend/app/core/security.py:126-138 | With prefixes of one length, the hashed text determines the previous hash and every hashed column |
| `AuditChain.PreimageText` | backend/app/repositories/audit_repo.py:88-101 | The hashed text is the previous hash, a colon and the JSON text of an object with exactly the seven named members |
| `AuditChain.TamperEvidence` | backend/app/repositories/audit_repo.py:190-211 | Two row lists that pass and end in one hash agree on all hashed columns, or two different texts with one hash, or a text hashing to genesis, have been computed from them |
| `AuditChain.VerdictUnique` | backend/app/repositories/audit_repo.py:181-211 | The rows alone fix the verdict, so batch size cannot matter |
| `AuditEdits.SpliceVerdict` | backend/app/repositories/audit_repo.py:190-211 | The exact answer after any stretch of a passing chain has been replaced by any rows at all |
| `AuditEdits.RemovalVerdict` | backend/app/repositories/audit_repo.py:190-211 | Removing rows goes unnoticed if and only if nothing follows them or the next row's stored hash fits the row before the gap; otherwise that next row is reported at its new position |
| `AuditEdits.UnnoticedRemoval` | backend/app/repositories/audit_repo.py:190-211 | Any removal of other than the newest rows that passes hands over a collision or a text hashing to genesis |
| `AuditEdits.EditVerdict` | backend/app/repositories/audit_repo.py:190-211 | Any replacement of a row in place: reported at the row unless its own stored hash fits, then at the next row unless that fits too, otherwise unnoticed |
| `AuditEdits.UnnoticedEdit` | backend/app/repositories/audit_repo.py:190-211 | An edit of a hashed column that passes, of any row but the newest or with its stored hash kept, hands over a collision or a text hashing to genesis |
| `AuditEdits.AnyEditVerdict` | backend/app/repositories/audit_repo.py:181-211 | Any replacement of one row of a table built by appends, sequence number included: where the ordered selection puts the row, and the exact answer |
| `AuditChain.Replay` | backend/app/repositories/audit_repo.py:181-211 | The batched loop answers (True, None, count), or the sequence number and 1-based position of the first row whose recomputed hash differs |
| `AuditChain.AuditLog.VerifyChain` | backend/app/repositories/audit_repo.py:159-211 | The same for an organisation's rows in sequence order |
| `AuditChain.AuditLog.Append` | backend/app/repositories/audit_repo.py:84-125 | One append adds one row that carries the request column by column, numbered and linked after the tip, and keeps every organisation's chain sealed |
| `AuditChain.SealCarries` | backend/app/repositories/audit_repo.py:90-121 | The row an append builds carries the request column by column, links to the tip that was read, and hashes just those columns over it |
| `AuditChain.AppendKeepsSealed` | backend/app/repositories/audit_repo.py:84-125 | Appending over the tip keeps numbering and hash links for every organisation |
| `AuditChain.SealedVerdict` | backend/app/repositories/audit_repo.py:159-211 | A table built by appends alone verifies with its true count |
| `AuditChain.OrderBySeqSorts` | backend/app/repositories/audit_repo.py:182-187 | The ordered selection is a sorted rearrangement of the stored rows |
| `AuditAppend.InterleavedChain` | backend/app/repositories/audit_repo.py:84-157 | After any interleaving of any number of appenders, with aborts and with lock keys that collide across organisations, each organisation's rows carry 1..n, each is hashed over its predecessor, replay answers (True, None, n) |
| `AuditAppend.RowsWereAsked` | backend/app/repositories/audit_repo.py:84-125 | After any interleaving every committed row carries, column by column, a request some appender began with |
| `AuditAppend.IndexNeverFires` | backend/app/repositories/audit_repo.py:145-157 | No insert can violate the unique (organisation, sequence) index |
| `AuditAppend.HashIndexFiresOnCollision` | backend/app/repositories/audit_repo.py:101-123 | When the unique index on entry_hash rejects a row, a stored row is produced whose hashed text differs from the rejected row's and has the same hash |
| `AuditAppend.RunKeepsInv` | backend/app/repositories/audit_repo.py:127-157 | Every interleaving keeps mutual exclusion per lock key and every appender's view of its tip current |
| `Provenance.TaintedTraceNeverSends` | backend/app/services/mcp_proxy_service.py:357-372 | Over all runs with check, send and record interleaved: once an untrusted success is recorded, a call of that organisation and trace checked later whose tool is high-risk is never forwarded, at any time |
| `Provenance.TaintStep` | backend/app/services/mcp_proxy_service.py:441-459 | A trace becomes tainted by exactly one thing, recording the success of a sent call of an untrusted binding; nothing untaints it |
| `Provenance.TaintStays` | backend/app/services/mcp_proxy_service.py:549-562 | Taint never clears in any run |
| `Provenance.UnderwayWasJudged` | backend/app/services/mcp_proxy_service.py:188-430 | Whatever is in progress or was forwarded passed all five gates at its own check |
| `Provenance.GoesOutTaintedExactly` | backend/app/services/mcp_proxy_service.py:357-430 | The exact reach of taint: a call checked at some point of any run can still go out in a tainted trace if and only if the gates let it through there; for a high-risk tool, if and only if every other gate does and its trace was clean at the check |
| `Provenance.ConcurrentCheckGap` | backend/app/services/mcp_proxy_service.py:357-372 | An instance: two steps after which a high-risk call can still be sent in a tainted trace |
| `Proxy.ForwardedMeans` | backend/app/services/mcp_proxy_service.py:229-430 | A call is forwarded under a binding if and only if that binding, resource, task scope, policy and tool filter all allow it; ForwardedExactly says the same without the gates' functions |
| `Proxy.ResolveExactly` | backend/app/services/mcp_proxy_service.py:509-547 | The answer is a binding exactly if that is the first entry for this very server and its url is usable |
| `Proxy.ForwardedExactly` | backend/app/services/mcp_proxy_service.py:229-430 | A call is forwarded under a binding if and only if that is the agent's first for the called server with a usable url, the policy engine answers, resource and task scope name this call, agent, organisation, scope, depth and tool pass the policy, the binding does not make the tool high-risk in a tainted trace, and its filter admits the tool; no gate's own function is mentioned |
| `Proxy.BlockedBecause` | backend/app/services/mcp_proxy_service.py:229-427 | Each denial label is the first of these conditions that fails |
| `Proxy.CheckRecords` | backend/app/services/mcp_proxy_service.py:615-684 | A blocked check adds one row with its label, one to that label's counter and one blocked audit entry, and starts nothing; a passed one only starts the call |
| `Proxy.RecordRecords` | backend/app/services/mcp_proxy_service.py:437-489 | A result adds one row, untrusted exactly if it succeeded under an untrusted binding, and the audit entry that says how it went |
| `Proxy.DenialsAddUp` | backend/app/services/mcp_proxy_service.py:615-684 | Over every run each denial counter equals the blocked rows with its label, and their sum equals both the blocked rows and the blocked audit entries |
| `ProxyService.McpProxy.ExecuteTool` | backend/app/services/mcp_proxy_service.py:188-507 | What is forwarded goes out under the agent's first binding for the called server. One uninterrupted call leaves exactly what the interleaved steps leave and keeps the denial counters in step with the rows and the audit; a call the breaker stops is recorded as an error and not sent; the breaker is untouched by a blocked call and otherwise asked, and told how the call went |
| `ProxyService.McpProxy.TraceIsTainted` | backend/app/services/mcp_proxy_service.py:549-562 | True exactly when the trace has an untrusted success |
| `ProxyService.McpProxy.ResolveBinding` | backend/app/services/mcp_proxy_service.py:509-547 | The agent's first binding for this very server, if it has a usable url |
| `ProxyService.McpProxy.Gate` | backend/app/services/mcp_proxy_service.py:229-427 | The five gates in order name the first denial |
| `Policy.ReasonsAgree` | backend/policies/authz.rego:57-101 | allow never coexists with a reason; reasons are empty without allow exactly when only the depth is missing |
| `Policy.AllowedExactly` | backend/policies/authz.rego:57-76 | When the policy allows, value by value, with missing values |
| `Policy.ReasonsExactly` | backend/policies/authz.rego:78-101 | When each reason is given, value by value |
| `Policy.LabelMeaning` | backend/app/services/mcp_proxy_service.py:85-121 | An answered denial is labelled provenance_denied exactly when the same request in an untainted trace would be allowed; an outage is labelled so always and only |
| `CircuitBreaker.FailingServerIsSpared` | backend/app/services/mcp_proxy_service.py:575-613 | For a server that always fails under sequential use, any span of length W sees at most T * (W / C + 1) network calls |
| `CircuitBreaker.OperationsKeepConsistent` | backend/app/services/mcp_proxy_service.py:157-180 | A server is held open exactly when its failure streak has reached the threshold, whatever the interleaving |
| `CircuitBreaker.CallsAreSpaced` | backend/app/services/mcp_proxy_service.py:161-180 | Any call is at least a cooldown after the one T places earlier |
| `CircuitBreaker.HalfOpenTrial` | backend/app/services/mcp_proxy_service.py:161-180 | After the cooldown exactly T failing calls pass before the breaker opens again |
| `CircuitBreaker.FullThresholdAfterSuccess` | backend/app/services/mcp_proxy_service.py:161-180 | After a success a full threshold of failing calls goes through before the server is held open, whatever its streak was |
| `CircuitBreaker.SuccessForgets` | backend/app/services/mcp_proxy_service.py:172-174 | A success closes the server and forgets its streak, and no other server's |
| `CircuitBreaker.FailureAndAskingExactly` | backend/app/services/mcp_proxy_service.py:161-180 | A failure adds one to the streak and opens from now exactly at the threshold; asking closes exactly after the cooldown; other servers are untouched |
| `CircuitBreaker.CircuitBreaker.IsOpen` | backend/app/services/mcp_proxy_service.py:161-170 | Asking closes the breaker again once the cooldown has passed |
| `CircuitBreaker.CircuitBreaker.RecordSuccess` | backend/app/services/mcp_proxy_service.py:172-174 | Clears the streak and closes |
| `CircuitBreaker.CircuitBreaker.RecordFailure` | backend/app/services/mcp_proxy_service.py:176-180 | Extends the streak, and opens at the threshold |
| `RateLimitBounds.SpanBound` | backend/app/core/rate_limit.py:37-59 | In every run, with EXPIRE and INCR as late as they like: among requests counted less than m windows after the start of the window they read, any span of length L admits at most limit * m * (L / W rounded up, plus m) of a client; for requests counted inside their own window, limit * (L / W rounded up, plus one) |
| `RateLimitBounds.BoundExactly` | backend/app/core/rate_limit.py:37-48 | The bound on one window is exact: over all runs, INCRs that run before a cutoff admit at most m times the limit if and only if the cutoff is at most m windows after the start of the key's own, or the limit is zero; m = 1 says when one window admits no more than the limit |
| `RateLimitBounds.WindowBound` | backend/app/core/rate_limit.py:37-59 | In every run INCRs that run before the m-th window after the one they count towards admit at most m times the limit |
| `RateLimit.AdmitsExactly` | backend/app/core/rate_limit.py:40-59 | A request counted inside its window is admitted exactly when fewer than limit were counted in that window before it |
| `RateLimit.CounterOutlivesWindow` | backend/app/core/rate_limit.py:42-48 | A counter is never expired while its window is current and has counted all of it, even with EXPIRE sent late |
| `RateLimit.ServedExactly` | backend/app/core/rate_limit.py:37-59 | One request on its own, field by field: the counter of its bucket, address and current window goes up by one, starting afresh if it has expired; only the first sets the expiry; admitted exactly if the limit had not been reached; no other counter changes |
| `RateLimit.RateLimiter.Enforce` | backend/app/core/rate_limit.py:30-59 | One request performs the three steps; keeping the run invariant; with Redis down it changes nothing and refuses nothing |
| `ApiKeys.OneActivePerLineage` | backend/app/services/api_key_service.py:349-431 | In a reachable state two active keys with a common ancestor are the same key |
| `ApiKeys.OneMatch` | backend/app/services/api_key_service.py:282-347 | Any secret matches at most one active key |
| `ApiKeys.RunKeepsInv` | backend/app/repositories/api_key_repo.py:79-112 | Every run keeps: distinct secrets, at most one successor per key, a successor holding its retired predecessor's secret, agent, organisation and scopes |
| `ApiKeys.ScanIsExact` | backend/app/services/api_key_service.py:240-280 | The scan accepts as a key exactly when that key is active, of the organisation and matches |
| `ApiKeys.OrderIsIrrelevant` | backend/app/services/api_key_service.py:251-266 | The answer does not depend on the order in which rows arrive |
| `ApiKeys.PathsAgree` | backend/app/services/api_key_service.py:220-238 | id:secret is accepted exactly when the scan would accept the bare secret as that same key |
| `ApiKeys.GraceWindow` | backend/app/services/api_key_service.py:369-402 | Absent further rotation or revocation, the scan accepts the new secret exactly up to its expiry and the previous one exactly up to the earlier of that and the grace end, both instants included |
| `ApiKeys.IssuedExactly` | backend/app/services/api_key_service.py:73-137 | A key is issued exactly for an active agent of the organisation and scopes it is allowed; the row, column by column, expires the requested days later (thirty if none or zero), and no other row changes |
| `ApiKeys.RotatedExactly` | backend/app/services/api_key_service.py:349-431 | A rotation happens exactly for an active key of the organisation; the new row, column by column, takes over agent, organisation and scopes and keeps the old secret for the grace period; the old row is retired and no other changes |
| `ApiKeys.RetiredExactly` | backend/app/repositories/api_key_repo.py:27-60 | Revoking retires exactly the one row of the organisation, decommissioning exactly the agent's rows |
| `ApiKeys.MatchedExactly` | backend/app/services/api_key_service.py:300-324 | When a row accepts a secret, and through its own or its grace slot |
| `ApiKeys.PresentedById` | backend/app/services/api_key_service.py:220-238 | What presenting id:secret records: one use of that row, one denial, or nothing for a missing, inactive or expired row |
| `ApiKeys.PresentedBare` | backend/app/services/api_key_service.py:240-280 | What presenting a bare secret of an active key of the organisation records: one use of that key, whatever the row order |
| `ApiKeys.BareMissed` | backend/app/services/api_key_service.py:240-280 | And if no active key of the organisation matches, one denial against the organisation |
| `ApiKeys.TwoRotationsBack` | backend/app/services/api_key_service.py:349-402 | A secret two rotations back is never accepted again, in any continuation |
| `ApiKeys.RevokedForGood` | backend/app/services/api_key_service.py:433-471 | Revocation ends the key's own secret and the one in its grace slot, in every continuation |
| `ApiKeys.RetiredForGood` | backend/app/services/api_key_service.py:300-324 | A key whose successor is gone too is never accepted again |
| `ApiKeys.OldIdStopsAtRotation` | backend/app/services/api_key_service.py:220-238 | On the indexed path old id and secret stop at the rotation; the previous secret works only under the new id |
| `ApiKeys.SplitExactly` | backend/app/services/api_key_service.py:207-218 | A compound credential is read back as its parts exactly when id and secret are well formed, and a split one is its parts joined |
| `ApiKeys.UsesAreAudited` | backend/app/repositories/api_key_repo.py:62-77 | In every run each key's use count equals its uses in the audit log |
| `ApiKeyService.ApiKeyService.VerifyByFullScan` | backend/app/services/api_key_service.py:240-280 | The loop, in whatever order, gives the answer every order gives, and records the use or one denial |
| `ApiKeyService.ApiKeyService.VerifyKey` | backend/app/services/api_key_service.py:139-205 | Both paths, the identity returned, and what is recorded |
| `ApiKeyService.ApiKeyService.MatchAndRecord` | backend/app/services/api_key_service.py:282-347 | Own secret, then unexpired grace secret; an expired row refuses silently; a hit counts and audits once |
| `ApiKeyService.ApiKeyService.RotateKey` | backend/app/services/api_key_service.py:349-431 | One rotation is one step; refused exactly for a missing, foreign or inactive key |
| `ApiKeyService.ApiKeyService.StoreRotation` | backend/app/repositories/api_key_repo.py:79-112 | Adds the new row with the grace slot and retires the old row |
| `ApiKeyService.ApiKeyService.IssueKey` | backend/app/services/api_key_service.py:46-137 | One issue is one step; allowed exactly for an active agent of the organisation and allowed scopes |
| `ApiKeyService.ApiKeyService.RevokeKey` | backend/app/services/api_key_service.py:446-450 | Retiring the row is one step of the key world; refused exactly for a missing or foreign key |
| `ApiKeyService.ApiKeyService.DecommissionAgent` | backend/app/repositories/api_key_repo.py:27-60 | Retiring the agent's active keys one by one is one step of the key world, with one entry per key |
| `OAuth.OneTokenPerCode` | backend/app/services/oauth_service.py:252-265 | In every interleaving no code yields two tokens |
| `OAuth.TokenWasAuthorized` | backend/app/services/oauth_service.py:260-302 | Every token goes back to one /authorize call whose code was taken less than two minutes later and presented with the very client and redirect URI recorded there, a verifier whose transformation is the recorded challenge, and the recorded resource if there was one, and which the rows then backed |
| `OAuth.RedeemedExactly` | backend/app/services/oauth_service.py:260-302 | A request mints a token if and only if it is for the code grant, its code is stored and less than two minutes old, client, redirect URI, transformed verifier and any recorded resource agree with what was stored, and the agent row is there in the code's organisation; the token is for what the code recorded, and a code presented for this grant is gone in any case |
| `OAuth.AuthorizedExactly` | backend/app/services/oauth_service.py:135-213 | A code is given if and only if client, redirect URI, response type, challenge, agent, scopes and target are in order, spelled out in rows, and it stands for just what was requested |
| `OAuth.RefusedBecause` | backend/app/services/oauth_service.py:135-196 | Which error is given, and whether it is shown or redirected: the first condition that fails |
| `OAuth.FirstBindingExactly` | backend/app/services/oauth_service.py:171-190 | The binding the target is checked against is the agent's first entry for that server, and none exactly if it has no entry for it |
| `OAuth.ClaimsExactly` | backend/app/services/oauth_service.py:304-334 | The claims of a code's token: known scopes, depth 0, the recorded resource unless empty, and the one call if a tool was recorded |
| `OAuth.DecisionsAreBacked` | backend/app/services/oauth_service.py:135-196 | A code is given only for a registered redirect, an active agent, allowed scopes, a bound resource and tool; an error is withheld from the redirect URI exactly when client and URI are not registered together |
| `OAuth.ConfinedExactly` | backend/app/core/jwt.py:104-108 | A token authorized for a resource is confined to it and its tool, except exactly for the empty resource name without a tool |
| `OAuth.ForwardedWhereAuthorized` | backend/app/services/mcp_proxy_service.py:270-349 | End to end: in every proxy run, what is forwarded under a code's token goes to the server and tool /authorize recorded, for every code but the exception above |
| `OAuth.RotationIsTaskScoped` | backend/app/services/oauth_service.py:191-196 | A code's token that may rotate credentials works for one tool of one server |
| `OAuth.KnownIs` | backend/app/services/oauth_service.py:304-309 | The kept scopes are exactly the requested ones the enum knows |
| `OAuth.OAuthServer.BuildAuthorizationRedirect` | backend/app/services/oauth_service.py:120-213 | The checks in order decide as specified, and only success stores a code |
| `OAuth.OAuthServer.ExchangeAuthorizationCode` | backend/app/services/oauth_service.py:242-355 | Taking and checking in one go: a token exactly under the conditions of OAuth.RedeemedExactly, spelled out; the code is gone afterwards whatever the outcome |
| `TokenExchange.ExchangeToken` | backend/app/api/token.py:72-143 | The exchange's scoping decision, with scopes kept one by one |
| `TokenExchange.ScopedExactly` | backend/app/api/token.py:91-130 | An intent is refused exactly when no usable first binding for its server admits its tool; a task is demanded exactly for credential:rotate without an intent; a minted token has the known scopes, no resource and the intent as its one call |
| `TokenExchange.IntentIsReachable` | backend/app/api/token.py:91-112 | An intent is accepted only for a call that only the policy can still stop |
| `TokenExchange.IntentConfines` | backend/app/api/token.py:113-143 | In every proxy run a token minted for an intent, and so every exchanged token that may rotate credentials, is forwarded for that one call only |
| `ControlPlane.RevokedKeyEndsTokens` | backend/app/services/api_key_service.py:433-471 | After revoke_key, in every later state of every joint run, no token ever exchanged from the key, before the revocation or after, is accepted |
| `ControlPlane.DecommissionEndsTokens` | backend/app/services/agent_service.py:453-505 | After decommission, with the key list read from the agent's active rows, every token issued to the agent earlier is rejected in every later state of every joint run: a minted one without exception, a delegated one up to exp - 1 s |
| `ControlPlane.DecommissionEndsKeys` | backend/app/services/agent_service.py:481-503 | And no token ever exchanged, before or after, from any key the agent had, active or not, is accepted |
| `ControlPlane.RunKeepsJoined` | backend/app/api/token.py:50-150 | In every joint run the three worlds share clock and agents, every key belongs to an agent of its organisation, every exchanged token has its key's agent, organisation and known scopes, and every code that must name a tool does |
| `ControlPlane.KeyBoundsChain` | backend/app/services/delegation_service.py:131-203 | However long the delegation chain below an exchanged token, its last grant stays within the scopes and organisation of the key |
| `ControlPlane.Projects` | backend/app/services/api_key_service.py:433-471 | Every joint run is a run of the token world and a run of the key world |
| `ControlPlane.ProjectsCodes` | backend/app/services/oauth_service.py:242-355 | And a run of the code world |
| `ControlPlaneService.ControlPlaneService.RevokeApiKey` | backend/app/services/api_key_service.py:433-471 | The row, then the tokens: one joint step; refused exactly for a missing or foreign key |
| `ControlPlaneService.ControlPlaneService.ExchangeToken` | backend/app/api/token.py:50-150 | Verifying, scoping against the agent's own bindings and minting are one joint step; a token is minted exactly when the key is accepted and the scoping allows it, and carries the decided claims |
| `ControlPlaneService.ControlPlaneService.RedeemCode` | backend/app/services/oauth_service.py:242-355 | Taking a code and redeeming it are two joint steps; a token is minted exactly when the code was there and its checks pass |
| `Origins.MintedTokenHasOneOrigin` | backend/app/core/jwt.py:81-121 | Every token of depth 0 in every joint run was minted at exactly one step, from one key accepted there or one code taken before, and is what that key or code asked for |
| `Origins.OneTokenPerCode` | backend/app/services/oauth_service.py:252-265 | In every joint run a code stands behind at most one token |
| `Origins.AskedExactly` | backend/app/api/token.py:113-150 | What a minted token is asked to be: the accepted key row's agent and scopes with the intent as its task, or the taken code's agent and scopes with the recorded resource and tool |
| `Origins.CodeTokenWasAuthorized` | backend/app/services/oauth_service.py:260-302 | And that code goes back to one /authorize call, taken in time, presented with the recorded client, redirect URI, challenge and resource, and backed by the rows as they then were |
| `ControlPlaneService.ControlPlaneService.Suspend` | backend/app/services/agent_service.py:409-451 | One joint step; refused exactly for an unknown, foreign or decommissioned agent |
| `ControlPlaneService.ControlPlaneService.Decommission` | backend/app/services/agent_service.py:453-505 | Reading the active keys and ending them, their tokens and the agent is one joint step |
| `Confinement.TaskScopedExactlyAtRoot` | backend/app/core/jwt.py:154-173 | In every run a token that may rotate credentials is task-scoped if and only if its depth is 0 |
| `Confinement.RotationConfinedExactlyAtRoot` | backend/app/services/mcp_proxy_service.py:300-349 | In every run such a token is forwarded for one call only if and only if its depth is 0 or the policy allows it no call at all |
| `Confinement.DelegatedTokenIsFree` | backend/app/core/jwt.py:154-173 | A concrete run in which a task-scoped root token is delegated to a token with the same scopes and no target |
| `Confinement.CodeTokenCarriesClaims` | backend/app/services/oauth_service.py:307-334 | The token minted for a code carries exactly the claims the code stands for, and minting it is never refused |
| `Confinement.ExchangeTokenCarriesClaims` | backend/app/api/token.py:113-143 | The token minted for an exchange carries exactly the decided claims, and minting is refused exactly when the exchange asks for a task |

## Left out

- The window between reading an index and deleting it in a cascade, in which a concurrent mint's entry could be lost: a
  service call on the shared world is one step.
- Two rotations of one key racing between reading and writing its row: a call on keys is one step.
- The partial effects of a call that fails midway, for instance on losing Redis.
- The audit entries written by delegation, agent and OAuth calls; the audit chain is modelled on its own, and key and
  proxy audit entries as multisets or actions.
- Reactivation paths as such: an agent row may change in any way between steps, which covers activation and just-in-time
  activation without describing them.
- Choosing the human anchor (`resolve_on_behalf_of`) and its grants; the value is a parameter of minting.
- JSON floats, non-string keys and lone surrogates in hashed details.
- The text of redirects (state, issuer, error descriptions), client registration and its redirect rules, and splitting
  the scope parameter at whitespace.
- Session hashes, argument metadata and durations; what a tool server answers beyond success or error.
- bcrypt's 72-byte input limit; generated secrets are shorter.
- Background workers, operator login, roles, SPIFFE names, metrics, log redaction, health and the user interface.
- CircuitBreaker.FailingServerIsSpared: stated for sequential use of a server that always fails; concurrent calls in
  flight when the breaker opens are not bounded by the code.
