# Client consent store and consent audit log

A Dafny model of the client consent service of an OAuth2 authorization
server. For every (account, client) pair the service keeps:

- a consent row with a client-specific pseudonymous subject (the account
  sub) and the set of scopes the account has authorized;
- a bounded log of consent events.

A row whose scope set is empty counts as revoked or never granted. Such a row
is invisible to every lookup, but it is never deleted, so the pair keeps its
sub. The service is also the consent provider of the authorization flow:

- it saves a grant decision by uniting the new scopes into the row and
  writing one audit entry;
- it revokes a row by clearing its scopes;
- it answers "is there a stored consent for this client and principal?",
  with the override rules of an authorization-code request.

Files:

- `base.dfy` (module `Base`): identifiers (128-bit UUIDs), scopes, timestamps
  and the `Option` / `Outcome` wrappers.
- `consent_table.dfy` (module `ConsentTable`): the consent table as a
  `map<Pair, ClientConsentEntity>`. It holds the visibility filter, the three
  row rewrites (pre-provision, soft revoke, grant) as functions, and lemmas
  about them and about any sequence of them.
- `consent_log.dfy` (module `ConsentLog`): one pair's audit log as a
  sequence, oldest entry first. It holds the trim to the latest entries, the
  trim-then-append step of closing a logging context, and lemmas about any
  number of closes.
- `consent_service.dfy` (modules `ConsentService`, `ConsentScenario`):
  - the class `ClientConsentService`, whose fields are the two tables and
    whose methods update them in place;
  - the class `LoggingContext`, with its `isValid` flag and message list;
  - client methods that take a pair through pre-provision, grant, widen,
    revoke and re-grant, relying only on the contracts above.

The class invariant `ClientConsentService.Valid()` says two things. Every row
is stored under its own key. No two rows share a sub. Every operation keeps
it, given that each generated UUID is new.

## Model

| member | source | states |
|---|---|---|
| `ConsentTable.IsAuthorized` | src/main/java/com/gw2auth/oauth2/server/service/client/consent/ClientConsentServiceImpl.java:165-167 | a row is visible exactly when it grants at least one scope: a visible row holds some scope, an invisible one holds none |
| `ConsentTable.CreateAuthorizedClientEntity` | src/main/java/com/gw2auth/oauth2/server/service/client/consent/ClientConsentServiceImpl.java:161-163 | a new row belongs to the given pair, carries the given fresh sub and grants nothing, so it is invisible |
| `ConsentTable.WithAdditionalScopes` | src/main/java/com/gw2auth/oauth2/server/service/client/consent/ClientConsentServiceImpl.java:111-113 | adding scopes keeps the row's key and sub; the new scope set contains the old scopes and the added ones and nothing else |
| `ConsentTable.ClientConsent` | src/main/java/com/gw2auth/oauth2/server/service/client/consent/ClientConsentServiceImpl.java:65-70 | the single-row lookup returns a row exactly when the pair has one with a non-empty scope set, and then returns it unchanged |
| `ConsentTable.ClientConsents` | src/main/java/com/gw2auth/oauth2/server/service/client/consent/ClientConsentServiceImpl.java:57-63 | every returned row belongs to the account, has non-empty scopes and is the stored row; every stored row of the account with non-empty scopes is returned |
| `ConsentTable.EnsureExists` | src/main/java/com/gw2auth/oauth2/server/service/client/consent/ClientConsentServiceImpl.java:74-79 | existing rows, active or revoked, are left unchanged; only the pair's key can be added, and an added row has empty scopes and the fresh sub |
| `ConsentTable.Revoke` | src/main/java/com/gw2auth/oauth2/server/service/client/consent/ClientConsentServiceImpl.java:83-92 | soft revoke: the key set is unchanged and other rows are untouched; an existing row keeps its key and sub and loses all scopes; the single-row lookup then returns none |
| `ConsentTable.Grant` | src/main/java/com/gw2auth/oauth2/server/service/client/consent/ClientConsentServiceImpl.java:111-115 | the pair's stored scopes become the old scopes (none if there was no row) united with the decision's scopes; an existing row keeps its sub, a missing one gets the fresh sub; other rows are untouched |
| `ConsentTable.EnsureExistsValid` | src/main/java/com/gw2auth/oauth2/server/service/client/consent/ClientConsentServiceImpl.java:74-79 | pre-provisioning with a fresh UUID keeps every row under its own key and every sub unique |
| `ConsentTable.RevokeValid` | src/main/java/com/gw2auth/oauth2/server/service/client/consent/ClientConsentServiceImpl.java:87-92 | a soft revoke keeps every row under its own key and every sub unique |
| `ConsentTable.GrantValid` | src/main/java/com/gw2auth/oauth2/server/service/client/consent/ClientConsentServiceImpl.java:110-115 | a grant with a fresh UUID keeps every row under its own key and every sub unique |
| `ConsentTable.GrantNeverShrinks` | src/main/java/com/gw2auth/oauth2/server/service/client/consent/ClientConsentServiceImpl.java:111-113 | after a grant the stored scopes contain both the previous scopes and the decision's scopes |
| `ConsentTable.GrantTwiceUnites` | src/main/java/com/gw2auth/oauth2/server/service/client/consent/ClientConsentServiceImpl.java:110-117 | two grants in a row store the previous scopes united with both decisions, under the sub the first grant found or created |
| `ConsentTable.GrantAfterRevokeKeepsSub` | src/main/java/com/gw2auth/oauth2/server/service/client/consent/ClientConsentServiceImpl.java:87-115 | a grant after a revoke stores exactly the new decision's scopes under the sub the row had before the revoke |
| `ConsentTable.EnsureExistsIdempotent` | src/main/java/com/gw2auth/oauth2/server/service/client/consent/ClientConsentServiceImpl.java:74-79 | pre-provisioning twice leaves the same table as pre-provisioning once, whatever UUID the second call is given |
| `ConsentTable.RunKeepsRowsAndSubs` | src/main/java/com/gw2auth/oauth2/server/service/client/consent/ClientConsentServiceImpl.java:74-115 | after any sequence of pre-provisions, revokes and grants, every row that existed still exists with the same sub |
| `ConsentTable.RunPreservesValid` | src/main/java/com/gw2auth/oauth2/server/service/client/consent/ClientConsentServiceImpl.java:74-115 | after any such sequence in which each new row gets a UUID not yet used as a sub, rows stay under their own keys and subs stay unique across pairs |
| `ConsentTable.RunScopesGrowWithoutRevoke` | src/main/java/com/gw2auth/oauth2/server/service/client/consent/ClientConsentServiceImpl.java:83-115 | if no call in a sequence revokes a pair, that pair's stored scopes only grow; only a revoke removes scopes |
| `ConsentLog.ExceptLatestN` | src/main/java/com/gw2auth/oauth2/server/service/client/consent/ClientConsentServiceImpl.java:205 | the trim keeps the latest min(length, n) entries, in their order |
| `ConsentLog.TrimThenAppend` | src/main/java/com/gw2auth/oauth2/server/service/client/consent/ClientConsentServiceImpl.java:198-211 | one effective close leaves the new entry last and keeps the latest earlier entries in order; a failed trim keeps them all and still appends; after a successful trim the log has at most MAX_LOG_COUNT (50) entries |
| `ConsentLog.ReplayIsSuffix` | src/main/java/com/gw2auth/oauth2/server/service/client/consent/ClientConsentServiceImpl.java:197-213 | after any number of closes, whatever their trims did, the log is a suffix of everything written: nothing is reordered or invented |
| `ConsentLog.ReplayKeepsEnough` | src/main/java/com/gw2auth/oauth2/server/service/client/consent/ClientConsentServiceImpl.java:197-213 | after any number of closes the log holds at least min(entries written, 50) entries, so none of the 50 most recent entries is lost |
| `ConsentLog.ReplayAllTrimmed` | src/main/java/com/gw2auth/oauth2/server/service/client/consent/ClientConsentServiceImpl.java:197-213 | when every trim succeeds, the log after one or more closes is exactly the 50 most recent entries ever written for the pair |
| `ConsentService.ClientConsentService.CreateEmptyClientConsentIfNotExists` | src/main/java/com/gw2auth/oauth2/server/service/client/consent/ClientConsentServiceImpl.java:72-79 | the new table is `EnsureExists` of the old one, and the class invariant holds afterwards |
| `ConsentService.ClientConsentService.DeleteClientConsent` | src/main/java/com/gw2auth/oauth2/server/service/client/consent/ClientConsentServiceImpl.java:81-85 | the new table is `Revoke` of the old one, so the single-row lookup returns none; the invariant holds afterwards |
| `ConsentService.ClientConsentService.DeleteInternal` | src/main/java/com/gw2auth/oauth2/server/service/client/consent/ClientConsentServiceImpl.java:87-92 | deleting the stored row and saving it back with the same key and sub and no scopes yields `Revoke` of the old table |
| `ConsentService.ClientConsentService.Log` | src/main/java/com/gw2auth/oauth2/server/service/client/consent/ClientConsentServiceImpl.java:94-97 | opens a fresh, open context with no messages for the pair, with the given log type and time |
| `ConsentService.ClientConsentService.Save` | src/main/java/com/gw2auth/oauth2/server/service/client/consent/ClientConsentServiceImpl.java:100-118 | if the decision lacks a requested scope, it fails with access_denied and changes neither table; otherwise the consent table becomes `Grant` of the old one, and the pair's log gets one CONSENT entry whose single message describes the resulting scopes, after the trim |
| `ConsentService.ClientConsentService.Remove` | src/main/java/com/gw2auth/oauth2/server/service/client/consent/ClientConsentServiceImpl.java:120-126 | soft-revokes the (principal, client) row of the consent |
| `ConsentService.ClientConsentService.FindById` | src/main/java/com/gw2auth/oauth2/server/service/client/consent/ClientConsentServiceImpl.java:128-158 | in a code request outside the consent page: prompt=consent gives none and stashes nothing; otherwise it stashes the prior-authorization oracle's answer, and none from the oracle gives none; outside those exits it returns the stored scopes exactly when the row is visible |
| `ConsentService.LoggingContext.constructor` | src/main/java/com/gw2auth/oauth2/server/service/client/consent/ClientConsentServiceImpl.java:178-185 | a new context is open, has no messages and records its pair, log type and time |
| `ConsentService.LoggingContext.Log` | src/main/java/com/gw2auth/oauth2/server/service/client/consent/ClientConsentServiceImpl.java:187-194 | a message is appended while the context is open and ignored once it is closed |
| `ConsentService.LoggingContext.Close` | src/main/java/com/gw2auth/oauth2/server/service/client/consent/ClientConsentServiceImpl.java:196-213 | the first close applies `TrimThenAppend` to the pair's log, with an entry carrying the collected messages; every later close changes nothing; afterwards the context is closed with no messages, and the consent table is outside its frame |

## Left out

- UUID parsing (`UUID.fromString`): account and client ids arrive as UUIDs.
- `UUID.randomUUID` for subs is a fresh-sub parameter that lies outside the subs in use. The ids of log entries are parameters whose uniqueness is not modelled.
- `Instant.now()` is a timestamp parameter.
- The accessor of the current authorization request is replaced by a `CodeRequest` value. It gives the requested scopes, the two context flags and the additional parameters. Parameter values are strings here; the Java values are `Object`s compared with `"consent"`.
- `putValue("COPY_FROM_CLIENT_AUTHORIZATION_ID", …)` is a side channel into the request. `FindById` returns that value instead, as `stashed`.
- The query `findLatestByAccountIdAndClientRegistrationIdAndHavingScopes` is an arbitrary function parameter. The authorization repository behind it is not part of this model.
- The constructors that inject repositories and the default accessor are left out. So is the SLF4J message logged when the trim fails.
- `@Transactional` and the `AtomicBoolean`: each operation is one atomic step, and `isValid` is a plain boolean. Concurrent callers are not modelled.
- Storage failures are not modelled, except the trim failure. It is a boolean input (`trimFails`) standing for a `DataAccessException`. Other repository exceptions and their rollbacks are not modelled. So the Java path where `save`'s repository write throws and the log context is still closed is absent.
- `isAuthorized` also rejects a `null` scope set. Dafny sets are never null, so that branch has no counterpart.
- `ClientConsent.fromEntity` is not part of this model: lookups return the stored row itself. `getClientConsents` returns a set, because the repository's list order is not modelled.
- The `OAuth2AuthorizationConsent` builder is replaced by the `AuthorizationConsent` value (client, principal, scopes).
- `String.join` and the `"Updated consented oauth2-scopes to [%s]"` formatting are a `describe` parameter, from the resulting scope set to the message.
- "Latest" log entries are taken in append order, so the newest entry is the last one appended. The repository's SQL, which orders by its own columns, is not part of this model.
- The entry built in `close` shares its message list with the context, and the list is cleared after the save. The model stores a copy of the messages as they were at the save. This matches the persisted row, but not the aliasing of the in-memory list.
- `LogType` is not part of this model. Only the stored name of `CONSENT` occurs.

Behaviours of the code that a reader of the consent-provider contract might not expect, and that the model keeps as the code has them:

- `findById` does not check that the stored scopes cover the requested ones. The only coverage test is the prior-authorization query during a code request.
- `prompt=consent` forces "none" only during a code request outside the consent page.
- `save` checks the decision against the requested scopes of the current request. It returns nothing.
- `deleteClientConsent` writes no audit entry.
- Pre-provisioning creates an empty row, which is invisible and not an active one.
