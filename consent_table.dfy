/** The consent table (one row per account and client) as a value: its rows,
    the visibility filter that hides revoked rows, and the three ways the
    service rewrites a row (pre-provision, soft revoke, grant). The service
    class in consent_service.dfy performs these rewrites in place and is
    proved against the functions here. */
module ConsentTable {
  import opened Base

  /** Primary key of a consent row. */
  datatype Pair = Pair(accountId: AccountId, clientRegistrationId: ClientId)

  /** One stored consent row (ClientConsentEntity). An empty scope set means
      "revoked or never granted"; the row and its sub survive revocation. */
  datatype ClientConsentEntity = ClientConsentEntity(
    accountId: AccountId,
    clientRegistrationId: ClientId,
    accountSub: AccountSub,
    authorizedScopes: set<Scope>)

  function KeyOf(e: ClientConsentEntity): Pair {
    Pair(e.accountId, e.clientRegistrationId)
  }

  /** The consent table, keyed by (account, client). */
  type Table = map<Pair, ClientConsentEntity>

  /** Every row is stored under its own key. */
  ghost predicate WellKeyed(t: Table) {
    forall k :: k in t ==> KeyOf(t[k]) == k
  }

  /** No two rows share a pseudonymous sub. */
  ghost predicate SubsUnique(t: Table) {
    forall k1, k2 :: k1 in t && k2 in t && t[k1].accountSub == t[k2].accountSub ==> k1 == k2
  }

  ghost predicate Valid(t: Table) {
    WellKeyed(t) && SubsUnique(t)
  }

  /** The subs already handed out; a freshly generated UUID lies outside it. */
  ghost function Subs(t: Table): set<AccountSub> {
    set k | k in t :: t[k].accountSub
  }

  /** The scopes stored for a key, or none when there is no row. */
  function StoredScopes(t: Table, key: Pair): set<Scope> {
    if key in t then t[key].authorizedScopes else {}
  }

  /** isAuthorized: a row is visible only when it grants at least one scope. */
  predicate IsAuthorized(e: ClientConsentEntity): (visible: bool)
    ensures visible ==> exists s :: s in e.authorizedScopes
    ensures !visible ==> forall s :: s !in e.authorizedScopes
  {
    e.authorizedScopes != {}
  }

  /** createAuthorizedClientEntity: a new row for the pair, with the given
      fresh sub and no scopes, hence invisible. */
  function CreateAuthorizedClientEntity(accountId: AccountId, clientId: ClientId, freshSub: AccountSub): (e: ClientConsentEntity)
    ensures KeyOf(e) == Pair(accountId, clientId) && e.accountSub == freshSub
    ensures !IsAuthorized(e)
  {
    ClientConsentEntity(accountId, clientId, freshSub, {})
  }

  /** ClientConsentEntity.withAdditionalScopes: the least scope set holding
      both the row's scopes and the new ones; key and sub are kept. */
  function WithAdditionalScopes(e: ClientConsentEntity, scopes: set<Scope>): (r: ClientConsentEntity)
    ensures KeyOf(r) == KeyOf(e) && r.accountSub == e.accountSub
    ensures e.authorizedScopes <= r.authorizedScopes && scopes <= r.authorizedScopes
    ensures forall s :: s in r.authorizedScopes ==> s in e.authorizedScopes || s in scopes
  {
    e.(authorizedScopes := e.authorizedScopes + scopes)
  }

  /** getClientConsent: the row for the pair, filtered by isAuthorized. */
  function ClientConsent(t: Table, key: Pair): (r: Option<ClientConsentEntity>)
    ensures r.Some? <==> key in t && t[key].authorizedScopes != {}
    ensures r.Some? ==> r.value == t[key]
  {
    if key in t && IsAuthorized(t[key]) then Some(t[key]) else None
  }

  /** getClientConsents: every row of the account that grants some scope,
      unchanged, and nothing else. */
  function ClientConsents(t: Table, accountId: AccountId): (r: set<ClientConsentEntity>)
    requires WellKeyed(t)
    ensures forall e :: e in r ==>
      e.accountId == accountId && e.authorizedScopes != {} && KeyOf(e) in t && t[KeyOf(e)] == e
    ensures forall k :: k in t && k.accountId == accountId && t[k].authorizedScopes != {} ==> t[k] in r
  {
    set k | k in t && k.accountId == accountId && IsAuthorized(t[k]) :: t[k]
  }

  /** createEmptyClientConsentIfNotExists on the table: an existing row (active
      or revoked) is left alone; otherwise exactly one empty row with the
      fresh sub is added. */
  function EnsureExists(t: Table, key: Pair, freshSub: AccountSub): (r: Table)
    ensures r.Keys == t.Keys + {key}
    ensures forall k :: k in t ==> r[k] == t[k]
    ensures key !in t ==>
      KeyOf(r[key]) == key && r[key].accountSub == freshSub && r[key].authorizedScopes == {}
  {
    if key in t then t
    else t[key := CreateAuthorizedClientEntity(key.accountId, key.clientRegistrationId, freshSub)]
  }

  /** deleteClientConsent on the table: a soft revoke. The row stays, keeps its
      key and sub and loses every scope; a missing row stays missing. */
  function Revoke(t: Table, key: Pair): (r: Table)
    ensures r.Keys == t.Keys
    ensures forall k :: k in t && k != key ==> r[k] == t[k]
    ensures key in t ==>
      KeyOf(r[key]) == KeyOf(t[key]) && r[key].accountSub == t[key].accountSub && r[key].authorizedScopes == {}
    ensures ClientConsent(r, key) == None
  {
    if key in t then
      var e := t[key];
      t[key := ClientConsentEntity(e.accountId, e.clientRegistrationId, e.accountSub, {})]
    else t
  }

  /** The table effect of a successful save: the row (created with the fresh
      sub when missing) ends up holding its old scopes united with the
      decision's scopes. */
  function Grant(t: Table, key: Pair, scopes: set<Scope>, freshSub: AccountSub): (r: Table)
    ensures r.Keys == t.Keys + {key}
    ensures forall k :: k in t && k != key ==> r[k] == t[k]
    ensures r[key].authorizedScopes == StoredScopes(t, key) + scopes
    ensures key in t ==> KeyOf(r[key]) == KeyOf(t[key]) && r[key].accountSub == t[key].accountSub
    ensures key !in t ==> KeyOf(r[key]) == key && r[key].accountSub == freshSub
  {
    var e := if key in t then t[key]
             else CreateAuthorizedClientEntity(key.accountId, key.clientRegistrationId, freshSub);
    t[key := WithAdditionalScopes(e, scopes)]
  }

  lemma EnsureExistsValid(t: Table, key: Pair, freshSub: AccountSub)
    requires Valid(t) && freshSub !in Subs(t)
    ensures Valid(EnsureExists(t, key, freshSub))
  {
    if key !in t {
      forall k | k in t ensures t[k].accountSub != freshSub {
        assert t[k].accountSub in Subs(t);
      }
    }
  }

  lemma RevokeValid(t: Table, key: Pair)
    requires Valid(t)
    ensures Valid(Revoke(t, key))
  {
  }

  lemma GrantValid(t: Table, key: Pair, scopes: set<Scope>, freshSub: AccountSub)
    requires Valid(t) && freshSub !in Subs(t)
    ensures Valid(Grant(t, key, scopes, freshSub))
  {
    if key !in t {
      forall k | k in t ensures t[k].accountSub != freshSub {
        assert t[k].accountSub in Subs(t);
      }
    }
  }

  /** A grant never removes a scope, whatever the decision. */
  lemma GrantNeverShrinks(t: Table, key: Pair, scopes: set<Scope>, freshSub: AccountSub)
    ensures StoredScopes(t, key) <= StoredScopes(Grant(t, key, scopes, freshSub), key)
    ensures scopes <= StoredScopes(Grant(t, key, scopes, freshSub), key)
  {
  }

  /** Two successive grants store the union of both decisions, on the sub the
      first one established. */
  lemma GrantTwiceUnites(t: Table, key: Pair, s1: set<Scope>, s2: set<Scope>, sub1: AccountSub, sub2: AccountSub)
    ensures var r := Grant(Grant(t, key, s1, sub1), key, s2, sub2);
      StoredScopes(r, key) == StoredScopes(t, key) + s1 + s2
      && r[key].accountSub == (if key in t then t[key].accountSub else sub1)
  {
  }

  /** A grant after a revoke brings the row back with exactly the new scopes,
      under the pre-revoke sub. */
  lemma GrantAfterRevokeKeepsSub(t: Table, key: Pair, scopes: set<Scope>, freshSub: AccountSub)
    requires key in t
    ensures var r := Grant(Revoke(t, key), key, scopes, freshSub);
      r[key].accountSub == t[key].accountSub && r[key].authorizedScopes == scopes
  {
  }

  /** Pre-provisioning twice is the same as pre-provisioning once. */
  lemma EnsureExistsIdempotent(t: Table, key: Pair, sub1: AccountSub, sub2: AccountSub)
    ensures EnsureExists(EnsureExists(t, key, sub1), key, sub2) == EnsureExists(t, key, sub1)
  {
  }

  /** One table-changing service call. */
  datatype Op =
    | EnsureExistsOp(key: Pair, sub: AccountSub)
    | RevokeOp(key: Pair)
    | GrantOp(key: Pair, scopes: set<Scope>, sub: AccountSub)

  function Step(t: Table, op: Op): Table {
    match op
    case EnsureExistsOp(key, sub) => EnsureExists(t, key, sub)
    case RevokeOp(key) => Revoke(t, key)
    case GrantOp(key, scopes, sub) => Grant(t, key, scopes, sub)
  }

  /** The table after the calls in order. */
  function Run(t: Table, ops: seq<Op>): Table
    decreases |ops|
  {
    if ops == [] then t else Run(Step(t, ops[0]), ops[1..])
  }

  /** Each call that may create a row is handed a UUID not yet used as a sub. */
  ghost predicate FreshSubs(t: Table, ops: seq<Op>)
    decreases |ops|
  {
    ops == [] ||
    ((!ops[0].RevokeOp? ==> ops[0].sub !in Subs(t)) && FreshSubs(Step(t, ops[0]), ops[1..]))
  }

  /** Once a row exists it is never deleted and its sub never changes, so the
      row's life is absent, then empty or active, then cycling between the two. */
  lemma {:induction false} RunKeepsRowsAndSubs(t: Table, ops: seq<Op>)
    ensures forall k :: k in t ==> k in Run(t, ops) && Run(t, ops)[k].accountSub == t[k].accountSub
    decreases |ops|
  {
    if ops != [] {
      RunKeepsRowsAndSubs(Step(t, ops[0]), ops[1..]);
    }
  }

  /** With fresh UUIDs, any sequence of calls keeps every row under its own key
      and every sub unique to one (account, client) pair. */
  lemma {:induction false} RunPreservesValid(t: Table, ops: seq<Op>)
    requires Valid(t) && FreshSubs(t, ops)
    ensures Valid(Run(t, ops))
    decreases |ops|
  {
    if ops != [] {
      match ops[0] {
        case EnsureExistsOp(key, sub) => EnsureExistsValid(t, key, sub);
        case RevokeOp(key) => RevokeValid(t, key);
        case GrantOp(key, scopes, sub) => GrantValid(t, key, scopes, sub);
      }
      RunPreservesValid(Step(t, ops[0]), ops[1..]);
    }
  }

  /** Does some call in the sequence revoke the key? */
  predicate Revokes(ops: seq<Op>, key: Pair) {
    exists i :: 0 <= i < |ops| && ops[i] == RevokeOp(key)
  }

  /** Only a revoke can take scopes away: without one, a row's scopes only grow. */
  lemma {:induction false} RunScopesGrowWithoutRevoke(t: Table, ops: seq<Op>, key: Pair)
    requires !Revokes(ops, key)
    ensures StoredScopes(t, key) <= StoredScopes(Run(t, ops), key)
    decreases |ops|
  {
    if ops != [] {
      assert ops[0] != RevokeOp(key);
      assert StoredScopes(t, key) <= StoredScopes(Step(t, ops[0]), key);
      assert !Revokes(ops[1..], key) by {
        forall i | 0 <= i < |ops[1..]| ensures ops[1..][i] != RevokeOp(key) {
          assert ops[1..][i] == ops[i + 1];
        }
      }
      RunScopesGrowWithoutRevoke(Step(t, ops[0]), ops[1..], key);
    }
  }
}
