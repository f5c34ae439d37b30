/** The client consent service: a consent table and a consent-log table that
    the service updates in place, the logging context that accumulates audit
    messages and writes one entry when closed, and the OAuth2 consent-provider
    operations (save, remove, findById) built on them. Each state change is
    proved against the pure functions of ConsentTable and ConsentLog. */
module ConsentService {
  import opened Base
  import opened ConsentTable
  import opened ConsentLog

  /** OAuth2ErrorCodes.ACCESS_DENIED */
  const ACCESS_DENIED: string := "access_denied"

  /** The protocol error an operation aborts the authorization request with. */
  datatype OAuth2Error = OAuth2Error(errorCode: string)

  /** The name of LogType.CONSENT, as stored in a log entry. */
  const CONSENT_LOG_TYPE: string := "CONSENT"

  /** What the authorization-request accessor reports about the request being
      served: whether it is an authorization-code request, whether the consent
      page is being processed, the requested scopes and the request's
      additional parameters (name, value). */
  datatype CodeRequest = CodeRequest(
    inCodeRequest: bool,
    inConsentContext: bool,
    requestedScopes: set<Scope>,
    additionalParameters: seq<(string, string)>)

  /** OAuth2AuthorizationConsent: client, principal and granted scopes. */
  datatype AuthorizationConsent = AuthorizationConsent(
    registeredClientId: ClientId,
    principalName: AccountId,
    scopes: set<Scope>)

  /** The id of a stored client authorization. */
  type AuthorizationId = string

  /** Does the request carry prompt=consent? */
  predicate PromptsForConsent(params: seq<(string, string)>) {
    exists i :: 0 <= i < |params| && params[i].0 == "prompt" && params[i].1 == "consent"
  }

  class ClientConsentService {
    /** The consent table (client consent repository). */
    var consents: Table
    /** The consent-log table, per (account, client), oldest entry first. */
    var logs: map<Pair, seq<LogEntry>>

    ghost predicate Valid()
      reads this
    {
      ConsentTable.Valid(consents)
    }

    /** The stored log of a pair; empty when nothing was ever logged. */
    function LogOf(key: Pair): seq<LogEntry>
      reads this`logs
    {
      if key in logs then logs[key] else []
    }

    constructor ()
      ensures Valid() && consents == map[] && logs == map[]
    {
      consents := map[];
      logs := map[];
    }

    /** createEmptyClientConsentIfNotExists: pre-provision a row, and with it a
        sub, for the pair unless one (active or revoked) exists. */
    method CreateEmptyClientConsentIfNotExists(accountId: AccountId, clientId: ClientId, freshSub: AccountSub)
      requires Valid() && freshSub !in Subs(consents)
      modifies this`consents
      ensures Valid()
      ensures consents == EnsureExists(old(consents), Pair(accountId, clientId), freshSub)
    {
      var key := Pair(accountId, clientId);
      if key !in consents {
        consents := consents[key := CreateAuthorizedClientEntity(accountId, clientId, freshSub)];
      }
      EnsureExistsValid(old(consents), key, freshSub);
    }

    /** deleteClientConsent: soft-revoke the pair's row when there is one. */
    method DeleteClientConsent(accountId: AccountId, clientId: ClientId)
      requires Valid()
      modifies this`consents
      ensures Valid()
      ensures consents == Revoke(old(consents), Pair(accountId, clientId))
      ensures ClientConsent(consents, Pair(accountId, clientId)) == None
    {
      var key := Pair(accountId, clientId);
      if key in consents {
        DeleteInternal(consents[key]);
      }
    }

    /** deleteInternal: replace the stored row by one with the same key and
        sub and no scopes (delete, then save). */
    method DeleteInternal(entity: ClientConsentEntity)
      requires Valid() && KeyOf(entity) in consents && consents[KeyOf(entity)] == entity
      modifies this`consents
      ensures Valid()
      ensures consents == Revoke(old(consents), KeyOf(entity))
    {
      var key := KeyOf(entity);
      consents := consents - {key};
      consents := consents[key := ClientConsentEntity(entity.accountId, entity.clientRegistrationId, entity.accountSub, {})];
      assert consents == old(consents)[key := consents[key]];
      RevokeValid(old(consents), key);
    }

    /** log: open a logging context for the pair, stamped with the given time. */
    method Log(accountId: AccountId, clientId: ClientId, logType: string, now: Timestamp) returns (ctx: LoggingContext)
      ensures fresh(ctx) && ctx.service == this
      ensures ctx.Key() == Pair(accountId, clientId) && ctx.logType == logType && ctx.timestamp == now
      ensures ctx.Valid() && ctx.isValid && ctx.messages == []
    {
      ctx := new LoggingContext(this, accountId, clientId, logType, now);
    }

    /** save: reject a decision that does not cover the requested scopes;
        otherwise unite the decision's scopes into the pair's row (created
        with the fresh sub when missing) and write one consent log entry
        describing the resulting scopes. */
    method Save(consent: AuthorizationConsent, request: CodeRequest, freshSub: AccountSub, now: Timestamp,
                logId: Uuid, trimFails: bool, describe: set<Scope> -> string)
      returns (outcome: Outcome<OAuth2Error>)
      requires Valid() && freshSub !in Subs(consents)
      modifies this
      ensures Valid()
      ensures !(request.requestedScopes <= consent.scopes) ==>
        outcome == Fail(OAuth2Error(ACCESS_DENIED)) && consents == old(consents) && logs == old(logs)
      ensures request.requestedScopes <= consent.scopes ==>
        var key := Pair(consent.principalName, consent.registeredClientId);
        && outcome == Pass
        && consents == Grant(old(consents), key, consent.scopes, freshSub)
        && logs == old(logs)[key := TrimThenAppend(old(LogOf(key)), trimFails,
             LogEntry(logId, now, CONSENT_LOG_TYPE, [describe(consents[key].authorizedScopes)]))]
    {
      if !(request.requestedScopes <= consent.scopes) {
        return Fail(OAuth2Error(ACCESS_DENIED));
      }
      var accountId, clientId := consent.principalName, consent.registeredClientId;
      var key := Pair(accountId, clientId);
      var log := Log(accountId, clientId, CONSENT_LOG_TYPE, now);
      var entity := if key in consents then consents[key]
                    else CreateAuthorizedClientEntity(accountId, clientId, freshSub);
      entity := WithAdditionalScopes(entity, consent.scopes);
      consents := consents[key := entity];
      log.Log(describe(entity.authorizedScopes));
      assert log.messages == [describe(entity.authorizedScopes)];
      assert LogOf(key) == old(LogOf(key));
      log.Close(trimFails, logId);
      assert consents[key] == entity;
      GrantValid(old(consents), key, consent.scopes, freshSub);
      outcome := Pass;
    }

    /** remove: soft-revoke the consent's (principal, client) row. */
    method Remove(consent: AuthorizationConsent)
      requires Valid()
      modifies this`consents
      ensures Valid()
      ensures consents == Revoke(old(consents), Pair(consent.principalName, consent.registeredClientId))
    {
      DeleteClientConsent(consent.principalName, consent.registeredClientId);
    }

    /** findById: the stored consent of the principal for the client, or none.
        During an authorization-code request outside the consent page, a
        prompt=consent parameter forces none, and so does the absence of a
        prior authorization covering the requested scopes; when there is one,
        its id is handed to later stages (the `stashed` result). */
    method FindById(registeredClientId: ClientId, principalName: AccountId, request: CodeRequest,
                    findLatestHavingScopes: (AccountId, ClientId, set<Scope>) -> Option<AuthorizationId>)
      returns (r: Option<AuthorizationConsent>, stashed: Option<AuthorizationId>)
      requires Valid()
      ensures var codeFlow := request.inCodeRequest && !request.inConsentContext;
        var prior := findLatestHavingScopes(principalName, registeredClientId, request.requestedScopes);
        var key := Pair(principalName, registeredClientId);
        && (codeFlow && PromptsForConsent(request.additionalParameters) ==> r == None && stashed == None)
        && (codeFlow && !PromptsForConsent(request.additionalParameters) ==> stashed == prior)
        && (codeFlow && prior == None ==> r == None)
        && (!codeFlow ==> stashed == None)
        && ((!codeFlow || (!PromptsForConsent(request.additionalParameters) && prior != None)) ==>
              (r != None <==> key in consents && consents[key].authorizedScopes != {})
              && (r != None ==> r == Some(AuthorizationConsent(registeredClientId, principalName, consents[key].authorizedScopes))))
    {
      stashed := None;
      if request.inCodeRequest && !request.inConsentContext {
        if PromptsForConsent(request.additionalParameters) {
          return None, None;
        }
        var prior := findLatestHavingScopes(principalName, registeredClientId, request.requestedScopes);
        if prior == None {
          return None, None;
        }
        stashed := prior;
      }
      var found := ClientConsent(consents, Pair(principalName, registeredClientId));
      r := match found
        case None => None
        case Some(e) => Some(AuthorizationConsent(e.clientRegistrationId, e.accountId, e.authorizedScopes));
    }
  }

  /** The logging context of one flow execution (LoggingContextImpl). It
      collects messages until it is closed; the first close writes them to the
      consent-log table as one entry, any later close does nothing. */
  class LoggingContext {
    const service: ClientConsentService
    const accountId: AccountId
    const clientRegistrationId: ClientId
    const logType: string
    const timestamp: Timestamp
    var messages: seq<string>
    var isValid: bool

    /** A closed context holds no messages. */
    ghost predicate Valid()
      reads this
    {
      !isValid ==> messages == []
    }

    function Key(): Pair {
      Pair(accountId, clientRegistrationId)
    }

    constructor (service: ClientConsentService, accountId: AccountId, clientId: ClientId, logType: string, timestamp: Timestamp)
      ensures this.service == service && this.accountId == accountId && this.clientRegistrationId == clientId
      ensures this.logType == logType && this.timestamp == timestamp
      ensures Valid() && isValid && messages == []
    {
      this.service := service;
      this.accountId := accountId;
      this.clientRegistrationId := clientId;
      this.logType := logType;
      this.timestamp := timestamp;
      this.messages := [];
      this.isValid := true;
    }

    /** log: append a message while the context is open; ignored once closed. */
    method Log(message: string)
      requires Valid()
      modifies this`messages
      ensures Valid()
      ensures messages == if isValid then old(messages) + [message] else old(messages)
    {
      if isValid {
        messages := messages + [message];
      }
    }

    /** close: takes effect only on the first call. It trims the pair's log to
        the latest MAX_LOG_COUNT - 1 entries (a failing trim is tolerated and
        skipped), appends one entry carrying the collected messages and clears
        them. */
    method Close(trimFails: bool, entryId: Uuid)
      requires Valid()
      modifies this`isValid, this`messages, service`logs
      ensures Valid() && !isValid && messages == []
      ensures old(isValid) ==>
        service.logs == old(service.logs)[Key() := TrimThenAppend(old(service.LogOf(Key())), trimFails,
                                                   LogEntry(entryId, timestamp, logType, old(messages)))]
      ensures !old(isValid) ==> service.logs == old(service.logs)
    {
      if isValid {
        isValid := false;
        var key := Key();
        if !trimFails {
          service.logs := service.logs[key := ExceptLatestN(service.LogOf(key), MAX_LOG_COUNT - 1)];
        }
        service.logs := service.logs[key := service.LogOf(key) + [LogEntry(entryId, timestamp, logType, messages)]];
        messages := [];
      }
    }
  }
}

/** A client of the service: two grants for one pair, a revoke and a re-grant,
    with what the contracts above let a caller conclude at each step. */
module ConsentScenario {
  import opened Base
  import opened ConsentTable
  import opened ConsentLog
  import opened ConsentService

  /** Two grants for one pair, with a denied decision between them. */
  method GrantThenWiden(accountId: AccountId, clientId: ClientId, sub1: AccountSub, sub2: AccountSub,
                        describe: set<Scope> -> string)
    requires sub2 != sub1
  {
    var key := Pair(accountId, clientId);
    var service := new ClientConsentService();

    // the client asks for {profile}; the user grants it
    var first := service.Save(AuthorizationConsent(clientId, accountId, {"profile"}),
                              CodeRequest(true, true, {"profile"}, []), sub1, 10, 1, false, describe);
    assert first == Pass && service.consents[key].authorizedScopes == {"profile"};
    assert service.consents.Keys == {key} && service.consents[key].accountSub == sub1;
    assert sub2 !in Subs(service.consents);

    // a decision missing a requested scope is denied and changes nothing
    var denied := service.Save(AuthorizationConsent(clientId, accountId, {"email"}),
                               CodeRequest(true, true, {"profile", "email"}, []), sub2, 20, 2, false, describe);
    assert denied == Fail(OAuth2Error(ACCESS_DENIED)) && |service.LogOf(key)| == 1;

    // the client now asks for {profile, email}; the user grants both
    var second := service.Save(AuthorizationConsent(clientId, accountId, {"profile", "email"}),
                               CodeRequest(true, true, {"profile", "email"}, []), sub2, 30, 3, false, describe);
    assert service.consents[key].authorizedScopes == {"profile", "email"};
    assert service.consents[key].accountSub == sub1;
    assert |service.LogOf(key)| == 2;
    assert service.LogOf(key)[1].messages == [describe({"profile", "email"})];
  }

  /** A pre-provisioned row is invisible; a grant fills it under its sub. */
  method ProvisionThenGrant(accountId: AccountId, clientId: ClientId, sub1: AccountSub, sub2: AccountSub,
                            describe: set<Scope> -> string)
    requires sub2 != sub1
  {
    var key := Pair(accountId, clientId);
    var service := new ClientConsentService();
    service.CreateEmptyClientConsentIfNotExists(accountId, clientId, sub1);
    assert service.consents == map[key := ClientConsentEntity(accountId, clientId, sub1, {})];
    assert ClientConsent(service.consents, key) == None;
    assert Subs(service.consents) == {sub1};
    var granted := service.Save(AuthorizationConsent(clientId, accountId, {"profile"}),
                                CodeRequest(true, true, {}, []), sub2, 10, 1, false, describe);
    assert service.consents[key].accountSub == sub1 && service.consents[key].authorizedScopes == {"profile"};
  }

  /** A revoke hides the row but keeps it; a re-grant reuses the old sub, and
      a failed trim does not stop the audit entry. */
  method RevokeThenRegrant(service: ClientConsentService, accountId: AccountId, clientId: ClientId,
                           freshSub: AccountSub, describe: set<Scope> -> string)
    requires service.Valid() && freshSub !in Subs(service.consents)
    requires Pair(accountId, clientId) in service.consents
    modifies service
  {
    var key := Pair(accountId, clientId);
    var sub := service.consents[key].accountSub;
    var logged := |service.LogOf(key)|;
    service.DeleteClientConsent(accountId, clientId);
    assert ClientConsent(service.consents, key) == None && key in service.consents;
    assert Subs(service.consents) == old(Subs(service.consents));
    var regranted := service.Save(AuthorizationConsent(clientId, accountId, {"email"}),
                                  CodeRequest(true, true, {"email"}, []), freshSub, 20, 2, true, describe);
    assert service.consents[key].accountSub == sub && service.consents[key].authorizedScopes == {"email"};
    assert |service.LogOf(key)| == logged + 1;
  }

  /** prompt=consent during a code request hides even a sufficient consent. */
  method PromptConsentHidesConsent(accountId: AccountId, clientId: ClientId, sub1: AccountSub,
                                   describe: set<Scope> -> string,
                                   findLatestHavingScopes: (AccountId, ClientId, set<Scope>) -> Option<AuthorizationId>)
  {
    var service := new ClientConsentService();
    var granted := service.Save(AuthorizationConsent(clientId, accountId, {"profile", "email"}),
                                CodeRequest(true, true, {"profile"}, []), sub1, 10, 1, false, describe);
    assert service.consents[Pair(accountId, clientId)].authorizedScopes == {"profile", "email"};
    var params := [("prompt", "consent")];
    assert params[0].0 == "prompt" && params[0].1 == "consent";
    var found, stashed := service.FindById(clientId, accountId, CodeRequest(true, false, {"profile"}, params),
                                           findLatestHavingScopes);
    assert found == None && stashed == None;
    // outside a code request the same lookup finds the stored scopes
    found, stashed := service.FindById(clientId, accountId,
                                       CodeRequest(false, false, {"profile"}, params),
                                       findLatestHavingScopes);
    assert found == Some(AuthorizationConsent(clientId, accountId, {"profile", "email"})) && stashed == None;
  }
}
