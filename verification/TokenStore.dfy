/**
  The stored DocuSign integrations, their access tokens, and the copy of them the API client caches
  (docusign-integration.service.ts, docusign-api.service.ts).
 */
module TokenStore {
  import opened Common

  datatype IntegrationType = Esa | Default

  datatype Credentials = Credentials(clientId: string, userId: string, rsaPrivateKey: string)

  /** A token, with the credentials DocuSign granted it for. */
  datatype Token = Token(value: string, grantedTo: Credentials)

  datatype Integration = Integration(
    integrationType: IntegrationType,
    credentials: Credentials,
    accessToken: Option<Token>,
    expiresAt: int)

  datatype Cached = Cached(id: nat, integration: Integration)

  /** Records by position, and the authentication config the client keeps per type. */
  datatype State = State(records: seq<Integration>, cache: map<IntegrationType, Cached>)

  datatype TokenError = NotFound | NotGranted | LoginFailed | NotConfigured

  /** What DocuSign answers: the granted token's text, and whether logging in with it then works. */
  datatype Answer = Answer(granted: Option<string>, expiresAt: int, loginWorks: bool)

  // ---------------------------------------------------------------- specification

  function Find(records: seq<Integration>, t: IntegrationType): (r: int)
    ensures -1 <= r < |records|
    ensures r >= 0 ==> records[r].integrationType == t
    ensures forall k :: 0 <= k < |records| && records[k].integrationType == t ==> 0 <= r <= k
  {
    FindIndex(records, (i: Integration) => i.integrationType == t)
  }

  /** `addDocusignIntegration`: new credentials take the token away, but not from the cache. */
  function Add(s: State, t: IntegrationType, credentials: Credentials): State {
    var k := Find(s.records, t);
    if k < 0 then s.(records := s.records + [Integration(t, credentials, None, 0)])
    else s.(records := s.records[k := s.records[k].(credentials := credentials, accessToken := None, expiresAt := 0)])
  }

  /** `updateAccessToken`: the cache is updated first, the record only if logging in works. */
  function Update(s: State, id: nat, token: Token, expiresAt: int, loginWorks: bool): (Result<(), TokenError>, State) {
    if id >= |s.records| then (Err(NotFound), s)
    else
      var updated := s.records[id].(accessToken := Some(token), expiresAt := expiresAt);
      var cached := s.(cache := s.cache[updated.integrationType := Cached(id, updated)]);
      if !loginWorks then (Err(LoginFailed), cached)
      else (Ok(()), cached.(records := s.records[id := updated]))
  }

  /** `addDocusignAccessTokenAfterConsent`. */
  function AddTokenAfterConsent(s: State, t: IntegrationType, answer: Answer): (Result<(), TokenError>, State) {
    var k := Find(s.records, t);
    if k < 0 then (Err(NotFound), s)
    else if answer.granted.None? then (Err(NotGranted), s)
    else Update(s, k, Token(answer.granted.value, s.records[k].credentials), answer.expiresAt, answer.loginWorks)
  }

  /** `getNewAccessTokenIfExpired`: asks with the credentials of the cache. */
  function Refresh(s: State, t: IntegrationType, now: int, answer: Answer): (Result<(), TokenError>, State) {
    if t !in s.cache then (Err(NotConfigured), s)
    else
      var c := s.cache[t];
      if now <= c.integration.expiresAt then (Ok(()), s)
      else if answer.granted.None? then (Err(NotGranted), s)
      else Update(s, c.id, Token(answer.granted.value, c.integration.credentials), answer.expiresAt, answer.loginWorks)
  }

  /** `preCheckValidAuthConfig`: fills the cache if it has no token, then refreshes. */
  function PreCheck(s: State, t: IntegrationType, now: int, answer: Answer): (Result<(), TokenError>, State) {
    if t in s.cache && s.cache[t].integration.accessToken.Some? then Refresh(s, t, now, answer)
    else
      var k := Find(s.records, t);
      if k < 0 || s.records[k].accessToken.None? then (Err(NotConfigured), s)
      else Refresh(s.(cache := s.cache[t := Cached(k, s.records[k])]), t, now, answer)
  }

  // ---------------------------------------------------------------- the service

  class Service {
    var records: seq<Integration>
    var cache: map<IntegrationType, Cached>

    function View(): State
      reads this
    {
      State(records, cache)
    }

    constructor ()
      ensures View() == State([], map[])
    {
      records, cache := [], map[];
    }

    method AddDocusignIntegration(t: IntegrationType, credentials: Credentials)
      modifies this
      ensures View() == Add(old(View()), t, credentials)
    {
      var found := Find(records, t);
      if found == -1 {
        records := records + [Integration(t, credentials, None, 0)];
      } else {
        var record := records[found].(credentials := credentials);
        record := record.(expiresAt := 0, accessToken := None);
        records := records[found := record];
      }
    }

    method UpdateAccessToken(id: nat, accessToken: Token, expiresAt: int, loginWorks: bool)
      returns (r: Result<(), TokenError>)
      modifies this
      ensures (r, View()) == Update(old(View()), id, accessToken, expiresAt, loginWorks)
    {
      if id >= |records| {
        return Err(NotFound);
      }
      var res := records[id];
      res := res.(accessToken := Some(accessToken));
      res := res.(expiresAt := expiresAt);
      cache := cache[res.integrationType := Cached(id, res)];
      if !loginWorks {
        return Err(LoginFailed);
      }
      records := records[id := res];
      r := Ok(());
    }

    method AddDocusignAccessTokenAfterConsent(t: IntegrationType, answer: Answer) returns (r: Result<(), TokenError>)
      modifies this
      ensures (r, View()) == AddTokenAfterConsent(old(View()), t, answer)
    {
      var found := Find(records, t);
      if found == -1 {
        return Err(NotFound);
      }
      if answer.granted.None? {
        return Err(NotGranted);
      }
      var token := Token(answer.granted.value, records[found].credentials);
      r := UpdateAccessToken(found, token, answer.expiresAt, answer.loginWorks);
    }
  }

  // ---------------------------------------------------------------- runs

  datatype Step =
    | AddStep(addType: IntegrationType, credentials: Credentials)
    | ConsentStep(consentType: IntegrationType, consent: Answer)
    | UseStep(useType: IntegrationType, now: int, answer: Answer)

  function Take(s: State, step: Step): State {
    match step
    case AddStep(t, credentials) => Add(s, t, credentials)
    case ConsentStep(t, answer) => AddTokenAfterConsent(s, t, answer).1
    case UseStep(t, now, answer) => PreCheck(s, t, now, answer).1
  }

  function Run(s: State, steps: seq<Step>): State {
    if steps == [] then s else Take(Run(s, Init(steps)), Last(steps))
  }

  ghost predicate OnePerType(s: State) {
    && (forall i, j :: 0 <= i < j < |s.records| ==> s.records[i].integrationType != s.records[j].integrationType)
    && (forall t :: t in s.cache ==> s.cache[t].id < |s.records| && s.records[s.cache[t].id].integrationType == t)
  }

  /** In every run there is at most one record per type, and the cache points at it. */
  lemma {:induction false} EveryRunHasOnePerType(steps: seq<Step>)
    ensures OnePerType(Run(State([], map[]), steps))
  {
    if steps != [] {
      EveryRunHasOnePerType(Init(steps));
      StepKeepsOnePerType(Run(State([], map[]), Init(steps)), Last(steps));
    }
  }

  lemma StepKeepsOnePerType(s: State, step: Step)
    requires OnePerType(s)
    ensures OnePerType(Take(s, step))
  {
    match step
    case AddStep(t, credentials) =>
      AddKeepsOnePerType(s, t, credentials);
    case ConsentStep(t, answer) =>
      var k := Find(s.records, t);
      if k >= 0 && answer.granted.Some? {
        var token := Token(answer.granted.value, s.records[k].credentials);
        UpdateKeepsOnePerType(s, k, token, answer.expiresAt, answer.loginWorks);
      }
    case UseStep(t, now, answer) =>
      RefreshKeepsOnePerType(s, t, now, answer);
      var k := Find(s.records, t);
      if k >= 0 {
        var filled := s.(cache := s.cache[t := Cached(k, s.records[k])]);
        RefreshKeepsOnePerType(filled, t, now, answer);
      }
  }

  lemma AddKeepsOnePerType(s: State, t: IntegrationType, credentials: Credentials)
    requires OnePerType(s)
    ensures OnePerType(Add(s, t, credentials))
  {
  }

  lemma UpdateKeepsOnePerType(s: State, id: nat, token: Token, expiresAt: int, loginWorks: bool)
    requires OnePerType(s)
    ensures OnePerType(Update(s, id, token, expiresAt, loginWorks).1)
  {
  }

  lemma RefreshKeepsOnePerType(s: State, t: IntegrationType, now: int, answer: Answer)
    requires OnePerType(s)
    ensures OnePerType(Refresh(s, t, now, answer).1)
  {
    if t in s.cache && answer.granted.Some? {
      var c := s.cache[t];
      var token := Token(answer.granted.value, c.integration.credentials);
      UpdateKeepsOnePerType(s, c.id, token, answer.expiresAt, answer.loginWorks);
    }
  }

  /** Every stored token was granted for the credentials stored beside it. */
  ghost predicate TokensMatch(s: State) {
    forall k :: 0 <= k < |s.records| && s.records[k].accessToken.Some?
      ==> s.records[k].accessToken.value.grantedTo == s.records[k].credentials
  }

  /** The use of the API stores a freshly granted token. */
  predicate Refreshes(s: State, t: IntegrationType, now: int, answer: Answer) {
    && t in s.cache && s.cache[t].integration.accessToken.Some?
    && now > s.cache[t].integration.expiresAt
    && answer.granted.Some? && answer.loginWorks
  }

  /** Adding integrations and consenting keep tokens and credentials together. */
  lemma AddAndConsentKeepMatch(s: State, step: Step)
    requires TokensMatch(s) && !step.UseStep?
    ensures TokensMatch(Take(s, step))
  {
  }

  /** Using the API keeps them together exactly when it does not refresh or refreshes with the stored credentials. */
  lemma UseKeepsMatchExactly(s: State, t: IntegrationType, now: int, answer: Answer)
    requires TokensMatch(s) && OnePerType(s)
    ensures TokensMatch(Take(s, UseStep(t, now, answer)))
       <==> (Refreshes(s, t, now, answer) ==>
               s.cache[t].integration.credentials == s.records[s.cache[t].id].credentials)
  {
    if Refreshes(s, t, now, answer) {
      var id := s.cache[t].id;
      var after := Take(s, UseStep(t, now, answer));
      assert after.records[id].credentials == s.records[id].credentials;
      assert after.records[id].accessToken.value.grantedTo == s.cache[t].integration.credentials;
    }
  }

  /** A refresh with the credentials now stored. */
  predicate RefreshesWithStored(s: State, step: Step) {
    (step.UseStep? && Refreshes(s, step.useType, step.now, step.answer)) ==>
      && s.cache[step.useType].id < |s.records|
      && s.cache[step.useType].integration.credentials == s.records[s.cache[step.useType].id].credentials
  }

  function At(steps: seq<Step>, n: nat): State
    requires n <= |steps|
  {
    Run(State([], map[]), steps[..n])
  }

  /**
    Throughout a run every stored token belongs to the credentials stored beside it exactly when every refresh of
    the run asked with the credentials stored at that time.
   */
  lemma TokensMatchThroughoutExactly(steps: seq<Step>)
    ensures (forall n :: 0 <= n <= |steps| ==> TokensMatch(At(steps, n)))
       <==> (forall n :: 0 <= n < |steps| ==> RefreshesWithStored(At(steps, n), steps[n]))
  {
    if forall n :: 0 <= n < |steps| ==> RefreshesWithStored(At(steps, n), steps[n]) {
      forall n | 0 <= n <= |steps|
        ensures TokensMatch(At(steps, n))
      {
        MatchAt(steps, n);
      }
    } else {
      var n :| 0 <= n < |steps| && !RefreshesWithStored(At(steps, n), steps[n]);
      if TokensMatch(At(steps, n)) {
        MatchOneMore(steps, n);
      }
    }
  }

  lemma MatchOneMore(steps: seq<Step>, n: nat)
    requires n < |steps| && TokensMatch(At(steps, n))
    ensures TokensMatch(At(steps, n + 1)) <==> RefreshesWithStored(At(steps, n), steps[n])
  {
    var step := steps[n];
    assert Init(steps[..n + 1]) == steps[..n];
    EveryRunHasOnePerType(steps[..n]);
    if step.UseStep? {
      UseKeepsMatchExactly(At(steps, n), step.useType, step.now, step.answer);
    } else {
      AddAndConsentKeepMatch(At(steps, n), step);
    }
  }

  lemma {:induction false} MatchAt(steps: seq<Step>, n: nat)
    requires n <= |steps|
    requires forall m :: 0 <= m < n ==> RefreshesWithStored(At(steps, m), steps[m])
    ensures TokensMatch(At(steps, n))
  {
    if n > 0 {
      MatchAt(steps, n - 1);
      MatchOneMore(steps, n - 1);
    }
  }

  /** The cache holds the stored credentials of every type it knows. */
  ghost predicate CacheIsCurrent(s: State) {
    forall t :: t in s.cache && s.cache[t].id < |s.records|
      ==> s.cache[t].integration.credentials == s.records[s.cache[t].id].credentials
  }

  /** Credentials are only replaced for types the client has not cached. */
  predicate LeavesCachedCredentials(s: State, step: Step) {
    (step.AddStep? && step.addType in s.cache && s.cache[step.addType].id < |s.records|)
    ==> step.credentials == s.records[s.cache[step.addType].id].credentials
  }

  /** That is so in every run that leaves cached credentials alone. */
  lemma {:induction false} TokensMatchInRun(steps: seq<Step>)
    requires forall n :: 0 <= n < |steps| ==> LeavesCachedCredentials(Run(State([], map[]), steps[..n]), steps[n])
    ensures TokensMatch(Run(State([], map[]), steps)) && CacheIsCurrent(Run(State([], map[]), steps))
  {
    if steps != [] {
      var start, n := State([], map[]), |steps| - 1;
      assert steps[..n] == Init(steps);
      forall m | 0 <= m < n
        ensures Init(steps)[..m] == steps[..m]
      {
      }
      TokensMatchInRun(Init(steps));
      EveryRunHasOnePerType(Init(steps));
      StepKeepsMatch(Run(start, Init(steps)), Last(steps));
    }
  }

  lemma StepKeepsMatch(s: State, step: Step)
    requires TokensMatch(s) && CacheIsCurrent(s) && OnePerType(s) && LeavesCachedCredentials(s, step)
    ensures TokensMatch(Take(s, step)) && CacheIsCurrent(Take(s, step))
  {
    match step
    case AddStep(t, credentials) =>
      AddKeepsCurrent(s, t, credentials);
    case ConsentStep(t, answer) =>
      var k := Find(s.records, t);
      if k >= 0 && answer.granted.Some? {
        var token := Token(answer.granted.value, s.records[k].credentials);
        UpdateKeepsCurrent(s, k, token, answer.expiresAt, answer.loginWorks);
      }
    case UseStep(t, now, answer) =>
      RefreshKeepsCurrent(s, t, now, answer);
      var k := Find(s.records, t);
      if k >= 0 {
        var filled := s.(cache := s.cache[t := Cached(k, s.records[k])]);
        RefreshKeepsCurrent(filled, t, now, answer);
      }
  }

  lemma AddKeepsCurrent(s: State, t: IntegrationType, credentials: Credentials)
    requires TokensMatch(s) && CacheIsCurrent(s) && OnePerType(s)
    requires LeavesCachedCredentials(s, AddStep(t, credentials))
    ensures TokensMatch(Add(s, t, credentials)) && CacheIsCurrent(Add(s, t, credentials))
  {
    var k := Find(s.records, t);
    if k >= 0 && t in s.cache {
      assert s.cache[t].id == k;
    }
  }

  lemma UpdateKeepsCurrent(s: State, id: nat, token: Token, expiresAt: int, loginWorks: bool)
    requires TokensMatch(s) && CacheIsCurrent(s) && OnePerType(s)
    requires id < |s.records| && token.grantedTo == s.records[id].credentials
    ensures var after := Update(s, id, token, expiresAt, loginWorks).1;
            TokensMatch(after) && CacheIsCurrent(after)
  {
  }

  lemma RefreshKeepsCurrent(s: State, t: IntegrationType, now: int, answer: Answer)
    requires TokensMatch(s) && CacheIsCurrent(s) && OnePerType(s)
    ensures TokensMatch(Refresh(s, t, now, answer).1) && CacheIsCurrent(Refresh(s, t, now, answer).1)
  {
    if t in s.cache && answer.granted.Some? {
      var c := s.cache[t];
      var token := Token(answer.granted.value, c.integration.credentials);
      UpdateKeepsCurrent(s, c.id, token, answer.expiresAt, answer.loginWorks);
    }
  }

  /** Replacing the credentials of a cached type breaks it: the next refresh stores a token of the old ones. */
  lemma ReplacedCredentialsGetOldToken(t: IntegrationType, before: Credentials, after: Credentials, consent: Answer,
                                       now: int, refresh: Answer)
    requires before != after
    requires consent.granted.Some? && consent.loginWorks && now > consent.expiresAt
    requires refresh.granted.Some? && refresh.loginWorks
    ensures var consented := Take(Take(State([], map[]), AddStep(t, before)), ConsentStep(t, consent));
            var s := Take(Take(consented, AddStep(t, after)), UseStep(t, now, refresh));
            && s.records == [Integration(t, after, Some(Token(refresh.granted.value, before)), refresh.expiresAt)]
            && !TokensMatch(s)
  {
    var added := Take(State([], map[]), AddStep(t, before));
    assert added.records[0].integrationType == t && Find(added.records, t) == 0;
    var consented := Take(added, ConsentStep(t, consent));
    assert consented.records[0].integrationType == t && Find(consented.records, t) == 0;
    var replaced := Take(consented, AddStep(t, after));
    var used := Take(replaced, UseStep(t, now, refresh));
    assert used.records[0].accessToken.value.grantedTo == before;
  }

  // ---------------------------------------------------------------- each call, on the fields of records and cache

  /** Adding: new credentials and no token for the type, whichever record has it; the cache and all else stay. */
  lemma AddDoes(s: State, t: IntegrationType, credentials: Credentials, k: int)
    requires -1 <= k < |s.records|
    requires forall i :: 0 <= i < (if k < 0 then |s.records| else k) ==> s.records[i].integrationType != t
    requires k >= 0 ==> s.records[k].integrationType == t
    ensures var after := Take(s, AddStep(t, credentials));
            && after.cache == s.cache
            && (k < 0 ==> after.records == s.records + [Integration(t, credentials, None, 0)])
            && (k >= 0 ==> after.records == s.records[k := Integration(t, credentials, None, 0)])
  {
    FindIs(s.records, t, k);
  }

  lemma FindIs(records: seq<Integration>, t: IntegrationType, k: int)
    requires -1 <= k < |records|
    requires forall i :: 0 <= i < (if k < 0 then |records| else k) ==> records[i].integrationType != t
    requires k >= 0 ==> records[k].integrationType == t
    ensures Find(records, t) == k
  {
  }

  /** A stored token: granted to these credentials, cached first, in the record only if logging in works. */
  ghost predicate StoresToken(s: State, after: State, k: int, grantedTo: Credentials, answer: Answer)
    requires 0 <= k < |s.records|
  {
    && answer.granted.Some?
    && var token := Some(Token(answer.granted.value, grantedTo));
       var r := s.records[k].(accessToken := token, expiresAt := answer.expiresAt);
       && after.cache == s.cache[r.integrationType := Cached(k, r)]
       && after.records == if answer.loginWorks then s.records[k := r] else s.records
  }

  /** Consent stores a token for the credentials of the record, if there is one and DocuSign grants it. */
  lemma ConsentDoes(s: State, t: IntegrationType, answer: Answer, k: int)
    requires -1 <= k < |s.records|
    requires forall i :: 0 <= i < (if k < 0 then |s.records| else k) ==> s.records[i].integrationType != t
    requires k >= 0 ==> s.records[k].integrationType == t
    ensures var (reply, after) := AddTokenAfterConsent(s, t, answer);
            && (reply == Err(NotFound) <==> k < 0)
            && (k < 0 || answer.granted.None? ==> after == s)
            && (k >= 0 && answer.granted.Some? ==> StoresToken(s, after, k, s.records[k].credentials, answer))
            && (reply.Ok? <==> k >= 0 && answer.granted.Some? && answer.loginWorks)
  {
    FindIs(s.records, t, k);
  }

  /** Storing a token: nothing without the record; the cache always, the record only if logging in works. */
  lemma UpdateDoes(s: State, id: nat, token: Token, answer: Answer)
    requires answer.granted == Some(token.value)
    ensures var (reply, after) := Update(s, id, token, answer.expiresAt, answer.loginWorks);
            && (id >= |s.records| ==> reply == Err(NotFound) && after == s)
            && (id < |s.records| ==>
                  StoresToken(s, after, id, token.grantedTo, answer)
                  && reply == if answer.loginWorks then Ok(()) else Err(LoginFailed))
  {
  }

  /** Using a cached token: nothing happens until it expires; then one is asked for with the cached credentials. */
  lemma UseOfCachedDoes(s: State, t: IntegrationType, now: int, answer: Answer)
    requires t in s.cache && s.cache[t].integration.accessToken.Some? && s.cache[t].id < |s.records|
    ensures var c, (reply, after) := s.cache[t], PreCheck(s, t, now, answer);
            && (now <= c.integration.expiresAt ==> reply.Ok? && after == s)
            && (now > c.integration.expiresAt && answer.granted.None? ==> reply == Err(NotGranted) && after == s)
            && (now > c.integration.expiresAt && answer.granted.Some? ==>
                  && StoresToken(s, after, c.id, c.integration.credentials, answer)
                  && (reply.Ok? <==> answer.loginWorks))
  {
  }

  /** Using a type that is not cached: its record is cached first, if it has a token. */
  lemma UseOfUncachedDoes(s: State, t: IntegrationType, now: int, answer: Answer, k: int)
    requires t in s.cache ==> s.cache[t].integration.accessToken.None?
    requires -1 <= k < |s.records|
    requires forall i :: 0 <= i < (if k < 0 then |s.records| else k) ==> s.records[i].integrationType != t
    requires k >= 0 ==> s.records[k].integrationType == t
    ensures var (reply, after) := PreCheck(s, t, now, answer);
            && (k < 0 || s.records[k].accessToken.None? ==> reply == Err(NotConfigured) && after == s)
            && (k >= 0 && s.records[k].accessToken.Some? ==>
                  (reply, after) == PreCheck(s.(cache := s.cache[t := Cached(k, s.records[k])]), t, now, answer))
  {
    FindIs(s.records, t, k);
  }
}
