/** What the two handlers promise their callers, stated over all inputs, and a short
    session of requests worked through. */
module UserControllerProperties {
  import opened Wrappers
  import opened JsString
  import opened EmailFormat
  import opened Tokens
  import opened Pipeline
  import opened UserController
  import opened UserControllerSteps

  /** The registration body passes the three input checks. */
  predicate PassesValidation(body: RegisterBody) {
    && Truthy(body.name) && Truthy(body.email) && Truthy(body.password)
    && IsValidEmail(body.email.value)
    && Utf16Length(body.password.value) >= MinPasswordLength
  }

  /** The input checks run in a fixed order, each failure answers 400 with its own
      message, and none of them calls anything or touches the store. */
  lemma RegistrationValidationOrder(body: RegisterBody, store: Store, calls: Collaborators)
    ensures var r := CreateUser(body, store, calls);
            var present := Truthy(body.name) && Truthy(body.email) && Truthy(body.password);
            && (!present ==> r == Stop(400, MsgFieldsRequired, store, []))
            && (present && !IsValidEmail(body.email.value) ==> r == Stop(400, MsgInvalidEmail, store, []))
            && (present && IsValidEmail(body.email.value) && Utf16Length(body.password.value) < 8
                ==> r == Stop(400, MsgPasswordTooShort, store, []))
            && (r.effects == [] <==> !PassesValidation(body))
  {
  }

  /** A password of exactly eight code units passes the length check; seven do not. */
  lemma PasswordLengthBoundary(name: string, email: string, password: string, store: Store, calls: Collaborators)
    requires name != "" && IsValidEmail(email)
    ensures var r := CreateUser(RegisterBody(Some(name), Some(email), Some(password)), store, calls);
            && (Utf16Length(password) == 8 ==> r.outcome != Next(Failure(400, MsgPasswordTooShort)) && r.effects != [])
            && (Utf16Length(password) == 7 ==> r == Stop(400, MsgPasswordTooShort, store, []))
  {
  }

  /** The lookup: an error answers 500, a known email answers 409, and in both cases the
      password is never hashed and no account is created. */
  lemma RegistrationLookup(body: RegisterBody, store: Store, calls: Collaborators)
    requires PassesValidation(body)
    ensures var r := CreateUser(body, store, calls);
            var email := body.email.value;
            && (calls.findOne.Throws? ==> r == Stop(500, MsgLookupFailed, store, [FindOne(email)]))
            && (calls.findOne.Returns? && email in store ==> r == Stop(409, MsgUserExists, store, [FindOne(email)]))
  {
  }

  /** The account is created from the submitted name and email and the hash output in
      place of the password, and a failing create answers 500, never 409. */
  lemma RegistrationCreate(body: RegisterBody, store: Store, calls: Collaborators)
    requires PassesValidation(body)
    requires calls.findOne.Returns? && body.email.value !in store
    ensures var r := CreateUser(body, store, calls);
            var name, email, password := body.name.value, body.email.value, body.password.value;
            && (calls.hash.Throws? ==> r == Stop(500, MsgHashFailed, store, [FindOne(email), HashPassword(password)]))
            && (calls.hash.Returns? ==>
                  && CreateAccount(name, email, calls.hash.value) in r.effects
                  && (calls.create.Throws? ==>
                        r == Stop(500, MsgCreateFailed, store,
                                  [FindOne(email), HashPassword(password), CreateAccount(name, email, calls.hash.value)])))
  {
  }

  /** A 409 only ever comes from the lookup finding the email already stored. */
  lemma ConflictOnlyFromLookup(body: RegisterBody, store: Store, calls: Collaborators)
    ensures var r := CreateUser(body, store, calls);
            r.outcome == Next(Failure(409, MsgUserExists)) <==>
              PassesValidation(body) && calls.findOne.Returns? && body.email.value in store
  {
  }

  /** A successful registration answers 201, adds exactly one account, made every planned
      call, and its token names the new account and lasts seven days. */
  lemma RegistrationSuccess(body: RegisterBody, store: Store, calls: Collaborators)
    ensures var r := CreateUser(body, store, calls);
            r.outcome.Respond? ==>
              && PassesValidation(body) && body.email.value !in store
              && r.outcome.status == 201
              && r.outcome.body.message == MsgCreated
              && |r.store| == |store| + 1
              && r.effects == RegistrationPlan(body, calls)
              && r.outcome.body.accessToken.sub == calls.create.value
              && r.outcome.body.accessToken.exp - r.outcome.body.accessToken.iat == TokenLifetime
  {
  }

  /** If signing fails after the account was created, the answer is 500 but the account
      stays: nothing is rolled back. */
  lemma SignFailureKeepsAccount(body: RegisterBody, store: Store, calls: Collaborators)
    requires PassesValidation(body)
    requires calls.findOne.Returns? && body.email.value !in store
    requires calls.hash.Returns? && calls.create.Returns? && calls.sign.Throws?
    ensures var r := CreateUser(body, store, calls);
            var email := body.email.value;
            && r.outcome == Next(Failure(500, MsgSignFailed))
            && r.store == store[email := Account(calls.create.value, body.name.value, email, calls.hash.value)]
            && |r.store| == |store| + 1
  {
  }

  /** The registration table only ever adds calls from one step to the next. */
  lemma RegistrationChecksGrow(body: RegisterBody, store: Store, calls: Collaborators)
    ensures Growing(RegistrationChecks(body, store, calls))
  {
  }

  /** Whatever registration calls is a prefix of the plan `findOne`, `hash`, `create`,
      `sign`: it never skips a step and never goes on after a failure. */
  lemma RegistrationCallsFollowPlan(body: RegisterBody, store: Store, calls: Collaborators)
    ensures CreateUser(body, store, calls).effects <= RegistrationPlan(body, calls)
  {
    var cs := RegistrationChecks(body, store, calls);
    RegistrationChecksGrow(body, store, calls);
    RunCallsPrefix(cs, []);
    CreateUserFollowsChecks(body, store, calls);
  }

  /** Login checks presence, then lookup, then the password, then signs; each failure
      has its own status, and only presence of the fields is checked. */
  lemma LoginOrder(body: LoginBody, store: Store, calls: Collaborators)
    ensures var r := LoginUser(body, store, calls);
            var present := Truthy(body.email) && Truthy(body.password);
            var email := OrEmpty(body.email);
            && (!present ==> r == Stop(400, MsgFieldsRequired, store, []))
            && (present && calls.findOne.Throws? ==> r == Stop(500, MsgDatabaseError, store, [FindOne(email)]))
            && (present && calls.findOne.Returns? && email !in store ==> r == Stop(404, MsgUserNotFound, store, [FindOne(email)]))
            && (present && calls.findOne.Returns? && email in store ==>
                  && (calls.compare.Throws? ==> r.outcome == Next(Failure(500, MsgCompareFailed)))
                  && (calls.compare == Returns(false) ==> r.outcome == Next(Failure(401, MsgInvalidCredentials)))
                  && (calls.compare == Returns(true) && calls.sign.Throws? ==> r.outcome == Next(Failure(500, MsgLoginSignFailed))))
  {
  }

  /** Login succeeds exactly when both fields are present, the lookup finds the email,
      the password matches and signing works; the email's format and the password's
      length play no part. The token names the stored account and lasts seven days. */
  lemma LoginSuccess(body: LoginBody, store: Store, calls: Collaborators)
    ensures var r := LoginUser(body, store, calls);
            && (r.outcome.Respond? <==>
                  && Truthy(body.email) && Truthy(body.password)
                  && calls.findOne.Returns? && body.email.value in store
                  && calls.compare == Returns(true) && calls.sign.Returns?)
            && (r.outcome.Respond? ==>
                  && r.outcome.status == 200
                  && r.outcome.body.message == MsgLoggedIn
                  && r.outcome.body.accessToken == Issue(store[body.email.value].id, calls.sign.value)
                  && r.effects == LoginPlan(body, store))
  {
  }

  /** A stored email the registration check would refuse, with a one-letter password,
      still logs in. */
  lemma LoginSkipsFormatChecks()
    ensures var store := map["abc" := Account("u1", "Al", "abc", "h")];
            var calls := Collaborators(Returns(()), Throws, Throws, Returns(true), Returns(0));
            && !IsValidEmail("abc") && Utf16Length("x") < MinPasswordLength
            && LoginUser(LoginBody(Some("abc"), Some("x")), store, calls).outcome.Respond?
  {
    Examples();
  }

  /** Registering, registering again, and three logins against one store. */
  lemma Session()
    ensures var calls := Collaborators(Returns(()), Returns("h1"), Returns("id1"), Returns(true), Returns(1000));
            var first := CreateUser(RegisterBody(Some("Ann"), Some("ann@x.com"), Some("password1")), map[], calls);
            var ann := Account("id1", "Ann", "ann@x.com", "h1");
            && first.outcome == Respond(201, Body(Claims("id1", 1000, 1000 + 604800), MsgCreated))
            && first.store == map["ann@x.com" := ann]
            && CreateUser(RegisterBody(Some("Ann2"), Some("ann@x.com"), Some("password2")), first.store, calls)
               == Stop(409, MsgUserExists, first.store, [FindOne("ann@x.com")])
            && LoginUser(LoginBody(Some("ann@x.com"), Some("password1")), first.store, calls).outcome
               == Respond(200, Body(Claims("id1", 1000, 1000 + 604800), MsgLoggedIn))
            && LoginUser(LoginBody(Some("ann@x.com"), Some("wrongpass")), first.store, calls.(compare := Returns(false))).outcome
               == Next(Failure(401, MsgInvalidCredentials))
            && LoginUser(LoginBody(Some("ghost@x.com"), Some("whatever")), first.store, calls).outcome
               == Next(Failure(404, MsgUserNotFound))
            && CreateUser(RegisterBody(Some(""), Some(""), Some("")), first.store, calls)
               == Stop(400, MsgFieldsRequired, first.store, [])
  {
    assert Split("ann@x.com", 3, 5);
  }
}
