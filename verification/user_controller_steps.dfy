/** Both handlers read as lists of checks run by `Pipeline.Run`: the handler's nested
    branches and the flat list agree on every input. */
module UserControllerSteps {
  import opened Wrappers
  import opened JsString
  import opened EmailFormat
  import opened Tokens
  import opened Pipeline
  import opened UserController

  /** The calls a registration makes when nothing fails, in order. Arguments of calls
      that depend on an earlier call that threw are placeholders; such calls are never made. */
  function RegistrationPlan(body: RegisterBody, calls: Collaborators): seq<Effect> {
    var digest := if calls.hash.Returns? then calls.hash.value else "";
    var id := if calls.create.Returns? then calls.create.value else "";
    [ FindOne(OrEmpty(body.email)),
      HashPassword(OrEmpty(body.password)),
      CreateAccount(OrEmpty(body.name), OrEmpty(body.email), digest),
      SignToken(id) ]
  }

  /** The registration steps in source order, each with its pass condition, its error
      and how many planned calls have been made once it is decided. */
  function RegistrationChecks(body: RegisterBody, store: Store, calls: Collaborators): seq<Check<Failure, Effect>> {
    var email, password := OrEmpty(body.email), OrEmpty(body.password);
    var plan := RegistrationPlan(body, calls);
    [ Check(Truthy(body.name) && Truthy(body.email) && Truthy(body.password), Failure(400, MsgFieldsRequired), plan[..0]),
      Check(IsValidEmail(email), Failure(400, MsgInvalidEmail), plan[..0]),
      Check(Utf16Length(password) >= MinPasswordLength, Failure(400, MsgPasswordTooShort), plan[..0]),
      Check(calls.findOne.Returns?, Failure(500, MsgLookupFailed), plan[..1]),
      Check(email !in store, Failure(409, MsgUserExists), plan[..1]),
      Check(calls.hash.Returns?, Failure(500, MsgHashFailed), plan[..2]),
      Check(calls.create.Returns?, Failure(500, MsgCreateFailed), plan[..3]),
      Check(calls.sign.Returns?, Failure(500, MsgSignFailed), plan[..4]) ]
  }

  /** The calls a login makes when nothing fails, in order. */
  function LoginPlan(body: LoginBody, store: Store): seq<Effect> {
    var email := OrEmpty(body.email);
    var digest := if email in store then store[email].passwordHash else "";
    var id := if email in store then store[email].id else "";
    [ FindOne(email), ComparePassword(OrEmpty(body.password), digest), SignToken(id) ]
  }

  /** The login steps in source order. */
  function LoginChecks(body: LoginBody, store: Store, calls: Collaborators): seq<Check<Failure, Effect>> {
    var plan := LoginPlan(body, store);
    [ Check(Truthy(body.email) && Truthy(body.password), Failure(400, MsgFieldsRequired), plan[..0]),
      Check(calls.findOne.Returns?, Failure(500, MsgDatabaseError), plan[..1]),
      Check(OrEmpty(body.email) in store, Failure(404, MsgUserNotFound), plan[..1]),
      Check(calls.compare.Returns?, Failure(500, MsgCompareFailed), plan[..2]),
      Check(calls.compare == Returns(true), Failure(401, MsgInvalidCredentials), plan[..2]),
      Check(calls.sign.Returns?, Failure(500, MsgLoginSignFailed), plan[..3]) ]
  }

  /** A handler's outcome agrees with a run of checks: it hands on exactly the error of the
      check that stopped the run, succeeds exactly when none did, and made the same calls. */
  predicate Agrees(h: Handled, v: Verdict<Failure, Effect>) {
    && (h.outcome.Next? <==> v.failure.Some?)
    && (h.outcome.Next? ==> h.outcome.error == v.failure.value)
    && h.effects == v.effects
  }

  /** Registration stops at the first failing step with that step's status and message,
      and makes no call after it. */
  lemma CreateUserFollowsChecks(body: RegisterBody, store: Store, calls: Collaborators)
    ensures Agrees(CreateUser(body, store, calls), Run(RegistrationChecks(body, store, calls)))
  {
    var cs := RegistrationChecks(body, store, calls);
    if !cs[0].passes {
      RunStopsAtFirstFailure(cs, [], 0);
    } else if !cs[1].passes {
      RunStopsAtFirstFailure(cs, [], 1);
    } else if !cs[2].passes {
      RunStopsAtFirstFailure(cs, [], 2);
    } else {
      CreateUserPastValidation(body, store, calls);
    }
  }

  /** The part of `CreateUserFollowsChecks` where the body is well formed, so the flow
      reaches the account lookup. */
  lemma CreateUserPastValidation(body: RegisterBody, store: Store, calls: Collaborators)
    requires var cs := RegistrationChecks(body, store, calls); cs[0].passes && cs[1].passes && cs[2].passes
    ensures Agrees(CreateUser(body, store, calls), Run(RegistrationChecks(body, store, calls)))
  {
    var cs := RegistrationChecks(body, store, calls);
    if !cs[3].passes {
      RunStopsAtFirstFailure(cs, [], 3);
    } else if !cs[4].passes {
      RunStopsAtFirstFailure(cs, [], 4);
    } else if !cs[5].passes {
      RunStopsAtFirstFailure(cs, [], 5);
    } else if !cs[6].passes {
      RunStopsAtFirstFailure(cs, [], 6);
    } else if !cs[7].passes {
      RunStopsAtFirstFailure(cs, [], 7);
    } else {
      RunCompletes(cs, []);
    }
  }

  /** Login stops at the first failing step with that step's status and message, and
      makes no call after it. */
  lemma LoginUserFollowsChecks(body: LoginBody, store: Store, calls: Collaborators)
    ensures Agrees(LoginUser(body, store, calls), Run(LoginChecks(body, store, calls)))
  {
    var cs := LoginChecks(body, store, calls);
    if !cs[0].passes {
      RunStopsAtFirstFailure(cs, [], 0);
    } else if !cs[1].passes {
      RunStopsAtFirstFailure(cs, [], 1);
    } else if !cs[2].passes {
      RunStopsAtFirstFailure(cs, [], 2);
    } else if !cs[3].passes {
      RunStopsAtFirstFailure(cs, [], 3);
    } else if !cs[4].passes {
      RunStopsAtFirstFailure(cs, [], 4);
    } else if !cs[5].passes {
      RunStopsAtFirstFailure(cs, [], 5);
    } else {
      RunCompletes(cs, []);
    }
  }
}
