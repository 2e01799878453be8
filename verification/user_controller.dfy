/** The registration (`createUser`) and login (`loginUser`) request handlers, as pure
    functions from the request body, the account store and the outcome of each
    collaborator call to the response, the new store and the calls that were made. */
module UserController {
  import opened Wrappers
  import opened JsString
  import opened EmailFormat
  import opened Tokens
  import opened Pipeline

  type UserId = string

  /** A stored user. `passwordHash` is the bcrypt digest the document keeps in place of
      the password. */
  datatype Account = Account(id: UserId, name: string, email: string, passwordHash: string)

  /** The account collection, looked up by exact email. */
  type Store = map<string, Account>

  /** Every account is filed under its own email. */
  predicate KeyedByEmail(store: Store) {
    forall e :: e in store ==> store[e].email == e
  }

  /** The JSON body of a registration request; an absent field is `None`. */
  datatype RegisterBody = RegisterBody(name: Option<string>, email: Option<string>, password: Option<string>)

  /** The JSON body of a login request. */
  datatype LoginBody = LoginBody(email: Option<string>, password: Option<string>)

  /** What each collaborator call does when it is made. `findOne` only decides whether
      the lookup throws: what it finds is read from the store. The value `sign` returns
      is the clock reading, in seconds, at which the token is signed. */
  datatype Collaborators = Collaborators(
    findOne: Reply<()>,
    hash: Reply<string>,
    create: Reply<UserId>,
    compare: Reply<bool>,
    sign: Reply<int>)

  /** A collaborator call made by a flow, with its arguments. */
  datatype Effect =
    | FindOne(email: string)
    | HashPassword(password: string)
    | CreateAccount(name: string, email: string, passwordHash: string)
    | ComparePassword(password: string, passwordHash: string)
    | SignToken(sub: UserId)

  /** The error a handler passes to `next`, as built by `createHttpError(status, message)`. */
  datatype Failure = Failure(status: int, message: string)

  /** The JSON body of a successful response. It has no field for a password or digest. */
  datatype Body = Body(accessToken: Claims, message: string)

  /** How a handler ends: it answers directly, or it hands an error to `next`. */
  datatype Outcome = Respond(status: int, body: Body) | Next(error: Failure)

  /** The whole effect of handling one request. */
  datatype Handled = Handled(outcome: Outcome, store: Store, effects: seq<Effect>)

  const MinPasswordLength: int := 8

  const MsgFieldsRequired := "All fields are required"
  const MsgInvalidEmail := "Invalid email format"
  const MsgPasswordTooShort := "Password must be at least 8 characters"
  const MsgUserExists := "User already exists with this email"
  const MsgLookupFailed := "Error checking existing user"
  const MsgHashFailed := "Error hashing password"
  const MsgCreateFailed := "Error creating user"
  const MsgSignFailed := "Error generating token"
  const MsgCreated := "User created successfully"

  const MsgUserNotFound := "User not found"
  const MsgDatabaseError := "Database error occurred"
  const MsgInvalidCredentials := "Invalid credentials"
  const MsgCompareFailed := "Error during password validation"
  const MsgLoginSignFailed := "Error generating access token"
  const MsgLoggedIn := "Login successful"

  function Stop(status: int, message: string, store: Store, effects: seq<Effect>): Handled {
    Handled(Next(Failure(status, message)), store, effects)
  }

  /** The status of an outcome, whichever way it ended. */
  function StatusOf(o: Outcome): int {
    match o
    case Respond(status, _) => status
    case Next(e) => e.status
  }

  /** `createUser`: validate the body, refuse a known email, hash the password, store the
      account, then sign a token for it. */
  function CreateUser(body: RegisterBody, store: Store, calls: Collaborators): (r: Handled)
    ensures KeyedByEmail(store) ==> KeyedByEmail(r.store)
    ensures r.store == store || (Truthy(body.email) && body.email.value !in store
                                 && r.store.Keys == store.Keys + {body.email.value}
                                 && forall e :: e in store ==> r.store[e] == store[e])
    ensures r.outcome.Next? ==> r.outcome.error.status in {400, 409, 500}
    ensures r.outcome.Respond? ==> && r.outcome.status == 201
                                   && r.store != store
                                   && r.outcome.body.accessToken.sub == r.store[body.email.value].id
                                   && r.outcome.body.accessToken.exp - r.outcome.body.accessToken.iat == 604800
    ensures r.store != store ==> && calls.create.Returns? && calls.hash.Returns? && body.name.Some?
                                 && r.store[body.email.value]
                                    == Account(calls.create.value, body.name.value, body.email.value, calls.hash.value)
  {
    if !Truthy(body.name) || !Truthy(body.email) || !Truthy(body.password) then
      Stop(400, MsgFieldsRequired, store, [])
    else
      var name, email, password := body.name.value, body.email.value, body.password.value;
      if !IsValidEmail(email) then
        Stop(400, MsgInvalidEmail, store, [])
      else if Utf16Length(password) < MinPasswordLength then
        Stop(400, MsgPasswordTooShort, store, [])
      else
        var looked := [FindOne(email)];
        match calls.findOne
        case Throws => Stop(500, MsgLookupFailed, store, looked)
        case Returns(_) =>
          if email in store then
            Stop(409, MsgUserExists, store, looked)
          else
            var hashed := looked + [HashPassword(password)];
            match calls.hash
            case Throws => Stop(500, MsgHashFailed, store, hashed)
            case Returns(digest) =>
              var created := hashed + [CreateAccount(name, email, digest)];
              match calls.create
              case Throws => Stop(500, MsgCreateFailed, store, created)
              case Returns(id) =>
                var store' := store[email := Account(id, name, email, digest)];
                var signed := created + [SignToken(id)];
                match calls.sign
                case Throws => Stop(500, MsgSignFailed, store', signed)
                case Returns(now) =>
                  Handled(Respond(201, Body(Issue(id, now), MsgCreated)), store', signed)
  }

  /** `loginUser`: find the account by email, compare the password with its digest, then
      sign a token for it. Only presence of the fields is checked. */
  function LoginUser(body: LoginBody, store: Store, calls: Collaborators): (r: Handled)
    ensures r.store == store
    ensures r.outcome.Next? ==> r.outcome.error.status in {400, 401, 404, 500}
    ensures r.outcome.Respond? ==> && r.outcome.status == 200
                                   && body.email.Some? && body.email.value in store
                                   && r.outcome.body.accessToken.sub == store[body.email.value].id
                                   && r.outcome.body.accessToken.exp - r.outcome.body.accessToken.iat == 604800
                                   && calls.compare == Returns(true)
  {
    if !Truthy(body.email) || !Truthy(body.password) then
      Stop(400, MsgFieldsRequired, store, [])
    else
      var email, password := body.email.value, body.password.value;
      var looked := [FindOne(email)];
      match calls.findOne
      case Throws => Stop(500, MsgDatabaseError, store, looked)
      case Returns(_) =>
        if email !in store then
          Stop(404, MsgUserNotFound, store, looked)
        else
          var user := store[email];
          var compared := looked + [ComparePassword(password, user.passwordHash)];
          match calls.compare
          case Throws => Stop(500, MsgCompareFailed, store, compared)
          case Returns(isMatch) =>
            if !isMatch then
              Stop(401, MsgInvalidCredentials, store, compared)
            else
              var signed := compared + [SignToken(user.id)];
              match calls.sign
              case Throws => Stop(500, MsgLoginSignFailed, store, signed)
              case Returns(now) =>
                Handled(Respond(200, Body(Issue(user.id, now), MsgLoggedIn)), store, signed)
  }
}
