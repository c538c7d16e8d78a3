/** The public and profile routes as the router chains them: a rule list,
    `validate`, then the handler (`POST /signup`, `POST /signin`), and the
    gate, then `getCurrentUser` (`GET /profile`). */
module AuthRoutes {
  import opened Wrappers
  import opened JsStrings
  import opened Payload
  import opened Validators
  import opened Users
  import opened Http
  import opened Tokens
  import opened AuthValidation
  import opened AuthController
  import opened AuthMiddleware

  /** `POST /signin`: signInValidationRules, validate, signin. The handler
      reads the body the sanitizers left. */
  function SigninRoute(records: seq<UserRecord>, b: Body, lib: EmailLib, compare: Comparator, jwt: Jwt): Reply
  {
    var checked := SigninRules(b, lib);
    match Validate(checked.errors)
    case Respond(reply) => reply
    case Next => Signin(records, SigninRequestOf(checked.body), compare, jwt)
  }

  /** Behind the rules, the handler's own "Please provide a username or
      email" answer cannot happen: a request that passes validation still
      has a truthy username or email once the email is normalised, and the
      password the handler compares is the trimmed one. */
  lemma ValidatedSigninHasIdentifier(b: Body, lib: EmailLib)
    requires SigninRules(b, lib).errors == []
    ensures var q := SigninRequestOf(SigninRules(b, lib).body);
      && (Truthy(q.username) || Truthy(q.email))
      && q.password == Some(Text(Trim(ToStr(Get(b, "password")))))
  {
    SigninAccepts(b, lib);
  }

  lemma SigninRouteNeverMissesIdentifier(records: seq<UserRecord>, b: Body, lib: EmailLib,
                                         compare: Comparator, jwt: Jwt)
    ensures var r := SigninRoute(records, b, lib, compare, jwt);
      r.message != Some(NoIdentifier)
  {
    if SigninRules(b, lib).errors == [] {
      ValidatedSigninHasIdentifier(b, lib);
    }
  }

  /** What a record created behind the signup rules holds: a username of 3
      to 15 letters and digits, a normalised email, and a strong password,
      each as text. */
  lemma ValidatedSignupRecord(b: Body, lib: EmailLib, id: UserId)
    ensures var rec := NewUser(id, SignupRequestOf(SignupRules(b, lib).body));
      SignupRules(b, lib).errors == [] ==>
      && rec.username.Some? && rec.username.value.Text?
      && 3 <= |rec.username.value.s| <= 15 && IsAlphanumeric(rec.username.value.s)
      && rec.email == Some(Text(lib.normalize(SignupInputOf(b).email)))
      && rec.password.Some? && rec.password.value.Text? && StrongPassword(rec.password.value.s)
  {
    SignupAccepts(b, lib);
  }

  /** `POST /signup`: signupValidationRules, validate, signup. A request
      the rules refuse never reaches the store; one they accept is handled
      by signup on the body the sanitizers left. */
  method SignupRoute(store: UserStore, b: Body, lib: EmailLib) returns (reply: Reply)
    requires store.Valid()
    modifies store
    ensures store.Valid()
    ensures SignupRules(b, lib).errors != [] ==>
      reply == Validate(SignupRules(b, lib).errors).reply && store.records == old(store.records)
    ensures SignupRules(b, lib).errors == [] ==>
      SignupOutcome(old(store.records), old(store.nextId), SignupRules(b, lib).body, store.records, reply)
    ensures UniqueIdentifiers(old(store.records)) ==> UniqueIdentifiers(store.records)
  {
    var checked := SignupRules(b, lib);
    var outcome := Validate(checked.errors);
    if outcome.Respond? {
      return outcome.reply;
    }
    reply := Signup(store, checked.body);
  }

  /** `GET /profile`: the gate, then getCurrentUser with the id it attached. */
  function ProfileRoute(records: seq<UserRecord>, authorization: Option<string>, jwt: Jwt): Reply
  {
    match Authenticate(records, authorization, jwt)
    case Deny(reply) => reply
    case Admit(userId, _) => GetCurrentUser(records, userId)
  }

  /** Behind the gate the profile is never "not found": an admitted caller
      gets 200 with exactly the user the gate attached, and everyone else
      the gate's 401. */
  lemma ProfileRouteShowsGateUser(records: seq<UserRecord>, authorization: Option<string>, jwt: Jwt)
    ensures var g := Authenticate(records, authorization, jwt);
      var r := ProfileRoute(records, authorization, jwt);
      && (g.Admit? ==> r == Reply(200, true, None, None, Some(g.user), []))
      && (g.Deny? ==> r.status == 401 && r == g.reply)
  {
  }
}
