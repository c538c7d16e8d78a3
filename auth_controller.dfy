/** The decision logic of the three auth handlers: `signup` (conflict check,
    then one insertion), `signin` (an ordered table of rejections, then a
    signed token) and `getCurrentUser` (a lookup by the caller's id). The
    store is the `UserStore` object; password comparison and token signing
    are abstract parameters. */
module AuthController {
  import opened Wrappers
  import opened Payload
  import opened Users
  import opened Http
  import opened Tokens

  // ---------------------------------------------------------------------
  // signup
  // ---------------------------------------------------------------------

  /** The fields the signup handler takes out of `req.body`. */
  datatype SignupRequest = SignupRequest(
    firstname: Field, lastname: Field, username: Field, email: Field, password: Field,
    role: Field, bio: Field, title: Field, experience: Field, socialLinks: Field,
    profileImage: Field)

  function SignupRequestOf(b: Body): SignupRequest
  {
    SignupRequest(Get(b, "firstname"), Get(b, "lastname"), Get(b, "username"), Get(b, "email"),
                  Get(b, "password"), Get(b, "role"), Get(b, "bio"), Get(b, "title"),
                  Get(b, "experience"), Get(b, "socialLinks"), Get(b, "profileImage"))
  }

  const UsernameTaken := "Username already exists"
  const EmailTaken := "Email already exists"
  const UserCreated := "User Created Successfully"

  /** The conflict message: it blames the username when the existing
      record's username is the one sent (`===`), and the email otherwise. */
  function ConflictMessage(existing: UserRecord, username: Field): string
  {
    if existing.username == username then UsernameTaken else EmailTaken
  }

  /** A conflict found by the signup lookup blames a field that really
      matched: "Username already exists" exactly when the usernames agree,
      and "Email already exists" only when the email sent is the record's. */
  lemma ConflictBlamesMatchedField(records: seq<UserRecord>, q: SignupRequest)
    requires FindOne(records, q.username, q.email).Some?
    ensures var existing := FindOne(records, q.username, q.email).value;
      && (ConflictMessage(existing, q.username) == UsernameTaken <==> existing.username == q.username)
      && (ConflictMessage(existing, q.username) == EmailTaken ==> q.email.Some? && existing.email == q.email)
  {
    var existing := FindOne(records, q.username, q.email).value;
    assert Matches(existing, q.username, q.email);
  }

  /** What `...(field && { field })` promises of an optional field: nothing
      falsy is ever stored, something is stored exactly when a truthy value
      was sent, and what is stored is the value sent. */
  predicate StoredFromSent(stored: Field, sent: Field)
  {
    && (stored.None? || Truthy(stored))
    && (Truthy(stored) <==> Truthy(sent))
    && (stored.Some? ==> stored == sent)
  }

  /** `new User({...})`: the five basic fields as sent, each optional one
      only when truthy. */
  function NewUser(id: UserId, q: SignupRequest): (r: UserRecord)
    ensures r.id == id
    ensures r.firstname == q.firstname && r.lastname == q.lastname && r.username == q.username
    ensures r.email == q.email && r.password == q.password
    ensures StoredFromSent(r.role, q.role) && StoredFromSent(r.bio, q.bio) && StoredFromSent(r.title, q.title)
    ensures StoredFromSent(r.experience, q.experience) && StoredFromSent(r.socialLinks, q.socialLinks)
    ensures StoredFromSent(r.profileImage, q.profileImage)
  {
    UserRecord(id, q.firstname, q.lastname, q.username, q.email, q.password,
               Kept(q.role), Kept(q.bio), Kept(q.title), Kept(q.experience),
               Kept(q.socialLinks), Kept(q.profileImage))
  }

  function Kept(sent: Field): (stored: Field)
    ensures stored.None? || Truthy(stored)
    ensures Truthy(stored) <==> Truthy(sent)
    ensures stored.Some? ==> stored == sent
  {
    if Truthy(sent) then sent else None
  }

  /** For every request, no optional field of the new record holds a falsy
      value: each is unset or truthy. */
  lemma NewUserNeverStoresFalsy(id: UserId, q: SignupRequest)
    ensures var r := NewUser(id, q);
      && (r.role.None? || Truthy(r.role)) && (r.bio.None? || Truthy(r.bio))
      && (r.title.None? || Truthy(r.title)) && (r.experience.None? || Truthy(r.experience))
      && (r.socialLinks.None? || Truthy(r.socialLinks))
      && (r.profileImage.None? || Truthy(r.profileImage))
  {
  }

  /** An instance: `experience: 0` and an empty bio leave those fields
      unset. */
  lemma FalsyOptionalsDropped(id: UserId, q: SignupRequest)
    requires q.experience == Some(Number(0)) && q.bio == Some(Text(""))
    ensures NewUser(id, q).experience == None && NewUser(id, q).bio == None
  {
  }

  /** Appending a record that no stored record matches by username or
      email keeps the identifiers unique. */
  lemma InsertKeepsIdentifiersUnique(records: seq<UserRecord>, rec: UserRecord)
    requires UniqueIdentifiers(records)
    requires FindOne(records, rec.username, rec.email).None?
    ensures UniqueIdentifiers(records + [rec])
  {
    var all := records + [rec];
    forall i, j | 0 <= i < j < |all|
      ensures all[i].username.Some? ==> all[i].username != all[j].username
      ensures all[i].email.Some? ==> all[i].email != all[j].email
    {
      if j == |records| {
        assert !Matches(records[i], rec.username, rec.email);
      }
    }
  }

  /** What the `signup` handler does with body `b`, from the records
      `before` (and the next free id) to the records `after` and its answer:
      a record matching the username or the email sent means a 400 and no
      change; otherwise exactly one new record is appended and the answer
      is 201 with its public view. */
  predicate SignupOutcome(before: seq<UserRecord>, nextId: UserId, b: Body,
                          after: seq<UserRecord>, reply: Reply)
  {
    var q := SignupRequestOf(b);
    var existing := FindOne(before, q.username, q.email);
    if existing.Some? then
      && reply == Failure(400, ConflictMessage(existing.value, q.username))
      && after == before
    else
      var rec := NewUser(nextId, q);
      && after == before + [rec]
      && reply == Reply(201, true, Some(UserCreated), None, Some(Sanitize(rec)), [])
  }

  /** The `signup` handler on the store object. */
  method Signup(store: UserStore, b: Body) returns (reply: Reply)
    requires store.Valid()
    modifies store
    ensures store.Valid()
    ensures SignupOutcome(old(store.records), old(store.nextId), b, store.records, reply)
    ensures UniqueIdentifiers(old(store.records)) ==> UniqueIdentifiers(store.records)
  {
    var q := SignupRequestOf(b);
    var existing := FindOne(store.records, q.username, q.email);
    if existing.Some? {
      return Failure(400, ConflictMessage(existing.value, q.username));
    }
    ghost var before := store.records;
    var id := store.NewId();
    var rec := NewUser(id, q);
    store.Save(rec);
    if UniqueIdentifiers(before) {
      InsertKeepsIdentifiersUnique(before, rec);
    }
    reply := Reply(201, true, Some(UserCreated), None, Some(Sanitize(rec)), []);
  }

  // ---------------------------------------------------------------------
  // signin
  // ---------------------------------------------------------------------

  /** The fields the signin handler takes out of `req.body`. */
  datatype SigninRequest = SigninRequest(username: Field, email: Field, password: Field)

  function SigninRequestOf(b: Body): SigninRequest
  {
    SigninRequest(Get(b, "username"), Get(b, "email"), Get(b, "password"))
  }

  /** `user.comparePassword(password)`: bcrypt against the stored hash. */
  type Comparator = (UserRecord, Field) -> bool

  const NoIdentifier := "Please provide a username or email"
  const UnknownUser := "Invalid username or email"
  const WrongPassword := "Invalid Password"
  const LoggedIn := "Login successful"

  /** The `signin` handler, in the order the source checks: no identifier
      (400), no matching record (401), a password that does not compare
      (401), and otherwise a signed token and the public view (200). */
  function Signin(records: seq<UserRecord>, q: SigninRequest, compare: Comparator, jwt: Jwt): (r: Reply)
    ensures r.success <==> r.status == 200
    ensures r.token.Some? <==> r.status == 200
    ensures r.status == 400 <==> !Truthy(q.username) && !Truthy(q.email)
    ensures r.message == Some(UnknownUser) <==>
      && (Truthy(q.username) || Truthy(q.email))
      && forall k :: 0 <= k < |records| ==> !Matches(records[k], q.username, q.email)
    ensures var found := FindOne(records, q.username, q.email);
      r.message == Some(WrongPassword) <==>
        (Truthy(q.username) || Truthy(q.email)) && found.Some? && !compare(found.value, q.password)
    ensures r.status == 200 <==>
      && (Truthy(q.username) || Truthy(q.email))
      && FindOne(records, q.username, q.email).Some?
      && compare(FindOne(records, q.username, q.email).value, q.password)
    ensures r.status == 400 ==> r == Failure(400, NoIdentifier)
    ensures r.status != 200 ==> r.user == None && r.status in {400, 401}
    ensures r.status == 200 ==>
      FindOne(records, q.username, q.email).Some? &&
      var u := FindOne(records, q.username, q.email).value;
      && u in records && Matches(u, q.username, q.email) && compare(u, q.password)
      && r.message == Some(LoggedIn)
      && r.token == Some(jwt.sign(ClaimsOf(u), TokenLifetime)) && r.user == Some(Sanitize(u))
  {
    if !Truthy(q.username) && !Truthy(q.email) then Failure(400, NoIdentifier)
    else
      match FindOne(records, q.username, q.email)
      case None => Failure(401, UnknownUser)
      case Some(user) =>
        if !compare(user, q.password) then Failure(401, WrongPassword)
        else Reply(200, true, Some(LoggedIn), Some(jwt.sign(ClaimsOf(user), TokenLifetime)),
                   Some(Sanitize(user)), [])
  }

  /** The identifier check comes before any lookup: without a username or
      an email the answer does not depend on the store. */
  lemma SigninGuardPrecedesLookup(records: seq<UserRecord>, others: seq<UserRecord>,
                                  q: SigninRequest, compare: Comparator, jwt: Jwt)
    requires !Truthy(q.username) && !Truthy(q.email)
    ensures Signin(records, q, compare, jwt) == Signin(others, q, compare, jwt) == Failure(400, NoIdentifier)
  {
  }

  /** The password is checked only against the record the lookup finds
      first: a later record that would compare does not rescue the request. */
  lemma SigninChecksFirstMatchOnly(records: seq<UserRecord>, q: SigninRequest, compare: Comparator, jwt: Jwt,
                                   later: UserRecord)
    requires Truthy(q.username) || Truthy(q.email)
    requires FindOne(records, q.username, q.email).Some?
    requires !compare(FindOne(records, q.username, q.email).value, q.password)
    ensures Signin(records + [later], q, compare, jwt) == Failure(401, WrongPassword)
  {
    FindOneAppend(records, later, q.username, q.email);
  }

  // ---------------------------------------------------------------------
  // getCurrentUser
  // ---------------------------------------------------------------------

  const UserNotFound := "User not found"

  /** The `getCurrentUser` handler for the id the gate attached: 404 when no
      record has it, otherwise 200 with that record minus its password. */
  function GetCurrentUser(records: seq<UserRecord>, userId: UserId): (r: Reply)
    ensures r.status == 404 <==> forall k :: 0 <= k < |records| ==> records[k].id != userId
    ensures r.status == 404 ==> r == Failure(404, UserNotFound)
    ensures r.status != 404 ==>
      && r.status == 200 && r.success && r.message == None && r.token == None
      && exists u :: u in records && u.id == userId && r.user == Some(Sanitize(u))
  {
    match FindById(records, userId)
    case None => Failure(404, UserNotFound)
    case Some(user) => Reply(200, true, None, None, Some(Sanitize(user)), [])
  }
}
