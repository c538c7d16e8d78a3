/** The user collection the handlers and the gate consult: the stored
    document, the password-free view of it, the two lookups, and the store
    object that `save()` appends to. */
module Users {
  import opened Wrappers
  import opened Payload

  /** A document id; Mongo's ObjectId, drawn from a counter here. */
  type UserId = nat

  /** A stored user document. `password` holds what the signup handler
      passed in; the schema hook that hashes it is not part of this model,
      and comparison goes through an abstract comparator. */
  datatype UserRecord = UserRecord(
    id: UserId,
    firstname: Field,
    lastname: Field,
    username: Field,
    email: Field,
    password: Field,
    role: Field,
    bio: Field,
    title: Field,
    experience: Field,
    socialLinks: Field,
    profileImage: Field)

  /** A user as the API shows it: every stored field except the password. */
  datatype PublicUser = PublicUser(
    id: UserId,
    firstname: Field,
    username: Field,
    lastname: Field,
    email: Field,
    role: Field,
    profileImage: Field,
    bio: Field,
    title: Field,
    experience: Field,
    socialLinks: Field)

  /** The `user` object the handlers answer with (and `select("-password")`). */
  function Sanitize(r: UserRecord): PublicUser
  {
    PublicUser(r.id, r.firstname, r.username, r.lastname, r.email, r.role,
               r.profileImage, r.bio, r.title, r.experience, r.socialLinks)
  }

  /** What the password holds never shows in the public view, and every
      other field does: two records have the same view exactly when they
      agree on everything but the password. */
  lemma SanitizeForgetsOnlyPassword(r: UserRecord, s: UserRecord)
    ensures Sanitize(r) == Sanitize(s) <==> r.(password := s.password) == s
  {
  }

  /** The position of the first record satisfying `p`, or -1. */
  function FirstWhere(records: seq<UserRecord>, p: UserRecord -> bool): (i: int)
    ensures -1 <= i < |records|
    ensures 0 <= i ==> p(records[i]) && forall j :: 0 <= j < i ==> !p(records[j])
    ensures i == -1 <==> forall j :: 0 <= j < |records| ==> !p(records[j])
  {
    if records == [] then -1
    else if p(records[0]) then 0
    else
      var j := FirstWhere(records[1..], p);
      if j < 0 then -1 else j + 1
  }

  /** `{$or: [{username}, {email}]}` restricted to the identifiers supplied. */
  predicate Matches(r: UserRecord, username: Field, email: Field)
  {
    (username.Some? && r.username == username) || (email.Some? && r.email == email)
  }

  /** `User.findOne({$or: [{username}, {email}]})`: the first matching
      record in store order, if any. */
  function FindOne(records: seq<UserRecord>, username: Field, email: Field): (found: Option<UserRecord>)
    ensures found.None? <==> forall j :: 0 <= j < |records| ==> !Matches(records[j], username, email)
    ensures found.Some? ==> found.value in records && Matches(found.value, username, email)
  {
    var i := FirstWhere(records, (r: UserRecord) => Matches(r, username, email));
    if i < 0 then None else Some(records[i])
  }

  /** Records added after a match do not change which record is first. */
  lemma {:induction false} FirstWhereAppend(records: seq<UserRecord>, more: seq<UserRecord>, p: UserRecord -> bool)
    requires FirstWhere(records, p) >= 0
    ensures FirstWhere(records + more, p) == FirstWhere(records, p)
  {
    if !p(records[0]) {
      assert (records + more)[1..] == records[1..] + more;
      FirstWhereAppend(records[1..], more, p);
    }
  }

  /** Once a lookup finds a record, records saved later never displace it. */
  lemma FindOneAppend(records: seq<UserRecord>, later: UserRecord, username: Field, email: Field)
    requires FindOne(records, username, email).Some?
    ensures FindOne(records + [later], username, email) == FindOne(records, username, email)
  {
    var p := (r: UserRecord) => Matches(r, username, email);
    FirstWhereAppend(records, [later], p);
    var i := FirstWhere(records, p);
    assert (records + [later])[i] == records[i];
  }

  /** `User.findById(id)`. */
  function FindById(records: seq<UserRecord>, id: UserId): (found: Option<UserRecord>)
    ensures found.None? <==> forall j :: 0 <= j < |records| ==> records[j].id != id
    ensures found.Some? ==> found.value in records && found.value.id == id
  {
    var i := FirstWhere(records, (r: UserRecord) => r.id == id);
    if i < 0 then None else Some(records[i])
  }

  /** No two records share a supplied username, nor a supplied email. */
  predicate UniqueIdentifiers(records: seq<UserRecord>)
  {
    forall i, j :: 0 <= i < j < |records| ==>
      (records[i].username.Some? ==> records[i].username != records[j].username) &&
      (records[i].email.Some? ==> records[i].email != records[j].email)
  }

  /** The user collection. */
  class UserStore {
    var records: seq<UserRecord>
    var nextId: UserId

    /** Ids are distinct and all below the next one handed out. */
    ghost predicate Valid()
      reads this
    {
      && (forall i :: 0 <= i < |records| ==> records[i].id < nextId)
      && (forall i, j :: 0 <= i < j < |records| ==> records[i].id != records[j].id)
    }

    constructor ()
      ensures Valid() && records == []
    {
      records := [];
      nextId := 0;
    }

    /** The id a new document receives (`new User({...})._id`). */
    method NewId() returns (id: UserId)
      requires Valid()
      modifies this
      ensures Valid() && records == old(records)
      ensures id == old(nextId) && nextId == old(nextId) + 1
      ensures forall i :: 0 <= i < |records| ==> records[i].id != id
    {
      id := nextId;
      nextId := nextId + 1;
    }

    /** `newUser.save()`: appends the document and changes nothing else. */
    method Save(rec: UserRecord)
      requires Valid()
      requires rec.id < nextId
      requires forall i :: 0 <= i < |records| ==> records[i].id != rec.id
      modifies this
      ensures Valid()
      ensures records == old(records) + [rec] && nextId == old(nextId)
    {
      records := records + [rec];
    }
  }
}
