/**
 * The `User` collection the auth controller and the profile route read and write:
 * documents in insertion order, each with a unique `_id`.
 */
module UserStore {
  import opened Common

  /** A stored user document; `password` holds the bcrypt hash. */
  datatype UserRecord = UserRecord(id: UserId, username: string, email: string, password: string)

  /** A user document as `.select('-password')` returns it. */
  datatype PublicUser = PublicUser(id: UserId, username: string, email: string)

  /** The projection that drops the password field and keeps every other field. */
  function WithoutPassword(u: UserRecord): (p: PublicUser)
    ensures p.id == u.id && p.username == u.username && p.email == u.email
  {
    PublicUser(u.id, u.username, u.email)
  }

  /** `User.findOne({ email })`: the first document with that email, if any. */
  function FindByEmail(users: seq<UserRecord>, email: string): (r: Option<UserRecord>)
    ensures r.None? <==> forall k :: 0 <= k < |users| ==> users[k].email != email
    ensures r.Some? ==> r.value in users && r.value.email == email
  {
    if |users| == 0 then None
    else if users[0].email == email then Some(users[0])
    else FindByEmail(users[1..], email)
  }

  /** `User.findById(id)`. */
  function FindById(users: seq<UserRecord>, id: UserId): (r: Option<UserRecord>)
    ensures r.None? <==> forall k :: 0 <= k < |users| ==> users[k].id != id
    ensures r.Some? ==> r.value in users && r.value.id == id
  {
    if |users| == 0 then None
    else if users[0].id == id then Some(users[0])
    else FindById(users[1..], id)
  }

  /** Looking an email up after one more document was inserted. */
  lemma {:induction false} FindByEmailAppend(users: seq<UserRecord>, rec: UserRecord, email: string)
    ensures FindByEmail(users + [rec], email)
            == if FindByEmail(users, email).Some? then FindByEmail(users, email)
               else if rec.email == email then Some(rec) else None
  {
    if |users| > 0 {
      assert (users + [rec])[1..] == users[1..] + [rec];
      FindByEmailAppend(users[1..], rec, email);
    }
  }

  /** Looking an id up after one more document was inserted. */
  lemma {:induction false} FindByIdAppend(users: seq<UserRecord>, rec: UserRecord, id: UserId)
    ensures FindById(users + [rec], id)
            == if FindById(users, id).Some? then FindById(users, id)
               else if rec.id == id then Some(rec) else None
  {
    if |users| > 0 {
      assert (users + [rec])[1..] == users[1..] + [rec];
      FindByIdAppend(users[1..], rec, id);
    }
  }

  ghost predicate UniqueIds(users: seq<UserRecord>) {
    forall i, j :: 0 <= i < j < |users| ==> users[i].id != users[j].id
  }

  ghost predicate UniqueEmails(users: seq<UserRecord>) {
    forall i, j :: 0 <= i < j < |users| ==> users[i].email != users[j].email
  }

  /** The user collection of the database. */
  class UserCollection {
    var users: seq<UserRecord>

    ghost predicate Valid()
      reads this
    {
      UniqueIds(users)
    }

    constructor ()
      ensures Valid() && users == []
    {
      users := [];
    }

    /** `new User(...).save()`: the unique index on `_id` rejects a duplicate id. */
    method Insert(u: UserRecord) returns (ok: bool)
      requires Valid()
      modifies this
      ensures Valid()
      ensures ok == FindById(old(users), u.id).None?
      ensures users == if ok then old(users) + [u] else old(users)
    {
      ok := FindById(users, u.id).None?;
      if ok {
        users := users + [u];
      }
    }
  }
}
