/**
 * The account rules of Services/userService.js: registration with unique
 * email and username, profile lookup by one field, balance and role updates,
 * and the clamped user listing. Every profile handed out omits the password
 * hash.
 *
 * The password hash is computed by bcrypt, which is not part of this model:
 * its outcome is a parameter, `None` when hashing throws.
 */
module Users {
  import opened Wrappers
  import opened Schema
  import opened Store

  /** The errors the service throws. */
  datatype UserError =
    | AlreadyExists   // 'User with this email or username already exists.'
    | HashFailed      // bcrypt threw
    | FieldRequired   // 'Field name is required'
    | UserNotFound    // 'User not found'
    | InvalidRole     // 'Invalid role. Must be one of: ADMIN, MEMBER'
    | Rejected(cause: DbError)

  /** A user as handed out: every stored field and the id, but no password hash. */
  datatype Profile = Profile(
    id: Id,
    name: Option<string>,
    username: string,
    email: string,
    googleId: Option<string>,
    role: Role,
    tokenVersion: int,
    balance: Money)

  /** The stored user behind a profile, given its password hash. */
  function WithHash(p: Profile, passwordHash: Option<string>): User
  {
    User(p.name, p.username, passwordHash, p.email, p.googleId, p.role, p.tokenVersion, p.balance)
  }

  /** `toObject()` followed by `delete passwordHash`, or `select('-passwordHash')`. */
  function ProfileOf(id: Id, u: User): (p: Profile)
    ensures p.id == id && WithHash(p, u.passwordHash) == u
  {
    Profile(id, u.name, u.username, u.email, u.googleId, u.role, u.tokenVersion, u.balance)
  }

  /** A profile reveals nothing of the password hash: two users differing only there look the same. */
  lemma ProfileHidesHash(id: Id, u: User, passwordHash: Option<string>)
    ensures ProfileOf(id, u.(passwordHash := passwordHash)) == ProfileOf(id, u)
  {
  }

  /** Some stored user already has this email or this username. */
  predicate Taken(users: map<Id, User>, username: string, email: string)
  {
    exists id :: id in users && (users[id].email == email || users[id].username == username)
  }

  /** No two stored users share a username. */
  predicate UsernamesUnique(users: map<Id, User>)
  {
    forall a, b :: a in users && b in users && a != b ==> users[a].username != users[b].username
  }

  /**
   * `registerUser`: refused when the email or the username is taken, when
   * hashing fails, or when a validator fails; otherwise a member with token
   * version 1 and balance 0 is stored and its profile returned.
   */
  method RegisterUser(db: Database, name: Option<string>, username: string, email: string,
                      passwordHash: Option<string>) returns (r: Result<Profile, UserError>)
    requires db.Valid()
    modifies db
    ensures db.Valid()
    ensures Taken(old(db.users), username, email) ==> r == Err(AlreadyExists)
    ensures !Taken(old(db.users), username, email) && passwordHash.None? ==> r == Err(HashFailed)
    ensures !Taken(old(db.users), username, email) && passwordHash.Some? && (username == "" || email == "") ==>
              r == Err(Rejected(ValidationError))
    ensures r.Ok? <==> !Taken(old(db.users), username, email) && passwordHash.Some? && username != "" && email != ""
    ensures r.Err? ==> db.users == old(db.users) && db.nextId == old(db.nextId)
    ensures r.Ok? ==> && r.value == ProfileOf(old(db.nextId), NewUser(name, username, email, passwordHash))
                      && db.users == old(db.users)[old(db.nextId) := NewUser(name, username, email, passwordHash)]
                      && db.nextId == old(db.nextId) + 1
    ensures db.books == old(db.books) && db.transactions == old(db.transactions)
    ensures UsernamesUnique(old(db.users)) ==> UsernamesUnique(db.users)
  {
    if exists id :: id in db.users && (db.users[id].email == email || db.users[id].username == username) {
      return Err(AlreadyExists);
    }
    if passwordHash.None? {
      return Err(HashFailed);
    }
    var u := NewUser(name, username, email, passwordHash);
    var saved := db.SaveUser(u);
    if saved.Err? {
      return Err(Rejected(saved.error));
    }
    r := Ok(ProfileOf(saved.value, u));
  }

  /** The value of the named field of a stored user, for the string-valued fields. */
  function FieldValue(u: User, field: string): Option<string>
  {
    if field == "username" then Some(u.username)
    else if field == "email" then Some(u.email)
    else if field == "name" then u.name
    else if field == "googleId" then u.googleId
    else if field == "passwordHash" then u.passwordHash
    else if field == "role" then Some(RoleName(u.role))
    else None
  }

  /** The query `{ [field]: value }`. */
  predicate FieldMatches(u: User, field: string, value: string)
  {
    FieldValue(u, field) == Some(value)
  }

  /**
   * `getUserProfileBy`: an empty field name is refused; otherwise the
   * profile of the first user, in natural order, whose field holds the value.
   */
  function GetUserProfileBy(users: map<Id, User>, nextId: Id, field: string, value: string): (r: Result<Option<Profile>, UserError>)
    ensures r.Err? <==> field == ""
    ensures r.Err? ==> r.error == FieldRequired
    ensures r == Ok(None) <==> field != "" && forall id :: id in users && id < nextId ==> !FieldMatches(users[id], field, value)
    ensures r.Ok? && r.value.Some? ==>
              var p := r.value.value;
              && p.id in users && p.id < nextId && p == ProfileOf(p.id, users[p.id])
              && FieldMatches(users[p.id], field, value)
              && forall id :: id in users && id < p.id ==> !FieldMatches(users[id], field, value)
  {
    if field == "" then Err(FieldRequired)
    else
      var hits := Scan(users, nextId, (u: User) => FieldMatches(u, field, value));
      if |hits| == 0 then Ok(None)
      else
        assert hits[0] in hits;
        assert forall k :: 0 <= k < |hits| ==> hits[0] <= hits[k];
        Ok(Some(ProfileOf(hits[0], users[hits[0]])))
  }

  /**
   * `updateUserFunds`: the amount, of either sign, is added to the balance of
   * an existing user.
   */
  method UpdateUserFunds(db: Database, userId: Id, amount: Money) returns (r: Result<Profile, UserError>)
    requires db.Valid()
    modifies db
    ensures db.Valid()
    ensures r.Err? <==> userId !in old(db.users)
    ensures r.Err? ==> r.error == UserNotFound && unchanged(db)
    ensures r.Ok? ==> && db.users == old(db.users)[userId := old(db.users)[userId].(balance := old(db.users)[userId].balance + amount)]
                      && r.value == ProfileOf(userId, db.users[userId])
    ensures db.books == old(db.books) && db.transactions == old(db.transactions) && db.nextId == old(db.nextId)
  {
    if userId !in db.users {
      return Err(UserNotFound);
    }
    var u := db.users[userId];
    var updated := u.(balance := u.balance + amount);
    RewriteUser(db.books, db.users, db.transactions, db.nextId, userId, updated);
    db.users := db.users[userId := updated];
    r := Ok(ProfileOf(userId, updated));
  }

  /**
   * `updateRole`: a role other than 'ADMIN' or 'MEMBER' is refused before
   * the user is looked up; an unknown user is refused; otherwise only the
   * role changes.
   */
  method UpdateRole(db: Database, userId: Id, newRole: string) returns (r: Result<Profile, UserError>)
    requires db.Valid()
    modifies db
    ensures db.Valid()
    ensures ParseRole(newRole).None? ==> r == Err(InvalidRole)
    ensures ParseRole(newRole).Some? && userId !in old(db.users) ==> r == Err(UserNotFound)
    ensures r.Ok? <==> ParseRole(newRole).Some? && userId in old(db.users)
    ensures r.Err? ==> unchanged(db)
    ensures r.Ok? ==> && db.users == old(db.users)[userId := old(db.users)[userId].(role := ParseRole(newRole).value)]
                      && r.value == ProfileOf(userId, db.users[userId])
                      && RoleName(r.value.role) == newRole
    ensures db.books == old(db.books) && db.transactions == old(db.transactions) && db.nextId == old(db.nextId)
  {
    var role := ParseRole(newRole);
    if role.None? {
      return Err(InvalidRole);
    }
    if userId !in db.users {
      return Err(UserNotFound);
    }
    var updated := db.users[userId].(role := role.value);
    RewriteUser(db.books, db.users, db.transactions, db.nextId, userId, updated);
    db.users := db.users[userId := updated];
    r := Ok(ProfileOf(userId, updated));
  }

  /** The page size of the user listing when the caller gives none. */
  const DefaultUserLimit: int := 50

  /** `Math.min(Math.max(1, limit), 100)`, with 50 for a missing limit. */
  function ClampLimit(limit: Option<int>): (n: int)
    ensures 1 <= n <= 100
    ensures limit.None? ==> n == DefaultUserLimit
    ensures limit.Some? && 1 <= limit.value <= 100 ==> n == limit.value
    ensures limit.Some? && limit.value < 1 ==> n == 1
    ensures limit.Some? && limit.value > 100 ==> n == 100
  {
    var l := match limit case None => DefaultUserLimit case Some(v) => v;
    Min(if l < 1 then 1 else l, 100)
  }

  /** Clamping keeps the order of the requested limits. */
  lemma ClampMonotone(a: int, b: int)
    requires a <= b
    ensures ClampLimit(Some(a)) <= ClampLimit(Some(b))
  {
  }

  /** Every stored user id below `nextId`, in natural order. */
  function AllIds(users: map<Id, User>, nextId: Id): seq<Id>
  {
    Scan(users, nextId, (u: User) => true)
  }

  function SkipOf(skip: Option<int>): int
  {
    match skip case None => 0 case Some(s) => s
  }

  /**
   * `getAllUsers`: the profiles of the window `skip` (0 by default),
   * clamped limit, of all users in natural order.
   */
  function GetAllUsers(users: map<Id, User>, nextId: Id, limit: Option<int>, skip: Option<int>): (r: Result<seq<Profile>, DbError>)
    ensures r.Err? <==> SkipOf(skip) < 0
    ensures r.Ok? ==> |r.value| == Min(ClampLimit(limit), |AllIds(users, nextId)| - Min(SkipOf(skip), |AllIds(users, nextId)|))
    ensures r.Ok? ==> forall i :: 0 <= i < |r.value| ==>
                        var id := AllIds(users, nextId)[Min(SkipOf(skip), |AllIds(users, nextId)|) + i];
                        id in users && r.value[i] == ProfileOf(id, users[id])
  {
    var all := AllIds(users, nextId);
    var w := Window(all, SkipOf(skip), ClampLimit(limit));
    match w
    case Err(e) => Err(e)
    case Ok(ids) =>
      assert forall i :: 0 <= i < |ids| ==> ids[i] in all;
      Ok(seq(|ids|, i requires 0 <= i < |ids| => ProfileOf(ids[i], users[ids[i]])))
  }
}
