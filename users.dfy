/** The user table of `UsersService`: records as loaded from the users file, first-match
    lookups, the object-spread merge `update` performs, and the password-free listing. */
module Users {
  import opened Wrappers
  import opened Seqs

  datatype Role = Admin | Technician | Viewer

  /** A property that may be missing from the record, present with `null`, or present with a value. */
  datatype Slot<+T> = Absent | Null | Present(value: T)

  datatype User = User(
    id: string,
    username: string,
    password: string,
    name: string,
    role: Role,
    email: string,
    photo: Option<string>,
    resetToken: Slot<string>,
    resetTokenExpiry: Slot<int>)

  /** A user record with its `password` property removed. */
  datatype PublicUser = PublicUser(
    id: string,
    username: string,
    name: string,
    role: Role,
    email: string,
    photo: Option<string>,
    resetToken: Slot<string>,
    resetTokenExpiry: Slot<int>)

  /** A `Partial<User>`: `None`/`Absent` is a property the object does not have. */
  datatype UserPatch = UserPatch(
    id: Option<string>,
    username: Option<string>,
    password: Option<string>,
    name: Option<string>,
    role: Option<Role>,
    email: Option<string>,
    photo: Option<string>,
    resetToken: Slot<string>,
    resetTokenExpiry: Slot<int>)

  const NoChange := UserPatch(None, None, None, None, None, None, None, Absent, Absent)

  // ---------------------------------------------------------------- records

  /** `{ ...u, ...patch }`: every property the patch has overrides, every other one is kept. */
  function Merge(u: User, patch: UserPatch): (r: User)
    ensures patch.password.Some? ==> r.password == patch.password.value
    ensures patch.password.None? ==> r.password == u.password
    ensures r.id == (if patch.id.Some? then patch.id.value else u.id)
    ensures r.username == (if patch.username.Some? then patch.username.value else u.username)
    ensures r.resetToken == (if patch.resetToken.Absent? then u.resetToken else patch.resetToken)
    ensures r.resetTokenExpiry == (if patch.resetTokenExpiry.Absent? then u.resetTokenExpiry else patch.resetTokenExpiry)
    ensures r.name == patch.name.GetOr(u.name)
    ensures r.role == patch.role.GetOr(u.role)
    ensures r.email == patch.email.GetOr(u.email)
    ensures r.photo == if patch.photo.Some? then patch.photo else u.photo
  {
    User(
      patch.id.GetOr(u.id),
      patch.username.GetOr(u.username),
      patch.password.GetOr(u.password),
      patch.name.GetOr(u.name),
      patch.role.GetOr(u.role),
      patch.email.GetOr(u.email),
      if patch.photo.Some? then patch.photo else u.photo,
      if patch.resetToken.Absent? then u.resetToken else patch.resetToken,
      if patch.resetTokenExpiry.Absent? then u.resetTokenExpiry else patch.resetTokenExpiry)
  }

  /** The whole record seen as a partial one: the object that `update(user.id, user)` spreads. */
  function PatchOf(u: User): (p: UserPatch)
    ensures Merge(u, p) == u
    ensures forall v: User :: Merge(v, p).id == u.id && Merge(v, p).password == u.password
  {
    UserPatch(Some(u.id), Some(u.username), Some(u.password), Some(u.name), Some(u.role),
              Some(u.email), u.photo, u.resetToken, u.resetTokenExpiry)
  }

  /** Spreading an empty object changes nothing. */
  lemma MergeNoChange(u: User)
    ensures Merge(u, NoChange) == u
  {
  }

  /** Spreading the same object twice is spreading it once. */
  lemma MergeIdempotent(u: User, patch: UserPatch)
    ensures Merge(Merge(u, patch), patch) == Merge(u, patch)
  {
  }

  /** Spreading a whole record over any record yields that record, except that an optional
      property the spread record lacks is kept from the target. */
  lemma MergeWhole(v: User, u: User)
    ensures Merge(v, PatchOf(u)) == u.(
      photo := if u.photo.Some? then u.photo else v.photo,
      resetToken := if u.resetToken.Absent? then v.resetToken else u.resetToken,
      resetTokenExpiry := if u.resetTokenExpiry.Absent? then v.resetTokenExpiry else u.resetTokenExpiry)
    ensures Merge(u, PatchOf(u)) == u
  {
  }

  /** `const { password, ...rest } = u`. */
  function Strip(u: User): (r: PublicUser)
    ensures WithPassword(r, u.password) == u
  {
    PublicUser(u.id, u.username, u.name, u.role, u.email, u.photo, u.resetToken, u.resetTokenExpiry)
  }

  /** Puts a password back on a public record. */
  function WithPassword(p: PublicUser, password: string): (r: User)
  {
    User(p.id, p.username, password, p.name, p.role, p.email, p.photo, p.resetToken, p.resetTokenExpiry)
  }

  /** Putting any password on a public record and removing it again gives the public record. */
  lemma StripRoundTrip(p: PublicUser, password: string)
    ensures Strip(WithPassword(p, password)) == p
  {
  }

  // ---------------------------------------------------------------- lookups

  ghost predicate UniqueUserIds(users: seq<User>) {
    forall i, j :: 0 <= i < j < |users| ==> users[i].id != users[j].id
  }

  ghost predicate UniqueUsernames(users: seq<User>) {
    forall i, j :: 0 <= i < j < |users| ==> users[i].username != users[j].username
  }

  function HasUserId(id: string): User -> bool {
    (u: User) => u.id == id
  }

  function HasUsername(username: string): User -> bool {
    (u: User) => u.username == username
  }

  function HasEmail(email: string): User -> bool {
    (u: User) => u.email == email
  }

  /** `u.resetToken === token`: only a present string equal to the token matches. */
  function HoldsToken(token: string): User -> bool {
    (u: User) => u.resetToken == Present(token)
  }

  /** `users.find(p)`. */
  function Find(users: seq<User>, p: User -> bool): (r: Option<User>)
    ensures r.None? <==> forall i :: 0 <= i < |users| ==> !p(users[i])
    ensures r.Some? ==> exists k :: IsFirstMatch(users, p, k) && r.value == users[k]
  {
    match FindFirst(users, p)
    case None => None
    case Some(k) => Some(users[k])
  }

  /** `findByUsername`. */
  function FindByUsername(users: seq<User>, username: string): (r: Option<User>)
    ensures r.None? <==> forall i :: 0 <= i < |users| ==> users[i].username != username
    ensures r.Some? ==> r.value.username == username && exists k ::
      0 <= k < |users| && users[k] == r.value && forall j :: 0 <= j < k ==> users[j].username != username
  {
    var r := Find(users, HasUsername(username));
    assert r.Some? ==> exists k :: IsFirstMatch(users, HasUsername(username), k) && r.value == users[k];
    r
  }

  /** `findByEmail`. */
  function FindByEmail(users: seq<User>, email: string): (r: Option<User>)
    ensures r.None? <==> forall i :: 0 <= i < |users| ==> users[i].email != email
    ensures r.Some? ==> r.value.email == email && exists k ::
      0 <= k < |users| && users[k] == r.value && forall j :: 0 <= j < k ==> users[j].email != email
  {
    var r := Find(users, HasEmail(email));
    assert r.Some? ==> exists k :: IsFirstMatch(users, HasEmail(email), k) && r.value == users[k];
    r
  }

  /** `findByResetToken`: a user whose token is missing or `null` never matches. */
  function FindByResetToken(users: seq<User>, token: string): (r: Option<User>)
    ensures r.None? <==> forall i :: 0 <= i < |users| ==> users[i].resetToken != Present(token)
    ensures r.Some? ==> r.value.resetToken == Present(token) && exists k ::
      0 <= k < |users| && users[k] == r.value && forall j :: 0 <= j < k ==> users[j].resetToken != Present(token)
  {
    var r := Find(users, HoldsToken(token));
    assert r.Some? ==> exists k :: IsFirstMatch(users, HoldsToken(token), k) && r.value == users[k];
    r
  }

  // ---------------------------------------------------------------- update and listing

  /** The table `update(id, patch)` leaves: the record at the first index with the id is merged
      with the patch; with no such index the table is unchanged. */
  function UpdateTable(users: seq<User>, id: string, patch: UserPatch): (r: seq<User>)
    ensures |r| == |users|
    ensures (forall i :: 0 <= i < |users| ==> users[i].id != id) ==> r == users
    ensures forall k :: IsFirstMatch(users, HasUserId(id), k) ==>
      r == users[k := Merge(users[k], patch)]
  {
    match FindFirst(users, HasUserId(id))
    case None => users
    case Some(k) =>
      assert forall k' :: IsFirstMatch(users, HasUserId(id), k') ==> k' == k by {
        forall k' | IsFirstMatch(users, HasUserId(id), k') ensures k' == k {
          FirstMatchUnique(users, HasUserId(id), k, k');
        }
      }
      users[k := Merge(users[k], patch)]
  }

  /** Every record of the updated table is the old one, or is the merge at the first index with
      the id. */
  lemma UpdateTableShape(users: seq<User>, id: string, patch: UserPatch, i: int)
    requires 0 <= i < |users|
    ensures UpdateTable(users, id, patch)[i] == users[i] ||
      (IsFirstMatch(users, HasUserId(id), i) && UpdateTable(users, id, patch)[i] == Merge(users[i], patch))
  {
    match FindFirst(users, HasUserId(id))
    case None =>
    case Some(k) =>
  }

  /** `findAll`: the table with every password removed, in table order. */
  function FindAll(users: seq<User>): (r: seq<PublicUser>)
    ensures |r| == |users|
  {
    seq(|users|, i requires 0 <= i < |users| => Strip(users[i]))
  }

  /** The listing loses nothing but the passwords, and in particular still carries each user's
      reset token and its expiry. */
  lemma FindAllHidesOnlyPasswords(users: seq<User>, i: int)
    requires 0 <= i < |users|
    ensures WithPassword(FindAll(users)[i], users[i].password) == users[i]
    ensures FindAll(users)[i].resetToken == users[i].resetToken
    ensures FindAll(users)[i].resetTokenExpiry == users[i].resetTokenExpiry
  {
  }

  // ---------------------------------------------------------------- the service

  class UsersService {
    var users: seq<User>

    /** `loadUsers`: the parsed users file, or an empty table when the file does not exist. */
    constructor (stored: Option<seq<User>>)
      ensures users == stored.GetOr([])
    {
      users := if stored.Some? then stored.value else [];
    }

    /** `update`: merges `patch` into the record at the first index with `id` and returns the
        merged record; an unknown id returns nothing and leaves the table alone. */
    method Update(id: string, patch: UserPatch) returns (r: Option<User>)
      modifies this
      ensures users == UpdateTable(old(users), id, patch)
      ensures r.None? <==> forall i :: 0 <= i < |old(users)| ==> old(users)[i].id != id
      ensures r.Some? ==> exists k ::
        IsFirstMatch(old(users), HasUserId(id), k) && r.value == users[k] == Merge(old(users)[k], patch)
    {
      var index := FindFirst(users, HasUserId(id));
      if index.None? {
        return None;
      }
      var k := index.value;
      users := users[k := Merge(users[k], patch)];
      return Some(users[k]);
    }
  }
}
