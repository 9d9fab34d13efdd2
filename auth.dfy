/** `AuthService`: plaintext credential check and the reset-token state machine over the user
    table. The token, the clock and whether the mail went out are parameters. */
module Auth {
  import opened Wrappers
  import opened Seqs
  import opened Users

  /** The two exceptions the service throws, with their messages. */
  datatype AuthError = Unauthorized(message: string) | BadRequest(message: string)

  const InvalidCredentials := "Credenciales inválidas"
  const UserNotFound := "Usuario no encontrado"
  const MailFailed := "Error enviando correo. Revisa la configuración SMTP o utiliza Mailtrap para pruebas."
  const ResetMailSent := "Correo de recuperación enviado"
  const InvalidToken := "Token inválido o expirado"
  const PasswordUpdated := "Contraseña actualizada correctamente"

  /** One hour, in milliseconds. */
  const TokenLifetime := 3_600_000

  // ---------------------------------------------------------------- login

  /** `validateUser`: the first user with the username, without its password, when the stored
      password equals the given one; `Unauthorized` otherwise. */
  function ValidateUser(users: seq<User>, username: string, password: string): (r: Result<PublicUser, AuthError>)
    ensures r.Failure? ==> r.error == Unauthorized(InvalidCredentials)
    ensures r.Success? <==> exists k :: IsFirstMatch(users, HasUsername(username), k) && users[k].password == password
    ensures forall k :: IsFirstMatch(users, HasUsername(username), k) && r.Success? ==>
      WithPassword(r.value, password) == users[k]
  {
    match FindByUsername(users, username)
    case None => Failure(Unauthorized(InvalidCredentials))
    case Some(user) =>
      if user.password != password then Failure(Unauthorized(InvalidCredentials))
      else Success(Strip(user))
  }

  // ---------------------------------------------------------------- reset tokens

  /** The record changed in place and then passed whole to `update(user.id, user)`: the table
      with `v` at index `k`, then merged over the first record with `v`'s id. */
  function Rewrite(users: seq<User>, k: nat, v: User): (r: seq<User>)
    requires k < |users|
    ensures |r| == |users|
    ensures r[k] == v
  {
    var t := users[k := v];
    assert HasUserId(v.id)(t[k]);
    match FindFirst(t, HasUserId(v.id))
    case Some(j) =>
      assert IsFirstMatch(t, HasUserId(v.id), j);
      UpdateTable(t, v.id, PatchOf(v))
  }

  /** After a rewrite, index `k` holds `v`; any other changed record is the first one sharing
      `v`'s id, with `v` spread over it. With unique ids, only index `k` changes. */
  lemma RewriteShape(users: seq<User>, k: nat, v: User)
    requires k < |users|
    ensures Rewrite(users, k, v)[k] == v
    ensures forall i :: 0 <= i < |users| && i != k ==>
      Rewrite(users, k, v)[i] == users[i] ||
      (IsFirstMatch(users[k := v], HasUserId(v.id), i) && Rewrite(users, k, v)[i] == Merge(users[i], PatchOf(v)))
    ensures UniqueUserIds(users) && v.id == users[k].id ==> Rewrite(users, k, v) == users[k := v]
  {
    var t := users[k := v];
    assert HasUserId(v.id)(t[k]);
    match FindFirst(t, HasUserId(v.id))
    case None =>
    case Some(j) =>
      if j == k {
        MergeWhole(v, v);
      }
      if UniqueUserIds(users) && v.id == users[k].id {
        assert j == k;
        MergeWhole(v, v);
      }
  }

  /** The token and expiry `sendResetPasswordEmail` writes onto the user. */
  function Stamp(u: User, token: string, now: int): (r: User)
    ensures r.resetToken == Present(token) && r.resetTokenExpiry == Present(now + TokenLifetime)
    ensures r.(resetToken := u.resetToken, resetTokenExpiry := u.resetTokenExpiry) == u
  {
    u.(resetToken := Present(token), resetTokenExpiry := Present(now + TokenLifetime))
  }

  /** The table after `sendResetPasswordEmail(email)` at time `now` with `token`, whatever the
      mail outcome; `None` when no user has the email. */
  function IssueToken(users: seq<User>, email: string, token: string, now: int): (r: Option<seq<User>>)
    ensures r.None? <==> forall i :: 0 <= i < |users| ==> users[i].email != email
    ensures r.Some? ==> |r.value| == |users|
  {
    match FindFirst(users, HasEmail(email))
    case None => None
    case Some(e) => Some(Rewrite(users, e, Stamp(users[e], token, now)))
  }

  /** Issuing stamps the first user with the email; with unique ids it changes nothing else. */
  lemma IssueTokenStamps(users: seq<User>, email: string, token: string, now: int, e: nat)
    requires IsFirstMatch(users, HasEmail(email), e)
    ensures IssueToken(users, email, token, now) == Some(Rewrite(users, e, Stamp(users[e], token, now)))
    ensures IssueToken(users, email, token, now).value[e] == Stamp(users[e], token, now)
    ensures UniqueUserIds(users) ==>
      IssueToken(users, email, token, now).value == users[e := Stamp(users[e], token, now)]
  {
    var found := FindFirst(users, HasEmail(email));
    FirstMatchUnique(users, HasEmail(email), found.value, e);
    RewriteShape(users, e, Stamp(users[e], token, now));
  }

  /** `!user.resetTokenExpiry || user.resetTokenExpiry < Date.now()`: a missing, `null` or zero
      expiry counts as expired, as does one strictly before `now`. */
  predicate Expired(expiry: Slot<int>, now: int)
    ensures !Expired(expiry, now) <==> expiry.Present? && expiry.value != 0 && now <= expiry.value
  {
    match expiry
    case Present(t) => t == 0 || t < now
    case _ => true
  }

  /** The new password, with the token and its expiry set to `null`. */
  function Cleared(u: User, newPassword: string): (r: User)
    ensures r.password == newPassword && r.resetToken == Null && r.resetTokenExpiry == Null
    ensures r.(password := u.password, resetToken := u.resetToken, resetTokenExpiry := u.resetTokenExpiry) == u
  {
    u.(password := newPassword, resetToken := Null, resetTokenExpiry := Null)
  }

  /** The table after a successful `resetPassword(token, newPassword)` at time `now`; `None`
      when it is rejected. */
  function RedeemToken(users: seq<User>, token: string, newPassword: string, now: int): (r: Option<seq<User>>)
    ensures r.Some? <==> exists k :: IsFirstMatch(users, HoldsToken(token), k) && !Expired(users[k].resetTokenExpiry, now)
    ensures r.Some? ==> |r.value| == |users|
  {
    match FindFirst(users, HoldsToken(token))
    case None => None
    case Some(k) =>
      assert forall k' :: IsFirstMatch(users, HoldsToken(token), k') ==> k' == k by {
        forall k' | IsFirstMatch(users, HoldsToken(token), k') ensures k' == k {
          FirstMatchUnique(users, HoldsToken(token), k, k');
        }
      }
      if Expired(users[k].resetTokenExpiry, now) then None
      else Some(Rewrite(users, k, Cleared(users[k], newPassword)))
  }

  /** A reset clears the first holder of the token; with unique ids it changes nothing else. */
  lemma RedeemTokenClears(users: seq<User>, token: string, newPassword: string, now: int, k: nat)
    requires IsFirstMatch(users, HoldsToken(token), k) && !Expired(users[k].resetTokenExpiry, now)
    ensures RedeemToken(users, token, newPassword, now) == Some(Rewrite(users, k, Cleared(users[k], newPassword)))
    ensures RedeemToken(users, token, newPassword, now).value[k] == Cleared(users[k], newPassword)
    ensures UniqueUserIds(users) ==>
      RedeemToken(users, token, newPassword, now).value == users[k := Cleared(users[k], newPassword)]
  {
    var found := FindFirst(users, HoldsToken(token));
    FirstMatchUnique(users, HoldsToken(token), found.value, k);
    RewriteShape(users, k, Cleared(users[k], newPassword));
  }

  /** A freshly issued token is accepted exactly up to one hour after it was issued. */
  lemma IssuedTokenRedeemable(users: seq<User>, email: string, token: string, now: int,
                              newPassword: string, later: int)
    requires IssueToken(users, email, token, now).Some?
    requires forall i :: 0 <= i < |users| ==> users[i].resetToken != Present(token)
    requires now >= 0
    ensures RedeemToken(IssueToken(users, email, token, now).value, token, newPassword, later).Some?
      <==> later <= now + TokenLifetime
  {
    var e := FindFirst(users, HasEmail(email)).value;
    var v := Stamp(users[e], token, now);
    var t := IssueToken(users, email, token, now).value;
    IssueTokenStamps(users, email, token, now, e);
    RewriteShape(users, e, v);
    assert HoldsToken(token)(t[e]);
    var k := FindFirst(t, HoldsToken(token)).value;
    assert t[k].resetTokenExpiry == Present(now + TokenLifetime) by {
      if k != e && t[k] != users[k] {
        assert t[k] == Merge(users[k], PatchOf(v));
      }
    }
  }

  /** At most one user holds the token. */
  ghost predicate TokenHeldOnce(users: seq<User>, token: string) {
    forall i, j :: 0 <= i < j < |users| ==> users[i].resetToken != Present(token) || users[j].resetToken != Present(token)
  }

  /** A token can be used once: after a reset, the same token is rejected, provided no other
      user held it. */
  lemma TokenSingleUse(users: seq<User>, token: string, newPassword: string, now: int,
                       nextPassword: string, later: int)
    requires RedeemToken(users, token, newPassword, now).Some?
    requires TokenHeldOnce(users, token)
    ensures RedeemToken(RedeemToken(users, token, newPassword, now).value, token, nextPassword, later).None?
  {
    var k := FindFirst(users, HoldsToken(token)).value;
    var v := Cleared(users[k], newPassword);
    var t := RedeemToken(users, token, newPassword, now).value;
    RedeemTokenClears(users, token, newPassword, now, k);
    RewriteShape(users, k, v);
    forall i | 0 <= i < |t| ensures t[i].resetToken != Present(token) {
      if i != k && t[i] != users[i] {
        assert t[i] == Merge(users[i], PatchOf(v));
      }
    }
  }

  /** After a reset, logging in as the token's holder succeeds with the new password and with
      no other, provided usernames are unique. */
  lemma ResetThenLogin(users: seq<User>, token: string, newPassword: string, now: int, k: nat, password: string)
    requires IsFirstMatch(users, HoldsToken(token), k) && !Expired(users[k].resetTokenExpiry, now)
    requires UniqueUsernames(users)
    ensures ValidateUser(RedeemToken(users, token, newPassword, now).value, users[k].username, password).Success?
      <==> password == newPassword
  {
    var v := Cleared(users[k], newPassword);
    var t := RedeemToken(users, token, newPassword, now).value;
    RedeemTokenClears(users, token, newPassword, now, k);
    RewriteShape(users, k, v);
    var name := users[k].username;
    forall i | 0 <= i < |t| && t[i].username == name ensures t[i].password == newPassword {
      if i != k && t[i] != users[i] {
        assert t[i] == Merge(users[i], PatchOf(v));
      }
    }
    assert HasUsername(name)(t[k]);
    var j := FindFirst(t, HasUsername(name)).value;
    assert IsFirstMatch(t, HasUsername(name), j);
  }

  // ---------------------------------------------------------------- the service

  class AuthService {
    const usersService: UsersService

    constructor (usersService: UsersService)
      ensures this.usersService == usersService
    {
      this.usersService := usersService;
    }

    /** `sendResetPasswordEmail`: stamps the token and its expiry on the user found by email,
        stores it, and only then tries the mail; a failed mail still leaves the token stored. */
    method SendResetPasswordEmail(email: string, token: string, now: int, mailDelivered: bool)
      returns (r: Result<string, AuthError>)
      modifies usersService
      ensures IssueToken(old(usersService.users), email, token, now).None? ==>
        r == Failure(BadRequest(UserNotFound)) && usersService.users == old(usersService.users)
      ensures IssueToken(old(usersService.users), email, token, now).Some? ==>
        && usersService.users == IssueToken(old(usersService.users), email, token, now).value
        && r == if mailDelivered then Success(ResetMailSent) else Failure(BadRequest(MailFailed))
    {
      var found := FindFirst(usersService.users, HasEmail(email));
      if found.None? {
        return Failure(BadRequest(UserNotFound));
      }
      var e := found.value;
      var user := usersService.users[e];
      user := user.(resetToken := Present(token));
      usersService.users := usersService.users[e := user];
      user := user.(resetTokenExpiry := Present(now + TokenLifetime));
      usersService.users := usersService.users[e := user];
      assert usersService.users == old(usersService.users)[e := Stamp(old(usersService.users)[e], token, now)];
      var merged := usersService.Update(user.id, PatchOf(user));
      if !mailDelivered {
        return Failure(BadRequest(MailFailed));
      }
      return Success(ResetMailSent);
    }

    /** `resetPassword`: rejects an unknown or expired token; otherwise sets the new password,
        clears the token and its expiry on the holder, and stores it. */
    method ResetPassword(token: string, newPassword: string, now: int) returns (r: Result<string, AuthError>)
      modifies usersService
      ensures RedeemToken(old(usersService.users), token, newPassword, now).None? ==>
        r == Failure(BadRequest(InvalidToken)) && usersService.users == old(usersService.users)
      ensures RedeemToken(old(usersService.users), token, newPassword, now).Some? ==>
        r == Success(PasswordUpdated) &&
        usersService.users == RedeemToken(old(usersService.users), token, newPassword, now).value
    {
      var found := FindFirst(usersService.users, HoldsToken(token));
      if found.None? || Expired(usersService.users[found.value].resetTokenExpiry, now) {
        return Failure(BadRequest(InvalidToken));
      }
      var k := found.value;
      var user := usersService.users[k];
      user := user.(password := newPassword);
      usersService.users := usersService.users[k := user];
      user := user.(resetToken := Null);
      usersService.users := usersService.users[k := user];
      user := user.(resetTokenExpiry := Null);
      usersService.users := usersService.users[k := user];
      assert usersService.users == old(usersService.users)[k := Cleared(old(usersService.users)[k], newPassword)];
      var merged := usersService.Update(user.id, PatchOf(user));
      return Success(PasswordUpdated);
    }
  }
}
