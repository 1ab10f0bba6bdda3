/**
 * The account transitions composed: the paths a user's credentials take
 * through the current controller, and the replays each step shuts off.
 */
module AccountFlows {
  import opened Wrappers
  import opened JsString
  import opened Oracles
  import opened Errors
  import opened Http
  import opened LinkModel
  import opened UserModel
  import opened Accounts
  import Hex

  /** No two users hold the same reset token. */
  predicate UniqueResetToken(users: seq<User>, token: string) {
    forall i, j ::
      (0 <= i < |users| && 0 <= j < |users| &&
       users[i].resetPasswordToken == Some(token) && users[j].resetPasswordToken == Some(token)) ==> i == j
  }

  /** A user is found by e-mail at its position when no earlier user has that e-mail. */
  lemma FoundByEmailAt(users: seq<User>, i: nat, email: string)
    requires i < |users| && users[i].email == email
    requires forall j :: 0 <= j < i ==> users[j].email != email
    ensures FindByEmail(users, email) == Some(i)
  {
    var r := FindByEmail(users, email);
    if r.None? {
      assert users[i].email == email;
      assert EmailTaken(users, email);
    }
  }

  /** Under unique ids, a user is found by id exactly at its position. */
  lemma FoundByIdAt(users: seq<User>, i: nat)
    requires i < |users| && UniqueIds(users)
    ensures FindById(users, users[i].id) == Some(i)
  {
  }

  /** Replacing a user by one with the same id keeps the ids unique. */
  lemma ReplaceKeepsUniqueIds(users: seq<User>, i: nat, u: User)
    requires i < |users| && UniqueIds(users) && u.id == users[i].id
    ensures UniqueIds(Replace(users, i, u))
  {
    var r := Replace(users, i, u);
    forall a, b | 0 <= a < |r| && 0 <= b < |r| && r[a].id == r[b].id
      ensures a == b
    {
      assert r[a].id == users[a].id && r[b].id == users[b].id;
    }
  }

  /**
   * A freshly registered user is verified by the code it was sent; the code
   * is then gone, and a second verification is refused as already done.
   */
  lemma RegisterThenVerify(env: Env, users: seq<User>, req: RegisterRequest, newId: UserId, bytes: Hex.Random3, now: int, again: Option<string>)
    requires Register(env, users, req, newId, bytes, now).1.Success?
    requires Truthy(again)
    ensures var users1 := Register(env, users, req, newId, bytes, now).0;
            var v := VerifyCode(users1, req.email, Some(VerificationCode(bytes)));
            && v.1 == Success(200, VerifiedMessage, NoBody, [])
            && v.0[|users|].verificado && v.0[|users|].verificationCode.None?
            && VerifyCode(v.0, req.email, again) == (v.0, Thrown(BadRequestError(AlreadyVerifiedMessage, map[])))
  {
    var users1 := Register(env, users, req, newId, bytes, now).0;
    var email := req.email.value;
    forall j | 0 <= j < |users|
      ensures users1[j].email != email
    {
      assert users1[j] == users[j];
    }
    FoundByEmailAt(users1, |users|, email);
    var v := VerifyCode(users1, req.email, Some(VerificationCode(bytes)));
    FoundByEmailAt(v.0, |users|, email);
  }

  /** The user `FindByEmail` returns is the first one with that e-mail. */
  lemma FindByEmailIsFirst(users: seq<User>, email: string)
    requires FindByEmail(users, email).Some?
    ensures forall j :: 0 <= j < FindByEmail(users, email).value ==> users[j].email != email
  {
  }

  /**
   * After a resend, an unverified user is verified by the new code, while
   * any other code, the one sent before included, is refused.
   */
  lemma ResendThenVerify(users: seq<User>, email: string, bytes: Hex.Random3, other: string)
    requires |email| > 0 && FindByEmail(users, email).Some?
    requires !users[FindByEmail(users, email).value].verificado
    requires |other| > 0 && other != VerificationCode(bytes)
    ensures var users1 := ResendCode(users, Some(email), bytes).0;
            && VerifyCode(users1, Some(email), Some(VerificationCode(bytes))).1 == Success(200, VerifiedMessage, NoBody, [])
            && VerifyCode(users1, Some(email), Some(other)) == (users1, Thrown(BadRequestError(BadCodeMessage, map[])))
  {
    var i := FindByEmail(users, email).value;
    var users1 := ResendCode(users, Some(email), bytes).0;
    FindByEmailIsFirst(users, email);
    forall j | 0 <= j < i
      ensures users1[j].email != email
    {
      assert users1[j] == users[j];
    }
    FoundByEmailAt(users1, i, email);
  }

  /**
   * The refresh token a login stores is accepted by the refresh route (for a
   * signer whose tokens verify to the id they were signed for), until the
   * next login replaces it.
   */
  lemma LoginThenRefresh(env: Env, users: seq<User>, email: Option<string>, password: Option<string>, now: int, later: int)
    requires UniqueIds(users)
    requires Login(env, users, email, password, now).1.Success?
    requires var i := FindByEmail(users, email.value).value;
             var t := env.sign(RefreshSecret, users[i].id, now);
             |t| > 0 && |users[i].id| > 0 && env.verify(RefreshSecret, t) == Some(Claims(Some(users[i].id)))
    ensures var i := FindByEmail(users, email.value).value;
            var t := env.sign(RefreshSecret, users[i].id, now);
            Refresh(env, Login(env, users, email, password, now).0, Some(t), later) ==
              Success(200, RefreshedMessage, TokenBody(env.sign(JwtSecret, users[i].id, later), users[i].id), [])
  {
    var i := FindByEmail(users, email.value).value;
    var users1 := Login(env, users, email, password, now).0;
    ReplaceKeepsUniqueIds(users, i, users1[i]);
    FoundByIdAt(users1, i);
  }

  /** After logout, the refresh token that was presented no longer refreshes. */
  lemma LogoutThenRefreshRefused(env: Env, users: seq<User>, t: string, now: int)
    requires UniqueIds(users)
    requires Logout(users, Some(t)).1.Success?
    requires var i := FindByRefreshToken(users, t).value;
             env.verify(RefreshSecret, t) == Some(Claims(Some(users[i].id))) && |users[i].id| > 0
    ensures ThrownKind(Refresh(env, Logout(users, Some(t)).0, Some(t), now), Forbidden)
  {
    var i := FindByRefreshToken(users, t).value;
    var users1 := Logout(users, Some(t)).0;
    ReplaceKeepsUniqueIds(users, i, users1[i]);
    FoundByIdAt(users1, i);
  }

  /**
   * A reset link works inside its fifteen-minute window: the token issued by
   * `forgotPassword` at `now` resets the password at any instant before
   * `now + 15 min`, and at none from then on.
   */
  lemma ForgotThenReset(env: Env, users: seq<User>, email: Option<string>, digest: string, now: int, t: int, pw: string)
    requires ForgotPassword(users, email, digest, now).1.Success?
    requires |digest| > 0 && |pw| > 0
    requires forall j :: 0 <= j < |users| ==> users[j].resetPasswordToken != Some(digest)
    ensures var users1 := ForgotPassword(users, email, digest, now).0;
            ResetPassword(env, users1, Some(digest), Some(pw), Some(pw), t).1.Success? <==> t < now + ResetWindowMs
  {
    var i := FindByEmail(users, email.value).value;
    var users1 := ForgotPassword(users, email, digest, now).0;
    assert ResetLive(users1[i], digest, t) <==> t < now + ResetWindowMs;
    if t < now + ResetWindowMs {
      assert FindByResetToken(users1, digest, t).Some?;
    } else {
      forall j | 0 <= j < |users1|
        ensures !ResetLive(users1[j], digest, t)
      {
        if j != i {
          assert users1[j] == users[j];
        }
      }
    }
  }

  /** A reset token works once: after a successful reset it is refused, whenever it is presented. */
  lemma ResetOnlyOnce(env: Env, users: seq<User>, token: string, pw: string, now: int, later: int, pw2: string)
    requires UniqueResetToken(users, token)
    requires ResetPassword(env, users, Some(token), Some(pw), Some(pw), now).1.Success?
    requires |pw2| > 0
    ensures var users1 := ResetPassword(env, users, Some(token), Some(pw), Some(pw), now).0;
            ResetPassword(env, users1, Some(token), Some(pw2), Some(pw2), later) ==
              (users1, Thrown(BadRequestError(BadResetMessage, map[])))
  {
    var i := FindByResetToken(users, token, now).value;
    var users1 := ResetPassword(env, users, Some(token), Some(pw), Some(pw), now).0;
    forall j | 0 <= j < |users1|
      ensures !ResetLive(users1[j], token, later)
    {
      if j != i {
        assert users1[j] == users[j];
      }
    }
  }
}
