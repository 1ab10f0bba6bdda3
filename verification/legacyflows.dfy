/**
 * The legacy account transitions composed, as `AccountFlows` does for the
 * current controller: the paths a user's credentials take through the
 * legacy handlers, and the replays each step shuts off. The legacy user
 * routes mount register, verification, resend, login, refresh and logout;
 * `forgotPassword` and `resetPassword` are exported but mounted by no route.
 */
module LegacyFlows {
  import opened Wrappers
  import opened JsString
  import opened Oracles
  import opened Errors
  import opened Http
  import opened LinkModel
  import opened LegacyUserModel
  import opened LegacyAccounts
  import A = Accounts
  import Hex

  /** Every stored legacy user has its own `_id`. */
  predicate UniqueIds(users: seq<LegacyUser>) {
    forall i, j :: 0 <= i < |users| && 0 <= j < |users| && users[i].id == users[j].id ==> i == j
  }

  /** No two legacy users hold the same reset token. */
  predicate UniqueResetToken(users: seq<LegacyUser>, token: string) {
    forall i, j ::
      (0 <= i < |users| && 0 <= j < |users| &&
       users[i].resetPasswordToken == Some(token) && users[j].resetPasswordToken == Some(token)) ==> i == j
  }

  /** A legacy user is found by e-mail at its position when no earlier user has that e-mail. */
  lemma FoundByEmailAt(users: seq<LegacyUser>, i: nat, email: string)
    requires i < |users| && users[i].email == email
    requires forall j :: 0 <= j < i ==> users[j].email != email
    ensures FindByEmail(users, email) == Some(i)
  {
    var r := FindByEmail(users, email);
    if r.None? {
      assert users[i].email == email;
      assert EmailTaken(users, email);
    }
  }

  /** Under unique ids, a legacy user is found by id exactly at its position. */
  lemma FoundByIdAt(users: seq<LegacyUser>, i: nat)
    requires i < |users| && UniqueIds(users)
    ensures FindById(users, users[i].id) == Some(i)
  {
  }

  /** Changing one user but not its id keeps the ids unique. */
  lemma UpdateKeepsUniqueIds(users: seq<LegacyUser>, i: nat, u: LegacyUser)
    requires i < |users| && UniqueIds(users) && u.id == users[i].id
    ensures UniqueIds(users[i := u])
  {
    var r := users[i := u];
    forall a, b | 0 <= a < |r| && 0 <= b < |r| && r[a].id == r[b].id
      ensures a == b
    {
      assert r[a].id == users[a].id && r[b].id == users[b].id;
    }
  }

  /**
   * A user the corrected `register` saves is verified by the code it was
   * sent; the code is then gone, and a second verification is refused as
   * already done.
   */
  lemma RegisterThenVerify(env: Env, users: seq<LegacyUser>, req: A.RegisterRequest, newId: UserId, bytes: Hex.Random3,
                           now: int, again: Option<string>)
    requires Register(env, users, req, newId, bytes, now).1.Success?
    requires Truthy(again)
    ensures var users1 := Register(env, users, req, newId, bytes, now).0;
            var v := VerifyCode(users1, req.email, Some(A.VerificationCode(bytes)));
            && v.1 == Success(200, A.VerifiedMessage, NoBody, [])
            && v.0[|users|].verificado && v.0[|users|].verificationCode.None?
            && VerifyCode(v.0, req.email, again) == (v.0, Reply(400, A.AlreadyVerifiedMessage))
  {
    var users1 := Register(env, users, req, newId, bytes, now).0;
    var email := req.email.value;
    forall j | 0 <= j < |users|
      ensures users1[j].email != email
    {
      assert users1[j] == users1[..|users|][j] == users[j];
    }
    FoundByEmailAt(users1, |users|, email);
    var v := VerifyCode(users1, req.email, Some(A.VerificationCode(bytes)));
    FoundByEmailAt(v.0, |users|, email);
  }

  /**
   * After a resend, an unverified legacy user is verified by the new code,
   * while any other code, the one sent before included, is refused.
   */
  lemma ResendThenVerify(users: seq<LegacyUser>, email: string, bytes: Hex.Random3, other: string)
    requires |email| > 0 && FindByEmail(users, email).Some?
    requires !users[FindByEmail(users, email).value].verificado
    requires |other| > 0 && other != A.VerificationCode(bytes)
    ensures var users1 := ResendCode(users, Some(email), bytes).0;
            && VerifyCode(users1, Some(email), Some(A.VerificationCode(bytes))).1 == Success(200, A.VerifiedMessage, NoBody, [])
            && VerifyCode(users1, Some(email), Some(other)) == (users1, Reply(400, A.BadCodeMessage))
  {
    var i := FindByEmail(users, email).value;
    var users1 := ResendCode(users, Some(email), bytes).0;
    assert forall j :: 0 <= j < i ==> users[j].email != email;
    forall j | 0 <= j < i
      ensures users1[j].email != email
    {
      assert users1[j] == users[j];
    }
    FoundByEmailAt(users1, i, email);
  }

  /** After logout, the refresh token that was presented no longer refreshes. */
  lemma LogoutThenRefreshRefused(env: Env, users: seq<LegacyUser>, t: string, expired: bool, now: int)
    requires UniqueIds(users)
    requires Logout(users, Some(t)).1.Success?
    requires var i := FindByRefreshToken(users, t).value;
             env.verify(RefreshSecret, t) == Some(Claims(Some(users[i].id))) && |users[i].id| > 0
    ensures Refresh(env, Logout(users, Some(t)).0, Some(t), expired, now) == Reply(403, A.BadRefreshMessage)
  {
    var i := FindByRefreshToken(users, t).value;
    var users1 := Logout(users, Some(t)).0;
    UpdateKeepsUniqueIds(users, i, users1[i]);
    FoundByIdAt(users1, i);
  }

  /**
   * A legacy reset link works inside its fifteen-minute window: the token
   * `forgotPassword` stores at `now` resets the password at any instant
   * before `now + 15 min`, and at none from then on.
   */
  lemma ForgotThenReset(env: Env, users: seq<LegacyUser>, email: Option<string>, digest: string, now: int, t: int, pw: string)
    requires ForgotPassword(users, email, digest, now).1.Success?
    requires |digest| > 0 && |pw| > 0
    requires forall j :: 0 <= j < |users| ==> users[j].resetPasswordToken != Some(digest)
    ensures var users1 := ForgotPassword(users, email, digest, now).0;
            ResetPassword(env, users1, Some(digest), Some(pw), Some(pw), t).1.Success? <==> t < now + ResetWindowMs
  {
    var i := FindByEmail(users, email.value).value;
    var users1 := ForgotPassword(users, email, digest, now).0;
    assert ResetLive(users1[i], digest, t) <==> t < now + ResetWindowMs;
    if t < now + ResetWindowMs {
      assert FindByResetToken(users1, digest, t).Some?;
    } else {
      forall j | 0 <= j < |users1|
        ensures !ResetLive(users1[j], digest, t)
      {
        if j != i {
          assert users1[j] == users[j];
        }
      }
    }
  }

  /** A legacy reset token works once: presented again, it throws and is answered 500. */
  lemma ResetOnlyOnce(env: Env, users: seq<LegacyUser>, token: string, pw: string, now: int, later: int, pw2: string)
    requires UniqueResetToken(users, token)
    requires ResetPassword(env, users, Some(token), Some(pw), Some(pw), now).1.Success?
    requires |pw2| > 0
    ensures var users1 := ResetPassword(env, users, Some(token), Some(pw), Some(pw), now).0;
            ResetPassword(env, users1, Some(token), Some(pw2), Some(pw2), later) == (users1, Thrown(Uncaught(ResetFailure)))
  {
    var i := FindByResetToken(users, token, now).value;
    var users1 := ResetPassword(env, users, Some(token), Some(pw), Some(pw), now).0;
    forall j | 0 <= j < |users1|
      ensures !ResetLive(users1[j], token, later)
    {
      if j != i {
        assert users1[j] == users[j];
      }
    }
  }
}
