/**
 * The client's session store: whether someone is signed in, the access
 * token it holds and the profile shown. Every action replaces only the
 * fields it names.
 */
module AuthStore {
  import opened Wrappers

  /** The profile the client keeps of the signed-in user. */
  datatype Profile = Profile(id: string, nome: string, email: string, verificado: bool)

  datatype AuthState = AuthState(isAuthenticated: bool, accessToken: Option<string>, user: Option<Profile>)

  datatype Action =
    | Login(token: string, profile: Profile)
    | Logout
    | SetUser(user: Option<Profile>)
    | SetAccessToken(newToken: Option<string>)

  /** The state before any action: signed out, no token, no profile. */
  const Initial: AuthState := AuthState(false, None, None)

  /** One action's effect on the store. */
  function Step(s: AuthState, a: Action): (r: AuthState)
    ensures a.Login? ==> r.isAuthenticated && r.accessToken == Some(a.token) && r.user == Some(a.profile)
    ensures a.Logout? ==> r == Initial
    ensures a.SetUser? ==> r.user == a.user && r.isAuthenticated == s.isAuthenticated && r.accessToken == s.accessToken
    ensures a.SetAccessToken? ==> r.accessToken == a.newToken && r.isAuthenticated == s.isAuthenticated && r.user == s.user
  {
    match a
    case Login(token, profile) => AuthState(true, Some(token), Some(profile))
    case Logout => AuthState(false, None, None)
    case SetUser(user) => s.(user := user)
    case SetAccessToken(t) => s.(accessToken := t)
  }

  /** The store after the actions in order, the last one applied last. */
  function Run(s: AuthState, acts: seq<Action>): AuthState
    decreases |acts|
  {
    if |acts| == 0 then s else Step(Run(s, acts[..|acts| - 1]), acts[|acts| - 1])
  }

  /** The action at `i` is a `login` that no later `logout` undoes. */
  predicate LoginStands(acts: seq<Action>, i: int) {
    0 <= i < |acts| && acts[i].Login? && forall j :: i < j < |acts| ==> !acts[j].Logout?
  }

  predicate NoLogout(acts: seq<Action>) {
    forall j :: 0 <= j < |acts| ==> !acts[j].Logout?
  }

  /**
   * Only `login` and `logout` move the signed-in flag: after any run the
   * store is signed in exactly when some `login` is not followed by a
   * `logout`, or, with no `logout` at all, when it started signed in.
   */
  lemma {:induction false} SignedInIffLoginSinceLogout(s: AuthState, acts: seq<Action>)
    ensures Run(s, acts).isAuthenticated <==>
              (exists i :: LoginStands(acts, i)) || (s.isAuthenticated && NoLogout(acts))
  {
    if |acts| > 0 {
      var n := |acts| - 1;
      var front := acts[..n];
      SignedInIffLoginSinceLogout(s, front);
      assert forall j :: 0 <= j < n ==> front[j] == acts[j];
      var a := acts[n];
      if a.Login? {
        assert LoginStands(acts, n);
      } else if a.Logout? {
        forall i | 0 <= i < |acts|
          ensures !LoginStands(acts, i)
        {
          assert i < n ==> acts[n].Logout?;
        }
        assert !NoLogout(acts) by {
          assert acts[n].Logout?;
        }
      } else {
        forall i | 0 <= i < n
          ensures LoginStands(front, i) <==> LoginStands(acts, i)
        {
        }
        assert !LoginStands(acts, n);
        if exists i :: LoginStands(acts, i) {
          var i :| LoginStands(acts, i);
          assert LoginStands(front, i);
        }
        assert NoLogout(front) <==> NoLogout(acts);
      }
    }
  }

  /** `logout` forgets everything, whatever came before. */
  lemma LogoutForgets(s: AuthState, acts: seq<Action>)
    requires |acts| > 0 && acts[|acts| - 1].Logout?
    ensures Run(s, acts) == Initial
  {
  }

  /**
   * The flag and the token are set independently: `setAccessToken(null)`
   * leaves a signed-in store without a token, and `setUser(null)` one
   * without a profile.
   */
  lemma SignedInWithoutToken(token: string, p: Profile)
    ensures Run(Initial, [Login(token, p), SetAccessToken(None)]) == AuthState(true, None, Some(p))
    ensures Run(Initial, [Login(token, p), SetUser(None)]) == AuthState(true, Some(token), None)
  {
  }
}
