/**
 * The sign-in screen (components/LoginView.tsx): the e-mail and demo-password
 * check, and the one-click sign-in for the first accounts.
 */
module Login {
  import opened Wrappers
  import opened Types
  import opened Seqs

  const InvalidCredentials: string := "Invalid credentials. Try alex.h@geminipos.com with admin123"

  /** The two demo passwords the screen accepts, for every account alike. */
  predicate AcceptedPassword(password: string) {
    password == "admin123" || password == "cashier123"
  }

  /** The screen's own state: the error line and the busy flag. */
  datatype LoginState = LoginState(error: string, isLoading: bool)

  /**
   * `handleLogin` once its delay has passed: the first account with the
   * entered e-mail is signed in when the password is one of the demo
   * passwords, and the screen stays busy; otherwise nobody is signed in, the
   * error is shown and the screen is no longer busy.
   */
  function HandleLogin(users: seq<User>, email: string, password: string): (r: (Option<User>, LoginState))
    ensures r.0.Some? <==> AcceptedPassword(password) && exists i | 0 <= i < |users| :: users[i].email == email
    ensures r.0.Some? ==> r.1 == LoginState("", true)
    ensures r.0.Some? ==> exists k | 0 <= k < |users| ::
      users[k] == r.0.value && users[k].email == email && forall j | 0 <= j < k :: users[j].email != email
    ensures r.0.None? ==> r.1 == LoginState(InvalidCredentials, false)
  {
    var user := Find(users, (u: User) => u.email == email && AcceptedPassword(password));
    if user.Some? then (user, LoginState("", true)) else (None, LoginState(InvalidCredentials, false))
  }

  /** The password is not tied to the account: either demo password signs in any listed e-mail, to the same account. */
  lemma PasswordNotTiedToAccount(users: seq<User>, i: nat)
    requires i < |users|
    ensures HandleLogin(users, users[i].email, "admin123").0.Some?
    ensures HandleLogin(users, users[i].email, "admin123").0 == HandleLogin(users, users[i].email, "cashier123").0
  {
    var e := users[i].email;
    FindCongruent(users, (u: User) => u.email == e && AcceptedPassword("admin123"),
                        (u: User) => u.email == e && AcceptedPassword("cashier123"));
  }

  /** When e-mails are unique, signing in with an account's e-mail signs in that very account. */
  lemma LoginFindsOwnAccount(users: seq<User>, i: nat, password: string)
    requires i < |users| && AcceptedPassword(password)
    requires forall j, k | 0 <= j < k < |users| :: users[j].email != users[k].email
    ensures HandleLogin(users, users[i].email, password).0 == Some(users[i])
  {
  }

  /** The accounts offered for one-click sign-in: the first three. */
  function QuickLoginChoices(users: seq<User>): (r: seq<User>)
    ensures |r| == if |users| < 3 then |users| else 3
    ensures r <= users
  {
    Take(users, 3)
  }

  /** `handleQuickLogin`: the chosen account is signed in with no check, and the screen turns busy. */
  function QuickLogin(state: LoginState, user: User): (r: (Option<User>, LoginState))
    ensures r.0 == Some(user) && r.1.isLoading && r.1.error == state.error
  {
    (Some(user), state.(isLoading := true))
  }

  /**
   * One-click sign-in needs no password, yet with unique e-mails it signs in
   * the account the checked sign-in would give for that account's e-mail and
   * either demo password.
   */
  lemma QuickLoginIsCheckedLogin(users: seq<User>, i: nat, state: LoginState, password: string)
    requires i < |users| && AcceptedPassword(password)
    requires forall j, k | 0 <= j < k < |users| :: users[j].email != users[k].email
    ensures QuickLogin(state, users[i]).0 == HandleLogin(users, users[i].email, password).0
    ensures state.error == "" ==> QuickLogin(state, users[i]) == HandleLogin(users, users[i].email, password)
  {
    LoginFindsOwnAccount(users, i, password);
  }
}
