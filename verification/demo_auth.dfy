/** The local demo account store: a list of users and an optional session
    token, both kept in the browser's `localStorage`. Storage is a state
    value; `crypto.randomUUID()` is a parameter. */
module DemoAuth {
  import opened Base
  import opened Text

  datatype User = User(id: string, name: string, email: string, password: string)

  /** What the token slot holds: the JSON `{ userId }` written by sign-in, or
      some other text that does not read as one. */
  datatype Token = Session(userId: string) | Unreadable(raw: string)

  /** The two storage slots the store uses (`demo_users`, `demo_token`). */
  datatype Store = Store(users: seq<User>, token: Option<Token>)

  /** The store after an operation, and the message of the error it threw. */
  datatype Step = Step(store: Store, error: Option<string>)

  const EmailTaken := "Email đã tồn tại."
  const BadCredentials := "Email hoặc mật khẩu không đúng."

  /** `findUserByEmail(email)`: the first user whose email matches, ignoring case. */
  function FindUserByEmail(users: seq<User>, email: string): (r: Option<User>)
    ensures r.None? <==> forall i :: 0 <= i < |users| ==> !EqualsIgnoreCase(users[i].email, email)
    ensures r.Some? ==> exists i :: 0 <= i < |users| && users[i] == r.value
                          && EqualsIgnoreCase(r.value.email, email)
                          && forall j :: 0 <= j < i ==> !EqualsIgnoreCase(users[j].email, email)
  {
    if |users| == 0 then None
    else if EqualsIgnoreCase(users[0].email, email) then Some(users[0])
    else
      var r := FindUserByEmail(users[1..], email);
      assert forall j :: 1 <= j < |users| ==> users[j] == users[1..][j - 1];
      r
  }

  /** `users.find((u) => u.id === id)`. */
  function FindUserById(users: seq<User>, id: string): (r: Option<User>)
    ensures r.None? <==> forall i :: 0 <= i < |users| ==> users[i].id != id
    ensures r.Some? ==> r.value in users && r.value.id == id
  {
    if |users| == 0 then None
    else if users[0].id == id then Some(users[0])
    else
      var r := FindUserById(users[1..], id);
      assert forall j :: 1 <= j < |users| ==> users[j] == users[1..][j - 1];
      r
  }

  /** `signUp(name, email, password)`, with `freshId` as the new id. */
  function SignUp(s: Store, name: string, email: string, password: string, freshId: string): (r: Step)
    ensures r.error.Some? <==> exists i :: 0 <= i < |s.users| && EqualsIgnoreCase(s.users[i].email, email)
    ensures r.error.Some? ==> r == Step(s, Some(EmailTaken))
    ensures r.error.None? ==> r.store == Store(s.users + [User(freshId, name, email, password)], s.token)
  {
    if FindUserByEmail(s.users, email).Some? then Step(s, Some(EmailTaken))
    else Step(Store(s.users + [User(freshId, name, email, password)], s.token), None)
  }

  /** `signIn(email, password)`. */
  function SignIn(s: Store, email: string, password: string): (r: Step)
    ensures r.error.Some? <==>
              FindUserByEmail(s.users, email).None? || FindUserByEmail(s.users, email).value.password != password
    ensures r.error.Some? ==> r == Step(s, Some(BadCredentials))
    ensures r.error.None? ==> r.store == Store(s.users, Some(Session(FindUserByEmail(s.users, email).value.id)))
  {
    match FindUserByEmail(s.users, email)
    case None => Step(s, Some(BadCredentials))
    case Some(u) =>
      if u.password != password then Step(s, Some(BadCredentials))
      else Step(s.(token := Some(Session(u.id))), None)
  }

  /** `signOut()`. */
  function SignOut(s: Store): (r: Store)
    ensures r.users == s.users && r.token.None?
  {
    s.(token := None)
  }

  /** `isSignedIn()`: the token slot holds non-empty text. A session token
      always does; a current user needs one, but a session whose user is gone
      still counts as signed in. */
  function IsSignedIn(s: Store): (b: bool)
    ensures s.token.None? ==> !b
    ensures s.token.Some? && s.token.value.Session? ==> b
    ensures s.token.Some? && s.token.value.Unreadable? ==> (b <==> s.token.value.raw != "")
    ensures CurrentUser(s).Some? ==> b
  {
    match s.token
    case None => false
    case Some(Session(_)) => true
    case Some(Unreadable(raw)) => raw != ""
  }

  /** `currentUser()`. */
  function CurrentUser(s: Store): (r: Option<User>)
    ensures r.Some? ==> s.token.Some? && s.token.value.Session? && r.value in s.users
                        && r.value.id == s.token.value.userId
    ensures s.token.Some? && s.token.value.Session? ==>
              (r.None? <==> forall i :: 0 <= i < |s.users| ==> s.users[i].id != s.token.value.userId)
    ensures s.token.None? || s.token.value.Unreadable? ==> r.None?
  {
    match s.token
    case Some(Session(userId)) => FindUserById(s.users, userId)
    case _ => None
  }

  /** What the store keeps true: no two users share an email, ignoring case,
      and no two share an id. */
  ghost predicate Valid(s: Store) {
    && (forall i, j :: 0 <= i < j < |s.users| ==> !EqualsIgnoreCase(s.users[i].email, s.users[j].email))
    && (forall i, j :: 0 <= i < j < |s.users| ==> s.users[i].id != s.users[j].id)
  }

  /** Sign-up keeps the store valid, given an id no user has. */
  lemma SignUpKeepsValid(s: Store, name: string, email: string, password: string, freshId: string)
    requires Valid(s)
    requires forall u :: u in s.users ==> u.id != freshId
    ensures Valid(SignUp(s, name, email, password, freshId).store)
  {
    var r := SignUp(s, name, email, password, freshId);
    if r.error.None? {
      var users := r.store.users;
      forall i, j | 0 <= i < j < |users|
        ensures !EqualsIgnoreCase(users[i].email, users[j].email) && users[i].id != users[j].id
      {
        if j == |s.users| {
          assert users[i] == s.users[i] && users[i] in s.users;
          EqualsIgnoreCaseIsEquivalence(users[i].email, email, email);
        }
      }
    }
  }

  /** After a successful sign-in the user is signed in as the account the
      email names. */
  lemma SignInThenCurrentUser(s: Store, email: string, password: string)
    requires Valid(s)
    requires SignIn(s, email, password).error.None?
    ensures IsSignedIn(SignIn(s, email, password).store)
    ensures CurrentUser(SignIn(s, email, password).store) == FindUserByEmail(s.users, email)
  {
    var u := FindUserByEmail(s.users, email).value;
    var k :| 0 <= k < |s.users| && s.users[k] == u;
    var found := FindUserById(s.users, u.id);
    var m :| 0 <= m < |s.users| && s.users[m] == found.value;
    assert m == k;
  }

  /** `isSignedIn` and `currentUser` can disagree: a session for an id no
      stored user has is signed in, yet has no current user. */
  lemma StaleSessionIsSignedIn(users: seq<User>, id: string)
    requires forall i :: 0 <= i < |users| ==> users[i].id != id
    ensures IsSignedIn(Store(users, Some(Session(id))))
    ensures CurrentUser(Store(users, Some(Session(id)))).None?
  {
  }

  /** Signing out ends the session and leaves every account in place. */
  lemma SignOutEndsSession(s: Store)
    ensures !IsSignedIn(SignOut(s)) && CurrentUser(SignOut(s)).None?
    ensures SignOut(s).users == s.users
  {
  }

  /** Signing up twice with the same address, in any letter case, fails the
      second time. */
  lemma SecondSignUpFails(s: Store, name: string, email: string, password: string, id1: string,
                          name2: string, email2: string, password2: string, id2: string)
    requires SignUp(s, name, email, password, id1).error.None?
    requires EqualsIgnoreCase(email, email2)
    ensures var s1 := SignUp(s, name, email, password, id1).store;
            SignUp(s1, name2, email2, password2, id2) == Step(s1, Some(EmailTaken))
  {
    var s1 := SignUp(s, name, email, password, id1).store;
    assert s1.users[|s.users|].email == email;
  }
}
