/** The authentication store (context/AuthContext.tsx): one session value,
    replaced wholesale by `login`, `signUp` and `logout`. The user id the
    source takes from the clock is a parameter here. */
module Auth {
  import opened Types

  /** The store's state: the status and the signed-in user, if any. */
  datatype Session = Session(authStatus: AuthStatus, currentUser: Option<User>)

  /** The status is `Guest` exactly when nobody is signed in, and otherwise
      it is the signed-in user's role. */
  predicate Consistent(s: Session)
  {
    && (s.authStatus == Guest <==> s.currentUser.None?)
    && (s.currentUser.Some? ==> s.authStatus == s.currentUser.value.role)
  }

  /** The session the store starts with. */
  function InitialSession(): (s: Session)
    ensures s.authStatus == Guest && s.currentUser == None
    ensures Consistent(s)
  {
    Session(Guest, None)
  }

  /** Signs in a user with the requested role; no credential is checked and
      nothing of the previous session survives. */
  function Login(email: string, role: Role, id: int): (s: Session)
    ensures s.authStatus == role && s.authStatus != Guest
    ensures s.currentUser.Some?
    ensures s.currentUser.value.email == email && s.currentUser.value.role == role
    ensures s.currentUser.value.id == id && s.currentUser.value.name == None
    ensures Consistent(s)
  {
    Session(role, Some(User(id, email, None, role)))
  }

  /** Signs everybody out. */
  function Logout(): (s: Session)
    ensures s.authStatus == Guest && s.currentUser == None
    ensures Consistent(s)
  {
    Session(Guest, None)
  }

  /** Registers and signs in a new customer carrying the given name. */
  function SignUp(email: string, name: string, id: int): (s: Session)
    ensures s.authStatus == Customer
    ensures s.currentUser.Some?
    ensures s.currentUser.value.email == email && s.currentUser.value.name == Some(name)
    ensures s.currentUser.value.role == Customer && s.currentUser.value.id == id
    ensures Consistent(s)
  {
    Session(Customer, Some(User(id, email, Some(name), Customer)))
  }

  /** One call on the store; `id` is the clock reading the source uses as user id. */
  datatype AuthEvent =
    | LoginEvent(email: string, role: Role, id: int)
    | LogoutEvent
    | SignUpEvent(email: string, name: string, id: int)

  /** The session after one call, whatever the session before it. */
  function Apply(s: Session, e: AuthEvent): Session
  {
    match e
    case LoginEvent(email, role, id) => Login(email, role, id)
    case LogoutEvent => Logout()
    case SignUpEvent(email, name, id) => SignUp(email, name, id)
  }

  /** The session after a sequence of calls, oldest first. */
  function Run(s: Session, es: seq<AuthEvent>): Session
    decreases |es|
  {
    if |es| == 0 then s else Run(Apply(s, es[0]), es[1..])
  }

  /** Every reachable session is consistent. */
  lemma {:induction false} ReachableConsistent(s: Session, es: seq<AuthEvent>)
    requires Consistent(s)
    ensures Consistent(Run(s, es))
    decreases |es|
  {
    if |es| > 0 {
      ReachableConsistent(Apply(s, es[0]), es[1..]);
    }
  }

  /** The store's session after a non-empty history depends only on the last
      call: no operation reads the session it replaces. */
  lemma {:induction false} LastCallDecides(s: Session, t: Session, es: seq<AuthEvent>)
    requires |es| > 0
    ensures Run(s, es) == Run(t, es) == Apply(s, es[|es| - 1])
    decreases |es|
  {
    if |es| > 1 {
      LastCallDecides(Apply(s, es[0]), Apply(t, es[0]), es[1..]);
      assert es[1..][|es[1..]| - 1] == es[|es| - 1];
    }
  }

  /** Logging out twice is logging out once, from any session. */
  lemma LogoutIdempotent(s: Session)
    ensures Apply(Apply(s, LogoutEvent), LogoutEvent) == Apply(s, LogoutEvent)
    ensures Apply(s, LogoutEvent) == InitialSession()
  {
  }

  /** A login followed by a logout leaves the session a fresh store starts with. */
  lemma LoginThenLogout(s: Session, email: string, role: Role, id: int)
    ensures Run(s, [LoginEvent(email, role, id), LogoutEvent]) == InitialSession()
    ensures Apply(s, LoginEvent(email, role, id)).authStatus == role
  {
    var es := [LoginEvent(email, role, id), LogoutEvent];
    LastCallDecides(s, s, es);
  }
}
