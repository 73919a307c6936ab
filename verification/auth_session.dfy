/** The `AuthProvider` session: the token slot in browser storage, the
    current identity, the loading flag, whether the Apollo store was reset and
    where the page was sent by `window.location.href`. Network calls are
    inputs: the identity lookup and the login/signup mutations each arrive as
    an outcome value. */
module AuthSession {
  import opened Common
  import BearerHeader

  datatype Session = Session(
    token: Option<string>,       // `localStorage.getItem('token')`
    user: Option<User>,
    loading: bool,
    cacheReset: bool,            // `client.resetStore()` has been called
    navigation: Option<string>)  // last `window.location.href` assignment

  /** The provider on first render: whatever the storage holds, no identity, loading. */
  function Initial(stored: Option<string>): Session {
    Session(stored, None, true, false, None)
  }

  /** The lifecycle phases a session passes through. */
  datatype Phase = Resolving | Authenticated | Anonymous

  function PhaseOf(s: Session): Phase {
    if s.loading then Resolving else if s.user.Some? then Authenticated else Anonymous
  }

  /** `isAdmin()`: `user?.role === 'ADMIN'`. */
  predicate IsAdmin(s: Session) {
    s.user.Some? && s.user.value.role == ADMIN
  }

  /** The three ways the `me` lookup can end. */
  datatype MeOutcome = MeUser(me: User) | MeNull | MeThrows

  /** The session after `checkAuth`, and the authorization header of the
      identity lookup it sent (None when it sent none). */
  datatype Rehydration = Rehydration(session: Session, lookupHeader: Option<string>)

  /** `logout()`: forget the token and the identity, reset the cache, go to `/login`. */
  function Logout(s: Session): (r: Session)
    ensures r.token == None && r.user == None
    ensures r.cacheReset && r.navigation == Some("/login")
    ensures !IsAdmin(r) && PhaseOf(r) != Authenticated
    ensures r.loading == s.loading
  {
    s.(token := None, user := None, cacheReset := true, navigation := Some("/login"))
  }

  /** Logging out twice is the same as logging out once. */
  lemma LogoutIdempotent(s: Session)
    ensures Logout(Logout(s)) == Logout(s)
  {
  }

  /** What logout leaves behind does not depend on who was logged in or what
      was cached: two sessions that agree on `loading` log out identically. */
  lemma LogoutForgetsPriorSession(a: Session, b: Session)
    requires a.loading == b.loading
    ensures Logout(a) == Logout(b)
  {
  }

  /** Startup rehydration (`checkAuth`). */
  function CheckAuth(s: Session, me: MeOutcome): (r: Rehydration)
    ensures !r.session.loading
    ensures r.lookupHeader.Some? <==> Present(s.token)
    ensures r.lookupHeader.Some? ==> r.lookupHeader.value == BearerHeader.AuthorizationValue(s.token)
    ensures !Present(s.token) ==> r.session == s.(loading := false)
    ensures Present(s.token) && me.MeUser? ==>
              r.session == s.(user := Some(me.me), loading := false)
    ensures Present(s.token) && me.MeNull? ==> r.session == s.(loading := false)
    ensures Present(s.token) && me.MeThrows? ==> r.session == Logout(s).(loading := false)
  {
    if Present(s.token) then
      var header := Some(BearerHeader.BEARER_PREFIX + s.token.value);
      match me
      case MeUser(u) => Rehydration(s.(user := Some(u)).(loading := false), header)
      case MeNull => Rehydration(s.(loading := false), header)
      case MeThrows => Rehydration(Logout(s).(loading := false), header)
    else
      Rehydration(s.(loading := false), None)
  }

  /** From the initial render, rehydration always settles: the session ends
      Authenticated exactly when a truthy token was stored and `me` returned an
      identity, and Anonymous otherwise. A failed lookup leaves no token. */
  lemma RehydrationSettles(stored: Option<string>, me: MeOutcome)
    ensures PhaseOf(CheckAuth(Initial(stored), me).session) != Resolving
    ensures (PhaseOf(CheckAuth(Initial(stored), me).session) == Authenticated)
              == (Present(stored) && me.MeUser?)
    ensures Present(stored) && me.MeThrows? ==>
              CheckAuth(Initial(stored), me).session.token == None
              && CheckAuth(Initial(stored), me).session.cacheReset
    ensures !Present(stored) ==> CheckAuth(Initial(stored), me).lookupHeader == None
  {
  }

  /** The header `checkAuth` attaches to the lookup survives the auth link
      unchanged, since the link recomputes it from the same stored token. */
  lemma LookupHeaderSurvivesAuthLink(s: Session, me: MeOutcome)
    requires Present(s.token)
    ensures var h := CheckAuth(s, me).lookupHeader.value;
            BearerHeader.AuthLink(Some(map[BearerHeader.AUTHORIZATION := h]), s.token)
              == map[BearerHeader.AUTHORIZATION := h]
  {
  }

  /** How a login or signup mutation can end: a `{token, user}` payload, a
      null payload (destructuring it throws), or a thrown error. */
  datatype AuthOutcome = Payload(token: string, user: User) | NullPayload | Rejected

  /** The session after the call and what the call did: returned the user or threw. */
  datatype AuthStep = AuthStep(session: Session, result: Result<User>)

  /** Shared completion of `login` and `signup`: on a payload, store the token
      and adopt the user; otherwise rethrow and change nothing. */
  function CompleteAuth(s: Session, outcome: AuthOutcome): AuthStep {
    match outcome
    case Payload(t, u) => AuthStep(s.(token := Some(t), user := Some(u)), Ok(u))
    case _ => AuthStep(s, Thrown)
  }

  /** `login(email, password)`; the credentials only travel to the server. */
  function Login(s: Session, outcome: AuthOutcome): (r: AuthStep)
    ensures outcome.Payload? ==>
              r.result == Ok(outcome.user)
              && r.session.token == Some(outcome.token) && r.session.user == Some(outcome.user)
              && r.session.loading == s.loading && r.session.cacheReset == s.cacheReset
              && r.session.navigation == s.navigation
    ensures !outcome.Payload? ==> r.result == Thrown && r.session == s
  {
    CompleteAuth(s, outcome)
  }

  /** `signup(email, password)`: the same completion as login, through the signup mutation. */
  function Signup(s: Session, outcome: AuthOutcome): (r: AuthStep)
    ensures outcome.Payload? ==>
              r.result == Ok(outcome.user) && r.session.token == Some(outcome.token)
              && r.session.user == Some(outcome.user)
              && r.session == s.(token := r.session.token, user := r.session.user)
    ensures !outcome.Payload? ==> r.result == Thrown && r.session == s
  {
    CompleteAuth(s, outcome)
  }

  /** After a successful login the admin predicate reflects exactly the
      returned identity's role, whoever was logged in before. */
  lemma LoginDecidesAdmin(s: Session, token: string, u: User)
    ensures IsAdmin(Login(s, Payload(token, u)).session) <==> u.role == ADMIN
    ensures !s.loading ==> PhaseOf(Login(s, Payload(token, u)).session) == Authenticated
  {
  }

  /** Switching identities through logout: the second identity is the only one
      left, its token the only one stored, and the cache was discarded in between. */
  lemma SwitchIdentityLeavesNoTrace(s: Session, t1: string, u1: User, t2: string, u2: User)
    ensures var s3 := Login(Logout(Login(s, Payload(t1, u1)).session), Payload(t2, u2)).session;
            s3.user == Some(u2) && s3.token == Some(t2) && s3.cacheReset
  {
  }
}
