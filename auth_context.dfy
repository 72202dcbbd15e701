/** The session and role state the whole application reads: a provider whose
    fields are set step by step by the identity provider's callbacks, a
    5-second failsafe timer and sign-out, and the `useAuth` accessor that
    refuses to run outside the provider.

    The identity provider and the `user_roles` query are not modelled; what
    they come back with is passed in to the event methods. */
module AuthContext {

  import opened Wrappers

  datatype UserRole = Admin | User

  /** The role's stored name. */
  function RoleName(r: UserRole): string {
    match r
    case Admin => "admin"
    case User => "user"
  }

  datatype AuthUser = AuthUser(id: string, email: Option<string>)

  datatype Session = Session(accessToken: string, user: AuthUser)

  /** What the `user_roles` lookup for one user came back with. */
  datatype RoleLookup = LookupFailed | NoRoleRow | RoleRow(role: UserRole)

  /** The failsafe timer's delay, in milliseconds. */
  const FailsafeDelayMs: nat := 5000

  /** `session?.user ?? null`. */
  function UserOf(s: Option<Session>): (u: Option<AuthUser>)
    ensures u.Some? <==> s.Some?
    ensures s.Some? ==> u.value == s.value.user
  {
    match s
    case None => None
    case Some(session) => Some(session.user)
  }

  /** The role after `fetchUserRole` finishes: the looked-up role when the
      query succeeded with a row; otherwise the role as it was. */
  function RoleAfterLookup(current: Option<UserRole>, result: RoleLookup): (r: Option<UserRole>)
    ensures result.RoleRow? ==> r == Some(result.role)
    ensures !result.RoleRow? ==> r == current
  {
    if result.RoleRow? then Some(result.role) else current
  }

  /** A lookup never clears a role already held, and only a row saying
      "admin" or an admin role already held yields admin. */
  lemma LookupNeverClearsNorEscalates(current: Option<UserRole>, result: RoleLookup)
    ensures current.Some? ==> RoleAfterLookup(current, result).Some?
    ensures IsAdmin(RoleAfterLookup(current, result)) ==> result == RoleRow(Admin) || IsAdmin(current)
  {
  }

  /** `role === 'admin'`. */
  predicate IsAdmin(role: Option<UserRole>) {
    role == Some(Admin)
  }

  /** The value the provider passes down to every consumer. */
  datatype AuthValue = AuthValue(
    user: Option<AuthUser>,
    session: Option<Session>,
    loading: bool,
    role: Option<UserRole>,
    isAdmin: bool)

  const OutsideProviderError: string := "useAuth must be used within an AuthProvider"

  /** `useAuth()`: the provider's value, or the error it throws when no
      provider is above the caller. */
  function UseAuth(context: Option<AuthValue>): (r: Result<AuthValue, string>)
    ensures r.Ok? <==> context.Some?
    ensures r.Ok? ==> r.value == context.value
    ensures r.Err? ==> r.error == OutsideProviderError
  {
    match context
    case None => Err(OutsideProviderError)
    case Some(v) => Ok(v)
  }

  /** The provider with its effect mounted. Each method is one callback,
      taken as an atomic step. */
  class AuthProvider {
    var user: Option<AuthUser>
    var session: Option<Session>
    var loading: bool
    var role: Option<UserRole>
    /** The effect's `mounted` flag, cleared by its cleanup. */
    var mounted: bool
    /** The `loading` the failsafe timer's callback closed over: the value
        of the first render, never updated afterwards. */
    const loadingAtMount: bool

    /** The user is always the session's user, and the timer's captured
        `loading` is the initial `true`. */
    ghost predicate Valid()
      reads this
    {
      loadingAtMount && user == UserOf(session)
    }

    /** First render and the mount effect: nobody signed in, still loading. */
    constructor ()
      ensures Valid()
      ensures user == None && session == None && loading && role == None && mounted
    {
      user := None;
      session := None;
      loading := true;
      role := None;
      mounted := true;
      loadingAtMount := true;
    }

    /** The value consumers see, with `isAdmin` derived from the role. */
    function Value(): (v: AuthValue)
      reads this
      ensures v.isAdmin <==> role == Some(Admin)
      ensures v.user == user && v.session == session && v.loading == loading && v.role == role
    {
      AuthValue(user, session, loading, role, IsAdmin(role))
    }

    /** `getSession()` resolved. The role lookup it starts is not awaited: its
        result arrives later through RoleLookupResolved. */
    method InitialSessionResolved(s: Option<Session>)
      requires Valid()
      modifies this
      ensures Valid()
      ensures old(mounted) ==> session == s && user == UserOf(s) && !loading && role == old(role) && mounted
      ensures !old(mounted) ==> unchanged(this)
    {
      if !mounted {
        return;
      }
      session := s;
      user := UserOf(s);
      loading := false;
    }

    /** `getSession()` rejected. */
    method InitialSessionFailed()
      requires Valid()
      modifies this
      ensures Valid()
      ensures loading == (old(loading) && !old(mounted))
      ensures user == old(user) && session == old(session) && role == old(role) && mounted == old(mounted)
    {
      if mounted {
        loading := false;
      }
    }

    /** The 5-second failsafe fired. Its `loading` test reads the captured
        initial value, so only `mounted` decides. */
    method FailsafeTimeout()
      requires Valid()
      modifies this
      ensures Valid()
      ensures loading == (old(loading) && !old(mounted))
      ensures user == old(user) && session == old(session) && role == old(role) && mounted == old(mounted)
    {
      if mounted && loadingAtMount {
        loading := false;
      }
    }

    /** An auth-state notification; for a session with a user, `lookup` is the
        result of the role fetch the callback awaits. */
    method AuthStateChanged(s: Option<Session>, lookup: RoleLookup)
      requires Valid()
      modifies this
      ensures Valid()
      ensures old(mounted) ==> session == s && user == UserOf(s) && !loading && mounted
      ensures old(mounted) ==> role == if s.Some? then RoleAfterLookup(old(role), lookup) else None
      ensures !old(mounted) ==> unchanged(this)
    {
      if !mounted {
        return;
      }
      session := s;
      user := UserOf(s);
      if s.Some? {
        role := RoleAfterLookup(role, lookup);
      } else {
        role := None;
      }
      loading := false;
    }

    /** The role fetch the initial session lookup started came back. The
        source applies it without consulting `mounted`. */
    method RoleLookupResolved(lookup: RoleLookup)
      requires Valid()
      modifies this
      ensures Valid()
      ensures role == RoleAfterLookup(old(role), lookup)
      ensures user == old(user) && session == old(session) && loading == old(loading) && mounted == old(mounted)
    {
      role := RoleAfterLookup(role, lookup);
    }

    /** `signOut()` after the provider's sign-out call returned: the role
        is cleared whatever it was. */
    method SignOut()
      requires Valid()
      modifies this
      ensures Valid()
      ensures role == None
      ensures user == old(user) && session == old(session) && loading == old(loading) && mounted == old(mounted)
    {
      role := None;
    }

    /** The effect's cleanup: clears `mounted` (the timer is cancelled and
        the subscription dropped). */
    method Unmount()
      requires Valid()
      modifies this
      ensures Valid()
      ensures !mounted
      ensures user == old(user) && session == old(session) && loading == old(loading) && role == old(role)
    {
      mounted := false;
    }
  }

  /** Signing in at start-up: loading is over as soon as the session is known,
      while the role is still unknown until its lookup returns. */
  method InitialSessionBeforeRole(s: Session) returns (loading: bool, user: Option<AuthUser>, isAdmin: bool)
    ensures !loading && user == Some(s.user) && !isAdmin
  {
    var p := new AuthProvider();
    p.InitialSessionResolved(Some(s));
    var v := p.Value();
    loading, user, isAdmin := v.loading, v.user, v.isAdmin;
  }

  /** The role lookup started at start-up decides `isAdmin` once it returns
      with a row, and a failed or empty lookup leaves the viewer non-admin. */
  method InitialSessionThenRole(s: Session, lookup: RoleLookup) returns (loading: bool, isAdmin: bool)
    ensures !loading
    ensures isAdmin <==> lookup == RoleRow(Admin)
  {
    var p := new AuthProvider();
    p.InitialSessionResolved(Some(s));
    p.RoleLookupResolved(lookup);
    var v := p.Value();
    loading, isAdmin := v.loading, v.isAdmin;
  }

  /** When the session check never answers, the failsafe still ends loading,
      leaving nobody signed in. */
  method FailsafeUnblocks() returns (loading: bool, user: Option<AuthUser>)
    ensures !loading && user == None
  {
    var p := new AuthProvider();
    p.FailsafeTimeout();
    loading, user := p.loading, p.user;
  }

  /** An admin who signs out is no longer admin, even before the sign-out
      notification arrives; the notification then clears the user too. */
  method SignOutRevokesAdmin(s: Session) returns (adminBefore: bool, adminAfterSignOut: bool, userAfterNotice: Option<AuthUser>)
    ensures adminBefore && !adminAfterSignOut && userAfterNotice == None
  {
    var p := new AuthProvider();
    p.AuthStateChanged(Some(s), RoleRow(Admin));
    adminBefore := p.Value().isAdmin;
    p.SignOut();
    adminAfterSignOut := p.Value().isAdmin;
    p.AuthStateChanged(None, LookupFailed);
    userAfterNotice := p.user;
  }

  /** After unmount, the session and auth-change callbacks change nothing. */
  method CallbacksIgnoredAfterUnmount(s: Option<Session>, lookup: RoleLookup) returns (loading: bool, user: Option<AuthUser>)
    ensures loading && user == None
  {
    var p := new AuthProvider();
    p.Unmount();
    p.InitialSessionResolved(s);
    p.AuthStateChanged(s, lookup);
    p.InitialSessionFailed();
    p.FailsafeTimeout();
    loading, user := p.loading, p.user;
  }
}
