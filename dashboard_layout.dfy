/** The route guard around every dashboard page: blank while the session is
    loading, a redirect to the sign-in page when nobody is signed in, the
    sidebar layout otherwise. */
module DashboardLayout {

  import opened Wrappers
  import opened AuthContext

  datatype LayoutOutcome = RenderNothing | RedirectToAuth | RenderLayout

  const AuthPath: string := "/auth"

  /** What the layout renders for the provider's `loading` and `user`. */
  function Layout(loading: bool, user: Option<AuthUser>): (o: LayoutOutcome)
    ensures o == RenderNothing <==> loading
    ensures o == RedirectToAuth <==> !loading && user.None?
    ensures o == RenderLayout <==> !loading && user.Some?
  {
    if loading then RenderNothing
    else if user.None? then RedirectToAuth
    else RenderLayout
  }

  /** The effect that navigates to the sign-in page. */
  predicate NavigatesToAuth(loading: bool, user: Option<AuthUser>) {
    !loading && user.None?
  }

  /** The navigation effect fires exactly when the render itself redirects, so
      the two never disagree. */
  lemma EffectAgreesWithRender(loading: bool, user: Option<AuthUser>)
    ensures NavigatesToAuth(loading, user) <==> Layout(loading, user) == RedirectToAuth
  {
  }

  /** Before any callback has run the guard renders nothing. */
  method LayoutAtStart() returns (o: LayoutOutcome)
    ensures o == RenderNothing
  {
    var p := new AuthProvider();
    o := Layout(p.loading, p.user);
  }

  /** A visitor with no session is sent to the sign-in page once the session
      check answers, and a signed-in one gets the layout. */
  method LayoutAfterInitialSession(s: Option<Session>) returns (o: LayoutOutcome)
    ensures s.None? ==> o == RedirectToAuth
    ensures s.Some? ==> o == RenderLayout
  {
    var p := new AuthProvider();
    p.InitialSessionResolved(s);
    o := Layout(p.loading, p.user);
  }

  /** When the session check never answers, the failsafe turns the blank page
      into a redirect to the sign-in page. */
  method LayoutAfterFailsafe() returns (o: LayoutOutcome)
    ensures o == RedirectToAuth
  {
    var p := new AuthProvider();
    p.FailsafeTimeout();
    o := Layout(p.loading, p.user);
  }
}
