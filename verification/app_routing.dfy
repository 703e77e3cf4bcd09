/** The top-level screen selection: after sign-in the application checks
    whether the user has a business profile and routes to the dashboard or to
    the profile form. */
module AppRouting {
  import opened Common
  import ProfileForm

  datatype View = DashboardView | ProfileView

  datatype App = App(hasProfile: bool, checkingProfile: bool, currentView: View)

  /** Before anything is known: no profile, the check pending, dashboard view. */
  const Initial: App := App(false, true, DashboardView)

  /** The effect of a change of user: with a user the profile check starts,
      without one the check is over before it began, and no query is made. */
  function UserChanged(a: App, user: Option<string>): (r: App)
    ensures r.hasProfile == a.hasProfile && r.currentView == a.currentView
    ensures r.checkingProfile <==> user.Some?
  {
    if user.Some? then a.(checkingProfile := true) else a.(checkingProfile := false)
  }

  /** `checkProfile` settling with the reply "a profile row exists". On
      success the flag and the view follow the answer; on failure both stay;
      either way the check is over. */
  function SettleCheck(a: App, reply: Reply<bool>): (r: App)
    ensures !r.checkingProfile
    ensures reply.Ok? ==> r.hasProfile == reply.value
    ensures reply.Ok? ==> (r.currentView == DashboardView <==> reply.value)
    ensures reply.Fail? ==> r.hasProfile == a.hasProfile && r.currentView == a.currentView
  {
    match reply
    case Ok(found) => App(found, false, if found then DashboardView else ProfileView)
    case Fail(_) => a.(checkingProfile := false)
  }

  /** `handleProfileComplete`: the profile now exists; show the dashboard. */
  function ProfileComplete(a: App): (r: App)
    ensures r.hasProfile && r.currentView == DashboardView
    ensures r.checkingProfile == a.checkingProfile
  {
    a.(hasProfile := true, currentView := DashboardView)
  }

  /** `handleEditProfile`: show the profile form; the profile flag stays. */
  function EditProfile(a: App): (r: App)
    ensures r.currentView == ProfileView
    ensures r.hasProfile == a.hasProfile && r.checkingProfile == a.checkingProfile
  {
    a.(currentView := ProfileView)
  }

  datatype Screen = Spinner | AuthScreen | DashboardScreen | ProfileFormScreen

  /** The screen shown. The spinner while auth is loading or the check is
      pending; otherwise the sign-in screen without a user; otherwise the
      dashboard exactly when the view is the dashboard and a profile exists,
      and the profile form in every other case. */
  function Render(authLoading: bool, user: Option<string>, a: App): (s: Screen)
    ensures s == Spinner <==> authLoading || a.checkingProfile
    ensures s == AuthScreen <==> !authLoading && !a.checkingProfile && user.None?
    ensures s == DashboardScreen <==>
              !authLoading && !a.checkingProfile && user.Some? && a.currentView == DashboardView && a.hasProfile
    ensures s == ProfileFormScreen <==>
              !authLoading && !a.checkingProfile && user.Some? && !(a.currentView == DashboardView && a.hasProfile)
  {
    if authLoading || a.checkingProfile then Spinner
    else if user.None? then AuthScreen
    else if a.currentView == DashboardView && a.hasProfile then DashboardScreen
    else ProfileFormScreen
  }

  /** Sign-in from the initial state: once the check settles, an existing
      profile leads to the dashboard and a missing one to the form; a failed
      check also leads to the form, because no profile is known yet. */
  lemma SignInRoutes(u: string, reply: Reply<bool>)
    ensures var s := Render(false, Some(u), SettleCheck(UserChanged(Initial, Some(u)), reply));
            s == (if reply.Ok? && reply.value then DashboardScreen else ProfileFormScreen)
  {
  }

  /** Signed out: once auth has loaded the sign-in screen shows. */
  lemma SignedOutShowsAuth(a: App)
    ensures Render(false, None, UserChanged(a, None)) == AuthScreen
  {
  }

  /** Saving the profile form completes onboarding: when the upsert succeeds
      the form calls back, and the application shows the dashboard. */
  lemma SavedProfileShowsDashboard(a: App, form: ProfileForm.Form, u: string, reply: Reply<()>)
    requires !a.checkingProfile
    ensures var saved := ProfileForm.Submit(form, Some(u), reply);
            var a' := if saved.completed then ProfileComplete(a) else a;
            reply.Ok? ==> Render(false, Some(u), a') == DashboardScreen
  {
  }

  /** Choosing to edit the profile from the dashboard shows the form, and
      completing it shows the dashboard again. */
  lemma EditThenCompleteReturns(a: App, u: string)
    requires !a.checkingProfile
    ensures Render(false, Some(u), EditProfile(a)) == ProfileFormScreen
    ensures Render(false, Some(u), ProfileComplete(EditProfile(a))) == DashboardScreen
  {
  }
}
