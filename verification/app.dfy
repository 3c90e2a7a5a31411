/** The top-level screen flow of `App`: landing, profile setup, subscription and
    dashboard, with logout back to landing, the restore from saved data at
    startup, and which screen a view name renders. Browser storage is an explicit
    part of the state; the clock readings are parameters. */
module App {
  import opened Options
  import opened JsObject

  const Landing := "landing"
  const ProfileSetup := "profile-setup"
  const Subscription := "subscription"
  const Dashboard := "dashboard"
  const ProgressView := "progress"

  /** The two saved entries, `nourish-user` and `nourish-profile`; `None` when absent. */
  datatype Storage = Storage(user: Option<Object>, profile: Option<Object>)

  datatype State = State(view: string, user: Option<Object>, profile: Option<Object>, storage: Storage)

  /** The first render, before the startup effect runs. */
  function Initial(storage: Storage): (r: State)
    ensures RenderView(r.view) == LandingPage && !Render(r.view).inShell
    ensures r.user.None? && r.profile.None? && r.storage == storage
  {
    State(Landing, None, None, storage)
  }

  /** The startup effect: both saved entries present restores them and opens the
      dashboard; otherwise nothing changes. */
  function Startup(s: State): (r: State)
    ensures r.storage == s.storage
    ensures s.storage.user.Some? && s.storage.profile.Some? ==>
      r.view == Dashboard && r.user == s.storage.user && r.profile == s.storage.profile
    ensures !(s.storage.user.Some? && s.storage.profile.Some?) ==> r == s
  {
    if s.storage.user.Some? && s.storage.profile.Some? then
      s.(view := Dashboard, user := s.storage.user, profile := s.storage.profile)
    else s
  }

  /** The app as opened with some saved data. */
  function Open(storage: Storage): (r: State)
    ensures r.view == Dashboard <==> storage.user.Some? && storage.profile.Some?
    ensures r.view != Dashboard ==> r.view == Landing && r.user.None? && r.profile.None?
  {
    Startup(Initial(storage))
  }

  /** The value a digit character stands for. */
  function DigitValue(c: char): nat
  {
    if '0' <= c <= '9' then (c - '0') as nat else 0
  }

  /** The number a string of decimal digits denotes, read left to right the way
      `parseInt(s, 10)` reads it. */
  function DigitsValue(s: string): nat
  {
    if |s| == 0 then 0 else DigitsValue(s[..|s| - 1]) * 10 + DigitValue(s[|s| - 1])
  }

  /** `Date.now().toString()` for a non-negative clock reading: the digits of `n`,
      with no leading zero. */
  function DecimalString(n: nat): (s: string)
    ensures |s| > 0
    ensures forall i :: 0 <= i < |s| ==> '0' <= s[i] <= '9'
    ensures DigitsValue(s) == n
    ensures s[0] == '0' <==> n == 0
    ensures |s| > 1 ==> s[0] != '0'
  {
    var digit := ['0' + (n % 10) as char];
    if n < 10 then digit
    else
      var prefix := DecimalString(n / 10);
      assert (prefix + digit)[..|prefix|] == prefix;
      prefix + digit
  }

  /** Digit strings without a leading zero have a positive value. */
  lemma {:induction false} LeadingDigitPositive(s: string)
    requires |s| > 0 && '1' <= s[0] <= '9'
    requires forall i :: 0 <= i < |s| ==> '0' <= s[i] <= '9'
    ensures DigitsValue(s) > 0
  {
    if |s| > 1 {
      LeadingDigitPositive(s[..|s| - 1]);
    }
  }

  /** The converse round trip: a digit string in canonical form (no leading zero
      unless it is "0") is the text of the number it denotes, so the ids
      `DecimalString` produces are exactly those strings. */
  lemma {:induction false} DecimalStringOfDigits(s: string)
    requires |s| > 0 && forall i :: 0 <= i < |s| ==> '0' <= s[i] <= '9'
    requires |s| > 1 ==> s[0] != '0'
    ensures DecimalString(DigitsValue(s)) == s
  {
    var n := DigitsValue(s);
    var last := DigitValue(s[|s| - 1]);
    if |s| == 1 {
      assert s[..|s| - 1] == [];
      assert DigitsValue(s) == DigitsValue([]) * 10 + last;
      assert DecimalString(n) == [s[0]];
    } else {
      var p := s[..|s| - 1];
      LeadingDigitPositive(p);
      DecimalStringOfDigits(p);
      assert n / 10 == DigitsValue(p) && n % 10 == last;
      assert s == p + [s[|s| - 1]];
    }
  }

  /** `handleSignUp(email, password)` at clock reading `now`: a user with no plan yet,
      saved, and the profile questionnaire shown. The password is not kept. */
  function SignUp(s: State, email: string, password: string, now: nat): (r: State)
    ensures r.view == ProfileSetup
    ensures r.user.Some? && r.storage.user == r.user
    ensures var u := r.user.value;
      && Get(u, "id") == Str(DecimalString(now)) && Get(u, "email") == Str(email)
      && Get(u, "subscriptionTier") == Null && Get(u, "subscriptionExpiresAt") == Null
      && Get(u, "createdAt") == Date(now)
    ensures r.profile == s.profile && r.storage.profile == s.storage.profile
  {
    var user := map[
      "id" := Str(DecimalString(now)),
      "email" := Str(email),
      "subscriptionTier" := Null,
      "subscriptionExpiresAt" := Null,
      "createdAt" := Date(now)];
    s.(view := ProfileSetup, user := Some(user), storage := s.storage.(user := Some(user)))
  }

  /** `handleProfileComplete(profile)`: the profile, stamped with the user's id and the
      time, is kept and saved, and the plans are shown. Reading the id of a `null`
      user throws. */
  function ProfileComplete(s: State, profile: Object, now: int): (r: Result<State, string>)
    ensures r.Failure? <==> s.user.None?
    ensures r.Success? ==>
      var p := r.value.profile;
      && r.value.view == Subscription
      && p.Some? && r.value.storage.profile == p
      && Get(p.value, "userId") == Get(s.user.value, "id")
      && Get(p.value, "createdAt") == Date(now)
      && (forall k :: k in profile && k != "userId" && k != "createdAt" ==> Get(p.value, k) == profile[k])
      && r.value.user == s.user && r.value.storage.user == s.storage.user
  {
    match s.user
    case None => Failure("Cannot read properties of null (reading 'id')")
    case Some(u) =>
      var complete := Merge(profile, map["userId" := Get(u, "id"), "createdAt" := Date(now)]);
      Success(s.(view := Subscription, profile := Some(complete), storage := s.storage.(profile := Some(complete))))
  }

  /** `handleSubscriptionComplete(tier)`: the user gets the plan and an expiry 30 days from
      `now`, every other field is kept, the result is saved, and the dashboard is shown.
      Spreading a `null` user gives an object with just the two new fields. */
  function SubscriptionComplete(s: State, tier: Value, now: int): (r: State)
    ensures r.view == Dashboard
    ensures r.user.Some? && r.storage.user == r.user
    ensures Get(r.user.value, "subscriptionTier") == tier
    ensures Get(r.user.value, "subscriptionExpiresAt") == Date(now + ThirtyDaysMs)
    ensures r.user.value.Keys == SpreadOf(s.user).Keys + {"subscriptionTier", "subscriptionExpiresAt"}
    ensures s.user.Some? ==> forall k :: k in s.user.value && k != "subscriptionTier" && k != "subscriptionExpiresAt" ==>
      Get(r.user.value, k) == s.user.value[k]
    ensures r.profile == s.profile && r.storage.profile == s.storage.profile
  {
    var updated := Merge(SpreadOf(s.user), map["subscriptionTier" := tier, "subscriptionExpiresAt" := Date(now + ThirtyDaysMs)]);
    s.(view := Dashboard, user := Some(updated), storage := s.storage.(user := Some(updated)))
  }

  /** `handleLogout`: both saved entries removed, user and profile cleared, landing shown. */
  function Logout(s: State): (r: State)
    ensures r.view == Landing && r.user.None? && r.profile.None?
    ensures r.storage.user.None? && r.storage.profile.None?
  {
    State(Landing, None, None, Storage(None, None))
  }

  /** `setCurrentView` as passed to the dashboard, the shell and the progress screen. */
  function Navigate(s: State, view: string): (r: State)
    ensures r.view == view && r.user == s.user && r.profile == s.profile && r.storage == s.storage
  {
    s.(view := view)
  }

  /** Signing up, completing the profile and subscribing reaches the dashboard with the
      user and profile saved, so reopening the app restores them and the dashboard. */
  lemma SignUpFlowPersists(s: State, email: string, password: string, profile: Object, tier: Value, t1: nat, t2: int, t3: int)
    ensures var afterSignUp := SignUp(s, email, password, t1);
      var afterProfile := ProfileComplete(afterSignUp, profile, t2);
      && afterProfile.Success?
      && var done := SubscriptionComplete(afterProfile.value, tier, t3);
      && done.view == Dashboard
      && Get(done.user.value, "subscriptionTier") == tier
      && Get(done.user.value, "email") == Str(email)
      && var reopened := Open(done.storage);
      && reopened.view == Dashboard && reopened.user == done.user && reopened.profile == done.profile
  {
    var afterSignUp := SignUp(s, email, password, t1);
    var done := SubscriptionComplete(ProfileComplete(afterSignUp, profile, t2).value, tier, t3);
    assert "email" in afterSignUp.user.value;
    assert "email" != "subscriptionTier" && "email" != "subscriptionExpiresAt";
  }

  /** After logging out, reopening the app stays on the landing page. */
  lemma LogoutForgets(s: State)
    ensures Open(Logout(s).storage) == Initial(Storage(None, None))
  {
  }

  /** What a view renders. */
  datatype Page = LandingPage | ProfileForm | SubscriptionPlans | DashboardPage | ProgressTracker

  /** `renderCurrentView`: any name it does not know renders the landing page. */
  function RenderView(view: string): (p: Page)
    ensures p == DashboardPage <==> view == Dashboard
    ensures p == ProgressTracker <==> view == ProgressView
    ensures p == ProfileForm <==> view == ProfileSetup
    ensures p == SubscriptionPlans <==> view == Subscription
    ensures view !in {ProfileSetup, Subscription, Dashboard, ProgressView} ==> p == LandingPage
  {
    if view == ProfileSetup then ProfileForm
    else if view == Subscription then SubscriptionPlans
    else if view == Dashboard then DashboardPage
    else if view == ProgressView then ProgressTracker
    else LandingPage
  }

  /** The screen as drawn: whether it sits inside the app shell, and what it shows. */
  datatype Screen = Screen(inShell: bool, page: Page)

  /** Only the dashboard and the progress screen are wrapped in the shell. */
  function Render(view: string): (r: Screen)
    ensures r.inShell <==> r.page == DashboardPage || r.page == ProgressTracker
    ensures r.page == RenderView(view)
  {
    Screen(view == Dashboard || view == ProgressView, RenderView(view))
  }
}
