/** The authentication and onboarding store. */
module AuthStore {
  import opened Wrappers

  datatype EmergencyContact = EmergencyContact(name: string, phone: string)

  datatype User = User(name: string, phone: string, address: string, emergencyContact: EmergencyContact)

  /** A `Partial<User>`: `None` is a key the caller left out. The
      emergency contact is replaced as a whole, as a spread does. */
  datatype UserPatch = UserPatch(
    name: Option<string>,
    phone: Option<string>,
    address: Option<string>,
    emergencyContact: Option<EmergencyContact>)

  datatype AuthState = AuthState(user: Option<User>, isAuthenticated: bool, onboardingCompleted: bool)

  /** Signed out, no user, not onboarded. */
  const Initial: AuthState := AuthState(None, false, false)

  /** The user `login` creates when none is stored. */
  function BlankUser(phone: string): User {
    User("", phone, "", EmergencyContact("", ""))
  }

  /** `login(phone)`. */
  function Login(s: AuthState, phone: string): (r: AuthState)
    ensures r.isAuthenticated
    ensures r.user.Some? && r.user.value.phone == phone
    ensures r.onboardingCompleted == s.onboardingCompleted
    ensures s.user.Some? ==> r.user.value == s.user.value.(phone := phone)
    ensures s.user.None? ==>
      && r.user.value.name == "" && r.user.value.address == ""
      && r.user.value.emergencyContact == EmergencyContact("", "")
  {
    AuthState(
      Some(if s.user.Some? then s.user.value.(phone := phone) else BlankUser(phone)),
      true,
      s.onboardingCompleted)
  }

  /** The spread `{ ...user, ...data }`. */
  function Merge(u: User, p: UserPatch): (r: User)
    ensures r.name == p.name.GetOr(u.name)
    ensures r.phone == p.phone.GetOr(u.phone)
    ensures r.address == p.address.GetOr(u.address)
    ensures r.emergencyContact == p.emergencyContact.GetOr(u.emergencyContact)
  {
    User(
      p.name.GetOr(u.name),
      p.phone.GetOr(u.phone),
      p.address.GetOr(u.address),
      p.emergencyContact.GetOr(u.emergencyContact))
  }

  /** `updateUser(data)`: merges into a stored user, and does nothing to
      the flags; with no user there is nothing to merge into. */
  function UpdateUser(s: AuthState, p: UserPatch): (r: AuthState)
    ensures s.user.None? ==> r == s
    ensures s.user.Some? ==> r.user == Some(Merge(s.user.value, p))
    ensures r.isAuthenticated == s.isAuthenticated
    ensures r.onboardingCompleted == s.onboardingCompleted
  {
    s.(user := if s.user.Some? then Some(Merge(s.user.value, p)) else None)
  }

  /** `logout()`. */
  function Logout(s: AuthState): (r: AuthState)
    ensures r.user.None? && !r.isAuthenticated && !r.onboardingCompleted
  {
    Initial
  }

  /** `completeOnboarding()`. */
  function CompleteOnboarding(s: AuthState): (r: AuthState)
    ensures r.onboardingCompleted
    ensures r.user == s.user && r.isAuthenticated == s.isAuthenticated
  {
    s.(onboardingCompleted := true)
  }

  /** The layout renders the app only for a signed-in, onboarded user. */
  predicate ShowsApp(s: AuthState) {
    s.isAuthenticated && s.onboardingCompleted
  }

  // ---------------------------------------------------------------------
  // Laws of the state machine

  /** Logging out forgets everything: the state is the one the store
      starts in, whatever came before. */
  lemma LogoutResets(s: AuthState)
    ensures Logout(s) == Initial
    ensures !ShowsApp(Logout(s))
  {
  }

  /** An update with no keys leaves the state as it was, and updates
      with the same keys overwrite one another. */
  lemma UpdateUserLaws(s: AuthState, p: UserPatch, q: UserPatch)
    ensures UpdateUser(s, UserPatch(None, None, None, None)) == s
    ensures UpdateUser(UpdateUser(s, p), p) == UpdateUser(s, p)
    ensures q.name.Some? && q.phone.Some? && q.address.Some? && q.emergencyContact.Some? ==>
      UpdateUser(UpdateUser(s, p), q) == UpdateUser(s, q)
  {
  }

  /** A second login with another number only changes the number. */
  lemma LoginTwice(s: AuthState, p1: string, p2: string)
    ensures Login(Login(s, p1), p2) == Login(s, p2)
  {
  }

  /** From the initial state, the onboarding path (login, profile update,
      onboarding) is what opens the app, and the profile entered survives. */
  lemma OnboardingPathOpensApp(phone: string, p: UserPatch)
    ensures var s := CompleteOnboarding(UpdateUser(Login(Initial, phone), p));
      && ShowsApp(s)
      && s.user == Some(Merge(BlankUser(phone), p))
    ensures !ShowsApp(Initial)
    ensures !ShowsApp(Login(Initial, phone))
  {
  }

  /** Returning users skip onboarding: the flag survives sign-in and
      profile updates, and only logout clears it. */
  lemma OnboardingFlagOnlyClearedByLogout(s: AuthState, phone: string, p: UserPatch)
    ensures Login(s, phone).onboardingCompleted == s.onboardingCompleted
    ensures UpdateUser(s, p).onboardingCompleted == s.onboardingCompleted
    ensures CompleteOnboarding(s).onboardingCompleted
    ensures !Logout(s).onboardingCompleted
  {
  }
}
