/**
 * The signup wizard of the front-end as a state machine over the values the
 * App component keeps for it: the current step, the four text inputs, the
 * error line, the user record and the record saved in browser storage.
 * Each handler of App.tsx is a function from the old state to the new one;
 * class App (app.dfy) holds the same values in fields and is proved against
 * these functions.
 */
module Wizard {
  import opened Types

  /** The fixed secret the seller gate compares against (App.tsx:12). */
  const ADMIN_KEY := "SECRETCELL1233344544552433HGFHGFFHFJFGJDII"

  const CREDENTIALS_MISSING := "Please fill in email and password."
  const USERNAME_MISSING := "Please enter a username."
  const INVALID_CODE := "INVALID CODE"

  /** `saved` stands for the `mf_user` entry of browser storage. */
  datatype AuthState = AuthState(
    step: AuthStep,
    email: string,
    password: string,
    username: string,
    adminKeyInput: string,
    authError: string,
    user: User,
    saved: Option<User>)

  /** The component's state when it first renders, with `stored` in browser storage. */
  function Initial(stored: Option<User>): (r: AuthState)
    ensures r.step == EMAIL_PASSWORD && r.user.role == GUEST && r.saved == stored
    ensures stored.None? ==> SessionInvariant(r)
  {
    AuthState(EMAIL_PASSWORD, "", "", "", "", "", GUEST_USER, stored)
  }

  /** The mount effect: a stored record signs its user straight in. */
  function Restore(s: AuthState): (r: AuthState)
    ensures s.saved.Some? ==> r.step == COMPLETE && r.user == s.saved.value
    ensures s.saved.Some? ==> r.(step := s.step, user := s.user) == s
    ensures s.saved.None? ==> r == s
  {
    match s.saved
    case Some(u) => s.(user := u, step := COMPLETE)
    case None => s
  }

  /** The state once the page has loaded. */
  function Start(stored: Option<User>): AuthState {
    Restore(Initial(stored))
  }

  /** handleNextToUsername: leaves the credentials step only with both fields filled in. */
  function NextToUsername(s: AuthState): (r: AuthState)
    ensures r.authError == "" <==> s.email != "" && s.password != ""
    ensures r.authError == "" ==> r.step == USERNAME
    ensures r.authError != "" ==> r.authError == CREDENTIALS_MISSING && r.step == s.step
    ensures r.(step := s.step, authError := s.authError) == s
  {
    if s.email == "" || s.password == "" then s.(authError := CREDENTIALS_MISSING)
    else s.(authError := "", step := USERNAME)
  }

  /** handleSignupComplete: leaves the username step only with a username, copying it and the email into the user. */
  function SignupComplete(s: AuthState): (r: AuthState)
    ensures r.authError == "" <==> s.username != ""
    ensures r.authError == "" ==>
      r.step == ROLE_CHECK && r.user == s.user.(email := s.email, username := s.username)
    ensures r.authError != "" ==> r.authError == USERNAME_MISSING && r.step == s.step && r.user == s.user
    ensures r.(step := s.step, authError := s.authError, user := s.user) == s
  {
    if s.username == "" then s.(authError := USERNAME_MISSING)
    else s.(authError := "", user := s.user.(email := s.email, username := s.username), step := ROLE_CHECK)
  }

  /** finalizeLogin: the new user record is both the signed-in user and the saved record. */
  function FinalizeLogin(s: AuthState, role: UserRole): (r: AuthState)
    ensures r.step == COMPLETE
    ensures r.user == User(s.email, s.username, role, None)
    ensures r.saved == Some(r.user)
    ensures r.(step := s.step, user := s.user, saved := s.saved) == s
  {
    var newUser := User(s.email, s.username, role, None);
    s.(user := newUser, saved := Some(newUser), step := COMPLETE)
  }

  /** handleRoleSelection: a key holder goes to the key screen, anyone else becomes a buyer. */
  function RoleSelection(s: AuthState, hasKey: bool): (r: AuthState)
    ensures hasKey ==> r.step == ADMIN_INPUT && r.(step := s.step) == s
    ensures !hasKey ==> r == FinalizeLogin(s, BUYER) && r.user.role == BUYER
  {
    if hasKey then s.(step := ADMIN_INPUT) else FinalizeLogin(s, BUYER)
  }

  /** handleAdminKeySubmit: seller status exactly when the input equals the key, character for character. */
  function AdminKeySubmit(s: AuthState): (r: AuthState)
    ensures s.step == ADMIN_INPUT ==>
      (r.step == COMPLETE && r.user.role == SELLER <==> s.adminKeyInput == ADMIN_KEY)
    ensures s.adminKeyInput == ADMIN_KEY ==> r == FinalizeLogin(s, SELLER)
    ensures s.adminKeyInput != ADMIN_KEY ==> r == s.(authError := INVALID_CODE)
  {
    if s.adminKeyInput == ADMIN_KEY then FinalizeLogin(s, SELLER)
    else s.(authError := INVALID_CODE)
  }

  /** handleLogout: back to exactly the state of a fresh load with nothing stored. */
  function Logout(s: AuthState): (r: AuthState)
    ensures r == Start(None)
    ensures r.user == GUEST_USER && r.step == EMAIL_PASSWORD && r.saved == None
  {
    AuthState(EMAIL_PASSWORD, "", "", "", "", "", GUEST_USER, None)
  }

  /** The admin key input's change handler also clears a shown error; nothing else changes. */
  function EditAdminKey(s: AuthState, value: string): (r: AuthState)
    ensures r.adminKeyInput == value && r.authError == ""
    ensures r.(adminKeyInput := s.adminKeyInput, authError := s.authError) == s
  {
    s.(adminKeyInput := value, authError := "")
  }

  // The controls each screen offers (App.tsx:337-408 and the logout button of the dashboard).

  datatype AuthEvent =
    | TypeEmail(value: string)
    | TypePassword(value: string)
    | PressNext
    | TypeUsername(value: string)
    | PressSignUp
    | PressBack
    | PressHaveKey
    | PressNoKey
    | TypeAdminKey(value: string)
    | PressVerify
    | PressEnterAsBuyer
    | PressLogout

  /** Whether the screen for `step` renders the control behind `ev`. */
  predicate Offered(step: AuthStep, ev: AuthEvent)
    ensures Offered(step, ev) && step == COMPLETE ==> ev == PressLogout
    ensures Offered(step, ev) && ev == PressLogout ==> step == COMPLETE
  {
    match ev
    case TypeEmail(_) => step == EMAIL_PASSWORD
    case TypePassword(_) => step == EMAIL_PASSWORD
    case PressNext => step == EMAIL_PASSWORD
    case TypeUsername(_) => step == USERNAME
    case PressSignUp => step == USERNAME
    case PressBack => step == USERNAME
    case PressHaveKey => step == ROLE_CHECK
    case PressNoKey => step == ROLE_CHECK
    case TypeAdminKey(_) => step == ADMIN_INPUT
    case PressVerify => step == ADMIN_INPUT
    case PressEnterAsBuyer => step == ADMIN_INPUT
    case PressLogout => step == COMPLETE
  }

  /** What the control's handler does. */
  function Handle(s: AuthState, ev: AuthEvent): (r: AuthState)
    ensures r.user.role == SELLER && s.user.role != SELLER ==>
      (ev == PressVerify && s.adminKeyInput == ADMIN_KEY && r.saved == Some(r.user))
    ensures r.step == COMPLETE && s.step != COMPLETE ==> r.saved == Some(r.user) && r.user.role != GUEST
    ensures r.saved != s.saved ==> r.step == COMPLETE || ev == PressLogout
  {
    match ev
    case TypeEmail(v) => s.(email := v)
    case TypePassword(v) => s.(password := v)
    case PressNext => NextToUsername(s)
    case TypeUsername(v) => s.(username := v)
    case PressSignUp => SignupComplete(s)
    case PressBack => s.(step := EMAIL_PASSWORD)
    case PressHaveKey => RoleSelection(s.(authError := ""), true)
    case PressNoKey => RoleSelection(s, false)
    case TypeAdminKey(v) => EditAdminKey(s, v)
    case PressVerify => AdminKeySubmit(s)
    case PressEnterAsBuyer => FinalizeLogin(s, BUYER)
    case PressLogout => Logout(s)
  }

  /** A user action: a control that is not on screen cannot be used. */
  function Apply(s: AuthState, ev: AuthEvent): AuthState {
    if Offered(s.step, ev) then Handle(s, ev) else s
  }

  /** A sequence of user actions, in order. */
  function Run(s: AuthState, evs: seq<AuthEvent>): AuthState
    decreases |evs|
  {
    if evs == [] then s else Run(Apply(s, evs[0]), evs[1..])
  }

  // Invariants of the wizard.

  /** The saved record is present exactly while the wizard is complete, and then it is the signed-in user. */
  predicate RecordMatches(s: AuthState) {
    && (s.step == COMPLETE ==> s.saved == Some(s.user))
    && (s.step != COMPLETE ==> s.saved == None)
  }

  predicate PastCredentials(step: AuthStep) {
    step != EMAIL_PASSWORD
  }

  predicate PastUsername(step: AuthStep) {
    step == ROLE_CHECK || step == ADMIN_INPUT || step == COMPLETE
  }

  /**
   * What holds along a session that began without a stored record: every
   * later step was reached through the guards of the earlier ones, only a
   * completed wizard has a role, and a seller always typed the key.
   */
  predicate SessionInvariant(s: AuthState) {
    && RecordMatches(s)
    && (s.step != COMPLETE ==> s.user.role == GUEST)
    && (s.step == COMPLETE ==> s.user.role != GUEST)
    && (s.user.role == SELLER ==> s.adminKeyInput == ADMIN_KEY)
    && (PastCredentials(s.step) ==> s.email != "" && s.password != "")
    && (PastUsername(s.step) ==> s.username != "" && s.user.email == s.email && s.user.username == s.username)
  }

  lemma RecordMatchesStep(s: AuthState, ev: AuthEvent)
    requires RecordMatches(s)
    ensures RecordMatches(Apply(s, ev))
  {
  }

  lemma {:induction false} RecordMatchesRun(s: AuthState, evs: seq<AuthEvent>)
    requires RecordMatches(s)
    ensures RecordMatches(Run(s, evs))
    decreases |evs|
  {
    if evs != [] {
      RecordMatchesStep(s, evs[0]);
      RecordMatchesRun(Apply(s, evs[0]), evs[1..]);
    }
  }

  /** Whatever was in storage at load time, the saved record and the completed step agree from then on. */
  lemma RecordMatchesAfterLoad(stored: Option<User>, evs: seq<AuthEvent>)
    ensures RecordMatches(Run(Start(stored), evs))
  {
    RecordMatchesRun(Start(stored), evs);
  }

  lemma SessionInvariantStep(s: AuthState, ev: AuthEvent)
    requires SessionInvariant(s)
    ensures SessionInvariant(Apply(s, ev))
  {
  }

  lemma {:induction false} SessionInvariantRun(s: AuthState, evs: seq<AuthEvent>)
    requires SessionInvariant(s)
    ensures SessionInvariant(Run(s, evs))
    decreases |evs|
  {
    if evs != [] {
      SessionInvariantStep(s, evs[0]);
      SessionInvariantRun(Apply(s, evs[0]), evs[1..]);
    }
  }

  /**
   * In a session that began with nothing stored, a seller is signed in only
   * after the key was typed exactly, and a completed wizard has validated
   * the credentials and the username and carries them in the user record.
   */
  lemma FreshSessionGuarantees(evs: seq<AuthEvent>)
    ensures var s := Run(Start(None), evs);
      && (s.user.role == SELLER ==> s.step == COMPLETE && s.adminKeyInput == ADMIN_KEY)
      && (s.step == COMPLETE ==>
            s.email != "" && s.password != "" && s.username != ""
            && s.user == User(s.email, s.username, s.user.role, s.user.avatar)
            && s.user.role != GUEST && s.saved == Some(s.user))
  {
    SessionInvariantRun(Start(None), evs);
  }

  lemma {:induction false} RunAppend(s: AuthState, a: seq<AuthEvent>, b: seq<AuthEvent>)
    ensures Run(s, a + b) == Run(Run(s, a), b)
    decreases |a|
  {
    if a != [] {
      assert (a + b)[0] == a[0];
      assert (a + b)[1..] == a[1..] + b;
      RunAppend(Apply(s, a[0]), a[1..], b);
    } else {
      assert a + b == b;
    }
  }

  /** Credentials, then a username: the wizard asks for the role with both recorded. */
  lemma SignUpWalk(email: string, password: string, username: string)
    requires email != "" && password != "" && username != ""
    ensures var s := Run(Start(None), [TypeEmail(email), TypePassword(password), PressNext,
                                       TypeUsername(username), PressSignUp]);
      s.step == ROLE_CHECK && s.email == email && s.username == username
  {
    var evs := [TypeEmail(email), TypePassword(password), PressNext, TypeUsername(username), PressSignUp];
    var s0 := Start(None);
    var s1 := Apply(s0, TypeEmail(email));
    var s2 := Apply(s1, TypePassword(password));
    var s3 := Apply(s2, PressNext);
    var s4 := Apply(s3, TypeUsername(username));
    var s5 := Apply(s4, PressSignUp);
    assert s5.step == ROLE_CHECK;
    assert Run(s5, evs[5..]) == s5;
    assert Run(s4, evs[4..]) == s5;
    assert Run(s3, evs[3..]) == s5;
    assert Run(s2, evs[2..]) == s5;
    assert Run(s1, evs[1..]) == s5;
  }

  /** At the role question, "yes", the exact key and verify sign in a seller. */
  lemma KeyWalk(s: AuthState)
    requires s.step == ROLE_CHECK
    ensures var r := Run(s, [PressHaveKey, TypeAdminKey(ADMIN_KEY), PressVerify]);
      r.step == COMPLETE && r.user == User(s.email, s.username, SELLER, None) && r.saved == Some(r.user)
  {
    var evs := [PressHaveKey, TypeAdminKey(ADMIN_KEY), PressVerify];
    var s1 := Apply(s, PressHaveKey);
    var s2 := Apply(s1, TypeAdminKey(ADMIN_KEY));
    var s3 := Apply(s2, PressVerify);
    assert s3.user == User(s.email, s.username, SELLER, None);
    assert Run(s3, evs[3..]) == s3;
    assert Run(s2, evs[2..]) == s3;
    assert Run(s1, evs[1..]) == s3;
  }

  /** The seller path can be walked: credentials, username, "yes", the exact key, verify. */
  lemma SellerReachable(email: string, password: string, username: string)
    requires email != "" && password != "" && username != ""
    ensures var s := Run(Start(None), [TypeEmail(email), TypePassword(password), PressNext,
                                       TypeUsername(username), PressSignUp, PressHaveKey,
                                       TypeAdminKey(ADMIN_KEY), PressVerify]);
      s.step == COMPLETE && s.user == User(email, username, SELLER, None) && s.saved == Some(s.user)
  {
    var signUp := [TypeEmail(email), TypePassword(password), PressNext, TypeUsername(username), PressSignUp];
    var key := [PressHaveKey, TypeAdminKey(ADMIN_KEY), PressVerify];
    assert signUp + key == [TypeEmail(email), TypePassword(password), PressNext,
                            TypeUsername(username), PressSignUp, PressHaveKey,
                            TypeAdminKey(ADMIN_KEY), PressVerify];
    RunAppend(Start(None), signUp, key);
    SignUpWalk(email, password, username);
    var m := Run(Start(None), signUp);
    assert m.step == ROLE_CHECK && m.email == email && m.username == username;
    KeyWalk(m);
  }

  /** A key that differs in any way, letter case included, keeps the gate closed. */
  lemma WrongKeyKeepsGate(s: AuthState, key: string)
    requires s.step == ADMIN_INPUT && key != ADMIN_KEY
    ensures var r := Apply(Apply(s, TypeAdminKey(key)), PressVerify);
      r.step == ADMIN_INPUT && r.authError == INVALID_CODE && r.user == s.user && r.saved == s.saved
  {
  }
}
