/**
 * The power-on, boot and login state machine of the application shell:
 * which screen is shown, the two-step login form (identity, then access
 * code), the role picker and the logout reset.
 */
module Login {
  import opened Text

  datatype View = PowerOff | Boot | LoginScreen | TerminalScreen

  datatype LoginStep = Identity | Password

  /** Every field of the application state the handlers touch. */
  datatype Form = Form(
    view: View,
    bootStep: nat,
    loadingProgress: nat,
    identity: string,
    password: string,
    role: string,
    customRoleMode: bool,
    loginStep: LoginStep,
    loginError: string)

  /** The ids of the role buttons, in their order. */
  const RoleIds: seq<string> := ["VISITOR", "AGENT", "SCIENTIST", "DIRECTOR", "Ω", "CUSTOM"]

  const Initial: Form := Form(PowerOff, 0, 0, "", "", "VISITOR", false, Identity, "")

  /** The access codes: `imcu` in any letter case, or `1234`. */
  predicate Accepted(password: string) {
    Lower(password) == "imcu" || password == "1234"
  }

  /** The user actions and the one timer outcome the state machine reacts to. */
  datatype Event =
    | PressPower                 // the power button
    | BootEnds                   // the boot sequence running to its end
    | TypeField(value: string)   // the login input
    | SubmitForm                 // PROCEED / AUTHENTICATE
    | ChooseRole(id: string)     // a role button
    | TypeCustomRole(value: string)
    | CancelCustomRole           // [ CANCEL OVERRIDE ]
    | LogOut                     // `logout` in the shell

  /** An event can happen only while the control that raises it is on screen. */
  predicate Enabled(f: Form, e: Event) {
    match e
    case PressPower => f.view == PowerOff
    case BootEnds => f.view == Boot
    case TypeField(_) => f.view == LoginScreen
    case SubmitForm => f.view == LoginScreen
    case ChooseRole(id) => f.view == LoginScreen && f.loginStep == Identity && !f.customRoleMode && id in RoleIds
    case TypeCustomRole(_) => f.view == LoginScreen && f.loginStep == Identity && f.customRoleMode
    case CancelCustomRole => f.view == LoginScreen && f.loginStep == Identity && f.customRoleMode
    case LogOut => f.view == TerminalScreen
  }

  /** `s.trim().length === 0`: nothing but white space (see `BlankTrimsToEmpty`). */
  predicate Blank(s: string) {
    AllSpace(s)
  }

  /** `handleLogin`. */
  function Submitted(f: Form): Form {
    if f.loginStep == Identity then
      if !Blank(f.identity) then
        f.(role := if Blank(f.role) then "VISITOR" else f.role, loginStep := Password, loginError := "")
      else
        f.(loginError := "IDENTITY_REQUIRED")
    else if Accepted(f.password) then
      f.(view := TerminalScreen)
    else
      f.(loginError := "INVALID_ACCESS_CODE", password := "")
  }

  /** The state after an enabled event. */
  function Next(f: Form, e: Event): Form
    requires Enabled(f, e)
  {
    match e
    case PressPower => f.(view := Boot)
    case BootEnds => f.(view := LoginScreen, bootStep := 4, loadingProgress := 100)
    case TypeField(v) => if f.loginStep == Identity then f.(identity := v) else f.(password := v)
    case SubmitForm => Submitted(f)
    case ChooseRole(id) => if id == "CUSTOM" then f.(customRoleMode := true, role := "") else f.(role := id)
    case TypeCustomRole(v) => f.(role := v)
    case CancelCustomRole => f.(customRoleMode := false, role := "VISITOR")
    case LogOut =>
      f.(identity := "", password := "", role := "VISITOR", customRoleMode := false, loginStep := Identity,
         view := LoginScreen, loginError := "", bootStep := 0, loadingProgress := 0)
  }

  /**
   * What the login screen guarantees: the access-code step is reached only
   * with a non-blank identity and role, and the shell is shown only after
   * an accepted access code.
   */
  predicate Valid(f: Form) {
    (f.loginStep == Password ==> !Blank(f.identity) && !Blank(f.role)) &&
    (f.view == TerminalScreen ==> f.loginStep == Password && Accepted(f.password))
  }

  // ---------------------------------------------------------------------
  // Properties

  /** Blank is what `trim()` turns into the empty string. */
  lemma BlankTrimsToEmpty(s: string)
    ensures Blank(s) <==> Trim(s) == ""
  {
  }

  lemma VisitorIsNotBlank()
    ensures !Blank("VISITOR")
  {
    assert !IsSpace("VISITOR"[0]);
  }

  /** At the identity step: PASSWORD exactly for a non-blank identity, with a non-blank role. */
  lemma IdentityStep(f: Form)
    requires f.view == LoginScreen && f.loginStep == Identity
    ensures var g := Submitted(f);
            g.view == LoginScreen && g.identity == f.identity && g.password == f.password &&
            g.customRoleMode == f.customRoleMode &&
            (g.loginStep == Password <==> !Blank(f.identity)) &&
            (Blank(f.identity) ==> g == f.(loginError := "IDENTITY_REQUIRED")) &&
            (!Blank(f.identity) ==> g.loginError == "" && !Blank(g.role) &&
                                    g.role == (if Blank(f.role) then "VISITOR" else f.role))
  {
    VisitorIsNotBlank();
  }

  /** At the access-code step: the shell exactly for an accepted code, else the code is cleared. */
  lemma PasswordStep(f: Form)
    requires f.view == LoginScreen && f.loginStep == Password
    ensures var g := Submitted(f);
            (g.view == TerminalScreen <==> Accepted(f.password)) &&
            (Accepted(f.password) ==> g == f.(view := TerminalScreen)) &&
            (!Accepted(f.password) ==>
               g == f.(loginError := "INVALID_ACCESS_CODE", password := "") && g.loginStep == Password)
  {
  }

  lemma LowerIs(c: char, upper: char, lower: char)
    requires 'a' <= lower <= 'z' && upper as int == lower as int - 32
    ensures LowerChar(c) == lower <==> c == lower || c == upper
  {
  }

  /** The accepted codes spelled out: `1234`, or `imcu` with each letter in either case. */
  lemma AcceptedCodes(p: string)
    ensures Accepted(p) <==>
              p == "1234" ||
              (|p| == 4 && p[0] in "iI" && p[1] in "mM" && p[2] in "cC" && p[3] in "uU")
  {
    if |p| == 4 {
      LowerIs(p[0], 'I', 'i');
      LowerIs(p[1], 'M', 'm');
      LowerIs(p[2], 'C', 'c');
      LowerIs(p[3], 'U', 'u');
      var l := Lower(p);
      assert l == "imcu" <==> l[0] == 'i' && l[1] == 'm' && l[2] == 'c' && l[3] == 'u';
    } else {
      assert |Lower(p)| != |"imcu"|;
    }
  }

  lemma InitialIsValid()
    ensures Valid(Initial)
  {
  }

  /** Every enabled event keeps the login guarantees. */
  lemma NextKeepsValid(f: Form, e: Event)
    requires Valid(f) && Enabled(f, e)
    ensures Valid(Next(f, e))
  {
    if e.SubmitForm? {
      if f.loginStep == Identity {
        IdentityStep(f);
      }
    }
  }

  /** The shell is entered only by submitting an accepted access code. */
  lemma TerminalOnlyByAccessCode(f: Form, e: Event)
    requires Enabled(f, e) && f.view != TerminalScreen && Next(f, e).view == TerminalScreen
    ensures e == SubmitForm && f.loginStep == Password && Accepted(f.password)
  {
  }

  /** The boot screen is entered only by the power button, and only from the dark screen. */
  lemma BootOnlyByPower(f: Form, e: Event)
    requires Enabled(f, e) && f.view != Boot && Next(f, e).view == Boot
    ensures e == PressPower && f.view == PowerOff
  {
  }

  /** Logout forgets the whole session: it is the power-on state, already at the login screen. */
  lemma LogoutForgets(f: Form)
    requires f.view == TerminalScreen
    ensures Next(f, LogOut) == Initial.(view := LoginScreen)
    ensures Valid(Next(f, LogOut))
  {
  }

  /** The role buttons: CUSTOM opens the custom field with a blank role, the others pick their id. */
  lemma RoleChoice(f: Form, id: string)
    requires Enabled(f, ChooseRole(id))
    ensures var g := Next(f, ChooseRole(id));
            g.customRoleMode == (id == "CUSTOM") &&
            g.role == (if id == "CUSTOM" then "" else id) &&
            g.(role := f.role, customRoleMode := f.customRoleMode) == f
  {
  }

  /** Cancelling the custom role after opening it leaves the role at VISITOR and the picker shown. */
  lemma CancelUndoesCustom(f: Form)
    requires Enabled(f, ChooseRole("CUSTOM"))
    ensures var g := Next(f, ChooseRole("CUSTOM"));
            Enabled(g, CancelCustomRole) &&
            Next(g, CancelCustomRole) == f.(role := "VISITOR")
  {
  }

  /** Whether each event of `es` is enabled after the ones before it. */
  predicate Trace(f: Form, es: seq<Event>)
    decreases |es|
  {
    es == [] || (Enabled(f, es[0]) && Trace(Next(f, es[0]), es[1..]))
  }

  function After(f: Form, es: seq<Event>): Form
    requires Trace(f, es)
    decreases |es|
  {
    if es == [] then f else After(Next(f, es[0]), es[1..])
  }

  /** The login guarantees hold at every state reachable from power-off. */
  lemma {:induction false} TraceKeepsValid(f: Form, es: seq<Event>)
    requires Valid(f) && Trace(f, es)
    ensures Valid(After(f, es))
    decreases |es|
  {
    if es != [] {
      NextKeepsValid(f, es[0]);
      TraceKeepsValid(Next(f, es[0]), es[1..]);
    }
  }

  // ---------------------------------------------------------------------
  // The application component

  class App {
    var view: View
    var bootStep: nat
    var loadingProgress: nat
    var identity: string
    var password: string
    var role: string
    var customRoleMode: bool
    var loginStep: LoginStep
    var loginError: string

    function Snapshot(): Form
      reads this
    {
      Form(view, bootStep, loadingProgress, identity, password, role, customRoleMode, loginStep, loginError)
    }

    predicate Ok()
      reads this
    {
      Valid(Snapshot())
    }

    constructor()
      ensures Snapshot() == Initial && Ok()
    {
      view := PowerOff;
      bootStep := 0;
      loadingProgress := 0;
      identity := "";
      password := "";
      role := "VISITOR";
      customRoleMode := false;
      loginStep := Identity;
      loginError := "";
    }

    /** `handlePowerOn`. */
    method PowerOn()
      requires Ok() && Enabled(Snapshot(), PressPower)
      modifies this
      ensures Snapshot() == Next(old(Snapshot()), PressPower) && Ok()
    {
      view := Boot;
    }

    /** The end of the boot sequence: its last timer shows the login screen. */
    method FinishBoot()
      requires Ok() && Enabled(Snapshot(), BootEnds)
      modifies this
      ensures Snapshot() == Next(old(Snapshot()), BootEnds) && Ok()
    {
      bootStep := 4;
      loadingProgress := 100;
      view := LoginScreen;
    }

    /** The login input's `onChange`: it edits the identity or the access code. */
    method TypeCredential(value: string)
      requires Ok() && Enabled(Snapshot(), TypeField(value))
      modifies this
      ensures Snapshot() == Next(old(Snapshot()), TypeField(value)) && Ok()
    {
      if loginStep == Identity {
        identity := value;
      } else {
        password := value;
      }
    }

    /** `handleLogin`. */
    method Submit()
      requires Ok() && Enabled(Snapshot(), SubmitForm)
      modifies this
      ensures Snapshot() == Next(old(Snapshot()), SubmitForm) && Ok()
    {
      if loginStep == Identity {
        SubmitIdentity();
      } else {
        SubmitAccessCode();
      }
    }

    /** `handleLogin` at the identity step. */
    method SubmitIdentity()
      requires Ok() && view == LoginScreen && loginStep == Identity
      modifies this
      ensures Snapshot() == Submitted(old(Snapshot())) && Ok()
    {
      VisitorIsNotBlank();
      if !Blank(identity) {
        if Blank(role) {
          role := "VISITOR";
        }
        loginStep := Password;
        loginError := "";
      } else {
        loginError := "IDENTITY_REQUIRED";
      }
    }

    /** `handleLogin` at the access-code step. */
    method SubmitAccessCode()
      requires Ok() && view == LoginScreen && loginStep == Password
      modifies this
      ensures Snapshot() == Submitted(old(Snapshot())) && Ok()
    {
      if Lower(password) == "imcu" || password == "1234" {
        view := TerminalScreen;
      } else {
        loginError := "INVALID_ACCESS_CODE";
        password := "";
      }
    }

    /** A role button's `onClick`. */
    method PickRole(id: string)
      requires Ok() && Enabled(Snapshot(), ChooseRole(id))
      modifies this
      ensures Snapshot() == Next(old(Snapshot()), ChooseRole(id)) && Ok()
    {
      if id == "CUSTOM" {
        customRoleMode := true;
        role := "";
      } else {
        role := id;
      }
    }

    /** The custom role input's `onChange`. */
    method TypeRole(value: string)
      requires Ok() && Enabled(Snapshot(), TypeCustomRole(value))
      modifies this
      ensures Snapshot() == Next(old(Snapshot()), TypeCustomRole(value)) && Ok()
    {
      role := value;
    }

    /** `[ CANCEL OVERRIDE ]`. */
    method CancelOverride()
      requires Ok() && Enabled(Snapshot(), CancelCustomRole)
      modifies this
      ensures Snapshot() == Next(old(Snapshot()), CancelCustomRole) && Ok()
    {
      customRoleMode := false;
      role := "VISITOR";
    }

    /** `handleLogout`. */
    method Logout()
      requires Ok() && Enabled(Snapshot(), LogOut)
      modifies this
      ensures Snapshot() == Next(old(Snapshot()), LogOut) && Ok()
    {
      identity := "";
      password := "";
      role := "VISITOR";
      customRoleMode := false;
      loginStep := Identity;
      view := LoginScreen;
      loginError := "";
      bootStep := 0;
      loadingProgress := 0;
    }
  }
}
