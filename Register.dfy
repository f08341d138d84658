/**
 * The registration page. Pressing "register" clears the error label and
 * runs four checks in a fixed order; the first that fails puts its message
 * in the label, and only when all pass is the client asked to register the
 * user. A server that demands a CAPTCHA answers with a registration flow:
 * the page then creates its CAPTCHA dialog once and, when that dialog
 * closes, registers again with the session the flow carried.
 *
 * The client's network calls and the page's signals are recorded, in order,
 * in the `effects` log. The field validators behind `hasAcceptableInput` are
 * not part of this model and enter as uninterpreted predicates.
 */
module Register {
  import opened Wrappers

  /** The checks of the register button, named by the failure each reports. */
  datatype Failure = InvalidUsername | PasswordTooShort | PasswordMismatch | InvalidServer

  /** Position of a check in the order the register button runs them. */
  function Rank(c: Failure): nat
  {
    match c
    case InvalidUsername => 0
    case PasswordTooShort => 1
    case PasswordMismatch => 2
    case InvalidServer => 3
  }

  /** The label text for each failure (translation taken as the identity). */
  function Message(c: Failure): string
  {
    match c
    case InvalidUsername => "Invalid username"
    case PasswordTooShort => "Password is not long enough (min 8 chars)"
    case PasswordMismatch => "Passwords don't match"
    case InvalidServer => "Invalid server name"
  }

  /** The texts of the four input fields. */
  datatype Form = Form(username: string, password: string, confirmation: string, server: string)

  /** `hasAcceptableInput` of the username, password and server fields. */
  datatype Validators = Validators(
    username: string -> bool,
    password: string -> bool,
    server: string -> bool)

  /** Whether check `c` passes on `form`. */
  predicate Passes(c: Failure, form: Form, v: Validators)
  {
    match c
    case InvalidUsername => v.username(form.username)
    case PasswordTooShort => v.password(form.password)
    case PasswordMismatch => form.password == form.confirmation
    case InvalidServer => v.server(form.server)
  }

  /** The if/else chain of the register button: the failure it reports, if any. */
  function FirstFailure(form: Form, v: Validators): Option<Failure>
  {
    if !v.username(form.username) then Some(InvalidUsername)
    else if !v.password(form.password) then Some(PasswordTooShort)
    else if form.password != form.confirmation then Some(PasswordMismatch)
    else if !v.server(form.server) then Some(InvalidServer)
    else None
  }

  /** The chain reports the first check, in rank order, that fails: nothing
      exactly when all pass, otherwise a failing check that every check
      before it passes. */
  lemma FirstFailureIsFirst(form: Form, v: Validators)
    ensures FirstFailure(form, v).None? <==> forall c :: Passes(c, form, v)
    ensures FirstFailure(form, v).Some? ==> !Passes(FirstFailure(form, v).value, form, v)
    ensures FirstFailure(form, v).Some? ==>
      forall c :: Rank(c) < Rank(FirstFailure(form, v).value) ==> Passes(c, form, v)
  {
    var r := FirstFailure(form, v);
    if r.Some? {
      assert !Passes(r.value, form, v);
    }
  }

  /** A mismatch is reported only for a username and password that are
      themselves acceptable. */
  lemma MismatchNeedsAcceptablePassword(form: Form, v: Validators)
    requires FirstFailure(form, v) == Some(PasswordMismatch)
    ensures v.username(form.username) && v.password(form.password)
    ensures form.password != form.confirmation
  {
  }

  /** One failing check decides the report whatever the later fields hold. */
  lemma EarlierFailureWins(form: Form, other: Form, v: Validators)
    requires !v.username(form.username) && other.username == form.username
    ensures FirstFailure(other, v) == Some(InvalidUsername)
  {
  }

  /** Something the page signals or asks of the client, in the order it happens. */
  datatype Effect =
    | ErrorOccurred
    | Registering
    | RegisterUser(user: string, pass: string, server: string, session: Option<string>)

  /** What a press of the register button records. */
  function ClickEffects(form: Form, v: Validators): seq<Effect>
  {
    if FirstFailure(form, v).Some? then [ErrorOccurred]
    else [RegisterUser(form.username, form.password, form.server, None), Registering]
  }

  /** The client is asked to register exactly when every check passes, with
      the username, password and server texts and no session, and
      `registering` follows that call; any failure only signals an error. */
  lemma RegisterUserGating(form: Form, v: Validators)
    ensures (exists e :: e in ClickEffects(form, v) && e.RegisterUser?) <==>
      forall c :: Passes(c, form, v)
    ensures forall e :: e in ClickEffects(form, v) && e.RegisterUser? ==>
      e == RegisterUser(form.username, form.password, form.server, None)
    ensures ErrorOccurred in ClickEffects(form, v) <==> exists c :: !Passes(c, form, v)
    ensures Registering in ClickEffects(form, v) ==>
      ClickEffects(form, v) == [ClickEffects(form, v)[0], Registering] &&
      ClickEffects(form, v)[0].RegisterUser?
    ensures (exists c :: !Passes(c, form, v)) ==> ClickEffects(form, v) == [ErrorOccurred]
  {
    FirstFailureIsFirst(form, v);
    var r := ClickEffects(form, v);
    if FirstFailure(form, v).None? {
      assert r[0] in r && r[0].RegisterUser?;
    }
  }

  /** The values the CAPTCHA closing handler was connected with. */
  datatype Credentials = Credentials(user: string, pass: string, server: string, session: string)

  /** The CAPTCHA dialog for one server and session. */
  class ReCaptcha {
    const server: string
    const session: string
    var visible: bool

    constructor (server: string, session: string)
      ensures this.server == server && this.session == session && !visible
    {
      this.server := server;
      this.session := session;
      visible := false;
    }
  }

  class RegisterPage {
    var form: Form
    var errorLabel: string
    /** Signals emitted and client calls issued, oldest first. */
    var effects: seq<Effect>
    var captchaDialog: ReCaptcha?
    /** What the dialog's closing handler registers with, fixed when the
        dialog is created. */
    var captchaClosing: Option<Credentials>

    /** A dialog exists exactly when its closing handler is connected. */
    ghost predicate Valid()
      reads this
    {
      (captchaDialog == null) == captchaClosing.None?
    }

    constructor ()
      ensures Valid() && form == Form("", "", "", "") && errorLabel == ""
      ensures effects == [] && captchaDialog == null
    {
      form := Form("", "", "", "");
      errorLabel := "";
      effects := [];
      captchaDialog := null;
      captchaClosing := None;
    }

    /** The user edits the fields. */
    method SetForm(f: Form)
      modifies this`form
      ensures form == f
    {
      form := f;
    }

    /** `registerError`: signals the error and shows `msg`. */
    method RegisterError(msg: string)
      modifies this`errorLabel, this`effects
      ensures errorLabel == msg && effects == old(effects) + [ErrorOccurred]
    {
      effects := effects + [ErrorOccurred];
      errorLabel := msg;
    }

    /** `onRegisterButtonClicked`: clears the label, then either reports the
        first failing check or asks the client to register. */
    method OnRegisterButtonClicked(v: Validators)
      requires Valid()
      modifies this`errorLabel, this`effects
      ensures Valid()
      ensures errorLabel == (if FirstFailure(form, v).Some? then Message(FirstFailure(form, v).value) else "")
      ensures effects == old(effects) + ClickEffects(form, v)
    {
      errorLabel := "";

      if !v.username(form.username) {
        RegisterError(Message(InvalidUsername));
      } else if !v.password(form.password) {
        RegisterError(Message(PasswordTooShort));
      } else if form.password != form.confirmation {
        RegisterError(Message(PasswordMismatch));
      } else if !v.server(form.server) {
        RegisterError(Message(InvalidServer));
      } else {
        var username := form.username;
        var password := form.password;
        var server := form.server;
        effects := effects + [RegisterUser(username, password, server, None)];
        effects := effects + [Registering];
      }
    }

    /** The handler of the client's `registrationFlow`: signals an error,
        creates the CAPTCHA dialog and connects its closing handler only when
        there is none yet, and shows the dialog. */
    method RegistrationFlow(user: string, pass: string, server: string, session: string)
      requires Valid()
      modifies this`effects, this`captchaDialog, this`captchaClosing, captchaDialog
      ensures Valid() && captchaDialog != null && captchaDialog.visible
      ensures effects == old(effects) + [ErrorOccurred]
      ensures old(captchaDialog) != null ==>
        captchaDialog == old(captchaDialog) && captchaClosing == old(captchaClosing)
      ensures old(captchaDialog) == null ==>
        && fresh(captchaDialog)
        && captchaDialog.server == server && captchaDialog.session == session
        && captchaClosing == Some(Credentials(user, pass, server, session))
    {
      effects := effects + [ErrorOccurred];

      if captchaDialog == null {
        captchaDialog := new ReCaptcha(server, session);
        captchaClosing := Some(Credentials(user, pass, server, session));
      }

      captchaDialog.visible := true;
    }

    /** The dialog's closing handler: closes it, signals `registering` and
        registers with the values it was connected with. */
    method CaptchaClosing()
      requires Valid() && captchaDialog != null
      modifies this`effects, captchaDialog
      ensures !captchaDialog.visible
      ensures effects == old(effects) + [Registering, RegisterUser(
        captchaClosing.value.user, captchaClosing.value.pass,
        captchaClosing.value.server, Some(captchaClosing.value.session))]
    {
      captchaDialog.visible := false;
      var c := captchaClosing.value;
      effects := effects + [Registering, RegisterUser(c.user, c.pass, c.server, Some(c.session))];
    }
  }

  /** Two registration flows in a row share one dialog, and closing it
      registers with the first flow's values. */
  method RepeatedFlowsReuseDialog(page: RegisterPage, first: Credentials, second: Credentials)
    requires page.Valid() && page.captchaDialog == null
    modifies page, page.captchaDialog
    ensures page.Valid() && page.captchaDialog != null
    ensures page.captchaDialog.session == first.session
    ensures page.effects == old(page.effects) + [ErrorOccurred, ErrorOccurred, Registering,
      RegisterUser(first.user, first.pass, first.server, Some(first.session))]
  {
    page.RegistrationFlow(first.user, first.pass, first.server, first.session);
    var dialog := page.captchaDialog;
    page.RegistrationFlow(second.user, second.pass, second.server, second.session);
    assert page.captchaDialog == dialog;
    page.CaptchaClosing();
  }
}
