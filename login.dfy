/** The two-step admin login: e-mail and password obtain an OTP key, then the
    six-digit OTP and that key obtain the access token. */
module Login {
  import opened Common
  import opened Pattern
  import opened Mobile

  /** `ROUTES.PENDING`, where a signed-in admin is sent. */
  const PendingRoute: string := "/dashboard/"

  const MinPasswordLength: nat := 6

  /** `^[0-9]{6}$`. */
  const OtpPattern: seq<CharClass> := Repeat(Digit, 6)

  datatype Step = CredentialsStep | OtpStep

  datatype Credentials = Credentials(email: string, password: string)

  /** The password rule of the credentials schema: `.min(6)` and
      `.required()`. */
  predicate PasswordAccepted(password: string) {
    password != "" && |password| >= MinPasswordLength
  }

  /** The OTP rule of the OTP schema: `.matches(/^[0-9]{6}$/)` and
      `.required()`. */
  predicate OtpAccepted(otp: string) {
    otp != "" && FullMatch(OtpPattern, otp)
  }

  lemma PasswordAcceptedLength(password: string)
    ensures PasswordAccepted(password) <==> |password| >= 6
  {
  }

  /** An OTP is accepted exactly when it is six ASCII digits. */
  lemma OtpAcceptedShape(otp: string)
    ensures OtpAccepted(otp) <==> |otp| == 6 && IsDigitString(otp)
  {
    FullMatchPointwise(OtpPattern, otp);
  }

  /** The login page's state together with the store's access token. */
  datatype Machine = Machine(step: Step, tempKey: string, email: string, accessToken: string)

  /** What the page reacts to: the answer to a credentials submission (the
      `data.key` it carried) or to an OTP submission (the `data.token`). */
  datatype Input =
    | CredentialsReply(values: Credentials, reply: Reply<string>)
    | OtpReply(otp: string, reply: Reply<string>)

  /** The step every visit starts in; the token is whatever the store holds. */
  function Initial(token: string): (m: Machine)
    ensures m.step == CredentialsStep && m.tempKey == ""
  {
    Machine(CredentialsStep, "", "", token)
  }

  /** The OTP step is only ever entered with a key to verify against. */
  predicate Consistent(m: Machine) {
    m.step == OtpStep ==> m.tempKey != ""
  }

  /** One transition. A credentials answer with a key moves to the OTP step
      and remembers key and e-mail; an OTP answer with a token stores the
      token. A missing key or token, or a rejected call, changes nothing. */
  function Next(m: Machine, input: Input): Machine
  {
    match input
    case CredentialsReply(values, reply) =>
      if reply.Resolved? && reply.value != "" then m.(step := OtpStep, tempKey := reply.value, email := values.email)
      else m
    case OtpReply(_, reply) =>
      if reply.Resolved? && reply.value != "" then m.(accessToken := reply.value)
      else m
  }

  function Run(m: Machine, inputs: seq<Input>): Machine
    decreases |inputs|
  {
    if inputs == [] then m else Run(Next(m, inputs[0]), inputs[1..])
  }

  predicate KeyDelivered(input: Input) {
    input.CredentialsReply? && input.reply.Resolved? && input.reply.value != ""
  }

  predicate TokenDelivered(input: Input) {
    input.OtpReply? && input.reply.Resolved? && input.reply.value != ""
  }

  /** The key of the last credentials answer that carried one. */
  function LastKey(inputs: seq<Input>, otherwise: string): string
    decreases |inputs|
  {
    if inputs == [] then otherwise
    else if KeyDelivered(inputs[|inputs| - 1]) then inputs[|inputs| - 1].reply.value
    else LastKey(inputs[..|inputs| - 1], otherwise)
  }

  /** The token of the last OTP answer that carried one. */
  function LastToken(inputs: seq<Input>, otherwise: string): string
    decreases |inputs|
  {
    if inputs == [] then otherwise
    else if TokenDelivered(inputs[|inputs| - 1]) then inputs[|inputs| - 1].reply.value
    else LastToken(inputs[..|inputs| - 1], otherwise)
  }

  lemma NextKeepsConsistent(m: Machine, input: Input)
    requires Consistent(m)
    ensures Consistent(Next(m, input))
  {
  }

  lemma {:induction false} RunSnoc(m: Machine, inputs: seq<Input>, last: Input)
    ensures Run(m, inputs + [last]) == Next(Run(m, inputs), last)
    decreases |inputs|
  {
    if inputs == [] {
      assert inputs + [last] == [last];
    } else {
      assert (inputs + [last])[0] == inputs[0];
      assert (inputs + [last])[1..] == inputs[1..] + [last];
      RunSnoc(Next(m, inputs[0]), inputs[1..], last);
    }
  }

  /** After any sequence of answers from a fresh page: the page is at the OTP
      step exactly when some credentials answer carried a key, the key held
      is the last one delivered, and the access token is the last token
      delivered (or the one the store started with). */
  lemma {:induction false} RunFromInitial(token: string, inputs: seq<Input>)
    ensures var m := Run(Initial(token), inputs);
      && Consistent(m)
      && (m.step == OtpStep <==> LastKey(inputs, "") != "")
      && m.tempKey == LastKey(inputs, "")
      && m.accessToken == LastToken(inputs, token)
    decreases |inputs|
  {
    if inputs != [] {
      var front := inputs[..|inputs| - 1];
      var last := inputs[|inputs| - 1];
      assert inputs == front + [last];
      RunFromInitial(token, front);
      RunSnoc(Initial(token), front, last);
      NextKeepsConsistent(Run(Initial(token), front), last);
    }
  }

  /** A rejected or empty answer is never a transition. */
  lemma {:induction false} SilentAnswersChangeNothing(m: Machine, inputs: seq<Input>)
    requires forall i :: 0 <= i < |inputs| ==> inputs[i].reply.Rejected? || inputs[i].reply.value == ""
    ensures Run(m, inputs) == m
    decreases |inputs|
  {
    if inputs != [] {
      SilentAnswersChangeNothing(Next(m, inputs[0]), inputs[1..]);
    }
  }

  /** The login page (`GLogin`): its step, the OTP key and the e-mail it
      shows, over the shared store and effect sink. */
  class LoginForm {
    var step: Step
    var tempKey: string
    var email: string
    const ui: Ui
    const store: Store

    ghost function State(): Machine
      reads this, store
    {
      Machine(step, tempKey, email, store.accessToken)
    }

    ghost predicate Valid()
      reads this, store
    {
      Consistent(State())
    }

    constructor (ui: Ui, store: Store)
      ensures this.ui == ui && this.store == store
      ensures State() == Initial(store.accessToken) && Valid()
    {
      this.ui := ui;
      this.store := store;
      step := CredentialsStep;
      tempKey := "";
      email := "";
    }

    /** `handleCredentialsSubmit`, given the answer to the login call. */
    method HandleCredentialsSubmit(values: Credentials, reply: Reply<string>)
      requires Valid()
      modifies this, ui
      ensures Valid()
      ensures State() == Next(old(State()), CredentialsReply(values, reply))
      ensures ui.events == old(ui.events) + [Call(Login(values.email, values.password))] +
        match reply
        case Resolved(key) =>
          if key != "" then [Toast(Success, "OTP sent to your email!")] else [Toast(Error, "Failed to get OTP key")]
        case Rejected(_) => [Toast(Error, "Invalid email or password")]
    {
      ui.Emit(Call(Login(values.email, values.password)));
      match reply {
        case Resolved(key) =>
          if key != "" {
            ui.Emit(Toast(Success, "OTP sent to your email!"));
            email := values.email;
            tempKey := key;
            step := OtpStep;
          } else {
            ui.Emit(Toast(Error, "Failed to get OTP key"));
          }
        case Rejected(_) =>
          ui.Emit(Toast(Error, "Invalid email or password"));
      }
    }

    /** `handleOtpSubmit`, given the answer to the verification call, which is
        sent with the stored key. A token is written to the store and the
        page moves on; otherwise the page stays where it is. */
    method HandleOtpSubmit(otp: string, reply: Reply<string>)
      requires Valid()
      modifies ui, store`accessToken
      ensures Valid()
      ensures State() == Next(old(State()), OtpReply(otp, reply))
      ensures step == OtpStep ==> tempKey != ""
      ensures ui.events == old(ui.events) + [Call(VerifyOtp(otp, tempKey))] +
        match reply
        case Resolved(token) =>
          if token != "" then [Toast(Success, "Login successful!"), Navigate(PendingRoute)]
          else [Toast(Error, "Failed to retrieve access token")]
        case Rejected(_) => [Toast(Error, "Invalid OTP")]
    {
      ui.Emit(Call(VerifyOtp(otp, tempKey)));
      match reply {
        case Resolved(token) =>
          if token != "" {
            store.accessToken := token;
            ui.Emit(Toast(Success, "Login successful!"));
            ui.Emit(Navigate(PendingRoute));
          } else {
            ui.Emit(Toast(Error, "Failed to retrieve access token"));
          }
        case Rejected(_) =>
          ui.Emit(Toast(Error, "Invalid OTP"));
      }
    }

    /** The effect on the access token: a page that finds a token in the
        store sends the admin on to the pending list. */
    method OnAccessTokenChange()
      modifies ui
      ensures ui.events == old(ui.events) + if store.accessToken != "" then [Navigate(PendingRoute)] else []
    {
      if store.accessToken != "" {
        ui.Emit(Navigate(PendingRoute));
      }
    }
  }
}
