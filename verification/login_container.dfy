/** The login screen's controller: its state, the handlers the presenter
    calls, and the effects (toasts, requests, navigation) each handler
    produces. Every handler is a pure step from a state to a new state and a
    list of effects, in the order the controller issues them. */
module LoginContainer {
  import opened LoginTypes
  import opened PhoneValidator

  /** The controller's state record. */
  datatype State = State(countryCode: string, loginMethod: LoginMethod, phoneNumber: string)

  const DefaultCountryCode: string := "+82"

  /** The state the screen mounts with. */
  const InitialState: State := State(DefaultCountryCode, Unselected, "")

  const InvalidPhoneMessage: string := "Phone number is not valid"
  const SmsSentMessage: string := "SMS Sent."
  const FacebookFailedMessage: string := "Couldn't log in with Facebook, try again"
  const VerifyPhonePath: string := "/verify-phone"
  const VerifyPhoneDelayMs: nat := 4000

  /** What the controller asks of its collaborators: the toast surface, the
      three mutations, and the router (after a delay). */
  datatype Effect =
    | ToastSuccess(message: string)
    | ToastError(message: string)
    | CallPhoneSignIn(phone: string)
    | CallFacebookConnect(email: Option<string>, firstName: string, lastName: string, userId: string)
    | CallLogUserIn(token: Option<string>)
    | NavigateAfter(delayMs: nat, path: string, phone: string)

  /** The phone number the controller submits: dial code and number, with no
      separator. */
  function Phone(s: State): string {
    s.countryCode + s.phoneNumber
  }

  /** The method changes the screen allows in one step: none, or one into or
      out of `Unselected`; never directly between mobile and social. */
  predicate AllowedTransition(from: LoginMethod, to: LoginMethod) {
    from == to || from == Unselected || to == Unselected
  }

  // ---------------------------------------------------------------------
  // Login-method selection

  function HandleMobileClick(s: State): (r: State)
    ensures r.countryCode == s.countryCode && r.phoneNumber == s.phoneNumber
    ensures s.loginMethod == Unselected ==> r.loginMethod == Mobile
    ensures s.loginMethod != Unselected ==> r == s
    ensures AllowedTransition(s.loginMethod, r.loginMethod)
  {
    if s.loginMethod == Unselected then s.(loginMethod := Mobile) else s
  }

  function HandleSocialClick(s: State): (r: State)
    ensures r.countryCode == s.countryCode && r.phoneNumber == s.phoneNumber
    ensures s.loginMethod == Unselected ==> r.loginMethod == Social
    ensures s.loginMethod != Unselected ==> r == s
    ensures AllowedTransition(s.loginMethod, r.loginMethod)
  {
    if s.loginMethod == Unselected then s.(loginMethod := Social) else s
  }

  function HandleBackButtonClick(s: State): (r: State)
    ensures r.loginMethod == Unselected
    ensures r.countryCode == s.countryCode && r.phoneNumber == s.phoneNumber
    ensures AllowedTransition(s.loginMethod, r.loginMethod)
  {
    s.(loginMethod := Unselected)
  }

  /** Back undoes a committed choice: choosing a method from `Unselected`
      and then going back restores the state exactly. */
  lemma BackUndoesChoice(s: State)
    requires s.loginMethod == Unselected
    ensures HandleBackButtonClick(HandleMobileClick(s)) == s
    ensures HandleBackButtonClick(HandleSocialClick(s)) == s
  {
  }

  /** From any state, going back twice is the same as going back once. */
  lemma BackIdempotent(s: State)
    ensures HandleBackButtonClick(HandleBackButtonClick(s)) == HandleBackButtonClick(s)
  {
  }

  /** Once a method is chosen, the other choice is ignored until back is
      pressed. */
  lemma ChoiceIsSticky(s: State)
    ensures HandleSocialClick(HandleMobileClick(s)).loginMethod != Social || s.loginMethod == Social
    ensures HandleMobileClick(HandleSocialClick(s)).loginMethod != Mobile || s.loginMethod == Mobile
  {
  }

  // ---------------------------------------------------------------------
  // Named-field update

  /** The input elements the screen wires to the change handler, by their
      `name` attribute. */
  datatype Field = CountryCode | PhoneNumber

  function FieldName(f: Field): string {
    match f
    case CountryCode => "countryCode"
    case PhoneNumber => "phoneNumber"
  }

  function FieldNamed(name: string): (f: Option<Field>)
    ensures f.Some? <==> name in {"countryCode", "phoneNumber"}
  {
    if name == "countryCode" then Some(CountryCode)
    else if name == "phoneNumber" then Some(PhoneNumber)
    else None
  }

  /** A field's name identifies it, and every name that identifies a field
      is that field's name. */
  lemma FieldNameRoundTrip(f: Field, name: string)
    ensures FieldNamed(FieldName(f)) == Some(f)
    ensures FieldNamed(name) == Some(f) <==> FieldName(f) == name
  {
  }

  /** The slot of the state a field names. */
  function Get(s: State, f: Field): string {
    match f
    case CountryCode => s.countryCode
    case PhoneNumber => s.phoneNumber
  }

  /** Writes the value into the named slot, unvalidated. */
  function HandleInputChange(s: State, f: Field, value: string): (r: State)
    ensures Get(r, f) == value
    ensures forall g :: g != f ==> Get(r, g) == Get(s, g)
    ensures r.loginMethod == s.loginMethod
  {
    match f
    case CountryCode => s.(countryCode := value)
    case PhoneNumber => s.(phoneNumber := value)
  }

  /** The last write to a slot wins, writes to different slots commute, and
      writing back what a slot holds changes nothing. */
  lemma InputChangeLaws(s: State, f: Field, g: Field, v: string, w: string)
    ensures HandleInputChange(HandleInputChange(s, f, v), f, w) == HandleInputChange(s, f, w)
    ensures f != g ==>
      HandleInputChange(HandleInputChange(s, f, v), g, w) == HandleInputChange(HandleInputChange(s, g, w), f, v)
    ensures HandleInputChange(s, f, Get(s, f)) == s
  {
  }

  // ---------------------------------------------------------------------
  // Phone sign-in

  /** On submit: request the SMS sign-in with the concatenated number when
      it matches the pattern, otherwise raise one error toast. */
  function HandleSubmit(s: State): (effects: seq<Effect>)
    ensures |effects| == 1
    ensures effects[0].CallPhoneSignIn? <==> ValidPhone(s.countryCode + s.phoneNumber)
    ensures effects[0].CallPhoneSignIn? ==> effects[0].phone == s.countryCode + s.phoneNumber
    ensures !effects[0].CallPhoneSignIn? ==> effects[0] == ToastError(InvalidPhoneMessage)
  {
    if ValidPhone(Phone(s)) then [CallPhoneSignIn(Phone(s))] else [ToastError(InvalidPhoneMessage)]
  }

  /** The screen mounts with no method chosen and the `+82` dial code alone,
      which the pattern rejects: submitting before typing a number only
      raises the error toast. */
  lemma InitialSubmitRejected()
    ensures InitialState.loginMethod == Unselected
    ensures Get(InitialState, CountryCode) == "+82" && Get(InitialState, PhoneNumber) == ""
    ensures HandleSubmit(InitialState) == [ToastError(InvalidPhoneMessage)]
  {
  }

  /** The `requestPhoneSignIn` payload the mutation's update callback sees. */
  datatype PhoneSignInResult = PhoneSignInResult(ok: bool, error: Option<string>)

  /** The SMS request's update callback, run against the state at the time
      the response arrives. */
  function HandleAfterSubmit(s: State, result: PhoneSignInResult): (effects: seq<Effect>)
    ensures result.ok ==> |effects| == 2 && effects[0] == ToastSuccess(SmsSentMessage)
    ensures result.ok ==> effects[1].NavigateAfter? && effects[1].delayMs == VerifyPhoneDelayMs
                          && effects[1].path == VerifyPhonePath && effects[1].phone == s.countryCode + s.phoneNumber
    ensures !result.ok && Truthy(result.error) ==> effects == [ToastError(result.error.value)]
    ensures !result.ok && !Truthy(result.error) ==> effects == []
  {
    if result.ok then
      [ToastSuccess(SmsSentMessage), NavigateAfter(VerifyPhoneDelayMs, VerifyPhonePath, Phone(s))]
    else if Truthy(result.error) then
      [ToastError(result.error.value)]
    else
      []
  }

  /** When nothing changes between the submit and the response, the number
      handed to the verification screen is the number that was requested. */
  lemma NavigationCarriesSubmittedPhone(s: State, result: PhoneSignInResult)
    requires HandleSubmit(s)[0].CallPhoneSignIn?
    requires result.ok
    ensures HandleAfterSubmit(s, result)[1].phone == HandleSubmit(s)[0].phone
    ensures ValidPhone(HandleAfterSubmit(s, result)[1].phone)
  {
  }

  /** The number handed on is re-read from the state when the response
      arrives, so an edit made while the request is in flight is what the
      verification screen receives. */
  lemma NavigationRereadsState()
    ensures
      var s := State("+82", Mobile, "1012345678");
      var edited := HandleInputChange(s, PhoneNumber, "1");
      && HandleSubmit(s) == [CallPhoneSignIn("+821012345678")]
      && HandleAfterSubmit(edited, PhoneSignInResult(true, None))[1].phone == "+821"
      && !ValidPhone("+821")
  {
    var s := State("+82", Mobile, "1012345678");
    DefaultCodeNumbers("1012345678");
    DefaultCodeNumbers("1");
    assert Phone(s) == "+82" + "1012345678" == "+821012345678";
    assert "+82" + "1" == "+821";
  }

  // ---------------------------------------------------------------------
  // Facebook login

  /** The fields of the Facebook SDK response the handler reads. */
  datatype FacebookResponse = FacebookResponse(
    accessToken: Option<string>,
    email: Option<string>,
    firstName: string,
    lastName: string,
    userId: string)

  /** The `facebookConnect` payload the connect mutation's update callback sees. */
  datatype ConnectResult = ConnectResult(ok: bool, token: Option<string>)

  /** The provider callback: no access token means the provider flow was
      abandoned and nothing happens; otherwise one connect request, with an
      empty or missing email sent as null. */
  function HandleFacebookResponse(response: FacebookResponse): (effects: seq<Effect>)
    ensures effects == [] <==> !Truthy(response.accessToken)
    ensures |effects| <= 1
    ensures forall e :: e in effects ==>
      && e.CallFacebookConnect?
      && (e.email.Some? <==> Truthy(response.email))
      && (e.email.Some? ==> e.email == response.email)
      && e.firstName == response.firstName
      && e.lastName == response.lastName
      && e.userId == response.userId
  {
    if Truthy(response.accessToken) then
      var email := if Truthy(response.email) then response.email else None;
      [CallFacebookConnect(email, response.firstName, response.lastName, response.userId)]
    else
      []
  }

  /** The connect mutation's update callback: log in with the returned token
      on success, one error toast otherwise. */
  function HandleFacebookConnect(result: ConnectResult): (effects: seq<Effect>)
    ensures |effects| == 1
    ensures effects[0].CallLogUserIn? <==> result.ok
    ensures result.ok ==> effects[0].token == result.token
    ensures !result.ok ==> effects[0] == ToastError(FacebookFailedMessage)
  {
    if result.ok then [CallLogUserIn(result.token)] else [ToastError(FacebookFailedMessage)]
  }

  /** How many log-in requests a list of effects issues. */
  function LogInCalls(effects: seq<Effect>): nat
    decreases |effects|
  {
    if effects == [] then 0
    else (if effects[0].CallLogUserIn? then 1 else 0) + LogInCalls(effects[1..])
  }

  lemma LogInCallsAppend(a: seq<Effect>, b: seq<Effect>)
    ensures LogInCalls(a + b) == LogInCalls(a) + LogInCalls(b)
    decreases |a|
  {
    if a == [] {
      assert a + b == b;
    } else {
      assert (a + b)[0] == a[0];
      assert (a + b)[1..] == a[1..] + b;
      LogInCallsAppend(a[1..], b);
    }
  }

  /** The whole Facebook flow: the provider callback, then, if a connect
      request went out and resolved with a payload, its update callback.
      `connect` is `None` when the update callback never runs, as when the
      connect mutation rejects. */
  function FacebookLogin(response: FacebookResponse, connect: Option<ConnectResult>): (effects: seq<Effect>)
    ensures !Truthy(response.accessToken) ==> effects == []
    ensures Truthy(response.accessToken) ==> 1 <= |effects| && effects[0].CallFacebookConnect?
    ensures Truthy(response.accessToken) ==> effects[0] == HandleFacebookResponse(response)[0]
    ensures Truthy(response.accessToken) ==> (|effects| == 2 <==> connect.Some?)
    ensures |effects| <= 2
    ensures LogInCalls(effects) == (if Truthy(response.accessToken) && connect.Some? && connect.value.ok then 1 else 0)
    ensures Truthy(response.accessToken) && connect.Some? && !connect.value.ok ==>
      effects[1] == ToastError(FacebookFailedMessage)
    ensures forall e :: e in effects ==> e.CallLogUserIn? ==> connect.Some? && e.token == connect.value.token
  {
    var first := HandleFacebookResponse(response);
    var rest := if first != [] && connect.Some? then HandleFacebookConnect(connect.value) else [];
    LogInCallsAppend(first, rest);
    assert LogInCalls(first) == 0 by {
      if first != [] {
        assert first[1..] == [];
      }
    }
    assert rest != [] ==> rest[1..] == [];
    first + rest
  }

  /** A connect mutation that rejects leaves only the connect request: no
      log-in and no toast. */
  lemma FacebookConnectRejected(response: FacebookResponse)
    requires Truthy(response.accessToken)
    ensures |FacebookLogin(response, None)| == 1
    ensures LogInCalls(FacebookLogin(response, None)) == 0
    ensures forall e :: e in FacebookLogin(response, None) ==> !e.ToastError?
  {
  }

  // ---------------------------------------------------------------------
  // The controller as one step function

  /** Everything that can happen to the controller: a click or keystroke
      forwarded by the presenter, or the arrival of an asynchronous result. */
  datatype Event =
    | MobileClick
    | SocialClick
    | BackButtonClick
    | InputChange(field: Field, value: string)
    | Submit
    | SignInResponded(result: PhoneSignInResult)
    | FacebookResponded(response: FacebookResponse, connect: Option<ConnectResult>)

  function Step(s: State, e: Event): (r: (State, seq<Effect>))
    ensures AllowedTransition(s.loginMethod, r.0.loginMethod)
    ensures s.loginMethod != Unselected && r.0.loginMethod == Unselected ==> e.BackButtonClick?
    ensures !e.InputChange? ==> r.0.countryCode == s.countryCode && r.0.phoneNumber == s.phoneNumber
    ensures e.Submit? || e.SignInResponded? || e.FacebookResponded? ==> r.0 == s
    ensures forall x :: x in r.1 && x.CallPhoneSignIn? ==> ValidPhone(x.phone)
  {
    match e
    case MobileClick => (HandleMobileClick(s), [])
    case SocialClick => (HandleSocialClick(s), [])
    case BackButtonClick => (HandleBackButtonClick(s), [])
    case InputChange(f, v) => (HandleInputChange(s, f, v), [])
    case Submit => (s, HandleSubmit(s))
    case SignInResponded(result) => (s, HandleAfterSubmit(s, result))
    case FacebookResponded(response, connect) => (s, FacebookLogin(response, connect))
  }

  /** Runs a sequence of events, collecting their effects in order. No run
      ever sends the SMS request a number the pattern rejects. */
  function Run(s: State, events: seq<Event>): (r: (State, seq<Effect>))
    ensures forall x :: x in r.1 && x.CallPhoneSignIn? ==> ValidPhone(x.phone)
    decreases |events|
  {
    if events == [] then (s, [])
    else
      var (s1, e1) := Step(s, events[0]);
      var (s2, e2) := Run(s1, events[1..]);
      (s2, e1 + e2)
  }

  /** The states a run passes through. Consecutive states never jump
      between mobile and social. */
  function Trace(s: State, events: seq<Event>): (t: seq<State>)
    ensures |t| == |events| + 1 && t[0] == s
    ensures forall i :: 0 <= i < |events| ==> AllowedTransition(t[i].loginMethod, t[i + 1].loginMethod)
    decreases |events|
  {
    if events == [] then [s]
    else [s] + Trace(Step(s, events[0]).0, events[1..])
  }

  /** The i-th state of the trace is where the run of the first i events
      ends; in particular the trace ends where the run ends. */
  lemma {:induction false} TraceEndsAtRun(s: State, events: seq<Event>)
    ensures forall i :: 0 <= i <= |events| ==> Trace(s, events)[i] == Run(s, events[..i]).0
    ensures Trace(s, events)[|events|] == Run(s, events).0
    decreases |events|
  {
    if events != [] {
      var s1 := Step(s, events[0]).0;
      TraceEndsAtRun(s1, events[1..]);
      forall i | 1 <= i <= |events|
        ensures Trace(s, events)[i] == Run(s, events[..i]).0
      {
        assert Trace(s, events)[i] == Trace(s1, events[1..])[i - 1];
        assert events[..i][0] == events[0];
        assert events[..i][1..] == events[1..][..i - 1];
      }
      assert events[..|events|] == events;
    }
  }

  /** Only input changes touch the dial code and the number: a run with no
      input change leaves both as they were. */
  lemma {:induction false} RunKeepsFieldsWithoutInput(s: State, events: seq<Event>)
    requires forall i :: 0 <= i < |events| ==> !events[i].InputChange?
    ensures Run(s, events).0.countryCode == s.countryCode
    ensures Run(s, events).0.phoneNumber == s.phoneNumber
    decreases |events|
  {
    if events != [] {
      RunKeepsFieldsWithoutInput(Step(s, events[0]).0, events[1..]);
    }
  }
}
