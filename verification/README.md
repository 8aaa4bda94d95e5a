# Login screen controller of the Nuber client

This project models, in Dafny, the decision logic of the Nuber ride-hailing
client's login screen. The screen has two parts: a controller
(`LoginContainer`) that holds the screen's state and talks to the
toast surface, the GraphQL mutations and the router, and a presenter
(`LoginPresenter`) that renders that state and puts guarded click handlers
in front of the controller's.

The controller state is an immutable record: `countryCode`, `loginMethod`
and `phoneNumber`. Every handler is a pure function from a state (and the
event's data) to a new state and a list of effects, in the order the
controller issues them. The effects are `ToastSuccess`, `ToastError`,
`CallPhoneSignIn`, `CallFacebookConnect`, `CallLogUserIn` and
`NavigateAfter(delay, path, phone)`.

Modules:

- `LoginTypes` (`login_types.dfy`): `Option`, JavaScript truthiness of an
  optional string, and the three login methods with the prop strings `""`,
  `"mobile"` and `"social"`.
- `PhoneValidator` (`phone_validator.dfy`): the submit-time test. The
  anchored pattern `^\+[1-9]{1}[0-9]{7,11}$` is modelled literally as a list
  of quantified character classes with a whole-string matcher. It is proved
  equal to a character-level shape: 9 to 13 characters, `+`, a digit 1-9,
  then digits only. A single-scan method is proved to decide it.
- `LoginContainer` (`login_container.dfy`): the state, the seven handlers,
  and an `Event`/`Step`/`Run`/`Trace` view of the controller. This view is
  used to state properties over whole runs: no run ever sends the SMS
  request a number the pattern rejects, and no step jumps between mobile
  and social.
- `LoginPresenter` (`login_presenter.dfy`): the first-match country lookup
  over an abstract directory, the render decisions, and the two click
  wrappers. The wrappers return lists of UI actions (forward, focus, blur,
  each with its delay), and `Perform` composes them with the controller.

Four behaviours of the controller are easy to miss:

- The controller has no in-flight `pending` gate against a second submit.
  Only the submit button's `disabled={loading}` exists, and that is modelled
  as a render decision.
- The controller accepts input changes whatever the login method. Only the
  presenter disables the phone input, and only while no method is chosen.
- After a successful SMS request, the number handed to `/verify-phone` is
  re-read from the state when the response arrives. It is not the payload
  that was submitted. `NavigationRereadsState` exhibits an edit made in
  flight reaching the verification screen as an invalid number.
- Error, access-token and email fields are read with JavaScript truthiness.
  An empty `error` raises no toast. An empty access token is a no-op. An
  empty email is sent as null.

## Model

| member | source | states |
|---|---|---|
| LoginContainer.InitialSubmitRejected | client/src/Routes/Login/LoginContainer.tsx:29-33 | The screen mounts unselected with dial code `+82` and an empty number, and submitting from there only raises "Phone number is not valid" |
| LoginPresenter.InitialScreen | client/src/Routes/Login/LoginPresenter.tsx:118-164 | Rendering the state the controller mounts with (LoginContainer.tsx lines 29-33) shows no back button, a disabled empty phone input under the `+82` country caption, the social block and no submit button |
| LoginContainer.HandleMobileClick | client/src/Routes/Login/LoginContainer.tsx:60-66 | From unselected the method becomes mobile; from any other method the state is unchanged; the dial code and number are never touched |
| LoginContainer.HandleSocialClick | client/src/Routes/Login/LoginContainer.tsx:67-73 | From unselected the method becomes social; from any other method the state is unchanged; the dial code and number are never touched |
| LoginContainer.ChoiceIsSticky | client/src/Routes/Login/LoginContainer.tsx:60-73 | A social click after a mobile click (and the reverse) never reaches the other method unless it was already there: there is no direct mobile/social switch |
| LoginContainer.HandleBackButtonClick | client/src/Routes/Login/LoginContainer.tsx:88-92 | Back unconditionally returns the method to unselected and keeps the dial code and number |
| LoginContainer.BackUndoesChoice | client/src/Routes/Login/LoginContainer.tsx:60-92 | Back is the inverse of choosing a method from unselected: mobile-then-back and social-then-back both restore the state exactly |
| LoginContainer.BackIdempotent | client/src/Routes/Login/LoginContainer.tsx:88-92 | From any state, going back twice ends in the same state as going back once |
| LoginContainer.HandleInputChange | client/src/Routes/Login/LoginContainer.tsx:75-86 | The named slot holds the new value, unvalidated; every other slot and the login method are unchanged |
| LoginContainer.InputChangeLaws | client/src/Routes/Login/LoginContainer.tsx:75-86 | Last write to a slot wins, writes to different slots commute, writing a slot's own value is a no-op |
| LoginContainer.FieldNameRoundTrip | client/src/Routes/Login/LoginPresenter.tsx:128-147 | The two input names `countryCode` and `phoneNumber` identify the two updatable slots, in both directions |
| LoginTypes.MethodNameRoundTrip | client/src/Routes/Login/LoginPresenter.tsx:92 | The three method names accepted by the prop validator correspond one-to-one with the three methods |
| PhoneValidator.ValidPhoneShape | client/src/Routes/Login/LoginContainer.tsx:120 | A string matches `^\+[1-9]{1}[0-9]{7,11}$` exactly when it has 9 to 13 characters, a leading `+`, a digit 1-9 second and digits only after that |
| PhoneValidator.CheckPhone | client/src/Routes/Login/LoginContainer.tsx:120-122 | A left-to-right scan returns true exactly when the pattern matches |
| PhoneValidator.DefaultCodeNumbers | client/src/Routes/Login/LoginContainer.tsx:120-122 | Under the default `+82` dial code, a typed number is accepted exactly when it is 6 to 10 digits |
| PhoneValidator.PhoneExamples | client/src/Routes/Login/LoginContainer.tsx:120-122 | `+82` with `1012345678` is accepted; `+82` with `1` is rejected |
| LoginContainer.HandleSubmit | client/src/Routes/Login/LoginContainer.tsx:118-132 | Exactly one effect: the SMS sign-in request carrying the concatenation iff it matches the pattern, otherwise exactly the "Phone number is not valid" toast and no request |
| LoginContainer.HandleAfterSubmit | client/src/Routes/Login/LoginContainer.tsx:94-116 | On `ok`: the "SMS Sent." toast then navigation to `/verify-phone` after 4000 ms with the current dial code and number; otherwise one error toast with the server message if that message is truthy, and nothing if it is not |
| LoginContainer.NavigationCarriesSubmittedPhone | client/src/Routes/Login/LoginContainer.tsx:94-132 | With no state change between submit and response, the number handed to verification is the requested number and matches the pattern |
| LoginContainer.NavigationRereadsState | client/src/Routes/Login/LoginContainer.tsx:98-108 | An edit while the request is in flight changes the number handed to verification, even to one the pattern rejects |
| LoginContainer.HandleFacebookResponse | client/src/Routes/Login/LoginContainer.tsx:134-143 | No truthy access token: no effect at all; otherwise exactly one connect request with the email (null when absent or empty), first name, last name and user id |
| LoginContainer.HandleFacebookConnect | client/src/Routes/Login/LoginContainer.tsx:144-150 | Exactly one effect: log-in with the returned token iff the connect succeeded, otherwise exactly the "Couldn't log in with Facebook, try again" toast |
| LoginContainer.FacebookLogin | client/src/Routes/Login/LoginContainer.tsx:134-153 | The whole Facebook flow issues no effect without a truthy access token; otherwise first the same connect request (email or null, names, user id) the provider callback issues, followed by exactly one more effect iff the connect mutation's update callback runs; exactly one log-in request iff the token is present and the connect payload says ok, carrying the returned token; the failure toast when the payload says not ok |
| LoginContainer.FacebookConnectRejected | client/src/Routes/Login/LoginContainer.tsx:137-151 | When the connect mutation rejects and its update callback never runs, the flow leaves only the connect request: no log-in request and no toast |
| LoginContainer.Step | client/src/Routes/Login/LoginContainer.tsx:60-153 | Every event keeps the method change allowed (never mobile to social directly); only back leaves a chosen method; only input changes touch the dial code and number; responses and submits leave the state alone; no SMS request carries a rejected number |
| LoginContainer.Run | client/src/Routes/Login/LoginContainer.tsx:118-132 | Over any sequence of events, every SMS sign-in request issued carries a number that matches the pattern |
| LoginContainer.Trace | client/src/Routes/Login/LoginContainer.tsx:60-92 | Over any sequence of events, consecutive states never switch directly between mobile and social |
| LoginContainer.TraceEndsAtRun | client/src/Routes/Login/LoginContainer.tsx:60-153 | Every state of a run's trace is the state the run of that prefix of events ends in, and the last one is where the whole run ends, so the trace's no-jump property speaks about the states the run actually visits |
| LoginContainer.RunKeepsFieldsWithoutInput | client/src/Routes/Login/LoginContainer.tsx:75-92 | A run with no input change ends with the dial code and number it started with |
| LoginPresenter.FindCountry | client/src/Routes/Login/LoginPresenter.tsx:15-22 | The caption is `flag + " " + dial_code` of the first country whose dial code equals the code, and the empty string iff no country has it |
| LoginPresenter.FindCountryPrefersEarlier | client/src/Routes/Login/LoginPresenter.tsx:15-22 | Appending countries never changes a caption that was already found |
| LoginPresenter.Render | client/src/Routes/Login/LoginPresenter.tsx:113-166 | Back button iff a method is chosen; phone input disabled iff none is; country caption iff none is, else the select holding the dial code; submit button iff mobile, disabled and spinning iff loading; social block iff not mobile |
| LoginPresenter.ScreenIsCoherent | client/src/Routes/Login/LoginPresenter.tsx:118-164 | Exactly one of the submit button and the social block is shown; back button, enabled input and country select appear together |
| LoginPresenter.WiredNamesAreFields | client/src/Routes/Login/LoginPresenter.tsx:128-147 | The country select and the phone input carry the names `countryCode` and `phoneNumber`, which the change handler reads as its two slots, and an edit of either input is what that input then displays |
| LoginPresenter.HandleMobileClick | client/src/Routes/Login/LoginPresenter.tsx:168-174 | Only while unselected: exactly two actions, forward the click, then focus the phone input after 500 ms; otherwise nothing |
| LoginPresenter.HandleBackClick | client/src/Routes/Login/LoginPresenter.tsx:175-181 | Only once a method is chosen: exactly two actions, blur the phone input, then forward the back click after 300 ms; otherwise nothing |
| LoginPresenter.Perform | client/src/Routes/Login/LoginPresenter.tsx:168-181 | Carrying out a wrapper's actions never touches the dial code or number, and focus changes alone leave the state as it was |
| LoginPresenter.WrappedMobileClick | client/src/Routes/Login/LoginPresenter.tsx:168-174 | The guarded mobile click ends in the same state as the controller's own handler |
| LoginPresenter.WrappedBackClick | client/src/Routes/Login/LoginPresenter.tsx:175-181 | The guarded back click is a no-op while unselected and otherwise ends where the controller's back does |
| LoginPresenter.MobileClickShowsSubmit | client/src/Routes/Login/LoginPresenter.tsx:122-155 | Tapping the mobile area on the mounted screen shows the back button and the submit button (disabled iff loading) and hides the social block |

## Left out

- Styling, `Helmet`, the `BackButton`/`Header`/`MobileLogin`/`SocialLogin`/`ActionButton`/`Form` components: presentation only. The render decisions they receive are modelled in `Render`.
- React refs: focus and blur are recorded as UI actions and have no further meaning.
- `setTimeout`: each delay (500, 300 and 4000 ms) is recorded in its action or effect. The model does not cover time, the order of timers, or a timer firing after the screen unmounts; a deferred action is applied as if it ran next.
- Apollo `Mutation`/`graphql`/`compose`, the GraphQL documents and the toast library: requests and toasts are effects, and responses are inputs.
- The `countries` data file is not part of this model. `FindCountry` takes the directory as a parameter.
- `event.preventDefault()` in the submit wiring is a browser detail and is not modelled.
- The SMS response event is not tied to an earlier submit: any response may arrive in any state.
- The Facebook connect callback reads no state, so the provider response and the connect mutation's outcome (its payload, or none when the mutation rejects) are modelled together as one event.
- LoginContainer.HandleInputChange: only the two names the presenter wires (`countryCode`, `phoneNumber`) are modelled. The source writes any `name` into the state, including ad-hoc keys.
- LoginContainer.HandleFacebookResponse: first name, last name and user id are passed through as strings. The source may also pass them as `undefined`.
- The outcome of the chained `logUserIn` request is not observed by the controller, so the model does not observe it either.
- `HeaderPresenter.tsx` (scroll-driven header styling) is presentation over a possibly fractional number and is outside the login logic.
