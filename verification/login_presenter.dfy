/** The login screen's presenter: the country label lookup, what the screen
    shows for given props, and the guarded click wrappers it puts in front of
    the controller's handlers. */
module LoginPresenter {
  import opened LoginTypes
  import LoginContainer

  /** One entry of the country directory. */
  datatype Country = Country(flag: string, name: string, dialCode: string)

  /** The text shown for a country while no method is chosen. */
  function CountryLabel(c: Country): string {
    c.flag + " " + c.dialCode
  }

  /** The label of the first country in the directory whose dial code is
      `code`, or the empty string when there is none. */
  function FindCountry(countries: seq<Country>, code: string): (text: string)
    ensures text == "" <==> forall i :: 0 <= i < |countries| ==> countries[i].dialCode != code
    ensures forall i :: 0 <= i < |countries| && countries[i].dialCode == code
                        && (forall j :: 0 <= j < i ==> countries[j].dialCode != code)
                        ==> text == CountryLabel(countries[i])
    decreases |countries|
  {
    if countries == [] then ""
    else if countries[0].dialCode == code then CountryLabel(countries[0])
    else
      var rest := FindCountry(countries[1..], code);
      assert forall i :: 1 <= i < |countries| ==> countries[1..][i - 1] == countries[i];
      rest
  }

  /** A country later in the directory never shadows an earlier one with the
      same dial code. */
  lemma FindCountryPrefersEarlier(countries: seq<Country>, more: seq<Country>, code: string)
    requires exists i :: 0 <= i < |countries| && countries[i].dialCode == code
    ensures FindCountry(countries + more, code) == FindCountry(countries, code)
  {
    var k := FirstIndex(countries, code);
    assert (countries + more)[k] == countries[k];
    assert forall j :: 0 <= j < k ==> (countries + more)[j] == countries[j];
  }

  /** The index of the first country whose dial code is `code`. */
  ghost function FirstIndex(countries: seq<Country>, code: string): (k: nat)
    requires exists i :: 0 <= i < |countries| && countries[i].dialCode == code
    ensures k < |countries| && countries[k].dialCode == code
    ensures forall j :: 0 <= j < k ==> countries[j].dialCode != code
    decreases |countries|
  {
    if countries[0].dialCode == code then 0
    else
      assert exists i :: 0 <= i < |countries[1..]| && countries[1..][i].dialCode == code by {
        var i :| 0 <= i < |countries| && countries[i].dialCode == code;
        assert countries[1..][i - 1] == countries[i];
      }
      var k := FirstIndex(countries[1..], code);
      assert forall j :: 1 <= j <= k ==> countries[j] == countries[1..][j - 1];
      k + 1
  }

  // ---------------------------------------------------------------------
  // What the screen shows

  /** The props the controller passes down. */
  datatype Props = Props(loginMethod: LoginMethod, countryCode: string, phoneNumber: string, loading: bool)

  function PropsOf(s: LoginContainer.State, loading: bool): Props {
    Props(s.loginMethod, s.countryCode, s.phoneNumber, loading)
  }

  /** The dial code is shown as fixed text until a method is chosen, and as
      a selectable list after. */
  datatype CountryWidget = CountryText(caption: string) | CountrySelect(selectName: string, selected: string)

  datatype SubmitButton = SubmitButton(disabled: bool, icon: string)

  /** The decisions the presenter's render makes. */
  datatype Screen = Screen(
    backButtonShowing: bool,
    countryWidget: CountryWidget,
    phoneInputName: string,
    phoneInputDisabled: bool,
    phoneInputValue: string,
    submitButton: Option<SubmitButton>,
    socialLoginShown: bool)

  const SpinnerIcon: string := "spinner fa-spin"
  const ArrowIcon: string := "arrow-right"

  function Render(countries: seq<Country>, p: Props): (screen: Screen)
    ensures screen.backButtonShowing <==> p.loginMethod != Unselected
    ensures screen.phoneInputDisabled <==> p.loginMethod == Unselected
    ensures screen.phoneInputValue == p.phoneNumber
    ensures screen.phoneInputName == "phoneNumber"
    ensures screen.countryWidget.CountrySelect? ==> screen.countryWidget.selectName == "countryCode"
    ensures screen.countryWidget.CountryText? <==> p.loginMethod == Unselected
    ensures screen.countryWidget.CountryText? ==> screen.countryWidget.caption == FindCountry(countries, p.countryCode)
    ensures screen.countryWidget.CountrySelect? ==> screen.countryWidget.selected == p.countryCode
    ensures screen.submitButton.Some? <==> p.loginMethod == Mobile
    ensures screen.submitButton.Some? ==> (screen.submitButton.value.disabled <==> p.loading)
    ensures screen.submitButton.Some? ==> screen.submitButton.value.icon == (if p.loading then SpinnerIcon else ArrowIcon)
    ensures screen.socialLoginShown <==> p.loginMethod != Mobile
  {
    var m := p.loginMethod;
    Screen(
      m != Unselected,
      if m == Unselected then CountryText(FindCountry(countries, p.countryCode))
      else CountrySelect(LoginContainer.FieldName(LoginContainer.CountryCode), p.countryCode),
      LoginContainer.FieldName(LoginContainer.PhoneNumber),
      m == Unselected,
      p.phoneNumber,
      if m == Mobile then Some(SubmitButton(p.loading, if p.loading then SpinnerIcon else ArrowIcon)) else None,
      m != Mobile)
  }

  /** Exactly one of the submit button and the social login block is on the
      screen; the back button, the enabled phone input and the country list
      always appear together; a submit button implies a way back. */
  lemma ScreenIsCoherent(countries: seq<Country>, p: Props)
    ensures var v := Render(countries, p);
      && (v.submitButton.Some? <==> !v.socialLoginShown)
      && (v.backButtonShowing <==> !v.phoneInputDisabled)
      && (v.backButtonShowing <==> v.countryWidget.CountrySelect?)
      && (v.submitButton.Some? ==> v.backButtonShowing)
  {
  }

  /** The inputs the screen wires to the change handler carry names that
      the controller reads as its two slots, and each input shows the slot
      its change writes: an edit of either input lands in the slot it
      displays. */
  lemma WiredNamesAreFields(countries: seq<Country>, s: LoginContainer.State, loading: bool, value: string)
    ensures var v := Render(countries, PropsOf(s, loading));
      && LoginContainer.FieldNamed(v.phoneInputName) == Some(LoginContainer.PhoneNumber)
      && Render(countries, PropsOf(LoginContainer.HandleInputChange(s, LoginContainer.PhoneNumber, value), loading)).phoneInputValue == value
      && (v.countryWidget.CountrySelect? ==>
            && LoginContainer.FieldNamed(v.countryWidget.selectName) == Some(LoginContainer.CountryCode)
            && Render(countries, PropsOf(LoginContainer.HandleInputChange(s, LoginContainer.CountryCode, value), loading))
                 .countryWidget.selected == value)
  {
  }

  /** The screen as it mounts: no back button, a disabled phone input under
      the default country's label, the social block, no submit button. */
  lemma InitialScreen(countries: seq<Country>)
    ensures var v := Render(countries, PropsOf(LoginContainer.InitialState, false));
      && !v.backButtonShowing
      && v.phoneInputDisabled
      && v.phoneInputValue == ""
      && v.countryWidget == CountryText(FindCountry(countries, "+82"))
      && v.submitButton.None?
      && v.socialLoginShown
  {
  }

  // ---------------------------------------------------------------------
  // Click wrappers

  /** What a presenter click handler does, in order: forward to the
      controller, or move focus on the phone input, possibly after a delay. */
  datatype UiAction =
    | InvokeMobileClick
    | FocusPhoneInputAfter(delayMs: nat)
    | BlurPhoneInput
    | InvokeBackButtonClickAfter(delayMs: nat)

  const FocusDelayMs: nat := 500
  const BackDelayMs: nat := 300

  /** The mobile-click wrapper: only while no method is chosen does it
      forward the click and then focus the phone input. */
  function HandleMobileClick(m: LoginMethod): (actions: seq<UiAction>)
    ensures actions != [] <==> m == Unselected
    ensures InvokeMobileClick in actions <==> m == Unselected
    ensures m == Unselected ==> |actions| == 2
    ensures actions != [] ==> actions[0] == InvokeMobileClick && actions[|actions| - 1] == FocusPhoneInputAfter(FocusDelayMs)
  {
    if m == Unselected then [InvokeMobileClick, FocusPhoneInputAfter(FocusDelayMs)] else []
  }

  /** The back wrapper: only once a method is chosen does it blur the phone
      input and then, after a delay, forward the click. */
  function HandleBackClick(m: LoginMethod): (actions: seq<UiAction>)
    ensures actions != [] <==> m != Unselected
    ensures InvokeBackButtonClickAfter(BackDelayMs) in actions <==> m != Unselected
    ensures m != Unselected ==> |actions| == 2
    ensures actions != [] ==> actions[0] == BlurPhoneInput && actions[|actions| - 1] == InvokeBackButtonClickAfter(BackDelayMs)
  {
    if m != Unselected then [BlurPhoneInput, InvokeBackButtonClickAfter(BackDelayMs)] else []
  }

  /** The controller state after a wrapper's actions have all taken effect.
      Focus changes leave the state alone; only forwarded clicks move it. */
  function Perform(s: LoginContainer.State, actions: seq<UiAction>): (r: LoginContainer.State)
    ensures r.countryCode == s.countryCode && r.phoneNumber == s.phoneNumber
    ensures (forall i :: 0 <= i < |actions| ==> actions[i].FocusPhoneInputAfter? || actions[i].BlurPhoneInput?) ==> r == s
    decreases |actions|
  {
    if actions == [] then s
    else
      var s1 := match actions[0]
        case InvokeMobileClick => LoginContainer.HandleMobileClick(s)
        case InvokeBackButtonClickAfter(_) => LoginContainer.HandleBackButtonClick(s)
        case _ => s;
      assert forall i :: 1 <= i < |actions| ==> actions[1..][i - 1] == actions[i];
      Perform(s1, actions[1..])
  }

  /** The presenter's guard on the mobile click changes nothing about the
      resulting state: it ends where the controller's own handler does. */
  lemma WrappedMobileClick(s: LoginContainer.State)
    ensures Perform(s, HandleMobileClick(s.loginMethod)) == LoginContainer.HandleMobileClick(s)
  {
  }

  /** The wrapped back click is a no-op while no method is chosen, and
      otherwise ends where the controller's back handler does. */
  lemma WrappedBackClick(s: LoginContainer.State)
    ensures s.loginMethod == Unselected ==> Perform(s, HandleBackClick(s.loginMethod)) == s
    ensures Perform(s, HandleBackClick(s.loginMethod)) == LoginContainer.HandleBackButtonClick(s)
  {
  }

  /** Tapping the mobile area on the mounted screen brings up the submit
      button, enabled unless a request is loading. */
  lemma MobileClickShowsSubmit(countries: seq<Country>, loading: bool)
    ensures var s := Perform(LoginContainer.InitialState, HandleMobileClick(Unselected));
      var v := Render(countries, PropsOf(s, loading));
      && v.submitButton == Some(SubmitButton(loading, if loading then SpinnerIcon else ArrowIcon))
      && v.backButtonShowing
      && !v.socialLoginShown
  {
  }
}
