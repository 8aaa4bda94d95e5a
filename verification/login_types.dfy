/** Types shared by the login screen's controller and its presenter. */
module LoginTypes {

  /** An optional value; `None` stands for a JavaScript `null` or `undefined`. */
  datatype Option<+T> = None | Some(value: T)

  /** An optional string read with JavaScript truthiness: both an absent
      value and the empty string are false. */
  predicate Truthy(o: Option<string>) {
    o.Some? && o.value != ""
  }

  /** The login method the user has committed to on this screen. */
  datatype LoginMethod = Unselected | Mobile | Social

  /** The string each method is carried as in the screen's props. */
  function MethodName(m: LoginMethod): string {
    match m
    case Unselected => ""
    case Mobile => "mobile"
    case Social => "social"
  }

  /** The prop validator's reading of a string: only the three names it
      lists denote a method. */
  function ParseMethod(name: string): (m: Option<LoginMethod>)
    ensures m.Some? <==> name in {"", "mobile", "social"}
  {
    if name == "" then Some(Unselected)
    else if name == "mobile" then Some(Mobile)
    else if name == "social" then Some(Social)
    else None
  }

  /** The method names and the prop validator agree, in both directions. */
  lemma MethodNameRoundTrip(m: LoginMethod, name: string)
    ensures ParseMethod(MethodName(m)) == Some(m)
    ensures ParseMethod(name) == Some(m) <==> MethodName(m) == name
  {
  }
}
