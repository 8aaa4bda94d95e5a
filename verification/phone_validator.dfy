/** The phone-number check run on submit: the concatenation of the dial code
    and the typed number must match the anchored pattern
    `^\+[1-9]{1}[0-9]{7,11}$`. */
module PhoneValidator {

  /** A bracket expression or literal of the pattern language. */
  datatype CharClass = Exactly(c: char) | Between(lo: char, hi: char)

  /** A character class repeated between `min` and `max` times. */
  datatype Piece = Piece(cls: CharClass, min: nat, max: nat)

  predicate InClass(c: char, cls: CharClass) {
    match cls
    case Exactly(d) => c == d
    case Between(lo, hi) => lo <= c <= hi
  }

  predicate AllIn(s: string, cls: CharClass) {
    forall i :: 0 <= i < |s| ==> InClass(s[i], cls)
  }

  /** `s` matches the pieces anchored at both ends (`^...$`): it splits into
      consecutive runs, one per piece, each of an allowed length and made of
      the piece's class only. */
  predicate FullMatch(ps: seq<Piece>, s: string)
    decreases |ps|
  {
    if ps == [] then s == []
    else
      exists k :: ps[0].min <= k <= ps[0].max && k <= |s|
        && AllIn(s[..k], ps[0].cls) && FullMatch(ps[1..], s[k..])
  }

  /** `\+`, then `[1-9]{1}`, then `[0-9]{7,11}`. */
  const PhonePattern: seq<Piece> :=
    [Piece(Exactly('+'), 1, 1), Piece(Between('1', '9'), 1, 1), Piece(Between('0', '9'), 7, 11)]

  /** The validity test applied on submit. */
  predicate ValidPhone(s: string) {
    FullMatch(PhonePattern, s)
  }

  predicate IsDigit(c: char) {
    '0' <= c <= '9'
  }

  /** The character-level reading of the pattern: 9 to 13 characters, a
      leading plus, a non-zero digit, and digits only after that. */
  predicate PhoneShape(s: string) {
    && 9 <= |s| <= 13
    && s[0] == '+'
    && '1' <= s[1] <= '9'
    && forall i :: 2 <= i < |s| ==> IsDigit(s[i])
  }

  /** A string is accepted exactly when it has the phone shape. */
  lemma ValidPhoneShape(s: string)
    ensures ValidPhone(s) <==> PhoneShape(s)
  {
    if PhoneShape(s) {
      ShapeMatches(s);
    }
    if ValidPhone(s) {
      MatchHasShape(s);
    }
  }

  /** Every string of the phone shape splits into the pattern's three runs. */
  lemma ShapeMatches(s: string)
    requires PhoneShape(s)
    ensures ValidPhone(s)
  {
    var p0, p1, p2 := PhonePattern[0], PhonePattern[1], PhonePattern[2];
    var t := s[2..];
    assert FullMatch([p2], t) by {
      assert [p2][1..] == [];
      assert t[..|t|] == t && t[|t|..] == [];
      assert AllIn(t[..|t|], p2.cls) by {
        forall i | 0 <= i < |t| ensures InClass(t[i], p2.cls) {
          assert t[i] == s[i + 2];
        }
      }
    }
    assert FullMatch([p1, p2], s[1..]) by {
      assert [p1, p2][1..] == [p2];
      assert s[1..][1..] == t;
      assert AllIn(s[1..][..1], p1.cls);
    }
    assert PhonePattern[1..] == [p1, p2];
    assert AllIn(s[..1], p0.cls);
  }

  /** The three runs of a match force the phone shape. */
  lemma MatchHasShape(s: string)
    requires ValidPhone(s)
    ensures PhoneShape(s)
  {
  }

  /** The pattern test as a single left-to-right scan. */
  method CheckPhone(s: string) returns (ok: bool)
    ensures ok <==> ValidPhone(s)
  {
    ValidPhoneShape(s);
    if |s| < 9 || |s| > 13 || s[0] != '+' || !('1' <= s[1] <= '9') {
      return false;
    }
    var i := 2;
    while i < |s|
      invariant 2 <= i <= |s|
      invariant forall j :: 2 <= j < i ==> IsDigit(s[j])
    {
      if !IsDigit(s[i]) {
        return false;
      }
      i := i + 1;
    }
    return true;
  }

  /** With the default dial code `+82`, a typed number is accepted exactly
      when it is 6 to 10 digits. */
  lemma DefaultCodeNumbers(number: string)
    ensures ValidPhone("+82" + number)
        <==> 6 <= |number| <= 10 && forall i :: 0 <= i < |number| ==> IsDigit(number[i])
  {
    var s := "+82" + number;
    ValidPhoneShape(s);
    if PhoneShape(s) {
      forall i | 0 <= i < |number| ensures IsDigit(number[i]) {
        assert number[i] == s[i + 3];
      }
    }
    if 6 <= |number| <= 10 && forall i :: 0 <= i < |number| ==> IsDigit(number[i]) {
      forall i | 2 <= i < |s| ensures IsDigit(s[i]) {
        if i >= 3 {
          assert s[i] == number[i - 3];
        }
      }
    }
  }

  /** A thirteen-character Korean mobile number passes; a one-digit number
      does not. */
  lemma PhoneExamples()
    ensures ValidPhone("+82" + "1012345678")
    ensures !ValidPhone("+82" + "1")
  {
    DefaultCodeNumbers("1012345678");
    DefaultCodeNumbers("1");
  }
}
