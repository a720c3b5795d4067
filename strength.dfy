/** `getStrength` of the registration page: a label for the strength bar
    chosen from the password's `length` alone. */
module PasswordStrength {

  /** The four results; `Name` is the CSS class word the page receives. */
  datatype Label = Empty | Weak | Medium | Strong {
    function Name(): string {
      match this
      case Empty => ""
      case Weak => "weak"
      case Medium => "medium"
      case Strong => "strong"
    }

    /** Position on the bar, weakest first. */
    function Rank(): nat {
      match this
      case Empty => 0
      case Weak => 1
      case Medium => 2
      case Strong => 3
    }
  }

  /** JavaScript's `length` of a string: UTF-16 code units, so a character
      outside the Basic Multilingual Plane counts twice. */
  function Utf16Length(s: string): (n: nat)
    ensures |s| <= n <= 2 * |s|
    ensures n == 0 <==> s == []
  {
    if s == [] then 0
    else (if s[0] as int >= 0x10000 then 2 else 1) + Utf16Length(s[1..])
  }

  function GetStrength(password: string): (r: Label)
    ensures r == Strong <==> Utf16Length(password) > 10
    ensures r == Medium <==> 7 <= Utf16Length(password) <= 10
    ensures r == Weak <==> 1 <= Utf16Length(password) <= 6
    ensures r == Empty <==> password == []
  {
    var length := Utf16Length(password);
    if length > 10 then Strong
    else if length > 6 then Medium
    else if length > 0 then Weak
    else Empty
  }

  /** Distinct labels give the page distinct class words. */
  lemma NameInjective(a: Label, b: Label)
    ensures a.Name() == b.Name() ==> a == b
  {
  }

  /** Two passwords of one `length` get one label, and a longer password never
      gets a lower one. */
  lemma StrengthMonotone(p: string, q: string)
    ensures Utf16Length(p) == Utf16Length(q) ==> GetStrength(p) == GetStrength(q)
    ensures Utf16Length(p) <= Utf16Length(q) ==> GetStrength(p).Rank() <= GetStrength(q).Rank()
  {
  }

  /** Six emoji are twelve code units: "strong", though six letters are "weak". */
  lemma AstralCharactersCountTwice()
    ensures GetStrength("\U{1F600}\U{1F600}\U{1F600}\U{1F600}\U{1F600}\U{1F600}") == Strong
    ensures GetStrength("aaaaaa") == Weak
  {
    assert Utf16Length("aaaaaa") == 6;
    assert Utf16Length("\U{1F600}\U{1F600}\U{1F600}\U{1F600}\U{1F600}\U{1F600}") == 12;
  }
}
