/**
 * The validated value types `Name` and `Phone`. Both share the `Field` wrapper:
 * the constructor stores the value unchanged and `str()` prints it back.
 */
module Fields {
  import opened Outcomes

  const NameEmptyMessage := "Name cannot be empty."
  const PhoneFormatMessage := "Phone number must contain exactly 10 digits."

  /** The model's `\d`: the ASCII digits '0'..'9' only. */
  predicate IsDigit(c: char) {
    '0' <= c <= '9'
  }

  /** What a phone number is: exactly ten digits. */
  predicate IsPhoneText(s: string) {
    |s| == 10 && forall i :: 0 <= i < |s| ==> IsDigit(s[i])
  }

  /**
   * `re.fullmatch(r"\d{n}", s)`: the pattern consumes one digit at a time, n times,
   * and the match must then have reached the end of the string.
   */
  function FullMatchDigits(s: string, n: nat): (r: bool)
    ensures r ==> |s| == n
  {
    if n == 0 then s == []
    else s != [] && IsDigit(s[0]) && FullMatchDigits(s[1..], n - 1)
  }

  /** The regular expression accepts exactly the strings of n digits. */
  lemma {:induction false} FullMatchDigitsIff(s: string, n: nat)
    ensures FullMatchDigits(s, n) <==> |s| == n && forall i :: 0 <= i < |s| ==> IsDigit(s[i])
  {
    if n > 0 && s != [] {
      FullMatchDigitsIff(s[1..], n - 1);
      assert forall i :: 1 <= i < |s| ==> s[i] == s[1..][i - 1];
    }
  }

  type NameText = s: string | s != [] witness "?"

  type PhoneText = s: string | IsPhoneText(s) witness "0000000000"

  /** A contact name (`Name` in the source). */
  datatype Name = Name(value: NameText) {
    /** `Field.__str__`. */
    function ToString(): string {
      value
    }
  }

  /** `Name(value)`: an empty value raises, any other value is stored unchanged. */
  function NewName(value: string): (r: Result<Name>)
    ensures r.Ok? <==> value != []
    ensures r.Ok? ==> r.value.ToString() == value
    ensures r.Err? ==> r.error == ValueError(NameEmptyMessage)
  {
    if value == [] then Err(ValueError(NameEmptyMessage)) else Ok(Name(value))
  }

  /**
   * A phone number object (`Phone` in the source). The source defines no `__eq__`
   * for it, so two `Phone` objects are equal only when they are the same object:
   * this is a class, and Dafny's `==` on it is reference equality.
   */
  class Phone {
    const value: PhoneText

    /** `Field.__init__` once the format check has passed. */
    constructor (value: PhoneText)
      ensures this.value == value
    {
      this.value := value;
    }

    /** `Field.__str__`. */
    function ToString(): string {
      value
    }
  }

  /** `Phone(value)`: raises unless the value is exactly ten digits, else a new object holding it. */
  method NewPhone(value: string) returns (r: Result<Phone>)
    ensures r.Ok? <==> IsPhoneText(value)
    ensures r.Ok? ==> fresh(r.value) && r.value.ToString() == value
    ensures r.Err? ==> r.error == ValueError(PhoneFormatMessage)
  {
    FullMatchDigitsIff(value, 10);
    if !FullMatchDigits(value, 10) {
      return Err(ValueError(PhoneFormatMessage));
    }
    var p := new Phone(value);
    return Ok(p);
  }
}
