/** The login screen: a choice between hosting and joining, and the room-code entry
    with its sanitising and length gate. */
module LoginScreen {
  import opened Wrappers
  import opened Decimal

  datatype View = Selection | AudienceInput

  const CodeLength := 6

  /** `value.replace(/\D/g, '')`: the digits of `s`, in order. */
  function StripNonDigits(s: string): (r: string)
    ensures AllDigits(r) && |r| <= |s|
    ensures AllDigits(s) ==> r == s
    ensures |s| == 1 && !IsDigit(s[0]) ==> r == ""
    ensures (forall i :: 0 <= i < |s| ==> !IsDigit(s[i])) ==> r == ""
  {
    if s == [] then ""
    else
      var rest := StripNonDigits(s[1..]);
      if IsDigit(s[0]) then [s[0]] + rest else rest
  }

  /** Stripping keeps the digits in order: it distributes over concatenation. */
  lemma {:induction false} StripDistributes(a: string, b: string)
    ensures StripNonDigits(a + b) == StripNonDigits(a) + StripNonDigits(b)
  {
    if a == [] {
      assert a + b == b;
    } else {
      assert (a + b)[0] == a[0] && (a + b)[1..] == a[1..] + b;
      StripDistributes(a[1..], b);
    }
  }

  /** The input's `maxLength`: the browser keeps at most the first `n` characters. */
  function Truncate(s: string, n: nat): (r: string)
    ensures |r| <= n && |r| <= |s| && r == s[..|r|]
    ensures |s| <= n ==> r == s
    ensures |s| > n ==> |r| == n
  {
    if |s| <= n then s else s[..n]
  }

  /** The stored code for a raw input value: the digits among its first six
      characters, in order. */
  function SanitizedCode(raw: string): (code: string)
    ensures AllDigits(code) && |code| <= CodeLength
    ensures AllDigits(raw) && |raw| <= CodeLength ==> code == raw
    ensures |raw| <= CodeLength ==> code == StripNonDigits(raw)
    ensures |raw| > CodeLength ==> code == StripNonDigits(raw[..CodeLength])
  {
    StripNonDigits(Truncate(raw, CodeLength))
  }

  /** A typed code with leading zeros is stored, and passed on, as typed. */
  lemma LeadingZerosKept()
    ensures SanitizedCode("004521") == "004521"
  {
    assert AllDigits("004521");
  }

  class Login {
    var view: View
    var code: string

    /** The stored code only holds digits, at most six of them. */
    ghost predicate Valid()
      reads this
    {
      AllDigits(code) && |code| <= CodeLength
    }

    constructor ()
      ensures Valid() && view == Selection && code == ""
    {
      view := Selection;
      code := "";
    }

    /** The audience card. */
    method ChooseAudience()
      requires Valid() && view == Selection
      modifies this`view
      ensures Valid() && view == AudienceInput
    {
      view := AudienceInput;
    }

    /** The Back button. */
    method Back()
      requires Valid() && view == AudienceInput
      modifies this`view
      ensures Valid() && view == Selection
    {
      view := Selection;
    }

    /** A change of the code input. */
    method Input(raw: string)
      requires view == AudienceInput
      modifies this`code
      ensures Valid()
      ensures code == SanitizedCode(raw)
    {
      code := StripNonDigits(Truncate(raw, CodeLength));
    }

    /** Whether the Join button is enabled. */
    function JoinEnabled(): (enabled: bool)
      reads this
      ensures enabled <==> |code| == CodeLength
    {
      |code| == CodeLength
    }

    /** The Join button: the stored code is passed on unchanged exactly when it has
        six characters. */
    method Join() returns (joined: Option<string>)
      requires Valid() && view == AudienceInput
      ensures joined.Some? <==> |code| == CodeLength
      ensures joined.Some? ==> joined.value == code && AllDigits(joined.value)
    {
      joined := if |code| == CodeLength then Some(code) else None;
    }
  }
}
