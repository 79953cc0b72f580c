/** `SessionSchema`: the validated shape of a session record before it is
    saved. Construction runs pydantic's type coercion and the two field
    validators; `validate_all` reruns the validators and builds the dict. */
module SessionSchema {
  import opened Wrappers
  import opened Text

  /** What the caller passes as `user_id`: an int, some text, or `None`. */
  datatype IdInput = IntId(n: int) | TextId(s: string) | NoId

  datatype Schema = Schema(sessionId: string, fingerprint: string, userId: int)

  /** The dictionary `validate_all` returns. */
  datatype SessionDict = SessionDict(sessionId: string, fingerprint: string, userId: int)

  const SessionIdRequired := "Session ID is required"
  const FingerprintRequired := "Fingerprint is required"
  const NotAString := "Input should be a valid string"
  const NotAnInteger := "Input should be a valid integer"

  /** Decimal text with an optional sign, as an integer. */
  function ParseIntText(s: string): (r: Option<int>)
    ensures r.Some? <==>
      (|s| >= 1 && AllDigits(s)) || (|s| >= 2 && (s[0] == '+' || s[0] == '-') && AllDigits(s[1..]))
    ensures r.Some? && AllDigits(s) ==> r.value == DigitsValue(s)
    ensures r.Some? && s[0] == '+' ==> r.value == DigitsValue(s[1..])
    ensures r.Some? && s[0] == '-' ==> r.value + DigitsValue(s[1..]) == 0
  {
    if |s| > 0 && (s[0] == '-' || s[0] == '+') then
      var digits := s[1..];
      if |digits| > 0 && AllDigits(digits) then
        var magnitude: int := DigitsValue(digits);
        Some(if s[0] == '-' then -magnitude else magnitude)
      else None
    else if |s| > 0 && AllDigits(s) then Some(DigitsValue(s))
    else None
  }

  /** Python's `str(n)` is read back as `n`. */
  lemma IntTextRoundTrip(n: int)
    ensures ParseIntText(IntText(n)) == Some(n)
  {
    if n < 0 {
      var t := NatText(-n);
      var s := "-" + t;
      assert s[0] == '-' && s[1..] == t;
      NatTextValue(-n);
    } else {
      var t := NatText(n);
      assert IsDigit(t[0]);
      NatTextValue(n);
    }
  }

  /** The coercions pydantic's lax `int` field applies to `user_id`. */
  function CoerceUserId(v: IdInput): Option<int> {
    match v
    case IntId(n) => Some(n)
    case TextId(s) => ParseIntText(s)
    case NoId => None
  }

  /** `user_id` examples: "0" and "-1" coerce, "" and "abc" do not. */
  lemma UserIdExamples()
    ensures CoerceUserId(TextId("0")) == Some(0)
    ensures CoerceUserId(TextId("-1")) == Some(-1)
    ensures CoerceUserId(TextId("")) == None
    ensures CoerceUserId(TextId("abc")) == None
  {
    IntTextRoundTrip(0);
    IntTextRoundTrip(-1);
    assert !IsDigit("abc"[0]);
  }

  /** Signed texts coerce with their sign; a bare sign or a trailing
      letter is refused. */
  lemma SignedUserIdExamples()
    ensures CoerceUserId(TextId("-5")) == Some(-5)
    ensures CoerceUserId(TextId("+5")) == Some(5)
    ensures CoerceUserId(TextId("-")) == None
    ensures CoerceUserId(TextId("5a")) == None
  {
    assert "-5"[1..] == "5" && "+5"[1..] == "5";
    assert !IsDigit("5a"[1]);
  }

  /** A nine-digit `user_id` text coerces to its value. */
  lemma LargeUserIdExample()
    ensures CoerceUserId(TextId("999999999")) == Some(999999999)
  {
    IntTextRoundTrip(999999999);
    assert IntText(999999999) == "999999999";
  }

  function SessionIdErrors(v: Option<string>): seq<string> {
    match v
    case None => [NotAString]
    case Some(s) => if s == "" then [SessionIdRequired] else []
  }

  function FingerprintErrors(v: Option<string>): seq<string> {
    match v
    case None => [NotAString]
    case Some(s) => if s == "" then [FingerprintRequired] else []
  }

  /** `SessionSchema(session_id=…, fingerprint=…, user_id=…)`: every field is
      checked and all errors are reported together, in field order. Any
      non-empty strings are accepted as they are. */
  function Construct(sessionId: Option<string>, fingerprint: Option<string>, userId: IdInput): (r: Result<Schema, seq<string>>)
    ensures r.Success? <==>
      && sessionId.Some? && sessionId.value != ""
      && fingerprint.Some? && fingerprint.value != ""
      && CoerceUserId(userId).Some?
    ensures r.Success? ==>
      r.value == Schema(sessionId.value, fingerprint.value, CoerceUserId(userId).value)
    ensures sessionId == Some("") ==> r.Failure? && SessionIdRequired in r.error
    ensures fingerprint == Some("") ==> r.Failure? && FingerprintRequired in r.error
    ensures sessionId.None? || fingerprint.None? ==> r.Failure? && NotAString in r.error
    ensures CoerceUserId(userId).None? ==> r.Failure? && NotAnInteger in r.error
  {
    var errors := SessionIdErrors(sessionId) + FingerprintErrors(fingerprint)
      + (if CoerceUserId(userId).None? then [NotAnInteger] else []);
    if errors == [] then
      Success(Schema(sessionId.value, fingerprint.value, CoerceUserId(userId).value))
    else
      assert |errors| > 0;
      Failure(errors)
  }

  /** `validate_all`: reruns the validators and returns the three fields. */
  function ValidateAll(s: Schema): (r: Result<SessionDict, string>)
    ensures r.Success? <==> s.sessionId != "" && s.fingerprint != ""
    ensures r.Success? ==>
      (r.value.sessionId == s.sessionId && r.value.fingerprint == s.fingerprint && r.value.userId == s.userId)
    ensures s.sessionId == "" ==> r == Failure(SessionIdRequired)
    ensures s.sessionId != "" && s.fingerprint == "" ==> r == Failure(FingerprintRequired)
  {
    if s.sessionId == "" then Failure(SessionIdRequired)
    else if s.fingerprint == "" then Failure(FingerprintRequired)
    else Success(SessionDict(s.sessionId, s.fingerprint, s.userId))
  }

  /** A schema that construction accepted always passes `validate_all`,
      which hands back exactly the constructed values. */
  lemma ConstructedPassesValidateAll(sessionId: Option<string>, fingerprint: Option<string>, userId: IdInput)
    requires Construct(sessionId, fingerprint, userId).Success?
    ensures ValidateAll(Construct(sessionId, fingerprint, userId).value)
      == Success(SessionDict(sessionId.value, fingerprint.value, CoerceUserId(userId).value))
  {
  }
}
