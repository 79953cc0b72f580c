/** `DeviceSchema`: the validated device record. Only the address is
    checked beyond its type: a dotted quad of 1-3 digit groups, each at
    most 255. */
module DeviceSchema {
  import opened Wrappers
  import opened Text

  datatype Device = Device(userAgent: string, acceptLanguage: string, ip: string, userId: int)

  const BadFormat := "Invalid IP address format"
  const BadOctet := "IP address octets must be between 0 and 255"
  const NotAString := "Input should be a valid string"
  const NotAnInteger := "Input should be a valid integer"

  /** One group of the pattern `\d{1,3}`. */
  predicate IsGroup(p: string) {
    1 <= |p| <= 3 && AllDigits(p)
  }

  /** `^\d{1,3}(\.\d{1,3}){3}$` on text without the optional final newline. */
  predicate IsQuadShape(s: string) {
    var parts := Split(s, '.');
    |parts| == 4 && forall i :: 0 <= i < 4 ==> IsGroup(parts[i])
  }

  /** Every group of a quad-shaped text is at most 255. */
  predicate OctetsInRange(s: string)
    requires IsQuadShape(s)
  {
    var parts := Split(s, '.');
    forall i :: 0 <= i < 4 ==> DigitsValue(parts[i]) <= 255
  }

  /** `validate_ip`. Python's `$` also matches before a final newline, and
      `int()` strips that newline from the last group, so the checks apply
      to the text without it; the value returned is the input unchanged. */
  function ValidateIp(v: string): (r: Result<string, string>)
    ensures r.Success? ==> r.value == v
    ensures r.Success? <==> IsQuadShape(DropFinalNewline(v)) && OctetsInRange(DropFinalNewline(v))
    ensures !IsQuadShape(DropFinalNewline(v)) ==> r == Failure(BadFormat)
  {
    var text := DropFinalNewline(v);
    if !IsQuadShape(text) then Failure(BadFormat)
    else if !OctetsInRange(text) then Failure(BadOctet)
    else Success(v)
  }

  /** A reference form of an IPv4 address: four 1-3 digit groups, each at
      most 255, joined by dots. */
  predicate IsOctetList(parts: seq<string>) {
    |parts| == 4 && forall i :: 0 <= i < 4 ==> IsGroup(parts[i]) && DigitsValue(parts[i]) <= 255
  }

  /** Every address of the reference form is accepted, with or without one
      final newline. */
  lemma AcceptsOctetList(parts: seq<string>)
    requires IsOctetList(parts)
    ensures ValidateIp(Join(parts, '.')) == Success(Join(parts, '.'))
    ensures ValidateIp(Join(parts, '.') + "\n") == Success(Join(parts, '.') + "\n")
  {
    forall i | 0 <= i < |parts|
      ensures '.' !in parts[i]
    {
    }
    SplitJoin(parts, '.');
    JoinEndsWithLast(parts, '.');
    var j := Join(parts, '.');
    assert j[|j| - 1] == parts[3][|parts[3]| - 1];
    assert IsDigit(j[|j| - 1]);
    assert DropFinalNewline(j) == j;
    assert DropFinalNewline(j + "\n") == j;
  }

  /** Every accepted address is of the reference form. */
  lemma AcceptedIsOctetList(v: string)
    requires ValidateIp(v).Success?
    ensures IsOctetList(Split(DropFinalNewline(v), '.'))
    ensures Join(Split(DropFinalNewline(v), '.'), '.') == DropFinalNewline(v)
  {
    JoinSplit(DropFinalNewline(v), '.');
  }

  lemma LeadingZeroGroups()
    ensures IsGroup("192") && DigitsValue("192") == 192
    ensures IsGroup("168") && DigitsValue("168") == 168
    ensures IsGroup("01") && DigitsValue("01") == 1
  {
    assert "192"[..2] == "19" && "19"[..1] == "1";
    assert "168"[..2] == "16" && "16"[..1] == "1";
    assert "01"[..1] == "0";
  }

  /** A leading zero is accepted. */
  lemma LeadingZeroExample()
    ensures ValidateIp("192.168.1.01") == Success("192.168.1.01")
  {
    var parts := ["192", "168", "1", "01"];
    LeadingZeroGroups();
    assert IsOctetList(parts);
    assert Join(parts, '.') == "192.168.1.01";
    AcceptsOctetList(parts);
  }

  /** One final newline is accepted. */
  lemma FinalNewlineExample()
    ensures ValidateIp("1.2.3.4\n") == Success("1.2.3.4\n")
  {
    assert Join(["1", "2", "3", "4"], '.') + "\n" == "1.2.3.4\n";
    AcceptsOctetList(["1", "2", "3", "4"]);
  }

  lemma ValueOf256()
    ensures IsGroup("256") && DigitsValue("256") == 256
  {
    assert "256"[..2] == "25" && "25"[..1] == "2";
  }

  /** Four well-formed groups with one above 255 are refused for range,
      not format. */
  lemma RefusesLargeOctet(parts: seq<string>, k: nat)
    requires |parts| == 4 && forall i :: 0 <= i < 4 ==> IsGroup(parts[i])
    requires k < 4 && AllDigits(parts[k]) && DigitsValue(parts[k]) > 255
    ensures ValidateIp(Join(parts, '.')) == Failure(BadOctet)
  {
    SplitJoin(parts, '.');
    JoinEndsWithLast(parts, '.');
    var j := Join(parts, '.');
    assert j[|j| - 1] == parts[3][|parts[3]| - 1];
    assert DropFinalNewline(j) == j;
    assert IsQuadShape(j);
    assert Split(j, '.')[k] == parts[k];
    assert !OctetsInRange(j);
  }

  /** An octet of 256 is out of range. */
  lemma OutOfRangeExample()
    ensures ValidateIp("256.1.1.1") == Failure(BadOctet)
  {
    var parts := ["256", "1", "1", "1"];
    ValueOf256();
    assert IsGroup(parts[1]);
    RefusesLargeOctet(parts, 0);
    assert Join(parts, '.') == "256.1.1.1";
  }

  /** Three or five groups are malformed. */
  lemma WrongGroupCountExamples()
    ensures ValidateIp("1.2.3") == Failure(BadFormat)
    ensures ValidateIp("1.2.3.4.5") == Failure(BadFormat)
  {
    assert Join(["1", "2", "3"], '.') == "1.2.3";
    SplitJoin(["1", "2", "3"], '.');
    assert Join(["1", "2", "3", "4", "5"], '.') == "1.2.3.4.5";
    SplitJoin(["1", "2", "3", "4", "5"], '.');
  }

  /** The empty string and an IPv6 form are malformed. */
  lemma NoDotExamples()
    ensures ValidateIp("") == Failure(BadFormat)
    ensures ValidateIp("::1") == Failure(BadFormat)
  {
    SplitNoSeparator("", '.');
    SplitNoSeparator("::1", '.');
  }

  function StringErrors(v: Option<string>): seq<string> {
    if v.None? then [NotAString] else []
  }

  function IpErrors(v: Option<string>): seq<string> {
    match v
    case None => [NotAString]
    case Some(s) => if ValidateIp(s).Failure? then [ValidateIp(s).error] else []
  }

  /** `DeviceSchema(user_agent=…, accept_language=…, ip=…, user_id=…)`: all
      fields are checked and every error is reported, in field order. The
      user agent and language may be any string, the empty one included. */
  function Construct(userAgent: Option<string>, acceptLanguage: Option<string>, ip: Option<string>, userId: Option<int>)
    : (r: Result<Device, seq<string>>)
    ensures r.Success? <==>
      userAgent.Some? && acceptLanguage.Some? && ip.Some? && ValidateIp(ip.value).Success? && userId.Some?
    ensures r.Success? ==> r.value == Device(userAgent.value, acceptLanguage.value, ip.value, userId.value)
    ensures userId.None? ==> r.Failure? && NotAnInteger in r.error
  {
    var errors := StringErrors(userAgent) + StringErrors(acceptLanguage) + IpErrors(ip)
      + (if userId.None? then [NotAnInteger] else []);
    if errors == [] then Success(Device(userAgent.value, acceptLanguage.value, ip.value, userId.value))
    else
      assert |errors| > 0;
      Failure(errors)
  }

  /** `validate_all`: reruns the address check and returns the record. */
  function ValidateAll(d: Device): (r: Result<Device, string>)
    ensures r.Success? <==> ValidateIp(d.ip).Success?
    ensures r.Success? ==> r.value == d
  {
    match ValidateIp(d.ip)
    case Failure(e) => Failure(e)
    case Success(ip) => Success(d.(ip := ip))
  }

  /** A constructed device passes `validate_all` unchanged. */
  lemma ConstructedPassesValidateAll(userAgent: Option<string>, acceptLanguage: Option<string>, ip: Option<string>,
                                     userId: Option<int>)
    requires Construct(userAgent, acceptLanguage, ip, userId).Success?
    ensures ValidateAll(Construct(userAgent, acceptLanguage, ip, userId).value)
      == Success(Construct(userAgent, acceptLanguage, ip, userId).value)
  {
  }
}
