/** `validate_input`: the sign-in and sign-up credential policy. The e-mail
    address must match `local@domain.tld` and the password must be at least
    twelve characters with an upper-case letter, a lower-case letter and a
    digit. */
module AuthInput {
  import opened Wrappers
  import opened Text

  /** Both fields may be missing when the record is built without pydantic
      validation, which is why the check starts with them. */
  datatype Credentials = Credentials(email: Option<string>, password: Option<string>)

  const MinPasswordLength := 12

  predicate IsLocalChar(c: char) {
    IsAsciiLetter(c) || IsDigit(c) || c == '.' || c == '_' || c == '%' || c == '+' || c == '-'
  }

  predicate IsDomainChar(c: char) {
    IsAsciiLetter(c) || IsDigit(c) || c == '.' || c == '-'
  }

  /** `[a-zA-Z0-9._%+-]+` */
  predicate IsLocalPart(s: string) {
    |s| >= 1 && forall i :: 0 <= i < |s| ==> IsLocalChar(s[i])
  }

  /** `[a-zA-Z0-9.-]+` */
  predicate IsDomainPart(s: string) {
    |s| >= 1 && forall i :: 0 <= i < |s| ==> IsDomainChar(s[i])
  }

  /** `[a-zA-Z]{2,}` */
  predicate IsTopLabel(s: string) {
    |s| >= 2 && forall i :: 0 <= i < |s| ==> IsAsciiLetter(s[i])
  }

  function Address(local: string, domain: string, top: string): string {
    local + ['@'] + (domain + ['.'] + top)
  }

  /** The language of `^[a-zA-Z0-9._%+-]+@[a-zA-Z0-9.-]+\.[a-zA-Z]{2,}` up to
      the end anchor: some split of the text into the three parts. */
  ghost predicate IsAddress(t: string) {
    exists local, domain, top :: t == Address(local, domain, top)
      && IsLocalPart(local) && IsDomainPart(domain) && IsTopLabel(top)
  }

  /** A split the regular expression is forced into: no part may hold '@',
      so the local part ends at the first '@'; the top label holds no '.',
      so it starts after the last '.'. */
  function AddressParts(t: string): Option<(string, string, string)> {
    match FirstIndex(t, '@')
    case None => None
    case Some(at) =>
      var rest := t[at + 1..];
      match LastIndex(rest, '.')
      case None => None
      case Some(dot) => Some((t[..at], rest[..dot], rest[dot + 1..]))
  }

  /** Cutting a text around one position and gluing it back. */
  lemma Reassemble(s: string, k: nat)
    requires k < |s|
    ensures s == s[..k] + [s[k]] + s[k + 1..]
  {
  }

  /** The three parts found always make up the text. */
  lemma AddressPartsCover(t: string)
    requires AddressParts(t).Some?
    ensures var p := AddressParts(t).value; t == Address(p.0, p.1, p.2)
  {
    var at := FirstIndex(t, '@').value;
    var rest := t[at + 1..];
    var dot := LastIndex(rest, '.').value;
    Reassemble(t, at);
    Reassemble(rest, dot);
  }

  predicate MatchesAddress(t: string) {
    var p := AddressParts(t);
    p.Some? && IsLocalPart(p.value.0) && IsDomainPart(p.value.1) && IsTopLabel(p.value.2)
  }

  /** The forced split finds an address whenever there is one. */
  lemma AddressCheckComplete(t: string)
    requires IsAddress(t)
    ensures MatchesAddress(t)
  {
    var local, domain, top :| t == Address(local, domain, top)
      && IsLocalPart(local) && IsDomainPart(domain) && IsTopLabel(top);
    NoAtInLocal(local);
    NoDotInTop(top);
    SplitOfAddress(local, domain, top);
  }

  lemma SplitOfAddress(local: string, domain: string, top: string)
    requires '@' !in local && '.' !in top
    ensures AddressParts(Address(local, domain, top)) == Some((local, domain, top))
  {
    var rest := domain + ['.'] + top;
    var t := local + ['@'] + rest;
    FirstIndexAfter(local, '@', rest);
    assert t[..|local|] == local;
    assert t[|local| + 1..] == rest;
    LastIndexBefore(domain, '.', top);
    assert rest[..|domain|] == domain;
    assert rest[|domain| + 1..] == top;
  }

  lemma NoAtInLocal(local: string)
    requires IsLocalPart(local)
    ensures '@' !in local
  {
  }

  lemma NoDotInTop(top: string)
    requires IsTopLabel(top)
    ensures '.' !in top
  {
  }

  /** The forced split only finds addresses. */
  lemma AddressCheckSound(t: string)
    requires MatchesAddress(t)
    ensures IsAddress(t)
  {
    var p := AddressParts(t).value;
    AddressPartsCover(t);
  }

  /** Python's `any(pred(c) for c in s)`. */
  predicate Any(s: string, pred: char -> bool)
    decreases |s|
  {
    |s| > 0 && (pred(s[0]) || Any(s[1..], pred))
  }

  lemma {:induction false} AnyIsSome(s: string, pred: char -> bool)
    ensures Any(s, pred) <==> exists i :: 0 <= i < |s| && pred(s[i])
    decreases |s|
  {
    if |s| > 0 {
      AnyIsSome(s[1..], pred);
      if exists i :: 0 <= i < |s| && pred(s[i]) {
        var i :| 0 <= i < |s| && pred(s[i]);
        if i > 0 {
          assert s[1..][i - 1] == s[i];
        }
      }
    }
  }

  predicate IsUpper(c: char) {
    'A' <= c <= 'Z'
  }

  predicate IsLower(c: char) {
    'a' <= c <= 'z'
  }

  /** The password policy as a property of the text. */
  ghost predicate IsStrongPassword(p: string) {
    |p| >= MinPasswordLength
      && (exists i :: 0 <= i < |p| && IsUpper(p[i]))
      && (exists i :: 0 <= i < |p| && IsLower(p[i]))
      && (exists i :: 0 <= i < |p| && IsDigit(p[i]))
  }

  /** The policy as the source checks it, character class by character class. */
  predicate PassesPasswordChecks(p: string) {
    |p| >= MinPasswordLength && Any(p, IsUpper) && Any(p, IsLower) && Any(p, IsDigit)
  }

  lemma PasswordChecksExact(p: string)
    ensures PassesPasswordChecks(p) <==> IsStrongPassword(p)
  {
    AnyIsSome(p, IsUpper);
    AnyIsSome(p, IsLower);
    AnyIsSome(p, IsDigit);
  }

  /** `validate_input`: the input comes back untouched or not at all. `re.match`
      anchors at the start and Python's `$` also matches before one final
      newline, which the top label cannot end with. */
  function ValidateInput(input: Credentials): (r: Option<Credentials>)
    ensures r.None? || r == Some(input)
    ensures r.Some? <==> (input.email.Some? && input.password.Some?
      && IsAddress(DropFinalNewline(input.email.value)) && IsStrongPassword(input.password.value))
  {
    if input.email.None? || input.password.None? then None
    else
      var email := DropFinalNewline(input.email.value);
      var password := input.password.value;
      AddressExact(email);
      PasswordChecksExact(password);
      if !MatchesAddress(email) then None
      else if |password| < MinPasswordLength then None
      else if !Any(password, IsUpper) then None
      else if !Any(password, IsLower) then None
      else if !Any(password, IsDigit) then None
      else Some(input)
  }

  lemma AddressExact(t: string)
    ensures MatchesAddress(t) <==> IsAddress(t)
  {
    if MatchesAddress(t) {
      AddressCheckSound(t);
    }
    if IsAddress(t) {
      AddressCheckComplete(t);
    }
  }

  lemma UsualAddress()
    ensures IsAddress("user@example.com")
  {
    assert "user@example.com" == Address("user", "example", "com");
    assert IsLocalPart("user") && IsDomainPart("example") && IsTopLabel("com");
  }

  lemma UsualPassword()
    ensures IsStrongPassword("Password1234")
  {
    var p := "Password1234";
    assert IsUpper(p[0]) && IsLower(p[1]) && IsDigit(p[8]);
  }

  /** A usual address with a policy-conforming password passes. */
  lemma AcceptedExample()
    ensures ValidateInput(Credentials(Some("user@example.com"), Some("Password1234")))
      == Some(Credentials(Some("user@example.com"), Some("Password1234")))
  {
    UsualAddress();
    UsualPassword();
    assert DropFinalNewline("user@example.com") == "user@example.com";
  }

  /** A one-letter top label fails. */
  lemma ShortTopLabelExample()
    ensures ValidateInput(Credentials(Some("user@example.c"), Some("Password1234"))).None?
  {
    var t := "user@example.c";
    assert DropFinalNewline(t) == t;
    assert t == Address("user", "example", "c");
    SplitOfAddress("user", "example", "c");
    AddressExact(t);
  }

  /** Without a '.' after the '@' there is no top label. */
  lemma NoDotAfterAt(local: string, rest: string)
    requires '@' !in local && '.' !in rest
    ensures AddressParts(local + ['@'] + rest).None?
  {
    var t := local + ['@'] + rest;
    FirstIndexAfter(local, '@', rest);
    assert t[|local| + 1..] == rest;
  }

  /** A missing top label fails. */
  lemma MissingTopLabelExample()
    ensures ValidateInput(Credentials(Some("user@example"), Some("Password1234"))).None?
  {
    var t := "user@example";
    assert DropFinalNewline(t) == t;
    assert t == "user" + ['@'] + "example";
    NoDotAfterAt("user", "example");
    AddressExact(t);
  }

  /** An eleven-character password and a missing address fail. */
  lemma BadFieldExamples()
    ensures ValidateInput(Credentials(Some("user@example.com"), Some("Password123"))).None?
    ensures ValidateInput(Credentials(None, Some("Password1234"))).None?
  {
  }
}
