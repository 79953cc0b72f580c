/** Device fingerprints: the SHA-256 (FIPS 180-4, section 6.2) hex digest
    of the UTF-8 encoding (RFC 3629) of `ip|user_agent|accept_language`.
    The hash itself is a parameter; only its output shape is assumed. */
module Fingerprint {
  import opened Wrappers

  newtype byte = b: int | 0 <= b < 256

  predicate IsLowerHex(c: char) {
    '0' <= c <= '9' || 'a' <= c <= 'f'
  }

  /** A `hexdigest()` of SHA-256: 64 lower-case hexadecimal characters. */
  type Digest = s: string | |s| == 64 && forall i :: 0 <= i < |s| ==> IsLowerHex(s[i])
    witness seq(64, _ => '0')

  /** The hash function, left uninterpreted. */
  type Sha256 = seq<byte> -> Digest

  /** The information dictionary keys the fingerprint reads. */
  const ForwardedForKey := "x_forwarded_for"
  const UserAgentKey := "user_agent"
  const AcceptLanguageKey := "accept_language"
  const Unknown := "Unknown"

  type Info = map<string, string>

  /** Python `info.get(key, default)`. */
  function Get(info: Info, key: string, default: string): string {
    if key in info then info[key] else default
  }

  /** The UTF-8 encoding of one Unicode scalar value. */
  function EncodeChar(c: char): (bs: seq<byte>)
    ensures 1 <= |bs| <= 4
  {
    var n := c as int;
    if n < 0x80 then [n as byte]
    else if n < 0x800 then [(0xC0 + n / 64) as byte, (0x80 + n % 64) as byte]
    else if n < 0x1_0000 then
      [(0xE0 + n / 4096) as byte, (0x80 + (n / 64) % 64) as byte, (0x80 + n % 64) as byte]
    else
      [(0xF0 + n / 262144) as byte, (0x80 + (n / 4096) % 64) as byte,
       (0x80 + (n / 64) % 64) as byte, (0x80 + n % 64) as byte]
  }

  /** The encoded length announced by a leading byte. */
  function LeadLength(b: byte): nat {
    if b < 0x80 then 1 else if b < 0xE0 then 2 else if b < 0xF0 then 3 else 4
  }

  /** The scalar value carried by a well-formed encoding of one character. */
  function DecodeChar(bs: seq<byte>): int
    requires 1 <= |bs| <= 4
  {
    if |bs| == 1 then bs[0] as int
    else if |bs| == 2 then (bs[0] as int - 0xC0) * 64 + (bs[1] as int - 0x80)
    else if |bs| == 3 then
      (bs[0] as int - 0xE0) * 4096 + (bs[1] as int - 0x80) * 64 + (bs[2] as int - 0x80)
    else
      (bs[0] as int - 0xF0) * 262144 + (bs[1] as int - 0x80) * 4096
        + (bs[2] as int - 0x80) * 64 + (bs[3] as int - 0x80)
  }

  /** Each character's encoding announces its own length and decodes back. */
  lemma EncodeCharFacts(c: char)
    ensures LeadLength(EncodeChar(c)[0]) == |EncodeChar(c)|
    ensures DecodeChar(EncodeChar(c)) == c as int
  {
    var n := c as int;
    if n >= 0x1_0000 {
      assert n / 262144 <= 4;
      assert n == (n / 262144) * 262144 + ((n / 4096) % 64) * 4096 + ((n / 64) % 64) * 64 + n % 64;
    } else if n >= 0x800 {
      assert n == (n / 4096) * 4096 + ((n / 64) % 64) * 64 + n % 64;
    }
  }

  /** RFC 3629 UTF-8 encoding of a string (Python `s.encode("utf-8")`). */
  function Utf8(s: string): (bs: seq<byte>)
    ensures |bs| >= |s|
  {
    if |s| == 0 then [] else EncodeChar(s[0]) + Utf8(s[1..])
  }

  /** UTF-8 is injective: distinct strings never share an encoding. */
  lemma {:induction false} Utf8Injective(s: string, t: string)
    requires Utf8(s) == Utf8(t)
    ensures s == t
    decreases |s|
  {
    if |s| > 0 && |t| > 0 {
      var es, et := EncodeChar(s[0]), EncodeChar(t[0]);
      EncodeCharFacts(s[0]);
      EncodeCharFacts(t[0]);
      assert es[0] == Utf8(s)[0] == Utf8(t)[0] == et[0];
      assert es == Utf8(s)[..|es|] == Utf8(t)[..|et|] == et;
      assert s[0] as int == t[0] as int;
      assert Utf8(s)[|es|..] == Utf8(s[1..]);
      assert Utf8(t)[|et|..] == Utf8(t[1..]);
      Utf8Injective(s[1..], t[1..]);
      assert s == [s[0]] + s[1..];
      assert t == [t[0]] + t[1..];
    }
  }

  /** The canonical device string `ip|user_agent|accept_language`. */
  function Canonical(ip: string, userAgent: string, acceptLanguage: string): string {
    ip + "|" + userAgent + "|" + acceptLanguage
  }

  /** `generate_fingerprint`: reads three keys with their defaults, builds
      the canonical string and hashes its UTF-8 encoding. */
  function Generate(info: Info, sha256: Sha256): (fp: Digest)
    ensures ForwardedForKey !in info && UserAgentKey !in info && AcceptLanguageKey !in info
      ==> fp == sha256(Utf8(Canonical(Unknown, Unknown, "")))
  {
    var ip := Get(info, ForwardedForKey, Unknown);
    var userAgent := Get(info, UserAgentKey, Unknown);
    var acceptLanguage := Get(info, AcceptLanguageKey, "");
    sha256(Utf8(Canonical(ip, userAgent, acceptLanguage)))
  }

  /** The fingerprint reads nothing but the three fields, defaults applied. */
  lemma OnlyTripleMatters(a: Info, b: Info, sha256: Sha256)
    requires Get(a, ForwardedForKey, Unknown) == Get(b, ForwardedForKey, Unknown)
    requires Get(a, UserAgentKey, Unknown) == Get(b, UserAgentKey, Unknown)
    requires Get(a, AcceptLanguageKey, "") == Get(b, AcceptLanguageKey, "")
    ensures Generate(a, sha256) == Generate(b, sha256)
  {
  }

  /** A separator-free prefix is recovered from `prefix|rest`. */
  lemma {:induction false} SplitAtFirstBar(a1: string, r1: string, a2: string, r2: string)
    requires '|' !in a1 && '|' !in a2
    requires a1 + "|" + r1 == a2 + "|" + r2
    ensures a1 == a2 && r1 == r2
  {
    var s := a1 + "|" + r1;
    assert s[|a1|] == '|' && s[|a2|] == '|';
    assert a1 == s[..|a1|] == a2;
    assert r1 == s[|a1| + 1..] == r2;
  }

  /** When neither ip nor user agent contains `|`, the canonical string
      determines the triple. */
  lemma CanonicalInjective(ip1: string, ua1: string, al1: string, ip2: string, ua2: string, al2: string)
    requires '|' !in ip1 && '|' !in ua1 && '|' !in ip2 && '|' !in ua2
    requires Canonical(ip1, ua1, al1) == Canonical(ip2, ua2, al2)
    ensures ip1 == ip2 && ua1 == ua2 && al1 == al2
  {
    assert Canonical(ip1, ua1, al1) == ip1 + "|" + (ua1 + "|" + al1);
    assert Canonical(ip2, ua2, al2) == ip2 + "|" + (ua2 + "|" + al2);
    SplitAtFirstBar(ip1, ua1 + "|" + al1, ip2, ua2 + "|" + al2);
    SplitAtFirstBar(ua1, al1, ua2, al2);
  }

  /** `|` is not escaped: two different triples share a canonical string. */
  lemma CanonicalNotInjective()
    ensures Canonical("a|b", "c", "d") == Canonical("a", "b|c", "d")
  {
  }

  /** Two '|'-free triples with equal fingerprints are either the same triple
      or exhibit a SHA-256 collision between two different byte strings. */
  lemma EqualFingerprintMeansSameDeviceOrCollision(a: Info, b: Info, sha256: Sha256)
    requires '|' !in Get(a, ForwardedForKey, Unknown) && '|' !in Get(a, UserAgentKey, Unknown)
    requires '|' !in Get(b, ForwardedForKey, Unknown) && '|' !in Get(b, UserAgentKey, Unknown)
    requires Generate(a, sha256) == Generate(b, sha256)
    ensures
      || (&& Get(a, ForwardedForKey, Unknown) == Get(b, ForwardedForKey, Unknown)
          && Get(a, UserAgentKey, Unknown) == Get(b, UserAgentKey, Unknown)
          && Get(a, AcceptLanguageKey, "") == Get(b, AcceptLanguageKey, ""))
      || (var x := Utf8(Canonical(Get(a, ForwardedForKey, Unknown), Get(a, UserAgentKey, Unknown), Get(a, AcceptLanguageKey, "")));
          var y := Utf8(Canonical(Get(b, ForwardedForKey, Unknown), Get(b, UserAgentKey, Unknown), Get(b, AcceptLanguageKey, "")));
          x != y && sha256(x) == sha256(y))
  {
    var ca := Canonical(Get(a, ForwardedForKey, Unknown), Get(a, UserAgentKey, Unknown), Get(a, AcceptLanguageKey, ""));
    var cb := Canonical(Get(b, ForwardedForKey, Unknown), Get(b, UserAgentKey, Unknown), Get(b, AcceptLanguageKey, ""));
    if Utf8(ca) == Utf8(cb) {
      Utf8Injective(ca, cb);
      CanonicalInjective(Get(a, ForwardedForKey, Unknown), Get(a, UserAgentKey, Unknown), Get(a, AcceptLanguageKey, ""),
                         Get(b, ForwardedForKey, Unknown), Get(b, UserAgentKey, Unknown), Get(b, AcceptLanguageKey, ""));
    }
  }
}
