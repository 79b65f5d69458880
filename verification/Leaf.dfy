/**
  Server names accepted for certificate issuance and the validity of an issued leaf.
  Times are nanoseconds; X.509 (RFC 5280 section 4.1.2.5) keeps whole seconds, so an encoded time is rounded down.
*/
module Leaf {
  import opened Wrappers
  import opened Text

  const SECOND: int := 1_000_000_000
  const MINUTE: int := 60 * SECOND
  const HOUR: int := 60 * MINUTE
  const MAX_NAME: nat := 253
  const MAX_LABEL: nat := 63

  /** A CA certificate: the identity of its key pair and its validity interval. */
  datatype Certificate = Certificate(key: nat, notBefore: int, notAfter: int)

  /** A leaf certificate with its key, both opaque but for what a verifier compares. */
  datatype LeafCertificate = LeafCertificate(name: string, key: nat, issuer: nat, notBefore: int, notAfter: int)

  // Go's Unicode lower-casing. Exactly two scalars outside ASCII have an ASCII lower case, KELVIN SIGN and
  // CAPITAL I WITH DOT ABOVE; every other one stays outside ASCII and is refused whatever it maps to.
  function Lower(c: char): char {
    if 'A' <= c <= 'Z' then c + 32 as char
    else if c == '\U{212A}' then 'k'
    else if c == '\U{0130}' then 'i'
    else c
  }

  function ToLower(s: string): (r: string)
    ensures |r| == |s|
  {
    seq(|s|, i requires 0 <= i < |s| => Lower(s[i]))
  }

  predicate NameChar(c: char) { 'a' <= c <= 'z' || Digit(c) || c == '-' }

  predicate ValidLabel(part: string) {
    && 1 <= |part| <= MAX_LABEL
    && part[0] != '-' && part[|part| - 1] != '-'
    && forall c :: c in part ==> NameChar(c)
  }

  function DecimalDigit(c: char): nat
    requires Digit(c)
  {
    (c - '0') as int
  }

  function Decimal(s: string): nat
    requires Digits(s)
  {
    if s == [] then 0
    else
      assert s[|s| - 1] in s;
      assert forall c :: c in s[..|s| - 1] ==> c in s;
      10 * Decimal(s[..|s| - 1]) + DecimalDigit(s[|s| - 1])
  }

  // A number in decimal.
  function PrintDecimal(n: nat): (r: string)
    ensures r != [] && Digits(r)
  {
    var last := '0' + (n % 10) as char;
    if n < 10 then [last] else PrintDecimal(n / 10) + [last]
  }

  // One field of a dotted-quad address as `netip.ParseAddr` reads it: no leading zero, at most 255.
  predicate Octet(s: string) {
    1 <= |s| <= 3 && Digits(s) && (|s| > 1 ==> s[0] != '0') && Decimal(s) <= 255
  }

  // An IPv6 literal always holds a ':', which no label may hold, so only the IPv4 form can tip the answer.
  predicate IPv4Literal(s: string) {
    var fields := Split(s, '.');
    |fields| == 4 && forall field :: field in fields ==> Octet(field)
  }

  function CanonicalName(name: string): Result<string, ()> {
    if ByteLen(name) == 0 || ByteLen(name) > MAX_NAME || name[|name| - 1] == '.' then Err(())
    else
      var lower := ToLower(name);
      if IPv4Literal(lower) then Err(())
      else if forall part :: part in Split(lower, '.') ==> ValidLabel(part) then Ok(lower)
      else Err(())
  }

  lemma {:induction false} PrintParse(n: nat)
    ensures Decimal(PrintDecimal(n)) == n
  {
    if n >= 10 {
      PrintParse(n / 10);
      var r := PrintDecimal(n);
      assert r[..|r| - 1] == PrintDecimal(n / 10);
    }
  }

  predicate Issuable(name: string) { CanonicalName(name).Ok? }

  // `notBefore` and `notAfter` as the encoded certificate holds them.
  function WholeSecond(t: int): (r: int)
    ensures r <= t < r + SECOND
    ensures t % SECOND == 0 ==> r == t
    ensures r % SECOND == 0
  {
    t / SECOND * SECOND
  }

  predicate ValidAt(leaf: LeafCertificate, now: int) { leaf.notBefore <= now <= leaf.notAfter }

  // `key` is the outcome of key generation and signing, which may fail.
  function Issue(ca: Certificate, name: string, now: int, key: Option<nat>): Option<LeafCertificate> {
    if now < ca.notBefore || !(now + MINUTE < ca.notAfter) || key.None? then None
    else
      var expiry := if ca.notAfter < now + HOUR then ca.notAfter else now + HOUR;
      Some(LeafCertificate(name, key.value, ca.key, WholeSecond(now - MINUTE), WholeSecond(expiry)))
  }

  // A leaf never outlives its CA, and within the hour after issue it is valid exactly while the CA is, once the
  // clock is no earlier than the minute of tolerance before the issue time. (The end of a CA read from its encoding is
  // a whole second.)
  lemma LeafWindow(ca: Certificate, name: string, issued: int, key: Option<nat>, now: int)
    requires Issue(ca, name, issued, key).Some?
    requires ca.notAfter % SECOND == 0
    requires now <= issued + HOUR - SECOND
    ensures var leaf := Issue(ca, name, issued, key).value;
            && leaf.notAfter <= ca.notAfter
            && (ValidAt(leaf, now) <==> WholeSecond(issued - MINUTE) <= now <= ca.notAfter)
  {
    var expiry := if ca.notAfter < issued + HOUR then ca.notAfter else issued + HOUR;
    assert WholeSecond(expiry) <= expiry < WholeSecond(expiry) + SECOND;
  }
}
