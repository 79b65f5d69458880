/**
  Two readings of a host name, one in the request guard and one in the certificate service, and the proof that they
  agree wherever both apply. Names follow RFC 1035 section 2.3.1 as relaxed by RFC 1123 section 2.1.
*/
module Hostnames {
  import opened Wrappers
  import opened Text
  import opened Leaf

  const DOT: char := '.'

  // `string.lower` in the C locale.
  function LuaLower(s: string): (r: string)
    ensures |r| == |s|
  {
    seq(|s|, i requires 0 <= i < |s| => if 'A' <= s[i] <= 'Z' then s[i] + 32 as char else s[i])
  }

  predicate HostChar(c: char) { NameChar(c) || c == DOT }

  predicate DoubleDot(s: string) { exists i :: 0 <= i < |s| - 1 && s[i] == DOT && s[i + 1] == DOT }

  function RunLength(s: string): (k: nat)
    ensures k <= |s| && DOT !in s[..k] && (k < |s| ==> s[k] == DOT)
  {
    if s == [] || s[0] == DOT then 0 else 1 + RunLength(s[1..])
  }

  // `gmatch("[^.]+")`: the maximal runs of other characters.
  function Runs(s: string): seq<string> {
    if s == [] then []
    else if s[0] == DOT then Runs(s[1..])
    else
      var k := RunLength(s);
      assert k > 0;
      [s[..k]] + Runs(s[k..])
  }

  function DigitLength(s: string): (k: nat)
    ensures k <= |s| && Digits(s[..k]) && (k < |s| ==> !Digit(s[k]))
  {
    if s == [] || !Digit(s[0]) then 0
    else
      assert s[..1 + DigitLength(s[1..])] == [s[0]] + s[1..][..DigitLength(s[1..])];
      1 + DigitLength(s[1..])
  }

  // The pattern "^%d+%.%d+%.%d+%.%d+$", with `more` groups still to come after this one. Digits and the separator
  // exclude each other, so the longest match of a group is the only one that can succeed.
  predicate MatchQuad(s: string, more: nat) {
    var k := DigitLength(s);
    k > 0 && (if more == 0 then k == |s| else k < |s| && s[k] == DOT && MatchQuad(s[k + 1..], more - 1))
  }

  predicate RunOk(run: string)
    requires run != []
  {
    |run| <= MAX_LABEL && run[0] != '-' && run[|run| - 1] != '-'
  }

  // The guard's `hostname`, check by check.
  function Hostname(value: Option<string>): Option<string> {
    if value.None? || ByteLen(value.value) == 0 || ByteLen(value.value) > MAX_NAME then None
    else
      var s := LuaLower(value.value);
      if (exists c :: c in s && !HostChar(c)) || s[|s| - 1] == DOT || DoubleDot(s) then None
      else if MatchQuad(s, 3) then None
      else if exists run :: run in Runs(s) && run != [] && !RunOk(run) then None
      else if s[0] == DOT then None
      else Some(s)
  }

  predicate FourNumericLabels(s: string) {
    var labels := Split(s, DOT);
    |labels| == 4 && forall part :: part in labels ==> part != [] && Digits(part)
  }

  // ---- splitting and matching

  lemma {:induction false} RunsAreLabels(s: string)
    ensures forall run :: run in Runs(s) <==> run in Split(s, DOT) && run != []
    decreases |s|
  {
    if s != [] {
      if s[0] == DOT {
        RunsAreLabels(s[1..]);
        SplitFirst(s, 0, DOT);
      } else {
        var k := RunLength(s);
        if k == |s| {
          SplitWhole(s, DOT);
          assert s[k..] == [];
          assert s[..k] == s;
        } else {
          SplitFirst(s, k, DOT);
          RunsAreLabels(s[k + 1..]);
          assert s[k..][1..] == s[k + 1..];
        }
      }
    }
  }

  lemma {:induction false} EmptyLabels(s: string)
    ensures [] in Split(s, DOT)[1..] <==> s != [] && (s[|s| - 1] == DOT || DoubleDot(s))
    ensures Split(s, DOT)[0] == [] <==> s == [] || s[0] == DOT
  {
    if s != [] {
      var rest := Split(s[1..], DOT);
      EmptyLabels(s[1..]);
      DoubleDotStep(s);
      if s[0] == DOT {
        assert Split(s, DOT)[1..] == rest;
        assert [] in rest <==> rest[0] == [] || [] in rest[1..];
      } else {
        assert Split(s, DOT)[1..] == rest[1..];
      }
    }
  }

  lemma DoubleDotStep(s: string)
    requires s != []
    ensures DoubleDot(s) <==> (|s| > 1 && s[0] == DOT && s[1] == DOT) || DoubleDot(s[1..])
  {
    if DoubleDot(s[1..]) {
      var i :| 0 <= i < |s[1..]| - 1 && s[1..][i] == DOT && s[1..][i + 1] == DOT;
      assert s[i + 1] == DOT && s[i + 2] == DOT;
    }
    if DoubleDot(s) {
      var i :| 0 <= i < |s| - 1 && s[i] == DOT && s[i + 1] == DOT;
      if i > 0 { assert s[1..][i - 1] == DOT && s[1..][i - 1 + 1] == DOT; }
    }
  }

  predicate NameChars(part: string) { forall c :: c in part ==> NameChar(c) }

  predicate HostChars(s: string) { forall c :: c in s ==> HostChar(c) }

  predicate AllNameChars(parts: seq<string>) { forall part :: part in parts ==> NameChars(part) }

  lemma AllNameCharsCons(first: string, rest: seq<string>)
    ensures AllNameChars([first] + rest) <==> NameChars(first) && AllNameChars(rest)
  {
    assert forall part :: part in [first] + rest <==> part == first || part in rest;
  }

  lemma NameCharsCons(c: char, rest: string)
    ensures NameChars([c] + rest) <==> NameChar(c) && NameChars(rest)
    ensures HostChars([c] + rest) <==> HostChar(c) && HostChars(rest)
  {
    assert forall x :: x in [c] + rest <==> x == c || x in rest;
  }

  lemma {:induction false} LabelChars(s: string)
    ensures HostChars(s) <==> AllNameChars(Split(s, DOT))
  {
    hide HostChars, AllNameChars, NameChars;
    if s == [] {
      EmptyChars();
    } else {
      var rest := Split(s[1..], DOT);
      LabelChars(s[1..]);
      assert s == [s[0]] + s[1..] && rest == [rest[0]] + rest[1..];
      NameCharsCons(s[0], s[1..]);
      NameCharsCons(s[0], rest[0]);
      AllNameCharsCons([], rest);
      AllNameCharsCons(rest[0], rest[1..]);
      AllNameCharsCons([s[0]] + rest[0], rest[1..]);
      EmptyChars();
    }
  }

  lemma EmptyChars()
    ensures HostChars([]) && NameChars([]) && AllNameChars([[]])
  {
  }

  ghost predicate NumericLabels(labels: seq<string>, n: nat) {
    |labels| == n && forall part :: part in labels ==> part != [] && Digits(part)
  }

  lemma {:induction false} QuadIsNumeric(s: string, more: nat)
    ensures MatchQuad(s, more) <==> NumericLabels(Split(s, DOT), more + 1)
    decreases more
  {
    var k := DigitLength(s);
    var j := RunLength(s);
    var labels := Split(s, DOT);
    DigitsBeforeDot(s);
    if j == |s| {
      assert s[..j] == s;
      SplitWhole(s, DOT);
    } else {
      SplitFirst(s, j, DOT);
      var rest := Split(s[j + 1..], DOT);
      assert forall part :: part in labels <==> part == s[..j] || part in rest;
      if more > 0 { QuadIsNumeric(s[j + 1..], more - 1); }
    }
  }

  // The leading digits end where the first label ends exactly when that label is all digits.
  lemma {:induction false} DigitsBeforeDot(s: string)
    ensures DigitLength(s) <= RunLength(s)
    ensures DigitLength(s) == RunLength(s) <==> Digits(s[..RunLength(s)])
  {
    var k, j := DigitLength(s), RunLength(s);
    forall i | 0 <= i < k ensures Digit(s[i]) {
      assert s[i] in s[..k];
    }
    assert Digits(s[..j]) ==> forall i :: 0 <= i < j ==> s[..j][i] in s[..j] && Digit(s[i]);
  }

  // ---- lower case and length

  lemma {:induction false} AsciiBytes(s: string)
    requires Ascii(s)
    ensures ByteLen(s) == |s|
  {
    if s != [] {
      assert s[0] in s;
      forall c | c in s[1..] ensures c in s {}
      AsciiBytes(s[1..]);
    }
  }

  lemma LowersAgree(s: string)
    requires Ascii(s)
    ensures LuaLower(s) == ToLower(s) && Ascii(ToLower(s))
  {
    var r := ToLower(s);
    forall i | 0 <= i < |s| ensures LuaLower(s)[i] == r[i] && r[i] < '\U{80}' {
      assert s[i] in s;
    }
  }

  // Outside ASCII the guard always refuses.
  lemma NonAsciiRefused(s: string)
    requires !Ascii(s)
    ensures Hostname(Some(s)).None?
  {
    hide MatchQuad, Runs, DoubleDot, ByteLen;
    var c :| c in s && c >= '\U{80}';
    var i :| 0 <= i < |s| && s[i] == c;
    assert LuaLower(s)[i] == c && c in LuaLower(s) && !HostChar(c);
  }

  // ---- the two checks on a lowered ASCII name

  predicate GuardAccepts(s: string)
    requires s != []
  {
    && HostChars(s) && s[|s| - 1] != DOT && !DoubleDot(s) && s[0] != DOT
    && !MatchQuad(s, 3)
    && forall run :: run in Runs(s) && run != [] ==> RunOk(run)
  }

  predicate ServiceAccepts(s: string)
    requires s != []
  {
    s[|s| - 1] != DOT && !IPv4Literal(s) && forall part :: part in Split(s, DOT) ==> ValidLabel(part)
  }

  lemma ChecksAgree(s: string)
    requires s != []
    ensures GuardAccepts(s) <==> ServiceAccepts(s) && !FourNumericLabels(s)
  {
    hide MatchQuad, Runs, DoubleDot, Split, HostChar, Decimal;
    var labels := Split(s, DOT);
    RunsAreLabels(s);
    EmptyLabels(s);
    LabelChars(s);
    QuadIsNumeric(s, 3);
    assert forall part :: part in labels <==> part == labels[0] || part in labels[1..];
    forall part | part in labels && part != []
      ensures ValidLabel(part) <==> RunOk(part) && NameChars(part)
    {
    }
    if IPv4Literal(s) {
      forall part | part in labels ensures part != [] && Digits(part) {
        assert Octet(part);
      }
    }
  }

  // For every string the guard accepts it exactly when the certificate service does, it is ASCII, and it is not four
  // all-digit labels; the canonical names are then the same.
  lemma HostnameAgreesWithCanonicalName(s: string)
    ensures Hostname(Some(s)) ==
            if Ascii(s) && !FourNumericLabels(ToLower(s)) && CanonicalName(s).Ok? then Some(CanonicalName(s).value)
            else None
  {
    hide MatchQuad, Runs, DoubleDot, Split, IPv4Literal, HostChar, ValidLabel, FourNumericLabels, RunOk;
    if !Ascii(s) {
      NonAsciiRefused(s);
    } else if ByteLen(s) != 0 && ByteLen(s) <= MAX_NAME {
      AsciiBytes(s);
      LowersAgree(s);
      var lower := ToLower(s);
      ChecksAgree(lower);
      LastDot(s);
      assert Hostname(Some(s)) == if GuardAccepts(lower) then Some(lower) else None;
    }
  }

  lemma LastDot(s: string)
    requires s != []
    ensures s[|s| - 1] == DOT <==> ToLower(s)[|s| - 1] == DOT
  {
  }

  // Both conditions are needed. The service takes KELVIN SIGN as "k"; the guard refuses it.
  lemma KelvinSign()
    ensures CanonicalName("\U{212A}") == Ok("k") && Hostname(Some("\U{212A}")).None?
  {
    hide Split, Hostname;
    var kelvin := "\U{212A}";
    assert kelvin[0] in kelvin;
    NonAsciiRefused(kelvin);
    SplitWhole("k", DOT);
    assert ToLower(kelvin) == "k";
    assert !IPv4Literal("k");
  }

  lemma LeadingZeroLabels()
    ensures Split("1.1.1.01", DOT) == ["1", "1", "1", "01"]
  {
    hide Split;
    assert "1.1.1.01"[2..] == "1.1.01" && "1.1.01"[2..] == "1.01" && "1.01"[2..] == "01";
    assert "1.1.1.01"[..1] == "1.1.01"[..1] == "1.01"[..1] == "1";
    SplitFirst("1.1.1.01", 1, DOT);
    SplitFirst("1.1.01", 1, DOT);
    SplitFirst("1.01", 1, DOT);
    SplitWhole("01", DOT);
  }

  // Four all-digit labels, one with a leading zero, are no IPv4 address to the service; the guard refuses them too.
  lemma LeadingZero()
    ensures CanonicalName("1.1.1.01") == Ok("1.1.1.01") && Hostname(Some("1.1.1.01")).None?
  {
    hide Split, Hostname, ByteLen, Decimal;
    var quad := "1.1.1.01";
    AsciiBytes(quad);
    assert ToLower(quad) == quad;
    LeadingZeroLabels();
    assert !Octet("01");
    assert "01" in Split(quad, DOT);
    HostnameAgreesWithCanonicalName(quad);
  }
}
