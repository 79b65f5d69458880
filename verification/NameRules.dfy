/**
  What a server name is: labels of letters, digits and inner hyphens joined by dots, in lower case, at most 253 bytes,
  and not an IPv4 address in its usual notation (RFC 1035 sections 2.3.1 and 2.3.4, RFC 1123 section 2.1).
*/
module NameRules {
  import opened Wrappers
  import opened Text
  import opened Leaf
  import opened Hostnames

  // ---- addresses

  lemma {:induction false} DecimalPositive(s: string)
    requires Digits(s) && s != [] && s[0] != '0'
    ensures Decimal(s) >= 1
  {
    var k := |s| - 1;
    assert forall c :: c in s[..k] ==> c in s;
    assert s[k] in s && s[0] in s;
    if k > 0 { DecimalPositive(s[..k]); }
  }

  lemma PrintStep(n: nat, d: nat)
    requires n > 0 && d < 10
    ensures PrintDecimal(10 * n + d) == PrintDecimal(n) + ['0' + d as char]
  {
    hide Digits;
    var m := 10 * n + d;
    assert m / 10 == n && m % 10 == d;
  }

  lemma PrintDigit(d: nat)
    requires d < 10
    ensures PrintDecimal(d) == ['0' + d as char]
  {
  }

  // Reading and printing are inverse on numbers without a leading zero.
  lemma {:induction false} ParsePrint(s: string)
    requires Digits(s) && s != [] && (|s| > 1 ==> s[0] != '0')
    ensures PrintDecimal(Decimal(s)) == s
  {
    hide PrintDecimal, Decimal, Digits;
    var k := |s| - 1;
    DecimalSplit(s);
    var d := DecimalDigit(s[k]);
    assert s == s[..k] + [s[k]] && '0' + d as char == s[k];
    if k == 0 {
      assert s[..k] == [];
      PrintDigit(d);
    } else {
      DecimalPositive(s[..k]);
      ParsePrint(s[..k]);
      PrintStep(Decimal(s[..k]), d);
    }
  }

  lemma DecimalSplit(s: string)
    requires Digits(s) && s != []
    ensures var k := |s| - 1;
            && Digits(s[..k]) && Digit(s[k]) && Decimal(s) == 10 * Decimal(s[..k]) + DecimalDigit(s[k])
            && (k == 0 ==> Decimal(s[..k]) == 0)
  {
    assert s[|s| - 1] in s;
  }

  lemma {:induction false} PrintLeads(n: nat)
    requires n > 0
    ensures PrintDecimal(n)[0] != '0'
  {
    if n >= 10 { PrintLeads(n / 10); }
  }

  lemma PrintLength(n: nat)
    requires n < 1000
    ensures |PrintDecimal(n)| <= 3
  {
    hide Digits;
    if n >= 10 {
      assert |PrintDecimal(n)| == |PrintDecimal(n / 10)| + 1;
      if n / 10 >= 10 { assert |PrintDecimal(n / 10)| == |PrintDecimal(n / 100)| + 1; }
    }
  }

  lemma OctetIff(s: string)
    ensures Octet(s) <==> exists n: nat :: n <= 255 && s == PrintDecimal(n)
  {
    hide Decimal, PrintDecimal;
    if Octet(s) { ParsePrint(s); }
    if n: nat :| n <= 255 && s == PrintDecimal(n) {
      PrintParse(n);
      PrintLength(n);
      if n > 0 { PrintLeads(n); } else { PrintZero(); }
    }
  }

  lemma PrintZero()
    ensures PrintDecimal(0) == "0"
  {
  }

  // Four numbers up to 255 in decimal, joined by dots.
  predicate Quad(s: string, a: nat, b: nat, c: nat, d: nat) {
    && a <= 255 && b <= 255 && c <= 255 && d <= 255
    && s == PrintDecimal(a) + "." + PrintDecimal(b) + "." + PrintDecimal(c) + "." + PrintDecimal(d)
  }

  lemma QuadFields(s: string, a: nat, b: nat, c: nat, d: nat)
    requires Quad(s, a, b, c, d)
    ensures Split(s, '.') == [PrintDecimal(a), PrintDecimal(b), PrintDecimal(c), PrintDecimal(d)]
  {
    hide PrintDecimal, Split, Decimal;
    var labels := [PrintDecimal(a), PrintDecimal(b), PrintDecimal(c), PrintDecimal(d)];
    JoinFour(PrintDecimal(a), PrintDecimal(b), PrintDecimal(c), PrintDecimal(d));
    forall part | part in labels ensures '.' !in part { assert Digits(part); }
    SplitJoin(labels, '.');
  }

  lemma JoinFour(a: string, b: string, c: string, d: string)
    ensures Join([a, b, c, d], '.') == a + "." + b + "." + c + "." + d
  {
    assert [a, b, c, d][1..] == [b, c, d] && [b, c, d][1..] == [c, d] && [c, d][1..] == [d];
    assert Join([c, d], '.') == c + "." + d;
    assert Join([b, c, d], '.') == b + "." + (c + "." + d);
    assert Join([a, b, c, d], '.') == a + "." + (b + "." + (c + "." + d));
  }

  // An address literal is exactly a quad in its usual notation.
  lemma AddressIff(s: string)
    ensures IPv4Literal(s) <==> exists a: nat, b: nat, c: nat, d: nat :: Quad(s, a, b, c, d)
  {
    hide PrintDecimal, Split, Octet;
    var fields := Split(s, '.');
    if IPv4Literal(s) {
      assert fields[0] in fields && fields[1] in fields && fields[2] in fields && fields[3] in fields;
      OctetIff(fields[0]);
      OctetIff(fields[1]);
      OctetIff(fields[2]);
      OctetIff(fields[3]);
      var a: nat :| a <= 255 && fields[0] == PrintDecimal(a);
      var b: nat :| b <= 255 && fields[1] == PrintDecimal(b);
      var c: nat :| c <= 255 && fields[2] == PrintDecimal(c);
      var d: nat :| d <= 255 && fields[3] == PrintDecimal(d);
      JoinSplit(s, '.');
      assert fields == [fields[0], fields[1], fields[2], fields[3]];
      JoinFour(fields[0], fields[1], fields[2], fields[3]);
      assert Quad(s, a, b, c, d);
    }
    if a: nat, b: nat, c: nat, d: nat :| Quad(s, a, b, c, d) {
      QuadFields(s, a, b, c, d);
      OctetIff(PrintDecimal(a));
      OctetIff(PrintDecimal(b));
      OctetIff(PrintDecimal(c));
      OctetIff(PrintDecimal(d));
    }
  }

  // ---- names

  // A label of a host name.
  predicate HostLabel(part: string) {
    && 1 <= |part| <= 63 && part[0] != '-' && part[|part| - 1] != '-'
    && forall i :: 0 <= i < |part| ==> 'a' <= part[i] <= 'z' || '0' <= part[i] <= '9' || part[i] == '-'
  }

  // Lower case, character by character.
  predicate Lowered(s: string, lower: string) {
    && |lower| == |s|
    && forall i :: 0 <= i < |s| ==>
         lower[i] == if 'A' <= s[i] <= 'Z' then s[i] + 32 as char
                     else if s[i] == '\U{212A}' then 'k' else if s[i] == '\U{0130}' then 'i' else s[i]
  }

  lemma LabelIff(part: string)
    ensures ValidLabel(part) <==> HostLabel(part)
    ensures HostLabel(part) ==> '.' !in part
  {
    if HostLabel(part) {
      forall c | c in part ensures NameChar(c) && c != '.' {
        var i :| 0 <= i < |part| && part[i] == c;
      }
    }
    if ValidLabel(part) {
      forall i | 0 <= i < |part| ensures NameChar(part[i]) { assert part[i] in part; }
    }
  }

  lemma {:induction false} SomeBytes(s: string)
    ensures ByteLen(s) == 0 <==> s == []
  {
  }

  lemma {:induction false} BytesAdd(s: string, t: string)
    ensures ByteLen(s + t) == ByteLen(s) + ByteLen(t)
  {
    if s == [] {
      assert s + t == t;
    } else {
      assert (s + t)[1..] == s[1..] + t;
      BytesAdd(s[1..], t);
    }
  }

  // The two characters outside ASCII that a name can hold take three bytes and two.
  lemma WideBytes()
    ensures ByteLen("\U{212A}") == 3 && ByteLen("\U{0130}") == 2 && ByteLen("a") == 1
  {
  }

  // A name is accepted exactly if it is host labels joined by dots once lowered, within 253 bytes as it came, and no
  // IPv4 address; its canonical form is the lowered name.
  lemma CanonicalIff(s: string, canonical: string)
    ensures CanonicalName(s) == Ok(canonical) <==>
            && 1 <= ByteLen(s) <= 253 && Lowered(s, canonical)
            && (exists labels: seq<string> ::
                  labels != [] && canonical == Join(labels, '.') && forall part :: part in labels ==> HostLabel(part))
            && !exists a: nat, b: nat, c: nat, d: nat :: Quad(canonical, a, b, c, d)
  {
    hide Split, ByteLen, IPv4Literal, ValidLabel, HostLabel, Quad, Join;
    SomeBytes(s);
    var lower := ToLower(s);
    assert Lowered(s, lower);
    assert Lowered(s, canonical) ==> canonical == lower;
    AddressIff(lower);
    forall part ensures ValidLabel(part) <==> HostLabel(part) { LabelIff(part); }
    if labels: seq<string> :| labels != [] && lower == Join(labels, '.')
                              && forall part :: part in labels ==> HostLabel(part)
    {
      forall part | part in labels ensures '.' !in part { LabelIff(part); }
      SplitJoin(labels, '.');
      assert forall part :: part in Split(lower, '.') ==> ValidLabel(part);
    }
    JoinSplit(lower, '.');
    if s != [] { LabelsEnd(s); }
  }

  // Labels joined by dots do not end in one.
  lemma LabelsEnd(s: string)
    requires s != []
    ensures (forall part :: part in Split(ToLower(s), '.') ==> ValidLabel(part)) ==> s[|s| - 1] != '.'
  {
    hide Split;
    var lower := ToLower(s);
    EmptyLabels(lower);
    if s[|s| - 1] == '.' {
      assert [] in Split(lower, '.')[1..];
      assert [] in Split(lower, '.');
      assert !ValidLabel([]);
    }
  }

  // Two of the names the service must not certify.
  lemma Refused()
    ensures CanonicalName("127.0.0.1").Err? && CanonicalName("a_b").Err?
  {
    hide CanonicalName, PrintDecimal, Split, ByteLen, Join, HostLabel;
    Loopback();
    if CanonicalName("127.0.0.1").Ok? { CanonicalIff("127.0.0.1", CanonicalName("127.0.0.1").value); }
    if CanonicalName("a_b").Ok? {
      CanonicalIff("a_b", CanonicalName("a_b").value);
      Underscore(CanonicalName("a_b").value);
    }
  }

  lemma Loopback()
    ensures Lowered("127.0.0.1", "127.0.0.1") && Quad("127.0.0.1", 127, 0, 0, 1)
    ensures forall t :: Lowered("127.0.0.1", t) ==> t == "127.0.0.1"
  {
    PrintZero();
    assert PrintDecimal(127) == PrintDecimal(12) + ['7'] && PrintDecimal(12) == PrintDecimal(1) + ['2'];
    assert PrintDecimal(1) == "1";
    assert PrintDecimal(127) == "127";
  }

  lemma Underscore(t: string)
    requires Lowered("a_b", t)
    ensures !exists labels: seq<string> ::
              labels != [] && t == Join(labels, '.') && forall part :: part in labels ==> HostLabel(part)
  {
    hide Join, HostLabel, Split;
    if labels: seq<string> :| labels != [] && t == Join(labels, '.')
                              && forall part :: part in labels ==> HostLabel(part)
    {
      forall part | part in labels ensures '.' !in part { LabelIff(part); }
      SplitJoin(labels, '.');
      assert t == "a_b";
      SplitWhole(t, '.');
      assert labels == [t];
      NoUnderscore(t);
    }
  }

  lemma NoUnderscore(t: string)
    requires t == "a_b"
    ensures !HostLabel(t)
  {
    assert t[1] == '_';
  }
}
