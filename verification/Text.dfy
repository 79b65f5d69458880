/**
  Strings as the two implementations see them: sequences of Unicode scalar values, ordered as Go orders
  strings, split at a separator, and measured in UTF-8 bytes.
*/
module Text {

  function Elements<T>(s: seq<T>): set<T> {
    set x | x in s
  }

  lemma ElementsAppend<T>(s: seq<T>, x: T)
    ensures Elements(s + [x]) == Elements(s) + {x}
    ensures x in Elements(s) <==> x in s
  {
  }

  lemma ElementsNone<T>()
    ensures Elements<T>([]) == {}
  {
  }

  lemma SubsetSize<T>(a: set<T>, b: set<T>)
    requires a <= b
    ensures |a| <= |b|
  {
    assert b == a + (b - a);
  }

  // Go's `<` on strings. UTF-8 keeps code-point order, so comparing scalars is comparing bytes.
  predicate Less(a: string, b: string) {
    b != [] && (a == [] || a[0] < b[0] || (a[0] == b[0] && Less(a[1..], b[1..])))
  }

  lemma {:induction false} LessTotal(a: string, b: string)
    ensures a == b || Less(a, b) || Less(b, a)
  {
    if a != [] && b != [] && a[0] == b[0] {
      LessTotal(a[1..], b[1..]);
      assert a == [a[0]] + a[1..] && b == [b[0]] + b[1..];
    }
  }

  lemma {:induction false} LessTransitive(a: string, b: string, c: string)
    requires Less(a, b) && Less(b, c)
    ensures Less(a, c)
  {
    if a != [] && a[0] == b[0] && b[0] == c[0] {
      LessTransitive(a[1..], b[1..], c[1..]);
    }
  }

  lemma {:induction false} LessIrreflexive(a: string)
    ensures !Less(a, a)
  {
    if a != [] {
      LessIrreflexive(a[1..]);
    }
  }

  // The strings agree up to some place, where the first ends or has the smaller character.
  ghost predicate Before(a: string, b: string) {
    exists k :: 0 <= k <= |a| && k < |b| && a[..k] == b[..k] && (k == |a| || a[k] < b[k])
  }

  lemma {:induction false} LessIff(a: string, b: string)
    ensures Less(a, b) <==> Before(a, b)
  {
    if a != [] && b != [] && a[0] == b[0] {
      LessIff(a[1..], b[1..]);
      if Before(a[1..], b[1..]) {
        var k :| 0 <= k <= |a[1..]| && k < |b[1..]| && a[1..][..k] == b[1..][..k]
                 && (k == |a[1..]| || a[1..][k] < b[1..][k]);
        assert a[..k + 1] == [a[0]] + a[1..][..k] && b[..k + 1] == [b[0]] + b[1..][..k];
      }
      if Before(a, b) {
        var k :| 0 <= k <= |a| && k < |b| && a[..k] == b[..k] && (k == |a| || a[k] < b[k]);
        assert k > 0;
        assert a[1..][..k - 1] == a[..k][1..] && b[1..][..k - 1] == b[..k][1..];
      }
    } else {
      if Less(a, b) { assert a[..0] == b[..0]; }
      if Before(a, b) {
        var k :| 0 <= k <= |a| && k < |b| && a[..k] == b[..k] && (k == |a| || a[k] < b[k]);
        assert k > 0 ==> a[..k][0] == b[..k][0];
      }
    }
  }

  ghost predicate Ascending(s: seq<string>) {
    forall i, j :: 0 <= i < j < |s| ==> Less(s[i], s[j])
  }

  predicate IsLeast(names: set<string>, x: string) {
    x in names && forall y :: y in names ==> y == x || Less(x, y)
  }

  lemma {:induction false} LeastExists(names: set<string>)
    requires names != {}
    ensures exists x :: IsLeast(names, x)
    decreases |names|
  {
    var x :| x in names;
    if names == {x} {
      assert IsLeast(names, x);
    } else {
      LeastExists(names - {x});
      var y :| IsLeast(names - {x}, y);
      LessTotal(x, y);
      if Less(x, y) {
        forall z | z in names ensures z == x || Less(x, z) {
          if z != x && z != y { LessTransitive(x, y, z); }
        }
        assert IsLeast(names, x);
      } else {
        assert IsLeast(names, y);
      }
    }
  }

  lemma LeastUnique(names: set<string>, x: string, y: string)
    requires IsLeast(names, x) && IsLeast(names, y)
    ensures x == y
  {
    if x != y {
      LessTransitive(x, y, x);
      LessIrreflexive(x);
    }
  }

  // `slices.Sorted(maps.Keys(m))`.
  function Sorted(names: set<string>): (r: seq<string>)
    ensures Ascending(r)
    ensures forall x :: x in r <==> x in names
    ensures forall i, j :: 0 <= i < j < |r| ==> r[i] != r[j]
    decreases |names|
  {
    if names == {} then []
    else
      LeastExists(names);
      assert forall x, y :: IsLeast(names, x) && IsLeast(names, y) ==> x == y by {
        forall x, y | IsLeast(names, x) && IsLeast(names, y) ensures x == y { LeastUnique(names, x, y); }
      }
      var least :| IsLeast(names, least);
      var rest := Sorted(names - {least});
      assert forall x :: x in rest ==> Less(least, x);
      [least] + rest
  }

  lemma {:induction false} AscendingUnique(a: seq<string>, b: seq<string>)
    requires Ascending(a) && Ascending(b) && Elements(a) == Elements(b)
    ensures a == b
  {
    forall x ensures x in a <==> x in b {
      assert x in Elements(a) <==> x in Elements(b);
    }
    assert a != [] ==> a[0] in b;
    assert b != [] ==> b[0] in a;
    if a != [] {
      AscendingHead(a);
      AscendingHead(b);
      if a[0] != b[0] {
        LessTransitive(a[0], b[0], a[0]);
        LessIrreflexive(a[0]);
      }
      assert Elements(a[1..]) == Elements(a) - {a[0]};
      assert Elements(b[1..]) == Elements(b) - {b[0]};
      AscendingUnique(a[1..], b[1..]);
      assert a == [a[0]] + a[1..] && b == [b[0]] + b[1..];
    }
  }

  lemma AscendingHead(a: seq<string>)
    requires a != [] && Ascending(a)
    ensures forall x :: x in a ==> x == a[0] || Less(a[0], x)
    ensures a[0] !in a[1..]
  {
    LessIrreflexive(a[0]);
    forall x | x in a[1..] ensures Less(a[0], x) {
      var j :| 1 <= j < |a| && a[j] == x;
    }
    forall x | x in a ensures x == a[0] || Less(a[0], x) {
      assert x == a[0] || x in a[1..];
    }
  }

  lemma SortedOne(name: string)
    ensures Sorted({name}) == [name]
  {
    var r := Sorted({name});
    assert Elements(r) == Elements([name]);
    AscendingUnique(r, [name]);
  }

  lemma SortedPair(first: string, second: string)
    requires Less(first, second)
    ensures Sorted({first, second}) == [first, second]
  {
    LessIrreflexive(first);
    var r := Sorted({first, second});
    assert Elements(r) == Elements([first, second]);
    AscendingUnique(r, [first, second]);
  }

  predicate Digit(c: char) { '0' <= c <= '9' }

  predicate Digits(s: string) { forall c :: c in s ==> Digit(c) }

  function CharBytes(c: char): nat {
    if c < '\U{80}' then 1 else if c < '\U{800}' then 2 else if c < '\U{10000}' then 3 else 4
  }

  // Go's `len` and Lua's `#`: UTF-8 bytes, not characters.
  function ByteLen(s: string): nat {
    if s == [] then 0 else CharBytes(s[0]) + ByteLen(s[1..])
  }

  predicate Ascii(s: string) { forall c :: c in s ==> c < '\U{80}' }

  // `strings.Split`: always at least one piece, and a piece may be empty.
  function Split(s: string, separator: char): (r: seq<string>)
    ensures |r| >= 1
  {
    if s == [] then [[]]
    else
      var rest := Split(s[1..], separator);
      if s[0] == separator then [[]] + rest else [[s[0]] + rest[0]] + rest[1..]
  }

  lemma {:induction false} SplitWhole(s: string, separator: char)
    requires separator !in s
    ensures Split(s, separator) == [s]
  {
    if s != [] {
      SplitWhole(s[1..], separator);
      assert s == [s[0]] + s[1..];
    }
  }

  lemma {:induction false} SplitFirst(s: string, k: nat, separator: char)
    requires k < |s| && s[k] == separator && separator !in s[..k]
    ensures Split(s, separator) == [s[..k]] + Split(s[k + 1..], separator)
  {
    if k > 0 {
      assert s[..k] == [s[0]] + s[1..][..k - 1];
      SplitFirst(s[1..], k - 1, separator);
      assert s[1..][k..] == s[k + 1..];
    }
  }

  // `strings.Join`.
  function Join(parts: seq<string>, separator: char): string {
    if parts == [] then []
    else if |parts| == 1 then parts[0]
    else parts[0] + [separator] + Join(parts[1..], separator)
  }

  lemma {:induction false} SplitJoin(parts: seq<string>, separator: char)
    requires parts != [] && forall part :: part in parts ==> separator !in part
    ensures Split(Join(parts, separator), separator) == parts
  {
    if |parts| == 1 {
      SplitWhole(parts[0], separator);
    } else {
      var s := Join(parts, separator);
      assert forall part :: part in parts[1..] ==> part in parts;
      SplitJoin(parts[1..], separator);
      assert s[..|parts[0]|] == parts[0] && s[|parts[0]| + 1..] == Join(parts[1..], separator);
      SplitFirst(s, |parts[0]|, separator);
    }
  }

  lemma {:induction false} JoinSplit(s: string, separator: char)
    ensures Join(Split(s, separator), separator) == s
    ensures forall part :: part in Split(s, separator) ==> separator !in part
  {
    if s != [] {
      var rest := Split(s[1..], separator);
      JoinSplit(s[1..], separator);
      assert rest == [rest[0]] + rest[1..];
      if s[0] == separator {
        assert ([[]] + rest)[1..] == rest;
        assert s == [] + [separator] + s[1..];
      } else {
        assert ([[s[0]] + rest[0]] + rest[1..])[1..] == rest[1..];
        assert Join([[s[0]] + rest[0]] + rest[1..], separator) == [s[0]] + Join(rest, separator);
        assert rest[0] in rest;
      }
    }
  }
}
