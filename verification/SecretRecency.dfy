/**
  The recency order behind the cache, on names alone: a bounded order under uses and drops, compared across
  capacities and with the times of last use.
*/
module SecretRecency {
  import opened Wrappers
  import opened Text
  import opened Leaf
  import opened SecretCache
  import opened SecretAccounts

  datatype Op = Use(name: string) | Drop(name: string)

  function Erase(order: seq<string>, name: string): (r: seq<string>)
    ensures |r| <= |order|
    ensures forall n :: n in r <==> n in order && n != name
  {
    if order == [] then []
    else
      assert forall n :: n in order <==> n == order[0] || n in order[1..];
      if order[0] == name then Erase(order[1..], name) else [order[0]] + Erase(order[1..], name)
  }

  function Take(order: seq<string>, capacity: nat): (r: seq<string>)
    ensures r <= order && |r| == Min(|order|, capacity)
  {
    order[..Min(|order|, capacity)]
  }

  function Apply(order: seq<string>, op: Op, capacity: nat): seq<string> {
    match op
    case Use(name) => Take([name] + Erase(order, name), capacity)
    case Drop(name) => Erase(order, name)
  }

  function Replay(start: seq<string>, ops: seq<Op>, capacity: nat): seq<string> {
    if ops == [] then start
    else Apply(Replay(start, ops[..|ops| - 1], capacity), ops[|ops| - 1], capacity)
  }

  lemma {:induction false} ReplayAppend(start: seq<string>, a: seq<Op>, b: seq<Op>, capacity: nat)
    ensures Replay(start, a + b, capacity) == Replay(Replay(start, a, capacity), b, capacity)
  {
    if b == [] {
      assert a + b == a;
    } else {
      assert (a + b)[..|a + b| - 1] == a + b[..|b| - 1];
      ReplayAppend(start, a, b[..|b| - 1], capacity);
    }
  }

  // ---- inclusion

  lemma {:induction false} ErasePrefix(a: seq<string>, b: seq<string>, name: string)
    requires a <= b
    ensures Erase(a, name) <= Erase(b, name)
  {
    if a != [] {
      ErasePrefix(a[1..], b[1..], name);
    }
  }

  // Under the same uses and drops a smaller cache always holds a prefix of what a larger one holds.
  lemma {:induction false} Inclusion(start: seq<string>, larger: seq<string>, ops: seq<Op>, c: nat, c': nat)
    requires start <= larger && c <= c'
    ensures Replay(start, ops, c) <= Replay(larger, ops, c')
  {
    if ops != [] {
      Inclusion(start, larger, ops[..|ops| - 1], c, c');
      var a := Replay(start, ops[..|ops| - 1], c);
      var b := Replay(larger, ops[..|ops| - 1], c');
      ErasePrefix(a, b, ops[|ops| - 1].name);
    }
  }

  // ---- without drops: the most recently used distinct names

  function LastUse(uses: seq<string>, name: string): int {
    if uses == [] then -1
    else if uses[|uses| - 1] == name then |uses| - 1
    else LastUse(uses[..|uses| - 1], name)
  }

  ghost predicate Descending(order: seq<string>, uses: seq<string>) {
    forall i, j :: 0 <= i < j < |order| ==> LastUse(uses, order[i]) > LastUse(uses, order[j])
  }

  ghost predicate ByLastUse(order: seq<string>, uses: seq<string>) {
    (forall n :: n in order <==> n in uses) && Descending(order, uses)
  }

  function Uses(names: seq<string>): seq<Op> {
    seq(|names|, i requires 0 <= i < |names| => Use(names[i]))
  }

  lemma {:induction false} LastUseBound(uses: seq<string>, name: string)
    ensures LastUse(uses, name) < |uses|
  {
    if uses != [] { LastUseBound(uses[..|uses| - 1], name); }
  }

  lemma DescendingCons(first: string, rest: seq<string>, uses: seq<string>)
    requires Descending(rest, uses)
    requires forall n :: n in rest ==> LastUse(uses, first) > LastUse(uses, n)
    ensures Descending([first] + rest, uses)
  {
    hide LastUse;
    var r := [first] + rest;
    forall i, j | 0 <= i < j < |r| ensures LastUse(uses, r[i]) > LastUse(uses, r[j]) {
      assert r[j] == rest[j - 1] && r[j] in rest;
      if i > 0 { assert r[i] == rest[i - 1]; }
    }
  }

  lemma {:induction false} EraseOrdered(order: seq<string>, uses: seq<string>, name: string)
    requires Descending(order, uses)
    ensures Descending(Erase(order, name), uses)
  {
    hide LastUse;
    if order != [] {
      EraseOrdered(order[1..], uses, name);
      forall n | n in order[1..] ensures LastUse(uses, order[0]) > LastUse(uses, n) {
        var k :| 1 <= k < |order| && order[k] == n;
      }
      if order[0] != name { DescendingCons(order[0], Erase(order[1..], name), uses); }
    }
  }

  // The unbounded order is the distinct names by last use.
  lemma {:induction false} UnboundedByLastUse(names: seq<string>, capacity: nat)
    requires |names| <= capacity
    ensures ByLastUse(Replay([], Uses(names), capacity), names)
    ensures |Replay([], Uses(names), capacity)| <= |names|
  {
    if names != [] {
      var k := |names| - 1;
      var before := names[..k];
      assert Uses(names)[..k] == Uses(before);
      UnboundedByLastUse(before, capacity);
      var order := Replay([], Uses(before), capacity);
      var rest := Erase(order, names[k]);
      assert Replay([], Uses(names), capacity) == [names[k]] + rest;
      EraseOrdered(order, before, names[k]);
      forall n | n in rest ensures LastUse(names, n) == LastUse(before, n) && LastUse(before, n) < k {
        LastUseBound(before, n);
      }
      forall i, j | 0 <= i < j < |rest| ensures LastUse(names, rest[i]) > LastUse(names, rest[j]) {
        assert rest[i] in rest && rest[j] in rest;
      }
      DescendingCons(names[k], rest, names);
      forall n ensures n in [names[k]] + rest <==> n in names {
        assert names == before + [names[k]];
        assert n in order <==> n in before;
      }
    }
  }

  // With no drops a cache of capacity c holds exactly the first c distinct names by last use.
  lemma {:induction false} HoldsMostRecent(names: seq<string>, capacity: nat)
    ensures Replay([], Uses(names), capacity) == Take(Replay([], Uses(names), |names|), capacity)
  {
    Bounded(names, capacity, |names|);
  }

  lemma {:induction false} TakeErase(order: seq<string>, name: string, capacity: nat)
    requires forall i, j :: 0 <= i < j < |order| ==> order[i] != order[j]
    ensures Take([name] + Erase(Take(order, capacity), name), capacity) == Take([name] + Erase(order, name), capacity)
  {
    if capacity < |order| {
      ErasePrefix(Take(order, capacity), order, name);
      EraseLength(Take(order, capacity), name);
    } else {
      assert Take(order, capacity) == order;
    }
  }

  lemma {:induction false} EraseLength(order: seq<string>, name: string)
    requires forall i, j :: 0 <= i < j < |order| ==> order[i] != order[j]
    ensures |Erase(order, name)| >= |order| - 1
    ensures name !in order ==> Erase(order, name) == order
  {
    if order != [] {
      EraseLength(order[1..], name);
    }
  }

  lemma {:induction false} Bounded(names: seq<string>, capacity: nat, all: nat)
    requires |names| <= all
    ensures Replay([], Uses(names), capacity) == Take(Replay([], Uses(names), all), capacity)
  {
    if names != [] {
      var k := |names| - 1;
      assert Uses(names)[..k] == Uses(names[..k]);
      Bounded(names[..k], capacity, all);
      var order := Replay([], Uses(names[..k]), all);
      UnboundedByLastUse(names[..k], all);
      TakeErase(order, names[k], capacity);
      assert Take([names[k]] + Erase(order, names[k]), all) == [names[k]] + Erase(order, names[k]);
    }
  }

  // ---- the cache follows the order

  lemma NamesCons(entry: Cached, rest: Cache)
    ensures Names([entry] + rest) == [entry.name] + Names(rest)
  {
  }

  lemma {:induction false} NamesWithout(cache: Cache, name: string)
    ensures Names(Without(cache, {name})) == Erase(Names(cache), name)
  {
    if cache != [] {
      NamesWithout(cache[1..], name);
      NamesCons(cache[0], cache[1..]);
      assert cache == [cache[0]] + cache[1..];
      NamesCons(cache[0], Without(cache[1..], {name}));
      assert ([cache[0].name] + Names(cache[1..]))[1..] == Names(cache[1..]);
    }
  }

  lemma NamesMember(cache: Cache, n: string)
    ensures n in Names(cache) <==> Lookup(cache, n).Some?
  {
    if n in Names(cache) {
      var i :| 0 <= i < |cache| && Names(cache)[i] == n;
      assert cache[i] in cache;
    }
    if Lookup(cache, n).Some? {
      var i :| 0 <= i < |cache| && cache[i] == Lookup(cache, n).value;
      assert Names(cache)[i] == n;
    }
  }

  lemma NamesInsert(capacity: nat, b: Batch, entry: Cached)
    requires capacity >= 1 && Distinct(b.cache) && |b.cache| <= capacity
    ensures Names(Insert(capacity, b, entry).cache) == Take([entry.name] + Names(b.cache), capacity)
  {
    if |b.cache| == capacity {
      WithoutLast(b.cache);
    }
  }

  lemma ServeNameIsUse(ca: Certificate, capacity: nat, b: Batch, name: string, now: int, mint: Mint)
    requires capacity >= 1 && Distinct(b.cache) && |b.cache| <= capacity
    requires Issuable(name) && ServeName(ca, capacity, b, name, now, mint).Done?
    ensures Names(ServeName(ca, capacity, b, name, now, mint).batch.cache) == Apply(Names(b.cache), Use(name), capacity)
  {
    hide Issue, CanonicalName, Insert, Distinct, Names, Lookup, Without;
    var found := Lookup(b.cache, name);
    var rest := Without(b.cache, {name});
    NamesWithout(b.cache, name);
    WithoutDistinct(b.cache, {name});
    if found.Some? && now < found.value.expires {
      WithoutShrinks(b.cache, found.value);
      NamesCons(found.value, rest);
    } else {
      var version := b.version + 1;
      var leaf := Issue(ca, CanonicalName(name).value, now, mint(name)).value;
      var entry := Cached(name, Resource(name, version, leaf), now + TTL);
      NamesInsert(capacity, b.(cache := rest, version := version), entry);
    }
  }

  // The valid names of a batch, as uses.
  function ValidUses(names: seq<string>): seq<Op> {
    if names == [] then []
    else
      var last := names[|names| - 1];
      ValidUses(names[..|names| - 1]) + (if Issuable(last) then [Use(last)] else [])
  }

  function Drops(names: seq<string>): seq<Op> {
    seq(|names|, i requires 0 <= i < |names| => Drop(names[i]))
  }

  // A finished batch moves the order exactly as its valid names, used in turn, would.
  lemma {:induction false} BatchIsReplay(ca: Certificate, capacity: nat, cache: Cache, version: nat,
                                         names: seq<string>, now: int, mint: Mint)
    requires capacity >= 1 && WellFormed(ca, capacity, cache, version)
    requires Serve(ca, capacity, cache, version, names, now, mint).Done?
    ensures Names(Serve(ca, capacity, cache, version, names, now, mint).batch.cache)
            == Replay(Names(cache), ValidUses(names), capacity)
  {
    hide Issuable, Genuine, Names, Apply;
    if names != [] {
      var k := |names| - 1;
      BatchIsReplay(ca, capacity, cache, version, names[..k], now, mint);
      ServeKeepsWellFormed(ca, capacity, cache, version, names[..k], now, mint);
      var b := Serve(ca, capacity, cache, version, names[..k], now, mint).batch;
      if Issuable(names[k]) {
        hide ServeName;
        ServeNameIsUse(ca, capacity, b, names[k], now, mint);
        assert ValidUses(names)[..|ValidUses(names)| - 1] == ValidUses(names[..k]);
      } else {
        assert ValidUses(names) == ValidUses(names[..k]);
      }
    }
  }

  lemma {:induction false} WithoutIsDrops(cache: Cache, dead: seq<string>, capacity: nat)
    ensures Names(Without(cache, Elements(dead))) == Replay(Names(cache), Drops(dead), capacity)
  {
    if dead == [] {
      WithoutAbsent(cache, {});
      assert Elements(dead) == {};
    } else {
      var k := |dead| - 1;
      WithoutIsDrops(cache, dead[..k], capacity);
      assert Drops(dead)[..k] == Drops(dead[..k]);
      WithoutTwice(cache, Elements(dead[..k]), {dead[k]});
      assert Elements(dead) == Elements(dead[..k]) + {dead[k]} by { assert dead == dead[..k] + [dead[k]]; }
      NamesWithout(Without(cache, Elements(dead[..k])), dead[k]);
    }
  }

  lemma {:induction false} WithoutTwice(cache: Cache, a: set<string>, b: set<string>)
    ensures Without(Without(cache, a), b) == Without(cache, a + b)
  {
    if cache != [] {
      WithoutTwice(cache[1..], a, b);
      assert cache[0].name !in a ==> ([cache[0]] + Without(cache[1..], a))[1..] == Without(cache[1..], a);
    }
  }
}
