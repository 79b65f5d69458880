/**
  The bounded certificate cache as a value, most recently used first, and the one pass that serves a batch of
  requested names from it: hits, expiries, issues and evictions.
*/
module SecretCache {
  import opened Wrappers
  import opened Text
  import opened Leaf

  const TTL: int := 10 * MINUTE

  datatype Resource = Resource(name: string, version: nat, leaf: LeafCertificate)

  datatype Cached = Cached(name: string, resource: Resource, expires: int)

  type Cache = seq<Cached>

  // The outcome of key generation and signing for each name of one batch.
  type Mint = string -> Option<nat>

  function Names(cache: Cache): (r: seq<string>)
    ensures |r| == |cache|
  {
    seq(|cache|, i requires 0 <= i < |cache| => cache[i].name)
  }

  function NameSet(cache: Cache): set<string> {
    set entry | entry in cache :: entry.name
  }

  function Lookup(cache: Cache, name: string): (r: Option<Cached>)
    ensures r.Some? <==> name in NameSet(cache)
    ensures r.Some? ==> r.value in cache && r.value.name == name
  {
    if cache == [] then None
    else if cache[0].name == name then Some(cache[0])
    else
      assert forall entry :: entry in cache <==> entry == cache[0] || entry in cache[1..];
      Lookup(cache[1..], name)
  }

  // The cache after removing every entry whose name is in `dead`.
  function Without(cache: Cache, dead: set<string>): (r: Cache)
    ensures forall entry :: entry in r <==> entry in cache && entry.name !in dead
    ensures |r| <= |cache|
  {
    if cache == [] then []
    else
      assert forall entry :: entry in cache <==> entry == cache[0] || entry in cache[1..];
      if cache[0].name in dead then Without(cache[1..], dead)
      else [cache[0]] + Without(cache[1..], dead)
  }

  /** A batch in progress: the cache, the version counter and the two halves of the answer. */
  datatype Batch = Batch(cache: Cache, version: nat, resources: map<string, Resource>, removed: set<string>)

  /** A batch runs to its end or stops at the first name whose certificate cannot be issued. */
  datatype Served = Done(batch: Batch) | Stopped(batch: Batch)

  // Add a fresh entry at the front, first evicting the least recently used one from a full cache.
  function Insert(capacity: nat, b: Batch, entry: Cached): (r: Batch)
    ensures r.version == b.version
    ensures r.cache != [] && r.cache[0] == entry && r.resources.Keys <= b.resources.Keys + {entry.name}
  {
    if |b.cache| == capacity && capacity > 0 then
      var evicted := b.cache[|b.cache| - 1].name;
      Batch([entry] + Without(b.cache, {evicted}), b.version,
            (b.resources - {evicted})[entry.name := entry.resource], b.removed + {evicted})
    else
      b.(cache := [entry] + b.cache, resources := b.resources[entry.name := entry.resource])
  }

  function ServeName(ca: Certificate, capacity: nat, b: Batch, name: string, now: int, mint: Mint): Served {
    if !Issuable(name) then Done(b.(removed := b.removed + {name}))
    else
      var found := Lookup(b.cache, name);
      var rest := Without(b.cache, {name});
      if found.Some? && now < found.value.expires then
        Done(b.(cache := [found.value] + rest, resources := b.resources[name := found.value.resource]))
      else
        match Issue(ca, CanonicalName(name).value, now, mint(name))
        case None => Stopped(b.(cache := rest))
        case Some(leaf) =>
          var version := b.version + 1;
          var entry := Cached(name, Resource(name, version, leaf), now + TTL);
          Done(Insert(capacity, b.(cache := rest, version := version), entry))
  }

  function Serve(ca: Certificate, capacity: nat, cache: Cache, version: nat, names: seq<string>, now: int, mint: Mint)
    : Served
  {
    if names == [] then Done(Batch(cache, version, map[], {}))
    else
      var before := Serve(ca, capacity, cache, version, names[..|names| - 1], now, mint);
      if before.Stopped? then before
      else ServeName(ca, capacity, before.batch, names[|names| - 1], now, mint)
  }

  // ---- what every step keeps

  ghost predicate Distinct(cache: Cache) {
    forall i, j :: 0 <= i < j < |cache| ==> Apart(cache[i], cache[j])
  }

  predicate Apart(a: Cached, b: Cached) {
    a.name != b.name && a.resource.version != b.resource.version
  }

  // The entry holds what issuing its own name did produce, one time-to-live before its expiry.
  ghost predicate Genuine(ca: Certificate, version: nat, entry: Cached) {
    && entry.resource.name == entry.name
    && entry.resource.version <= version
    && Issuable(entry.name)
    && Issue(ca, CanonicalName(entry.name).value, entry.expires - TTL, Some(entry.resource.leaf.key))
       == Some(entry.resource.leaf)
  }

  ghost predicate WellFormed(ca: Certificate, capacity: nat, cache: Cache, version: nat) {
    && |cache| <= capacity
    && Distinct(cache)
    && forall entry :: entry in cache ==> Genuine(ca, version, entry)
  }

  lemma PrependDistinct(entry: Cached, cache: Cache)
    requires Distinct(cache)
    requires forall other :: other in cache ==> Apart(entry, other)
    ensures Distinct([entry] + cache)
  {
    var r := [entry] + cache;
    forall i, j | 0 <= i < j < |r| ensures Apart(r[i], r[j]) {
      assert r[j] in cache;
    }
  }

  lemma TailDistinct(cache: Cache)
    requires cache != [] && Distinct(cache)
    ensures Distinct(cache[1..])
    ensures forall other :: other in cache[1..] ==> Apart(cache[0], other)
  {
  }

  lemma ApartIn(cache: Cache, a: Cached, b: Cached)
    requires Distinct(cache) && a in cache && b in cache && a != b
    ensures Apart(a, b)
  {
    var i :| 0 <= i < |cache| && cache[i] == a;
    var j :| 0 <= j < |cache| && cache[j] == b;
    assert if i < j then Apart(cache[i], cache[j]) else Apart(cache[j], cache[i]);
  }

  lemma {:induction false} WithoutDistinct(cache: Cache, dead: set<string>)
    requires Distinct(cache)
    ensures Distinct(Without(cache, dead))
  {
    if cache != [] {
      TailDistinct(cache);
      WithoutDistinct(cache[1..], dead);
      if cache[0].name !in dead {
        PrependDistinct(cache[0], Without(cache[1..], dead));
      }
    }
  }

  lemma {:induction false} WithoutAbsent(cache: Cache, dead: set<string>)
    requires NameSet(cache) !! dead
    ensures Without(cache, dead) == cache
  {
    if cache != [] {
      assert cache[0].name in NameSet(cache);
      assert NameSet(cache[1..]) <= NameSet(cache);
      WithoutAbsent(cache[1..], dead);
    }
  }

  lemma {:induction false} WithoutLast(cache: Cache)
    requires cache != [] && Distinct(cache)
    ensures Without(cache, {cache[|cache| - 1].name}) == cache[..|cache| - 1]
  {
    var n := |cache| - 1;
    if n == 0 {
      assert cache[1..] == [];
    } else {
      assert Apart(cache[0], cache[n]);
      TailDistinct(cache);
      WithoutLast(cache[1..]);
      assert cache[..n] == [cache[0]] + cache[1..][..n - 1];
    }
  }

  lemma {:induction false} WithoutShrinks(cache: Cache, entry: Cached)
    requires entry in cache
    ensures |Without(cache, {entry.name})| < |cache|
  {
    if cache[0].name != entry.name {
      WithoutShrinks(cache[1..], entry);
    }
  }

  lemma {:induction false} LookupInDistinct(cache: Cache, entry: Cached)
    requires entry in cache && Distinct(cache)
    ensures Lookup(cache, entry.name) == Some(entry)
  {
    TailDistinct(cache);
    if cache[0] != entry {
      LookupInDistinct(cache[1..], entry);
    }
  }

  lemma {:induction false} LookupWithout(cache: Cache, dead: set<string>, name: string)
    requires name !in dead
    ensures Lookup(Without(cache, dead), name) == Lookup(cache, name)
  {
    if cache != [] {
      LookupWithout(cache[1..], dead, name);
      assert cache[0].name !in dead ==> ([cache[0]] + Without(cache[1..], dead))[1..] == Without(cache[1..], dead);
    }
  }

  lemma WithoutWellFormed(ca: Certificate, capacity: nat, cache: Cache, version: nat, dead: set<string>)
    requires WellFormed(ca, capacity, cache, version)
    ensures WellFormed(ca, capacity, Without(cache, dead), version)
  {
    WithoutDistinct(cache, dead);
  }

  lemma PrependWellFormed(ca: Certificate, capacity: nat, cache: Cache, version: nat, entry: Cached)
    requires WellFormed(ca, capacity, cache, version)
    requires |cache| < capacity && Genuine(ca, version, entry)
    requires forall other :: other in cache ==> Apart(entry, other)
    ensures WellFormed(ca, capacity, [entry] + cache, version)
  {
    PrependDistinct(entry, cache);
  }

  lemma HitKeepsWellFormed(ca: Certificate, capacity: nat, cache: Cache, version: nat, found: Cached)
    requires WellFormed(ca, capacity, cache, version) && found in cache
    ensures WellFormed(ca, capacity, [found] + Without(cache, {found.name}), version)
  {
    var rest := Without(cache, {found.name});
    WithoutWellFormed(ca, capacity, cache, version, {found.name});
    WithoutShrinks(cache, found);
    forall other | other in rest ensures Apart(found, other) {
      ApartIn(cache, found, other);
    }
    PrependWellFormed(ca, capacity, rest, version, found);
  }

  lemma InsertKeepsWellFormed(ca: Certificate, capacity: nat, b: Batch, entry: Cached)
    requires capacity >= 1 && WellFormed(ca, capacity, b.cache, b.version)
    requires Genuine(ca, b.version, entry)
    requires forall other :: other in b.cache ==> Apart(entry, other)
    ensures WellFormed(ca, capacity, Insert(capacity, b, entry).cache, b.version)
  {
    if |b.cache| == capacity {
      var evicted := b.cache[capacity - 1].name;
      WithoutWellFormed(ca, capacity, b.cache, b.version, {evicted});
      WithoutLast(b.cache);
      PrependWellFormed(ca, capacity, Without(b.cache, {evicted}), b.version, entry);
    } else {
      PrependWellFormed(ca, capacity, b.cache, b.version, entry);
    }
  }

  lemma IssueKeepsWellFormed(ca: Certificate, capacity: nat, b: Batch, name: string, now: int, mint: Mint)
    requires capacity >= 1 && WellFormed(ca, capacity, b.cache, b.version)
    requires forall other :: other in b.cache ==> other.name != name
    requires Issuable(name)
    requires Issue(ca, CanonicalName(name).value, now, mint(name)).Some?
    ensures var leaf := Issue(ca, CanonicalName(name).value, now, mint(name)).value;
            var version := b.version + 1;
            var entry := Cached(name, Resource(name, version, leaf), now + TTL);
            WellFormed(ca, capacity, Insert(capacity, b.(version := version), entry).cache, version)
  {
    var leaf := Issue(ca, CanonicalName(name).value, now, mint(name)).value;
    var entry := Cached(name, Resource(name, b.version + 1, leaf), now + TTL);
    assert forall other :: other in b.cache ==> Genuine(ca, b.version, other);
    InsertKeepsWellFormed(ca, capacity, b.(version := b.version + 1), entry);
  }

  lemma ServeNameKeepsWellFormed(ca: Certificate, capacity: nat, b: Batch, name: string, now: int, mint: Mint)
    requires capacity >= 1 && WellFormed(ca, capacity, b.cache, b.version)
    ensures var after := ServeName(ca, capacity, b, name, now, mint).batch;
            WellFormed(ca, capacity, after.cache, after.version) && b.version <= after.version
  {
    hide Insert, Without, WellFormed, Issue, CanonicalName;
    if Issuable(name) {
      var found := Lookup(b.cache, name);
      if found.Some? && now < found.value.expires {
        HitKeepsWellFormed(ca, capacity, b.cache, b.version, found.value);
      } else {
        WithoutWellFormed(ca, capacity, b.cache, b.version, {name});
        if Issue(ca, CanonicalName(name).value, now, mint(name)).Some? {
          IssueKeepsWellFormed(ca, capacity, b.(cache := Without(b.cache, {name})), name, now, mint);
        }
      }
    }
  }

  // Every call leaves the cache well formed, one that stops in mid-batch included.
  lemma {:induction false} ServeKeepsWellFormed(ca: Certificate, capacity: nat, cache: Cache, version: nat,
                                                names: seq<string>, now: int, mint: Mint)
    requires capacity >= 1 && WellFormed(ca, capacity, cache, version)
    ensures var after := Serve(ca, capacity, cache, version, names, now, mint).batch;
            WellFormed(ca, capacity, after.cache, after.version) && version <= after.version
  {
    if names != [] {
      ServeKeepsWellFormed(ca, capacity, cache, version, names[..|names| - 1], now, mint);
      var before := Serve(ca, capacity, cache, version, names[..|names| - 1], now, mint);
      if before.Done? {
        ServeNameKeepsWellFormed(ca, capacity, before.batch, names[|names| - 1], now, mint);
      }
    }
  }

  // ---- parts of a batch

  lemma ServeNext(ca: Certificate, capacity: nat, cache: Cache, version: nat, names: seq<string>, now: int, mint: Mint,
                  i: nat)
    requires i < |names| && Serve(ca, capacity, cache, version, names[..i], now, mint).Done?
    ensures var b := Serve(ca, capacity, cache, version, names[..i], now, mint).batch;
            Serve(ca, capacity, cache, version, names[..i + 1], now, mint)
            == ServeName(ca, capacity, b, names[i], now, mint)
  {
    hide ServeName;
    assert names[..i + 1][..i] == names[..i];
  }

  // A batch that stops part way has the outcome of the part.
  lemma {:induction false} StoppedStays(ca: Certificate, capacity: nat, cache: Cache, version: nat,
                                        names: seq<string>, now: int, mint: Mint, k: nat)
    requires k <= |names| && Serve(ca, capacity, cache, version, names[..k], now, mint).Stopped?
    ensures Serve(ca, capacity, cache, version, names, now, mint)
            == Serve(ca, capacity, cache, version, names[..k], now, mint)
  {
    hide ServeName;
    if k < |names| {
      assert names[..|names| - 1][..k] == names[..k];
      StoppedStays(ca, capacity, cache, version, names[..|names| - 1], now, mint, k);
    } else {
      assert names[..k] == names;
    }
  }

  lemma {:induction false} PrefixDone(ca: Certificate, capacity: nat, cache: Cache, version: nat, names: seq<string>,
                                      now: int, mint: Mint, k: nat)
    requires k <= |names| && Serve(ca, capacity, cache, version, names, now, mint).Done?
    ensures Serve(ca, capacity, cache, version, names[..k], now, mint).Done?
  {
    hide ServeName;
    if k < |names| {
      PrefixDone(ca, capacity, cache, version, names[..|names| - 1], now, mint, k);
      assert names[..|names| - 1][..k] == names[..k];
    } else {
      assert names[..k] == names;
    }
  }
}
