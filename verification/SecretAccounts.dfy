/**
  What a finished batch answers: every name accounted for, which names can be in both halves of the answer, and
  exactly what a batch larger than the cache hands out.
*/
module SecretAccounts {
  import opened Wrappers
  import opened Text
  import opened Leaf
  import opened SecretCache

  lemma LookupCons(entry: Cached, rest: Cache, name: string)
    ensures Lookup([entry] + rest, name) == if entry.name == name then Some(entry) else Lookup(rest, name)
  {
    assert ([entry] + rest)[1..] == rest;
  }

  lemma {:induction false} LookupDead(cache: Cache, dead: set<string>, name: string)
    ensures Lookup(Without(cache, dead), name) == if name in dead then None else Lookup(cache, name)
  {
    if name in dead {
      assert name !in NameSet(Without(cache, dead));
    } else {
      LookupWithout(cache, dead, name);
    }
  }

  // The name a request for `name` pushes out of the cache, if any.
  function Evicted(capacity: nat, b: Batch, name: string, now: int): Option<string> {
    var found := Lookup(b.cache, name);
    var rest := Without(b.cache, {name});
    if Issuable(name) && !(found.Some? && now < found.value.expires) && |rest| == capacity && capacity > 0 then
      Some(rest[capacity - 1].name)
    else None
  }

  // One step, name by name.
  ghost predicate Stepped(b: Batch, name: string, evicted: Option<string>, after: Batch) {
    && (evicted.Some? ==> evicted.value != name && Lookup(b.cache, evicted.value).Some?)
    && (forall n {:trigger Lookup(after.cache, n)} :: n != name ==>
          Lookup(after.cache, n) == if evicted == Some(n) then None else Lookup(b.cache, n))
    && (forall n {:trigger n in after.removed} :: n in after.removed <==>
          n in b.removed || evicted == Some(n) || (n == name && !Issuable(name)))
    && (forall n {:trigger n in after.resources} :: n != name ==>
          (n in after.resources <==> n in b.resources && evicted != Some(n))
          && (n in after.resources ==> after.resources[n] == b.resources[n]))
    && (if Issuable(name) then
          && name in after.resources && Lookup(after.cache, name).Some?
          && Lookup(after.cache, name).value.resource == after.resources[name]
        else Lookup(after.cache, name) == Lookup(b.cache, name)
             && (name in after.resources <==> name in b.resources))
  }

  lemma InsertSteps(capacity: nat, b: Batch, entry: Cached)
    requires Lookup(b.cache, entry.name).None? && Issuable(entry.name)
    ensures var evicted := if |b.cache| == capacity && capacity > 0 then Some(b.cache[capacity - 1].name) else None;
            Stepped(b, entry.name, evicted, Insert(capacity, b, entry))
  {
    hide Issuable;
    var after := Insert(capacity, b, entry);
    if |b.cache| == capacity && capacity > 0 {
      var last := b.cache[capacity - 1];
      assert last in b.cache;
      HeldWhenIn(b.cache, last);
      forall n ensures Lookup(after.cache, n) == if n == entry.name then Some(entry)
                                                 else if n == last.name then None else Lookup(b.cache, n) {
        LookupCons(entry, Without(b.cache, {last.name}), n);
        LookupDead(b.cache, {last.name}, n);
      }
    } else {
      forall n ensures Lookup(after.cache, n) == if n == entry.name then Some(entry) else Lookup(b.cache, n) {
        LookupCons(entry, b.cache, n);
      }
    }
  }

  lemma HeldWhenIn(cache: Cache, entry: Cached)
    requires entry in cache
    ensures Lookup(cache, entry.name).Some?
  {
    assert entry.name in NameSet(cache);
  }

  lemma ServeNameSteps(ca: Certificate, capacity: nat, b: Batch, name: string, now: int, mint: Mint)
    requires ServeName(ca, capacity, b, name, now, mint).Done?
    ensures Stepped(b, name, Evicted(capacity, b, name, now), ServeName(ca, capacity, b, name, now, mint).batch)
  {
    hide Issue, CanonicalName, Insert, Stepped;
    var found := Lookup(b.cache, name);
    var rest := Without(b.cache, {name});
    forall n ensures Lookup(rest, n) == if n == name then None else Lookup(b.cache, n) {
      LookupDead(b.cache, {name}, n);
    }
    if !Issuable(name) {
      InvalidSteps(b, name);
    } else if found.Some? && now < found.value.expires {
      HitSteps(b, name);
    } else {
      var version := b.version + 1;
      var leaf := Issue(ca, CanonicalName(name).value, now, mint(name)).value;
      var entry := Cached(name, Resource(name, version, leaf), now + TTL);
      var kept := b.(cache := rest, version := version);
      InsertSteps(capacity, kept, entry);
      Rebase(b, kept, name, Evicted(capacity, b, name, now), Insert(capacity, kept, entry));
    }
  }

  lemma InvalidSteps(b: Batch, name: string)
    requires !Issuable(name)
    ensures Stepped(b, name, None, b.(removed := b.removed + {name}))
  {
    hide Issuable;
  }

  lemma HitSteps(b: Batch, name: string)
    requires Issuable(name) && Lookup(b.cache, name).Some?
    ensures var found := Lookup(b.cache, name).value;
            Stepped(b, name, None, b.(cache := [found] + Without(b.cache, {name}),
                                      resources := b.resources[name := found.resource]))
  {
    hide Issuable;
    var found := Lookup(b.cache, name).value;
    forall n ensures Lookup([found] + Without(b.cache, {name}), n)
                     == if n == name then Some(found) else Lookup(b.cache, n) {
      LookupCons(found, Without(b.cache, {name}), n);
      LookupDead(b.cache, {name}, n);
    }
  }

  // Dropping the entry of the served name first changes nothing for the other names.
  lemma Rebase(b: Batch, kept: Batch, name: string, evicted: Option<string>, after: Batch)
    requires Issuable(name) && Stepped(kept, name, evicted, after)
    requires kept.resources == b.resources && kept.removed == b.removed
    requires forall n :: n != name ==> Lookup(kept.cache, n) == Lookup(b.cache, n)
    ensures Stepped(b, name, evicted, after)
  {
    hide Issuable;
  }

  // ---- accounting

  // Nothing is lost: what was held or validly requested is held, unless told removed and not handed out.
  ghost predicate Balanced(start: Cache, names: seq<string>, b: Batch) {
    forall n {:trigger Lookup(b.cache, n)} ::
      Lookup(b.cache, n).Some? <==>
      (Lookup(start, n).Some? || (n in names && Issuable(n))) && !(n in b.removed && n !in b.resources)
  }

  // What is handed out was requested and is what is cached; a cached name outside the answer kept its entry.
  ghost predicate HandedOut(start: Cache, names: seq<string>, b: Batch) {
    && (forall n :: n in b.resources ==>
          n in names && Issuable(n) && Lookup(b.cache, n).Some? && Lookup(b.cache, n).value.resource == b.resources[n])
    && (forall n {:trigger Lookup(b.cache, n)} ::
          Lookup(b.cache, n).Some? && n !in b.resources ==> Lookup(b.cache, n) == Lookup(start, n))
  }

  // Every requested name is answered, and only requested or formerly cached names are told removed.
  ghost predicate Answered(start: Cache, names: seq<string>, b: Batch) {
    && (forall n :: n in names ==> n in b.resources || n in b.removed)
    && (forall n :: n in b.removed ==> Lookup(start, n).Some? || n in names)
  }

  ghost predicate Accounted(start: Cache, names: seq<string>, b: Batch) {
    Balanced(start, names, b) && HandedOut(start, names, b) && Answered(start, names, b)
  }

  lemma BalanceStep(start: Cache, names: seq<string>, b: Batch, name: string, evicted: Option<string>, after: Batch)
    requires Accounted(start, names, b) && Stepped(b, name, evicted, after)
    requires name !in names
    requires forall n :: Lookup(start, n).Some? ==> Issuable(n)
    ensures Balanced(start, names + [name], after)
  {
    hide Issuable, Lookup;
    forall n ensures Lookup(after.cache, n).Some? <==>
                     (Lookup(start, n).Some? || (n in names + [name] && Issuable(n)))
                     && !(n in after.removed && n !in after.resources) {
      assert n in names + [name] <==> n in names || n == name;
      assert Lookup(b.cache, n).Some? <==>
             (Lookup(start, n).Some? || (n in names && Issuable(n))) && !(n in b.removed && n !in b.resources);
    }
  }

  lemma AccountStep(start: Cache, names: seq<string>, b: Batch, name: string, evicted: Option<string>, after: Batch)
    requires Accounted(start, names, b) && Stepped(b, name, evicted, after)
    requires name !in names
    requires forall n :: Lookup(start, n).Some? ==> Issuable(n)
    ensures Accounted(start, names + [name], after)
  {
    hide Issuable, Lookup;
    BalanceStep(start, names, b, name, evicted, after);
    assert HandedOut(start, names + [name], after);
    assert Answered(start, names + [name], after);
  }

  // No cached name is refused, so every cached name could be issued again.
  lemma WellFormedIssuable(ca: Certificate, capacity: nat, cache: Cache, version: nat)
    requires WellFormed(ca, capacity, cache, version)
    ensures forall n :: Lookup(cache, n).Some? ==> Issuable(n)
  {
    hide Issuable, Issue, CanonicalName;
    forall n | Lookup(cache, n).Some? ensures Issuable(n) {
      assert Genuine(ca, version, Lookup(cache, n).value);
    }
  }

  lemma {:induction false} BatchAccounted(ca: Certificate, capacity: nat, cache: Cache, version: nat,
                                          names: seq<string>, now: int, mint: Mint)
    requires WellFormed(ca, capacity, cache, version)
    requires forall i, j :: 0 <= i < j < |names| ==> names[i] != names[j]
    requires Serve(ca, capacity, cache, version, names, now, mint).Done?
    ensures Accounted(cache, names, Serve(ca, capacity, cache, version, names, now, mint).batch)
  {
    hide WellFormed, Issuable, Stepped, ServeName;
    if names == [] {
    } else {
      var k := |names| - 1;
      BatchAccounted(ca, capacity, cache, version, names[..k], now, mint);
      var b := Serve(ca, capacity, cache, version, names[..k], now, mint).batch;
      ServeNameSteps(ca, capacity, b, names[k], now, mint);
      WellFormedIssuable(ca, capacity, cache, version);
      AccountStep(cache, names[..k], b, names[k], Evicted(capacity, b, names[k], now),
                  ServeName(ca, capacity, b, names[k], now, mint).batch);
      assert names[..k] + [names[k]] == names;
    }
  }

  // A resource handed out under a name is that name's.
  lemma HandedOutNamed(ca: Certificate, capacity: nat, start: Cache, served: seq<string>, b: Batch)
    requires WellFormed(ca, capacity, b.cache, b.version) && Accounted(start, served, b)
    ensures forall m :: m in b.resources ==> b.resources[m].name == m
  {
    hide Issuable, Issue, CanonicalName;
    forall m | m in b.resources ensures b.resources[m].name == m {
      assert Genuine(ca, b.version, Lookup(b.cache, m).value);
    }
  }

  // A name is in both halves of the answer exactly when it was handed out after an earlier name of the same batch
  // had evicted it; such a name was cached on entry.
  lemma {:induction false} TwiceAnswered(ca: Certificate, capacity: nat, cache: Cache, version: nat,
                                         names: seq<string>, now: int, mint: Mint, k: nat)
    requires WellFormed(ca, capacity, cache, version)
    requires forall i, j :: 0 <= i < j < |names| ==> names[i] != names[j]
    requires Serve(ca, capacity, cache, version, names, now, mint).Done?
    requires k < |names|
    ensures var b := Serve(ca, capacity, cache, version, names, now, mint).batch;
            var turn := Serve(ca, capacity, cache, version, names[..k], now, mint).batch;
            names[k] in b.resources ==>
              && (names[k] in b.removed <==> names[k] in turn.removed)
              && (names[k] in b.removed ==> Lookup(cache, names[k]).Some? && Lookup(turn.cache, names[k]).None?)
  {
    hide WellFormed, Issuable, ServeName;
    var last := |names| - 1;
    var before := Serve(ca, capacity, cache, version, names[..last], now, mint).batch;
    ServeNameSteps(ca, capacity, before, names[last], now, mint);
    BatchAccounted(ca, capacity, cache, version, names[..last], now, mint);
    if k < last {
      TwiceAnswered(ca, capacity, cache, version, names[..last], now, mint, k);
      assert names[..last][..k] == names[..k];
    }
  }

  // ---- a batch of valid names fills the cache from the front

  function Min(a: int, b: int): int { if a < b then a else b }

  // The last `m` of the names.
  function LastOf(names: seq<string>, m: nat): seq<string>
    requires m <= |names|
  {
    names[|names| - m..]
  }

  lemma LastOfAll(names: seq<string>)
    ensures LastOf(names, |names|) == names
  {
  }

  // The last `m` of the names are handed out, and they are the front of the cache, last first.
  ghost predicate Fronted(names: seq<string>, m: nat, b: Batch) {
    && m <= |names| && m <= |b.cache|
    && (forall i :: 0 <= i < m ==> b.cache[i].name == names[|names| - 1 - i])
    && (forall n :: n in b.resources <==> n in LastOf(names, m))
  }

  lemma {:induction false} WithoutPrefix(cache: Cache, dead: set<string>, p: nat)
    requires p <= |cache| && forall i :: 0 <= i < p ==> cache[i].name !in dead
    ensures |Without(cache, dead)| >= p && Without(cache, dead)[..p] == cache[..p]
  {
    if p > 0 {
      WithoutPrefix(cache[1..], dead, p - 1);
      assert cache[..p] == [cache[0]] + cache[1..][..p - 1];
    }
  }

  // Serving one more distinct name keeps the shape; `rest` is the cache without that name.
  lemma FrontHit(names: seq<string>, m: nat, b: Batch, found: Cached, resource: Resource)
    requires Fronted(names, m, b) && found.name !in names && m == |names|
    ensures Fronted(names + [found.name], m + 1,
                    b.(cache := [found] + Without(b.cache, {found.name}),
                       resources := b.resources[found.name := resource]))
  {
    WithoutPrefix(b.cache, {found.name}, m);
    var rest := Without(b.cache, {found.name});
    forall i | 0 <= i < m ensures rest[i].name == names[|names| - 1 - i] {
      assert rest[i] == rest[..m][i] == b.cache[..m][i];
    }
  }

  lemma FrontInsert(capacity: nat, names: seq<string>, m: nat, b: Batch, entry: Cached)
    requires capacity >= 1 && Distinct(b.cache) && |b.cache| <= capacity && Lookup(b.cache, entry.name).None?
    requires Fronted(names, m, b) && entry.name !in names && m == Min(|names|, capacity)
    ensures Fronted(names + [entry.name], Min(|names| + 1, capacity), Insert(capacity, b, entry))
  {
    hide Without, Distinct, Lookup, LastOf;
    var all := names + [entry.name];
    var m' := Min(|all|, capacity);
    var after := Insert(capacity, b, entry);
    if |b.cache| == capacity {
      WithoutLast(b.cache);
      FrontEvict(capacity, names, m, b, entry.name);
      assert after.cache == [entry] + b.cache[..capacity - 1];
      forall n ensures n in after.resources <==> n in LastOf(all, m') {
        assert n in b.resources <==> n in LastOf(names, m);
      }
    } else {
      LastOfAll(names);
      LastOfAll(all);
      assert after.cache == [entry] + b.cache;
    }
    forall i | 0 <= i < m' ensures after.cache[i].name == all[|all| - 1 - i] {
      if i > 0 { assert after.cache[i] == b.cache[i - 1]; }
    }
  }

  // The name evicted from a full cache leaves the handed-out names exactly when it was the oldest of them.
  lemma FrontEvict(capacity: nat, names: seq<string>, m: nat, b: Batch, name: string)
    requires capacity >= 1 && Distinct(b.cache) && |b.cache| == capacity
    requires Fronted(names, m, b) && m == Min(|names|, capacity)
    ensures var all := names + [name];
            var evicted := b.cache[capacity - 1].name;
            forall n :: n in LastOf(all, Min(|all|, capacity)) <==>
                        n == name || (n in LastOf(names, m) && n != evicted)
  {
    var all := names + [name];
    var evicted := b.cache[capacity - 1].name;
    if m == capacity {
      Separate(names, m, b, evicted);
      assert LastOf(names, m) == [evicted] + names[|names| - m + 1..];
      assert LastOf(all, capacity) == names[|names| - m + 1..] + [name];
    } else {
      SeparateLast(names, m, b, capacity);
      assert LastOf(all, |all|) == names + [name] && LastOf(names, m) == names;
    }
  }

  // The name at the far end of the front occurs only there.
  lemma Separate(names: seq<string>, m: nat, b: Batch, evicted: string)
    requires Fronted(names, m, b) && Distinct(b.cache) && 0 < m && b.cache[m - 1].name == evicted
    ensures evicted !in names[|names| - m + 1..]
  {
    forall j | |names| - m < j < |names| ensures names[j] != evicted {
      assert b.cache[|names| - 1 - j].name == names[j];
      assert Apart(b.cache[|names| - 1 - j], b.cache[m - 1]);
    }
  }

  lemma SeparateLast(names: seq<string>, m: nat, b: Batch, capacity: nat)
    requires Fronted(names, m, b) && Distinct(b.cache) && m == |names| < capacity == |b.cache|
    ensures b.cache[capacity - 1].name !in names
  {
    forall j | 0 <= j < |names| ensures names[j] != b.cache[capacity - 1].name {
      assert b.cache[|names| - 1 - j].name == names[j];
      assert Apart(b.cache[|names| - 1 - j], b.cache[capacity - 1]);
    }
  }

  // Dropping an entry outside the front, if there is one, leaves the front alone.
  lemma FrontDrop(names: seq<string>, m: nat, b: Batch, name: string, version: nat)
    requires Fronted(names, m, b) && name !in names
    ensures Fronted(names, m, b.(cache := Without(b.cache, {name}), version := version))
  {
    WithoutPrefix(b.cache, {name}, m);
    var rest := Without(b.cache, {name});
    forall i | 0 <= i < m ensures rest[i].name == names[|names| - 1 - i] {
      assert rest[i] == rest[..m][i] == b.cache[..m][i];
    }
  }

  // A cached name outside a front that fills the cache does not exist.
  lemma FrontFull(names: seq<string>, m: nat, b: Batch, name: string)
    requires Fronted(names, m, b) && name !in names && Lookup(b.cache, name).Some?
    ensures m < |b.cache|
  {
    var found := Lookup(b.cache, name).value;
    var i :| 0 <= i < |b.cache| && b.cache[i] == found;
    assert forall j :: 0 <= j < m ==> b.cache[j].name in names;
  }

  lemma FrontStep(ca: Certificate, capacity: nat, names: seq<string>, b: Batch, name: string, now: int, mint: Mint)
    requires capacity >= 1 && Distinct(b.cache) && |b.cache| <= capacity
    requires Fronted(names, Min(|names|, capacity), b) && name !in names
    requires Issuable(name) && ServeName(ca, capacity, b, name, now, mint).Done?
    ensures Fronted(names + [name], Min(|names| + 1, capacity), ServeName(ca, capacity, b, name, now, mint).batch)
  {
    hide Issue, CanonicalName, Insert, Fronted, Distinct, Without;
    var m := Min(|names|, capacity);
    var found := Lookup(b.cache, name);
    if found.Some? {
      FrontFull(names, m, b, name);
    }
    if found.Some? && now < found.value.expires {
      FrontHit(names, m, b, found.value, found.value.resource);
    } else {
      var version := b.version + 1;
      var leaf := Issue(ca, CanonicalName(name).value, now, mint(name)).value;
      var entry := Cached(name, Resource(name, version, leaf), now + TTL);
      var kept := b.(cache := Without(b.cache, {name}), version := version);
      FrontDrop(names, m, b, name, version);
      LookupDead(b.cache, {name}, name);
      WithoutDistinct(b.cache, {name});
      FrontInsert(capacity, names, m, kept, entry);
    }
  }

  // Of `k` valid distinct names the last min(k, capacity) are handed out, and the cache begins with them, last first.
  lemma {:induction false} BatchFronted(ca: Certificate, capacity: nat, cache: Cache, version: nat,
                                        names: seq<string>, now: int, mint: Mint)
    requires capacity >= 1 && WellFormed(ca, capacity, cache, version)
    requires forall i, j :: 0 <= i < j < |names| ==> names[i] != names[j]
    requires forall n :: n in names ==> Issuable(n)
    requires Serve(ca, capacity, cache, version, names, now, mint).Done?
    ensures Fronted(names, Min(|names|, capacity), Serve(ca, capacity, cache, version, names, now, mint).batch)
  {
    hide Issuable, ServeName, Genuine;
    if names != [] {
      var k := |names| - 1;
      BatchFronted(ca, capacity, cache, version, names[..k], now, mint);
      ServeKeepsWellFormed(ca, capacity, cache, version, names[..k], now, mint);
      var b := Serve(ca, capacity, cache, version, names[..k], now, mint).batch;
      FrontStep(ca, capacity, names[..k], b, names[k], now, mint);
      assert names[..k] + [names[k]] == names;
    }
  }
}
