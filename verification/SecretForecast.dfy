/**
  A batch foretold from the state before it: the recency order at each name's turn, where the batch stops if some
  issue fails, how it moves the order, and which entries it leaves as they were.
*/
module SecretForecast {
  import opened Wrappers
  import opened Text
  import opened Leaf
  import opened SecretCache
  import opened SecretAccounts
  import opened SecretRecency
  import opened SecretProtocol

  // The recency order after serving some names.
  function Order(capacity: nat, start: Cache, names: seq<string>): seq<string> {
    Replay(Names(start), ValidUses(names), capacity)
  }

  predicate Unexpired(start: Cache, n: string, now: int) {
    Lookup(start, n).Some? && now < Lookup(start, n).value.expires
  }

  // The k-th name must be issued, having no entry in time or losing it to the names before, and cannot be.
  predicate FailsAt(ca: Certificate, capacity: nat, start: Cache, names: seq<string>, now: int, mint: Mint, k: nat)
    requires k < |names|
  {
    && Issuable(names[k])
    && !(names[k] in Order(capacity, start, names[..k]) && Unexpired(start, names[k], now))
    && Issue(ca, CanonicalName(names[k]).value, now, mint(names[k])).None?
  }

  predicate Fails(ca: Certificate, capacity: nat, start: Cache, names: seq<string>, now: int, mint: Mint) {
    exists k :: 0 <= k < |names| && FailsAt(ca, capacity, start, names, now, mint, k)
  }

  function FirstFailureFrom(ca: Certificate, capacity: nat, start: Cache, names: seq<string>, now: int, mint: Mint,
                            i: nat): (k: nat)
    requires exists k :: i <= k < |names| && FailsAt(ca, capacity, start, names, now, mint, k)
    ensures i <= k < |names| && FailsAt(ca, capacity, start, names, now, mint, k)
    ensures forall j :: i <= j < k ==> !FailsAt(ca, capacity, start, names, now, mint, j)
    decreases |names| - i
  {
    if FailsAt(ca, capacity, start, names, now, mint, i) then i
    else FirstFailureFrom(ca, capacity, start, names, now, mint, i + 1)
  }

  // The first name at which an issue fails.
  function FirstFailure(ca: Certificate, capacity: nat, start: Cache, names: seq<string>, now: int, mint: Mint)
    : (k: nat)
    requires Fails(ca, capacity, start, names, now, mint)
    ensures k < |names| && FailsAt(ca, capacity, start, names, now, mint, k)
    ensures forall j :: 0 <= j < k ==> !FailsAt(ca, capacity, start, names, now, mint, j)
  {
    FirstFailureFrom(ca, capacity, start, names, now, mint, 0)
  }

  ghost predicate Batchable(ca: Certificate, capacity: nat, start: Cache, version: nat, names: seq<string>) {
    && capacity >= 1 && WellFormed(ca, capacity, start, version)
    && forall i, j :: 0 <= i < j < |names| ==> names[i] != names[j]
  }

  // ---- when a batch stops

  lemma BatchOrder(ca: Certificate, capacity: nat, start: Cache, version: nat, names: seq<string>, now: int,
                   mint: Mint, n: string)
    requires capacity >= 1 && WellFormed(ca, capacity, start, version)
    requires Serve(ca, capacity, start, version, names, now, mint).Done?
    ensures n in Order(capacity, start, names) <==>
            Lookup(Serve(ca, capacity, start, version, names, now, mint).batch.cache, n).Some?
  {
    hide WellFormed, Serve;
    BatchIsReplay(ca, capacity, start, version, names, now, mint);
    NamesMember(Serve(ca, capacity, start, version, names, now, mint).batch.cache, n);
  }

  // A name the batch has not asked for yet has its old entry, or none.
  lemma WaitingEntry(start: Cache, served: seq<string>, b: Batch, n: string)
    requires Accounted(start, served, b) && n !in served
    ensures Lookup(b.cache, n).Some? ==> Lookup(b.cache, n) == Lookup(start, n)
  {
    hide Issuable, Lookup;
  }

  lemma StopsNext(ca: Certificate, capacity: nat, start: Cache, version: nat, names: seq<string>, now: int,
                  mint: Mint, k: nat)
    requires Batchable(ca, capacity, start, version, names) && k < |names|
    requires Serve(ca, capacity, start, version, names[..k], now, mint).Done?
    ensures Serve(ca, capacity, start, version, names[..k + 1], now, mint).Stopped? <==>
            FailsAt(ca, capacity, start, names, now, mint, k)
  {
    hide WellFormed, Serve, Issuable, Issue, CanonicalName, Order, Lookup, Without, Insert, Accounted;
    var b := Serve(ca, capacity, start, version, names[..k], now, mint).batch;
    ServeNext(ca, capacity, start, version, names, now, mint, k);
    BatchOrder(ca, capacity, start, version, names[..k], now, mint, names[k]);
    BatchAccounted(ca, capacity, start, version, names[..k], now, mint);
    assert names[k] !in names[..k];
    WaitingEntry(start, names[..k], b, names[k]);
  }

  lemma FailsAtPrefix(ca: Certificate, capacity: nat, start: Cache, names: seq<string>, now: int, mint: Mint, m: nat,
                      k: nat)
    requires k < m <= |names|
    ensures FailsAt(ca, capacity, start, names[..m], now, mint, k) <==>
            FailsAt(ca, capacity, start, names, now, mint, k)
  {
    assert names[..m][..k] == names[..k];
  }

  // A batch stops if and only if some name in it must be issued and cannot be.
  lemma {:induction false} StopsIff(ca: Certificate, capacity: nat, start: Cache, version: nat, names: seq<string>,
                                    now: int, mint: Mint)
    requires Batchable(ca, capacity, start, version, names)
    ensures Serve(ca, capacity, start, version, names, now, mint).Stopped? <==>
            Fails(ca, capacity, start, names, now, mint)
  {
    hide WellFormed, FailsAt, ServeName;
    if names != [] {
      var m := |names| - 1;
      StopsIff(ca, capacity, start, version, names[..m], now, mint);
      forall k | 0 <= k < m
        ensures FailsAt(ca, capacity, start, names[..m], now, mint, k) <==>
                FailsAt(ca, capacity, start, names, now, mint, k)
      {
        FailsAtPrefix(ca, capacity, start, names, now, mint, m, k);
      }
      assert names[..m + 1] == names;
      if Serve(ca, capacity, start, version, names[..m], now, mint).Done? {
        StopsNext(ca, capacity, start, version, names, now, mint, m);
      } else {
        var k :| 0 <= k < m && FailsAt(ca, capacity, start, names[..m], now, mint, k);
        assert FailsAt(ca, capacity, start, names, now, mint, k);
      }
    }
  }

  // A batch that stops has served the names before the first failure and stops at it.
  lemma StopsAtFirst(ca: Certificate, capacity: nat, start: Cache, version: nat, names: seq<string>, now: int,
                     mint: Mint)
    requires Batchable(ca, capacity, start, version, names)
    requires Fails(ca, capacity, start, names, now, mint)
    ensures var k := FirstFailure(ca, capacity, start, names, now, mint);
            var before := Serve(ca, capacity, start, version, names[..k], now, mint);
            && before.Done?
            && Serve(ca, capacity, start, version, names, now, mint)
               == ServeName(ca, capacity, before.batch, names[k], now, mint)
            && Serve(ca, capacity, start, version, names, now, mint).Stopped?
  {
    hide WellFormed, FailsAt, ServeName, Serve, FirstFailure;
    var k := FirstFailure(ca, capacity, start, names, now, mint);
    forall j | 0 <= j < k ensures !FailsAt(ca, capacity, start, names[..k], now, mint, j) {
      FailsAtPrefix(ca, capacity, start, names, now, mint, k, j);
    }
    StopsIff(ca, capacity, start, version, names[..k], now, mint);
    StopsNext(ca, capacity, start, version, names, now, mint, k);
    ServeNext(ca, capacity, start, version, names, now, mint, k);
    StoppedStays(ca, capacity, start, version, names, now, mint, k + 1);
  }

  // What stopping at a name does to the cache: its entry, if it had one, is gone.
  lemma StoppedCache(ca: Certificate, capacity: nat, b: Batch, name: string, now: int, mint: Mint)
    requires ServeName(ca, capacity, b, name, now, mint).Stopped?
    ensures ServeName(ca, capacity, b, name, now, mint).batch.cache == Without(b.cache, {name})
  {
  }

  // ---- what a finished batch hands out and tells removed

  // What is handed out: the valid names asked for that are still in the order at the end.
  lemma ServedResources(ca: Certificate, capacity: nat, start: Cache, version: nat, names: seq<string>, now: int,
                        mint: Mint, n: string)
    requires Batchable(ca, capacity, start, version, names)
    requires Serve(ca, capacity, start, version, names, now, mint).Done?
    ensures n in Serve(ca, capacity, start, version, names, now, mint).batch.resources <==>
            n in names && Issuable(n) && n in Order(capacity, start, names)
  {
    hide WellFormed, Serve, Issuable, Order, Lookup;
    BatchOrder(ca, capacity, start, version, names, now, mint, n);
    BatchAccounted(ca, capacity, start, version, names, now, mint);
    var b := Serve(ca, capacity, start, version, names, now, mint).batch;
    assert Lookup(b.cache, n).Some? ==> !(n in b.removed && n !in b.resources);
  }

  // Serving some name pushes this one out.
  ghost predicate PushedOut(capacity: nat, start: Cache, names: seq<string>, n: string) {
    exists i :: 0 <= i < |names| && LeavesAt(capacity, start, names, n, i)
  }

  predicate LeavesAt(capacity: nat, start: Cache, names: seq<string>, n: string, i: nat)
    requires i < |names|
  {
    n in Order(capacity, start, names[..i]) && n !in Order(capacity, start, names[..i + 1])
  }

  lemma PushedOutStep(capacity: nat, start: Cache, names: seq<string>, n: string)
    requires names != []
    ensures PushedOut(capacity, start, names, n) <==>
            || PushedOut(capacity, start, names[..|names| - 1], n)
            || (n in Order(capacity, start, names[..|names| - 1]) && n !in Order(capacity, start, names))
  {
    hide Order;
    var k := |names| - 1;
    assert names[..k + 1] == names;
    forall i | 0 <= i < k
      ensures LeavesAt(capacity, start, names, n, i) <==> LeavesAt(capacity, start, names[..k], n, i)
    {
      assert names[..k][..i] == names[..i] && names[..k][..i + 1] == names[..i + 1];
    }
    assert LeavesAt(capacity, start, names, n, k) <==>
           n in Order(capacity, start, names[..k]) && n !in Order(capacity, start, names);
    if PushedOut(capacity, start, names[..k], n) {
      var i :| 0 <= i < k && LeavesAt(capacity, start, names[..k], n, i);
      assert LeavesAt(capacity, start, names, n, i);
    }
  }

  // What is told removed: the invalid names asked for, and every name the batch pushes out of the order, if only for
  // a while.
  lemma {:induction false} ServedRemoved(ca: Certificate, capacity: nat, start: Cache, version: nat,
                                         names: seq<string>, now: int, mint: Mint, n: string)
    requires Batchable(ca, capacity, start, version, names)
    requires Serve(ca, capacity, start, version, names, now, mint).Done?
    ensures n in Serve(ca, capacity, start, version, names, now, mint).batch.removed <==>
            (n in names && !Issuable(n)) || PushedOut(capacity, start, names, n)
  {
    hide WellFormed, ServeName, Issuable, Order, PushedOut, Lookup, Without;
    if names == [] {
      NothingPushedOut(capacity, start, n);
    } else {
      var k := |names| - 1;
      ServedRemoved(ca, capacity, start, version, names[..k], now, mint, n);
      PushedOutStep(capacity, start, names, n);
      BatchOrder(ca, capacity, start, version, names[..k], now, mint, n);
      BatchOrder(ca, capacity, start, version, names, now, mint, n);
      var b := Serve(ca, capacity, start, version, names[..k], now, mint).batch;
      ServeNameSteps(ca, capacity, b, names[k], now, mint);
      assert n in names <==> n in names[..k] || n == names[k];
    }
  }

  lemma NothingPushedOut(capacity: nat, start: Cache, n: string)
    ensures !PushedOut(capacity, start, [], n)
  {
  }

  // ---- how a batch moves the order

  // The operations of a batch: its valid names are used in turn, up to the first that fails, which is dropped.
  function BatchOps(ca: Certificate, capacity: nat, start: Cache, names: seq<string>, now: int, mint: Mint): seq<Op> {
    if Fails(ca, capacity, start, names, now, mint) then
      var k := FirstFailure(ca, capacity, start, names, now, mint);
      ValidUses(names[..k]) + [Drop(names[k])]
    else ValidUses(names)
  }

  // Finished or stopped, a batch moves the recency order as its operations do.
  lemma BatchMoves(ca: Certificate, capacity: nat, start: Cache, version: nat, names: seq<string>, now: int, mint: Mint)
    requires Batchable(ca, capacity, start, version, names)
    ensures Names(Serve(ca, capacity, start, version, names, now, mint).batch.cache) ==
            Replay(Names(start), BatchOps(ca, capacity, start, names, now, mint), capacity)
  {
    hide WellFormed, Serve, ServeName, Names, Fails, FirstFailure, Without, ValidUses;
    StopsIff(ca, capacity, start, version, names, now, mint);
    if Fails(ca, capacity, start, names, now, mint) {
      var k := FirstFailure(ca, capacity, start, names, now, mint);
      StopsAtFirst(ca, capacity, start, version, names, now, mint);
      var b := Serve(ca, capacity, start, version, names[..k], now, mint).batch;
      StoppedCache(ca, capacity, b, names[k], now, mint);
      BatchIsReplay(ca, capacity, start, version, names[..k], now, mint);
      NamesWithout(b.cache, names[k]);
      var ops := ValidUses(names[..k]) + [Drop(names[k])];
      assert ops[..|ops| - 1] == ValidUses(names[..k]);
    } else {
      BatchIsReplay(ca, capacity, start, version, names, now, mint);
    }
  }

  // ---- which entries survive part of a batch

  // The name is among the `capacity` most recently used ones at every point of the batch.
  ghost predicate Stays(capacity: nat, start: Cache, names: seq<string>, n: string) {
    forall i :: 0 <= i <= |names| ==> n in Order(capacity, start, names[..i])
  }

  // The name is never the least recently used one at an eviction, and if the batch asks for it, up to and including
  // the name that fails, its entry has not expired.
  ghost predicate Spared(capacity: nat, start: Cache, served: seq<string>, stopped: string, now: int, n: string) {
    Stays(capacity, start, served, n) && (n in served + [stopped] ==> Unexpired(start, n, now))
  }

  lemma StaysStep(capacity: nat, start: Cache, names: seq<string>, n: string)
    requires names != []
    ensures Stays(capacity, start, names, n) <==>
            Stays(capacity, start, names[..|names| - 1], n) && n in Order(capacity, start, names)
  {
    hide Order;
    var k := |names| - 1;
    assert names[..|names|] == names;
    assert forall i :: 0 <= i <= k ==> names[..k][..i] == names[..i];
  }

  // One name served: its own entry is kept if unexpired and new otherwise; any other is kept or evicted.
  lemma ServeNameEntry(ca: Certificate, capacity: nat, b: Batch, name: string, now: int, mint: Mint, n: string)
    requires ServeName(ca, capacity, b, name, now, mint).Done? && (n == name ==> Issuable(n))
    ensures var after := ServeName(ca, capacity, b, name, now, mint).batch;
            if n != name then Lookup(after.cache, n) in {None, Lookup(b.cache, n)}
            else if Unexpired(b.cache, n, now) then Lookup(after.cache, n) == Lookup(b.cache, n)
            else Lookup(after.cache, n).Some? && Lookup(after.cache, n).value.resource.version == b.version + 1
  {
    hide Issue, CanonicalName, Without;
    var after := ServeName(ca, capacity, b, name, now, mint).batch;
    ServeNameSteps(ca, capacity, b, name, now, mint);
    if n == name {
      assert after.cache == [after.cache[0]] + after.cache[1..];
      LookupCons(after.cache[0], after.cache[1..], n);
    }
  }

  // The entry is the old one, or it is gone or newer than anything there was.
  ghost predicate Same(start: Cache, version: nat, after: Cache, n: string, same: bool) {
    if same then Lookup(after, n) == Lookup(start, n)
    else Lookup(after, n).None? || Lookup(after, n).value.resource.version > version
  }

  lemma {:induction false} ServedEntry(ca: Certificate, capacity: nat, start: Cache, version: nat, names: seq<string>,
                                       now: int, mint: Mint, n: string)
    requires Batchable(ca, capacity, start, version, names) && Lookup(start, n).Some?
    requires Serve(ca, capacity, start, version, names, now, mint).Done?
    ensures Same(start, version, Serve(ca, capacity, start, version, names, now, mint).batch.cache, n,
                 Stays(capacity, start, names, n) && (n in names ==> Unexpired(start, n, now)))
  {
    hide WellFormed, Issuable, ServeName, Stays, Order, Lookup;
    BatchOrder(ca, capacity, start, version, names, now, mint, n);
    if names == [] {
      EmptyStays(capacity, start, n);
    } else {
      var k := |names| - 1;
      ServedEntry(ca, capacity, start, version, names[..k], now, mint, n);
      StaysStep(capacity, start, names, n);
      var b := Serve(ca, capacity, start, version, names[..k], now, mint).batch;
      ServeKeepsWellFormed(ca, capacity, start, version, names[..k], now, mint);
      WellFormedIssuable(ca, capacity, start, version);
      ServeNameEntry(ca, capacity, b, names[k], now, mint, n);
      assert n in names <==> n in names[..k] || n == names[k];
    }
  }

  lemma EmptyStays(capacity: nat, start: Cache, n: string)
    ensures Stays(capacity, start, [], n) <==> Lookup(start, n).Some?
  {
    NamesMember(start, n);
    var none: seq<string> := [];
    assert none[..0] == none;
    assert Order(capacity, start, none) == Names(start);
  }

  // A batch that stops leaves an entry as it was exactly when the part before the first failure spares it.
  lemma StoppedEntry(ca: Certificate, capacity: nat, start: Cache, version: nat, names: seq<string>, now: int,
                     mint: Mint, n: string)
    requires Batchable(ca, capacity, start, version, names) && Lookup(start, n).Some?
    requires Fails(ca, capacity, start, names, now, mint)
    ensures var k := FirstFailure(ca, capacity, start, names, now, mint);
            Same(start, version, Serve(ca, capacity, start, version, names, now, mint).batch.cache, n,
                 Spared(capacity, start, names[..k], names[k], now, n))
  {
    hide WellFormed, Serve, ServeName, Stays, Lookup, Without, FirstFailure, Fails, FailsAt;
    var k := FirstFailure(ca, capacity, start, names, now, mint);
    StopsAtFirst(ca, capacity, start, version, names, now, mint);
    var b := Serve(ca, capacity, start, version, names[..k], now, mint).batch;
    StoppedCache(ca, capacity, b, names[k], now, mint);
    ServedEntry(ca, capacity, start, version, names[..k], now, mint, n);
    LookupDead(b.cache, {names[k]}, n);
    assert names[k] !in names[..k];
    assert n in names[..k] + [names[k]] <==> n in names[..k] || n == names[k];
    StaysOrder(capacity, start, names[..k], n);
    assert FailsAt(ca, capacity, start, names, now, mint, k);
    NotInTime(ca, capacity, start, names, now, mint, k);
  }

  lemma StaysOrder(capacity: nat, start: Cache, names: seq<string>, n: string)
    ensures Stays(capacity, start, names, n) ==> n in Order(capacity, start, names)
  {
    hide Order;
    assert names[..|names|] == names;
  }

  lemma NotInTime(ca: Certificate, capacity: nat, start: Cache, names: seq<string>, now: int, mint: Mint, k: nat)
    requires k < |names| && FailsAt(ca, capacity, start, names, now, mint, k)
    ensures !(names[k] in Order(capacity, start, names[..k]) && Unexpired(start, names[k], now))
  {
  }

  // ---- the batch of a request

  // The names a request asks for, in order, on the cache it enters with.
  predicate BatchFails<W>(s: Server<W>, req: Request, now: int, mint: Mint) {
    Fails(s.ca, s.capacity, Entering(s, req), Sorted(Requested(req)), now, mint)
  }

  lemma BatchReady<W>(s: Server<W>, req: Request)
    requires Sound(s)
    ensures Batchable(s.ca, s.capacity, Entering(s, req), s.version, Sorted(Requested(req)))
  {
    hide WellFormed;
    WithoutWellFormed(s.ca, s.capacity, s.cache, s.version, Idle(s.watches, req.unsubscribe));
  }

  // A request is served to its end exactly when no name of its batch must be issued and cannot be.
  lemma FinishesIff<W>(s: Server<W>, req: Request, now: int, mint: Mint)
    requires Sound(s)
    ensures Update(s, req, now, mint).Done? <==> !BatchFails(s, req, now, mint)
  {
    hide Sound, Serve, Fails;
    BatchReady(s, req);
    StopsIff(s.ca, s.capacity, Entering(s, req), s.version, Sorted(Requested(req)), now, mint);
  }
}
