/**
  What one finished request answers, stated on the response a client sees: the accounting of names, when the two
  halves of an answer overlap, which names of a large batch survive, the recency order, and the validity of leaves.
*/
module SecretResults {
  import opened Wrappers
  import opened Text
  import opened Leaf
  import opened SecretCache
  import opened SecretAccounts
  import opened SecretRecency
  import opened SecretProtocol
  import opened SecretForecast

  function ResourceNames(response: Response): set<string> {
    set x | x in response.resources :: x.name
  }

  function ValidNames(req: Request): set<string> { set n | n in Requested(req) && Issuable(n) }

  function Responding<W>(s: Server<W>, req: Request, now: int, mint: Mint): Response {
    Answer(s.nonce + 1, Update(s, req, now, mint).batch)
  }

  // What a request that is served to its end tells the lemmas below about its batch.
  lemma Finished<W>(s: Server<W>, req: Request, now: int, mint: Mint)
    requires Sound(s) && !BatchFails(s, req, now, mint)
    ensures var b := Update(s, req, now, mint).batch;
            && Update(s, req, now, mint).Done?
            && s.capacity >= 1
            && WellFormed(s.ca, s.capacity, Entering(s, req), s.version)
            && WellFormed(s.ca, s.capacity, b.cache, b.version)
            && Batchable(s.ca, s.capacity, Entering(s, req), s.version, Sorted(Requested(req)))
            && Accounted(Entering(s, req), Sorted(Requested(req)), b)
            && (forall m :: m in b.resources ==> b.resources[m].name == m)
  {
    hide WellFormed, Serve, BatchFails, Accounted;
    FinishesIff(s, req, now, mint);
    BatchReady(s, req);
    ServeKeepsWellFormed(s.ca, s.capacity, Entering(s, req), s.version, Sorted(Requested(req)), now, mint);
    BatchAccounted(s.ca, s.capacity, Entering(s, req), s.version, Sorted(Requested(req)), now, mint);
    HandedOutNamed(s.ca, s.capacity, Entering(s, req), Sorted(Requested(req)), Update(s, req, now, mint).batch);
  }

  lemma AnswerNames(nonce: nat, b: Batch)
    requires forall n :: n in b.resources ==> b.resources[n].name == n
    ensures ResourceNames(Answer(nonce, b)) == b.resources.Keys
    ensures Elements(Answer(nonce, b).removed) == b.removed
  {
    var response := Answer(nonce, b);
    forall n | n in b.resources ensures n in ResourceNames(response) {
      assert b.resources[n] in response.resources;
    }
  }

  // Names cached afterwards are the entering and the validly requested ones, less those told removed and not handed
  // out; every requested name is answered.
  lemma ExactAccounting<W>(s: Server<W>, req: Request, now: int, mint: Mint)
    requires Sound(s) && !BatchFails(s, req, now, mint)
    ensures var response := Responding(s, req, now, mint);
            && NameSet(Update(s, req, now, mint).batch.cache) ==
               NameSet(Entering(s, req)) + ValidNames(req) - (Elements(response.removed) - ResourceNames(response))
            && Requested(req) <= ResourceNames(response) + Elements(response.removed)
            && ResourceNames(response) <= ValidNames(req)
            && Elements(response.removed) <= NameSet(Entering(s, req)) + Requested(req)
  {
    hide WellFormed, Update, Answer, Sound, ResourceNames, Accounted, NameSet, Without, ValidNames, Requested,
         BatchFails;
    var b := Update(s, req, now, mint).batch;
    Finished(s, req, now, mint);
    AnswerNames(s.nonce + 1, b);
    AccountedNames(Entering(s, req), req, b);
  }

  // The accounting of a batch, as sets of names.
  lemma AccountedNames(start: Cache, req: Request, b: Batch)
    requires Accounted(start, Sorted(Requested(req)), b)
    ensures NameSet(b.cache) == NameSet(start) + ValidNames(req) - (b.removed - b.resources.Keys)
    ensures Requested(req) <= b.resources.Keys + b.removed
    ensures b.resources.Keys <= ValidNames(req)
    ensures b.removed <= NameSet(start) + Requested(req)
  {
    hide Issuable, NameSet, Lookup;
    forall n ensures n in NameSet(b.cache) <==>
                     (n in NameSet(start) || n in ValidNames(req)) && !(n in b.removed && n !in b.resources) {
      CachedNames(b.cache, n);
      CachedNames(start, n);
    }
    forall n | n in b.removed ensures n in NameSet(start) + Requested(req) { CachedNames(start, n); }
  }

  lemma CachedNames(cache: Cache, n: string)
    ensures Lookup(cache, n).Some? <==> n in NameSet(cache)
  {
  }

  // ---- the two halves, told from the state before

  // The recency order when the turn of the k-th requested name comes, or at the end.
  function OrderAtTurn<W>(s: Server<W>, req: Request, k: nat): seq<string>
    requires k <= |Sorted(Requested(req))|
  {
    Order(s.capacity, Entering(s, req), Sorted(Requested(req))[..k])
  }

  lemma OrderAtEnd<W>(s: Server<W>, req: Request)
    ensures var names := Sorted(Requested(req));
            OrderAtTurn(s, req, |names|) == Order(s.capacity, Entering(s, req), names)
  {
    assert Sorted(Requested(req))[..|Sorted(Requested(req))|] == Sorted(Requested(req));
  }

  // Handed out are exactly the valid names asked for that are in the order at the end.
  lemma HandedOutIff<W>(s: Server<W>, req: Request, now: int, mint: Mint, n: string)
    requires Sound(s) && !BatchFails(s, req, now, mint)
    ensures n in ResourceNames(Responding(s, req, now, mint)) <==>
            n in Requested(req) && Issuable(n) && n in OrderAtTurn(s, req, |Sorted(Requested(req))|)
  {
    hide WellFormed, Answer, Issuable, Sound, ResourceNames, Serve, Accounted, Order, BatchFails, Entering;
    Finished(s, req, now, mint);
    AnswerNames(s.nonce + 1, Update(s, req, now, mint).batch);
    ServedResources(s.ca, s.capacity, Entering(s, req), s.version, Sorted(Requested(req)), now, mint, n);
    OrderAtEnd(s, req);
  }

  // Told removed are exactly the invalid names asked for and the names that the batch pushes out of the order.
  lemma RemovedIff<W>(s: Server<W>, req: Request, now: int, mint: Mint, n: string)
    requires Sound(s) && !BatchFails(s, req, now, mint)
    ensures n in Responding(s, req, now, mint).removed <==>
            || (n in Requested(req) && !Issuable(n))
            || PushedOut(s.capacity, Entering(s, req), Sorted(Requested(req)), n)
  {
    hide WellFormed, Answer, Issuable, Sound, Serve, Accounted, PushedOut, BatchFails, Entering;
    Finished(s, req, now, mint);
    ServedRemoved(s.ca, s.capacity, Entering(s, req), s.version, Sorted(Requested(req)), now, mint, n);
  }

  // The k-th requested name was cached on entry, and the names before it push it out of the recency order.
  predicate EvictedBeforeTurn<W>(s: Server<W>, req: Request, name: string, k: nat)
    requires k < |Sorted(Requested(req))|
  {
    Sorted(Requested(req))[k] == name && name in NameSet(Entering(s, req)) && name !in OrderAtTurn(s, req, k)
  }

  // The k-th requested name is issued again after that, and is still in the order at the end.
  predicate AnsweredTwice<W>(s: Server<W>, req: Request, k: nat)
    requires k < |Sorted(Requested(req))|
  {
    var names := Sorted(Requested(req));
    Issuable(names[k]) && names[k] in OrderAtTurn(s, req, |names|) && EvictedBeforeTurn(s, req, names[k], k)
  }

  // A name not yet served has been told removed exactly when it was cached and is no longer.
  lemma RemovedBeforeTurn(start: Cache, served: seq<string>, b: Batch, name: string)
    requires Accounted(start, served, b) && name !in served
    ensures name in b.removed <==> Lookup(start, name).Some? && Lookup(b.cache, name).None?
  {
    hide Issuable, Lookup;
    assert Lookup(b.cache, name).Some? <==> Lookup(start, name).Some? && name !in b.removed;
  }

  lemma RemovedAtTurn<W>(s: Server<W>, req: Request, now: int, mint: Mint, k: nat)
    requires Sound(s) && !BatchFails(s, req, now, mint) && k < |Sorted(Requested(req))|
    requires Sorted(Requested(req))[k] in Update(s, req, now, mint).batch.resources
    ensures var name := Sorted(Requested(req))[k];
            name in Update(s, req, now, mint).batch.removed <==> EvictedBeforeTurn(s, req, name, k)
  {
    hide WellFormed, Issuable, Sound, Serve, Lookup, NameSet, Accounted, Order, BatchFails, Entering;
    var names := Sorted(Requested(req));
    var start := Entering(s, req);
    Finished(s, req, now, mint);
    TwiceAnswered(s.ca, s.capacity, start, s.version, names, now, mint, k);
    PrefixDone(s.ca, s.capacity, start, s.version, names, now, mint, k);
    BatchAccounted(s.ca, s.capacity, start, s.version, names[..k], now, mint);
    var turn := Serve(s.ca, s.capacity, start, s.version, names[..k], now, mint).batch;
    RemovedBeforeTurn(start, names[..k], turn, names[k]);
    CachedNames(start, names[k]);
    BatchOrder(s.ca, s.capacity, start, s.version, names[..k], now, mint, names[k]);
  }

  // A name is in both halves of an answer if and only if it was cached on entry, the names served before it push it
  // out of the recency order, and those served after it do not.
  lemma BothHalves<W>(s: Server<W>, req: Request, now: int, mint: Mint, name: string)
    requires Sound(s) && !BatchFails(s, req, now, mint)
    ensures (&& name in ResourceNames(Responding(s, req, now, mint))
             && name in Responding(s, req, now, mint).removed) <==>
            exists k :: 0 <= k < |Sorted(Requested(req))| && Sorted(Requested(req))[k] == name
                        && AnsweredTwice(s, req, k)
  {
    hide WellFormed, Answer, Issuable, Sound, ResourceNames, Update, Accounted, OrderAtTurn, BatchFails,
         EvictedBeforeTurn;
    var names := Sorted(Requested(req));
    var b := Update(s, req, now, mint).batch;
    Finished(s, req, now, mint);
    AnswerNames(s.nonce + 1, b);
    HandedOutIff(s, req, now, mint, name);
    forall k | 0 <= k < |names| && names[k] == name && name in b.resources
      ensures name in b.removed <==> EvictedBeforeTurn(s, req, name, k)
    {
      RemovedAtTurn(s, req, now, mint, k);
    }
    if name in b.resources {
      var k :| 0 <= k < |names| && names[k] == name;
    }
  }

  // The halves are disjoint if and only if no requested name is answered twice.
  lemma DisjointIff<W>(s: Server<W>, req: Request, now: int, mint: Mint)
    requires Sound(s) && !BatchFails(s, req, now, mint)
    ensures ResourceNames(Responding(s, req, now, mint)) !! Elements(Responding(s, req, now, mint).removed) <==>
            !exists k :: 0 <= k < |Sorted(Requested(req))| && AnsweredTwice(s, req, k)
  {
    hide Answer, Sound, ResourceNames, Update, BatchFails, AnsweredTwice, Responding;
    var response := Responding(s, req, now, mint);
    if n :| n in ResourceNames(response) && n in response.removed { BothHalves(s, req, now, mint, n); }
    if k :| 0 <= k < |Sorted(Requested(req))| && AnsweredTwice(s, req, k) {
      BothHalves(s, req, now, mint, Sorted(Requested(req))[k]);
      assert Sorted(Requested(req))[k] in Elements(response.removed);
    }
  }

  // Being evicted before its turn takes an earlier name of the same batch and a place in the cache.
  lemma EvictionNeedsCompany<W>(s: Server<W>, req: Request, name: string, k: nat)
    requires k < |Sorted(Requested(req))| && EvictedBeforeTurn(s, req, name, k)
    ensures |Requested(req)| >= 2 && name in Requested(req) && name in NameSet(Entering(s, req))
  {
    hide Issuable, Entering, Requested, Names, NameSet;
    var names := Sorted(Requested(req));
    var start := Entering(s, req);
    NamesMember(start, name);
    CachedNames(start, name);
    assert names[..0] == [];
    assert OrderAtTurn(s, req, 0) == Names(start);
    assert k > 0;
    assert names[0] in names && names[k] in names && names[0] != names[k];
    SubsetSize({names[0], names[k]}, Requested(req));
  }

  // So a request for one name, or one whose names are not cached, never names anything in both halves.
  lemma HalvesDisjoint<W>(s: Server<W>, req: Request, now: int, mint: Mint)
    requires Sound(s) && !BatchFails(s, req, now, mint)
    requires |Requested(req)| <= 1 || Requested(req) !! NameSet(Entering(s, req))
    ensures ResourceNames(Responding(s, req, now, mint)) !! Elements(Responding(s, req, now, mint).removed)
  {
    hide Sound, ResourceNames, Responding, EvictedBeforeTurn, NameSet, BatchFails;
    DisjointIff(s, req, now, mint);
    if k :| 0 <= k < |Sorted(Requested(req))| && AnsweredTwice(s, req, k) {
      EvictionNeedsCompany(s, req, Sorted(Requested(req))[k], k);
    }
  }

  // They can overlap: a cache of one holding the second of two names asked for answers it both ways.
  lemma HalvesOverlap<W>(s: Server<W>, first: string, held: string, now: int, mint: Mint)
    requires Sound(s) && s.capacity == 1 && Names(s.cache) == [held]
    requires Less(first, held) && Issuable(first) && Issuable(held)
    requires !BatchFails(s, Request([first, held], map[], []), now, mint)
    ensures var response := Responding(s, Request([first, held], map[], []), now, mint);
            NamesOf(response.resources) == [held] && held in response.removed
  {
    hide Issuable, Sound, WellFormed, Answer, Update, NameSet, Names, Responding, OrderAtTurn, BatchFails, Entering;
    var req := Request([first, held], map[], []);
    PairInOrder(req, first, held);
    LessIrreflexive(held);
    assert Entering(s, req) == s.cache by { NothingIdle(s, req); }
    BatchExactness(s, req, now, mint);
    var response := Responding(s, req, now, mint);
    assert NamesOf(response.resources)[0] == held;
    assert response.resources[0] in response.resources && held in ResourceNames(response);
    HandedOutIff(s, req, now, mint, held);
    OnlyUse(s, req, first);
    NamesMember(s.cache, held);
    CachedNames(s.cache, held);
    assert AnsweredTwice(s, req, 1);
    BothHalves(s, req, now, mint, held);
  }

  lemma PairInOrder(req: Request, first: string, second: string)
    requires Less(first, second) && req == Request([first, second], map[], [])
    ensures Requested(req) == {first, second} && Sorted(Requested(req)) == [first, second]
  {
    assert Requested(req) == {first, second};
    SortedPair(first, second);
  }

  lemma NothingIdle<W>(s: Server<W>, req: Request)
    requires req.unsubscribe == []
    ensures Entering(s, req) == s.cache
  {
    assert Idle(s.watches, []) == {};
    WithoutAbsent(s.cache, {});
  }

  lemma OnlyUse<W>(s: Server<W>, req: Request, first: string)
    requires s.capacity == 1 && Issuable(first) && |Sorted(Requested(req))| > 0 && Sorted(Requested(req))[0] == first
    ensures OrderAtTurn(s, req, 1) == [first]
  {
    hide Issuable, Names, Entering;
    assert Sorted(Requested(req))[..1] == [first] && [first][..0] == [];
    assert ValidUses([]) == [];
    assert ValidUses([first]) == [Use(first)];
    assert [Use(first)][..0] == [];
  }

  // ---- a batch of valid names

  function NamesOf(resources: seq<Resource>): (r: seq<string>)
    ensures |r| == |resources|
  {
    seq(|resources|, i requires 0 <= i < |resources| => resources[i].name)
  }

  lemma LastOfAscending(names: seq<string>, m: nat)
    requires Ascending(names) && m <= |names|
    ensures Ascending(LastOf(names, m))
  {
  }

  lemma AnswerInOrder(nonce: nat, b: Batch)
    requires forall n :: n in b.resources ==> b.resources[n].name == n
    ensures NamesOf(Answer(nonce, b).resources) == Sorted(b.resources.Keys)
  {
    var keys := Sorted(b.resources.Keys);
    var r := NamesOf(Answer(nonce, b).resources);
    forall i | 0 <= i < |keys| ensures r[i] == keys[i] {
      assert keys[i] in keys;
    }
  }

  // Both halves of an answer are listed in order, without repetition.
  lemma AnswerSorted<W>(s: Server<W>, req: Request, now: int, mint: Mint)
    requires Sound(s) && !BatchFails(s, req, now, mint)
    ensures var response := Responding(s, req, now, mint);
            && (forall i, j :: 0 <= i < j < |response.resources| ==>
                  Less(response.resources[i].name, response.resources[j].name))
            && (forall i, j :: 0 <= i < j < |response.removed| ==> Less(response.removed[i], response.removed[j]))
            && response.nonce == s.nonce + 1
  {
    hide WellFormed, Issuable, Serve, Answer, Accounted, BatchFails, Entering, Sound;
    Finished(s, req, now, mint);
    var b := Update(s, req, now, mint).batch;
    AnswerInOrder(s.nonce + 1, b);
    RemovedInOrder(s.nonce + 1, b);
    var response := Responding(s, req, now, mint);
    forall i, j | 0 <= i < j < |response.resources|
      ensures Less(response.resources[i].name, response.resources[j].name)
    {
      assert NamesOf(response.resources)[i] == response.resources[i].name;
      assert NamesOf(response.resources)[j] == response.resources[j].name;
    }
  }

  lemma RemovedInOrder(nonce: nat, b: Batch)
    ensures Answer(nonce, b).removed == Sorted(b.removed)
  {
  }

  // A batch whose names are the front of the cache lists them in order.
  lemma FrontedAnswer(names: seq<string>, m: nat, b: Batch, nonce: nat)
    requires Ascending(names) && Fronted(names, m, b) && forall n :: n in b.resources ==> b.resources[n].name == n
    ensures NamesOf(Answer(nonce, b).resources) == LastOf(names, m)
  {
    hide NamesOf, Answer, LastOf;
    AnswerInOrder(nonce, b);
    LastOfAscending(names, m);
    assert Elements(LastOf(names, m)) == Elements(Sorted(b.resources.Keys));
    AscendingUnique(LastOf(names, m), Sorted(b.resources.Keys));
  }

  // Of k valid names the answer lists exactly the last min(k, capacity) in sorted order, and the cache begins with
  // them in reverse.
  lemma BatchExactness<W>(s: Server<W>, req: Request, now: int, mint: Mint)
    requires Sound(s) && !BatchFails(s, req, now, mint)
    requires forall n :: n in Requested(req) ==> Issuable(n)
    ensures var names := Sorted(Requested(req));
            var m := Min(|names|, s.capacity);
            var cache := Update(s, req, now, mint).batch.cache;
            && NamesOf(Responding(s, req, now, mint).resources) == LastOf(names, m)
            && m <= |cache|
            && forall i :: 0 <= i < m ==> cache[i].name == names[|names| - 1 - i]
  {
    hide WellFormed, Issuable, Serve, Answer, LastOf, NamesOf, Accounted, BatchFails, Entering, Sound, Fronted,
         Requested;
    var names := Sorted(Requested(req));
    var m := Min(|names|, s.capacity);
    var b := Update(s, req, now, mint).batch;
    Finished(s, req, now, mint);
    BatchFronted(s.ca, s.capacity, Entering(s, req), s.version, names, now, mint);
    FrontedAnswer(names, m, b, s.nonce + 1);
    assert m <= |b.cache| && forall i :: 0 <= i < m ==> b.cache[i].name == names[|names| - 1 - i] by {
      FrontedCache(names, m, b);
    }
  }

  lemma FrontedCache(names: seq<string>, m: nat, b: Batch)
    requires Fronted(names, m, b)
    ensures m <= |names| && m <= |b.cache| && forall i :: 0 <= i < m ==> b.cache[i].name == names[|names| - 1 - i]
  {
  }

  // ---- recency

  // The idle names in request order.
  function IdleNames<W>(watches: map<W, Watch>, unsubscribe: seq<string>): (r: seq<string>)
    ensures forall n :: n in r <==> n in Idle(watches, unsubscribe)
  {
    if unsubscribe == [] then []
    else
      var k := |unsubscribe| - 1;
      assert forall n :: n in unsubscribe <==> n in unsubscribe[..k] || n == unsubscribe[k];
      IdleNames(watches, unsubscribe[..k]) + (if Interested(watches, unsubscribe[k]) then [] else [unsubscribe[k]])
  }

  // The operations of a request: its idle drops, then those of its batch.
  function RequestOps<W>(s: Server<W>, req: Request, now: int, mint: Mint): seq<Op> {
    Drops(IdleNames(s.watches, req.unsubscribe))
    + BatchOps(s.ca, s.capacity, Entering(s, req), Sorted(Requested(req)), now, mint)
  }

  // Answered or not, a request moves the recency order as its operations do.
  lemma UpdateIsReplay<W>(s: Server<W>, req: Request, now: int, mint: Mint)
    requires Sound(s)
    ensures Names(Update(s, req, now, mint).batch.cache) ==
            Replay(Names(s.cache), RequestOps(s, req, now, mint), s.capacity)
  {
    hide WellFormed, Serve, Names, Idle, IdleNames, BatchOps;
    assert Elements(IdleNames(s.watches, req.unsubscribe)) == Idle(s.watches, req.unsubscribe);
    BatchReady(s, req);
    WithoutIsDrops(s.cache, IdleNames(s.watches, req.unsubscribe), s.capacity);
    BatchMoves(s.ca, s.capacity, Entering(s, req), s.version, Sorted(Requested(req)), now, mint);
    ReplayAppend(Names(s.cache), Drops(IdleNames(s.watches, req.unsubscribe)),
                 BatchOps(s.ca, s.capacity, Entering(s, req), Sorted(Requested(req)), now, mint), s.capacity);
  }

  // ---- validity of what is handed out

  lemma {:induction false} ServedUnexpired(ca: Certificate, capacity: nat, cache: Cache, version: nat,
                                           names: seq<string>, now: int, mint: Mint)
    requires Serve(ca, capacity, cache, version, names, now, mint).Done?
    requires forall i, j :: 0 <= i < j < |names| ==> names[i] != names[j]
    requires WellFormed(ca, capacity, cache, version)
    ensures var b := Serve(ca, capacity, cache, version, names, now, mint).batch;
            forall n :: n in b.resources ==> Lookup(b.cache, n).Some? && now < Lookup(b.cache, n).value.expires
  {
    hide WellFormed, Issuable, ServeName;
    if names != [] {
      var k := |names| - 1;
      ServedUnexpired(ca, capacity, cache, version, names[..k], now, mint);
      var before := Serve(ca, capacity, cache, version, names[..k], now, mint).batch;
      var b := ServeName(ca, capacity, before, names[k], now, mint).batch;
      ServeNameSteps(ca, capacity, before, names[k], now, mint);
      if Issuable(names[k]) { NameUnexpired(ca, capacity, before, names[k], now, mint); }
      BatchAccounted(ca, capacity, cache, version, names[..k], now, mint);
      BatchAccounted(ca, capacity, cache, version, names, now, mint);
      forall n | n in b.resources ensures now < Lookup(b.cache, n).value.expires {
        if n != names[k] { assert n in before.resources; }
      }
    }
  }

  lemma NameUnexpired(ca: Certificate, capacity: nat, b: Batch, name: string, now: int, mint: Mint)
    requires ServeName(ca, capacity, b, name, now, mint).Done? && Issuable(name)
    ensures var after := ServeName(ca, capacity, b, name, now, mint).batch;
            Lookup(after.cache, name).Some? && now < Lookup(after.cache, name).value.expires
  {
    hide Issue, CanonicalName, Without;
    var after := ServeName(ca, capacity, b, name, now, mint).batch;
    LookupCons(after.cache[0], after.cache[1..], name);
    assert after.cache == [after.cache[0]] + after.cache[1..];
  }

  lemma HandedOutEntry(start: Cache, served: seq<string>, b: Batch, nonce: nat, resource: Resource)
    requires Accounted(start, served, b)
    requires forall n :: n in b.resources ==> b.resources[n].name == n
    requires resource in Answer(nonce, b).resources
    ensures resource.name in b.resources
    ensures Lookup(b.cache, resource.name).Some? && Lookup(b.cache, resource.name).value.resource == resource
  {
    hide Answer, Lookup, Issuable, Balanced;
  }

  // What is handed out is in the cache afterwards, in time.
  lemma ServedEntry<W>(s: Server<W>, req: Request, now: int, mint: Mint, resource: Resource)
    requires Sound(s) && !BatchFails(s, req, now, mint) && resource in Responding(s, req, now, mint).resources
    ensures var found := Lookup(Update(s, req, now, mint).batch.cache, resource.name);
            found.Some? && found.value.resource == resource && now < found.value.expires
  {
    hide WellFormed, Issuable, Serve, CanonicalName, Answer, Without, Lookup, Accounted, BatchFails, Sound;
    var b := Update(s, req, now, mint).batch;
    Finished(s, req, now, mint);
    ServedUnexpired(s.ca, s.capacity, Entering(s, req), s.version, Sorted(Requested(req)), now, mint);
    HandedOutEntry(Entering(s, req), Sorted(Requested(req)), b, s.nonce + 1, resource);
  }

  // A certificate handed out, fresh or cached, is valid at that moment exactly when its CA has not expired and the
  // clock is no earlier than the minute of tolerance before the issue time; it never outlives the CA.
  lemma ServedLeafValidity<W>(s: Server<W>, req: Request, now: int, mint: Mint, resource: Resource)
    requires Sound(s) && s.ca.notAfter % SECOND == 0 && !BatchFails(s, req, now, mint)
    requires resource in Responding(s, req, now, mint).resources
    ensures var found := Lookup(Update(s, req, now, mint).batch.cache, resource.name);
            && found.Some? && found.value.resource == resource && now < found.value.expires
            && (ValidAt(resource.leaf, now) <==>
                WholeSecond(found.value.expires - TTL - MINUTE) <= now <= s.ca.notAfter)
            && resource.leaf.notAfter <= s.ca.notAfter
  {
    hide WellFormed, WholeSecond, CanonicalName, Issue, ValidAt, Genuine, Lookup, Accounted, BatchFails, Sound, Update,
         Responding, Issuable, Entering;
    var b := Update(s, req, now, mint).batch;
    Finished(s, req, now, mint);
    ServedEntry(s, req, now, mint, resource);
    var entry := Lookup(b.cache, resource.name).value;
    GenuineIn(s.ca, s.capacity, b.cache, b.version, entry);
    EntryWindow(s.ca, b.version, entry, now);
  }

  lemma EntryWindow(ca: Certificate, version: nat, entry: Cached, now: int)
    requires Genuine(ca, version, entry) && now < entry.expires && ca.notAfter % SECOND == 0
    ensures entry.resource.leaf.notAfter <= ca.notAfter
    ensures ValidAt(entry.resource.leaf, now) <==> WholeSecond(entry.expires - TTL - MINUTE) <= now <= ca.notAfter
  {
    hide WholeSecond, Split, ByteLen, ToLower, IPv4Literal, ValidLabel;
    LeafWindow(ca, CanonicalName(entry.name).value, entry.expires - TTL, Some(entry.resource.leaf.key), now);
  }

  lemma GenuineIn(ca: Certificate, capacity: nat, cache: Cache, version: nat, entry: Cached)
    requires WellFormed(ca, capacity, cache, version) && entry in cache
    ensures Genuine(ca, version, entry)
  {
  }
}
