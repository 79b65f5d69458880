/**
  When an unsubscribed name leaves the cache, stated on the subscriptions themselves: as soon as no other one holds
  it, whatever else the request does or fails to do, and for good until it is asked for again.
*/
module SecretIdle {
  import opened Wrappers
  import opened Text
  import opened Leaf
  import opened SecretCache
  import opened SecretAccounts
  import opened SecretProtocol
  import opened SecretStreams
  import opened SecretViews
  import F = SecretForecast
  import R = SecretRuns

  // ---- a batch caches nothing but what it was asked for

  lemma {:induction false} ServeGrows(ca: Certificate, capacity: nat, start: Cache, version: nat, names: seq<string>,
                                      now: int, mint: Mint, n: string)
    requires n !in names && Lookup(start, n).None?
    ensures Lookup(Serve(ca, capacity, start, version, names, now, mint).batch.cache, n).None?
  {
    hide ServeName, Lookup;
    if names != [] {
      var k := |names| - 1;
      ServeGrows(ca, capacity, start, version, names[..k], now, mint, n);
      var before := Serve(ca, capacity, start, version, names[..k], now, mint);
      if before.Done? { NameGrows(ca, capacity, before.batch, names[k], now, mint, n); }
    }
  }

  lemma NameGrows(ca: Certificate, capacity: nat, b: Batch, name: string, now: int, mint: Mint, n: string)
    requires n != name && Lookup(b.cache, n).None?
    ensures Lookup(ServeName(ca, capacity, b, name, now, mint).batch.cache, n).None?
  {
    hide ServeName, Lookup, Without;
    if ServeName(ca, capacity, b, name, now, mint).Done? {
      ServeNameSteps(ca, capacity, b, name, now, mint);
    } else {
      F.StoppedCache(ca, capacity, b, name, now, mint);
      LookupDead(b.cache, {name}, n);
    }
  }

  // ---- one request

  // The request of an open subscription within the name limit reaches the cache.
  predicate WithinLimit<W>(s: Server<W>, w: W, req: Request) {
    w in s.watches &&
    |s.watches[w].names - Elements(req.unsubscribe) + Elements(req.subscribe) + req.initial.Keys| <= 128
  }

  lemma LimitedCache<W>(s: Server<W>, w: W, req: Request, now: int, mint: Mint)
    requires WithinLimit(s, w, req)
    ensures Process(s, w, req, now, mint).server.cache == Update(Subscribe(s, w, req), req, now, mint).batch.cache
  {
    hide Update, Answer, NotifyAll;
    assert s.watches[w].names - Elements(req.unsubscribe) + Requested(req)
           == s.watches[w].names - Elements(req.unsubscribe) + Elements(req.subscribe) + req.initial.Keys;
  }

  // Past the name limit a request is refused and touches neither the cache nor the counters.
  lemma OverLimit<W>(s: Server<W>, w: W, req: Request, now: int, mint: Mint)
    requires w in s.watches && !WithinLimit(s, w, req)
    ensures var p := Process(s, w, req, now, mint);
            && p.status == Some(ResourceExhausted)
            && p.server.cache == s.cache && p.server.version == s.version && p.server.nonce == s.nonce
  {
    hide Update, Answer, NotifyAll;
    assert s.watches[w].names - Elements(req.unsubscribe) + Requested(req)
           == s.watches[w].names - Elements(req.unsubscribe) + Elements(req.subscribe) + req.initial.Keys;
  }

  // What survives the first loop of a request.
  lemma EnteringLookup<W>(s: Server<W>, w: W, req: Request, n: string)
    requires w in s.watches && n !in req.subscribe && n !in req.initial
    ensures Lookup(Entering(Subscribe(s, w, req), req), n) ==
            if n in req.unsubscribe && (forall v :: v in s.watches && v != w ==> n !in s.watches[v].names) then None
            else Lookup(s.cache, n)
  {
    hide Without, Lookup;
    var subscribed := Subscribe(s, w, req);
    LookupDead(s.cache, Idle(subscribed.watches, req.unsubscribe), n);
    assert n !in NamesAfter(s.watches[w].names, req) <==> n !in s.watches[w].names || n in req.unsubscribe;
    if n in req.unsubscribe {
      assert Interested(subscribed.watches, n) <==> exists v :: v in s.watches && v != w && n in s.watches[v].names by {
        if v :| v in s.watches && v != w && n in s.watches[v].names {
          assert v in subscribed.watches && n in subscribed.watches[v].names;
        }
      }
    }
  }

  // An unsubscribed name that no other subscription holds is gone, even if the request ends in an error.
  lemma IdleDropped<W>(s: Server<W>, w: W, req: Request, now: int, mint: Mint, n: string)
    requires WithinLimit(s, w, req) && n in req.unsubscribe && n !in req.subscribe && n !in req.initial
    requires forall v :: v in s.watches && v != w ==> n !in s.watches[v].names
    ensures Lookup(Process(s, w, req, now, mint).server.cache, n).None?
  {
    hide Entering, Lookup, Serve, Process;
    LimitedCache(s, w, req, now, mint);
    EnteringLookup(s, w, req, n);
    var subscribed := Subscribe(s, w, req);
    ServeGrows(s.ca, s.capacity, Entering(subscribed, req), s.version, Sorted(Requested(req)), now, mint, n);
  }

  // A request that only unsubscribes drops exactly the unsubscribed names that no other subscription holds.
  lemma UnsubscribeDrops<W>(s: Server<W>, w: W, req: Request, now: int, mint: Mint, n: string)
    requires WithinLimit(s, w, req) && req.subscribe == [] && req.initial == map[]
    ensures Lookup(Process(s, w, req, now, mint).server.cache, n) ==
            if n in req.unsubscribe && !(exists v :: v in s.watches && v != w && n in s.watches[v].names) then None
            else Lookup(s.cache, n)
    ensures Process(s, w, req, now, mint).status.None?
  {
    hide Entering, Lookup;
    LimitedCache(s, w, req, now, mint);
    EnteringLookup(s, w, req, n);
    assert Requested(req) == {};
    assert Sorted({}) == [];
  }

  // ---- over runs

  // The step asks the server for the name.
  predicate AsksFor<W>(step: Step<W>, n: string) {
    step.Receive? && step.input.Message? && (n in step.input.request.subscribe || n in step.input.request.initial)
  }

  lemma StepGrows<W>(sys: System<W>, step: Step<W>, n: string)
    requires Lookup(sys.server.cache, n).None? && !AsksFor(step, n)
    ensures Lookup(Apply(sys, step).server.cache, n).None?
  {
    hide Apply, HandleRequest, Handled, Lookup, Update;
    if Handled(sys, step) {
      HandledApplies(sys, step);
      HandledStream(sys, step);
      R.RequestCache(sys, step.w, step.input.request, step.now, step.mint);
      if step.w in sys.server.watches {
        UpdateGrows(sys.server, step.w, step.input.request, step.now, step.mint, n);
      }
    } else {
      QuietCache(sys, step);
    }
  }

  lemma UpdateGrows<W>(s: Server<W>, w: W, req: Request, now: int, mint: Mint, n: string)
    requires w in s.watches && Lookup(s.cache, n).None? && n !in req.subscribe && n !in req.initial
    ensures Lookup(Update(Subscribe(s, w, req), req, now, mint).batch.cache, n).None?
  {
    hide Entering, Lookup, Serve;
    EnteringLookup(s, w, req, n);
    ServeGrows(s.ca, s.capacity, Entering(Subscribe(s, w, req), req), s.version, Sorted(Requested(req)), now, mint, n);
  }

  lemma {:induction false} RunGrows<W>(sys: System<W>, steps: seq<Step<W>>, n: string)
    requires Lookup(sys.server.cache, n).None? && forall step :: step in steps ==> !AsksFor(step, n)
    ensures Lookup(Run(sys, steps).server.cache, n).None?
  {
    hide Apply, Lookup;
    if steps != [] {
      var k := |steps| - 1;
      assert steps[k] in steps && forall step :: step in steps[..k] ==> step in steps;
      RunGrows(sys, steps[..k], n);
      StepGrows(Run(sys, steps[..k]), steps[k], n);
    }
  }

  // The step unsubscribes a name that nobody else holds.
  ghost predicate Abandons<W>(sys: System<W>, step: Step<W>, n: string) {
    && Handled(sys, step) && WithinLimit(sys.server, step.w, step.input.request)
    && n in step.input.request.unsubscribe && !AsksFor(step, n)
    && forall v :: v in sys.server.watches && v != step.w ==> n !in sys.server.watches[v].names
  }

  // On every run an abandoned name is out of the cache from then on, until some request asks for it again.
  lemma AbandonedGone<W>(sys: System<W>, step: Step<W>, steps: seq<Step<W>>, n: string)
    requires Abandons(sys, step, n) && forall later :: later in steps ==> !AsksFor(later, n)
    ensures Lookup(Run(Apply(sys, step), steps).server.cache, n).None?
  {
    hide Apply, HandleRequest, Lookup, Process, Run;
    var req := step.input.request;
    HandledApplies(sys, step);
    IdleDropped(sys.server, step.w, req, step.now, step.mint, n);
    R.ProcessedCache(sys, step.w, req, step.now, step.mint);
    RunGrows(Apply(sys, step), steps, n);
  }
}
