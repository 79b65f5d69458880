/**
  Cross-stream coherence: while every issue succeeds, what a healthy client holds is also what is cached, at the same
  versions, whichever stream's request evicted or renewed it.
*/
module SecretCoherence {
  import opened Wrappers
  import opened Text
  import opened Leaf
  import opened SecretCache
  import opened SecretAccounts
  import opened SecretProtocol
  import opened SecretStreams
  import opened SecretViews
  import F = SecretForecast

  ghost predicate CachedName(cache: Cache, names: set<string>, log: seq<Entry>, n: string) {
    n in names ==> Lookup(cache, n).Some? && Held(log, n) == Some(Lookup(cache, n).value.resource.version)
  }

  // Each name is cached, and held at the cached version.
  ghost predicate CachedNames(cache: Cache, names: set<string>, log: seq<Entry>) {
    forall n :: CachedName(cache, names, log, n)
  }

  ghost predicate CachedAt<W>(cache: Cache, watches: map<W, Watch>, streams: map<W, Stream>, w: W)
    requires w in watches && w in streams
  {
    Healthy(streams[w]) ==> CachedNames(cache, watches[w].names, streams[w].log)
  }

  ghost predicate CachedSystem<W>(sys: System<W>) {
    forall w :: w in sys.server.watches && w in sys.streams ==>
                  CachedAt(sys.server.cache, sys.server.watches, sys.streams, w)
  }

  // For every healthy stream: server names are held names, each cached at the held version.
  ghost predicate CoherentSystem<W>(sys: System<W>) { HeldSystem(sys) && CachedSystem(sys) }

  // ---- issue failures, told from the state before the request

  predicate IssueFails<W>(s: Server<W>, w: W, req: Request, now: int, mint: Mint) {
    && w in s.watches
    && var subscribed := Subscribe(s, w, req);
       |subscribed.watches[w].names| <= MAX_REQUEST_NAMES && F.BatchFails(subscribed, req, now, mint)
  }

  // A request is answered with an internal error exactly when some name of its batch must be issued and cannot be.
  lemma InternalIff<W>(s: Server<W>, w: W, req: Request, now: int, mint: Mint)
    requires Sound(s)
    ensures Process(s, w, req, now, mint).status == Some(Internal) <==> IssueFails(s, w, req, now, mint)
  {
    hide Sound, Update, Answer, NotifyAll, F.BatchFails;
    if w in s.watches {
      var subscribed := Subscribe(s, w, req);
      SoundCache(s, subscribed);
      F.FinishesIff(subscribed, req, now, mint);
    }
  }

  // No certificate issue fails in this step.
  predicate IssueSucceeds<W>(sys: System<W>, step: Step<W>) {
    Handled(sys, step) ==> !IssueFails(sys.server, step.w, step.input.request, step.now, step.mint)
  }

  predicate IssuesSucceed<W>(sys: System<W>, steps: seq<Step<W>>) {
    steps == [] ||
    (IssuesSucceed(sys, steps[..|steps| - 1]) && IssueSucceeds(Run(sys, steps[..|steps| - 1]), steps[|steps| - 1]))
  }

  // ---- one request

  // After the broadcast a held name is either told at its cached version or was held at it and not touched.
  lemma BroadcastCached(start: Cache, served: seq<string>, b: Batch, watch: Watch, stream: Stream, response: Response,
                        requested: set<string>, n: string)
    requires response == Answer(response.nonce, b)
    requires forall m :: m in b.resources ==> b.resources[m].name == m
    requires Accounted(start, served, b)
    requires forall m :: m in requested ==> m in served
    requires n in watch.names && n !in requested ==> CachedName(start, watch.names, stream.log, n)
    ensures CachedName(b.cache, Notify(watch, response).names, Record(stream, watch, response).log, n)
  {
    hide Answer, Lookup, Held, Record, Notify, Issuable;
    RecordHeld(watch, stream, response, b, n);
    NotifiedNames(watch, response, b, n);
    assert Lookup(b.cache, n).Some? <==>
           (Lookup(start, n).Some? || (n in served && Issuable(n))) && !(n in b.removed && n !in b.resources);
  }

  lemma SubscribedCached<W>(sys: System<W>, w: W, req: Request, v: W, n: string)
    requires CachedSystem(sys) && w in sys.server.watches && w in sys.streams
    requires v in sys.server.watches && v in sys.streams && Healthy(sys.streams[v])
    ensures var subscribed := Subscribe(sys.server, w, req);
            var requested := if v == w then Requested(req) else {};
            n in subscribed.watches[v].names && n !in requested ==>
              CachedName(Entering(subscribed, req), subscribed.watches[v].names,
                         sys.streams[w := Requesting(sys.streams[w], req)][v].log, n)
  {
    hide Held, Lookup, Without;
    var subscribed := Subscribe(sys.server, w, req);
    assert CachedAt(sys.server.cache, sys.server.watches, sys.streams, v);
    assert CachedName(sys.server.cache, sys.server.watches[v].names, sys.streams[v].log, n);
    UnsubscribedHeld(sys.streams[v].log, Elements(req.unsubscribe), n);
    LookupDead(sys.server.cache, Idle(subscribed.watches, req.unsubscribe), n);
    if n in subscribed.watches[v].names {
      assert Interested(subscribed.watches, n);
    }
  }

  lemma SuccessCached<W>(sys: System<W>, w: W, req: Request, now: int, mint: Mint)
    requires CoherentSystem(sys) && w in sys.server.watches && w in sys.streams
    requires Process(sys.server, w, req, now, mint).status.None?
    ensures CachedSystem(HandleRequest(sys, w, req, now, mint))
  {
    hide Channels, Sound, Update, Answer, Process, Accounted, CachedNames, CachedName, Notify, Record, Without;
    var after := HandleRequest(sys, w, req, now, mint);
    ChannelsSound(sys);
    AnsweredBatch(sys.server, w, req, now, mint);
    var subscribed := Subscribe(sys.server, w, req);
    var b := Update(subscribed, req, now, mint).batch;
    var response := Answer(sys.server.nonce + 1, b);
    var streams := sys.streams[w := Requesting(sys.streams[w], req)];
    forall v | v in after.server.watches && v in after.streams
      ensures CachedAt(after.server.cache, after.server.watches, after.streams, v)
    {
      if Healthy(after.streams[v]) {
        RecordHealthy(streams[v], subscribed.watches[v], response);
        forall n ensures CachedName(b.cache, Notify(subscribed.watches[v], response).names,
                                    Record(streams[v], subscribed.watches[v], response).log, n) {
          SubscribedCached(sys, w, req, v, n);
          BroadcastCached(Entering(subscribed, req), Sorted(Requested(req)), b, subscribed.watches[v], streams[v],
                          response, if v == w then Requested(req) else {}, n);
        }
        CachedByName(b.cache, Notify(subscribed.watches[v], response).names,
                     Record(streams[v], subscribed.watches[v], response).log);
      }
    }
  }

  lemma CachedByName(cache: Cache, names: set<string>, log: seq<Entry>)
    requires forall n :: CachedName(cache, names, log, n)
    ensures CachedNames(cache, names, log)
  {
  }

  // ---- every step

  lemma OneMovesCached<W>(sys: System<W>, after: System<W>, w: W)
    requires CachedSystem(sys) && OneMoves(sys, after, w) && after.server.cache == sys.server.cache
    ensures CachedSystem(after)
  {
    hide CachedNames;
    forall v | v in after.server.watches && v in after.streams
      ensures CachedAt(after.server.cache, after.server.watches, after.streams, v)
    {
      assert CachedAt(sys.server.cache, sys.server.watches, sys.streams, v);
    }
  }

  // A refused request that did not reach an issue left the cache alone.
  lemma RefusedCache<W>(sys: System<W>, w: W, req: Request, now: int, mint: Mint)
    requires w in sys.streams && Process(sys.server, w, req, now, mint).status.Some?
    requires Process(sys.server, w, req, now, mint).status != Some(Internal)
    ensures HandleRequest(sys, w, req, now, mint).server.cache == sys.server.cache
  {
    hide Answer, NotifyAll, RecordAll, Update;
  }

  lemma RequestCached<W>(sys: System<W>, w: W, req: Request, now: int, mint: Mint)
    requires CoherentSystem(sys) && w in sys.streams && !IssueFails(sys.server, w, req, now, mint)
    ensures CachedSystem(HandleRequest(sys, w, req, now, mint))
  {
    hide Channels, CachedSystem, Process, OneMoves, HandleRequest, IssueFails, Sound;
    HeldChannels(sys);
    ChannelsSound(sys);
    InternalIff(sys.server, w, req, now, mint);
    if Process(sys.server, w, req, now, mint).status.None? {
      AnsweredActive(sys.server, w, req, now, mint);
      SuccessCached(sys, w, req, now, mint);
    } else {
      RefusedMoves(sys, w, req, now, mint);
      RefusedCache(sys, w, req, now, mint);
      OneMovesCached(sys, HandleRequest(sys, w, req, now, mint), w);
    }
  }

  lemma OpenCached<W>(sys: System<W>, w: W)
    requires CachedSystem(sys)
    ensures CachedSystem(OpenStream(sys, w))
  {
    var after := OpenStream(sys, w);
    forall v | v in after.server.watches && v in after.streams
      ensures CachedAt(after.server.cache, after.server.watches, after.streams, v)
    {
      if v in sys.streams && v in sys.server.watches {
        assert CachedAt(sys.server.cache, sys.server.watches, sys.streams, v);
      }
    }
  }

  lemma StepCached<W>(sys: System<W>, step: Step<W>)
    requires CoherentSystem(sys) && IssueSucceeds(sys, step)
    ensures CachedSystem(Apply(sys, step))
  {
    hide Channels, CachedSystem, HeldSystem, HandleRequest, OpenStream, OneMoves, Handled, IssueFails;
    HeldChannels(sys);
    if step.Open? {
      OpenCached(sys, step.w);
    } else if Handled(sys, step) {
      HandledApplies(sys, step);
      HandledStream(sys, step);
      RequestCached(sys, step.w, step.input.request, step.now, step.mint);
    } else if step.w in sys.streams && Apply(sys, step) != sys {
      StepMoves(sys, step);
      QuietCache(sys, step);
      OneMovesCached(sys, Apply(sys, step), step.w);
    }
  }

  // Over every run in which no issue fails. That held names are the server's names needs no such condition: see
  // `SecretViews.NamesHeld`.
  lemma {:induction false} CrossStreamCoherence<W>(ca: Certificate, capacity: nat, steps: seq<Step<W>>)
    requires capacity >= 1 && IssuesSucceed(Start<W>(ca, capacity), steps)
    ensures CoherentSystem(Run(Start<W>(ca, capacity), steps))
  {
    hide HeldSystem, CachedSystem, Apply, IssueSucceeds;
    NamesHeld(ca, capacity, steps);
    if steps == [] {
      assert CachedSystem(Start<W>(ca, capacity)) by { StartCached<W>(ca, capacity); }
    } else {
      CrossStreamCoherence(ca, capacity, steps[..|steps| - 1]);
      StepCached(Run(Start<W>(ca, capacity), steps[..|steps| - 1]), steps[|steps| - 1]);
    }
  }

  lemma StartCached<W>(ca: Certificate, capacity: nat)
    ensures CachedSystem(Start<W>(ca, capacity))
  {
  }

  // ---- a healthy client never holds more names than the cache

  lemma {:induction false} NameSetBound(cache: Cache)
    ensures |NameSet(cache)| <= |cache|
  {
    if cache != [] {
      NameSetBound(cache[1..]);
      assert NameSet(cache) == NameSet(cache[1..]) + {cache[0].name} by {
        assert forall entry :: entry in cache <==> entry == cache[0] || entry in cache[1..];
      }
    }
  }

  lemma HeldWithinCapacity<W>(ca: Certificate, capacity: nat, steps: seq<Step<W>>, w: W)
    requires capacity >= 1 && IssuesSucceed(Start<W>(ca, capacity), steps)
    ensures var sys := Run(Start<W>(ca, capacity), steps);
            w in sys.server.watches && w in sys.streams && Healthy(sys.streams[w]) ==>
              |sys.server.watches[w].names| <= capacity
  {
    hide Run, WellFormed, Held, IssuesSucceed;
    CrossStreamCoherence(ca, capacity, steps);
    RunKeepsConfiguration<W>(ca, capacity, steps);
    var sys := Run(Start<W>(ca, capacity), steps);
    if w in sys.server.watches && w in sys.streams && Healthy(sys.streams[w]) {
      assert CachedAt(sys.server.cache, sys.server.watches, sys.streams, w);
      var names := sys.server.watches[w].names;
      forall n | n in names ensures n in NameSet(sys.server.cache) {
        assert CachedName(sys.server.cache, names, sys.streams[w].log, n);
      }
      SubsetSize(names, NameSet(sys.server.cache));
      NameSetBound(sys.server.cache);
      SoundWellFormed(sys.server);
      WellFormedBound(sys.server.ca, sys.server.capacity, sys.server.cache, sys.server.version);
    }
  }

  lemma WellFormedBound(ca: Certificate, capacity: nat, cache: Cache, version: nat)
    requires WellFormed(ca, capacity, cache, version)
    ensures |cache| <= capacity
  {
  }
}
