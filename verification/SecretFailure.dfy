/**
  What an issue failure in mid-batch does to coherence: the entries evicted, expired and renewed before the failure
  are gone or changed, and nobody is told. An example for every starting state, and exactly when nothing is lost.
*/
module SecretFailure {
  import opened Wrappers
  import opened Text
  import opened Leaf
  import opened SecretCache
  import opened SecretAccounts
  import opened SecretProtocol
  import opened SecretStreams
  import opened SecretViews
  import opened SecretCoherence
  import F = SecretForecast

  // ---- the success of every issue is needed

  // A full cache of one entry, a first name whose issue succeeds and a second whose issue fails.
  lemma PairStops(ca: Certificate, cache: Cache, version: nat, first: string, second: string, now: int, mint: Mint)
    requires |cache| == 1 && cache[0].name != first && cache[0].name != second && first != second
    requires Issuable(first) && Issue(ca, CanonicalName(first).value, now, mint(first)).Some?
    requires Issuable(second) && Issue(ca, CanonicalName(second).value, now, mint(second)).None?
    ensures var served := Serve(ca, 1, cache, version, [first, second], now, mint);
            served.Stopped? && Lookup(served.batch.cache, cache[0].name).None?
  {
    hide Issue, CanonicalName, Without, Lookup;
    var entering := Done(Batch(cache, version, map[], {}));
    assert [first, second][..1] == [first] && [first][..0] == [];
    assert Serve(ca, 1, cache, version, [first], now, mint) == ServeName(ca, 1, entering.batch, first, now, mint);
    var one := ServeName(ca, 1, entering.batch, first, now, mint);
    var leaf := Issue(ca, CanonicalName(first).value, now, mint(first)).value;
    var entry := Cached(first, Resource(first, version + 1, leaf), now + TTL);
    assert cache == [cache[0]] + [];
    LookupCons(cache[0], [], first);
    WithoutAbsent(cache, {first});
    WithoutLast(cache);
    assert one.Done? && one.batch.cache == [entry];
    LookupCons(entry, [], second);
    WithoutAbsent([entry], {second});
    LookupCons(entry, [], cache[0].name);
    assert [entry] + [] == [entry];
  }

  // When an issue fails part way, names evicted earlier in the batch are gone without notice to their streams: such a
  // stream stays healthy and still names an entry the cache has lost.
  lemma IssueFailureBreaksCoherence<W>(sys: System<W>, w: W, v: W, first: string, second: string, now: int, mint: Mint)
    requires CoherentSystem(sys) && w != v
    requires w in sys.server.watches && w in sys.streams && v in sys.server.watches && v in sys.streams
    requires Healthy(sys.streams[v]) && sys.server.capacity == 1 && |sys.server.cache| == 1
    requires sys.server.cache[0].name in sys.server.watches[v].names
    requires Less(first, second) && sys.server.cache[0].name !in {first, second}
    requires |sys.server.watches[w].names + {first, second}| <= MAX_REQUEST_NAMES
    requires Issuable(first) && Issue(sys.server.ca, CanonicalName(first).value, now, mint(first)).Some?
    requires Issuable(second) && Issue(sys.server.ca, CanonicalName(second).value, now, mint(second)).None?
    ensures var after := HandleRequest(sys, w, Request([first, second], map[], []), now, mint);
            && !CoherentSystem(after)
            && v in after.streams && Healthy(after.streams[v]) && v in after.server.watches
            && sys.server.cache[0].name in after.server.watches[v].names
            && Lookup(after.server.cache, sys.server.cache[0].name).None?
  {
    hide Issue, CanonicalName, Issuable, Channels, Serve, Lookup, Held;
    var req := Request([first, second], map[], []);
    var held := sys.server.cache[0].name;
    LessIrreflexive(first);
    SortedPair(first, second);
    assert Requested(req) == {first, second};
    var subscribed := Subscribe(sys.server, w, req);
    assert subscribed.watches[w].names == sys.server.watches[w].names + {first, second};
    assert Idle(subscribed.watches, []) == {};
    WithoutAbsent(sys.server.cache, {});
    PairStops(sys.server.ca, sys.server.cache, sys.server.version, first, second, now, mint);
    var after := HandleRequest(sys, w, req, now, mint);
    assert !CachedName(after.server.cache, after.server.watches[v].names, after.streams[v].log, held);
    assert !CachedAt(after.server.cache, after.server.watches, after.streams, v);
  }

  // ---- exactly when a failure does no harm

  // The entry of a name is still cached, at the version it had.
  ghost predicate KeptName(before: Cache, after: Cache, n: string) {
    && Lookup(before, n).Some? && Lookup(after, n).Some?
    && Lookup(after, n).value.resource.version == Lookup(before, n).value.resource.version
  }

  lemma CachedIffKept(before: Cache, after: Cache, names: set<string>, log: seq<Entry>)
    requires CachedNames(before, names, log)
    ensures CachedNames(after, names, log) <==> forall n :: n in names ==> KeptName(before, after, n)
  {
    hide Lookup, Held;
    forall n ensures n in names ==> (CachedName(after, names, log, n) <==> KeptName(before, after, n)) {
      assert CachedName(before, names, log, n);
    }
    if forall n :: n in names ==> KeptName(before, after, n) {
      assert forall n :: CachedName(after, names, log, n);
    }
  }

  lemma InternalCache<W>(s: Server<W>, w: W, req: Request, now: int, mint: Mint)
    requires w in s.watches && Process(s, w, req, now, mint).status == Some(Internal)
    ensures Process(s, w, req, now, mint).server.cache == Update(Subscribe(s, w, req), req, now, mint).batch.cache
  {
    hide Update;
  }

  lemma IssueFailsActive<W>(s: Server<W>, w: W, req: Request, now: int, mint: Mint)
    requires IssueFails(s, w, req, now, mint)
    ensures w in s.watches && F.BatchFails(Subscribe(s, w, req), req, now, mint)
  {
  }

  // The part of the batch before the first failure leaves the name's entry as it is.
  ghost predicate SparedBy<W>(s: Server<W>, req: Request, now: int, mint: Mint, n: string)
    requires F.BatchFails(s, req, now, mint)
  {
    var names := Sorted(Requested(req));
    var k := F.FirstFailure(s.ca, s.capacity, Entering(s, req), names, now, mint);
    F.Spared(s.capacity, Entering(s, req), names[..k], names[k], now, n)
  }

  // No issue fails, or none of what is lost is a name that another healthy stream holds.
  ghost predicate Harmless<W>(sys: System<W>, w: W, req: Request, now: int, mint: Mint) {
    IssueFails(sys.server, w, req, now, mint) ==>
      forall v, n :: (&& v in sys.server.watches && v in sys.streams && v != w && Healthy(sys.streams[v])
                      && n in sys.server.watches[v].names) ==>
                       SparedBy(Subscribe(sys.server, w, req), req, now, mint, n)
  }

  lemma HeldVersion(ca: Certificate, capacity: nat, cache: Cache, version: nat, n: string)
    requires WellFormed(ca, capacity, cache, version) && Lookup(cache, n).Some?
    ensures Lookup(cache, n).value.resource.version <= version
  {
    hide Issuable, Issue, CanonicalName;
    assert Genuine(ca, version, Lookup(cache, n).value);
  }

  // The fate of a name another healthy stream holds.
  lemma HeldFate<W>(sys: System<W>, w: W, req: Request, now: int, mint: Mint, v: W, n: string)
    requires CoherentSystem(sys) && w in sys.server.watches && w in sys.streams
    requires F.BatchFails(Subscribe(sys.server, w, req), req, now, mint)
    requires v in sys.server.watches && v in sys.streams && v != w && Healthy(sys.streams[v])
    requires n in sys.server.watches[v].names
    ensures SparedBy(Subscribe(sys.server, w, req), req, now, mint, n) <==>
            KeptName(sys.server.cache, Update(Subscribe(sys.server, w, req), req, now, mint).batch.cache, n)
  {
    hide Channels, WellFormed, Held, Serve, Lookup, Without, F.Spared, F.Fails, F.FirstFailure;
    var s := Subscribe(sys.server, w, req);
    assert CachedAt(sys.server.cache, sys.server.watches, sys.streams, v);
    assert CachedName(sys.server.cache, sys.server.watches[v].names, sys.streams[v].log, n);
    assert Interested(s.watches, n) by { assert n in s.watches[v].names; }
    LookupDead(s.cache, Idle(s.watches, req.unsubscribe), n);
    ChannelsSound(sys);
    SoundWellFormed(sys.server);
    SoundCache(sys.server, s);
    F.BatchReady(s, req);
    F.StoppedEntry(s.ca, s.capacity, Entering(s, req), s.version, Sorted(Requested(req)), now, mint, n);
    HeldVersion(s.ca, s.capacity, s.cache, s.version, n);
  }

  // A failed issue leaves another stream coherent exactly when each of its names is spared.
  lemma FailureCachedAt<W>(sys: System<W>, w: W, req: Request, now: int, mint: Mint, v: W)
    requires CoherentSystem(sys) && w in sys.streams && IssueFails(sys.server, w, req, now, mint)
    requires F.BatchFails(Subscribe(sys.server, w, req), req, now, mint)
    requires v in sys.server.watches && v in sys.streams && v != w && Healthy(sys.streams[v])
    ensures var after := HandleRequest(sys, w, req, now, mint);
            v in after.server.watches && v in after.streams
            && (CachedAt(after.server.cache, after.server.watches, after.streams, v) <==>
                forall n :: n in sys.server.watches[v].names ==>
                              SparedBy(Subscribe(sys.server, w, req), req, now, mint, n))
  {
    hide Channels, CachedNames, KeptName, SparedBy, Process, Update, Sound, HeldSystem, IssueFails, F.BatchFails;
    assert Channels(sys) by { HeldChannels(sys); }
    ChannelsSound(sys);
    InternalIff(sys.server, w, req, now, mint);
    IssueFailsActive(sys.server, w, req, now, mint);
    InternalCache(sys.server, w, req, now, mint);
    ProcessShape(sys.server, w, req, now, mint);
    var after := HandleRequest(sys, w, req, now, mint);
    assert CachedAt(sys.server.cache, sys.server.watches, sys.streams, v);
    CachedIffKept(sys.server.cache, after.server.cache, sys.server.watches[v].names, sys.streams[v].log);
    forall n | n in sys.server.watches[v].names
      ensures SparedBy(Subscribe(sys.server, w, req), req, now, mint, n) <==>
              KeptName(sys.server.cache, after.server.cache, n)
    {
      HeldFate(sys, w, req, now, mint, v, n);
    }
  }

  // A failed issue fails the stream that asked, and leaves every other one as it was.
  lemma FailureOthers<W>(sys: System<W>, w: W, req: Request, now: int, mint: Mint)
    requires Sound(sys.server) && w in sys.streams && IssueFails(sys.server, w, req, now, mint)
    ensures var after := HandleRequest(sys, w, req, now, mint);
            && after.server.watches.Keys == sys.server.watches.Keys && after.streams.Keys == sys.streams.Keys
            && !Healthy(after.streams[w])
            && forall v :: v in sys.streams && v != w ==> after.streams[v] == sys.streams[v]
  {
    hide Process, Update, Sound, IssueFails, F.BatchFails, Answer, NotifyAll;
    InternalIff(sys.server, w, req, now, mint);
    IssueFailsActive(sys.server, w, req, now, mint);
    ProcessShape(sys.server, w, req, now, mint);
  }

  // Coherence survives a request, whatever fails, if and only if the request is harmless: when an issue fails, every
  // name another healthy stream holds has stayed among the most recently used ones up to the failure and, if that part
  // of the batch asks for it, has an entry in time.
  lemma CoherentIffHarmless<W>(sys: System<W>, w: W, req: Request, now: int, mint: Mint)
    requires CoherentSystem(sys) && w in sys.streams
    ensures CoherentSystem(HandleRequest(sys, w, req, now, mint)) <==> Harmless(sys, w, req, now, mint)
  {
    hide Channels, HeldSystem, IssueFails, F.BatchFails, SparedBy, HandleRequest, CachedAt, Sound;
    RequestHeld(sys, w, req, now, mint);
    if !IssueFails(sys.server, w, req, now, mint) {
      RequestCached(sys, w, req, now, mint);
    } else {
      assert Channels(sys) by { HeldChannels(sys); }
      ChannelsSound(sys);
      IssueFailsActive(sys.server, w, req, now, mint);
      FailureOthers(sys, w, req, now, mint);
      var after := HandleRequest(sys, w, req, now, mint);
      forall v | v in sys.server.watches && v in sys.streams && v != w && Healthy(sys.streams[v])
        ensures CachedAt(after.server.cache, after.server.watches, after.streams, v) <==>
                forall n :: n in sys.server.watches[v].names ==>
                              SparedBy(Subscribe(sys.server, w, req), req, now, mint, n)
      {
        FailureCachedAt(sys, w, req, now, mint, v);
      }
      forall v | v in after.server.watches && v in after.streams && (v == w || !Healthy(sys.streams[v]))
        ensures CachedAt(after.server.cache, after.server.watches, after.streams, v)
      {
        UnhealthyCached(after, v);
      }
    }
  }

  lemma UnhealthyCached<W>(sys: System<W>, v: W)
    requires v in sys.server.watches && v in sys.streams && !Healthy(sys.streams[v])
    ensures CachedAt(sys.server.cache, sys.server.watches, sys.streams, v)
  {
  }

  // ---- over runs

  ghost predicate HarmlessStep<W>(sys: System<W>, step: Step<W>) {
    Handled(sys, step) ==> Harmless(sys, step.w, step.input.request, step.now, step.mint)
  }

  ghost predicate HarmlessRun<W>(sys: System<W>, steps: seq<Step<W>>) {
    steps == [] ||
    (HarmlessRun(sys, steps[..|steps| - 1]) && HarmlessStep(Run(sys, steps[..|steps| - 1]), steps[|steps| - 1]))
  }

  lemma StepCoherentIff<W>(sys: System<W>, step: Step<W>)
    requires CoherentSystem(sys)
    ensures CoherentSystem(Apply(sys, step)) <==> HarmlessStep(sys, step)
  {
    hide CoherentSystem, Harmless, Handled, IssueFails, Apply, HandleRequest;
    if Handled(sys, step) {
      HandledApplies(sys, step);
      HandledStream(sys, step);
      CoherentIffHarmless(sys, step.w, step.input.request, step.now, step.mint);
    } else {
      CoherentParts(sys);
      StepHeld(sys, step);
      StepCached(sys, step);
      PartsCoherent(Apply(sys, step));
    }
  }

  lemma CoherentParts<W>(sys: System<W>)
    requires CoherentSystem(sys)
    ensures HeldSystem(sys) && CachedSystem(sys)
  {
  }

  lemma PartsCoherent<W>(sys: System<W>)
    requires HeldSystem(sys) && CachedSystem(sys)
    ensures CoherentSystem(sys)
  {
  }

  // A run is coherent at every point if and only if each of its steps is harmless.
  lemma {:induction false} RunCoherentIff<W>(ca: Certificate, capacity: nat, steps: seq<Step<W>>)
    requires capacity >= 1
    ensures (forall i :: 0 <= i <= |steps| ==> CoherentSystem(Run(Start<W>(ca, capacity), steps[..i]))) <==>
            HarmlessRun(Start<W>(ca, capacity), steps)
  {
    hide CoherentSystem, HarmlessStep, Apply;
    var sys := Start<W>(ca, capacity);
    if steps == [] {
      CrossStreamCoherence<W>(ca, capacity, []);
      assert Run(sys, []) == sys;
      assert forall i :: 0 <= i <= |steps| ==> steps[..i] == [];
    } else {
      var m := |steps| - 1;
      RunCoherentIff(ca, capacity, steps[..m]);
      assert forall i :: 0 <= i <= m ==> steps[..m][..i] == steps[..i];
      assert steps[..m + 1] == steps;
      if CoherentSystem(Run(sys, steps[..m])) { StepCoherentIff(Run(sys, steps[..m]), steps[m]); }
    }
  }

  // ---- a run that loses coherence

  lemma LetterIssuable(c: char)
    requires 'a' <= c <= 'z'
    ensures CanonicalName([c]) == Ok([c]) && Issuable([c])
  {
    assert ByteLen([c]) == 1;
    assert ToLower([c]) == [c];
    assert Split([c], '.') == [[c]] by {
      assert [c][1..] == [] && Split([], '.') == [[]] && [c] + [] == [c];
    }
    assert c in [c];
  }

  const HELD_HOST: string := "c"
  const FIRST_HOST: string := "a"
  const SECOND_HOST: string := "b"

  function FirstOnly(): Mint { n => if n == SECOND_HOST then None else Some(0) }

  // One stream asks for a certificate; another then asks for two, and the second issue fails.
  function Asking(now: int): seq<Step<nat>> {
    [Open(0), Open(1), Receive(0, Message(true, Request([HELD_HOST], map[], [])), now, FirstOnly())]
  }

  function Breaking(now: int): seq<Step<nat>> {
    Asking(now) + [Receive(1, Message(true, Request([FIRST_HOST, SECOND_HOST], map[], [])), now, FirstOnly())]
  }

  lemma AskingOpens(ca: Certificate, now: int)
    ensures Run(Start<nat>(ca, 1), Asking(now)[..2]) ==
            Opened(ca)
  {
    var sys := Start<nat>(ca, 1);
    assert Asking(now)[..2][..1] == Asking(now)[..1] && Asking(now)[..1][..0] == [];
    assert Run(sys, []) == sys;
    assert Run(sys, Asking(now)[..1]) == OpenStream(sys, 0);
    assert Run(sys, Asking(now)[..2]) == OpenStream(OpenStream(sys, 0), 1);
    assert map[0 := NewWatch()].Keys == {0};
  }

  lemma OneServed(ca: Certificate, now: int)
    requires ca.notBefore <= now && now + MINUTE < ca.notAfter
    ensures var served := Serve(ca, 1, [], 0, [HELD_HOST], now, FirstOnly());
            served.Done? && |served.batch.cache| == 1 && served.batch.cache[0].name == HELD_HOST
            && served.batch.resources.Keys == {HELD_HOST} && served.batch.resources[HELD_HOST].name == HELD_HOST
            && served.batch.removed == {}
  {
    hide CanonicalName;
    LetterIssuable('c');
    assert [HELD_HOST][..0] == [];
    assert Serve(ca, 1, [], 0, [], now, FirstOnly()) == Done(Batch([], 0, map[], {}));
  }

  function Opened(ca: Certificate): System<nat> {
    System(Server(ca, 1, [], 0, 0, map[0 := NewWatch(), 1 := NewWatch()]), map[0 := NewStream(), 1 := NewStream()])
  }

  lemma NothingRemoved(w: Watch, nonce: nat, b: Batch)
    requires b.removed == {}
    ensures Notify(w, Answer(nonce, b)).names == w.names
  {
    hide Answer;
    assert Elements(Filter(w.names, Answer(nonce, b)).removed) == {};
  }

  lemma AskingUpdates(ca: Certificate, now: int)
    requires ca.notBefore <= now && now + MINUTE < ca.notAfter
    ensures var update := Update(Subscribe(Opened(ca).server, 0, Request([HELD_HOST], map[], [])),
                                 Request([HELD_HOST], map[], []), now, FirstOnly());
            update.Done? && update.batch.removed == {}
            && |update.batch.cache| == 1 && update.batch.cache[0].name == HELD_HOST
  {
    hide CanonicalName, Issue, Serve, Sorted;
    OneServed(ca, now);
    SortedOne(HELD_HOST);
    var req := Request([HELD_HOST], map[], []);
    assert Requested(req) == {HELD_HOST};
    assert Idle(Subscribe(Opened(ca).server, 0, req).watches, []) == {};
  }

  lemma AskingAnswered(ca: Certificate, now: int)
    requires ca.notBefore <= now && now + MINUTE < ca.notAfter
    ensures var after := HandleRequest(Opened(ca), 0, Request([HELD_HOST], map[], []), now, FirstOnly());
            && Process(Opened(ca).server, 0, Request([HELD_HOST], map[], []), now, FirstOnly()).status.None?
            && after.server.ca == ca && after.server.capacity == 1
            && after.server.watches.Keys == {0, 1} && after.streams.Keys == {0, 1}
            && |after.server.cache| == 1 && after.server.cache[0].name == HELD_HOST
            && Healthy(after.streams[0]) && HELD_HOST in after.server.watches[0].names
            && after.streams[1].receiving && after.server.watches[1].names == {}
  {
    hide Update, Answer, Notify, Record;
    AskingUpdates(ca, now);
    var req := Request([HELD_HOST], map[], []);
    var subscribed := Subscribe(Opened(ca).server, 0, req);
    assert subscribed.watches[0].names == {HELD_HOST};
    var b := Update(subscribed, req, now, FirstOnly()).batch;
    NothingRemoved(subscribed.watches[0], 1, b);
    NothingRemoved(subscribed.watches[1], 1, b);
    RoomForOne(Requesting(NewStream(), req), subscribed.watches[0], Answer(1, b));
    RoomForOne(NewStream(), subscribed.watches[1], Answer(1, b));
  }

  lemma RoomForOne(stream: Stream, w: Watch, response: Response)
    requires |w.updates| < QUEUE
    ensures var after := Record(stream, w, response);
            Healthy(after) == Healthy(stream) && after.receiving == stream.receiving
  {
  }

  // The loss is real: whenever the CA can issue at all there is a run, every step of it allowed, after which a healthy
  // stream still names a certificate that the cache has lost and nobody was told about.
  lemma CoherenceLost(ca: Certificate, now: int)
    requires ca.notBefore <= now && now + MINUTE < ca.notAfter
    ensures var end := Run(Start<nat>(ca, 1), Breaking(now));
            && !CoherentSystem(end)
            && 0 in end.streams && Healthy(end.streams[0])
            && 0 in end.server.watches && HELD_HOST in end.server.watches[0].names
            && Lookup(end.server.cache, HELD_HOST).None?
  {
    hide Apply, HandleRequest, CanonicalName, Issue, IssueSucceeds, CoherentSystem, Lookup;
    var asked := Run(Start<nat>(ca, 1), Asking(now));
    AskingRuns(ca, now);
    AskingSucceeds(ca, now);
    AskingAnswered(ca, now);
    CrossStreamCoherence(ca, 1, Asking(now));
    LetterIssuable('a');
    LetterIssuable('b');
    IssuesOnly(ca, now);
    assert asked.server.watches[1].names + {FIRST_HOST, SECOND_HOST} == {FIRST_HOST, SECOND_HOST};
    IssueFailureBreaksCoherence(asked, 1, 0, FIRST_HOST, SECOND_HOST, now, FirstOnly());
    BreakingRuns(ca, now);
  }

  lemma AskingRuns(ca: Certificate, now: int)
    ensures Run(Start<nat>(ca, 1), Asking(now))
            == HandleRequest(Opened(ca), 0, Request([HELD_HOST], map[], []), now, FirstOnly())
  {
    hide HandleRequest;
    AskingOpens(ca, now);
  }

  lemma AskingSucceeds(ca: Certificate, now: int)
    requires ca.notBefore <= now && now + MINUTE < ca.notAfter
    ensures IssuesSucceed(Start<nat>(ca, 1), Asking(now))
  {
    hide HandleRequest, Process, Apply, IssueFails;
    var sys, steps := Start<nat>(ca, 1), Asking(now);
    AskingOpens(ca, now);
    AskingAnswered(ca, now);
    NoSilentLoss<nat>(ca, 1, steps[..2]);
    ChannelsSound(Opened(ca));
    InternalIff(Opened(ca).server, 0, Request([HELD_HOST], map[], []), now, FirstOnly());
    assert steps[..2][..1] == steps[..1] && steps[..1][..0] == [];
    assert IssuesSucceed(sys, []);
    assert IssuesSucceed(sys, steps[..1]);
    assert IssuesSucceed(sys, steps[..2]);
  }

  lemma IssuesOnly(ca: Certificate, now: int)
    requires ca.notBefore <= now && now + MINUTE < ca.notAfter
    ensures Issue(ca, FIRST_HOST, now, FirstOnly()(FIRST_HOST)).Some?
    ensures Issue(ca, SECOND_HOST, now, FirstOnly()(SECOND_HOST)).None?
  {
  }

  lemma BreakingRuns(ca: Certificate, now: int)
    requires var asked := Run(Start<nat>(ca, 1), Asking(now)); 1 in asked.streams && asked.streams[1].receiving
    ensures Run(Start<nat>(ca, 1), Breaking(now)) ==
            HandleRequest(Run(Start<nat>(ca, 1), Asking(now)), 1, Request([FIRST_HOST, SECOND_HOST], map[], []), now,
                          FirstOnly())
  {
    hide HandleRequest;
    assert Breaking(now)[..|Breaking(now)| - 1] == Asking(now);
  }
}
