/**
  What a client holds, by name: on every run, whatever fails, the names the server keeps for a healthy stream are the
  names its client holds after applying everything it was sent and its own unsubscribes.
*/
module SecretViews {
  import opened Wrappers
  import opened Text
  import opened Leaf
  import opened SecretCache
  import opened SecretAccounts
  import opened SecretProtocol
  import opened SecretStreams

  ghost predicate HeldName(names: set<string>, log: seq<Entry>, n: string) {
    n in names <==> Held(log, n).Some?
  }

  ghost predicate HeldNames(names: set<string>, log: seq<Entry>) {
    forall n :: HeldName(names, log, n)
  }

  ghost predicate HeldAt<W>(watches: map<W, Watch>, streams: map<W, Stream>, w: W)
    requires w in watches && w in streams
  {
    Healthy(streams[w]) ==> HeldNames(watches[w].names, streams[w].log)
  }

  ghost predicate HeldSystem<W>(sys: System<W>) {
    && Channels(sys)
    && forall w :: w in sys.server.watches && w in sys.streams ==> HeldAt(sys.server.watches, sys.streams, w)
  }

  // ---- one event

  lemma {:induction false} DeliveredIs(resources: seq<Resource>, known: map<string, Resource>, n: string)
    requires forall x :: x in resources ==> x.name in known && known[x.name] == x
    ensures DeliveredVersion(resources, n) ==
            if n in known && known[n] in resources && known[n].name == n then Some(known[n].version) else None
  {
    if resources != [] {
      var k := |resources| - 1;
      DeliveredIs(resources[..k], known, n);
      assert resources == resources[..k] + [resources[k]];
      assert resources[k] in resources;
    }
  }

  // What an event for `names` does to the view of one name.
  lemma EventHeld(names: set<string>, response: Response, b: Batch, log: seq<Entry>, n: string)
    requires response == Answer(response.nonce, b)
    requires forall m :: m in b.resources ==> b.resources[m].name == m
    ensures Held(log + [Emitted(Filter(names, response))], n) ==
            if n in names && n in b.removed then None
            else if n in names && n in b.resources then Some(b.resources[n].version)
            else Held(log, n)
  {
    hide Answer;
    var event := Filter(names, response);
    var entry := Emitted(event);
    assert (log + [entry])[..|log|] == log;
    forall x | x in event.resources ensures x.name in b.resources && b.resources[x.name] == x {
      var m :| m in b.resources && b.resources[m] == x;
    }
    DeliveredIs(event.resources, b.resources, n);
  }

  lemma RecordHeld(watch: Watch, stream: Stream, response: Response, b: Batch, n: string)
    requires response == Answer(response.nonce, b)
    requires forall m :: m in b.resources ==> b.resources[m].name == m
    ensures Held(Record(stream, watch, response).log, n) ==
            if n in watch.names && n in b.removed then None
            else if n in watch.names && n in b.resources then Some(b.resources[n].version)
            else Held(stream.log, n)
  {
    hide Answer;
    var event := Filter(watch.names, response);
    EventHeld(watch.names, response, b, stream.log, n);
    assert n in watch.names && n in b.resources ==> b.resources[n] in event.resources;
    assert n in watch.names && n in b.removed ==> n in event.removed;
  }

  lemma NotifiedNames(watch: Watch, response: Response, b: Batch, n: string)
    requires response == Answer(response.nonce, b)
    ensures n in Notify(watch, response).names <==> n in watch.names && n !in b.removed
  {
    hide Answer;
  }

  lemma UnsubscribedHeld(log: seq<Entry>, dropped: set<string>, n: string)
    ensures Held(log + [Unsubscribed(dropped)], n) == if n in dropped then None else Held(log, n)
  {
    assert (log + [Unsubscribed(dropped)])[..|log|] == log;
  }

  // Every requested name is answered, so what a subscription adds is either told or taken back.
  lemma BroadcastHeld(start: Cache, served: seq<string>, b: Batch, watch: Watch, stream: Stream, response: Response,
                      requested: set<string>, n: string)
    requires response == Answer(response.nonce, b)
    requires forall m :: m in b.resources ==> b.resources[m].name == m
    requires Accounted(start, served, b)
    requires forall m :: m in requested ==> m in served
    requires n in watch.names <==> n in requested || Held(stream.log, n).Some?
    ensures HeldName(Notify(watch, response).names, Record(stream, watch, response).log, n)
  {
    hide Answer, Lookup, Held, Record, Notify, Issuable;
    RecordHeld(watch, stream, response, b, n);
    NotifiedNames(watch, response, b, n);
  }

  // ---- one request

  // Just after the subscription is updated every healthy stream is waiting for what this request adds, and holds the
  // rest of its names.
  lemma SubscribedHeld<W>(sys: System<W>, w: W, req: Request, v: W, n: string)
    requires HeldSystem(sys) && w in sys.server.watches && w in sys.streams
    requires v in sys.server.watches && v in sys.streams && Healthy(sys.streams[v])
    ensures var requested := if v == w then Requested(req) else {};
            n in Subscribe(sys.server, w, req).watches[v].names <==>
            n in requested || Held(sys.streams[w := Requesting(sys.streams[w], req)][v].log, n).Some?
  {
    hide Channels, Held;
    assert HeldAt(sys.server.watches, sys.streams, v);
    assert HeldName(sys.server.watches[v].names, sys.streams[v].log, n);
    UnsubscribedHeld(sys.streams[v].log, Elements(req.unsubscribe), n);
  }

  lemma RecordHealthy(stream: Stream, watch: Watch, response: Response)
    requires Healthy(Record(stream, watch, response))
    ensures Healthy(stream)
  {
  }

  lemma SoundCache<W>(s: Server<W>, t: Server<W>)
    requires Sound(s) && t.ca == s.ca && t.capacity == s.capacity && t.cache == s.cache && t.version == s.version
    ensures Sound(t)
  {
  }

  lemma SoundWellFormed<W>(s: Server<W>)
    requires Sound(s)
    ensures s.capacity >= 1 && WellFormed(s.ca, s.capacity, s.cache, s.version)
  {
  }

  lemma AnsweredActive<W>(s: Server<W>, w: W, req: Request, now: int, mint: Mint)
    requires Process(s, w, req, now, mint).status.None?
    ensures w in s.watches
  {
  }

  // What a request that is answered tells the other proofs about its batch.
  lemma AnsweredBatch<W>(s: Server<W>, w: W, req: Request, now: int, mint: Mint)
    requires Sound(s) && w in s.watches && Process(s, w, req, now, mint).status.None?
    ensures var subscribed := Subscribe(s, w, req);
            var update := Update(subscribed, req, now, mint);
            && update.Done?
            && Accounted(Entering(subscribed, req), Sorted(Requested(req)), update.batch)
            && (forall m :: m in update.batch.resources ==> update.batch.resources[m].name == m)
            && Process(s, w, req, now, mint).server ==
               subscribed.(cache := update.batch.cache, version := update.batch.version, nonce := s.nonce + 1,
                           watches := NotifyAll(subscribed.watches, Answer(s.nonce + 1, update.batch)))
  {
    hide Sound, WellFormed, Update, Answer, Process, Accounted, NotifyAll, Without;
    ProcessShape(s, w, req, now, mint);
    ProcessSound(s, w, req, now, mint);
    var subscribed := Subscribe(s, w, req);
    SoundCache(s, subscribed);
    UpdateAccounted(subscribed, req, now, mint);
    SoundWellFormed(Process(s, w, req, now, mint).server);
    HandedOutNamed(s.ca, s.capacity, Entering(subscribed, req), Sorted(Requested(req)),
                   Update(subscribed, req, now, mint).batch);
  }

  lemma SuccessHeld<W>(sys: System<W>, w: W, req: Request, now: int, mint: Mint)
    requires HeldSystem(sys) && w in sys.server.watches && w in sys.streams
    requires Process(sys.server, w, req, now, mint).status.None?
    ensures HeldSystem(HandleRequest(sys, w, req, now, mint))
  {
    hide Channels, Sound, Update, Answer, Process, Accounted, HeldNames, HeldName, Notify, Record, Without;
    var after := HandleRequest(sys, w, req, now, mint);
    RequestChannels(sys, w, req, now, mint);
    ChannelsSound(sys);
    AnsweredBatch(sys.server, w, req, now, mint);
    var subscribed := Subscribe(sys.server, w, req);
    var b := Update(subscribed, req, now, mint).batch;
    var response := Answer(sys.server.nonce + 1, b);
    var start := Entering(subscribed, req);
    var streams := sys.streams[w := Requesting(sys.streams[w], req)];
    forall v | v in after.server.watches && v in after.streams ensures HeldAt(after.server.watches, after.streams, v) {
      if Healthy(after.streams[v]) {
        RecordHealthy(streams[v], subscribed.watches[v], response);
        forall n ensures HeldName(Notify(subscribed.watches[v], response).names,
                                  Record(streams[v], subscribed.watches[v], response).log, n) {
          SubscribedHeld(sys, w, req, v, n);
          BroadcastHeld(start, Sorted(Requested(req)), b, subscribed.watches[v], streams[v], response,
                        if v == w then Requested(req) else {}, n);
        }
        HeldByName(Notify(subscribed.watches[v], response).names,
                   Record(streams[v], subscribed.watches[v], response).log);
      }
    }
  }

  lemma HeldByName(names: set<string>, log: seq<Entry>)
    requires forall n :: HeldName(names, log, n)
    ensures HeldNames(names, log)
  {
  }

  // ---- every step

  // At most one stream moves, and it ends unhealthy or keeps names and record.
  ghost predicate OneMoves<W>(sys: System<W>, after: System<W>, w: W) {
    && after.server.watches.Keys <= sys.server.watches.Keys && after.streams.Keys == sys.streams.Keys
    && (forall v :: v in after.server.watches && v != w ==> after.server.watches[v] == sys.server.watches[v])
    && (forall v :: v in sys.streams && v != w ==> after.streams[v] == sys.streams[v])
    && (w in after.streams ==>
          || !Healthy(after.streams[w])
          || (&& w in sys.server.watches && w in after.server.watches && Healthy(sys.streams[w])
              && after.server.watches[w].names == sys.server.watches[w].names
              && after.streams[w].log == sys.streams[w].log))
  }

  lemma OneMovesHeld<W>(sys: System<W>, after: System<W>, w: W)
    requires HeldSystem(sys) && Channels(after) && OneMoves(sys, after, w)
    ensures HeldSystem(after)
  {
    hide Channels, HeldNames;
    forall v | v in after.server.watches && v in after.streams ensures HeldAt(after.server.watches, after.streams, v) {
      assert HeldAt(sys.server.watches, sys.streams, v);
    }
  }

  // A request that is refused or fails moves only its own stream.
  lemma RefusedMoves<W>(sys: System<W>, w: W, req: Request, now: int, mint: Mint)
    requires Channels(sys) && w in sys.streams
    requires w in sys.server.watches ==> Process(sys.server, w, req, now, mint).status.Some?
    ensures OneMoves(sys, HandleRequest(sys, w, req, now, mint), w)
  {
    hide Channels, Answer, NotifyAll, RecordAll, Update;
    if w in sys.server.watches { ProcessShape(sys.server, w, req, now, mint); }
  }

  // Every other step, too.
  lemma StepMoves<W>(sys: System<W>, step: Step<W>)
    requires Channels(sys) && !step.Open? && step.w in sys.streams && Apply(sys, step) != sys && !Handled(sys, step)
    ensures OneMoves(sys, Apply(sys, step), step.w)
  {
    hide Channels, HandleRequest;
  }

  // The step is a request that reaches the server.
  predicate Handled<W>(sys: System<W>, step: Step<W>) {
    && step.Receive? && step.w in sys.streams && sys.streams[step.w].receiving
    && step.input.Message? && step.input.secretType && !Oversized(step.input.request)
  }

  lemma HandledApplies<W>(sys: System<W>, step: Step<W>)
    requires Handled(sys, step)
    ensures Apply(sys, step) == HandleRequest(sys, step.w, step.input.request, step.now, step.mint)
  {
    hide HandleRequest;
  }

  // Only a request that reaches the server moves the cache.
  lemma QuietCache<W>(sys: System<W>, step: Step<W>)
    requires !Handled(sys, step)
    ensures Apply(sys, step).server.cache == sys.server.cache
  {
    hide HandleRequest;
  }

  lemma RequestHeld<W>(sys: System<W>, w: W, req: Request, now: int, mint: Mint)
    requires HeldSystem(sys) && w in sys.streams
    ensures HeldSystem(HandleRequest(sys, w, req, now, mint))
  {
    hide Channels, HeldSystem, Process, OneMoves, HandleRequest;
    HeldChannels(sys);
    RequestChannels(sys, w, req, now, mint);
    if w in sys.server.watches && Process(sys.server, w, req, now, mint).status.None? {
      SuccessHeld(sys, w, req, now, mint);
    } else {
      RefusedMoves(sys, w, req, now, mint);
      OneMovesHeld(sys, HandleRequest(sys, w, req, now, mint), w);
    }
  }

  lemma HeldChannels<W>(sys: System<W>)
    requires HeldSystem(sys)
    ensures Channels(sys)
  {
  }

  lemma OpenHeld<W>(sys: System<W>, w: W)
    requires HeldSystem(sys)
    ensures HeldSystem(OpenStream(sys, w))
  {
    hide Channels;
    OpenChannels(sys, w);
    var after := OpenStream(sys, w);
    forall v | v in after.server.watches && v in after.streams ensures HeldAt(after.server.watches, after.streams, v) {
      if v in sys.streams && v in sys.server.watches { assert HeldAt(sys.server.watches, sys.streams, v); }
    }
  }

  lemma StepHeld<W>(sys: System<W>, step: Step<W>)
    requires HeldSystem(sys)
    ensures HeldSystem(Apply(sys, step))
  {
    hide Channels, HeldSystem, HandleRequest, OpenStream, OneMoves, Handled;
    HeldChannels(sys);
    StepChannels(sys, step);
    if step.Open? {
      OpenHeld(sys, step.w);
    } else if Handled(sys, step) {
      HandledApplies(sys, step);
      HandledStream(sys, step);
      RequestHeld(sys, step.w, step.input.request, step.now, step.mint);
    } else if step.w in sys.streams && Apply(sys, step) != sys {
      StepMoves(sys, step);
      OneMovesHeld(sys, Apply(sys, step), step.w);
    }
  }

  lemma HandledStream<W>(sys: System<W>, step: Step<W>)
    requires Handled(sys, step)
    ensures step.w in sys.streams && step.Receive? && step.input.Message?
  {
  }

  // Over every run, issue failures included.
  lemma {:induction false} NamesHeld<W>(ca: Certificate, capacity: nat, steps: seq<Step<W>>)
    requires capacity >= 1
    ensures HeldSystem(Run(Start<W>(ca, capacity), steps))
  {
    hide HeldSystem, Apply;
    if steps == [] {
      StartHeld<W>(ca, capacity);
    } else {
      NamesHeld(ca, capacity, steps[..|steps| - 1]);
      StepHeld(Run(Start<W>(ca, capacity), steps[..|steps| - 1]), steps[|steps| - 1]);
    }
  }

  lemma StartHeld<W>(ca: Certificate, capacity: nat)
    requires capacity >= 1
    ensures HeldSystem(Start<W>(ca, capacity))
  {
  }
}
