/**
  Runs of the certificate service: any number of streams, each with a receiver and a sender, interleaved at the
  points where they take the server's lock or use a channel. What each client has been told is recorded beside the
  server, and every statement is about all runs.
*/
module SecretStreams {
  import opened Wrappers
  import opened Text
  import opened Leaf
  import opened SecretCache
  import opened SecretAccounts
  import opened SecretProtocol

  /** What moved a client's view, in the order the server saw it: a nonempty event for it, or its own unsubscribe. */
  datatype Entry = Emitted(event: Response) | Unsubscribed(names: set<string>)

  /**
    One stream: whether its two goroutines still run, whether an error was ever raised for it, what its sender has
    handed to the transport, and the record of everything meant for its client.
  */
  datatype Stream =
    Stream(receiving: bool, sending: bool, failed: bool, delivered: seq<Response>, log: seq<Entry>)

  datatype System<W(==)> = System(server: Server<W>, streams: map<W, Stream>)

  datatype Input =
    | Broken(status: Status)
    | Refusal
    | Message(secretType: bool, request: Request)

  datatype Step<W> =
    | Open(w: W)
    | Receive(w: W, input: Input, now: int, mint: Mint)
    | Send(w: W, accepted: bool)
    | TakeError(w: W)
    | ContextDone(w: W)
    | Close(w: W)

  function NewWatch(): Watch { Watch({}, [], []) }

  function NewStream(): Stream { Stream(true, true, false, [], []) }

  function OpenStream<W>(sys: System<W>, w: W): System<W> {
    if w in sys.streams || |sys.server.watches| >= 2 * sys.server.capacity then sys
    else System(sys.server.(watches := sys.server.watches[w := NewWatch()]), sys.streams[w := NewStream()])
  }

  // The receiver reports an error and stops.
  function FailReceiver<W>(sys: System<W>, w: W, status: Status): System<W>
    requires w in sys.streams
  {
    var server := if w in sys.server.watches
                  then sys.server.(watches := sys.server.watches[w := Fail(sys.server.watches[w], status)])
                  else sys.server;
    System(server, sys.streams[w := sys.streams[w].(receiving := false, failed := true)])
  }

  predicate Silent(event: Response) { event.resources == [] && event.removed == [] }

  // The record of one stream after a response is broadcast to a subscription in state `w`.
  function Record(stream: Stream, w: Watch, response: Response): Stream {
    var event := Filter(w.names, response);
    if Silent(event) then stream
    else stream.(log := stream.log + [Emitted(event)], failed := stream.failed || |w.updates| >= QUEUE)
  }

  function Requesting(stream: Stream, req: Request): Stream {
    stream.(log := stream.log + [Unsubscribed(Elements(req.unsubscribe))])
  }

  function RecordAll<W>(streams: map<W, Stream>, watches: map<W, Watch>, response: Response): map<W, Stream> {
    map v | v in streams :: if v in watches then Record(streams[v], watches[v], response) else streams[v]
  }

  function Oversized(req: Request): bool {
    |req.subscribe| + |req.initial| > MAX_REQUEST_NAMES || |req.unsubscribe| > MAX_REQUEST_NAMES
  }

  function HandleRequest<W>(sys: System<W>, w: W, req: Request, now: int, mint: Mint): System<W>
    requires w in sys.streams
  {
    var p := Process(sys.server, w, req, now, mint);
    if p.status.Some? then FailReceiver(System(p.server, sys.streams), w, p.status.value)
    else
      var subscribed := Subscribe(sys.server, w, req);
      var response := Answer(p.server.nonce, Update(subscribed, req, now, mint).batch);
      System(p.server,
             RecordAll(sys.streams[w := Requesting(sys.streams[w], req)], subscribed.watches, response))
  }

  function Apply<W>(sys: System<W>, step: Step<W>): System<W> {
    var w := step.w;
    if step.Open? then OpenStream(sys, w)
    else if w !in sys.streams then sys
    else
      var stream := sys.streams[w];
      match step
      case Open(_) => sys
      case Receive(_, input, now, mint) =>
        if !stream.receiving then sys
        else (
          match input
          case Broken(status) => FailReceiver(sys, w, status)
          case Refusal => FailReceiver(sys, w, FailedPrecondition)
          case Message(secretType, req) =>
            if !secretType || Oversized(req) then FailReceiver(sys, w, InvalidArgument)
            else HandleRequest(sys, w, req, now, mint)
        )
      case Send(_, accepted) =>
        if !stream.sending || w !in sys.server.watches || sys.server.watches[w].updates == [] then sys
        else
          var watch := sys.server.watches[w];
          System(sys.server.(watches := sys.server.watches[w := watch.(updates := watch.updates[1..])]),
                 sys.streams[w := if accepted then stream.(delivered := stream.delivered + [watch.updates[0]])
                                  else stream.(sending := false)])
      case TakeError(_) =>
        if !stream.sending || w !in sys.server.watches || sys.server.watches[w].errors == [] then sys
        else System(sys.server.(watches := sys.server.watches[w := sys.server.watches[w].(errors := [])]),
                    sys.streams[w := stream.(sending := false)])
      case ContextDone(_) => sys.(streams := sys.streams[w := stream.(sending := false)])
      case Close(_) =>
        if stream.sending || w !in sys.server.watches then sys
        else sys.(server := sys.server.(watches := sys.server.watches - {w}))
  }

  function Run<W>(sys: System<W>, steps: seq<Step<W>>): System<W> {
    if steps == [] then sys else Apply(Run(sys, steps[..|steps| - 1]), steps[|steps| - 1])
  }

  function Start<W>(ca: Certificate, capacity: nat): System<W> {
    System(Server(ca, capacity, [], 0, 0, map[]), map[])
  }

  // A stream that has never failed and whose sender still runs.
  predicate Healthy(stream: Stream) { stream.sending && !stream.failed }

  // ---- what the client of a stream holds

  function DeliveredVersion(resources: seq<Resource>, name: string): Option<nat> {
    if resources == [] then None
    else
      var last := resources[|resources| - 1];
      if last.name == name then Some(last.version) else DeliveredVersion(resources[..|resources| - 1], name)
  }

  // The version of `name` a client holds after applying its record: per event the resources, then the removals.
  function Held(log: seq<Entry>, name: string): Option<nat> {
    if log == [] then None
    else
      var before := Held(log[..|log| - 1], name);
      match log[|log| - 1]
      case Unsubscribed(names) => if name in names then None else before
      case Emitted(event) =>
        if name in event.removed then None
        else
          var told := DeliveredVersion(event.resources, name);
          if told.Some? then told else before
  }

  function Emissions(log: seq<Entry>): seq<Response> {
    if log == [] then []
    else
      Emissions(log[..|log| - 1]) +
      (match log[|log| - 1] case Emitted(event) => [event] case Unsubscribed(_) => [])
  }

  // ---- channels: every run

  ghost predicate Increasing(events: seq<Response>, nonce: nat) {
    && (forall i, j :: 0 <= i < j < |events| ==> events[i].nonce < events[j].nonce)
    && (forall i :: 0 <= i < |events| ==> events[i].nonce <= nonce)
  }

  // Nothing meant for a healthy stream is missing, reordered or repeated; a failure stays visible to the sender.
  ghost predicate Delivering(watch: Watch, stream: Stream, nonce: nat) {
    && |watch.updates| <= QUEUE && |watch.errors| <= 1
    && (stream.sending ==> (stream.failed <==> watch.errors != []))
    && (Healthy(stream) ==> Emissions(stream.log) == stream.delivered + watch.updates)
    && Increasing(Emissions(stream.log), nonce)
    && forall e :: e in Emissions(stream.log) ==> !Silent(e)
  }

  ghost predicate DeliveringAt<W>(watches: map<W, Watch>, streams: map<W, Stream>, nonce: nat, w: W)
    requires w in watches
  {
    w in streams && Delivering(watches[w], streams[w], nonce)
  }

  ghost predicate Channels<W>(sys: System<W>) {
    && Sound(sys.server)
    && |sys.server.watches| <= 2 * sys.server.capacity
    && forall w :: w in sys.server.watches ==> DeliveringAt(sys.server.watches, sys.streams, sys.server.nonce, w)
  }

  lemma EmissionsAppend(log: seq<Entry>, entry: Entry)
    ensures Emissions(log + [entry]) ==
            Emissions(log) + (match entry case Emitted(event) => [event] case Unsubscribed(_) => [])
  {
    assert (log + [entry])[..|log|] == log;
  }

  lemma IncreasingAppend(events: seq<Response>, nonce: nat, event: Response)
    requires Increasing(events, nonce) && event.nonce > nonce
    ensures Increasing(events + [event], event.nonce)
  {
  }

  lemma RecordDelivers(watch: Watch, stream: Stream, response: Response, nonce: nat)
    requires Delivering(watch, stream, nonce) && response.nonce > nonce
    ensures Delivering(Notify(watch, response), Record(stream, watch, response), response.nonce)
  {
    hide Emissions, Increasing, KeepNames, KeepResources;
    var event := Filter(watch.names, response);
    EmissionsAppend(stream.log, Emitted(event));
    IncreasingAppend(Emissions(stream.log), nonce, event);
    IncreasingLater(Emissions(stream.log), nonce, response.nonce);
    assert forall e :: e in Emissions(stream.log) + [event] ==> e in Emissions(stream.log) || e == event;
    assert stream.delivered + (watch.updates + [event]) == stream.delivered + watch.updates + [event];
  }

  lemma IncreasingLater(events: seq<Response>, nonce: nat, later: nat)
    requires Increasing(events, nonce) && later >= nonce
    ensures Increasing(events, later)
  {
  }

  lemma RequestingDelivers(watch: Watch, stream: Stream, req: Request, names: set<string>, nonce: nat)
    requires Delivering(watch, stream, nonce)
    ensures Delivering(watch.(names := names), stream, nonce)
    ensures Delivering(watch.(names := names), Requesting(stream, req), nonce)
  {
    EmissionsAppend(stream.log, Unsubscribed(Elements(req.unsubscribe)));
  }

  // Replacing the state of one stream.
  lemma ReplaceChannels<W>(sys: System<W>, w: W, watch: Watch, stream: Stream)
    requires Channels(sys) && w in sys.server.watches
    requires Delivering(watch, stream, sys.server.nonce)
    ensures Channels(System(sys.server.(watches := sys.server.watches[w := watch]), sys.streams[w := stream]))
  {
    hide WellFormed, Delivering;
    assert sys.server.watches[w := watch].Keys == sys.server.watches.Keys;
    forall v | v in sys.server.watches ensures DeliveringAt(sys.server.watches, sys.streams, sys.server.nonce, v) {}
  }

  lemma FailDelivers(watch: Watch, stream: Stream, status: Status, nonce: nat)
    requires Delivering(watch, stream, nonce)
    ensures Delivering(Fail(watch, status), stream.(receiving := false, failed := true), nonce)
  {
  }

  lemma FailReceiverChannels<W>(sys: System<W>, w: W, status: Status)
    requires Channels(sys) && w in sys.streams
    ensures Channels(FailReceiver(sys, w, status))
  {
    hide Sound, Delivering;
    if w in sys.server.watches {
      assert DeliveringAt(sys.server.watches, sys.streams, sys.server.nonce, w);
      FailDelivers(sys.server.watches[w], sys.streams[w], status, sys.server.nonce);
      ReplaceChannels(sys, w, Fail(sys.server.watches[w], status),
                      sys.streams[w].(receiving := false, failed := true));
    } else {
      forall v | v in sys.server.watches
        ensures DeliveringAt(sys.server.watches, FailReceiver(sys, w, status).streams, sys.server.nonce, v)
      {
        assert DeliveringAt(sys.server.watches, sys.streams, sys.server.nonce, v);
      }
    }
  }

  // A response reaches every subscription at once.
  lemma BroadcastChannels<W>(sys: System<W>, cache: Cache, version: nat, response: Response)
    requires Channels(sys) && response.nonce == sys.server.nonce + 1
    requires WellFormed(sys.server.ca, sys.server.capacity, cache, version)
    ensures Channels(System(sys.server.(cache := cache, version := version, nonce := response.nonce,
                                        watches := NotifyAll(sys.server.watches, response)),
                            RecordAll(sys.streams, sys.server.watches, response)))
  {
    hide WellFormed, Delivering;
    var watches := NotifyAll(sys.server.watches, response);
    assert watches.Keys == sys.server.watches.Keys;
    forall w | w in watches
      ensures DeliveringAt(watches, RecordAll(sys.streams, sys.server.watches, response), response.nonce, w)
    {
      assert DeliveringAt(sys.server.watches, sys.streams, sys.server.nonce, w);
      RecordDelivers(sys.server.watches[w], sys.streams[w], response, sys.server.nonce);
    }
  }

  // Channels do not depend on the cache.
  lemma CacheChannels<W>(sys: System<W>, cache: Cache, version: nat)
    requires Channels(sys) && WellFormed(sys.server.ca, sys.server.capacity, cache, version)
    ensures Channels(sys.(server := sys.server.(cache := cache, version := version)))
  {
    hide WellFormed, Delivering;
    forall w | w in sys.server.watches ensures DeliveringAt(sys.server.watches, sys.streams, sys.server.nonce, w) {}
  }

  lemma RequestChannels<W>(sys: System<W>, w: W, req: Request, now: int, mint: Mint)
    requires Channels(sys) && w in sys.streams
    ensures Channels(HandleRequest(sys, w, req, now, mint))
  {
    hide WellFormed, Channels, Process, Update, Answer, NotifyAll, RecordAll, FailReceiver;
    ChannelsSound(sys);
    ProcessSound(sys.server, w, req, now, mint);
    var p := Process(sys.server, w, req, now, mint);
    if w !in sys.server.watches {
      assert p == Processed(sys.server, Some(Canceled)) by { ProcessClosed(sys.server, w, req, now, mint); }
      assert System(p.server, sys.streams) == sys;
      FailReceiverChannels(sys, w, Canceled);
    } else {
      ProcessShape(sys.server, w, req, now, mint);
      ChannelsAt(sys, w);
      var subscribed := Subscribe(sys.server, w, req);
      RequestingDelivers(sys.server.watches[w], sys.streams[w], req, subscribed.watches[w].names, sys.server.nonce);
      if p.status.Some? {
        RefusedChannels(sys, w, req, p.server, p.status.value);
      } else {
        var response := Answer(p.server.nonce, Update(subscribed, req, now, mint).batch);
        ReplaceChannels(sys, w, subscribed.watches[w], Requesting(sys.streams[w], req));
        BroadcastChannels(System(subscribed, sys.streams[w := Requesting(sys.streams[w], req)]),
                          p.server.cache, p.server.version, response);
      }
    }
  }

  lemma RefusedChannels<W>(sys: System<W>, w: W, req: Request, server: Server<W>, status: Status)
    requires Channels(sys) && w in sys.server.watches && w in sys.streams
    requires server == Subscribe(sys.server, w, req).(cache := server.cache, version := server.version)
    requires WellFormed(server.ca, server.capacity, server.cache, server.version)
    ensures Channels(FailReceiver(System(server, sys.streams), w, status))
  {
    hide WellFormed, Channels, FailReceiver;
    ChannelsAt(sys, w);
    var subscribed := Subscribe(sys.server, w, req);
    RequestingDelivers(sys.server.watches[w], sys.streams[w], req, subscribed.watches[w].names, sys.server.nonce);
    ReplaceChannels(sys, w, subscribed.watches[w], sys.streams[w]);
    assert sys.streams[w := sys.streams[w]] == sys.streams;
    CacheChannels(System(subscribed, sys.streams), server.cache, server.version);
    FailReceiverChannels(System(server, sys.streams), w, status);
  }

  lemma ChannelsSound<W>(sys: System<W>)
    requires Channels(sys)
    ensures Sound(sys.server)
  {
  }

  lemma ChannelsAt<W>(sys: System<W>, w: W)
    requires Channels(sys) && w in sys.server.watches
    ensures w in sys.streams && Delivering(sys.server.watches[w], sys.streams[w], sys.server.nonce)
  {
    assert DeliveringAt(sys.server.watches, sys.streams, sys.server.nonce, w);
  }

  lemma OpenChannels<W>(sys: System<W>, w: W)
    requires Channels(sys)
    ensures Channels(OpenStream(sys, w))
  {
    hide WellFormed, Delivering;
    var after := OpenStream(sys, w);
    if after != sys {
      FreshDelivers(sys.server.nonce);
      assert w !in sys.server.watches by {
        if w in sys.server.watches { ChannelsAt(sys, w); }
      }
      forall v | v in after.server.watches
        ensures DeliveringAt(after.server.watches, after.streams, after.server.nonce, v)
      {
        if v != w { assert DeliveringAt(sys.server.watches, sys.streams, sys.server.nonce, v); }
      }
      assert |after.server.watches| == |sys.server.watches| + 1;
    }
  }

  lemma FreshDelivers(nonce: nat)
    ensures Delivering(NewWatch(), NewStream(), nonce)
  {
  }

  lemma SenderChannels<W>(sys: System<W>, step: Step<W>)
    requires Channels(sys) && (step.Send? || step.TakeError?)
    ensures Channels(Apply(sys, step))
  {
    hide Channels;
    var w := step.w;
    if w in sys.streams && w in sys.server.watches {
      ChannelsAt(sys, w);
      var after := Apply(sys, step);
      if after.server != sys.server {
        ReplaceChannels(sys, w, after.server.watches[w], after.streams[w]);
      }
    }
  }

  lemma EndingChannels<W>(sys: System<W>, step: Step<W>)
    requires Channels(sys) && (step.ContextDone? || step.Close?)
    ensures Channels(Apply(sys, step))
  {
    hide WellFormed, Delivering;
    var after := Apply(sys, step);
    assert after.server.watches.Keys <= sys.server.watches.Keys;
    forall v | v in after.server.watches
      ensures DeliveringAt(after.server.watches, after.streams, after.server.nonce, v)
    {
      ChannelsAt(sys, v);
      if v == step.w && after != sys { StopDelivers(sys.server.watches[v], sys.streams[v], sys.server.nonce); }
    }
    MapSubset(after.server.watches, sys.server.watches);
  }

  lemma StopDelivers(watch: Watch, stream: Stream, nonce: nat)
    requires Delivering(watch, stream, nonce)
    ensures Delivering(watch, stream.(sending := false), nonce)
  {
  }

  lemma MapSubset<W>(a: map<W, Watch>, b: map<W, Watch>)
    requires a.Keys <= b.Keys
    ensures |a| <= |b|
  {
    SubsetSize(a.Keys, b.Keys);
  }

  lemma StepChannels<W>(sys: System<W>, step: Step<W>)
    requires Channels(sys)
    ensures Channels(Apply(sys, step))
  {
    hide Channels, OpenStream, FailReceiver, HandleRequest;
    match step
    case Open(w) => OpenChannels(sys, w);
    case Receive(w, input, now, mint) =>
      if w in sys.streams {
        match input
        case Broken(status) => FailReceiverChannels(sys, w, status);
        case Refusal => FailReceiverChannels(sys, w, FailedPrecondition);
        case Message(_, req) =>
          FailReceiverChannels(sys, w, InvalidArgument);
          RequestChannels(sys, w, req, now, mint);
      }
    case Send(_, _) => SenderChannels(sys, step);
    case TakeError(_) => SenderChannels(sys, step);
    case ContextDone(_) => EndingChannels(sys, step);
    case Close(_) => EndingChannels(sys, step);
  }

  // No silent loss, on every run whatever fails: see `Delivering`.
  lemma {:induction false} NoSilentLoss<W>(ca: Certificate, capacity: nat, steps: seq<Step<W>>)
    requires capacity >= 1
    ensures Channels(Run(Start(ca, capacity), steps))
  {
    hide Channels, Apply;
    if steps == [] {
      assert Channels(Start<W>(ca, capacity)) by { StartChannels<W>(ca, capacity); }
    } else {
      NoSilentLoss(ca, capacity, steps[..|steps| - 1]);
      StepChannels(Run(Start(ca, capacity), steps[..|steps| - 1]), steps[|steps| - 1]);
    }
  }

  lemma StartChannels<W>(ca: Certificate, capacity: nat)
    requires capacity >= 1
    ensures Channels(Start<W>(ca, capacity))
  {
  }

  lemma StepKeepsConfiguration<W>(sys: System<W>, step: Step<W>)
    requires Channels(sys)
    ensures Apply(sys, step).server.ca == sys.server.ca && Apply(sys, step).server.capacity == sys.server.capacity
  {
    hide Channels, Process, Update, Answer, RecordAll;
    if step.Receive? && step.input.Message? {
      ChannelsSound(sys);
      ProcessSound(sys.server, step.w, step.input.request, step.now, step.mint);
    }
  }

  lemma {:induction false} RunKeepsConfiguration<W>(ca: Certificate, capacity: nat, steps: seq<Step<W>>)
    requires capacity >= 1
    ensures var server := Run(Start<W>(ca, capacity), steps).server; server.ca == ca && server.capacity == capacity
  {
    hide Channels, Apply;
    if steps != [] {
      RunKeepsConfiguration<W>(ca, capacity, steps[..|steps| - 1]);
      NoSilentLoss<W>(ca, capacity, steps[..|steps| - 1]);
      StepKeepsConfiguration(Run(Start<W>(ca, capacity), steps[..|steps| - 1]), steps[|steps| - 1]);
    }
  }

  // ---- failure and the end of sending are final

  ghost predicate Follows(earlier: Stream, later: Stream) {
    && (earlier.failed ==> later.failed)
    && (!earlier.receiving ==> !later.receiving)
    && (!earlier.sending ==> !later.sending && later.delivered == earlier.delivered)
    && earlier.delivered <= later.delivered
    && earlier.log <= later.log
  }

  lemma RequestFollows<W>(sys: System<W>, w: W, req: Request, now: int, mint: Mint, v: W)
    requires w in sys.streams && v in sys.streams
    ensures var after := HandleRequest(sys, w, req, now, mint);
            v in after.streams && Follows(sys.streams[v], after.streams[v])
  {
    hide Process, Update, Answer, Filter;
  }

  lemma StepFollows<W>(sys: System<W>, step: Step<W>, w: W)
    requires w in sys.streams
    ensures w in Apply(sys, step).streams && Follows(sys.streams[w], Apply(sys, step).streams[w])
  {
    hide HandleRequest;
    if step.Receive? && step.input.Message? && step.w in sys.streams {
      RequestFollows(sys, step.w, step.input.request, step.now, step.mint, w);
    }
  }

  // A failed stream stays failed, a stopped one delivers nothing more, and no record is ever rewritten.
  lemma {:induction false} FailureIsFinal<W>(sys: System<W>, steps: seq<Step<W>>, w: W)
    requires w in sys.streams
    ensures w in Run(sys, steps).streams && Follows(sys.streams[w], Run(sys, steps).streams[w])
  {
    hide Apply;
    if steps != [] {
      FailureIsFinal(sys, steps[..|steps| - 1], w);
      StepFollows(Run(sys, steps[..|steps| - 1]), steps[|steps| - 1], w);
    }
  }

  // A request on a closed subscription reaches neither the cache nor any other stream.
  lemma ClosedRequestChangesNothing<W>(sys: System<W>, w: W, req: Request, now: int, mint: Mint)
    requires w in sys.streams && w !in sys.server.watches
    ensures var after := HandleRequest(sys, w, req, now, mint);
            && after.server == sys.server
            && forall v :: v in sys.streams && v != w ==> after.streams[v] == sys.streams[v]
  {
  }

  // An event for a subscription whose queue is full fails the stream and is not queued.
  lemma OverflowFails(watch: Watch, stream: Stream, response: Response, nonce: nat)
    requires Delivering(watch, stream, nonce) && stream.sending
    requires !Silent(Filter(watch.names, response)) && |watch.updates| == QUEUE
    ensures Record(stream, watch, response).failed
    ensures Notify(watch, response).errors != [] && Notify(watch, response).updates == watch.updates
  {
  }
}
