/**
  The two goroutines of a stream, step by step: what the receiver refuses and with which status, what a refusal leaves
  alone, and what the sender does with queue and error channel.
*/
module StreamRules {
  import opened Wrappers
  import opened Text
  import opened SecretCache
  import opened SecretProtocol
  import opened SecretStreams
  import opened SecretViews

  // ---- opening

  // A stream opens exactly when it is new and fewer than twice the capacity are open; its subscription starts empty.
  lemma OpenIff<W>(sys: System<W>, w: W)
    ensures var after := Apply(sys, Open(w));
            if w !in sys.streams && |sys.server.watches| < 2 * sys.server.capacity then
              && after.server == sys.server.(watches := sys.server.watches[w := Watch({}, [], [])])
              && after.streams == sys.streams[w := Stream(true, true, false, [], [])]
            else after == sys
  {
  }

  // ---- receiving

  // The status a message is refused with before it reaches the server.
  function RefusedWith(input: Input): Option<Status> {
    match input
    case Broken(status) => Some(status)
    case Refusal => Some(FailedPrecondition)
    case Message(secretType, req) =>
      if secretType && |req.subscribe| + |req.initial| <= 128 && |req.unsubscribe| <= 128 then None
      else Some(InvalidArgument)
  }

  // The stream has stopped receiving with this error, which its sender sees unless one is there already; nothing else
  // has changed.
  ghost predicate Stopped<W>(sys: System<W>, after: System<W>, w: W, status: Status)
    requires w in sys.streams
  {
    && after.streams == sys.streams[w := sys.streams[w].(receiving := false, failed := true)]
    && after.server ==
       if w in sys.server.watches && sys.server.watches[w].errors == []
       then sys.server.(watches := sys.server.watches[w := sys.server.watches[w].(errors := [status])])
       else sys.server
  }

  // A refused message stops the receiver and changes nothing else; a stopped receiver takes nothing.
  lemma ReceiveRefuses<W>(sys: System<W>, w: W, input: Input, now: int, mint: Mint)
    requires w in sys.streams
    ensures var after := Apply(sys, Receive(w, input, now, mint));
            && (!sys.streams[w].receiving ==> after == sys)
            && (sys.streams[w].receiving && RefusedWith(input).Some? ==>
                  Stopped(sys, after, w, RefusedWith(input).value))
  {
    hide HandleRequest;
    if w in sys.server.watches && sys.server.watches[w].errors != [] {
      assert sys.server.watches[w := sys.server.watches[w]] == sys.server.watches;
    }
  }

  // A request the server refuses stops the receiver with the server's status; one it answers leaves it running.
  lemma ReceiveHandles<W>(sys: System<W>, w: W, req: Request, now: int, mint: Mint)
    requires w in sys.streams && sys.streams[w].receiving && RefusedWith(Message(true, req)).None?
    ensures var after := Apply(sys, Receive(w, Message(true, req), now, mint));
            var p := Process(sys.server, w, req, now, mint);
            if p.status.Some? then Stopped(System(p.server, sys.streams), after, w, p.status.value)
            else after.server == p.server && w in after.streams && after.streams[w].receiving
  {
    hide Process, Update, Answer;
    var p := Process(sys.server, w, req, now, mint);
    if p.status.Some? && w in p.server.watches && p.server.watches[w].errors != [] {
      assert p.server.watches[w := p.server.watches[w]] == p.server.watches;
    }
  }

  // Once stopped, a receiver handles nothing on any run.
  lemma StoppedForGood<W>(sys: System<W>, steps: seq<Step<W>>, w: W, input: Input, now: int, mint: Mint)
    requires w in sys.streams && !sys.streams[w].receiving
    ensures Apply(Run(sys, steps), Receive(w, input, now, mint)) == Run(sys, steps)
  {
    hide Apply;
    FailureIsFinal(sys, steps, w);
    ReceiveRefuses(Run(sys, steps), w, input, now, mint);
  }

  // ---- sending

  // The sender hands over queued events in order, and ends at the first one the transport refuses, at an error, and
  // when the call ends. Ended, it does nothing more but take its subscription away.
  lemma SenderSteps<W>(sys: System<W>, w: W)
    requires w in sys.streams && w in sys.server.watches
    ensures var stream, watch := sys.streams[w], sys.server.watches[w];
            && (stream.sending && watch.updates != [] ==>
                  && Apply(sys, Send(w, true)) ==
                     System(sys.server.(watches := sys.server.watches[w := watch.(updates := watch.updates[1..])]),
                            sys.streams[w := stream.(delivered := stream.delivered + [watch.updates[0]])])
                  && Apply(sys, Send(w, false)).streams == sys.streams[w := stream.(sending := false)])
            && (stream.sending && watch.errors != [] ==>
                  Apply(sys, TakeError(w)).streams == sys.streams[w := stream.(sending := false)])
            && Apply(sys, ContextDone(w)) == System(sys.server, sys.streams[w := stream.(sending := false)])
            && (!stream.sending ==>
                  && Apply(sys, Send(w, true)) == sys && Apply(sys, Send(w, false)) == sys
                  && Apply(sys, TakeError(w)) == sys
                  && Apply(sys, Close(w)) == sys.(server := sys.server.(watches := sys.server.watches - {w})))
            && (stream.sending ==> Apply(sys, Close(w)) == sys)
  {
  }

  // ---- telling a subscription

  // The resources and the removed names that concern a subscription, in the order of the response.
  function Concerning(resources: seq<Resource>, names: set<string>): seq<Resource> {
    if resources == [] then []
    else (if resources[0].name in names then [resources[0]] else []) + Concerning(resources[1..], names)
  }

  function NamesConcerning(removed: seq<string>, names: set<string>): seq<string> {
    if removed == [] then []
    else (if removed[0] in names then [removed[0]] else []) + NamesConcerning(removed[1..], names)
  }

  lemma {:induction false} ConcerningAppend(a: seq<Resource>, x: Resource, names: set<string>)
    ensures Concerning(a + [x], names) == Concerning(a, names) + (if x.name in names then [x] else [])
  {
    if a == [] {
      assert [] + [x] == [x] && [x][1..] == [];
    } else {
      assert (a + [x])[1..] == a[1..] + [x];
      ConcerningAppend(a[1..], x, names);
    }
  }

  lemma {:induction false} NamesConcerningAppend(a: seq<string>, x: string, names: set<string>)
    ensures NamesConcerning(a + [x], names) == NamesConcerning(a, names) + (if x in names then [x] else [])
  {
    if a == [] {
      assert [] + [x] == [x] && [x][1..] == [];
    } else {
      assert (a + [x])[1..] == a[1..] + [x];
      NamesConcerningAppend(a[1..], x, names);
    }
  }

  lemma {:induction false} KeepsConcerning(resources: seq<Resource>, names: set<string>)
    ensures KeepResources(resources, names) == Concerning(resources, names)
  {
    if resources != [] {
      var k := |resources| - 1;
      KeepsConcerning(resources[..k], names);
      ConcerningAppend(resources[..k], resources[k], names);
      assert resources[..k] + [resources[k]] == resources;
    }
  }

  lemma {:induction false} KeepsNamesConcerning(removed: seq<string>, names: set<string>)
    ensures KeepNames(removed, names) == NamesConcerning(removed, names)
  {
    if removed != [] {
      var k := |removed| - 1;
      KeepsNamesConcerning(removed[..k], names);
      NamesConcerningAppend(removed[..k], removed[k], names);
      assert removed[..k] + [removed[k]] == removed;
    }
  }

  // A subscription forgets the names it is told removed and queues what concerns it, if anything does: behind at most
  // three other events, or else not at all and with an error, unless one is there already.
  lemma NotifyRule(w: Watch, response: Response)
    ensures var resources := Concerning(response.resources, w.names);
            var removed := NamesConcerning(response.removed, w.names);
            var after := Notify(w, response);
            && (forall n :: n in after.names <==> n in w.names && n !in response.removed)
            && (if resources == [] && removed == [] then after.updates == w.updates && after.errors == w.errors
                else if |w.updates| <= 3 then
                  && after.updates == w.updates + [Response(response.nonce, resources, removed)]
                  && after.errors == w.errors
                else
                  && after.updates == w.updates
                  && after.errors == if w.errors == [] then [ResourceExhausted] else w.errors)
  {
    KeepsConcerning(response.resources, w.names);
    KeepsNamesConcerning(response.removed, w.names);
  }
}
