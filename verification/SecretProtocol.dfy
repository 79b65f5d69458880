/**
  The certificate server as a value: subscriptions with their bounded channels, and the atomic processing of one
  request under the server's lock. `W` is the identity of a subscription.
*/
module SecretProtocol {
  import opened Wrappers
  import opened Text
  import opened Leaf
  import opened SecretCache
  import opened SecretAccounts

  const QUEUE: nat := 4
  const MAX_REQUEST_NAMES: nat := 128

  datatype Status = Canceled | ResourceExhausted | InvalidArgument | FailedPrecondition | Internal | Transport

  datatype Request = Request(subscribe: seq<string>, initial: map<string, string>, unsubscribe: seq<string>)

  datatype Response = Response(nonce: nat, resources: seq<Resource>, removed: seq<string>)

  /** One subscription: its names, its queue of responses and its one-slot error channel. */
  datatype Watch = Watch(names: set<string>, updates: seq<Response>, errors: seq<Status>)

  datatype Server<W(==)> =
    Server(ca: Certificate, capacity: nat, cache: Cache, version: nat, nonce: nat, watches: map<W, Watch>)

  function Requested(req: Request): set<string> { Elements(req.subscribe) + req.initial.Keys }

  function NamesAfter(names: set<string>, req: Request): set<string> {
    names - Elements(req.unsubscribe) + Requested(req)
  }

  function Fail(w: Watch, status: Status): Watch {
    if w.errors == [] then w.(errors := [status]) else w
  }

  function Enqueue(w: Watch, event: Response): Watch {
    if event.resources == [] && event.removed == [] then w
    else if |w.updates| < QUEUE then w.(updates := w.updates + [event])
    else Fail(w, ResourceExhausted)
  }

  function KeepResources(resources: seq<Resource>, names: set<string>): (r: seq<Resource>)
    ensures forall x :: x in r <==> x in resources && x.name in names
  {
    if resources == [] then []
    else
      var k := |resources| - 1;
      assert forall x :: x in resources <==> x == resources[k] || x in resources[..k];
      KeepResources(resources[..k], names) + (if resources[k].name in names then [resources[k]] else [])
  }

  function KeepNames(removed: seq<string>, names: set<string>): (r: seq<string>)
    ensures forall x :: x in r <==> x in removed && x in names
  {
    if removed == [] then []
    else
      var k := |removed| - 1;
      assert forall x :: x in removed <==> x == removed[k] || x in removed[..k];
      KeepNames(removed[..k], names) + (if removed[k] in names then [removed[k]] else [])
  }

  // What the two filters add for the next element.
  lemma KeepNext(response: Response, names: set<string>, i: nat)
    ensures i < |response.resources| ==>
              var x := response.resources[i];
              KeepResources(response.resources[..i + 1], names) ==
              KeepResources(response.resources[..i], names) + (if x.name in names then [x] else [])
    ensures i < |response.removed| ==>
              var x := response.removed[i];
              KeepNames(response.removed[..i + 1], names) ==
              KeepNames(response.removed[..i], names) + (if x in names then [x] else [])
  {
    if i < |response.resources| { assert response.resources[..i + 1][..i] == response.resources[..i]; }
    if i < |response.removed| { assert response.removed[..i + 1][..i] == response.removed[..i]; }
  }

  lemma KeepNone(names: set<string>)
    ensures KeepResources([], names) == [] && KeepNames([], names) == []
  {
  }

  // The part of a response that concerns a subscription.
  function Filter(names: set<string>, response: Response): Response {
    Response(response.nonce, KeepResources(response.resources, names), KeepNames(response.removed, names))
  }

  function Notify(w: Watch, response: Response): Watch {
    var event := Filter(w.names, response);
    Enqueue(w.(names := w.names - Elements(event.removed)), event)
  }

  predicate Interested<W>(watches: map<W, Watch>, name: string) {
    exists w :: w in watches && name in watches[w].names
  }

  // Unsubscribed names that no subscription holds any more.
  function Idle<W>(watches: map<W, Watch>, unsubscribe: seq<string>): set<string> {
    set name | name in unsubscribe && !Interested(watches, name)
  }

  function Pick(names: seq<string>, resources: map<string, Resource>): (r: seq<Resource>)
    requires forall n :: n in names ==> n in resources
    ensures |r| == |names| && forall i :: 0 <= i < |r| ==> r[i] == resources[names[i]]
  {
    seq(|names|, i requires 0 <= i < |names| => assert names[i] in names; resources[names[i]])
  }

  function Answer(nonce: nat, b: Batch): (r: Response)
    ensures r.nonce == nonce
    ensures forall x :: x in r.resources ==> exists n :: n in b.resources && b.resources[n] == x
    ensures forall n :: n in b.resources ==> b.resources[n] in r.resources
    ensures forall n :: n in r.removed <==> n in b.removed
  {
    Response(nonce, Pick(Sorted(b.resources.Keys), b.resources), Sorted(b.removed))
  }

  // The cache a request is served from: idle unsubscribed names are already gone.
  function Entering<W>(s: Server<W>, req: Request): Cache { Without(s.cache, Idle(s.watches, req.unsubscribe)) }

  // `updateLocked` up to its response: drop idle names, then serve the requested names in sorted order.
  function Update<W>(s: Server<W>, req: Request, now: int, mint: Mint): Served {
    Serve(s.ca, s.capacity, Entering(s, req), s.version, Sorted(Requested(req)), now, mint)
  }

  function Subscribe<W>(s: Server<W>, w: W, req: Request): Server<W>
    requires w in s.watches
  {
    s.(watches := s.watches[w := s.watches[w].(names := NamesAfter(s.watches[w].names, req))])
  }

  function NotifyAll<W>(watches: map<W, Watch>, response: Response): map<W, Watch> {
    map w | w in watches :: Notify(watches[w], response)
  }

  datatype Processed<W(==)> = Processed(server: Server<W>, status: Option<Status>)

  function Process<W>(s: Server<W>, w: W, req: Request, now: int, mint: Mint): Processed<W> {
    if w !in s.watches then Processed(s, Some(Canceled))
    else
      var subscribed := Subscribe(s, w, req);
      if |subscribed.watches[w].names| > MAX_REQUEST_NAMES then Processed(subscribed, Some(ResourceExhausted))
      else
        match Update(subscribed, req, now, mint)
        case Stopped(b) =>
          Processed(subscribed.(cache := b.cache, version := b.version), Some(Internal))
        case Done(b) =>
          var response := Answer(s.nonce + 1, b);
          Processed(subscribed.(cache := b.cache, version := b.version, nonce := s.nonce + 1,
                                watches := NotifyAll(subscribed.watches, response)), None)
  }

  // ---- one request

  ghost predicate Sound<W>(s: Server<W>) {
    s.capacity >= 1 && WellFormed(s.ca, s.capacity, s.cache, s.version)
  }

  // Whatever the request and whatever fails, the cache stays well formed and the counters never fall.
  lemma ProcessSound<W>(s: Server<W>, w: W, req: Request, now: int, mint: Mint)
    requires Sound(s)
    ensures var after := Process(s, w, req, now, mint).server;
            && Sound(after) && after.ca == s.ca && after.capacity == s.capacity
            && s.version <= after.version && s.nonce <= after.nonce
  {
    hide WellFormed, Serve, NotifyAll;
    if w in s.watches {
      var subscribed := Subscribe(s, w, req);
      var dead := Idle(subscribed.watches, req.unsubscribe);
      WithoutWellFormed(s.ca, s.capacity, s.cache, s.version, dead);
      ServeKeepsWellFormed(s.ca, s.capacity, Without(s.cache, dead), s.version, Sorted(Requested(req)), now, mint);
    }
  }

  // The two halves of a finished answer and the cache, as sets of names: requested names are all answered, and the
  // names cached afterwards are the kept and the validly requested ones less those told removed and not handed out.
  lemma UpdateAccounted<W>(s: Server<W>, req: Request, now: int, mint: Mint)
    requires Sound(s) && Update(s, req, now, mint).Done?
    ensures Accounted(Entering(s, req), Sorted(Requested(req)), Update(s, req, now, mint).batch)
  {
    hide WellFormed, Serve, Accounted;
    var dead := Idle(s.watches, req.unsubscribe);
    WithoutWellFormed(s.ca, s.capacity, s.cache, s.version, dead);
    BatchAccounted(s.ca, s.capacity, Without(s.cache, dead), s.version, Sorted(Requested(req)), now, mint);
  }

  // What a processed request may change besides the cache and the version counter.
  lemma ProcessShape<W>(s: Server<W>, w: W, req: Request, now: int, mint: Mint)
    requires w in s.watches
    ensures var p := Process(s, w, req, now, mint);
            var subscribed := Subscribe(s, w, req);
            var update := Update(subscribed, req, now, mint);
            if p.status.Some? then
              p.server == subscribed.(cache := p.server.cache, version := p.server.version)
            else
              && update.Done?
              && p.server == subscribed.(cache := update.batch.cache, version := update.batch.version,
                                         nonce := s.nonce + 1,
                                         watches := NotifyAll(subscribed.watches, Answer(s.nonce + 1, update.batch)))
  {
    hide Update, Answer, NotifyAll;
  }

  // A request on a closed subscription changes nothing.
  lemma ProcessClosed<W>(s: Server<W>, w: W, req: Request, now: int, mint: Mint)
    requires w !in s.watches
    ensures Process(s, w, req, now, mint) == Processed(s, Some(Canceled))
  {
  }
}
