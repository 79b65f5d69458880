/**
  What a certificate handed out says, and where it came from: its name, issuer, key and validity are those of the
  request that had it issued, on every run, in the cache and in everything a client is sent.
*/
module SecretCertificates {
  import opened Wrappers
  import opened Text
  import opened Leaf
  import opened SecretCache
  import opened SecretAccounts
  import opened SecretProtocol
  import opened SecretStreams
  import opened SecretViews
  import F = SecretForecast
  import R = SecretRuns
  import A = SecretResults

  // `t` as a certificate can hold it: the whole second it falls in.
  predicate FallsIn(second: int, t: int) { second % 1_000_000_000 == 0 && second <= t < second + 1_000_000_000 }

  // A server certificate for `name` with this key, signed by the CA at this time: valid from a minute before, for an
  // hour or until the CA ends.
  predicate SignedLeaf(ca: Certificate, name: string, issued: int, key: Option<nat>, leaf: LeafCertificate) {
    && leaf.name == name && leaf.issuer == ca.key && key == Some(leaf.key)
    && ca.notBefore <= issued && issued + 60 * 1_000_000_000 < ca.notAfter
    && FallsIn(leaf.notBefore, issued - 60 * 1_000_000_000)
    && FallsIn(leaf.notAfter,
               if ca.notAfter < issued + 3600 * 1_000_000_000 then ca.notAfter else issued + 3600 * 1_000_000_000)
  }

  lemma IssuedLeaf(ca: Certificate, name: string, now: int, key: Option<nat>)
    requires Issue(ca, name, now, key).Some?
    ensures SignedLeaf(ca, name, now, key, Issue(ca, name, now, key).value)
  {
  }

  // Issuing fails outside the CA's period, in its last minute, and when no key can be had, and only then.
  lemma IssueFailsIff(ca: Certificate, name: string, now: int, key: Option<nat>)
    ensures Issue(ca, name, now, key).None? <==>
            now < ca.notBefore || ca.notAfter <= now + 60 * 1_000_000_000 || key.None?
  {
  }

  // A resource as the request at `issued` made it.
  predicate Signed(ca: Certificate, resource: Resource, issued: int, mint: Mint) {
    && CanonicalName(resource.name).Ok?
    && SignedLeaf(ca, CanonicalName(resource.name).value, issued, mint(resource.name), resource.leaf)
  }

  // A cache entry made by a request: kept for ten minutes under its own name.
  predicate MadeBy(ca: Certificate, entry: Cached, names: seq<string>, now: int, mint: Mint) {
    && entry.name in names && entry.resource.name == entry.name && Signed(ca, entry.resource, now, mint)
    && entry.expires == now + 600 * 1_000_000_000
  }

  // ---- one batch

  lemma NameMakes(ca: Certificate, capacity: nat, b: Batch, name: string, now: int, mint: Mint, entry: Cached)
    requires entry in ServeName(ca, capacity, b, name, now, mint).batch.cache && entry !in b.cache
    ensures MadeBy(ca, entry, [name], now, mint)
  {
    hide Issue, CanonicalName, Lookup, Without, SignedLeaf;
    if Issuable(name) && Issue(ca, CanonicalName(name).value, now, mint(name)).Some? {
      IssuedLeaf(ca, CanonicalName(name).value, now, mint(name));
    }
  }

  // Every entry of a batch was there before or is made by it.
  lemma {:induction false} ServeMakes(ca: Certificate, capacity: nat, start: Cache, version: nat, names: seq<string>,
                                      now: int, mint: Mint, entry: Cached)
    requires entry in Serve(ca, capacity, start, version, names, now, mint).batch.cache && entry !in start
    ensures MadeBy(ca, entry, names, now, mint)
  {
    hide ServeName, Signed;
    if names != [] {
      var k := |names| - 1;
      var before := Serve(ca, capacity, start, version, names[..k], now, mint);
      if entry in before.batch.cache {
        ServeMakes(ca, capacity, start, version, names[..k], now, mint, entry);
        assert entry.name in names;
      } else {
        NameMakes(ca, capacity, before.batch, names[k], now, mint, entry);
        assert names[k] in names;
      }
    }
  }

  // ---- one request

  // Everything a request answers with is made by it, or was cached before it and is in time.
  lemma AnswerMade<W>(s: Server<W>, req: Request, now: int, mint: Mint, resource: Resource)
    returns (entry: Cached)
    requires Sound(s) && !F.BatchFails(s, req, now, mint) && resource in A.Responding(s, req, now, mint).resources
    ensures entry.resource == resource && entry.name == resource.name && now < entry.expires
    ensures entry in s.cache || MadeBy(s.ca, entry, Sorted(Requested(req)), now, mint)
  {
    hide Sound, F.BatchFails, Serve, MadeBy, Issue, CanonicalName, Lookup, Without, A.Responding;
    A.ServedEntry(s, req, now, mint, resource);
    entry := Lookup(Update(s, req, now, mint).batch.cache, resource.name).value;
    if entry !in s.cache {
      ServeMakes(s.ca, s.capacity, Entering(s, req), s.version, Sorted(Requested(req)), now, mint, entry);
    }
  }

  // ---- runs

  // Some step of the run asked for the name and had the certificate issued.
  ghost predicate MadeIn<W>(ca: Certificate, steps: seq<Step<W>>, entry: Cached) {
    exists i :: 0 <= i < |steps| && MadeAt(ca, steps[i], entry)
  }

  ghost predicate MadeAt<W>(ca: Certificate, step: Step<W>, entry: Cached) {
    && step.Receive? && step.input.Message?
    && MadeBy(ca, entry, Sorted(Elements(step.input.request.subscribe) + step.input.request.initial.Keys), step.now,
              step.mint)
  }

  lemma MadeLater<W>(ca: Certificate, steps: seq<Step<W>>, step: Step<W>, entry: Cached)
    requires MadeIn(ca, steps, entry) || MadeAt(ca, step, entry)
    ensures MadeIn(ca, steps + [step], entry)
  {
    hide MadeAt;
    if MadeIn(ca, steps, entry) {
      var i :| 0 <= i < |steps| && MadeAt(ca, steps[i], entry);
      assert (steps + [step])[i] == steps[i];
    } else {
      assert (steps + [step])[|steps|] == step;
    }
  }

  lemma StepMakes<W>(sys: System<W>, step: Step<W>, entry: Cached)
    requires entry in Apply(sys, step).server.cache && entry !in sys.server.cache
    ensures MadeAt(sys.server.ca, step, entry)
  {
    hide Apply, HandleRequest, Handled, Update, MadeBy;
    if Handled(sys, step) {
      HandledApplies(sys, step);
      HandledStream(sys, step);
      R.RequestCache(sys, step.w, step.input.request, step.now, step.mint);
      var s := Subscribe(sys.server, step.w, step.input.request);
      UpdateMakes(s, step.input.request, step.now, step.mint, entry);
    } else {
      QuietCache(sys, step);
    }
  }

  lemma UpdateMakes<W>(s: Server<W>, req: Request, now: int, mint: Mint, entry: Cached)
    requires entry in Update(s, req, now, mint).batch.cache && entry !in s.cache
    ensures MadeBy(s.ca, entry, Sorted(Elements(req.subscribe) + req.initial.Keys), now, mint)
  {
    hide Serve, MadeBy;
    ServeMakes(s.ca, s.capacity, Entering(s, req), s.version, Sorted(Requested(req)), now, mint, entry);
  }

  // On every run each cached certificate was issued by some request of it, for the name it is cached under.
  lemma {:induction false} CachedCertificates<W>(ca: Certificate, capacity: nat, steps: seq<Step<W>>, entry: Cached)
    requires capacity >= 1 && entry in Run(Start<W>(ca, capacity), steps).server.cache
    ensures MadeIn(ca, steps, entry)
  {
    hide Apply, MadeIn, MadeAt;
    if steps != [] {
      var k := |steps| - 1;
      var sys := Run(Start<W>(ca, capacity), steps[..k]);
      RunKeepsConfiguration<W>(ca, capacity, steps[..k]);
      if entry in sys.server.cache {
        CachedCertificates(ca, capacity, steps[..k], entry);
      } else {
        StepMakes(sys, steps[k], entry);
      }
      MadeLater(ca, steps[..k], steps[k], entry);
      assert steps[..k] + [steps[k]] == steps;
    }
  }

  // Some request of the run asked for the resource's name and had it issued.
  ghost predicate IssuedIn<W>(ca: Certificate, steps: seq<Step<W>>, resource: Resource) {
    exists i :: 0 <= i < |steps| && IssuedAt(ca, steps[i], resource)
  }

  predicate IssuedAt<W>(ca: Certificate, step: Step<W>, resource: Resource) {
    && step.Receive? && step.input.Message?
    && (resource.name in step.input.request.subscribe || resource.name in step.input.request.initial)
    && Signed(ca, resource, step.now, step.mint)
  }

  lemma MadeIssued<W>(ca: Certificate, steps: seq<Step<W>>, entry: Cached)
    requires MadeIn(ca, steps, entry)
    ensures IssuedIn(ca, steps, entry.resource)
  {
    hide Signed;
    var i :| 0 <= i < |steps| && MadeAt(ca, steps[i], entry);
    assert IssuedAt(ca, steps[i], entry.resource);
  }

  lemma IssuedLater<W>(ca: Certificate, steps: seq<Step<W>>, step: Step<W>, resource: Resource)
    requires IssuedIn(ca, steps, resource)
    ensures IssuedIn(ca, steps + [step], resource)
  {
    hide IssuedAt;
    var i :| 0 <= i < |steps| && IssuedAt(ca, steps[i], resource);
    assert (steps + [step])[i] == steps[i];
  }

  // The event is new to the stream.
  ghost predicate NewEvent<W>(sys: System<W>, after: System<W>, w: W, event: Response) {
    && w in after.streams && event in Emissions(after.streams[w].log)
    && (w in sys.streams ==> event !in Emissions(sys.streams[w].log))
  }

  // What a request sends anyone is in the cache when it is sent.
  lemma RequestSends<W>(sys: System<W>, w: W, req: Request, now: int, mint: Mint, v: W, event: Response,
                        resource: Resource)
    requires Channels(sys) && w in sys.streams
    requires NewEvent(sys, HandleRequest(sys, w, req, now, mint), v, event) && resource in event.resources
    ensures exists entry :: entry in HandleRequest(sys, w, req, now, mint).server.cache && entry.resource == resource
  {
    hide Channels, Process, Update, Answer, Sound, F.BatchFails, Emissions, Filter;
    ChannelsSound(sys);
    var p := Process(sys.server, w, req, now, mint);
    if p.status.None? {
      AnsweredActive(sys.server, w, req, now, mint);
      ProcessShape(sys.server, w, req, now, mint);
      var s := Subscribe(sys.server, w, req);
      SoundCache(sys.server, s);
      F.FinishesIff(s, req, now, mint);
      var response := Answer(sys.server.nonce + 1, Update(s, req, now, mint).batch);
      var before := sys.streams[w := Requesting(sys.streams[w], req)][v];
      EmissionsAppend(sys.streams[v].log, Unsubscribed(Elements(req.unsubscribe)));
      EmissionsAppend(before.log, Emitted(Filter(s.watches[v].names, response)));
      assert event == Filter(s.watches[v].names, response);
      FilterKeeps(s.watches[v].names, response, resource);
      A.ServedEntry(s, req, now, mint, resource);
      var entry := Lookup(Update(s, req, now, mint).batch.cache, resource.name).value;
      assert entry in HandleRequest(sys, w, req, now, mint).server.cache && entry.resource == resource;
    }
  }

  lemma FilterKeeps(names: set<string>, response: Response, resource: Resource)
    requires resource in Filter(names, response).resources
    ensures resource in response.resources && resource.name in names
  {
  }

  lemma StepSends<W>(sys: System<W>, step: Step<W>, v: W, event: Response, resource: Resource)
    requires Channels(sys) && NewEvent(sys, Apply(sys, step), v, event) && resource in event.resources
    ensures exists entry :: entry in Apply(sys, step).server.cache && entry.resource == resource
  {
    hide Channels, HandleRequest, Handled, Emissions;
    if Handled(sys, step) {
      HandledApplies(sys, step);
      HandledStream(sys, step);
      RequestSends(sys, step.w, step.input.request, step.now, step.mint, v, event, resource);
    } else {
      QuietStreams(sys, step, v);
    }
  }

  // No other step records an event.
  lemma QuietStreams<W>(sys: System<W>, step: Step<W>, v: W)
    requires !Handled(sys, step)
    ensures v in Apply(sys, step).streams && v in sys.streams ==>
              Apply(sys, step).streams[v].log == sys.streams[v].log
    ensures v in Apply(sys, step).streams && v !in sys.streams ==> Emissions(Apply(sys, step).streams[v].log) == []
  {
    hide HandleRequest;
  }

  // On every run each certificate a client is sent was issued by some request of it, for the name it is sent under.
  lemma {:induction false} SentCertificates<W>(ca: Certificate, capacity: nat, steps: seq<Step<W>>, w: W,
                                               event: Response, resource: Resource)
    requires capacity >= 1
    requires var sys := Run(Start<W>(ca, capacity), steps); w in sys.streams && event in Emissions(sys.streams[w].log)
    requires resource in event.resources
    ensures IssuedIn(ca, steps, resource)
  {
    hide Apply, IssuedIn, MadeIn, Channels, Emissions;
    if steps != [] {
      var k := |steps| - 1;
      var sys := Run(Start<W>(ca, capacity), steps[..k]);
      assert steps[..k] + [steps[k]] == steps;
      if w in sys.streams && event in Emissions(sys.streams[w].log) {
        SentCertificates(ca, capacity, steps[..k], w, event, resource);
        IssuedLater(ca, steps[..k], steps[k], resource);
      } else {
        NoSilentLoss<W>(ca, capacity, steps[..k]);
        StepSends(sys, steps[k], w, event, resource);
        var entry :| entry in Run(Start<W>(ca, capacity), steps).server.cache && entry.resource == resource;
        CachedCertificates(ca, capacity, steps, entry);
        MadeIssued(ca, steps, entry);
      }
    }
  }
}
