/**
  The certificate server as the program holds it: a recency list of elements, a map from names to elements, and a set
  of subscriptions, all updated in place. Each method is proved against the value-level protocol.
*/
module SecretServer {
  import opened Wrappers
  import opened Text
  import opened Leaf
  import opened SecretCache
  import opened SecretAccounts
  import SecretRecency
  import P = SecretProtocol

  /** A list element; the value it carries is set once. */
  class Element {
    const value: Cached

    constructor (value: Cached)
      ensures this.value == value
    {
      this.value := value;
    }
  }

  function Values(elements: seq<Element>): (r: Cache)
    ensures |r| == |elements|
    ensures forall i :: 0 <= i < |r| ==> r[i] == elements[i].value
  {
    seq(|elements|, i requires 0 <= i < |elements| => elements[i].value)
  }

  // The list after unlinking one element.
  function Unlink(elements: seq<Element>, e: Element): (r: seq<Element>)
    ensures forall x <- r :: x in elements
  {
    if elements == [] then []
    else if elements[0] == e then elements[1..]
    else [elements[0]] + Unlink(elements[1..], e)
  }

  lemma ValuesCons(e: Element, rest: seq<Element>)
    ensures Values([e] + rest) == [e.value] + Values(rest)
  {
  }

  lemma WithoutCons(entry: Cached, rest: Cache, dead: set<string>)
    ensures Without([entry] + rest, dead) ==
            if entry.name in dead then Without(rest, dead) else [entry] + Without(rest, dead)
  {
    assert ([entry] + rest)[1..] == rest;
  }

  lemma NamesApart(elements: seq<Element>, e: Element)
    requires elements != [] && Distinct(Values(elements)) && e in elements[1..]
    ensures Apart(elements[0].value, e.value)
  {
    var i :| 1 <= i < |elements| && elements[i] == e;
    assert Apart(Values(elements)[0], Values(elements)[i]);
  }

  lemma NamesTail(elements: seq<Element>)
    requires elements != [] && Distinct(Values(elements))
    ensures Distinct(Values(elements[1..]))
  {
    assert Values(elements)[1..] == Values(elements[1..]);
    TailDistinct(Values(elements));
  }

  lemma NamesAbsent(elements: seq<Element>, name: string)
    requires forall x :: x in elements ==> x.value.name != name
    ensures Without(Values(elements), {name}) == Values(elements)
  {
    forall entry | entry in Values(elements) ensures entry.name != name {
      var i :| 0 <= i < |elements| && Values(elements)[i] == entry;
      assert elements[i] in elements;
    }
    WithoutAbsent(Values(elements), {name});
  }

  // Unlinking the element of a name removes exactly that name.
  lemma {:induction false} UnlinkIsWithout(elements: seq<Element>, e: Element)
    requires e in elements && Distinct(Values(elements))
    ensures Values(Unlink(elements, e)) == Without(Values(elements), {e.value.name})
    ensures forall x :: x in elements && x.value.name != e.value.name ==> x in Unlink(elements, e)
  {
    hide Without, Values, Distinct;
    var first, rest := elements[0], elements[1..];
    assert elements == [first] + rest;
    ValuesCons(first, rest);
    WithoutCons(first.value, Values(rest), {e.value.name});
    NamesTail(elements);
    if first == e {
      forall x | x in rest ensures x.value.name != e.value.name { NamesApart(elements, x); }
      NamesAbsent(rest, e.value.name);
    } else {
      NamesApart(elements, e);
      UnlinkIsWithout(rest, e);
      ValuesCons(first, Unlink(rest, e));
    }
  }

  /** One subscription: names, a queue of at most four responses and a one-slot error channel. */
  class SecretWatch {
    var names: set<string>
    var updates: seq<P.Response>
    var errors: seq<P.Status>

    constructor ()
      ensures View() == P.Watch({}, [], [])
    {
      names, updates, errors := {}, [], [];
    }

    ghost function View(): P.Watch
      reads this
    {
      P.Watch(names, updates, errors)
    }

    // Unsubscribed names go, then subscribed and initially held ones come.
    method Subscribe(req: P.Request)
      modifies `names
      ensures names == P.NamesAfter(old(names), req)
    {
      for i := 0 to |req.unsubscribe|
        invariant names == old(names) - Elements(req.unsubscribe[..i])
      {
        assert req.unsubscribe[..i + 1] == req.unsubscribe[..i] + [req.unsubscribe[i]];
        names := names - {req.unsubscribe[i]};
      }
      assert req.unsubscribe[..|req.unsubscribe|] == req.unsubscribe;
      ghost var kept := names;
      for i := 0 to |req.subscribe|
        invariant names == kept + Elements(req.subscribe[..i])
      {
        assert req.subscribe[..i + 1] == req.subscribe[..i] + [req.subscribe[i]];
        names := names + {req.subscribe[i]};
      }
      assert req.subscribe[..|req.subscribe|] == req.subscribe;
      names := names + req.initial.Keys;
    }

    method Fail(status: P.Status)
      modifies this
      ensures View() == P.Fail(old(View()), status)
    {
      if |errors| < 1 { errors := errors + [status]; }
    }

    method Enqueue(response: P.Response)
      modifies this
      ensures View() == P.Enqueue(old(View()), response)
    {
      if |response.resources| + |response.removed| == 0 { return; }
      if |updates| < P.QUEUE {
        updates := updates + [response];
      } else {
        Fail(P.ResourceExhausted);
      }
    }

    // The body of the loop over subscriptions: what concerns this one is queued and its removed names are forgotten.
    method Notify(response: P.Response)
      requires forall i, j :: 0 <= i < j < |response.removed| ==> response.removed[i] != response.removed[j]
      modifies this
      ensures View() == P.Notify(old(View()), response)
    {
      hide P.Enqueue, P.Fail, P.KeepResources, P.KeepNames, Elements;
      P.KeepNone(names);
      assert response.resources[..0] == [] && response.removed[..0] == [];
      var resources := [];
      for i := 0 to |response.resources|
        invariant resources == P.KeepResources(response.resources[..i], names) && View() == old(View())
      {
        P.KeepNext(response, names, i);
        if response.resources[i].name in names { resources := resources + [response.resources[i]]; }
      }
      assert response.resources[..|response.resources|] == response.resources;
      var removed: seq<string> := [];
      ElementsNone<string>();
      for i := 0 to |response.removed|
        invariant removed == P.KeepNames(response.removed[..i], old(names))
        invariant names == old(names) - Elements(removed)
        invariant updates == old(updates) && errors == old(errors)
      {
        var name := response.removed[i];
        assert name !in response.removed[..i];
        P.KeepNext(response, old(names), i);
        ElementsAppend(removed, name);
        if name in names {
          removed := removed + [name];
          names := names - {name};
        }
      }
      assert response.removed[..|response.removed|] == response.removed;
      Enqueue(P.Response(response.nonce, resources, removed));
    }
  }

  type View = P.Server<SecretWatch>

  /** The server: its mutex makes each public method atomic, which is what running a method alone says here. */
  class SecretServer {
    const authority: Certificate
    const capacity: nat
    var watches: set<SecretWatch>
    var entries: map<string, Element>
    var lru: seq<Element>
    var version: nat
    var nonce: nat

    // List and map hold the same names, each map pointer leads to the list element of its name, and the cache is
    // well formed: bounded, without duplicates, every name issuable, versions distinct and at most the counter.
    ghost predicate Valid()
      reads this
    {
      && 1 <= capacity <= P.MAX_REQUEST_NAMES
      && Indexed(entries, lru)
      && WellFormed(authority, capacity, Values(lru), version)
    }

    ghost function Watches(): map<SecretWatch, P.Watch>
      reads `watches, watches
    {
      map w | w in watches :: w.View()
    }

    ghost function View(): View
      reads this, watches
    {
      P.Server(authority, capacity, Values(lru), version, nonce, Watches())
    }

    constructor Create(authority: Certificate, capacity: nat)
      requires 1 <= capacity <= P.MAX_REQUEST_NAMES
      ensures Valid() && watches == {}
      ensures View() == P.Server(authority, capacity, [], 0, 0, map[])
    {
      this.authority, this.capacity := authority, capacity;
      watches, entries, lru, version, nonce := {}, map[], [], 0, 0;
    }

    method Remove(name: string)
      requires Valid()
      modifies `entries, `lru
      ensures Valid()
      ensures Values(lru) == Without(old(Values(lru)), {name}) && entries == old(entries) - {name}
    {
      hide WellFormed, Indexed, Unlink, Without, Values;
      WithoutWellFormed(authority, capacity, Values(lru), version, {name});
      assert Distinct(Values(lru)) by { WellFormedDistinct(authority, capacity, Values(lru), version); }
      IndexedLookup(entries, lru, name);
      if name in entries {
        var e := entries[name];
        UnlinkIsWithout(lru, e);
        UnlinkIndexed(entries, lru, name);
        lru := Unlink(lru, e);
        entries := entries - {name};
      } else {
        assert entries - {name} == entries;
      }
    }
  
    // Put a fresh element in front, evicting the last one from a full list.
    method Insert(entry: Cached, resources: map<string, Resource>, removed: set<string>)
      returns (resources': map<string, Resource>, removed': set<string>)
      requires Valid() && entry.name !in entries
      requires WellFormed(authority, capacity, [entry], version)
      requires forall other :: other in Values(lru) ==> Apart(entry, other)
      modifies `entries, `lru
      ensures Valid()
      ensures Batch(Values(lru), version, resources', removed')
              == SecretCache.Insert(capacity, Batch(old(Values(lru)), version, resources, removed), entry)
    {
      hide Genuine, Indexed, Distinct, Without, Values;
      resources', removed' := resources, removed;
      ghost var b := Batch(Values(lru), version, resources, removed);
      assert Genuine(authority, version, entry) by { assert entry in [entry]; }
      InsertKeepsWellFormed(authority, capacity, b, entry);
      if |lru| == capacity {
        var evicted := lru[|lru| - 1].value.name;
        Remove(evicted);
        removed' := removed' + {evicted};
        resources' := resources' - {evicted};
      }
      var e := new Element(entry);
      ValuesCons(e, lru);
      PrependIndexed(entries, lru, e);
      lru := [e] + lru;
      entries := entries[entry.name := e];
      resources' := resources'[entry.name := entry.resource];
    }
  
    // The body of the loop over requested names.
    method ServeOne(name: string, now: int, mint: Mint, resources: map<string, Resource>, removed: set<string>)
      returns (ok: bool, resources': map<string, Resource>, removed': set<string>)
      requires Valid()
      modifies `entries, `lru, `version
      ensures Valid()
      ensures ServeName(authority, capacity, Batch(old(Values(lru)), old(version), resources, removed), name, now, mint)
              == (if ok then Done(Batch(Values(lru), version, resources', removed'))
                  else Stopped(Batch(Values(lru), version, resources', removed')))
    {
      hide Genuine, Indexed, Distinct, Without, Values, CanonicalName, Issue, SecretCache.Insert, Lookup;
      ok, resources', removed' := true, resources, removed;
      if !Issuable(name) {
        removed' := removed' + {name};
        return;
      }
      IndexedLookup(entries, lru, name);
      if name in entries {
        var e := entries[name];
        if now < e.value.expires {
          HitKeepsWellFormed(authority, capacity, Values(lru), version, e.value);
          UnlinkIsWithout(lru, e);
          UnlinkIndexed(entries, lru, name);
          var rest := Unlink(lru, e);
          ValuesCons(e, rest);
          PrependIndexed(entries - {name}, rest, e);
          assert (entries - {name})[name := e] == entries;
          lru := [e] + rest;
          resources' := resources'[name := e.value.resource];
          return;
        }
      }
      Remove(name);
      var issued := Issue(authority, CanonicalName(name).value, now, mint(name));
      if issued.None? {
        ok := false;
        return;
      }
      NewerVersion(authority, capacity, Values(lru), version);
      version := version + 1;
      var entry := Cached(name, Resource(name, version, issued.value), now + TTL);
      FreshEntry(authority, capacity, Values(lru), version, entry, now, mint);
      resources', removed' := Insert(entry, resources', removed');
    }
  
    // Whether any subscription still holds a name; the order of the search does not matter.
    method IsInterested(name: string) returns (interested: bool)
      ensures interested <==> P.Interested(Watches(), name)
    {
      var todo := watches;
      interested := false;
      while todo != {} && !interested
        invariant todo <= watches
        invariant forall w :: w in watches - todo && !interested ==> name !in w.names
        invariant interested ==> exists w :: w in watches && name in w.names
        decreases |todo|
      {
        var w :| w in todo;
        if name in w.names { interested := true; }
        todo := todo - {w};
      }
      if interested {
        var w :| w in watches && name in w.names;
        assert w in Watches() && name in Watches()[w].names;
      }
    }

    // Forget the unsubscribed names that no subscription holds.
    method DropIdle(unsubscribe: seq<string>)
      requires Valid()
      modifies `entries, `lru
      ensures Valid()
      ensures Values(lru) == Without(old(Values(lru)), P.Idle(Watches(), unsubscribe))
    {
      hide WellFormed, Indexed, Without, Values;
      ghost var start := Values(lru);
      ghost var known := Watches();
      WithoutAbsent(start, {});
      assert P.Idle(known, unsubscribe[..0]) == {};
      for i := 0 to |unsubscribe|
        invariant Valid() && Watches() == known
        invariant Values(lru) == Without(start, P.Idle(known, unsubscribe[..i]))
      {
        var interested := IsInterested(unsubscribe[i]);
        IdleStep(known, unsubscribe, i);
        if !interested {
          SecretRecency.WithoutTwice(start, P.Idle(known, unsubscribe[..i]), {unsubscribe[i]});
          Remove(unsubscribe[i]);
        }
      }
      assert unsubscribe[..|unsubscribe|] == unsubscribe;
    }

    method UpdateLocked(req: P.Request, now: int, mint: Mint) returns (r: Result<P.Response, ()>)
      requires Valid()
      modifies `entries, `lru, `version, `nonce
      ensures Valid()
      ensures match P.Update(old(View()), req, now, mint)
              case Stopped(b) =>
                r == Err(()) && View() == old(View()).(cache := b.cache, version := b.version)
              case Done(b) =>
                && r == Ok(P.Answer(old(nonce) + 1, b))
                && View() == old(View()).(cache := b.cache, version := b.version, nonce := old(nonce) + 1)
    {
      hide WellFormed, Indexed, Without, Values, Serve, ServeName, P.Answer, P.Idle;
      DropIdle(req.unsubscribe);
      ghost var start := Values(lru);
      var names := Sorted(P.Requested(req));
      var resources: map<string, Resource>, removed: set<string> := map[], {};
      ServeNone(authority, capacity, start, version, now, mint);
      assert names[..0] == [];
      for i := 0 to |names|
        invariant Valid() && Watches() == old(Watches()) && nonce == old(nonce)
        invariant Serve(authority, capacity, start, old(version), names[..i], now, mint)
                  == Done(Batch(Values(lru), version, resources, removed))
      {
        var ok;
        ServeNext(authority, capacity, start, old(version), names, now, mint, i);
        ok, resources, removed := ServeOne(names[i], now, mint, resources, removed);
        if !ok {
          StoppedStays(authority, capacity, start, old(version), names, now, mint, i + 1);
          return Err(());
        }
      }
      assert names[..|names|] == names;
      nonce := nonce + 1;
      var response := Respond(Batch(Values(lru), version, resources, removed), resources, removed);
      return Ok(response);
    }

    // The response lists the resources, then the removed names, each in sorted order.
    method Respond(ghost b: Batch, resources: map<string, Resource>, removed: set<string>) returns (r: P.Response)
      requires b.resources == resources && b.removed == removed
      ensures r == P.Answer(nonce, b)
    {
      var keys := Sorted(resources.Keys);
      var list := [];
      for i := 0 to |keys|
        invariant list == P.Pick(keys, resources)[..i]
      {
        assert keys[i] in keys;
        list := list + [resources[keys[i]]];
      }
      r := P.Response(nonce, list, Sorted(removed));
    }
  
    method Process(w: SecretWatch, req: P.Request, now: int, mint: Mint) returns (status: Option<P.Status>)
      requires Valid()
      modifies this, watches
      ensures Valid() && watches == old(watches)
      ensures P.Processed(View(), status) == P.Process(old(View()), w, req, now, mint)
    {
      hide WellFormed, Indexed, Values, P.Update, P.Answer, P.NotifyAll, P.NamesAfter;
      if w !in watches { return Some(P.Canceled); }
      w.Subscribe(req);
      ghost var subscribed := P.Subscribe(old(View()), w, req);
      assert View() == subscribed by { assert Watches() == subscribed.watches; }
      if |w.names| > P.MAX_REQUEST_NAMES { return Some(P.ResourceExhausted); }
      var r := UpdateLocked(req, now, mint);
      if r.Err? { return Some(P.Internal); }
      assert Watches() == subscribed.watches;
      AnswerRemovedOnce(nonce, P.Update(subscribed, req, now, mint).batch);
      NotifyWatches(r.value);
      return None;
    }

    // Every subscription is told its part of a response, in whatever order the set yields them.
    method NotifyWatches(response: P.Response)
      requires forall i, j :: 0 <= i < j < |response.removed| ==> response.removed[i] != response.removed[j]
      modifies watches
      ensures Watches() == P.NotifyAll(old(Watches()), response)
    {
      var todo := watches;
      while todo != {}
        invariant todo <= watches
        invariant forall w :: w in todo ==> w.View() == old(w.View())
        invariant forall w :: w in watches - todo ==> w.View() == P.Notify(old(w.View()), response)
        decreases |todo|
      {
        var w :| w in todo;
        w.Notify(response);
        todo := todo - {w};
      }
    }

    // A new stream registers its subscription, unless the limit is reached.
    method Register() returns (r: Result<SecretWatch, P.Status>)
      requires Valid()
      modifies `watches
      ensures Valid()
      ensures if |old(watches)| >= 2 * capacity then r == Err(P.ResourceExhausted) && watches == old(watches)
              else r.Ok? && fresh(r.value) && watches == old(watches) + {r.value}
      ensures View() == (if r.Err? then old(View())
                         else old(View()).(watches := old(Watches())[r.value := P.Watch({}, [], [])]))
    {
      hide WellFormed, Indexed, Values;
      var w := new SecretWatch();
      if |watches| >= 2 * capacity { return Err(P.ResourceExhausted); }
      watches := watches + {w};
      assert Watches() == old(Watches())[w := P.Watch({}, [], [])];
      return Ok(w);
    }

    // A stream that ends takes its subscription away and leaves the cache alone.
    method Unregister(w: SecretWatch)
      requires Valid()
      modifies `watches
      ensures Valid()
      ensures View() == old(View()).(watches := old(Watches()) - {w})
    {
      hide WellFormed, Indexed, Values;
      watches := watches - {w};
      assert Watches() == old(Watches()) - {w};
    }
  }

  lemma AnswerRemovedOnce(nonce: nat, b: Batch)
    ensures var removed := P.Answer(nonce, b).removed;
            forall i, j :: 0 <= i < j < |removed| ==> removed[i] != removed[j]
  {
  }

  // `NewSecretServer`: an authority is required and the capacity is bounded.
  method NewSecretServer(authority: Option<Certificate>, capacity: int) returns (r: Option<SecretServer>)
    ensures r.Some? <==> authority.Some? && 1 <= capacity <= P.MAX_REQUEST_NAMES
    ensures r.Some? ==>
              && fresh(r.value) && r.value.Valid() && r.value.watches == {}
              && r.value.View() == P.Server(authority.value, capacity, [], 0, 0, map[])
  {
    if authority.None? || capacity < 1 || capacity > P.MAX_REQUEST_NAMES { return None; }
    var s := new SecretServer.Create(authority.value, capacity);
    return Some(s);
  }

  lemma IdleStep(watches: map<SecretWatch, P.Watch>, unsubscribe: seq<string>, i: nat)
    requires i < |unsubscribe|
    ensures var idle := P.Idle(watches, unsubscribe[..i]);
            P.Idle(watches, unsubscribe[..i + 1]) ==
            if P.Interested(watches, unsubscribe[i]) then idle else idle + {unsubscribe[i]}
  {
    assert unsubscribe[..i + 1] == unsubscribe[..i] + [unsubscribe[i]];
  }

  lemma ServeNone(ca: Certificate, capacity: nat, cache: Cache, version: nat, now: int, mint: Mint)
    ensures Serve(ca, capacity, cache, version, [], now, mint) == Done(Batch(cache, version, map[], {}))
  {
  }

  lemma WellFormedDistinct(ca: Certificate, capacity: nat, cache: Cache, version: nat)
    requires WellFormed(ca, capacity, cache, version)
    ensures Distinct(cache)
  {
  }

  lemma FreshEntry(ca: Certificate, capacity: nat, cache: Cache, version: nat, entry: Cached, now: int, mint: Mint)
    requires capacity >= 1 && version >= 1 && WellFormed(ca, capacity, cache, version - 1)
    requires Issuable(entry.name) && forall other :: other in cache ==> other.name != entry.name
    requires var leaf := Issue(ca, CanonicalName(entry.name).value, now, mint(entry.name));
             leaf.Some? && entry == Cached(entry.name, Resource(entry.name, version, leaf.value), now + TTL)
    ensures WellFormed(ca, capacity, [entry], version)
    ensures forall other :: other in cache ==> Apart(entry, other)
  {
    hide Issuable, CanonicalName, WholeSecond;
    assert Genuine(ca, version, entry);
    assert forall other :: other in cache ==> Genuine(ca, version - 1, other);
  }

  lemma PrependIndexed(entries: map<string, Element>, lru: seq<Element>, e: Element)
    requires Indexed(entries, lru) && e.value.name !in entries
    ensures Indexed(entries[e.value.name := e], [e] + lru)
  {
  }

  lemma NewerVersion(ca: Certificate, capacity: nat, cache: Cache, version: nat)
    requires WellFormed(ca, capacity, cache, version)
    ensures WellFormed(ca, capacity, cache, version + 1)
  {
    hide Issue, CanonicalName, Issuable;
    assert forall entry :: entry in cache ==> Genuine(ca, version, entry);
  }

  ghost predicate Indexed(entries: map<string, Element>, lru: seq<Element>) {
    && (forall name :: name in entries ==> entries[name] in lru && entries[name].value.name == name)
    && (forall e :: e in lru ==> e.value.name in entries && entries[e.value.name] == e)
  }

  lemma UnlinkIndexed(entries: map<string, Element>, lru: seq<Element>, name: string)
    requires Indexed(entries, lru) && Distinct(Values(lru)) && name in entries
    ensures Indexed(entries - {name}, Unlink(lru, entries[name]))
  {
    hide Without, Unlink;
    UnlinkIsWithout(lru, entries[name]);
    UnlinkMembers(lru, entries[name]);
    var rest := Unlink(lru, entries[name]);
    forall e | e in rest ensures e.value.name != name {
      var i :| 0 <= i < |rest| && rest[i] == e;
      assert Values(rest)[i] in Values(rest);
    }
  }

  lemma UnlinkMembers(elements: seq<Element>, e: Element)
    ensures forall x :: x in Unlink(elements, e) ==> x in elements
  {
  }

  // The map finds exactly what a search of the list finds.
  lemma IndexedLookup(entries: map<string, Element>, lru: seq<Element>, name: string)
    requires Indexed(entries, lru) && Distinct(Values(lru))
    ensures name in entries <==> Lookup(Values(lru), name).Some?
    ensures name in entries ==> Lookup(Values(lru), name) == Some(entries[name].value)
    ensures if name in entries then entries[name] in lru && entries[name].value.name == name
            else Without(Values(lru), {name}) == Values(lru)
  {
    hide Lookup;
    if name in entries {
      var i :| 0 <= i < |lru| && lru[i] == entries[name];
      assert Values(lru)[i] in Values(lru);
      LookupInDistinct(Values(lru), entries[name].value);
    }
    forall i | 0 <= i < |lru| ensures Values(lru)[i].name in entries {
      assert lru[i] in lru;
    }
    if name !in entries { NamesAbsent(lru, name); }
  }
}
