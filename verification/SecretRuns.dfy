/**
  The recency order over whole runs: every run of the service, failures included, moves the cache as one sequence of
  uses and drops, so what is known of such sequences holds of the service.
*/
module SecretRuns {
  import opened Wrappers
  import opened Text
  import opened Leaf
  import opened SecretCache
  import opened SecretProtocol
  import opened SecretStreams
  import opened SecretViews
  import R = SecretRecency
  import F = SecretForecast
  import A = SecretResults

  // The operations of a step: those of its request, if it is one and reaches the cache.
  function StepOps<W>(sys: System<W>, step: Step<W>): seq<R.Op> {
    if Handled(sys, step) && step.w in sys.server.watches
       && |Subscribe(sys.server, step.w, step.input.request).watches[step.w].names| <= MAX_REQUEST_NAMES
    then A.RequestOps(Subscribe(sys.server, step.w, step.input.request), step.input.request, step.now, step.mint)
    else []
  }

  function RunOps<W>(sys: System<W>, steps: seq<Step<W>>): seq<R.Op> {
    if steps == [] then []
    else
      var before := steps[..|steps| - 1];
      RunOps(sys, before) + StepOps(Run(sys, before), steps[|steps| - 1])
  }

  // The cache after a request: its batch's, or the one before.
  lemma RequestCache<W>(sys: System<W>, w: W, req: Request, now: int, mint: Mint)
    requires w in sys.streams
    ensures HandleRequest(sys, w, req, now, mint).server.cache ==
            if w in sys.server.watches && |Subscribe(sys.server, w, req).watches[w].names| <= MAX_REQUEST_NAMES
            then Update(Subscribe(sys.server, w, req), req, now, mint).batch.cache
            else sys.server.cache
  {
    hide Update, Answer, NotifyAll, RecordAll;
  }

  lemma ProcessedCache<W>(sys: System<W>, w: W, req: Request, now: int, mint: Mint)
    requires w in sys.streams
    ensures HandleRequest(sys, w, req, now, mint).server.cache == Process(sys.server, w, req, now, mint).server.cache
  {
    hide Process, Update, Answer, RecordAll;
  }

  lemma StepReplays<W>(sys: System<W>, step: Step<W>)
    requires Channels(sys)
    ensures Names(Apply(sys, step).server.cache) ==
            R.Replay(Names(sys.server.cache), StepOps(sys, step), sys.server.capacity)
  {
    hide Channels, Sound, Apply, HandleRequest, Handled, Update, A.RequestOps, Names;
    ChannelsSound(sys);
    if Handled(sys, step) {
      HandledApplies(sys, step);
      HandledStream(sys, step);
      RequestCache(sys, step.w, step.input.request, step.now, step.mint);
      if step.w in sys.server.watches {
        var subscribed := Subscribe(sys.server, step.w, step.input.request);
        SoundCache(sys.server, subscribed);
        A.UpdateIsReplay(subscribed, step.input.request, step.now, step.mint);
      }
    } else {
      QuietCache(sys, step);
    }
  }

  // Every run, whatever fails, leaves the cache in the order its operations leave an empty one.
  lemma {:induction false} RunReplays<W>(ca: Certificate, capacity: nat, steps: seq<Step<W>>)
    requires capacity >= 1
    ensures Names(Run(Start<W>(ca, capacity), steps).server.cache) ==
            R.Replay([], RunOps(Start<W>(ca, capacity), steps), capacity)
  {
    hide Channels, Apply, StepOps;
    if steps != [] {
      var sys := Start<W>(ca, capacity);
      var before := steps[..|steps| - 1];
      RunReplays(ca, capacity, before);
      NoSilentLoss(ca, capacity, before);
      RunKeepsConfiguration(ca, capacity, before);
      StepReplays(Run(sys, before), steps[|steps| - 1]);
      R.ReplayAppend([], RunOps(sys, before), StepOps(Run(sys, before), steps[|steps| - 1]), capacity);
    }
  }

  // Two services that have seen the same uses and drops: the smaller cache holds a prefix of the larger one.
  lemma RunInclusion<W>(ca: Certificate, small: nat, steps: seq<Step<W>>, ca': Certificate, large: nat,
                        steps': seq<Step<W>>)
    requires 1 <= small <= large
    requires RunOps(Start<W>(ca, small), steps) == RunOps(Start<W>(ca', large), steps')
    ensures Names(Run(Start<W>(ca, small), steps).server.cache) <=
            Names(Run(Start<W>(ca', large), steps').server.cache)
  {
    hide Run, RunOps, Names;
    RunReplays(ca, small, steps);
    RunReplays(ca', large, steps');
    R.Inclusion([], [], RunOps(Start<W>(ca, small), steps), small, large);
  }

  predicate OnlyUses(ops: seq<R.Op>) { forall op :: op in ops ==> op.Use? }

  function UsedNames(ops: seq<R.Op>): (r: seq<string>)
    ensures |r| == |ops|
  {
    seq(|ops|, i requires 0 <= i < |ops| => ops[i].name)
  }

  lemma UsesOnly(ops: seq<R.Op>)
    requires OnlyUses(ops)
    ensures R.Uses(UsedNames(ops)) == ops
  {
    forall i | 0 <= i < |ops| ensures R.Uses(UsedNames(ops))[i] == ops[i] { assert ops[i] in ops; }
  }

  // Without drops the cache is the first `capacity` distinct names by last use.
  lemma RunMostRecent<W>(ca: Certificate, capacity: nat, steps: seq<Step<W>>)
    requires capacity >= 1 && OnlyUses(RunOps(Start<W>(ca, capacity), steps))
    ensures var used := UsedNames(RunOps(Start<W>(ca, capacity), steps));
            exists order: seq<string> ::
              R.ByLastUse(order, used)
              && Names(Run(Start<W>(ca, capacity), steps).server.cache) == R.Take(order, capacity)
  {
    hide Run, RunOps, Names, R.Replay, R.ByLastUse, R.Take;
    var used := UsedNames(RunOps(Start<W>(ca, capacity), steps));
    RunReplays(ca, capacity, steps);
    UsesOnly(RunOps(Start<W>(ca, capacity), steps));
    R.HoldsMostRecent(used, capacity);
    R.UnboundedByLastUse(used, |used|);
  }
}
