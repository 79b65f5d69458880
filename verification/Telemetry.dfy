/**
  The bounded walk along parent spans, and why its fixed number of rounds is enough: a longer chain of distinct
  spans does not exist, and a repeating one shows nothing new.
*/
module Telemetry {
  import opened Wrappers

  datatype Span = Span(trace: string, id: string, parent: string)

  // The first span in the list that is the parent of `child` in the same trace.
  function FirstParent(spans: seq<Span>, child: Span): (r: Option<Span>)
    ensures r.Some? ==> r.value in spans && IsParent(r.value, child)
    ensures r.None? ==> forall s :: s in spans ==> !IsParent(s, child)
  {
    if spans == [] then None
    else if IsParent(spans[0], child) then Some(spans[0])
    else
      assert forall s :: s in spans <==> s == spans[0] || s in spans[1..];
      FirstParent(spans[1..], child)
  }

  predicate IsParent(s: Span, child: Span) { s.trace == child.trace && s.id == child.parent }

  // The span reached after `k` first-parent steps, if the walk gets that far.
  function Walk(spans: seq<Span>, child: Span, k: nat): Option<Span> {
    if k == 0 then Some(child)
    else
      var before := Walk(spans, child, k - 1);
      if before.None? then None else FirstParent(spans, before.value)
  }

  predicate Reaches(spans: seq<Span>, child: Span, ancestor: string, k: nat) {
    var reached := Walk(spans, child, k);
    reached.Some? && reached.value.parent == ancestor
  }

  // The source's loop: at most one round more than there are spans.
  method Descends(spans: seq<Span>, child: Span, ancestor: string) returns (found: bool)
    ensures found <==> exists k: nat :: Reaches(spans, child, ancestor, k)
  {
    var current := child;
    for round := 0 to |spans| + 1
      invariant Walk(spans, child, round) == Some(current)
      invariant forall k: nat :: k < round ==> !Reaches(spans, child, ancestor, k)
    {
      if current.parent == ancestor {
        assert Reaches(spans, child, ancestor, round);
        return true;
      }
      var matched := false;
      var i := 0;
      while i < |spans|
        invariant i <= |spans| && !matched
        invariant FirstParent(spans, current) == FirstParent(spans[i..], current)
      {
        if spans[i].trace == current.trace && spans[i].id == current.parent {
          matched := true;
          break;
        }
        i := i + 1;
      }
      if !matched {
        EndedNeverReaches(spans, child, ancestor, round);
        return false;
      }
      assert Walk(spans, child, round + 1) == FirstParent(spans, current) == Some(spans[i]);
      current := spans[i];
    }
    ShortestFits(spans, child, ancestor);
    return false;
  }

  // Once the walk has no next span it reaches nothing more.
  lemma {:induction false} WalkStaysEnded(spans: seq<Span>, child: Span, k: nat, j: nat)
    requires k <= j && Walk(spans, child, k).None?
    ensures Walk(spans, child, j).None?
  {
    if k < j { WalkStaysEnded(spans, child, k, j - 1); }
  }

  lemma EndedNeverReaches(spans: seq<Span>, child: Span, ancestor: string, round: nat)
    requires Walk(spans, child, round + 1).None?
    requires forall k: nat :: k <= round ==> !Reaches(spans, child, ancestor, k)
    ensures forall k: nat :: !Reaches(spans, child, ancestor, k)
  {
    forall k: nat ensures !Reaches(spans, child, ancestor, k) {
      if k > round { WalkStaysEnded(spans, child, round + 1, k); }
    }
  }

  // ---- the pigeonhole

  // A list longer than the set its elements come from repeats an element.
  lemma {:induction false} Pigeonhole(xs: seq<Span>, holes: set<Span>)
    requires (forall x :: x in xs ==> x in holes) && |xs| > |holes|
    ensures exists i, j :: 0 <= i < j < |xs| && xs[i] == xs[j]
  {
    var last := |xs| - 1;
    if i :| 0 <= i < last && xs[i] == xs[last] {
    } else {
      var rest := xs[..last];
      assert xs[last] in holes;
      forall x | x in rest ensures x in holes - {xs[last]} {
        var i :| 0 <= i < last && rest[i] == x;
        assert xs[i] in xs;
      }
      Pigeonhole(rest, holes - {xs[last]});
      var i, j :| 0 <= i < j < |rest| && rest[i] == rest[j];
      assert xs[i] == xs[j];
    }
  }

  lemma {:induction false} ElementsBound(spans: seq<Span>)
    ensures |set s | s in spans| <= |spans|
  {
    if spans != [] {
      ElementsBound(spans[1..]);
      assert (set s | s in spans) == (set s | s in spans[1..]) + {spans[0]};
    }
  }

  // Where the walk repeats itself it keeps repeating.
  lemma {:induction false} WalkRepeats(spans: seq<Span>, child: Span, i: nat, j: nat, more: nat)
    requires Walk(spans, child, i) == Walk(spans, child, j)
    ensures Walk(spans, child, i + more) == Walk(spans, child, j + more)
  {
    if more > 0 { WalkRepeats(spans, child, i, j, more - 1); }
  }

  lemma {:induction false} WalkPrefix(spans: seq<Span>, child: Span, k: nat, j: nat)
    requires j <= k && Walk(spans, child, k).Some?
    ensures Walk(spans, child, j).Some? && (j > 0 ==> Walk(spans, child, j).value in spans)
  {
    if Walk(spans, child, j).None? { WalkStaysEnded(spans, child, j, k); }
  }

  // The spans a walk visits after its start.
  lemma {:induction false} Visits(spans: seq<Span>, child: Span, k: nat) returns (visited: seq<Span>)
    requires Walk(spans, child, k).Some?
    ensures |visited| == k
    ensures forall i :: 0 <= i < k ==> visited[i] in spans && Walk(spans, child, i + 1) == Some(visited[i])
  {
    if k == 0 {
      visited := [];
    } else {
      WalkPrefix(spans, child, k, k - 1);
      var before := Visits(spans, child, k - 1);
      visited := before + [Walk(spans, child, k).value];
    }
  }

  // A walk of more steps than there are spans visits some span twice.
  lemma WalkRevisits(spans: seq<Span>, child: Span, k: nat)
    requires k > |spans| && Walk(spans, child, k).Some?
    ensures exists i, j :: 0 < i < j <= k && Walk(spans, child, i) == Walk(spans, child, j)
  {
    hide Walk;
    var visited := Visits(spans, child, k);
    ElementsBound(spans);
    assert forall x :: x in visited ==> x in set s | s in spans;
    Pigeonhole(visited, set s | s in spans);
    var i, j :| 0 <= i < j < k && visited[i] == visited[j];
    assert Walk(spans, child, i + 1) == Walk(spans, child, j + 1);
  }

  // So whatever such a walk reaches, a shorter one reaches too.
  lemma Shortcut(spans: seq<Span>, child: Span, ancestor: string, k: nat)
    requires k > |spans| && Reaches(spans, child, ancestor, k)
    ensures exists j: nat :: j < k && Reaches(spans, child, ancestor, j)
  {
    hide Walk;
    WalkRevisits(spans, child, k);
    var i, j :| 0 < i < j <= k && Walk(spans, child, i) == Walk(spans, child, j);
    WalkRepeats(spans, child, i, j, k - j);
    assert Reaches(spans, child, ancestor, i + (k - j));
  }

  lemma {:induction false} Shortest(spans: seq<Span>, child: Span, ancestor: string, k: nat)
    requires Reaches(spans, child, ancestor, k)
    ensures exists j: nat :: j <= |spans| && Reaches(spans, child, ancestor, j)
    decreases k
  {
    if k > |spans| {
      Shortcut(spans, child, ancestor, k);
      var j: nat :| j < k && Reaches(spans, child, ancestor, j);
      Shortest(spans, child, ancestor, j);
    }
  }

  // So what the first |spans| + 1 positions of the walk do not show, no later one does, cycles included.
  lemma ShortestFits(spans: seq<Span>, child: Span, ancestor: string)
    ensures (exists k: nat :: Reaches(spans, child, ancestor, k)) <==>
            (exists k: nat :: k <= |spans| && Reaches(spans, child, ancestor, k))
  {
    if k: nat :| Reaches(spans, child, ancestor, k) { Shortest(spans, child, ancestor, k); }
  }

  // ---- transitive ancestry

  // A chain of spans, each a recorded parent of the one before, from `child` to one whose parent is the ancestor.
  ghost predicate Lineage(spans: seq<Span>, child: Span, ancestor: string, chain: seq<Span>) {
    && chain != [] && chain[0] == child && chain[|chain| - 1].parent == ancestor
    && forall i :: 0 < i < |chain| ==>
         chain[i] in spans && chain[i].trace == chain[i - 1].trace && chain[i].id == chain[i - 1].parent
  }

  // No two spans of one trace share an identifier.
  ghost predicate UniqueIds(spans: seq<Span>) {
    forall a, b :: a in spans && b in spans && a.trace == b.trace && a.id == b.id ==> a == b
  }

  lemma {:induction false} WalkIsChain(spans: seq<Span>, child: Span, k: nat) returns (chain: seq<Span>)
    requires Walk(spans, child, k).Some?
    ensures |chain| == k + 1 && Lineage(spans, child, Walk(spans, child, k).value.parent, chain)
    ensures chain[k] == Walk(spans, child, k).value
  {
    if k == 0 {
      chain := [child];
    } else {
      var before := WalkIsChain(spans, child, k - 1);
      chain := before + [Walk(spans, child, k).value];
    }
  }

  lemma {:induction false} ChainIsWalk(spans: seq<Span>, child: Span, ancestor: string, chain: seq<Span>, k: nat)
    requires UniqueIds(spans) && Lineage(spans, child, ancestor, chain) && k < |chain|
    ensures Walk(spans, child, k) == Some(chain[k])
  {
    if k > 0 {
      ChainIsWalk(spans, child, ancestor, chain, k - 1);
      assert chain[k] in spans && IsParent(chain[k], chain[k - 1]);
    }
  }

  // With identifiers unique within each trace the walk finds exactly transitive ancestry; without, it never claims
  // an ancestor that no chain supports.
  lemma DescendsIsAncestry(spans: seq<Span>, child: Span, ancestor: string)
    ensures (exists k: nat :: Reaches(spans, child, ancestor, k)) ==>
              exists chain :: Lineage(spans, child, ancestor, chain)
    ensures UniqueIds(spans) ==>
              ((exists k: nat :: Reaches(spans, child, ancestor, k)) <==>
               (exists chain :: Lineage(spans, child, ancestor, chain)))
  {
    if k: nat :| Reaches(spans, child, ancestor, k) {
      var chain := WalkIsChain(spans, child, k);
    }
    if UniqueIds(spans) {
      if chain :| Lineage(spans, child, ancestor, chain) {
        ChainIsWalk(spans, child, ancestor, chain, |chain| - 1);
        assert Reaches(spans, child, ancestor, |chain| - 1);
      }
    }
  }

  // ---- exactly when the walk is ancestry

  ghost predicate Reachable(spans: seq<Span>, child: Span, ancestor: string) {
    exists k: nat :: Reaches(spans, child, ancestor, k)
  }

  ghost predicate Descendant(spans: seq<Span>, child: Span, ancestor: string) {
    exists chain :: Lineage(spans, child, ancestor, chain)
  }

  // For every child and ancestor.
  ghost predicate WalkIsAncestry(spans: seq<Span>) {
    forall child, ancestor :: Reachable(spans, child, ancestor) <==> Descendant(spans, child, ancestor)
  }

  // A child of `b`: only its trace and parent matter to the walk.
  function ChildOf(b: Span): Span { Span(b.trace, "", b.id) }

  // No recorded span hides the parent of another with the same identifier: from a child of each, the walk gets to that
  // span's own parent.
  ghost predicate NoneShadowed(spans: seq<Span>) {
    forall b :: b in spans ==> Reachable(spans, ChildOf(b), b.parent)
  }

  lemma {:induction false} SameWalk(spans: seq<Span>, x: Span, y: Span, k: nat)
    requires x.trace == y.trace && x.parent == y.parent && k > 0
    ensures Walk(spans, x, k) == Walk(spans, y, k)
  {
    if k > 1 {
      SameWalk(spans, x, y, k - 1);
    } else {
      SameParent(spans, x, y);
      assert Walk(spans, x, 0) == Some(x) && Walk(spans, y, 0) == Some(y);
    }
  }

  lemma {:induction false} SameParent(spans: seq<Span>, x: Span, y: Span)
    requires x.trace == y.trace && x.parent == y.parent
    ensures FirstParent(spans, x) == FirstParent(spans, y)
  {
    if spans != [] { SameParent(spans[1..], x, y); }
  }

  lemma SameReach(spans: seq<Span>, x: Span, y: Span, ancestor: string, k: nat)
    requires x.trace == y.trace && x.parent == y.parent
    ensures Reaches(spans, x, ancestor, k) <==> Reaches(spans, y, ancestor, k)
  {
    if k > 0 { SameWalk(spans, x, y, k); }
  }

  lemma {:induction false} WalkOn(spans: seq<Span>, child: Span, k: nat, j: nat)
    requires Walk(spans, child, k).Some?
    ensures Walk(spans, child, k + j) == Walk(spans, Walk(spans, child, k).value, j)
  {
    if j > 0 { WalkOn(spans, child, k, j - 1); }
  }

  lemma {:induction false} WalkTrace(spans: seq<Span>, child: Span, k: nat)
    requires Walk(spans, child, k).Some?
    ensures Walk(spans, child, k).value.trace == child.trace
  {
    if k > 0 { WalkTrace(spans, child, k - 1); }
  }

  // One more link of a chain: where the walk got to the last parent, it gets to the next.
  lemma ReachNext(spans: seq<Span>, child: Span, b: Span)
    requires NoneShadowed(spans) && b in spans && b.trace == child.trace && Reachable(spans, child, b.id)
    ensures Reachable(spans, child, b.parent)
  {
    var k: nat :| Reaches(spans, child, b.id, k);
    var s := Walk(spans, child, k).value;
    WalkTrace(spans, child, k);
    assert Reachable(spans, ChildOf(b), b.parent);
    var j: nat :| Reaches(spans, ChildOf(b), b.parent, j);
    SameReach(spans, s, ChildOf(b), b.parent, j);
    WalkOn(spans, child, k, j);
    assert Reaches(spans, child, b.parent, k + j);
  }

  lemma {:induction false} ReachChain(spans: seq<Span>, child: Span, ancestor: string, chain: seq<Span>, i: nat)
    requires NoneShadowed(spans) && Lineage(spans, child, ancestor, chain) && i < |chain|
    ensures chain[i].trace == child.trace && Reachable(spans, child, chain[i].parent)
  {
    hide NoneShadowed;
    if i == 0 {
      assert Reaches(spans, child, chain[0].parent, 0);
    } else {
      ReachChain(spans, child, ancestor, chain, i - 1);
      assert IsParent(chain[i], chain[i - 1]);
      ReachNext(spans, child, chain[i]);
    }
  }

  // The walk finds exactly transitive ancestry, for every child and ancestor, if and only if no recorded span is
  // shadowed by another.
  lemma AncestryIff(spans: seq<Span>)
    ensures WalkIsAncestry(spans) <==> NoneShadowed(spans)
  {
    hide Reachable, Descendant;
    if NoneShadowed(spans) {
      forall child, ancestor ensures Reachable(spans, child, ancestor) <==> Descendant(spans, child, ancestor) {
        ReachableDescends(spans, child, ancestor);
        DescendantReachable(spans, child, ancestor);
      }
    }
    if WalkIsAncestry(spans) {
      forall b | b in spans ensures Reachable(spans, ChildOf(b), b.parent) { ChildDescends(spans, b); }
    }
  }

  lemma ReachableDescends(spans: seq<Span>, child: Span, ancestor: string)
    ensures Reachable(spans, child, ancestor) ==> Descendant(spans, child, ancestor)
  {
    DescendsIsAncestry(spans, child, ancestor);
  }

  lemma DescendantReachable(spans: seq<Span>, child: Span, ancestor: string)
    requires NoneShadowed(spans)
    ensures Descendant(spans, child, ancestor) ==> Reachable(spans, child, ancestor)
  {
    hide NoneShadowed, Reachable;
    if chain :| Lineage(spans, child, ancestor, chain) { ReachChain(spans, child, ancestor, chain, |chain| - 1); }
  }

  lemma ChildDescends(spans: seq<Span>, b: Span)
    requires b in spans
    ensures Descendant(spans, ChildOf(b), b.parent)
  {
    assert Lineage(spans, ChildOf(b), b.parent, [ChildOf(b), b]);
  }

  // Two spans of one trace sharing an identifier: the walk takes the first, and misses the ancestor of the second.
  lemma SharedIdMissesAncestor()
    ensures var spans := [Span("t", "p", "a"), Span("t", "p", "b")];
            var child := Span("t", "c", "p");
            && (exists chain :: Lineage(spans, child, "b", chain))
            && !exists k: nat :: Reaches(spans, child, "b", k)
  {
    var spans := [Span("t", "p", "a"), Span("t", "p", "b")];
    var child := Span("t", "c", "p");
    assert Lineage(spans, child, "b", [child, spans[1]]);
    assert FirstParent(spans, child) == Some(spans[0]);
    assert spans[1..] == [spans[1]];
    assert FirstParent(spans, spans[0]).None?;
    assert Walk(spans, child, 1) == Some(spans[0]);
    EndedNeverReaches(spans, child, "b", 1);
  }
}
