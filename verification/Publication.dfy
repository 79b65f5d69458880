/**
  Publishing a certificate by linking a complete temporary file: the steps of one publisher, then any number of them
  interleaved on one directory, any of which may be killed between two system calls.
*/
module Publication {
  import opened Wrappers
  import opened Leaf
  import opened Files

  /** Where a publisher stands; each change of state is one system call on the directory. */
  datatype Publisher =
    | Ready
    | Created(suffix: nat, inode: nat)
    | Written(suffix: nat, inode: nat)
    | LinkMade(suffix: nat)
    | LinkRefused(suffix: nat)
    | Comparing
    | Reading(inode: nat)
    | Published
    | Conflict

  datatype Stepped = Stepped(dir: Dir, publisher: Publisher)

  // `suffix` is the random part of a temporary name; a name in use is refused and another is tried.
  function PublishStep(d: Dir, certificate: Certificate, p: Publisher, suffix: nat): Stepped {
    match p
    case Ready =>
      if Temporary(suffix) in d.entries then Stepped(d, p)
      else Stepped(Create(d, Temporary(suffix)), Created(suffix, |d.inodes|))
    case Created(own, inode) =>
      if inode >= |d.inodes| then Stepped(d, Conflict)
      else Stepped(Write(d, inode, Whole(CertificateData(certificate))), Written(own, inode))
    case Written(own, inode) =>
      if Temporary(own) !in d.entries then Stepped(d, Conflict)
      else if CertificateFile in d.entries then Stepped(d, LinkRefused(own))
      else Stepped(Link(d, Temporary(own), CertificateFile), LinkMade(own))
    case LinkMade(own) => Stepped(Unlink(d, Temporary(own)), Published)
    case LinkRefused(own) => Stepped(Unlink(d, Temporary(own)), Comparing)
    case Comparing =>
      if CertificateFile in d.entries then Stepped(d, Reading(d.entries[CertificateFile])) else Stepped(d, Conflict)
    case Reading(inode) =>
      Stepped(d, if inode < |d.inodes| && d.inodes[inode] == Whole(CertificateData(certificate)) then Published
                 else Conflict)
    case Published => Stepped(d, p)
    case Conflict => Stepped(d, p)
  }

  // The published file is complete: a certificate, never part of one.
  ghost predicate Complete(d: Dir) {
    Linked(d) &&
    (CertificateFile in d.entries ==> Read(d, CertificateFile).Whole? && Read(d, CertificateFile).data.CertificateData?)
  }

  ghost predicate Publishes(d: Dir, certificate: Certificate) {
    Has(d, CertificateFile) && Read(d, CertificateFile) == Whole(CertificateData(certificate))
  }

  // What each state of a publisher says of the directory.
  ghost predicate Consistent(d: Dir, certificate: Certificate, p: Publisher) {
    match p
    case Ready => true
    case Created(suffix, inode) => Owns(d, suffix, inode)
    case Written(suffix, inode) => Owns(d, suffix, inode) && d.inodes[inode] == Whole(CertificateData(certificate))
    case LinkMade(suffix) => Has(d, Temporary(suffix)) && Publishes(d, certificate)
    case LinkRefused(suffix) => Has(d, Temporary(suffix)) && Has(d, CertificateFile)
    case Comparing => Has(d, CertificateFile)
    case Reading(inode) => Has(d, CertificateFile) && d.entries[CertificateFile] == inode
    case Published => Publishes(d, certificate)
    case Conflict => Has(d, CertificateFile) && !Publishes(d, certificate)
  }

  predicate HoldsSuffix(p: Publisher, suffix: nat) {
    (p.Created? || p.Written? || p.LinkMade? || p.LinkRefused?) && p.suffix == suffix
  }

  ghost predicate Disjoint(p: Publisher, q: Publisher) {
    forall suffix :: !(HoldsSuffix(p, suffix) && HoldsSuffix(q, suffix))
  }

  // ---- one step

  lemma StepKeepsOwn(d: Dir, certificate: Certificate, p: Publisher, suffix: nat)
    requires Complete(d) && Consistent(d, certificate, p)
    ensures var s := PublishStep(d, certificate, p, suffix);
            && Complete(s.dir) && Consistent(s.dir, certificate, s.publisher)
            && Keeps(d, s.dir, CertificateFile)
  {
  }

  lemma StepKeepsOther(d: Dir, certificate: Certificate, p: Publisher, suffix: nat, theirs: Certificate, q: Publisher)
    requires Complete(d) && Consistent(d, certificate, p) && Consistent(d, theirs, q) && Disjoint(p, q)
    ensures var s := PublishStep(d, certificate, p, suffix);
            Consistent(s.dir, theirs, q) && Disjoint(s.publisher, q)
  {
    var s := PublishStep(d, certificate, p, suffix);
    assert forall x :: HoldsSuffix(q, x) ==> Has(d, Temporary(x)) && !HoldsSuffix(p, x);
    if p.LinkMade? || p.LinkRefused? { assert HoldsSuffix(p, p.suffix); }
    if p.Created? || p.Written? { assert HoldsSuffix(p, p.suffix); }
  }

  // ---- any number of publishers

  /** The directory, the publishers now running, and the publishers whose link took effect, in order. */
  datatype System = System(dir: Dir, running: map<nat, Publisher>, links: seq<nat>)

  datatype Action = Enter(id: nat) | Proceed(id: nat, suffix: nat) | Die(id: nat)

  type Certificates = nat -> Certificate

  function Apply(sys: System, certificates: Certificates, action: Action): System {
    match action
    case Enter(id) => if id in sys.running then sys else sys.(running := sys.running[id := Ready])
    case Die(id) => sys.(running := sys.running - {id})
    case Proceed(id, suffix) =>
      if id !in sys.running then sys
      else
        var s := PublishStep(sys.dir, certificates(id), sys.running[id], suffix);
        System(s.dir, sys.running[id := s.publisher],
               if sys.running[id].Written? && s.publisher.LinkMade? then sys.links + [id] else sys.links)
  }

  function Run(sys: System, certificates: Certificates, actions: seq<Action>): System {
    if actions == [] then sys
    else Apply(Run(sys, certificates, actions[..|actions| - 1]), certificates, actions[|actions| - 1])
  }

  ghost predicate ConsistentAt(sys: System, certificates: Certificates, id: nat)
    requires id in sys.running
  {
    Consistent(sys.dir, certificates(id), sys.running[id])
  }

  ghost predicate DisjointAt(sys: System, a: nat, b: nat)
    requires a in sys.running && b in sys.running
  {
    Disjoint(sys.running[a], sys.running[b])
  }

  // At most one link ever takes effect; the file is there exactly when one has, and holds the winner's certificate.
  ghost predicate OneWinner(sys: System, certificates: Certificates) {
    && |sys.links| <= 1
    && (CertificateFile in sys.dir.entries <==> |sys.links| == 1)
    && (|sys.links| == 1 ==> Publishes(sys.dir, certificates(sys.links[0])))
  }

  ghost predicate Invariant(sys: System, certificates: Certificates) {
    && Complete(sys.dir)
    && OneWinner(sys, certificates)
    && (forall id :: id in sys.running ==> ConsistentAt(sys, certificates, id))
    && (forall a, b :: a in sys.running && b in sys.running && a != b ==> DisjointAt(sys, a, b))
  }

  lemma AdvanceOneWinner(sys: System, certificates: Certificates, id: nat, suffix: nat)
    requires Complete(sys.dir) && OneWinner(sys, certificates)
    requires id in sys.running && ConsistentAt(sys, certificates, id)
    ensures OneWinner(Apply(sys, certificates, Proceed(id, suffix)), certificates)
  {
    StepKeepsOwn(sys.dir, certificates(id), sys.running[id], suffix);
  }

  lemma StepInvariant(sys: System, certificates: Certificates, action: Action)
    requires Invariant(sys, certificates)
    ensures Invariant(Apply(sys, certificates, action), certificates)
    ensures Keeps(sys.dir, Apply(sys, certificates, action).dir, CertificateFile)
  {
    hide PublishStep, Consistent, OneWinner, Disjoint, Complete;
    var after := Apply(sys, certificates, action);
    match action
    case Enter(id) => BeginInvariant(sys, certificates, id);
    case Die(id) => KillInvariant(sys, certificates, id);
    case Proceed(id, suffix) =>
      if id in sys.running {
        assert ConsistentAt(sys, certificates, id);
        AdvanceOneWinner(sys, certificates, id, suffix);
        StepKeepsOwn(sys.dir, certificates(id), sys.running[id], suffix);
        forall other | other in sys.running && other != id
          ensures ConsistentAt(after, certificates, other)
          ensures DisjointAt(after, id, other) && DisjointAt(after, other, id)
        {
          assert ConsistentAt(sys, certificates, other) && DisjointAt(sys, id, other);
          StepKeepsOther(sys.dir, certificates(id), sys.running[id], suffix, certificates(other), sys.running[other]);
          DisjointSymmetric(after.running[id], after.running[other]);
        }
        forall a, b | a in after.running && b in after.running && a != b ensures DisjointAt(after, a, b) {
          if a != id && b != id { assert DisjointAt(sys, a, b); }
        }
      }
  }

  lemma DisjointSymmetric(p: Publisher, q: Publisher)
    requires Disjoint(p, q)
    ensures Disjoint(q, p)
  {
  }

  lemma BeginInvariant(sys: System, certificates: Certificates, id: nat)
    requires Invariant(sys, certificates)
    ensures Invariant(Apply(sys, certificates, Enter(id)), certificates)
  {
    hide Complete;
    var after := Apply(sys, certificates, Enter(id));
    forall a | a in after.running ensures ConsistentAt(after, certificates, a) {
      if a in sys.running { assert ConsistentAt(sys, certificates, a); }
    }
    forall a, b | a in after.running && b in after.running && a != b ensures DisjointAt(after, a, b) {
      if a in sys.running && b in sys.running { assert DisjointAt(sys, a, b); }
    }
  }

  lemma KillInvariant(sys: System, certificates: Certificates, id: nat)
    requires Invariant(sys, certificates)
    ensures Invariant(Apply(sys, certificates, Die(id)), certificates)
  {
    hide Complete, Consistent, Disjoint;
    var after := Apply(sys, certificates, Die(id));
    forall a | a in after.running ensures ConsistentAt(after, certificates, a) {
      assert ConsistentAt(sys, certificates, a);
    }
    forall a, b | a in after.running && b in after.running && a != b ensures DisjointAt(after, a, b) {
      assert DisjointAt(sys, a, b);
    }
  }

  predicate Starting(sys: System) {
    CertificateFile !in sys.dir.entries && sys.running == map[] && sys.links == []
  }

  // First writer wins, on every run of any publishers from a directory without the file.
  lemma {:induction false} FirstWriterWins(sys: System, certificates: Certificates, actions: seq<Action>)
    requires Starting(sys) && Linked(sys.dir)
    ensures Invariant(Run(sys, certificates, actions), certificates)
  {
    hide Apply, Invariant;
    if actions == [] {
      StartInvariant(sys, certificates);
    } else {
      FirstWriterWins(sys, certificates, actions[..|actions| - 1]);
      StepInvariant(Run(sys, certificates, actions[..|actions| - 1]), certificates, actions[|actions| - 1]);
    }
  }

  lemma StartInvariant(sys: System, certificates: Certificates)
    requires Starting(sys) && Linked(sys.dir)
    ensures Invariant(sys, certificates)
  {
  }

  // A finished publisher succeeded if and only if its certificate is the winner's.
  lemma SuccessIffWinner(sys: System, certificates: Certificates, actions: seq<Action>, id: nat)
    requires Starting(sys) && Linked(sys.dir)
    requires var end := Run(sys, certificates, actions);
             id in end.running && (end.running[id].Published? || end.running[id].Conflict?)
    ensures var end := Run(sys, certificates, actions);
            && |end.links| == 1
            && (end.running[id].Published? <==> certificates(id) == certificates(end.links[0]))
  {
    hide Run;
    FirstWriterWins(sys, certificates, actions);
    assert ConsistentAt(Run(sys, certificates, actions), certificates, id);
  }

  // The published file keeps its inode and content for ever.
  lemma {:induction false} PublishedForGood(sys: System, certificates: Certificates, actions: seq<Action>)
    requires Invariant(sys, certificates)
    ensures Invariant(Run(sys, certificates, actions), certificates)
    ensures Keeps(sys.dir, Run(sys, certificates, actions).dir, CertificateFile)
  {
    hide Apply, Invariant;
    if actions != [] {
      PublishedForGood(sys, certificates, actions[..|actions| - 1]);
      StepInvariant(Run(sys, certificates, actions[..|actions| - 1]), certificates, actions[|actions| - 1]);
    }
  }

  // ---- nothing is left behind

  // Every temporary name was there at the start or is a running publisher's.
  ghost predicate Tidy(start: Dir, sys: System) {
    forall suffix :: Temporary(suffix) in sys.dir.entries && Temporary(suffix) !in start.entries ==>
      exists id :: id in sys.running && HoldsSuffix(sys.running[id], suffix)
  }

  lemma StepTidy(start: Dir, sys: System, certificates: Certificates, action: Action)
    requires Invariant(sys, certificates) && Tidy(start, sys) && !action.Die?
    ensures Tidy(start, Apply(sys, certificates, action))
  {
    hide Complete, OneWinner, Disjoint;
    var after := Apply(sys, certificates, action);
    forall suffix | Temporary(suffix) in after.dir.entries && Temporary(suffix) !in start.entries
      ensures exists id :: id in after.running && HoldsSuffix(after.running[id], suffix)
    {
      if Temporary(suffix) in sys.dir.entries {
        var id :| id in sys.running && HoldsSuffix(sys.running[id], suffix);
        if action.id in sys.running { assert ConsistentAt(sys, certificates, action.id); }
        assert id in after.running && HoldsSuffix(after.running[id], suffix);
      } else {
        assert HoldsSuffix(after.running[action.id], suffix);
      }
    }
  }

  // On every run in which no publisher dies, a finished publisher has left no temporary file: each is a running one's.
  lemma {:induction false} NoLeftovers(sys: System, certificates: Certificates, actions: seq<Action>)
    requires Starting(sys) && Linked(sys.dir) && forall action :: action in actions ==> !action.Die?
    ensures Tidy(sys.dir, Run(sys, certificates, actions))
  {
    hide Apply, Invariant;
    if actions != [] {
      var k := |actions| - 1;
      assert actions[k] in actions && forall action :: action in actions[..k] ==> action in actions;
      NoLeftovers(sys, certificates, actions[..k]);
      FirstWriterWins(sys, certificates, actions[..k]);
      StepTidy(sys.dir, Run(sys, certificates, actions[..k]), certificates, actions[k]);
    }
  }
}
