/**
  One call to open the authority, as the program runs it: directories updated in place, system call by system call,
  any of which may fail. What it accepts, refuses and leaves untouched is stated for every content of the two
  directories and every choice of failing calls.
*/
module AuthorityOpen {
  import opened Wrappers
  import opened Leaf
  import opened Files
  import opened Publication
  import opened AuthorityState

  /** Which system calls of one atomic write fail. `publish` is any failure but an existing target. */
  datatype WriteFaults = WriteFaults(create: bool, write: bool, publish: bool, sync: bool, remove: bool)

  /** Which system calls of one call of `Open` fail; `generate` is key generation, `compare` reads the public file. */
  datatype Faults =
    Faults(lockFile: bool, lock: bool, read: bool, search: bool, list: bool, generate: bool, save: WriteFaults,
           link: WriteFaults, compare: bool)

  datatype Written = Done | Exists | CallFailed

  const NO_WRITE_FAULTS: WriteFaults := WriteFaults(false, false, false, false, false)

  // One inode more, bound to the target if it was put in place and to the temporary name if that was left.
  ghost predicate Placed(before: Dir, after: Dir, target: Name, content: Content, suffix: nat, placed: bool, left: bool)
  {
    var inode := |before.inodes|;
    var entries := if placed then before.entries[target := inode] else before.entries;
    && after.inodes == before.inodes + [content]
    && after.entries == if left then entries[Temporary(suffix) := inode] else entries
  }

  /** A mounted directory. */
  class Volume {
    var dir: Dir

    constructor (dir: Dir)
      ensures this.dir == dir
    {
      this.dir := dir;
    }

    // Write a complete temporary file, then rename it over the target, or link it to a target that must be absent.
    // The target is only ever put in place whole; a temporary name stays behind only if removing it fails.
    method WriteAtomic(target: Name, data: Data, replacing: bool, suffix: nat, f: WriteFaults) returns (r: Written)
      requires Temporary(suffix) !in dir.entries && !target.Temporary?
      modifies this
      ensures var works := !f.create && !f.write && !f.publish;
              var placed := works && (replacing || target !in old(dir).entries);
              && r == (if !works then CallFailed else if !placed then Exists else if f.sync then CallFailed
                       else Done)
              && (f.create ==> dir == old(dir))
              && (!f.create ==>
                    Placed(old(dir), dir, target, if f.write then Torn else Whole(data), suffix, placed,
                           f.remove && !(placed && replacing)))
    {
      var inode := |dir.inodes|;
      var temporary := Temporary(suffix);
      if f.create { return CallFailed; }
      dir := Create(dir, temporary);
      if f.write {
        RemoveTemporary(suffix, f.remove);
        return CallFailed;
      }
      dir := Write(dir, inode, Whole(data));
      if f.publish {
        RemoveTemporary(suffix, f.remove);
        return CallFailed;
      }
      if replacing {
        dir := Rename(dir, temporary, target);
      } else if target in dir.entries {
        RemoveTemporary(suffix, f.remove);
        return Exists;
      } else {
        dir := Link(dir, temporary, target);
      }
      r := if f.sync then CallFailed else Done;
      RemoveTemporary(suffix, f.remove);
    }

    // The deferred removal, whose failure goes unnoticed.
    method RemoveTemporary(suffix: nat, fails: bool)
      modifies this
      ensures dir == if fails then old(dir) else Unlink(old(dir), Temporary(suffix))
    {
      if !fails { dir := Unlink(dir, Temporary(suffix)); }
    }
  }

  // A file that was there keeps inode and content.
  ghost predicate KeepsAll(before: Dir, after: Dir, except: Name) {
    forall n :: n in before.entries && n != except ==> Keeps(before, after, n)
  }

  // `publishCertificate`: a file already there is compared, never replaced. A failure after the link leaves the
  // certificate published.
  method PublishCertificate(public: Volume, certificate: Certificate, suffix: nat, f: WriteFaults, compare: bool)
    returns (r: Option<Reason>)
    requires Temporary(suffix) !in public.dir.entries && Files.Linked(public.dir)
    modifies public
    ensures Files.Linked(public.dir) && Keeps(old(public.dir), public.dir, CertificateFile)
    ensures r.None? <==>
            && !f.create && !f.write && !f.publish
            && (if CertificateFile in old(public.dir).entries then !compare && Publishes(old(public.dir), certificate)
                else !f.sync)
    ensures r == Some(Mismatch) <==>
            && !f.create && !f.write && !f.publish && !compare
            && CertificateFile in old(public.dir).entries && !Publishes(old(public.dir), certificate)
    ensures r in {None, Some(Mismatch), Some(SystemCall)}
    ensures r.None? ==> Publishes(public.dir, certificate)
    ensures CertificateFile in public.dir.entries ==>
              CertificateFile in old(public.dir).entries || Publishes(public.dir, certificate)
    ensures r.Some? && f == NO_WRITE_FAULTS ==> public.dir.entries == old(public.dir).entries
  {
    var written := public.WriteAtomic(CertificateFile, CertificateData(certificate), false, suffix, f);
    if written.Done? { return None; }
    if written.CallFailed? || compare { return Some(SystemCall); }
    return if Read(public.dir, CertificateFile) == Whole(CertificateData(certificate)) then None else Some(Mismatch);
  }

  // Making the lock file changes nothing the call looks at.
  lemma LockFileMade(d: Dir)
    requires LockFile !in d.entries && Files.Linked(d)
    ensures var after := Create(d, LockFile);
            && Files.Linked(after) && Committed(after) == Committed(d)
            && (Committed(d) ==> CommittedMaterial(after) == CommittedMaterial(d))
            && (Bare(after) <==> Bare(d))
            && forall n :: n in d.entries ==> Keeps(d, after, n)
  {
    var after := Create(d, LockFile);
    forall n | n in d.entries ensures Leftover(after, n) == Leftover(d, n) && Keeps(d, after, n) {}
  }

  // Nothing in the private directory but what an interrupted first commit can leave.
  predicate Bare(d: Dir) { forall n :: n in d.entries ==> Leftover(d, n) }

  lemma BareIff(d: Dir)
    requires Files.Linked(d) && StateFile !in d.entries
    ensures !Bare(d) <==>
            exists n :: n in d.entries
                        && (n.Foreign? || n == CertificateFile || (n.Temporary? && Read(d, n) == Special))
  {
    forall n | n in d.entries
      ensures !Leftover(d, n) <==> n.Foreign? || n == CertificateFile || (n.Temporary? && Read(d, n) == Special)
    {
    }
  }

  // ---- the causes of each outcome, once the lock is held and the private directory read

  predicate StateLost(private: Dir, public: Dir, f: Faults) {
    StateFile !in private.entries && (f.search || CertificateFile in public.entries)
  }

  // Something is there that no interrupted first commit leaves.
  ghost predicate StateForeign(private: Dir, public: Dir, f: Faults)
    requires Files.Linked(private)
  {
    && StateFile !in private.entries && !f.search && CertificateFile !in public.entries && !f.list
    && exists n :: n in private.entries
                   && (n.Foreign? || n == CertificateFile || (n.Temporary? && Read(private, n) == Special))
  }

  predicate StateInvalid(private: Dir) {
    && StateFile in private.entries
    && (Committed(private) ==> CommittedMaterial(private).key != CommittedMaterial(private).certificate.key)
  }

  predicate StateUnusable(private: Dir, now: int) {
    && StateFile in private.entries && Committed(private)
    && var m := CommittedMaterial(private);
       && m.key == m.certificate.key
       && (!m.authority || now < m.certificate.notBefore || m.certificate.notAfter <= now + 3600 * 1_000_000_000)
  }

  predicate StateUsable(private: Dir, now: int) {
    && StateFile in private.entries && Committed(private)
    && var m := CommittedMaterial(private);
       && m.key == m.certificate.key && m.authority
       && m.certificate.notBefore <= now && now + 3600 * 1_000_000_000 < m.certificate.notAfter
  }

  ghost predicate PublicMismatch(private: Dir, public: Dir, now: int, f: Faults) {
    && StateUsable(private, now) && !f.link.create && !f.link.write && !f.link.publish && !f.compare
    && CertificateFile in public.entries
    && !Publishes(public, CommittedMaterial(private).certificate)
  }

  // A first call: nothing is committed or published, and nothing fails that would stop it.
  ghost predicate CanCommit(private: Dir, public: Dir, f: Faults)
    requires Files.Linked(private)
  {
    && StateFile !in private.entries && CertificateFile !in public.entries
    && (forall n :: n in private.entries ==> n == LockFile || (n.Temporary? && Read(private, n) != Special))
    && !f.search && !f.list && !f.generate
    && !f.save.create && !f.save.write && !f.save.publish && !f.save.sync
    && !f.link.create && !f.link.write && !f.link.publish && !f.link.sync
  }

  // A later call: the committed certificate is published or can be.
  ghost predicate CanReopen(private: Dir, public: Dir, now: int, f: Faults) {
    && StateUsable(private, now) && !f.link.create && !f.link.write && !f.link.publish
    && (if CertificateFile in public.entries
        then !f.compare && Publishes(public, CommittedMaterial(private).certificate)
        else !f.link.sync)
  }

  lemma LockFileIrrelevant(d: Dir, public: Dir, now: int, f: Faults)
    requires LockFile !in d.entries && Files.Linked(d)
    ensures var after := Create(d, LockFile);
            && (StateLost(after, public, f) <==> StateLost(d, public, f))
            && (StateForeign(after, public, f) <==> StateForeign(d, public, f))
            && (StateInvalid(after) <==> StateInvalid(d))
            && (StateUnusable(after, now) <==> StateUnusable(d, now))
            && (PublicMismatch(after, public, now, f) <==> PublicMismatch(d, public, now, f))
            && (CanCommit(after, public, f) <==> CanCommit(d, public, f))
            && (CanReopen(after, public, now, f) <==> CanReopen(d, public, now, f))
  {
    hide Committed, Bare, Publishes, InForce;
    LockFileMade(d);
  }

  /** The state an authority lives on: the two directories and whether a process holds the lock. */
  class Store {
    const private: Volume
    const public: Volume
    var locked: bool

    constructor (private: Volume, public: Volume)
      ensures this.private == private && this.public == public && !locked
    {
      this.private, this.public, this.locked := private, public, false;
    }

    ghost predicate Mounted()
      reads this, private, public
    {
      Files.Linked(private.dir) && Files.Linked(public.dir)
    }

    // The loop over the private directory.
    method IsBare() returns (bare: bool)
      requires Mounted()
      ensures bare <==> Bare(private.dir)
    {
      hide Leftover;
      var names := private.dir.entries.Keys;
      while names != {}
        invariant names <= private.dir.entries.Keys
        invariant forall n :: n in private.dir.entries && n !in names ==> Leftover(private.dir, n)
        decreases |names|
      {
        var n :| n in names;
        if !Leftover(private.dir, n) { return false; }
        names := names - {n};
      }
      return true;
    }

    // The private state, generated and committed if there is none and nothing suggests there was. A failure after the
    // rename leaves the new state committed.
    method LoadState(now: int, choice: Choice, f: Faults) returns (r: Result<Material, Reason>)
      requires Mounted() && private != public && Plausible(choice)
      requires Temporary(choice.suffix) !in private.dir.entries
      modifies private
      ensures Mounted()
      ensures f.read ==> r == Err(SystemCall)
      ensures !f.read && StateFile in old(private.dir).entries ==>
                r == if Committed(old(private.dir)) then Ok(CommittedMaterial(old(private.dir)))
                     else Err(InvalidState)
      ensures !f.read && StateFile !in old(private.dir).entries ==>
                r == if f.search || CertificateFile in public.dir.entries then Err(PublicWithoutPrivate)
                     else if f.list then Err(SystemCall)
                     else if exists n :: n in old(private.dir).entries
                                         && (n.Foreign? || n == CertificateFile
                                             || (n.Temporary? && Read(old(private.dir), n) == Special))
                     then Err(ForeignEntries)
                     else if f.generate || f.save.create || f.save.write || f.save.publish || f.save.sync
                     then Err(SystemCall)
                     else Ok(Generate(now, choice))
      ensures r.Ok? ==> CommittedTo(private.dir, r.value)
      ensures StateFile in private.dir.entries ==>
                StateFile in old(private.dir).entries || CommittedTo(private.dir, Generate(now, choice))
      ensures r.Err? && f.save == NO_WRITE_FAULTS ==> private.dir == old(private.dir)
      ensures StateFile in old(private.dir).entries ==> private.dir == old(private.dir)
      ensures KeepsAll(old(private.dir), private.dir, StateFile)
    {
      hide Leftover, Generate, Bare;
      if f.read { return Err(SystemCall); }
      if StateFile in private.dir.entries {
        return if Committed(private.dir) then Ok(CommittedMaterial(private.dir)) else Err(InvalidState);
      }
      if f.search || CertificateFile in public.dir.entries { return Err(PublicWithoutPrivate); }
      if f.list { return Err(SystemCall); }
      BareIff(private.dir);
      var bare := IsBare();
      if !bare { return Err(ForeignEntries); }
      if f.generate { return Err(SystemCall); }
      var material := Generate(now, choice);
      var written := private.WriteAtomic(StateFile, StateData(material), true, choice.suffix, f.save);
      return if written.Done? then Ok(material) else Err(SystemCall);
    }

    // What follows the lock: load, check, publish.
    method Establish(now: int, choice: Choice, f: Faults) returns (r: Result<Material, Reason>)
      requires Mounted() && private != public && Plausible(choice)
      requires Temporary(choice.suffix) !in private.dir.entries && Temporary(choice.suffix) !in public.dir.entries
      modifies private, public
      ensures Mounted()
      ensures r.Ok? <==>
              !f.read && (CanCommit(old(private.dir), old(public.dir), f)
                          || CanReopen(old(private.dir), old(public.dir), now, f))
      ensures r.Ok? ==>
                CommittedTo(private.dir, r.value) && Publishes(public.dir, r.value.certificate)
                && Genuine(r.value) && InForce(r.value.certificate, now)
      ensures r.Ok? ==>
                r.value == if StateFile in old(private.dir).entries then CommittedMaterial(old(private.dir))
                           else Generate(now, choice)
      ensures r.Err? && f.link == NO_WRITE_FAULTS ==> public.dir.entries == old(public.dir).entries
      ensures Keeps(old(private.dir), private.dir, StateFile) && Keeps(old(public.dir), public.dir, CertificateFile)
      ensures StateFile in private.dir.entries ==>
                StateFile in old(private.dir).entries || CommittedTo(private.dir, Generate(now, choice))
      ensures CertificateFile in public.dir.entries ==>
                CertificateFile in old(public.dir).entries
                || (Committed(private.dir) && Publishes(public.dir, CommittedMaterial(private.dir).certificate))
      ensures r != Err(AlreadyOwned) && r != Err(SameDirectory)
      ensures r == Err(PublicWithoutPrivate) <==> !f.read && StateLost(old(private.dir), old(public.dir), f)
      ensures r == Err(ForeignEntries) <==> !f.read && StateForeign(old(private.dir), old(public.dir), f)
      ensures r == Err(InvalidState) <==> !f.read && StateInvalid(old(private.dir))
      ensures r == Err(NotUsable) <==> !f.read && StateUnusable(old(private.dir), now)
      ensures r == Err(Mismatch) <==> !f.read && PublicMismatch(old(private.dir), old(public.dir), now, f)
    {
      hide Committed, Bare, Publishes, Generate;
      var loaded := LoadState(now, choice, f);
      if loaded.Err? { return loaded; }
      GeneratedInForce(now, choice);
      GenerateGenuine(now, choice);
      var checked := Check(loaded.value, now);
      if checked.Err? { return checked; }
      var published := PublishCertificate(public, loaded.value.certificate, choice.suffix, f.link, f.compare);
      if published.Some? { return Err(published.value); }
      return loaded;
    }

    // The call gets the lock and reads the private directory.
    ghost predicate Admitted(f: Faults)
      reads this
    {
      private != public && !f.lockFile && !f.lock && !locked && !f.read
    }

    // Success returns the committed material with its certificate published and the lock held. Each refusal has its
    // exact cause; any other failure is a system call's. Whatever happens, a state file and a public file that were
    // there stay exactly as they were, and one that appears is complete and the committed one.
    method Open(now: int, choice: Choice, f: Faults) returns (r: Result<Material, Reason>)
      requires Mounted() && Plausible(choice)
      requires Temporary(choice.suffix) !in private.dir.entries && Temporary(choice.suffix) !in public.dir.entries
      modifies this, private, public
      ensures Mounted()
      ensures r.Ok? <==>
              old(Admitted(f)) && (CanCommit(old(private.dir), old(public.dir), f)
                                   || CanReopen(old(private.dir), old(public.dir), now, f))
      ensures r.Ok? ==>
                locked && CommittedTo(private.dir, r.value) && Publishes(public.dir, r.value.certificate)
                && Genuine(r.value) && InForce(r.value.certificate, now)
      ensures r.Ok? ==>
                r.value == if StateFile in old(private.dir).entries then CommittedMaterial(old(private.dir))
                           else Generate(now, choice)
      ensures r.Err? ==> locked == old(locked)
      ensures r.Err? && f.link == NO_WRITE_FAULTS ==> public.dir.entries == old(public.dir).entries
      ensures Keeps(old(private.dir), private.dir, StateFile) && Keeps(old(public.dir), public.dir, CertificateFile)
      ensures StateFile in private.dir.entries ==>
                StateFile in old(private.dir).entries || CommittedTo(private.dir, Generate(now, choice))
      ensures CertificateFile in public.dir.entries ==>
                CertificateFile in old(public.dir).entries
                || (Committed(private.dir) && Publishes(public.dir, CommittedMaterial(private.dir).certificate))
      ensures r == Err(SameDirectory) <==> private == public
      ensures r == Err(AlreadyOwned) <==> private != public && !f.lockFile && (f.lock || old(locked))
      ensures r == Err(PublicWithoutPrivate) <==> old(Admitted(f)) && StateLost(old(private.dir), old(public.dir), f)
      ensures r == Err(ForeignEntries) <==>
              && old(Admitted(f)) && StateFile !in old(private.dir).entries
              && !f.search && CertificateFile !in old(public.dir).entries && !f.list
              && exists n :: n in old(private.dir).entries
                             && (n.Foreign? || n == CertificateFile
                                 || (n.Temporary? && Read(old(private.dir), n) == Special))
      ensures r == Err(InvalidState) <==> old(Admitted(f)) && StateInvalid(old(private.dir))
      ensures r == Err(NotUsable) <==> old(Admitted(f)) && StateUnusable(old(private.dir), now)
      ensures r == Err(Mismatch) <==> old(Admitted(f)) && PublicMismatch(old(private.dir), old(public.dir), now, f)
    {
      hide Committed, Publishes, Generate, InForce, Genuine, StateLost, StateInvalid,
           StateUnusable, PublicMismatch, CanCommit, CanReopen;
      if private == public { return Err(SameDirectory); }
      if f.lockFile { return Err(SystemCall); }
      if LockFile !in private.dir.entries {
        LockFileMade(private.dir);
        LockFileIrrelevant(private.dir, public.dir, now, f);
        private.dir := Create(private.dir, LockFile);
      }
      if f.lock || locked { return Err(AlreadyOwned); }
      locked := true;
      r := Establish(now, choice, f);
      if r.Err? { locked := false; }
    }

    method Close()
      modifies `locked
      ensures !locked
    {
      locked := false;
    }
  }
}
