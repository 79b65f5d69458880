/**
  Opening the inspection authority: an exclusive lock, a private state file committed by rename and a public
  certificate published by link. Any number of calls run interleaved, each killed or failed at any system call.
*/
module AuthorityState {
  import opened Wrappers
  import opened Leaf
  import opened Files
  import opened Publication

  /** Why a call gave up. */
  datatype Reason =
    | SameDirectory
    | AlreadyOwned
    | PublicWithoutPrivate
    | ForeignEntries
    | InvalidState
    | NotUsable
    | Mismatch
    | SystemCall

  /** Where a call stands. `Saving` follows the temporary file of the private state, `Publishing` the public one. */
  datatype Progress =
    | Locking
    | ReadingState
    | CheckingPublic
    | ListingPrivate
    | Saving(material: Material, temporary: Option<(nat, nat)>, written: bool)
    | Saved(material: Material)
    | Publishing(material: Material, publisher: Publisher)
    | Opened(certificate: Certificate)
    | Failed(reason: Reason)

  datatype Call = Call(now: int, at: Progress)

  /** The two directories, the holder of the lock, the live calls, and every certificate a call ever returned. */
  datatype Disk = Disk(private: Dir, public: Dir, lock: Option<nat>, calls: map<nat, Call>, returned: seq<Certificate>)

  /** What chance supplies to a step: a temporary name, a key, and the length of ten calendar years. */
  datatype Choice = Choice(suffix: nat, key: nat, years: int)

  /**
    A call starts, moves on by one system call, has its next system call fail, fails to remove a temporary name it no
    longer needs, is killed, or is closed. `removed` says whether the clean-up of an error return worked.
  */
  datatype Event =
    | Begin(id: nat, now: int)
    | Advance(id: nat, choice: Choice)
    | SystemCallFails(id: nat, removed: bool)
    | RemoveFails(id: nat)
    | Kill(id: nat)
    | Release(id: nat)

  const DAY: int := 24 * HOUR

  // Ten calendar years from any date are between 3650 and 3653 days.
  predicate Plausible(choice: Choice) { 3650 * DAY <= choice.years <= 3653 * DAY }

  function Generate(now: int, choice: Choice): Material {
    Material(Certificate(choice.key, WholeSecond(now - MINUTE), WholeSecond(now + choice.years)), choice.key, true)
  }

  predicate InForce(certificate: Certificate, now: int) {
    certificate.notBefore <= now && now + HOUR < certificate.notAfter
  }

  predicate Genuine(m: Material) { m.key == m.certificate.key && m.authority }

  // The checks between reading or committing the state and publishing it.
  function Check(m: Material, now: int): Result<Material, Reason> {
    if m.key != m.certificate.key then Err(InvalidState)
    else if !m.authority || !InForce(m.certificate, now) then Err(NotUsable)
    else Ok(m)
  }

  function AfterCheck(m: Material, now: int): Progress {
    match Check(m, now)
    case Ok(good) => Publishing(good, Ready)
    case Err(reason) => Failed(reason)
  }

  // Entries an interrupted first commit can leave behind.
  predicate Leftover(d: Dir, name: Name) {
    name == LockFile || (name.Temporary? && Has(d, name) && !Read(d, name).Special?)
  }

  predicate Committed(d: Dir) {
    Has(d, StateFile) && Read(d, StateFile).Whole? && Read(d, StateFile).data.StateData?
  }

  function CommittedMaterial(d: Dir): Material
    requires Committed(d)
  {
    Read(d, StateFile).data.material
  }

  function Place(disk: Disk, id: nat, now: int, at: Progress): Disk {
    disk.(calls := disk.calls[id := Call(now, at)])
  }

  // A call that returns an error or dies closes the lock's descriptor.
  function Unlock(disk: Disk, id: nat): Disk {
    if disk.lock == Some(id) then disk.(lock := None) else disk
  }

  function Settle(disk: Disk, id: nat, now: int, at: Progress): Disk {
    if at.Failed? then Unlock(Place(disk, id, now, at), id)
    else if at.Opened? then Place(disk, id, now, at).(returned := disk.returned + [at.certificate])
    else Place(disk, id, now, at)
  }

  function SaveStep(d: Dir, at: Progress, suffix: nat): (Dir, Progress)
    requires at.Saving?
  {
    match at.temporary
    case None =>
      if Temporary(suffix) in d.entries then (d, at)
      else (Create(d, Temporary(suffix)), at.(temporary := Some((suffix, |d.inodes|))))
    case Some((own, inode)) =>
      if inode >= |d.inodes| || Temporary(own) !in d.entries then (d, Failed(SystemCall))
      else if !at.written then (Write(d, inode, Whole(StateData(at.material))), at.(written := true))
      else (Rename(d, Temporary(own), StateFile), Saved(at.material))
  }

  function AfterPublish(material: Material, p: Publisher): Progress {
    if p.Published? then Opened(material.certificate)
    else if p.Conflict? then Failed(Mismatch)
    else Publishing(material, p)
  }

  function AdvanceCall(disk: Disk, id: nat, choice: Choice): Disk
    requires id in disk.calls
  {
    var now := disk.calls[id].now;
    var at := disk.calls[id].at;
    match at
    case Locking =>
      if disk.lock.None? then Place(disk.(lock := Some(id)), id, now, ReadingState)
      else Settle(disk, id, now, Failed(AlreadyOwned))
    case ReadingState =>
      if StateFile !in disk.private.entries then Place(disk, id, now, CheckingPublic)
      else if !Committed(disk.private) then Settle(disk, id, now, Failed(InvalidState))
      else Settle(disk, id, now, AfterCheck(CommittedMaterial(disk.private), now))
    case CheckingPublic =>
      if CertificateFile in disk.public.entries then Settle(disk, id, now, Failed(PublicWithoutPrivate))
      else Place(disk, id, now, ListingPrivate)
    case ListingPrivate =>
      if exists n :: n in disk.private.entries && !Leftover(disk.private, n) then
        Settle(disk, id, now, Failed(ForeignEntries))
      else Place(disk, id, now, Saving(Generate(now, choice), None, false))
    case Saving(_, _, _) =>
      var (private, next) := SaveStep(disk.private, at, choice.suffix);
      Settle(disk.(private := private), id, now, next)
    case Saved(material) => Settle(disk, id, now, AfterCheck(material, now))
    case Publishing(material, p) =>
      var s := PublishStep(disk.public, material.certificate, p, choice.suffix);
      Settle(disk.(public := s.dir), id, now, AfterPublish(material, s.publisher))
    case Opened(_) => disk
    case Failed(_) => disk
  }

  // The states whose next system call can make the call return an error; removing a temporary file cannot.
  predicate CanFail(at: Progress) {
    !at.Opened? && !at.Failed? && !(at.Publishing? && at.publisher.LinkRefused?)
  }

  // What a call answers when its next system call fails. Any failure to lock reads as a lock already held, and any
  // failure to look for the public file but its absence as its presence.
  function FailureReason(at: Progress): Reason {
    if at.Locking? then AlreadyOwned else if at.CheckingPublic? then PublicWithoutPrivate else SystemCall
  }

  // The call goes on where its temporary file was to be removed.
  function LeaveTemporary(at: Progress): Progress {
    if at.Publishing? && at.publisher.LinkMade? then AfterPublish(at.material, Published)
    else if at.Publishing? && at.publisher.LinkRefused? then AfterPublish(at.material, Comparing)
    else at
  }

  // An error return removes the call's own temporary file.
  function CleanUp(disk: Disk, at: Progress): Disk {
    match at
    case Saving(_, Some((own, _)), _) => disk.(private := Unlink(disk.private, Temporary(own)))
    case Publishing(_, p) =>
      if p.Created? || p.Written? || p.LinkMade? || p.LinkRefused?
      then disk.(public := Unlink(disk.public, Temporary(p.suffix))) else disk
    case _ => disk
  }

  function Apply(disk: Disk, event: Event): Disk {
    var id := event.id;
    match event
    case Begin(_, now) =>
      if id in disk.calls then disk
      else
        var private := if LockFile in disk.private.entries then disk.private else Create(disk.private, LockFile);
        Place(disk.(private := private), id, now, Locking)
    case Advance(_, choice) => if id in disk.calls && Plausible(choice) then AdvanceCall(disk, id, choice) else disk
    case SystemCallFails(_, removed) =>
      if id !in disk.calls || !CanFail(disk.calls[id].at) then disk
      else
        var at := disk.calls[id].at;
        Settle(if removed then CleanUp(disk, at) else disk, id, disk.calls[id].now, Failed(FailureReason(at)))
    case RemoveFails(_) =>
      if id !in disk.calls || LeaveTemporary(disk.calls[id].at) == disk.calls[id].at then disk
      else Settle(disk, id, disk.calls[id].now, LeaveTemporary(disk.calls[id].at))
    case Kill(_) => Unlock(disk.(calls := disk.calls - {id}), id)
    case Release(_) =>
      if id in disk.calls && disk.calls[id].at.Opened? then Unlock(disk.(calls := disk.calls - {id}), id) else disk
  }

  function Run(disk: Disk, events: seq<Event>): Disk {
    if events == [] then disk else Apply(Run(disk, events[..|events| - 1]), events[|events| - 1])
  }

  function Empty(): Disk { Disk(Dir(map[], []), Dir(map[], []), None, map[], []) }

  // ---- the invariant

  // Only lock, state and temporary files, none of them special; a present state file is complete and genuine.
  ghost predicate PrivateSound(d: Dir) {
    && Files.Linked(d)
    && (forall n :: n in d.entries ==>
          n == LockFile || n == StateFile || (n.Temporary? && Read(d, n) != Special))
    && (StateFile in d.entries ==> Committed(d) && Genuine(CommittedMaterial(d)))
  }

  ghost predicate CommittedTo(private: Dir, m: Material) { Committed(private) && CommittedMaterial(private) == m }

  // The public file, whenever present, is the certificate of the committed state.
  ghost predicate PublicSound(private: Dir, public: Dir) {
    && Complete(public)
    && (CertificateFile in public.entries ==>
          Committed(private) && Publishes(public, CommittedMaterial(private).certificate))
  }

  predicate Holding(at: Progress) { !at.Locking? && !at.Failed? }

  // What each state of the holder says of the directories.
  ghost predicate HolderSound(private: Dir, public: Dir, at: Progress) {
    match at
    case Locking => true
    case ReadingState => true
    case CheckingPublic => StateFile !in private.entries
    case ListingPrivate => StateFile !in private.entries
    case Saving(m, temporary, written) =>
      && StateFile !in private.entries && Genuine(m)
      && (temporary.Some? ==>
            && Owns(private, temporary.value.0, temporary.value.1)
            && (written ==> private.inodes[temporary.value.1] == Whole(StateData(m))))
      && (temporary.None? ==> !written)
    case Saved(m) => CommittedTo(private, m)
    case Publishing(m, p) => CommittedTo(private, m) && Consistent(public, m.certificate, p)
    case Opened(c) => Committed(private) && CommittedMaterial(private).certificate == c && Publishes(public, c)
    case Failed(reason) => reason in {AlreadyOwned, PublicWithoutPrivate, NotUsable, SystemCall}
  }

  ghost predicate CallSound(disk: Disk, id: nat)
    requires id in disk.calls
  {
    && (Holding(disk.calls[id].at) ==> disk.lock == Some(id))
    && HolderSound(disk.private, disk.public, disk.calls[id].at)
  }

  // Every certificate ever returned is the committed one.
  ghost predicate ReturnedSound(private: Dir, returned: seq<Certificate>) {
    forall c :: c in returned ==> Committed(private) && CommittedMaterial(private).certificate == c
  }

  ghost predicate Invariant(disk: Disk) {
    && PrivateSound(disk.private)
    && PublicSound(disk.private, disk.public)
    && ReturnedSound(disk.private, disk.returned)
    && (disk.lock.Some? ==> disk.lock.value in disk.calls && Holding(disk.calls[disk.lock.value].at))
    && (disk.calls != map[] ==> LockFile in disk.private.entries)
    && (forall id :: id in disk.calls ==> CallSound(disk, id))
  }

  // Neither committed file ever changes once it is there.
  ghost predicate KeepsFiles(before: Disk, after: Disk) {
    Keeps(before.private, after.private, StateFile) && Keeps(before.public, after.public, CertificateFile)
  }

  // ---- one step

  // Replacing, adding or removing one call, provided no other call relies on what changed.
  lemma ReplaceCall(disk: Disk, after: Disk, id: nat)
    requires Invariant(disk)
    requires after.calls.Keys <= disk.calls.Keys + {id}
    requires forall other :: other in after.calls && other != id ==>
                               other in disk.calls && after.calls[other] == disk.calls[other]
    requires disk.lock.Some? && disk.lock.value != id ==> after.lock == disk.lock && disk.lock.value in after.calls
    requires disk.lock == None || disk.lock == Some(id) ==>
               after.lock == if id in after.calls && Holding(after.calls[id].at) then Some(id) else None
    requires disk.lock != None && disk.lock != Some(id) ==>
               after.private == disk.private && after.public == disk.public
    requires PrivateSound(after.private) && PublicSound(after.private, after.public)
    requires ReturnedSound(after.private, after.returned)
    requires after.calls != map[] ==> LockFile in after.private.entries
    requires id in after.calls ==> CallSound(after, id)
    ensures Invariant(after)
  {
    hide PrivateSound, PublicSound, ReturnedSound;
    forall other | other in after.calls ensures CallSound(after, other) {
      if other != id { assert CallSound(disk, other); }
    }
  }

  lemma UncommittedUnpublished(private: Dir, public: Dir)
    requires PublicSound(private, public) && StateFile !in private.entries
    ensures CertificateFile !in public.entries
  {
  }

  lemma SaveKeeps(d: Dir, public: Dir, at: Progress, suffix: nat)
    requires PrivateSound(d) && PublicSound(d, public) && at.Saving? && HolderSound(d, public, at)
    requires LockFile in d.entries
    ensures var (private, next) := SaveStep(d, at, suffix);
            && PrivateSound(private) && PublicSound(private, public) && HolderSound(private, public, next)
            && LockFile in private.entries && (next.Saving? || next.Saved?)
  {
    hide Complete, Consistent, Publishes;
    UncommittedUnpublished(d, public);
  }

  lemma PublishKeeps(private: Dir, public: Dir, m: Material, p: Publisher, suffix: nat)
    requires PublicSound(private, public) && CommittedTo(private, m) && Consistent(public, m.certificate, p)
    ensures var s := PublishStep(public, m.certificate, p, suffix);
            && PublicSound(private, s.dir) && HolderSound(private, s.dir, AfterPublish(m, s.publisher))
            && Keeps(public, s.dir, CertificateFile)
            && !s.publisher.Conflict?
  {
    StepKeepsOwn(public, m.certificate, p, suffix);
  }

  lemma CheckKeeps(private: Dir, public: Dir, now: int)
    requires PublicSound(private, public) && Committed(private)
    ensures var next := AfterCheck(CommittedMaterial(private), now);
            && (Genuine(CommittedMaterial(private)) ==> HolderSound(private, public, next))
            && (next.Failed? || next == Publishing(CommittedMaterial(private), Ready))
  {
  }

  lemma LookingSound(disk: Disk, id: nat, choice: Choice)
    requires Invariant(disk) && id in disk.calls
    requires disk.calls[id].at.Locking? || disk.calls[id].at.CheckingPublic? || disk.calls[id].at.ListingPrivate?
    ensures Invariant(AdvanceCall(disk, id, choice)) && KeepsFiles(disk, AdvanceCall(disk, id, choice))
  {
    hide PrivateSound, PublicSound, SaveStep, PublishStep, Consistent, Publishes, Owns, Genuine, Generate;
    assert CallSound(disk, id);
    if disk.calls[id].at.CheckingPublic? {
      UncommittedUnpublished(disk.private, disk.public);
    }
    PrivateState(disk.private);
    GenerateGenuine(disk.calls[id].now, choice);
    ReplaceCall(disk, AdvanceCall(disk, id, choice), id);
  }

  lemma CheckingSound(disk: Disk, id: nat, choice: Choice)
    requires Invariant(disk) && id in disk.calls
    requires disk.calls[id].at.ReadingState? || disk.calls[id].at.Saved?
    ensures Invariant(AdvanceCall(disk, id, choice)) && KeepsFiles(disk, AdvanceCall(disk, id, choice))
  {
    hide PrivateSound, PublicSound, SaveStep, PublishStep, Consistent, Publishes, Genuine, AfterCheck;
    assert CallSound(disk, id);
    PrivateState(disk.private);
    if Committed(disk.private) { CheckKeeps(disk.private, disk.public, disk.calls[id].now); }
    ReplaceCall(disk, AdvanceCall(disk, id, choice), id);
  }

  lemma SavingSound(disk: Disk, id: nat, choice: Choice)
    requires Invariant(disk) && id in disk.calls && disk.calls[id].at.Saving?
    ensures Invariant(AdvanceCall(disk, id, choice)) && KeepsFiles(disk, AdvanceCall(disk, id, choice))
  {
    hide PrivateSound, PublicSound, SaveStep, HolderSound, Genuine;
    var at := disk.calls[id].at;
    assert CallSound(disk, id);
    assert StateFile !in disk.private.entries by { SavingUncommitted(disk.private, disk.public, at); }
    SaveKeeps(disk.private, disk.public, at, choice.suffix);
    NothingReturned(disk.private, disk.returned, SaveStep(disk.private, at, choice.suffix).0);
    ReplaceCall(disk, AdvanceCall(disk, id, choice), id);
  }

  lemma NothingReturned(private: Dir, returned: seq<Certificate>, after: Dir)
    requires ReturnedSound(private, returned) && StateFile !in private.entries
    ensures ReturnedSound(after, returned)
  {
  }

  lemma SavingUncommitted(private: Dir, public: Dir, at: Progress)
    requires at.Saving? && HolderSound(private, public, at)
    ensures StateFile !in private.entries
  {
  }

  lemma PublishingSound(disk: Disk, id: nat, choice: Choice)
    requires Invariant(disk) && id in disk.calls && disk.calls[id].at.Publishing?
    ensures Invariant(AdvanceCall(disk, id, choice)) && KeepsFiles(disk, AdvanceCall(disk, id, choice))
  {
    hide PrivateSound, PublicSound, PublishStep, Consistent, Publishes, Genuine;
    var at := disk.calls[id].at;
    assert CallSound(disk, id);
    PublishKeeps(disk.private, disk.public, at.material, at.publisher, choice.suffix);
    ReplaceCall(disk, AdvanceCall(disk, id, choice), id);
  }

  lemma AdvanceSound(disk: Disk, id: nat, choice: Choice)
    requires Invariant(disk) && id in disk.calls
    ensures Invariant(AdvanceCall(disk, id, choice)) && KeepsFiles(disk, AdvanceCall(disk, id, choice))
  {
    hide Invariant;
    match disk.calls[id].at
    case Locking => LookingSound(disk, id, choice);
    case CheckingPublic => LookingSound(disk, id, choice);
    case ListingPrivate => LookingSound(disk, id, choice);
    case ReadingState => CheckingSound(disk, id, choice);
    case Saved(_) => CheckingSound(disk, id, choice);
    case Saving(_, _, _) => SavingSound(disk, id, choice);
    case Publishing(_, _) => PublishingSound(disk, id, choice);
    case Opened(_) =>
    case Failed(_) =>
  }

  lemma PrivateState(d: Dir)
    requires PrivateSound(d)
    ensures forall n :: n in d.entries ==> n == StateFile || Leftover(d, n)
    ensures StateFile in d.entries ==> Committed(d) && Genuine(CommittedMaterial(d))
  {
  }

  lemma GenerateGenuine(now: int, choice: Choice)
    ensures Genuine(Generate(now, choice))
  {
  }

  // Making the lock file touches nothing else, and happens only before any call is under way.
  lemma BeginSound(disk: Disk, id: nat, now: int)
    requires Invariant(disk)
    ensures Invariant(Apply(disk, Begin(id, now))) && KeepsFiles(disk, Apply(disk, Begin(id, now)))
  {
    hide Genuine, Consistent;
    var after := Apply(disk, Begin(id, now));
    if id !in disk.calls {
      assert forall n :: n in after.private.entries && n != LockFile ==> Has(disk.private, n);
      forall other | other in after.calls ensures CallSound(after, other) {
        if other != id { assert CallSound(disk, other); }
      }
    }
  }

  lemma RemoveCallSound(disk: Disk, id: nat)
    requires Invariant(disk)
    ensures Invariant(Unlock(disk.(calls := disk.calls - {id}), id))
  {
    hide PrivateSound, PublicSound;
    ReplaceCall(disk, Unlock(disk.(calls := disk.calls - {id}), id), id);
  }

  lemma CleanUpSound(disk: Disk, at: Progress)
    requires PrivateSound(disk.private) && PublicSound(disk.private, disk.public)
    requires HolderSound(disk.private, disk.public, at) && LockFile in disk.private.entries
    ensures var after := CleanUp(disk, at);
            && PrivateSound(after.private) && PublicSound(after.private, after.public)
            && KeepsFiles(disk, after) && LockFile in after.private.entries
            && (ReturnedSound(disk.private, disk.returned) ==> ReturnedSound(after.private, disk.returned))
  {
    hide Genuine;
  }

  lemma FailSound(disk: Disk, id: nat, removed: bool)
    requires Invariant(disk)
    ensures var after := Apply(disk, SystemCallFails(id, removed)); Invariant(after) && KeepsFiles(disk, after)
  {
    hide PrivateSound, PublicSound, ReturnedSound, HolderSound, CanFail;
    var after := Apply(disk, SystemCallFails(id, removed));
    if after != disk {
      assert CallSound(disk, id);
      CleanUpSound(disk, disk.calls[id].at);
      FailedSound(after.private, after.public, disk.calls[id].at);
      assert disk.calls[id].at.Locking? ==> CleanUp(disk, disk.calls[id].at) == disk;
      ReplaceCall(disk, after, id);
    }
  }

  lemma FailedSound(private: Dir, public: Dir, at: Progress)
    ensures HolderSound(private, public, Failed(FailureReason(at)))
  {
  }

  lemma LeaveSound(disk: Disk, id: nat)
    requires Invariant(disk)
    ensures var after := Apply(disk, RemoveFails(id)); Invariant(after) && KeepsFiles(disk, after)
  {
    hide PrivateSound, PublicSound, Genuine, Publishes;
    var after := Apply(disk, RemoveFails(id));
    if after != disk {
      assert CallSound(disk, id);
      ReplaceCall(disk, after, id);
    }
  }

  lemma StepSound(disk: Disk, event: Event)
    requires Invariant(disk)
    ensures Invariant(Apply(disk, event)) && KeepsFiles(disk, Apply(disk, event))
  {
    hide Invariant, AdvanceCall, CleanUp, CanFail, LeaveTemporary;
    match event
    case Begin(id, now) => BeginSound(disk, id, now);
    case Advance(id, choice) => if id in disk.calls { AdvanceSound(disk, id, choice); }
    case SystemCallFails(id, removed) => FailSound(disk, id, removed);
    case RemoveFails(id) => LeaveSound(disk, id);
    case Kill(id) => RemoveCallSound(disk, id);
    case Release(id) => RemoveCallSound(disk, id);
  }

  // On every run of calls, failures and kills from two empty directories.
  lemma {:induction false} RunSound(events: seq<Event>)
    ensures Invariant(Run(Empty(), events))
  {
    hide Invariant, Apply;
    if events == [] {
      EmptySound();
    } else {
      RunSound(events[..|events| - 1]);
      StepSound(Run(Empty(), events[..|events| - 1]), events[|events| - 1]);
    }
  }

  lemma EmptySound()
    ensures Invariant(Empty())
  {
  }

  // Neither the state file nor the published certificate is ever replaced or rewritten.
  lemma {:induction false} NeverOverwritten(events: seq<Event>, k: nat)
    requires k <= |events|
    ensures KeepsFiles(Run(Empty(), events[..k]), Run(Empty(), events))
  {
    hide Apply, Invariant;
    if k < |events| {
      var n := |events| - 1;
      NeverOverwritten(events[..n], k);
      assert events[..n][..k] == events[..k];
      RunSound(events[..n]);
      StepSound(Run(Empty(), events[..n]), events[n]);
    } else {
      assert events[..k] == events;
    }
  }

  // All successful calls return one certificate: that of the committed state, which is also the public file whenever
  // there is one.
  lemma Agreement(events: seq<Event>)
    ensures var disk := Run(Empty(), events);
            && (forall c :: c in disk.returned ==>
                  Committed(disk.private) && CommittedMaterial(disk.private).certificate == c)
            && (CertificateFile in disk.public.entries ==>
                  Committed(disk.private) && Publishes(disk.public, CommittedMaterial(disk.private).certificate))
            && (forall id :: id in disk.calls && disk.calls[id].at.Opened? ==>
                  Publishes(disk.public, disk.calls[id].at.certificate)
                  && Committed(disk.private)
                  && disk.calls[id].at.certificate == CommittedMaterial(disk.private).certificate)
  {
    hide Run, Complete, Consistent;
    RunSound(events);
    var disk := Run(Empty(), events);
    forall id | id in disk.calls && disk.calls[id].at.Opened?
      ensures Publishes(disk.public, disk.calls[id].at.certificate) && Committed(disk.private)
      ensures disk.calls[id].at.certificate == CommittedMaterial(disk.private).certificate
    {
      assert CallSound(disk, id);
    }
  }

  // ---- refusals

  // A call that advances fails only for the lock or the period of the certificate.
  lemma AdvanceFailure(disk: Disk, id: nat, choice: Choice)
    requires Invariant(disk) && id in disk.calls && !disk.calls[id].at.Failed?
    ensures var after := AdvanceCall(disk, id, choice).calls[id].at;
            after.Failed? ==> after.reason == if disk.calls[id].at.Locking? then AlreadyOwned else NotUsable
  {
    hide PrivateSound, PublicSound, SaveStep, PublishStep, Consistent, Publishes, Genuine, Generate;
    var at := disk.calls[id].at;
    assert CallSound(disk, id);
    PrivateState(disk.private);
    if at.CheckingPublic? { UncommittedUnpublished(disk.private, disk.public); }
    if at.ReadingState? || at.Saved? { GenuineCheck(disk, at); }
    if at.Saving? { SaveKeeps(disk.private, disk.public, at, choice.suffix); }
    if at.Publishing? { PublishKeeps(disk.private, disk.public, at.material, at.publisher, choice.suffix); }
  }

  lemma GenuineCheck(disk: Disk, at: Progress)
    requires PrivateSound(disk.private) && (at.Saved? ==> CommittedTo(disk.private, at.material))
    ensures forall now :: Committed(disk.private) ==>
              AfterCheck(CommittedMaterial(disk.private), now).Failed? ==>
                AfterCheck(CommittedMaterial(disk.private), now).reason == NotUsable
  {
    PrivateState(disk.private);
  }

  // Whatever the private directory holds, a call looking through it refuses exactly when it finds an entry that is
  // neither the lock nor a regular temporary file.
  lemma ListingRefuses(disk: Disk, id: nat, choice: Choice)
    requires Files.Linked(disk.private) && id in disk.calls && disk.calls[id].at.ListingPrivate?
    ensures AdvanceCall(disk, id, choice).calls[id].at == Failed(ForeignEntries) <==>
            exists n :: n in disk.private.entries
                        && (n.Foreign? || n == CertificateFile || n == StateFile
                            || (n.Temporary? && Read(disk.private, n) == Special))
    ensures AdvanceCall(disk, id, choice).private == disk.private
            && AdvanceCall(disk, id, choice).public == disk.public
  {
    hide Generate;
    forall n | n in disk.private.entries
      ensures !Leftover(disk.private, n) <==>
              n.Foreign? || n == CertificateFile || n == StateFile
              || (n.Temporary? && Read(disk.private, n) == Special)
    {
    }
  }

  // The material of a first call is a genuine CA for its own key, valid from a minute before the call for ten years.
  lemma Generated(now: int, choice: Choice)
    ensures var m := Generate(now, choice);
            && m.authority && m.key == choice.key && m.certificate.key == choice.key
            && m.certificate.notBefore % 1_000_000_000 == 0 && m.certificate.notAfter % 1_000_000_000 == 0
            && m.certificate.notBefore <= now - 60 * 1_000_000_000 < m.certificate.notBefore + 1_000_000_000
            && m.certificate.notAfter <= now + choice.years < m.certificate.notAfter + 1_000_000_000
            && (Plausible(choice) ==>
                  3650 * 86400 * 1_000_000_000 <= choice.years <= 3653 * 86400 * 1_000_000_000)
  {
  }

  // The call has just failed, for this reason.
  predicate NowFails(disk: Disk, event: Event, reason: Reason) {
    var after := Apply(disk, event);
    && event.id in after.calls && after.calls[event.id].at == Failed(reason)
    && (event.id in disk.calls ==> !disk.calls[event.id].at.Failed?)
  }

  // What each event can make of a call, by reason.
  lemma FailureCause(disk: Disk, event: Event, reason: Reason)
    requires Invariant(disk) && NowFails(disk, event, reason)
    ensures event.id in disk.calls
    ensures match event
            case Advance(id, _) => reason == if disk.calls[id].at.Locking? then AlreadyOwned else NotUsable
            case SystemCallFails(id, _) => reason == FailureReason(disk.calls[id].at)
            case _ => false
  {
    hide Invariant, CleanUp, AdvanceCall;
    if event.Advance? && event.id in disk.calls { AdvanceFailure(disk, event.id, event.choice); }
  }

  // The call's own search for the public file failed, and the call has not been killed since.
  ghost predicate SearchFailed(events: seq<Event>, id: nat) {
    events != [] &&
    var last := events[|events| - 1];
    var before := events[..|events| - 1];
    || (&& last.SystemCallFails? && last.id == id
        && id in Run(Empty(), before).calls && Run(Empty(), before).calls[id].at.CheckingPublic?)
    || (last != Kill(id) && SearchFailed(before, id))
  }

  // An event of another call leaves a call where it is; one that kills it removes it.
  lemma OtherMoves(disk: Disk, event: Event, id: nat)
    ensures event.id != id ==> (id in Apply(disk, event).calls <==> id in disk.calls)
    ensures event.id != id && id in disk.calls ==> Apply(disk, event).calls[id] == disk.calls[id]
    ensures event == Kill(id) ==> id !in Apply(disk, event).calls
  {
    hide SaveStep, PublishStep, Generate, Check, Leftover, Committed;
  }

  // Nothing but a kill moves a failed call.
  lemma FailedMoves(disk: Disk, event: Event, id: nat)
    requires id in disk.calls && disk.calls[id].at.Failed? && event != Kill(id)
    ensures id in Apply(disk, event).calls && Apply(disk, event).calls[id].at == disk.calls[id].at
  {
    hide SaveStep, PublishStep, CleanUp, Generate, Check, Leftover, Committed;
    if event.id == id {
      assert Apply(disk, event) == disk;
    } else {
      hide Apply;
      OtherMoves(disk, event, id);
    }
  }

  // On every run a call ends in the refusal for a lost private state if and only if its own search for the public
  // file failed, for whatever reason but absence: the file itself is never there to be found.
  lemma {:induction false} LostStateRefusal(events: seq<Event>, id: nat)
    ensures var disk := Run(Empty(), events);
            (id in disk.calls && disk.calls[id].at == Failed(PublicWithoutPrivate)) <==> SearchFailed(events, id)
  {
    hide Apply, Invariant;
    if events != [] {
      var last := events[|events| - 1];
      var before := events[..|events| - 1];
      var disk := Run(Empty(), before);
      LostStateRefusal(before, id);
      RunSound(before);
      LostStateStep(disk, last, id);
    }
  }

  lemma LostStateStep(disk: Disk, event: Event, id: nat)
    requires Invariant(disk)
    ensures (id in Apply(disk, event).calls && Apply(disk, event).calls[id].at == Failed(PublicWithoutPrivate)) <==>
            || (event.SystemCallFails? && event.id == id && id in disk.calls && disk.calls[id].at.CheckingPublic?)
            || (event != Kill(id) && id in disk.calls && disk.calls[id].at == Failed(PublicWithoutPrivate))
  {
    hide Invariant, CleanUp, AdvanceCall;
    OtherMoves(disk, event, id);
    if event.id == id && event != Kill(id) {
      if id in disk.calls && disk.calls[id].at.Failed? {
        FailedMoves(disk, event, id);
      } else if NowFails(disk, event, PublicWithoutPrivate) {
        FailureCause(disk, event, PublicWithoutPrivate);
      }
    }
  }

  predicate CallsWork(events: seq<Event>) { forall e :: e in events ==> !e.SystemCallFails? }

  // The refusals for foreign, invalid and mismatched state are out of reach of every run; with kills alone the one for
  // lost state is too, and a call fails only for the lock or the certificate's period.
  lemma {:induction false} RefusalsUnreachable(events: seq<Event>, id: nat)
    ensures var disk := Run(Empty(), events);
            id in disk.calls && disk.calls[id].at.Failed? ==>
              && disk.calls[id].at.reason in {AlreadyOwned, PublicWithoutPrivate, NotUsable, SystemCall}
              && (CallsWork(events) ==> disk.calls[id].at.reason in {AlreadyOwned, NotUsable})
  {
    hide Apply, Invariant;
    if events != [] {
      var last := events[|events| - 1];
      var before := events[..|events| - 1];
      var disk := Run(Empty(), before);
      assert last in events && forall e :: e in before ==> e in events;
      RefusalsUnreachable(before, id);
      RunSound(before);
      RefusalStep(disk, last, id);
    }
  }

  lemma RefusalStep(disk: Disk, event: Event, id: nat)
    requires Invariant(disk)
    ensures var after := Apply(disk, event);
            id in after.calls && after.calls[id].at.Failed?
            && !(id in disk.calls && disk.calls[id].at == after.calls[id].at) ==>
              after.calls[id].at.reason in
              if event.SystemCallFails? then {AlreadyOwned, PublicWithoutPrivate, SystemCall}
              else {AlreadyOwned, NotUsable}
  {
    hide Invariant, CleanUp, AdvanceCall;
    OtherMoves(disk, event, id);
    var after := Apply(disk, event);
    if event.id == id && event != Kill(id) {
      if id in disk.calls && disk.calls[id].at.Failed? {
        FailedMoves(disk, event, id);
      } else if id in after.calls && after.calls[id].at.Failed? {
        FailureCause(disk, event, after.calls[id].at.reason);
      }
    }
  }

  // ---- recovery

  function Rank(at: Progress): nat {
    match at
    case Locking => 14
    case ReadingState => 13
    case CheckingPublic => 12
    case ListingPrivate => 11
    case Saving(_, None, _) => 10
    case Saving(_, Some(_), written) => if written then 8 else 9
    case Saved(_) => 7
    case Publishing(_, Ready) => 6
    case Publishing(_, Created(_, _)) => 5
    case Publishing(_, Written(_, _)) => 4
    case Publishing(_, LinkMade(_)) => 3
    case Publishing(_, LinkRefused(_)) => 3
    case Publishing(_, Comparing) => 2
    case Publishing(_, _) => 1
    case Opened(_) => 0
    case Failed(_) => 0
  }

  // The call is alive, free to proceed, and what it has or will have committed is in force at its time.
  ghost predicate OnCourse(disk: Disk, id: nat) {
    && Invariant(disk) && id in disk.calls && !disk.calls[id].at.Failed?
    && (disk.calls[id].at.Locking? ==> disk.lock == None)
    && (Committed(disk.private) ==> InForce(CommittedMaterial(disk.private).certificate, disk.calls[id].now))
    && (disk.calls[id].at.Saving? ==> InForce(disk.calls[id].at.material.certificate, disk.calls[id].now))
  }

  ghost predicate Free(disk: Disk, choice: Choice) {
    && Plausible(choice)
    && Temporary(choice.suffix) !in disk.private.entries && Temporary(choice.suffix) !in disk.public.entries
  }

  // Finitely many names are in use, so a free one can always be drawn.
  lemma FreeExists(disk: Disk)
    ensures exists choice :: Free(disk, choice)
  {
    var used := set n | n in disk.private.entries.Keys + disk.public.entries.Keys && n.Temporary? :: n.suffix;
    var suffix := Unused(used);
    var choice := Choice(suffix, 0, 3650 * DAY);
    forall n | n in disk.private.entries.Keys + disk.public.entries.Keys && n.Temporary? ensures n.suffix < suffix {
      assert n.suffix in used;
    }
    assert Free(disk, choice);
  }

  lemma {:induction false} Unused(used: set<nat>) returns (n: nat)
    ensures forall m :: m in used ==> m < n
    decreases |used|
  {
    if used == {} {
      n := 0;
    } else {
      var x :| x in used;
      var rest := Unused(used - {x});
      n := if rest <= x then x + 1 else rest;
      forall m | m in used ensures m < n { assert m != x ==> m in used - {x}; }
    }
  }

  lemma GeneratedInForce(now: int, choice: Choice)
    requires Plausible(choice)
    ensures InForce(Generate(now, choice).certificate, now)
  {
  }

  lemma SoloSave(disk: Disk, id: nat, choice: Choice)
    requires OnCourse(disk, id) && disk.calls[id].at.Saving? && Free(disk, choice)
    ensures var (private, next) := SaveStep(disk.private, disk.calls[id].at, choice.suffix);
            && Rank(next) < Rank(disk.calls[id].at) && (next.Saving? || next.Saved?)
            && next.material == disk.calls[id].at.material
            && (next.Saving? ==> !Committed(private))
            && (next.Saved? ==> CommittedTo(private, next.material))
  {
    hide Publishes, Consistent, PublicSound, InForce;
    assert CallSound(disk, id);
  }

  lemma SoloPublish(disk: Disk, id: nat, choice: Choice)
    requires OnCourse(disk, id) && disk.calls[id].at.Publishing? && Free(disk, choice)
    ensures var at := disk.calls[id].at;
            var s := PublishStep(disk.public, at.material.certificate, at.publisher, choice.suffix);
            var next := AfterPublish(at.material, s.publisher);
            Rank(next) < Rank(at) && (next.Publishing? || next.Opened?)
  {
    hide Complete, PrivateSound, InForce;
    var at := disk.calls[id].at;
    assert CallSound(disk, id);
    PublishKeeps(disk.private, disk.public, at.material, at.publisher, choice.suffix);
  }

  // Left alone, a call on course moves on and stays on course.
  lemma SoloStep(disk: Disk, id: nat, choice: Choice)
    requires OnCourse(disk, id) && Free(disk, choice) && Rank(disk.calls[id].at) > 0
    ensures var after := Apply(disk, Advance(id, choice));
            OnCourse(after, id) && Rank(after.calls[id].at) < Rank(disk.calls[id].at)
            && after.calls[id].now == disk.calls[id].now
            && KeepsFiles(disk, after)
  {
    hide PrivateSound, PublicSound, SaveStep, PublishStep, Consistent, Publishes, InForce, Generate, Owns;
    var at := disk.calls[id].at;
    AdvanceSound(disk, id, choice);
    assert CallSound(disk, id);
    PrivateState(disk.private);
    if at.Saving? { SoloSave(disk, id, choice); }
    if at.Publishing? { SoloPublish(disk, id, choice); }
    if at.CheckingPublic? { UncommittedUnpublished(disk.private, disk.public); }
    GeneratedInForce(disk.calls[id].now, choice);
  }

  function Solo(disk: Disk, id: nat, pick: Disk -> Choice, steps: nat): Disk
    decreases steps
  {
    if steps == 0 then disk else Solo(Apply(disk, Advance(id, pick(disk))), id, pick, steps - 1)
  }

  lemma {:induction false} SoloOpens(disk: Disk, id: nat, pick: Disk -> Choice, steps: nat)
    requires OnCourse(disk, id) && Rank(disk.calls[id].at) <= steps
    requires forall d :: Free(d, pick(d))
    ensures var end := Solo(disk, id, pick, steps);
            && id in end.calls && end.calls[id].at.Opened? && Invariant(end) && KeepsFiles(disk, end)
    decreases steps
  {
    hide Invariant, Free, Apply;
    if steps > 0 {
      if Rank(disk.calls[id].at) == 0 {
        OpenedStays(disk, id, pick(disk));
        SoloOpens(disk, id, pick, steps - 1);
      } else {
        SoloStep(disk, id, pick(disk));
        SoloOpens(Apply(disk, Advance(id, pick(disk))), id, pick, steps - 1);
      }
    }
  }

  lemma OpenedStays(disk: Disk, id: nat, choice: Choice)
    requires id in disk.calls && disk.calls[id].at.Opened?
    ensures Apply(disk, Advance(id, choice)) == disk
  {
  }

  // A call that finds the committed certificate out of its period fails and leaves everything as it is.
  lemma ExpiredRefused(disk: Disk, id: nat, pick: Disk -> Choice, steps: nat)
    requires Invariant(disk) && id in disk.calls && disk.calls[id].at == Locking && disk.lock == None
    requires Committed(disk.private) && !InForce(CommittedMaterial(disk.private).certificate, disk.calls[id].now)
    requires forall d :: Free(d, pick(d))
    requires steps >= 2
    ensures var end := Solo(disk, id, pick, steps);
            id in end.calls && end.calls[id].at == Failed(NotUsable)
            && end.private == disk.private && end.public == disk.public
  {
    hide InForce, Run;
    PrivateState(disk.private);
    assert Free(disk, pick(disk));
    var one := Apply(disk, Advance(id, pick(disk)));
    assert Free(one, pick(one));
    var two := Apply(one, Advance(id, pick(one)));
    assert two.calls[id].at == Failed(NotUsable);
    FailedStays(two, id, pick, steps - 2);
    assert Solo(one, id, pick, steps - 1) == Solo(two, id, pick, steps - 2);
  }

  lemma {:induction false} FailedStays(disk: Disk, id: nat, pick: Disk -> Choice, steps: nat)
    requires id in disk.calls && disk.calls[id].at.Failed?
    ensures Solo(disk, id, pick, steps) == disk
    decreases steps
  {
    if steps > 0 { FailedStays(disk, id, pick, steps - 1); }
  }

  // From every state that calls, failing system calls and kills can leave with the lock free, the next undisturbed
  // call succeeds, if and only if there is no committed certificate yet or its period still covers the call.
  lemma Recoverability(events: seq<Event>, id: nat, now: int, pick: Disk -> Choice)
    requires var disk := Run(Empty(), events); id !in disk.calls && disk.lock == None
    requires forall d :: Free(d, pick(d))
    ensures var disk := Run(Empty(), events);
            var end := Solo(Apply(disk, Begin(id, now)), id, pick, 14);
            && id in end.calls && KeepsFiles(disk, end)
            && (end.calls[id].at.Opened? <==>
                (Committed(disk.private) ==>
                   var c := CommittedMaterial(disk.private).certificate;
                   c.notBefore <= now && now + 3600 * 1_000_000_000 < c.notAfter))
  {
    hide Run, Invariant, Solo, Free;
    RunSound(events);
    var disk := Run(Empty(), events);
    var begun := Apply(disk, Begin(id, now));
    BeginSound(disk, id, now);
    BegunCommitted(disk, id, now);
    if Committed(disk.private) && !InForce(CommittedMaterial(disk.private).certificate, now) {
      ExpiredRefused(begun, id, pick, 14);
    } else {
      SoloOpens(begun, id, pick, 14);
    }
  }

  lemma BegunCommitted(disk: Disk, id: nat, now: int)
    requires Invariant(disk)
    ensures var begun := Apply(disk, Begin(id, now));
            && Committed(begun.private) == Committed(disk.private)
            && (Committed(disk.private) ==> CommittedMaterial(begun.private) == CommittedMaterial(disk.private))
  {
    hide Genuine, Consistent;
  }

  // ---- single steps, on any disk

  // What a call does before it has material, whatever the directories hold.
  lemma LoadingSteps(disk: Disk, id: nat, choice: Choice)
    requires id in disk.calls
    ensures var now := disk.calls[id].now;
            var next := AdvanceCall(disk, id, choice).calls[id].at;
            match disk.calls[id].at
            case Locking =>
              if disk.lock == None then next == ReadingState && AdvanceCall(disk, id, choice).lock == Some(id)
              else next == Failed(AlreadyOwned)
            case ReadingState =>
              if StateFile !in disk.private.entries then next == CheckingPublic
              else if !Committed(disk.private) then next == Failed(InvalidState)
              else
                var m := CommittedMaterial(disk.private);
                if m.key != m.certificate.key then next == Failed(InvalidState)
                else if !m.authority || now < m.certificate.notBefore
                        || m.certificate.notAfter <= now + 3600 * 1_000_000_000 then next == Failed(NotUsable)
                else next == Publishing(m, Ready)
            case CheckingPublic =>
              next == if CertificateFile in disk.public.entries then Failed(PublicWithoutPrivate) else ListingPrivate
            case _ => true
  {
    hide Leftover, SaveStep, PublishStep, Generate;
  }

  // What a failing call makes of a state: an error return, its reason told by the place, or nothing where no failure
  // counts; and what a failing removal makes of it.
  lemma FailingSteps(disk: Disk, id: nat, removed: bool)
    requires id in disk.calls
    ensures var at := disk.calls[id].at;
            var failed := Apply(disk, SystemCallFails(id, removed));
            var left := Apply(disk, RemoveFails(id));
            && (match at
                case Opened(_) => failed == disk && left == disk
                case Failed(_) => failed == disk && left == disk
                case Locking => failed.calls[id].at == Failed(AlreadyOwned) && left == disk
                case CheckingPublic => failed.calls[id].at == Failed(PublicWithoutPrivate) && left == disk
                case Publishing(m, LinkRefused(_)) =>
                  failed == disk && left.calls[id].at == Publishing(m, Comparing)
                case Publishing(m, LinkMade(_)) =>
                  failed.calls[id].at == Failed(SystemCall) && left.calls[id].at == Opened(m.certificate)
                case _ => failed.calls[id].at == Failed(SystemCall) && left == disk)
            && left.private == disk.private && left.public == disk.public
            && (!removed ==> failed.private == disk.private && failed.public == disk.public)
            && (failed != disk && disk.lock == Some(id) ==> failed.lock == None)
  {
  }

  // Closing an authority and killing a call both free the lock it holds and forget the call; nothing else changes.
  lemma LockFreed(disk: Disk, id: nat)
    requires id in disk.calls && disk.calls[id].at.Opened? && disk.lock == Some(id)
    ensures Apply(disk, Release(id)) == disk.(calls := disk.calls - {id}, lock := None)
    ensures Apply(disk, Kill(id)) == disk.(calls := disk.calls - {id}, lock := None)
  {
  }

  // ---- nothing is left behind

  predicate HoldsPrivate(at: Progress, suffix: nat) {
    at.Saving? && at.temporary.Some? && at.temporary.value.0 == suffix
  }

  predicate HoldsPublic(at: Progress, suffix: nat) { at.Publishing? && HoldsSuffix(at.publisher, suffix) }

  // Every temporary name in either directory is a live call's.
  ghost predicate Tidy(disk: Disk) {
    && (forall suffix :: Temporary(suffix) in disk.private.entries ==>
          exists id :: id in disk.calls && HoldsPrivate(disk.calls[id].at, suffix))
    && (forall suffix :: Temporary(suffix) in disk.public.entries ==>
          exists id :: id in disk.calls && HoldsPublic(disk.calls[id].at, suffix))
  }

  // No call is killed and no removal fails.
  predicate Cleans(event: Event) {
    !event.Kill? && !event.RemoveFails? && (event.SystemCallFails? ==> event.removed)
  }

  // An event leaves a temporary name behind only if another call's, or still this call's.
  ghost predicate OwnPrivate(disk: Disk, after: Disk, id: nat) {
    forall suffix :: Temporary(suffix) in after.private.entries ==>
      || (id in after.calls && HoldsPrivate(after.calls[id].at, suffix))
      || (Temporary(suffix) in disk.private.entries && !(id in disk.calls && HoldsPrivate(disk.calls[id].at, suffix)))
  }

  ghost predicate OwnPublic(disk: Disk, after: Disk, id: nat) {
    forall suffix :: Temporary(suffix) in after.public.entries ==>
      || (id in after.calls && HoldsPublic(after.calls[id].at, suffix))
      || (Temporary(suffix) in disk.public.entries && !(id in disk.calls && HoldsPublic(disk.calls[id].at, suffix)))
  }

  lemma AdvanceOwn(disk: Disk, id: nat, choice: Choice)
    requires Invariant(disk) && id in disk.calls
    ensures OwnPrivate(disk, AdvanceCall(disk, id, choice), id) && OwnPublic(disk, AdvanceCall(disk, id, choice), id)
  {
    hide PrivateSound, PublicSound, ReturnedSound, Generate, Leftover, Publishes, Genuine;
    assert CallSound(disk, id);
    var at := disk.calls[id].at;
    if at.Publishing? { PublishKeeps(disk.private, disk.public, at.material, at.publisher, choice.suffix); }
  }

  lemma EventOwn(disk: Disk, event: Event)
    requires Invariant(disk) && Cleans(event)
    ensures OwnPrivate(disk, Apply(disk, event), event.id) && OwnPublic(disk, Apply(disk, event), event.id)
  {
    hide Invariant, AdvanceCall;
    if event.Advance? && event.id in disk.calls { AdvanceOwn(disk, event.id, event.choice); }
  }

  lemma StepTidy(disk: Disk, event: Event)
    requires Invariant(disk) && Tidy(disk) && Cleans(event)
    ensures Tidy(Apply(disk, event))
  {
    hide Invariant, Apply, HoldsPrivate, HoldsPublic;
    var after := Apply(disk, event);
    EventOwn(disk, event);
    forall id ensures id != event.id && id in disk.calls ==> id in after.calls && after.calls[id] == disk.calls[id] {
      OtherMoves(disk, event, id);
    }
    forall suffix | Temporary(suffix) in after.private.entries
      ensures exists id :: id in after.calls && HoldsPrivate(after.calls[id].at, suffix)
    {
      if !(event.id in after.calls && HoldsPrivate(after.calls[event.id].at, suffix)) {
        var id :| id in disk.calls && HoldsPrivate(disk.calls[id].at, suffix);
        assert id in after.calls && HoldsPrivate(after.calls[id].at, suffix);
      }
    }
    forall suffix | Temporary(suffix) in after.public.entries
      ensures exists id :: id in after.calls && HoldsPublic(after.calls[id].at, suffix)
    {
      if !(event.id in after.calls && HoldsPublic(after.calls[event.id].at, suffix)) {
        var id :| id in disk.calls && HoldsPublic(disk.calls[id].at, suffix);
        assert id in after.calls && HoldsPublic(after.calls[id].at, suffix);
      }
    }
  }

  // On every run without kills and failing removals each temporary file is that of a call still under way: one that
  // has opened or failed has left none.
  lemma {:induction false} NoLeftovers(events: seq<Event>)
    requires forall event :: event in events ==> Cleans(event)
    ensures Tidy(Run(Empty(), events))
  {
    hide Apply, Invariant;
    if events != [] {
      var k := |events| - 1;
      assert events[k] in events && forall event :: event in events[..k] ==> event in events;
      NoLeftovers(events[..k]);
      RunSound(events[..k]);
      StepTidy(Run(Empty(), events[..k]), events[k]);
    }
  }
}
