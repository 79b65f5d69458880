/**
  A directory as a process kill leaves it: names bound to inodes, inodes holding content, and the system calls the
  authority's state is written with. Content is all or nothing but for a file still being written, which is `Torn`.
*/
module Files {
  import opened Leaf

  /** Entry names, told apart as far as the program does: `Temporary` is the ".gateway-" prefix. */
  datatype Name = LockFile | StateFile | CertificateFile | Temporary(suffix: nat) | Foreign(name: string)

  /**
    The content of a state file: a certificate, a private key, and whether the certificate is a self-signed
    certificate-signing CA with a supported key type.
  */
  datatype Material = Material(certificate: Certificate, key: nat, authority: bool)

  datatype Data = StateData(material: Material) | CertificateData(certificate: Certificate)

  /** `Special` is anything but a regular file. */
  datatype Content = Torn | Whole(data: Data) | Special

  datatype Dir = Dir(entries: map<Name, nat>, inodes: seq<Content>)

  ghost predicate Linked(d: Dir) {
    forall n :: n in d.entries ==> d.entries[n] < |d.inodes|
  }

  predicate Has(d: Dir, name: Name) { name in d.entries && d.entries[name] < |d.inodes| }

  function Read(d: Dir, name: Name): Content
    requires Has(d, name)
  {
    d.inodes[d.entries[name]]
  }

  // open(O_CREAT | O_EXCL): a new name on a new inode.
  function Create(d: Dir, name: Name): Dir {
    Dir(d.entries[name := |d.inodes|], d.inodes + [Torn])
  }

  function Write(d: Dir, inode: nat, content: Content): Dir
    requires inode < |d.inodes|
  {
    d.(inodes := d.inodes[inode := content])
  }

  // rename(2) replaces its target; link(2) fails on an existing one, so callers test for it.
  function Rename(d: Dir, from: Name, to: Name): Dir
    requires from in d.entries
  {
    d.(entries := (d.entries - {from})[to := d.entries[from]])
  }

  function Link(d: Dir, from: Name, to: Name): Dir
    requires from in d.entries
  {
    d.(entries := d.entries[to := d.entries[from]])
  }

  function Unlink(d: Dir, name: Name): Dir { d.(entries := d.entries - {name}) }

  // The name is the only one on its inode, so writing there changes no other file.
  ghost predicate Owns(d: Dir, suffix: nat, inode: nat) {
    && Has(d, Temporary(suffix)) && d.entries[Temporary(suffix)] == inode
    && forall n :: n in d.entries && d.entries[n] == inode ==> n == Temporary(suffix)
  }

  // A file, once present, keeps its inode and its content.
  ghost predicate Keeps(before: Dir, after: Dir, name: Name) {
    Has(before, name) ==> Has(after, name) && after.entries[name] == before.entries[name]
                          && Read(after, name) == Read(before, name)
  }
}
