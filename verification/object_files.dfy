/**
 The object directory with its volatile and durable views.  A name has the entry
 programs see now and the set of entries a power loss may leave behind; a file
 whose data was not synced may come back with any content.
 */
module ObjectFiles {
  import opened Types
  import opened Decimal

  datatype Name = Tmp(id: nat) | Final(id: nat)

  /** File names on disk: the identifier, or the identifier behind ".tmp.". */
  function OnDisk(n: Name): string {
    match n
    case Tmp(id) => ".tmp." + ToString(id)
    case Final(id) => ToString(id)
  }

  /** Two names never denote the same directory entry. */
  lemma {:induction false} OnDiskInjective(a: Name, b: Name)
    requires OnDisk(a) == OnDisk(b)
    ensures a == b
  {
    assert IsDigit(ToString(a.id)[0]) && IsDigit(ToString(b.id)[0]);
    if a.Tmp? && b.Tmp? {
      assert OnDisk(a)[5..] == ToString(a.id) && OnDisk(b)[5..] == ToString(b.id);
      ToStringInjective(a.id, b.id);
    } else if a.Final? && b.Final? {
      ToStringInjective(a.id, b.id);
    } else {
      assert false;
    }
  }

  /** `owner` records for which object the file was created. */
  datatype File = File(owner: nat, data: string, synced: bool)

  /** `now` is the entry programs see; `may` holds the entries a power loss can leave. */
  datatype Slot = Slot(now: Option<nat>, may: set<Option<nat>>)

  const EMPTY: Slot := Slot(None, {None})

  datatype Fs = Fs(slots: map<Name, Slot>, files: map<nat, File>)

  function At(fs: Fs, n: Name): Slot {
    if n in fs.slots then fs.slots[n] else EMPTY
  }

  function SetEntry(fs: Fs, n: Name, entry: Option<nat>): Fs {
    fs.(slots := fs.slots[n := Slot(entry, At(fs, n).may + {entry})])
  }

  function Unlink(fs: Fs, n: Name): Fs {
    SetEntry(fs, n, None)
  }

  /** `open(O_CREAT | O_EXCL)` of a temporary file. */
  function CreateTemp(fs: Fs, id: nat, inode: nat): Fs {
    SetEntry(fs, Tmp(id), Some(inode)).(files := fs.files[inode := File(id, "", false)])
  }

  function Append(fs: Fs, inode: nat, chunk: string): Fs
    requires inode in fs.files
  {
    fs.(files := fs.files[inode := File(fs.files[inode].owner, fs.files[inode].data + chunk, false)])
  }

  function SyncFile(fs: Fs, inode: nat): Fs
    requires inode in fs.files
  {
    fs.(files := fs.files[inode := fs.files[inode].(synced := true)])
  }

  /** `renameat2(RENAME_NOREPLACE)` of a temporary file to its final name. */
  function RenameFinal(fs: Fs, id: nat): Fs {
    Unlink(SetEntry(fs, Final(id), At(fs, Tmp(id)).now), Tmp(id))
  }

  /** `fsync` of the directory: what is seen now is what stays. */
  function SyncDirectory(fs: Fs): Fs {
    fs.(slots := map n | n in fs.slots :: Slot(fs.slots[n].now, {fs.slots[n].now}))
  }

  /** A power loss: each name independently keeps one possible entry, unsynced data is arbitrary. */
  ghost predicate PowerLoss(fs: Fs, fs': Fs) {
    && (forall n: Name :: At(fs', n).now in At(fs, n).may && At(fs', n).may == {At(fs', n).now})
    && fs'.files.Keys == fs.files.Keys
    && (forall i: nat :: i in fs.files ==>
          fs'.files[i].owner == fs.files[i].owner && (fs.files[i].synced ==> fs'.files[i] == fs.files[i]))
  }

  /** The entries and files of object `id` are the same in both. */
  ghost predicate SameFor(fs: Fs, fs': Fs, id: nat) {
    && At(fs', Tmp(id)) == At(fs, Tmp(id)) && At(fs', Final(id)) == At(fs, Final(id))
    && (forall i: nat :: i in fs.files && fs.files[i].owner == id ==> i in fs'.files && fs'.files[i] == fs.files[i])
  }

  /** Only object `id` differs, and no file disappears or changes owner. */
  ghost predicate OnlyTouches(fs: Fs, fs': Fs, id: nat) {
    && (forall x: nat :: x != id ==> SameFor(fs, fs', x))
    && (forall i: nat :: i in fs.files ==> i in fs'.files && fs'.files[i].owner == fs.files[i].owner)
  }

  lemma {:induction false} EntryTouches(fs: Fs, n: Name, entry: Option<nat>)
    ensures OnlyTouches(fs, SetEntry(fs, n, entry), n.id)
  {
  }

  lemma {:induction false} CreateTouches(fs: Fs, id: nat, inode: nat)
    requires inode !in fs.files
    ensures OnlyTouches(fs, CreateTemp(fs, id, inode), id)
  {
  }

  lemma {:induction false} AppendTouches(fs: Fs, inode: nat, chunk: string)
    requires inode in fs.files
    ensures OnlyTouches(fs, Append(fs, inode, chunk), fs.files[inode].owner)
    ensures OnlyTouches(fs, SyncFile(fs, inode), fs.files[inode].owner)
  {
  }

  lemma {:induction false} RenameTouches(fs: Fs, id: nat)
    ensures OnlyTouches(fs, RenameFinal(fs, id), id)
  {
  }
}
