/**
 The backup-swap file protocol the broker uses for each of its two
 documents (MessageBroker/MessageBroker/Controllers/MessageController.cs):
 a save copies the primary file over the backup, overwrites the primary and
 deletes the backup; a load reads the backup when both files exist and the
 primary otherwise. The disk is a map from path to what a parser would see
 in the file; a save may stop after any of its steps, or in the middle of
 writing a file.
 */
module Store {
  import opened Wrappers

  /** A file's contents: whitespace only, text that does not parse, or a document. */
  datatype File<D> = Blank | Corrupt | Doc(doc: D)

  type Disk<D> = map<string, File<D>>

  datatype Paths = Paths(primary: string, backup: string)

  /** How far a save gets before the process stops. */
  datatype SaveRun =
    | Completes
    | CrashAfter(steps: nat)    // stops after the first `steps` of copy, write, delete
    | TornCopy(empty: bool)     // stops while copying the primary over the backup
    | TornWrite(empty: bool)    // stops while writing the new primary

  /** What a half-written file reads as: nothing yet, or a truncated document. */
  function Torn<D>(empty: bool): File<D>
  {
    if empty then Blank else Corrupt
  }

  /** The path a load reads: the backup when both files exist, otherwise the primary. */
  function SourcePath<D>(disk: Disk<D>, paths: Paths): string
  {
    if paths.primary in disk && paths.backup in disk then paths.backup else paths.primary
  }

  /** What a load finds: nothing when the chosen file does not exist. */
  function Read<D>(disk: Disk<D>, paths: Paths): (r: Option<File<D>>)
    ensures paths.primary in disk && paths.backup in disk ==> r == Some(disk[paths.backup])
    ensures paths.primary in disk && paths.backup !in disk ==> r == Some(disk[paths.primary])
    ensures paths.primary !in disk ==> r == None
  {
    var path := SourcePath(disk, paths);
    if path in disk then Some(disk[path]) else None
  }

  /** Step 1: `File.Copy(primary, backup, true)` when the primary exists. */
  function CopyStep<D>(disk: Disk<D>, paths: Paths): Disk<D>
  {
    if paths.primary in disk then disk[paths.backup := disk[paths.primary]] else disk
  }

  /** Step 2: `File.WriteAllText(primary, ...)`. */
  function WriteStep<D>(disk: Disk<D>, paths: Paths, f: File<D>): Disk<D>
  {
    disk[paths.primary := f]
  }

  /** Step 3: `File.Delete(backup)` when the backup exists. */
  function DeleteStep<D>(disk: Disk<D>, paths: Paths): Disk<D>
  {
    if paths.backup in disk then disk - {paths.backup} else disk
  }

  /** The three steps in order. */
  function Complete<D>(disk: Disk<D>, paths: Paths, d: D): Disk<D>
  {
    DeleteStep(WriteStep(CopyStep(disk, paths), paths, Doc(d)), paths)
  }

  /** A save of document `d`, stopped as `run` says. */
  function Save<D>(disk: Disk<D>, paths: Paths, d: D, run: SaveRun): Disk<D>
  {
    match run
    case Completes => Complete(disk, paths, d)
    case CrashAfter(n) =>
      if n == 0 then disk
      else if n == 1 then CopyStep(disk, paths)
      else if n == 2 then WriteStep(CopyStep(disk, paths), paths, Doc(d))
      else Complete(disk, paths, d)
    case TornCopy(empty) =>
      if paths.primary in disk then disk[paths.backup := Torn(empty)] else disk
    case TornWrite(empty) => WriteStep(CopyStep(disk, paths), paths, Torn(empty))
  }

  /** The protocol's own invariant: a backup exists only beside a primary. */
  predicate BackupHasPrimary<D>(disk: Disk<D>, paths: Paths)
  {
    paths.backup in disk ==> paths.primary in disk
  }

  /** However a save ends, a backup is never left without a primary. */
  lemma SaveKeepsBackupHasPrimary<D>(disk: Disk<D>, paths: Paths, d: D, run: SaveRun)
    requires BackupHasPrimary(disk, paths)
    ensures BackupHasPrimary(Save(disk, paths, d, run), paths)
  {
  }

  /** A completed save leaves the new document as what a load reads, no backup, and every other file as it was. */
  lemma SaveCompletes<D>(disk: Disk<D>, paths: Paths, d: D)
    requires paths.primary != paths.backup
    ensures Read(Save(disk, paths, d, Completes), paths) == Some(Doc(d))
    ensures paths.backup !in Save(disk, paths, d, Completes)
    ensures forall p :: p != paths.primary && p != paths.backup ==>
                        (p in disk <==> p in Save(disk, paths, d, Completes)) &&
                        (p in disk ==> Save(disk, paths, d, Completes)[p] == disk[p])
  {
  }

  /**
   A save over an existing primary that gets past its copy step, and then
   stops between steps or while writing the primary, leaves a disk from which
   a load reads the old primary file or the new document. The old primary
   file is not necessarily a good document: an earlier torn write may have
   left it half-written (see `TornWriteThenCopyLosesDocument`).
   */
  lemma CrashReadsOldOrNew<D>(disk: Disk<D>, paths: Paths, d: D, run: SaveRun)
    requires paths.primary != paths.backup
    requires paths.primary in disk
    requires !run.TornCopy? && run != CrashAfter(0)
    ensures Read(Save(disk, paths, d, run), paths) in {Some(disk[paths.primary]), Some(Doc(d))}
  {
    var copied := CopyStep(disk, paths);
    assert paths.primary in copied && paths.backup in copied && copied[paths.backup] == disk[paths.primary];
    match run
    case TornWrite(_) =>
      // the backup made by the copy is still there
      assert Read(Save(disk, paths, d, run), paths) == Some(disk[paths.primary]);
    case CrashAfter(n) =>
      if n == 1 || n == 2 {
        assert Read(Save(disk, paths, d, run), paths) == Some(disk[paths.primary]);
      }
    case Completes =>
  }

  /**
   When a primary exists and no backup was left over from an earlier crash,
   "the old primary" is exactly what a load read before the save began.
   */
  lemma CleanCrashReadsBeforeOrAfter<D>(disk: Disk<D>, paths: Paths, d: D, run: SaveRun)
    requires paths.primary != paths.backup
    requires paths.primary in disk && paths.backup !in disk
    requires !run.TornCopy?
    ensures Read(Save(disk, paths, d, run), paths) in {Read(disk, paths), Read(Save(disk, paths, d, Completes), paths)}
  {
    SaveCompletes(disk, paths, d);
    if run != CrashAfter(0) {
      CrashReadsOldOrNew(disk, paths, d, run);
    }
  }

  /** With no primary yet, there is nothing to back up: a torn write is what a load then reads. */
  lemma FirstSaveCrash<D>(disk: Disk<D>, paths: Paths, d: D, run: SaveRun)
    requires paths.primary != paths.backup
    requires paths.primary !in disk && BackupHasPrimary(disk, paths)
    ensures run.TornWrite? ==> Read(Save(disk, paths, d, run), paths) == Some(Torn(run.empty))
    ensures !run.TornWrite? ==> Read(Save(disk, paths, d, run), paths) in {None, Some(Doc(d))}
  {
  }

  /** A crash in the middle of the copy leaves a half-written backup beside the primary, and a load reads it. */
  lemma TornCopyIsRead<D>(disk: Disk<D>, paths: Paths, d: D, empty: bool)
    requires paths.primary != paths.backup
    requires paths.primary in disk
    ensures Read(Save(disk, paths, d, TornCopy(empty)), paths) == Some(Torn(empty))
  {
  }

  /**
   A backup left over from an earlier crash is what a load reads; a save that
   stops right after its copy replaces it with the primary that load passed over.
   */
  lemma StaleBackupReplaced<D>(disk: Disk<D>, paths: Paths, d: D)
    requires paths.primary != paths.backup
    requires paths.primary in disk && paths.backup in disk
    ensures Read(disk, paths) == Some(disk[paths.backup])
    ensures Read(Save(disk, paths, d, CrashAfter(1)), paths) == Some(disk[paths.primary])
  {
  }

  /**
   Two interrupted saves lose the last good document. A torn write leaves
   the good document only in the backup, which a load still reads; but the
   next save copies the torn primary over that backup, so if it stops after
   its copy and before its delete, a load reads the torn file.
   */
  lemma TornWriteThenCopyLosesDocument<D>(disk: Disk<D>, paths: Paths, d0: D, d1: D, d2: D, empty: bool, second: SaveRun)
    requires paths.primary != paths.backup
    requires paths.primary in disk && disk[paths.primary] == Doc(d0) && paths.backup !in disk
    requires second == CrashAfter(1) || second == CrashAfter(2) || second.TornWrite?
    ensures Read(Save(disk, paths, d1, TornWrite(empty)), paths) == Some(Doc(d0))
    ensures Read(Save(Save(disk, paths, d1, TornWrite(empty)), paths, d2, second), paths) == Some(Torn(empty))
  {
    var torn := Save(disk, paths, d1, TornWrite(empty));
    assert torn[paths.primary] == Torn(empty) && torn[paths.backup] == Doc(d0);
    var copied := CopyStep(torn, paths);
    assert copied[paths.backup] == Torn(empty);
  }
}
