/**
 * The file protocol of `atomicWriteConfigWithBackup` in src/api/LocalApi.cpp against a file system
 * that can stop it at any point. An answer of None means that the process dies during that call, so
 * the runs of all scripts are the runs to all crash points.
 */
module ConfigFile {
  import opened Text

  /** A file: what readers see, and whether a power loss leaves it intact. */
  datatype Inode = Inode(text: string, synced: bool)

  /**
   * The directory. `target`, `backup` and `temp` are what the running system sees under the three names;
   * `survivors` are the files that the name of the target may lead to after a power loss.
   */
  datatype Disk = Disk(target: Option<Inode>, survivors: set<Option<Inode>>, backup: Option<Inode>, temp: Option<Inode>)

  /** A failed or interrupted copy leaves the backup as it was, or holding some first part of the text. */
  datatype CopyAnswer = Copied | CopyStopped(part: Option<nat>, reported: bool)

  datatype WriteAnswer = Wrote(count: nat) | Interrupted | WriteFailed

  datatype Script = Script(
    probe: Option<bool>,
    copy: CopyAnswer,
    open: Option<bool>,
    writes: seq<WriteAnswer>,
    fsync: Option<bool>,
    unlinked: bool,
    rename: Option<bool>,
    directorySync: Option<bool>)

  datatype Outcome = Finished(ok: bool) | Killed

  /** Every file that may be found under the target's name survives a power loss whole. */
  predicate Durable(d: Disk) {
    && d.target in d.survivors
    && forall file <- d.survivors :: file.Some? ==> file.value.synced
  }

  // ---------------------------------------------------------------- the protocol

  /** What the copy leaves as the backup. */
  function BackupAfter(d: Disk, copy: CopyAnswer): Option<Inode>
    requires d.target.Some?
  {
    var text := d.target.value.text;
    match copy
    case Copied => Some(Inode(text, false))
    case CopyStopped(None, _) => d.backup
    case CopyStopped(Some(n), _) => Some(Inode(text[..if n < |text| then n else |text|], false))
  }

  /** The backup stage; an outcome ends the call there. */
  function BackUp(d: Disk, s: Script): (Disk, Option<Outcome>) {
    match s.probe
    case None => (d, Some(Killed))
    case Some(answered) =>
      if !answered || d.target.None? then (d, None)
      else
        (d.(backup := BackupAfter(d, s.copy)),
         match s.copy
         case Copied => None
         case CopyStopped(_, reported) => Some(if reported then Finished(false) else Killed))
  }

  datatype WriteEnd = Complete | Broken | Cut

  /** How far the write loop gets, and how it ends; a write never takes more than it was offered. */
  function WriteLoop(size: nat, written: nat, answers: seq<WriteAnswer>): (r: (nat, WriteEnd))
    requires written <= size
    ensures written <= r.0 <= size && (r.1.Complete? ==> r.0 == size)
    decreases |answers|
  {
    if written == size then (written, Complete)
    else if answers == [] then (written, Cut)
    else match answers[0]
      case Interrupted => WriteLoop(size, written, answers[1..])
      case WriteFailed => (written, Broken)
      case Wrote(n) => WriteLoop(size, if n < size - written then written + n else size, answers[1..])
  }

  function GiveUp(d: Disk, s: Script): (Disk, Outcome) {
    (if s.unlinked then d.(temp := None) else d, Finished(false))
  }

  /** Filling and flushing the temporary file. */
  function FillTemp(d: Disk, contents: string, s: Script): (Disk, Option<Outcome>) {
    match s.open
    case None => (d, Some(Killed))
    case Some(false) => (d, Some(Finished(false)))
    case Some(true) =>
      var (written, end) := WriteLoop(|contents|, 0, s.writes);
      var filled := d.(temp := Some(Inode(contents[..written], false)));
      match end
      case Broken => var (gone, outcome) := GiveUp(filled, s); (gone, Some(outcome))
      case Cut => (filled, Some(Killed))
      case Complete =>
        match s.fsync
        case None => (filled, Some(Killed))
        case Some(false) => var (gone, outcome) := GiveUp(filled, s); (gone, Some(outcome))
        case Some(true) => (d.(temp := Some(Inode(contents, true))), None)
  }

  /** Moving the temporary file over the target, and making the move itself durable if possible. */
  function Replace(d: Disk, s: Script): (Disk, Outcome)
    requires d.temp.Some?
  {
    match s.rename
    case None => (d, Killed)
    case Some(false) => GiveUp(d, s)
    case Some(true) =>
      var moved := d.(target := d.temp, survivors := d.survivors + {d.temp}, temp := None);
      match s.directorySync
      case None => (moved, Killed)
      case Some(synced) => (if synced then moved.(survivors := {moved.target}) else moved, Finished(true))
  }

  function Persist(d: Disk, contents: string, s: Script): (Disk, Outcome) {
    var (backedUp, stopped) := BackUp(d, s);
    if stopped.Some? then (backedUp, stopped.value)
    else
      var (filled, cut) := FillTemp(backedUp, contents, s);
      if cut.Some? then (filled, cut.value) else Replace(filled, s)
  }

  // ---------------------------------------------------------------- the calls, one by one

  /** The file system as the process acts on it. */
  class FileSystem {
    var target: Option<Inode>
    ghost var survivors: set<Option<Inode>>
    var backup: Option<Inode>
    var temp: Option<Inode>

    ghost function State(): Disk
      reads this
    {
      Disk(target, survivors, backup, temp)
    }

    constructor (target: Option<Inode>, backup: Option<Inode>)
      ensures State() == Disk(target, {target}, backup, None)
    {
      this.target, this.backup, survivors, temp := target, backup, {target}, None;
    }

    method CopyToBackup(copy: CopyAnswer)
      requires target.Some?
      modifies this`backup
      ensures backup == BackupAfter(old(State()), copy)
    {
      var text := target.value.text;
      match copy {
        case Copied => backup := Some(Inode(text, false));
        case CopyStopped(None, _) =>
        case CopyStopped(Some(n), _) => backup := Some(Inode(text[..if n < |text| then n else |text|], false));
      }
    }

    /** Appends to the open temporary file. */
    method WriteTemp(chunk: string)
      requires temp.Some?
      modifies this`temp
      ensures temp == Some(Inode(old(temp).value.text + chunk, false))
    {
      temp := Some(Inode(temp.value.text + chunk, false));
    }

    method RemoveTemp(unlinked: bool)
      modifies this`temp
      ensures temp == if unlinked then None else old(temp)
    {
      if unlinked { temp := None; }
    }

    /** The directory entry moves at once for readers; until the directory is synced a power loss may undo it. */
    method RenameTemp()
      requires temp.Some?
      modifies this`target, this`survivors, this`temp
      ensures target == old(temp) && temp == None && survivors == old(survivors) + {old(temp)}
    {
      survivors := survivors + {temp};
      target, temp := temp, None;
    }

    /** The write loop: short writes go on where they stopped, interrupted ones are repeated. */
    method WriteAll(contents: string, answers: seq<WriteAnswer>) returns (end: WriteEnd)
      requires temp == Some(Inode("", false))
      modifies this`temp
      ensures temp == Some(Inode(contents[..WriteLoop(|contents|, 0, answers).0], false))
      ensures end == WriteLoop(|contents|, 0, answers).1
    {
      var written: nat, asked: nat := 0, 0;
      while written < |contents|
        invariant written <= |contents| && asked <= |answers|
        invariant temp == Some(Inode(contents[..written], false))
        invariant WriteLoop(|contents|, written, answers[asked..]) == WriteLoop(|contents|, 0, answers)
        decreases |answers| - asked
      {
        if asked == |answers| { return Cut; }
        var answer := answers[asked];
        assert answers[asked..][1..] == answers[asked + 1..];
        asked := asked + 1;
        if answer.WriteFailed? { return Broken; }
        if answer.Interrupted? { continue; }
        var chunk := if answer.count < |contents| - written then answer.count else |contents| - written;
        WriteTemp(contents[written..written + chunk]);
        assert contents[..written] + contents[written..written + chunk] == contents[..written + chunk];
        written := written + chunk;
      }
      end := Complete;
    }

    method AtomicWriteConfigWithBackup(contents: string, s: Script) returns (outcome: Outcome)
      modifies this
      ensures (State(), outcome) == Persist(old(State()), contents, s)
    {
      hide WriteLoop, BackupAfter;
      if s.probe.None? { return Killed; }
      if s.probe.value && target.Some? {
        CopyToBackup(s.copy);
        if s.copy.CopyStopped? {
          return if s.copy.reported then Finished(false) else Killed;
        }
      }

      if s.open.None? { return Killed; }
      if !s.open.value { return Finished(false); }
      temp := Some(Inode("", false));
      var end := WriteAll(contents, s.writes);
      if end.Cut? { return Killed; }
      if end.Broken? {
        RemoveTemp(s.unlinked);
        return Finished(false);
      }

      if s.fsync.None? { return Killed; }
      if !s.fsync.value {
        RemoveTemp(s.unlinked);
        return Finished(false);
      }
      temp := Some(temp.value.(synced := true));
      assert contents[..|contents|] == contents;

      if s.rename.None? { return Killed; }
      if !s.rename.value {
        RemoveTemp(s.unlinked);
        return Finished(false);
      }
      RenameTemp();

      if s.directorySync.None? { return Killed; }
      if s.directorySync.value { survivors := {target}; }
      outcome := Finished(true);
    }
  }

  // ---------------------------------------------------------------- what every run keeps

  function Whole(contents: string): Option<Inode> { Some(Inode(contents, true)) }

  /**
   * All or nothing, wherever the run stops: readers see the old file or the complete new one, and so
   * does whoever looks after a power loss. A reported success means the new one, a reported failure
   * the old one.
   */
  lemma PersistIsAllOrNothing(d: Disk, contents: string, s: Script)
    ensures var (after, outcome) := Persist(d, contents, s);
      && (after.target == d.target || after.target == Whole(contents))
      && after.survivors <= d.survivors + {Whole(contents)}
      && (outcome == Finished(true) ==> after.target == Whole(contents) && after.temp == None)
      && (outcome == Finished(false) ==> after.target == d.target && after.survivors == d.survivors)
      && (Durable(d) ==> Durable(after))
  {
  }

  /** What a reader may find under the target's name after a power loss: unsynced text may be cut anywhere. */
  predicate MayReadAfterPowerLoss(d: Disk, text: Option<string>) {
    exists file <- d.survivors ::
      if file.None? then text == None
      else text.Some? && (if file.value.synced then text.value == file.value.text else text.value <= file.value.text)
  }

  /** After a power loss at any point of the run, the old or the complete new configuration is read. */
  lemma PowerLossIsAllOrNothing(d: Disk, contents: string, s: Script, text: Option<string>)
    requires MayReadAfterPowerLoss(Persist(d, contents, s).0, text)
    ensures MayReadAfterPowerLoss(d, text) || text == Some(contents)
  {
    hide Persist;
    PersistIsAllOrNothing(d, contents, s);
    var after := Persist(d, contents, s).0;
    var file :| file in after.survivors
      && (if file.None? then text == None
          else text.Some? && (if file.value.synced then text.value == file.value.text else text.value <= file.value.text));
    if file !in d.survivors { assert file == Whole(contents); }
  }

  /** Once the directory is synced, a success is all that a power loss can leave. */
  lemma SyncedSuccessIsFinal(d: Disk, contents: string, s: Script, text: Option<string>)
    requires Persist(d, contents, s).1 == Finished(true) && s.directorySync == Some(true)
    ensures MayReadAfterPowerLoss(Persist(d, contents, s).0, text) <==> text == Some(contents)
  {
    hide WriteLoop, BackupAfter;
    assert Persist(d, contents, s).0.survivors == {Whole(contents)};
  }

  /** A reported failure leaves no temporary file behind if it can be removed, and never more than part of a copy as the backup. */
  lemma FailureCleansUp(d: Disk, contents: string, s: Script)
    requires Persist(d, contents, s).1 == Finished(false)
    ensures var after := Persist(d, contents, s).0;
      && (d.temp == None && s.unlinked ==> after.temp == None)
      && (after.backup == d.backup
          || (d.target.Some? && after.backup.Some? && after.backup.value.text <= d.target.value.text))
  {
    hide WriteLoop;
  }

  predicate Holds(file: Option<Inode>, text: string) { file.Some? && file.value.text == text }

  /**
   * A success keeps the replaced text in the backup exactly when the existence check was answered or
   * the backup held that text before; but nothing forces a copy to disk.
   */
  lemma BackupHoldsReplacedText(d: Disk, contents: string, s: Script)
    requires Persist(d, contents, s).1 == Finished(true) && d.target.Some?
    ensures var after, text := Persist(d, contents, s).0, d.target.value.text;
      && (Holds(after.backup, text) <==> s.probe == Some(true) || Holds(d.backup, text))
      && (s.probe == Some(true) ==> !after.backup.value.synced)
  {
  }

  function Total(answers: seq<WriteAnswer>): nat {
    if answers == [] then 0 else (if answers[0].Wrote? then answers[0].count else 0) + Total(answers[1..])
  }

  /** Some answers in front contain no failure and add up to enough. */
  ghost predicate Suffice(needed: nat, answers: seq<WriteAnswer>) {
    exists k :: 0 <= k <= |answers| && Total(answers[..k]) >= needed && forall i :: 0 <= i < k ==> !answers[i].WriteFailed?
  }

  /** However the kernel cuts the text up and interrupts it, it is complete as soon as the counts add up. */
  lemma {:induction false} ShortWritesAddUp(size: nat, written: nat, answers: seq<WriteAnswer>)
    requires written <= size
    ensures WriteLoop(size, written, answers).1 == Complete <==> Suffice(size - written, answers)
    decreases |answers|
  {
    if written == size {
      assert Total(answers[..0]) == 0;
    } else if answers != [] {
      var n := if answers[0].Wrote? then answers[0].count else 0;
      var next := if n < size - written then written + n else size;
      ShortWritesAddUp(size, next, answers[1..]);
      SufficeStep(size - written, size - next, answers);
    }
  }

  lemma SufficeStep(needed: nat, left: nat, answers: seq<WriteAnswer>)
    requires answers != [] && needed > 0
    requires var n := if answers[0].Wrote? then answers[0].count else 0; left == if n < needed then needed - n else 0
    ensures Suffice(needed, answers) <==> !answers[0].WriteFailed? && Suffice(left, answers[1..])
  {
    forall k | 0 < k <= |answers| ensures answers[..k][1..] == answers[1..][..k - 1] && answers[..k][0] == answers[0] {}
    if Suffice(needed, answers) {
      var k :| 0 <= k <= |answers| && Total(answers[..k]) >= needed && forall i :: 0 <= i < k ==> !answers[i].WriteFailed?;
      assert k > 0;
      assert Total(answers[1..][..k - 1]) >= left;
    }
    if !answers[0].WriteFailed? && Suffice(left, answers[1..]) {
      var k :| 0 <= k <= |answers[1..]| && Total(answers[1..][..k]) >= left && forall i :: 0 <= i < k ==> !answers[1..][i].WriteFailed?;
      assert Total(answers[..k + 1]) >= needed;
      forall i | 0 <= i < k + 1 ensures !answers[i].WriteFailed? {
        if i > 0 { assert answers[i] == answers[1..][i - 1]; }
      }
    }
  }

  /** Exactly when a call succeeds. */
  lemma PersistSucceedsIff(d: Disk, contents: string, s: Script)
    ensures Persist(d, contents, s).1 == Finished(true) <==>
      && s.probe.Some? && (s.probe.value && d.target.Some? ==> s.copy.Copied?)
      && s.open == Some(true) && Suffice(|contents|, s.writes)
      && s.fsync == Some(true) && s.rename == Some(true) && s.directorySync.Some?
  {
    hide Suffice, WriteLoop, BackupAfter;
    ShortWritesAddUp(|contents|, 0, s.writes);
  }
}
