/**
 Backup-before-write save of a coordinate file.  The I/O layer may fail or write
 partially at any call; every state the two files pass through is in its trace.
 */
module FileSave {

  const MAX_FILE_BYTES: nat := 1048576

  datatype Content = Absent | Present(text: string)

  /** The two names of a save: the target and its .bak. */
  datatype Files = Files(target: Content, backup: Content)

  datatype IOCode = OK | MISSING | OPEN | READ | SIZE | WRITE | CLOSE

  datatype WriteMode = BackupReplace | TargetReplace | TargetNew

  datatype Reason =
    | NoReason | TextSize | PreviousRead | MissingWithBackup | MissingBackupCheck | PreviousInvalid
    | BackupWrite | BackupVerify | PreviousClose | TargetWrite | TargetVerify | Done

  datatype Result = Result(
    ok: bool, reason: Reason, detail: IOCode, hadPrevious: bool, targetMayBePartial: bool, backupMayBePartial: bool,
    backupVerified: bool, readbackVerified: bool, firstSaveAllowed: bool)

  const STARTED := Result(false, NoReason, OK, false, false, false, false, false, false)

  function Written(files: Files, mode: WriteMode, content: Content): Files {
    if mode.BackupReplace? then files.(backup := content) else files.(target := content)
  }

  /** The contents a write passes through: whatever they are, the other name keeps its content. */
  ghost function Passed(files: Files, mode: WriteMode, contents: seq<Content>): seq<Files> {
    seq(|contents|, i requires 0 <= i < |contents| => Written(files, mode, contents[i]))
  }

  /** What a layer without faults answers to a read. */
  function Honest(content: Content): IOCode {
    match content
    case Absent => MISSING
    case Present(text) => if |text| <= MAX_FILE_BYTES then OK else SIZE
  }

  /** An exclusive creation of an existing file, or a replacement of a missing one. */
  predicate Impossible(files: Files, mode: WriteMode) {
    (mode.TargetNew? && files.target.Present?) || (mode.TargetReplace? && files.target.Absent?)
  }

  /** The file layer: truthful reads, and writes that may stop or lie anywhere. */
  class IO {
    var files: Files
    var held: bool
    var closes: nat

    /** Some call so far was not answered as a layer without faults answers it. */
    ghost var faulted: bool

    /** Every state of the two files so far, the present one last. */
    ghost var trace: seq<Files>

    ghost predicate Valid()
      reads this
    {
      trace != [] && trace[|trace| - 1] == files
    }

    constructor (files: Files)
      ensures Valid() && this.files == files && trace == [files] && !held && closes == 0 && !faulted
    {
      this.files, held, closes, trace, faulted := files, false, 0, [files], false;
    }

    static method ReadContent(content: Content) returns (code: IOCode, text: string)
      ensures code.OK? ==> content == Present(text) && |text| <= MAX_FILE_BYTES
      ensures code.MISSING? ==> content.Absent?
      ensures code in {OK, MISSING, SIZE} || code != Honest(content)
    {
      text := "";
      var failure: IOCode := *;
      if !failure.OK? && !failure.MISSING? {
        return failure, text;
      }
      match content
      case Absent => return MISSING, text;
      case Present(found) =>
        if |found| > MAX_FILE_BYTES {
          return SIZE, text;
        }
        return OK, found;
    }

    /** Reads the target and keeps it from being written until ClosePrevious. */
    method ReadPrevious() returns (code: IOCode, text: string)
      modifies this`held, this`faulted
      ensures code.OK? ==> held && files.target == Present(text) && |text| <= MAX_FILE_BYTES
      ensures code.MISSING? ==> files.target.Absent?
      ensures faulted == (old(faulted) || code != Honest(files.target))
    {
      code, text := ReadContent(files.target);
      held, faulted := code.OK?, faulted || code != Honest(files.target);
    }

    method ClosePrevious() returns (code: IOCode)
      modifies this`held, this`closes, this`faulted
      ensures !held && closes == old(closes) + 1
      ensures faulted == (old(faulted) || !code.OK?)
    {
      held, closes := false, closes + 1;
      var failed: bool := *;
      faulted := faulted || failed;
      return if failed then CLOSE else OK;
    }

    method Read(backup: bool) returns (code: IOCode, text: string)
      modifies this`faulted
      ensures var content := if backup then files.backup else files.target;
              && (code.OK? ==> content == Present(text) && |text| <= MAX_FILE_BYTES)
              && (code.MISSING? ==> content.Absent?)
              && faulted == (old(faulted) || code != Honest(content))
    {
      code, text := ReadContent(if backup then files.backup else files.target);
      faulted := faulted || code != Honest(if backup then files.backup else files.target);
    }

    /** Any code may come back with any content; only an exclusive creation of an existing file, or a
        replacement of a missing one, is sure to leave the file alone. */
    method Write(mode: WriteMode, payload: string) returns (code: IOCode)
      requires Valid() && (!mode.BackupReplace? ==> !held)
      modifies this`files, this`trace, this`faulted
      ensures Valid()
      ensures exists contents: seq<Content> :: trace == old(trace) + Passed(old(files), mode, contents)
      ensures Impossible(old(files), mode) ==>
                !code.OK? && files == old(files) && trace == old(trace) && faulted == old(faulted)
      ensures !Impossible(old(files), mode) ==>
                faulted == (old(faulted) || !code.OK? || files != Written(old(files), mode, Present(payload)))
    {
      if Impossible(files, mode) {
        assert trace == trace + Passed(files, mode, []);
        return OPEN;
      }
      var usable: bool := *;
      if !usable {
        assert trace == trace + Passed(files, mode, []);
        faulted := true;
        return OPEN;
      }
      var middle: Content := *;
      var final: Content := *;
      code := *;
      ghost var before := files;
      files := Written(files, mode, middle);
      ghost var passed := [files];
      files := Written(files, mode, final);
      faulted := faulted || !code.OK? || files != Written(before, mode, Present(payload));
      passed := passed + [files];
      trace := trace + passed;
      assert passed == Passed(before, mode, [middle, final]);
    }
  }

  /** Holds the previous file against writes; closes it exactly once, at Close or at the end of its scope. */
  class PreviousReadGuard {
    const io: IO
    var active: bool

    constructor (io: IO)
      ensures this.io == io && active
    {
      this.io, active := io, true;
    }

    method Close() returns (code: IOCode)
      requires active
      modifies this, io`held, io`closes, io`faulted
      ensures !active && !io.held && io.closes == old(io.closes) + 1
      ensures io.faulted == (old(io.faulted) || !code.OK?)
    {
      active := false;
      code := io.ClosePrevious();
    }

    method Destroy()
      modifies this, io`held, io`closes, io`faulted
      ensures !active
      ensures old(io.faulted) ==> io.faulted
      ensures old(active) ==> !io.held && io.closes == old(io.closes) + 1
      ensures !old(active) ==> io.held == old(io.held) && io.closes == old(io.closes)
    {
      if active {
        active := false;
        var _ := io.ClosePrevious();
      }
    }
  }

  // ------------------------------------------------------------- statements

  /** Every state from the given length of the trace on satisfies: the previous text is the target or the backup. */
  ghost predicate Survives(trace: seq<Files>, from: nat, previous: string) {
    forall i :: from <= i < |trace| ==> trace[i].target == Present(previous) || trace[i].backup == Present(previous)
  }

  ghost predicate TargetKept(trace: seq<Files>, from: nat, target: Content) {
    forall i :: from <= i < |trace| ==> trace[i].target == target
  }

  ghost predicate BackupKept(trace: seq<Files>, from: nat, backup: Content) {
    forall i :: from <= i < |trace| ==> trace[i].backup == backup
  }

  lemma PassedKeepsOther(trace: seq<Files>, files: Files, mode: WriteMode, after: seq<Files>, from: nat)
    requires exists contents: seq<Content> :: after == trace + Passed(files, mode, contents)
    requires from <= |trace|
    ensures |trace| <= |after| && after[..|trace|] == trace
    ensures mode.BackupReplace? && TargetKept(trace, from, files.target) ==> TargetKept(after, from, files.target)
    ensures !mode.BackupReplace? && BackupKept(trace, from, files.backup) ==> BackupKept(after, from, files.backup)
  {
    var contents: seq<Content> :| after == trace + Passed(files, mode, contents);
    forall i | |trace| <= i < |after| ensures after[i] == Written(files, mode, contents[i - |trace|]) {
    }
  }

  /** Puts the previous text into the backup and reads it back; the target is not touched. */
  method SaveBackup(io: IO, previous: string, started: Result) returns (r: Result)
    requires io.Valid() && io.files.target == Present(previous) && started.reason.NoReason? && !started.ok
    requires !started.targetMayBePartial
    modifies io`files, io`trace, io`faulted
    ensures io.Valid() && |old(io.trace)| <= |io.trace| && io.trace[..|old(io.trace)|] == old(io.trace)
    ensures TargetKept(io.trace, |old(io.trace)| - 1, Present(previous))
    ensures r.reason.NoReason? ==> io.files.backup == Present(previous) && r.backupVerified && !r.backupMayBePartial
    ensures !r.reason.NoReason? ==> r.backupMayBePartial && !r.backupVerified
    ensures !r.ok && r.hadPrevious == started.hadPrevious && !r.targetMayBePartial
    ensures r.reason in {NoReason, BackupWrite, BackupVerify}
    ensures old(io.faulted) ==> io.faulted
    ensures !io.faulted && |previous| <= MAX_FILE_BYTES ==> r.reason.NoReason?
  {
    r := started.(backupMayBePartial := true, backupVerified := false);
    ghost var trace, files := io.trace, io.files;
    var status := io.Write(BackupReplace, previous);
    PassedKeepsOther(trace, files, BackupReplace, io.trace, |trace| - 1);
    if !status.OK? {
      return r.(reason := BackupWrite, detail := status);
    }
    var check;
    status, check := io.Read(true);
    if !status.OK? || check != previous {
      return r.(reason := BackupVerify, detail := status);
    }
    return r.(backupVerified := true, backupMayBePartial := false);
  }

  /** Writes the payload to the target and reads it back; the backup is not touched. */
  method SaveTarget(io: IO, payload: string, started: Result) returns (r: Result)
    requires io.Valid() && !io.held && started.reason.NoReason? && !started.ok
    modifies io`files, io`trace, io`faulted
    ensures io.Valid() && |old(io.trace)| <= |io.trace| && io.trace[..|old(io.trace)|] == old(io.trace)
    ensures BackupKept(io.trace, |old(io.trace)| - 1, old(io.files.backup))
    ensures r.ok <==> r.reason.Done?
    ensures r.ok ==> io.files.target == Present(payload) && !r.targetMayBePartial && r.readbackVerified
    ensures !r.ok ==> r.targetMayBePartial && r.reason in {TargetWrite, TargetVerify}
    ensures r.hadPrevious == started.hadPrevious && r.backupVerified == started.backupVerified
    ensures r.backupMayBePartial == started.backupMayBePartial
    ensures old(io.faulted) ==> io.faulted
    ensures !io.faulted && |payload| <= MAX_FILE_BYTES && (started.hadPrevious <==> old(io.files).target.Present?) ==>
              r.ok
  {
    r := started.(targetMayBePartial := true);
    ghost var trace, files := io.trace, io.files;
    var mode := if r.hadPrevious then TargetReplace else TargetNew;
    var status := io.Write(mode, payload);
    PassedKeepsOther(trace, files, mode, io.trace, |trace| - 1);
    if !status.OK? {
      return r.(reason := TargetWrite, detail := status);
    }
    var check;
    status, check := io.Read(false);
    if !status.OK? || check != payload {
      return r.(reason := TargetVerify, detail := status);
    }
    return r.(ok := true, reason := Done, targetMayBePartial := false, readbackVerified := true);
  }

  /** What a save leaves, told from the files before it and its result. */
  ghost predicate SaveKeeps(trace: seq<Files>, start: nat, valid: string -> bool, payload: string, r: Result)
    requires start < |trace|
  {
    var before, now := trace[start], trace[|trace| - 1];
    && (before.target.Present? && valid(before.target.text) ==> Survives(trace, start, before.target.text))
    && (before.target.Present? && !valid(before.target.text) ==> Untouched(trace, start))
    && (before.target.Absent? && before.backup.Present? ==> Untouched(trace, start))
    && (r.ok ==>
          && now.target == Present(payload) && r.readbackVerified && !r.targetMayBePartial && !r.backupMayBePartial
          && r.hadPrevious == before.target.Present?
          && (before.target.Present? ==> now.backup == before.target && r.backupVerified))
    && (!r.ok && !r.targetMayBePartial ==> TargetKept(trace, start, before.target))
    && (!r.backupMayBePartial && !r.backupVerified ==> BackupKept(trace, start, before.backup))
    && (r.backupVerified ==> now.backup == before.target)
  }

  ghost predicate Untouched(trace: seq<Files>, start: nat)
    requires start < |trace|
  {
    forall i :: start <= i < |trace| ==> trace[i] == trace[start]
  }

  /** The files a layer without faults saves over: a valid previous text, or neither name taken. */
  predicate Saveable(files: Files, valid: string -> bool) {
    match files.target
    case Present(text) => |text| <= MAX_FILE_BYTES && valid(text)
    case Absent => files.backup.Absent?
  }

  /** The reason for which it refuses the others. */
  function RefusedFor(files: Files): Reason {
    match files.target
    case Present(text) => if |text| <= MAX_FILE_BYTES then PreviousInvalid else PreviousRead
    case Absent =>
      if files.backup.Present? && |files.backup.text| <= MAX_FILE_BYTES then MissingWithBackup else MissingBackupCheck
  }

  /** The save behind the guard: probe, backup, close, target. */
  method Guarded(io: IO, guard: PreviousReadGuard, status: IOCode, previous: string, payload: string,
                 valid: string -> bool) returns (r: Result)
    requires io.Valid() && guard.io == io && guard.active && 1 <= |payload| <= MAX_FILE_BYTES
    requires status.OK? ==> io.held && io.files.target == Present(previous)
    requires status.MISSING? ==> io.files.target.Absent?
    requires !io.faulted ==> status == Honest(io.files.target)
    modifies io, guard
    ensures io.Valid() && |old(io.trace)| <= |io.trace| && io.trace[..|old(io.trace)|] == old(io.trace)
    ensures guard.active ==> io.closes == old(io.closes)
    ensures !guard.active ==> !io.held && io.closes == old(io.closes) + 1
    ensures SaveKeeps(io.trace, |old(io.trace)| - 1, valid, payload, r)
    ensures !r.reason.NoReason? && (r.ok <==> r.reason.Done?)
    ensures old(io.faulted) ==> io.faulted
    ensures !io.faulted ==>
              if Saveable(old(io.files), valid) then r.ok else r.reason == RefusedFor(old(io.files))
  {
    r := STARTED;
    if !status.OK? && !status.MISSING? {
      return r.(reason := PreviousRead, detail := status);
    }
    r := r.(hadPrevious := status.OK?);
    if !r.hadPrevious {
      var probe, _ := io.Read(true);
      if probe.OK? {
        return r.(reason := MissingWithBackup, detail := probe);
      }
      if !probe.MISSING? {
        return r.(reason := MissingBackupCheck, detail := probe);
      }
      r := r.(firstSaveAllowed := true);
    } else {
      if !valid(previous) {
        return r.(reason := PreviousInvalid);
      }
      r := SaveBackup(io, previous, r);
      if !r.reason.NoReason? {
        return;
      }
    }
    ghost var middle := io.trace;
    var closed := guard.Close();
    if !closed.OK? {
      return r.(reason := PreviousClose, detail := closed);
    }
    r := SaveTarget(io, payload, r);
    assert io.trace[..|middle|] == middle;
    assert forall i :: 0 <= i < |middle| ==> io.trace[i] == middle[i];
  }

  /**
   Save survivability: a valid previous text is at every point the target or exactly the backup; an invalid
   previous file, or a missing target with a present or unreadable backup, leaves both files untouched; and
   ok means that the target is the payload.  The previous file is closed exactly once.  Unless some call of the
   layer fails, the save succeeds exactly for a payload of a legal size over saveable files.
   */
  method Write(io: IO, payload: string, valid: string -> bool) returns (r: Result)
    requires io.Valid() && !io.held
    modifies io
    ensures io.Valid() && !io.held
    ensures |old(io.trace)| <= |io.trace| && io.trace[..|old(io.trace)|] == old(io.trace)
    ensures SaveKeeps(io.trace, |old(io.trace)| - 1, valid, payload, r)
    ensures io.closes == old(io.closes) + if 1 <= |payload| <= MAX_FILE_BYTES then 1 else 0
    ensures r.ok ==> 1 <= |payload| <= MAX_FILE_BYTES
    ensures old(io.faulted) ==> io.faulted
    ensures !(1 <= |payload| <= MAX_FILE_BYTES) ==> r.reason == TextSize
    ensures !io.faulted && 1 <= |payload| <= MAX_FILE_BYTES ==>
              if Saveable(old(io.files), valid) then r.ok else r.reason == RefusedFor(old(io.files))
  {
    if |payload| == 0 || |payload| > MAX_FILE_BYTES {
      return STARTED.(reason := TextSize);
    }
    var status, previous := io.ReadPrevious();
    var guard := new PreviousReadGuard(io);
    r := Guarded(io, guard, status, previous, payload, valid);
    guard.Destroy();
  }

  // ---------------------------------------------------------- repeated saves

  /** A valid text is recoverable: it is the target, or the backup. */
  predicate Recoverable(files: Files, valid: string -> bool) {
    (files.target.Present? && valid(files.target.text)) || (files.backup.Present? && valid(files.backup.text))
  }

  /** One save never takes a recoverable pair of files through an unrecoverable state. */
  lemma SaveKeepsRecoverable(trace: seq<Files>, start: nat, valid: string -> bool, payload: string, r: Result)
    requires start < |trace| && SaveKeeps(trace, start, valid, payload, r) && Recoverable(trace[start], valid)
    ensures forall i :: start <= i < |trace| ==> Recoverable(trace[i], valid)
  {
  }

  /** Every text can be saved, and saved over. */
  predicate AllLegal(payloads: seq<string>, valid: string -> bool) {
    forall i :: 0 <= i < |payloads| ==> 1 <= |payloads[i]| <= MAX_FILE_BYTES && valid(payloads[i])
  }

  /**
   Over any number of saves a recoverable pair of files stays recoverable at every point in between, and without
   faults legal payloads over saveable files end with the last one in the target.
   */
  method SaveAll(io: IO, payloads: seq<string>, valid: string -> bool)
    requires io.Valid() && !io.held && Recoverable(io.files, valid)
    modifies io
    ensures io.Valid() && !io.held && |old(io.trace)| <= |io.trace|
    ensures forall i :: |old(io.trace)| - 1 <= i < |io.trace| ==> Recoverable(io.trace[i], valid)
    ensures !io.faulted && AllLegal(payloads, valid) && old(Saveable(io.files, valid)) && payloads != [] ==>
              io.files.target == Present(payloads[|payloads| - 1])
  {
    ghost var legal := AllLegal(payloads, valid) && Saveable(io.files, valid);
    for n := 0 to |payloads|
      invariant io.Valid() && !io.held && |old(io.trace)| <= |io.trace|
      invariant forall i :: |old(io.trace)| - 1 <= i < |io.trace| ==> Recoverable(io.trace[i], valid)
      invariant !io.faulted && legal ==>
                  Saveable(io.files, valid) && (n > 0 ==> io.files.target == Present(payloads[n - 1]))
    {
      ghost var before := io.trace;
      var r := Write(io, payloads[n], valid);
      SaveKeepsRecoverable(io.trace, |before| - 1, valid, payloads[n], r);
      assert forall i :: 0 <= i < |before| ==> io.trace[i] == io.trace[..|before|][i] == before[i];
    }
  }
}
