/** `src/ficelle/update.py`: backup, marker, package swap, commit, rollback, and recovery that can be run again. */
module UpdateRecovery {
  /*
    Everything that survives the process is in `Disk`.  What the outside world does at each step is
    read from a list of `Fate`s: the step works, it raises, or the process dies there.  A step that
    is not atomic leaves arbitrary debris behind when it raises or dies.  Quantifying over the list
    is quantifying over every run with a failure or a crash at any place.
   */
  import opened Wrappers

  /** The managed package paths that exist, each with the whole tree below it. */
  type Files = map<string, string>

  datatype Phase = Prepared | Committed

  datatype Entry = Entry(original: string, slot: nat)

  datatype Marker = Marker(phase: Phase, entries: seq<Entry>)

  datatype Disk = Disk(files: Files, backup: map<nat, string>, marker: Option<Marker>)

  /** What a torn, non-atomic step leaves behind. */
  datatype Debris = Debris(files: Files, backup: map<nat, string>, keepsMarker: bool)

  datatype Fate = Go | Fail(failed: Debris) | Die(died: Debris)

  /** How a piece of code ended: normally, by raising, or with the process. */
  datatype Flow = Done | Raised | Died {
    predicate IsFailure() {
      !Done?
    }

    function PropagateFailure(): Flow
      requires IsFailure()
    {
      this
    }
  }

  datatype Run = Run(disk: Disk, fates: seq<Fate>, flow: Flow)

  /** A distribution's wheel: the managed names it replaces and the files it brings. */
  datatype Wheel = Wheel(owned: set<string>, files: Files)

  datatype Update = Update(queued: bool, wheels: seq<Wheel>)

  /**
    `listing` enumerates the existing managed paths in the order of the globs.  The three flags are
    the ways in which a file system call can break the protocol: a `chmod` that raises after the
    marker was already replaced, a recursive delete that dies half way, and a recursive delete that
    goes on after an error, which it ignores, and so leaves something behind.
   */
  datatype World = World(listing: Files -> seq<string>, chmodFails: bool, clearTears: bool, clearSkips: bool)

  ghost predicate IsListing(files: Files, paths: seq<string>) {
    && (forall p :: p in paths <==> p in files)
    && |paths| == |files|
  }

  ghost predicate Lists(w: World) {
    forall files :: IsListing(files, w.listing(files))
  }

  // ---------------------------------------------------------------------------------------------
  // Single steps
  // ---------------------------------------------------------------------------------------------

  /** The debris of the fate that the next step meets. */
  function NextDebris(r: Run): Debris {
    if r.fates == [] || r.fates[0].Go? then Debris(map[], map[], false)
    else if r.fates[0].Fail? then r.fates[0].failed
    else r.fates[0].died
  }

  /** Consume one fate: reach `after`, or raise or die leaving `torn`. */
  function Step(r: Run, after: Disk, torn: Disk): Run {
    if !r.flow.Done? then r
    else if r.fates == [] then r.(flow := Died)
    else
      match r.fates[0]
      case Go => Run(after, r.fates[1..], Done)
      case Fail(_) => Run(torn, r.fates[1..], Raised)
      case Die(_) => Run(torn, r.fates[1..], Died)
  }

  function Atomic(r: Run, after: Disk): Run {
    Step(r, after, r.disk)
  }

  /** A call with no durable effect that may raise: a subprocess, a service call, a check. */
  function Check(r: Run): Run {
    Atomic(r, r.disk)
  }

  /** `n` such calls one after the other. */
  function Checks(r: Run, n: nat): Run
    decreases n
  {
    if n == 0 then r else Checks(Check(r), n - 1)
  }

  function PutFiles(r: Run, files: Files): Run {
    Step(r, r.disk.(files := files), r.disk.(files := NextDebris(r).files))
  }

  function PutBackup(r: Run, backup: map<nat, string>): Run {
    Step(r, r.disk.(backup := backup), r.disk.(backup := NextDebris(r).backup))
  }

  /** The continuation of a `try` whose exception was swallowed. */
  function Caught(r: Run): Run {
    if r.flow.Raised? then r.(flow := Done) else r
  }

  /** What an `except` branch that ends in `raise` hands on. */
  function Reraised(r: Run): Run {
    if r.flow.Died? then r else r.(flow := Raised)
  }

  function Cleared(d: Disk): Disk {
    d.(backup := map[], marker := None)
  }

  /** What is left of the recovery directory by a delete that did not remove all of it. */
  function Torn(d: Disk, t: Debris): Disk {
    d.(backup := t.backup, marker := if t.keepsMarker then d.marker else None)
  }

  /** What a delete leaves that meets something else than success. */
  function Unfinished(w: World, r: Run): Disk {
    if r.fates != [] && r.fates[0].Fail? then
      if w.clearSkips then Torn(r.disk, NextDebris(r)) else Cleared(r.disk)
    else
      if w.clearTears then Torn(r.disk, NextDebris(r)) else r.disk
  }

  /** `shutil.rmtree(..., ignore_errors=True)`: never raises, not even when it deleted only a part. */
  function Clear(w: World, r: Run): Run {
    Caught(Step(r, Cleared(r.disk), Unfinished(w, r)))
  }

  /** `atomic_write_json` followed by `marker.chmod(0o600)`. */
  function PutMarker(w: World, r: Run, marker: Marker): Run {
    var written := Atomic(r, r.disk.(marker := Some(marker)));
    if w.chmodFails then Check(written) else written
  }

  /** `_write_recovery_phase`. */
  function PutPhase(w: World, r: Run, phase: Phase): Run {
    if r.flow.Done? && r.disk.marker.None? then r.(flow := Raised)
    else if r.flow.Done? then PutMarker(w, r, r.disk.marker.value.(phase := phase))
    else r
  }

  // ---------------------------------------------------------------------------------------------
  // Backup and restore
  // ---------------------------------------------------------------------------------------------

  function Entries(paths: seq<string>): seq<Entry> {
    seq(|paths|, i requires 0 <= i < |paths| => Entry(paths[i], i))
  }

  function CopyOut(r: Run, paths: seq<string>, i: nat): Run
    requires i <= |paths|
    requires forall p :: p in paths ==> p in r.disk.files
    decreases |paths| - i
  {
    if i == |paths| then r
    else
      var next := PutBackup(r, r.disk.backup[i := r.disk.files[paths[i]]]);
      if next.flow.Done? then CopyOut(next, paths, i + 1) else next
  }

  function BackUp(w: World, r: Run): Run
    requires Lists(w)
  {
    if !r.flow.Done? then r
    else
      assert IsListing(r.disk.files, w.listing(r.disk.files));
      var paths := w.listing(r.disk.files);
      var copied := CopyOut(r, paths, 0);
      if copied.flow.Done? && paths == [] then copied.(flow := Raised) else copied
  }

  function Remove(r: Run, paths: seq<string>): Run
    decreases |paths|
  {
    if paths == [] || !r.flow.Done? then r
    else Remove(PutFiles(r, r.disk.files - {paths[0]}), paths[1..])
  }

  function CopyIn(r: Run, entries: seq<Entry>): Run
    decreases |entries|
  {
    if entries == [] || !r.flow.Done? then r
    else if entries[0].slot !in r.disk.backup then r.(flow := Raised)
    else CopyIn(PutFiles(r, r.disk.files[entries[0].original := r.disk.backup[entries[0].slot]]), entries[1..])
  }

  function Restore(w: World, r: Run, entries: seq<Entry>): Run {
    CopyIn(Remove(r, w.listing(r.disk.files)), entries)
  }

  // ---------------------------------------------------------------------------------------------
  // Recovery and update
  // ---------------------------------------------------------------------------------------------

  /** `_read_recovery_marker` refuses an empty entry list and a backup that is not there. */
  predicate Readable(d: Disk) {
    && d.marker.Some?
    && d.marker.value.entries != []
    && forall e :: e in d.marker.value.entries ==> e.slot in d.backup
  }

  /** The tail of a rolled-back recovery: restart, commit, status, clear. */
  function Recommit(w: World, restored: Run): Run {
    var restarted := Check(restored);
    var committed := PutPhase(w, restarted, Committed);
    if committed.flow.Done? then Clear(w, Caught(Check(committed))) else committed
  }

  function Recover(w: World, r: Run): Run {
    if !r.flow.Done? || r.disk.marker.None? then r
    else if !Readable(r.disk) then r.(flow := Raised)
    else
      var m := r.disk.marker.value;
      if m.phase.Committed? then Clear(w, Caught(Check(r)))
      else
        Recommit(w, Restore(w, r, m.entries))
  }

  function Installed(files: Files, wheel: Wheel): Files {
    (files - wheel.owned) + wheel.files
  }

  /** The complete target set: every wheel installed over the old set. */
  function Target(files: Files, wheels: seq<Wheel>): Files
    decreases |wheels|
  {
    if wheels == [] then files else Target(Installed(files, wheels[0]), wheels[1..])
  }

  function Install(r: Run, wheels: seq<Wheel>): Run
    decreases |wheels|
  {
    if wheels == [] || !r.flow.Done? then r
    else Install(PutFiles(r, Installed(r.disk.files, wheels[0])), wheels[1..])
  }

  /** The first guarded block: a fresh backup and the `prepared` marker, or nothing. */
  function Prepare(w: World, r: Run): Run
    requires Lists(w)
  {
    var cleared := Clear(w, r);
    var backedUp := BackUp(w, cleared);
    var marked := if backedUp.flow.Done?
                  then PutMarker(w, backedUp, Marker(Prepared, Entries(w.listing(backedUp.disk.files))))
                  else backedUp;
    if marked.flow.Raised? then Reraised(Clear(w, Caught(marked))) else marked
  }

  /** Stop, swap, check, restart, commit. */
  function Swap(w: World, r: Run, wheels: seq<Wheel>): Run {
    var stopped := Check(r);
    var installed := Install(stopped, wheels);
    // `pip check`, the import check, the version check, the status write and the service restart
    var restarted := Checks(installed, 5);
    if restarted.flow.Done? then PutPhase(w, restarted, Committed) else restarted
  }

  /** The `except` branch of the swap. */
  function RollBack(w: World, r: Run, entries: seq<Entry>): Run {
    var stopped := Check(r);
    var restored := if stopped.flow.Done? then Restore(w, stopped, entries) else stopped;
    var restarted := Check(restored);
    if restarted.flow.Done? then Reraised(Clear(w, restarted)) else Reraised(restarted)
  }

  /** The second guarded block and what follows it. */
  function SwapOrRollBack(w: World, prepared: Run, wheels: seq<Wheel>, entries: seq<Entry>): (Run, int) {
    var swapped := Swap(w, prepared, wheels);
    match swapped.flow
    case Died => (swapped, 1)
    case Raised => (RollBack(w, Caught(swapped), entries), 1)
    case Done => (Clear(w, Caught(Check(swapped))), 0)
  }

  /** `_apply_update_locked`, with its exit code when it returns. */
  function Apply(w: World, r: Run, update: Update): (Run, int)
    requires Lists(w)
  {
    var recovered := Recover(w, r);
    if !recovered.flow.Done? then (recovered, 1)
    else if !update.queued then (Caught(Check(recovered)), 1)
    else
      // resolving the artifacts, the status write, fetching them, and `pip check`
      var checked := Checks(recovered, 4);
      if !checked.flow.Done? then (checked, 1)
      else
        var prepared := Prepare(w, checked);
        if !prepared.flow.Done? then (prepared, 1)
        else
          SwapOrRollBack(w, prepared, update.wheels, Entries(w.listing(checked.disk.files)))
  }

  // ---------------------------------------------------------------------------------------------
  // What every step keeps
  // ---------------------------------------------------------------------------------------------

  /** The files a restore of `entries` puts over `files`. */
  function RestoredOver(files: Files, entries: seq<Entry>, backup: map<nat, string>): Files
    requires forall e :: e in entries ==> e.slot in backup
    decreases |entries|
  {
    if entries == [] then files
    else RestoredOver(files[entries[0].original := backup[entries[0].slot]], entries[1..], backup)
  }

  /**
    The disk stands for the whole package set `whole`: without a marker, or with a committed one,
    `whole` is what is installed; with a prepared one it is what the backup restores.
   */
  ghost predicate StandsFor(d: Disk, whole: Files) {
    match d.marker
    case None => d.files == whole
    case Some(m) =>
      && Readable(d)
      && (if m.phase.Committed? then d.files == whole
          else RestoredOver(map[], m.entries, d.backup) == whole)
  }

  lemma {:induction false} RemoveFrame(r: Run, paths: seq<string>)
    ensures Remove(r, paths).disk.backup == r.disk.backup
    ensures Remove(r, paths).disk.marker == r.disk.marker
    ensures Remove(r, paths).flow.Done? ==>
              Remove(r, paths).disk.files == r.disk.files - (set p | p in paths)
    decreases |paths|
  {
    if paths == [] || !r.flow.Done? {
    } else {
      var next := PutFiles(r, r.disk.files - {paths[0]});
      RemoveFrame(next, paths[1..]);
      assert (set p | p in paths) == {paths[0]} + (set p | p in paths[1..]);
    }
  }

  lemma {:induction false} CopyInFrame(r: Run, entries: seq<Entry>)
    requires forall e :: e in entries ==> e.slot in r.disk.backup
    ensures CopyIn(r, entries).disk.backup == r.disk.backup
    ensures CopyIn(r, entries).disk.marker == r.disk.marker
    ensures CopyIn(r, entries).flow.Done? ==>
              CopyIn(r, entries).disk.files == RestoredOver(r.disk.files, entries, r.disk.backup)
    decreases |entries|
  {
    if entries == [] || !r.flow.Done? {
    } else {
      CopyInFrame(PutFiles(r, r.disk.files[entries[0].original := r.disk.backup[entries[0].slot]]), entries[1..]);
    }
  }

  /** A restore that completes installs exactly what the backup holds, whatever was there before. */
  lemma {:induction false} RestoreInstallsBackup(w: World, r: Run, entries: seq<Entry>)
    requires Lists(w)
    requires forall e :: e in entries ==> e.slot in r.disk.backup
    ensures Restore(w, r, entries).disk.backup == r.disk.backup
    ensures Restore(w, r, entries).disk.marker == r.disk.marker
    ensures Restore(w, r, entries).flow.Done? ==>
              Restore(w, r, entries).disk.files == RestoredOver(map[], entries, r.disk.backup)
  {
    var paths := w.listing(r.disk.files);
    assert IsListing(r.disk.files, paths);
    var removed := Remove(r, paths);
    RemoveFrame(r, paths);
    CopyInFrame(removed, entries);
    if removed.flow.Done? {
      assert removed.disk.files == map[];
    } else {
      assert CopyIn(removed, entries) == removed;
    }
  }

  lemma {:induction false} InstallFrame(r: Run, wheels: seq<Wheel>)
    ensures Install(r, wheels).disk.backup == r.disk.backup
    ensures Install(r, wheels).disk.marker == r.disk.marker
    ensures Install(r, wheels).flow.Done? ==> Install(r, wheels).disk.files == Target(r.disk.files, wheels)
    decreases |wheels|
  {
    if wheels == [] || !r.flow.Done? {
    } else {
      InstallFrame(PutFiles(r, Installed(r.disk.files, wheels[0])), wheels[1..]);
    }
  }

  /** Copying out never touches the packages or the marker; when it ends well every slot is filled. */
  lemma {:induction false} CopyOutFills(r: Run, paths: seq<string>, i: nat)
    requires i <= |paths|
    requires forall p :: p in paths ==> p in r.disk.files
    requires forall j :: 0 <= j < i ==> j in r.disk.backup && r.disk.backup[j] == r.disk.files[paths[j]]
    ensures CopyOut(r, paths, i).disk.files == r.disk.files
    ensures CopyOut(r, paths, i).disk.marker == r.disk.marker
    ensures r.flow.Done? && CopyOut(r, paths, i).flow.Done? ==>
              forall j :: 0 <= j < |paths| ==>
                && j in CopyOut(r, paths, i).disk.backup
                && CopyOut(r, paths, i).disk.backup[j] == r.disk.files[paths[j]]
    decreases |paths| - i
  {
    if i == |paths| {
    } else {
      var next := PutBackup(r, r.disk.backup[i := r.disk.files[paths[i]]]);
      if next.flow.Done? {
        CopyOutFills(next, paths, i + 1);
      }
    }
  }

  /** The entries of a full backup restore exactly the files they were taken from. */
  lemma {:induction false} BackupRestoresFrom(files: Files, paths: seq<string>, backup: map<nat, string>, i: nat,
                                              sofar: Files)
    requires IsListing(files, paths)
    requires i <= |paths|
    requires forall j :: 0 <= j < |paths| ==> j in backup && backup[j] == files[paths[j]]
    requires forall p :: p in sofar ==> p in files && sofar[p] == files[p]
    requires forall j :: 0 <= j < i ==> paths[j] in sofar
    ensures RestoredOver(sofar, Entries(paths)[i..], backup) == files
    decreases |paths| - i
  {
    var entries := Entries(paths)[i..];
    if i == |paths| {
      assert entries == [];
      assert sofar == files;
    } else {
      assert entries[0] == Entry(paths[i], i) && entries[1..] == Entries(paths)[i + 1..];
      BackupRestoresFrom(files, paths, backup, i + 1, sofar[paths[i] := files[paths[i]]]);
    }
  }

  /** None of the ways to break the protocol is present. */
  predicate Sound(w: World) {
    !w.chmodFails && !w.clearTears && !w.clearSkips
  }

  lemma {:induction false} ClearKeepsWhole(w: World, r: Run, whole: Files)
    requires Sound(w)
    requires StandsFor(r.disk, whole) && r.disk.files == whole
    ensures StandsFor(Clear(w, r).disk, whole)
    ensures r.flow.Done? && Clear(w, r).flow.Done? ==> Clear(w, r).disk == Cleared(r.disk)
  {
  }

  /** The commit is one step: before it nothing changed, after it the installed set is the whole set. */
  lemma {:induction false} CommitKeepsWhole(w: World, r: Run)
    requires Sound(w)
    requires r.flow.Done? && Readable(r.disk)
    ensures var c := PutPhase(w, r, Committed);
            if c.flow.Done? then StandsFor(c.disk, r.disk.files) && c.disk.files == r.disk.files && c.disk.marker.Some?
            else c.disk == r.disk
  {
  }

  lemma {:induction false} RestartAndCommit(w: World, r: Run, whole: Files)
    requires Sound(w)
    requires StandsFor(r.disk, whole)
    requires r.disk.marker.Some?
    requires r.flow.Done? ==> r.disk.files == whole
    ensures StandsFor(Recommit(w, r).disk, whole)
    ensures Recommit(w, r).flow.Done? ==>
              Recommit(w, r).disk.files == whole && Recommit(w, r).disk.marker.None?
  {
    var restarted := Check(r);
    if restarted.flow.Done? {
      CommitKeepsWhole(w, restarted);
      var committed := PutPhase(w, restarted, Committed);
      if committed.flow.Done? {
        ClearKeepsWhole(w, Caught(Check(committed)), whole);
      }
    }
  }

  /**
    Recovery, interrupted anywhere, keeps the whole set the disk stands for; recovery that
    completes has it installed and leaves no marker.
   */
  lemma {:induction false} RecoverKeepsWhole(w: World, r: Run, whole: Files)
    requires Lists(w) && Sound(w)
    requires StandsFor(r.disk, whole)
    ensures StandsFor(Recover(w, r).disk, whole)
    ensures r.flow.Done? && Recover(w, r).flow.Done? ==>
              Recover(w, r).disk.files == whole && Recover(w, r).disk.marker.None?
  {
    if r.flow.Done? && r.disk.marker.Some? {
      var m := r.disk.marker.value;
      if m.phase.Committed? {
        ClearKeepsWhole(w, Caught(Check(r)), whole);
      } else {
        RestoreInstallsBackup(w, r, m.entries);
        var restored := Restore(w, r, m.entries);
        RestartAndCommit(w, restored, whole);
      }
    }
  }

  /** A backup that completes is non-empty and restores exactly what is installed. */
  lemma {:induction false} BackUpHoldsWhole(w: World, r: Run)
    requires Lists(w)
    ensures BackUp(w, r).disk.files == r.disk.files
    ensures BackUp(w, r).disk.marker == r.disk.marker
    ensures BackUp(w, r).flow.Done? ==>
              var entries := Entries(w.listing(r.disk.files));
              && entries != []
              && (forall e :: e in entries ==> e.slot in BackUp(w, r).disk.backup)
              && RestoredOver(map[], entries, BackUp(w, r).disk.backup) == r.disk.files
  {
    if r.flow.Done? {
      var paths := w.listing(r.disk.files);
      assert IsListing(r.disk.files, paths);
      CopyOutFills(r, paths, 0);
      var d := BackUp(w, r).disk;
      if BackUp(w, r).flow.Done? {
        BackupRestoresFrom(r.disk.files, paths, d.backup, 0, map[]);
        assert Entries(paths)[0..] == Entries(paths);
      }
    }
  }

  lemma {:induction false} PutMarkerKeepsWhole(w: World, r: Run, entries: seq<Entry>)
    requires Sound(w)
    requires r.flow.Done? && r.disk.marker.None? && entries != []
    requires forall e :: e in entries ==> e.slot in r.disk.backup
    requires RestoredOver(map[], entries, r.disk.backup) == r.disk.files
    ensures var marked := PutMarker(w, r, Marker(Prepared, entries));
            && StandsFor(marked.disk, r.disk.files)
            && marked.disk.files == r.disk.files
            && (marked.flow.Done? ==> marked.disk.marker == Some(Marker(Prepared, entries)))
  {
    var marked := PutMarker(w, r, Marker(Prepared, entries));
    if marked.flow.Done? {
      assert Readable(marked.disk);
    }
  }

  /** After the first guarded block the backup holds the whole set under a prepared marker, or nothing changed. */
  lemma {:induction false} PrepareBacksUpWhole(w: World, r: Run)
    requires Lists(w) && Sound(w)
    requires r.flow.Done? && r.disk.marker.None?
    ensures StandsFor(Prepare(w, r).disk, r.disk.files)
    ensures Prepare(w, r).flow.Done? ==>
              var d := Prepare(w, r).disk;
              d.files == r.disk.files && d.marker == Some(Marker(Prepared, Entries(w.listing(r.disk.files))))
  {
    var cleared := Clear(w, r);
    assert cleared.disk.files == r.disk.files && cleared.disk.marker.None?;
    BackUpHoldsWhole(w, cleared);
    var backedUp := BackUp(w, cleared);
    var entries := Entries(w.listing(backedUp.disk.files));
    if backedUp.flow.Done? {
      PutMarkerKeepsWhole(w, backedUp, entries);
      ClearKeepsWhole(w, Caught(PutMarker(w, backedUp, Marker(Prepared, entries))), r.disk.files);
    } else {
      ClearKeepsWhole(w, Caught(backedUp), r.disk.files);
    }
  }

  lemma {:induction false} ChecksFrame(r: Run, n: nat)
    ensures Checks(r, n).disk == r.disk
    ensures !r.flow.Done? ==> Checks(r, n) == r
    decreases n
  {
    if n > 0 {
      ChecksFrame(Check(r), n - 1);
    }
  }

  lemma {:induction false} SwapKeepsWhole(w: World, r: Run, wheels: seq<Wheel>, whole: Files)
    requires Lists(w) && Sound(w)
    requires r.flow.Done? && r.disk.files == whole && StandsFor(r.disk, whole)
    requires r.disk.marker.Some? && r.disk.marker.value.phase.Prepared?
    ensures var s := Swap(w, r, wheels);
            if s.flow.Done? then
              && s.disk.files == Target(whole, wheels)
              && StandsFor(s.disk, Target(whole, wheels))
            else
              && s.disk.backup == r.disk.backup
              && s.disk.marker == r.disk.marker
  {
    var stopped := Check(r);
    InstallFrame(stopped, wheels);
    var installed := Install(stopped, wheels);
    var restarted := Checks(installed, 5);
    ChecksFrame(installed, 5);
    assert !installed.flow.Done? ==> !restarted.flow.Done?;
    assert restarted.disk.backup == r.disk.backup && restarted.disk.marker == r.disk.marker;
    if restarted.flow.Done? {
      CommitKeepsWhole(w, restarted);
    }
  }

  lemma {:induction false} RollBackKeepsWhole(w: World, r: Run, entries: seq<Entry>, whole: Files)
    requires Lists(w) && Sound(w)
    requires r.disk.marker == Some(Marker(Prepared, entries)) && StandsFor(r.disk, whole)
    ensures StandsFor(RollBack(w, r, entries).disk, whole)
    ensures !RollBack(w, r, entries).flow.Done?
  {
    var stopped := Check(r);
    if stopped.flow.Done? {
      RestoreInstallsBackup(w, stopped, entries);
      var restarted := Check(Restore(w, stopped, entries));
      if restarted.flow.Done? {
        ClearKeepsWhole(w, restarted, whole);
      }
    }
  }

  lemma {:induction false} SwapOrRollBackKeepsWhole(w: World, r: Run, wheels: seq<Wheel>, entries: seq<Entry>,
                                                    whole: Files)
    requires Lists(w) && Sound(w)
    requires r.flow.Done? && r.disk.files == whole && StandsFor(r.disk, whole)
    requires r.disk.marker == Some(Marker(Prepared, entries))
    ensures var (out, code) := SwapOrRollBack(w, r, wheels, entries);
            || StandsFor(out.disk, whole)
            || StandsFor(out.disk, Target(whole, wheels))
    ensures var (out, code) := SwapOrRollBack(w, r, wheels, entries);
            out.flow.Done? ==> code == 0 && out.disk.files == Target(whole, wheels) && out.disk.marker.None?
  {
    SwapKeepsWhole(w, r, wheels, whole);
    var swapped := Swap(w, r, wheels);
    if swapped.flow.Raised? {
      RollBackKeepsWhole(w, Caught(swapped), entries, whole);
    } else if swapped.flow.Done? {
      ClearKeepsWhole(w, Caught(Check(swapped)), Target(whole, wheels));
    } else {
      assert StandsFor(swapped.disk, whole);
    }
  }

  /** One update run, cut anywhere: the disk stands for the old set or for the complete target set. */
  lemma {:induction false} ApplyKeepsWhole(w: World, r: Run, update: Update, whole: Files)
    requires Lists(w) && Sound(w)
    requires r.flow.Done? && StandsFor(r.disk, whole)
    ensures var (out, code) := Apply(w, r, update);
            || StandsFor(out.disk, whole)
            || (update.queued && StandsFor(out.disk, Target(whole, update.wheels)))
    ensures var (out, code) := Apply(w, r, update);
            out.flow.Done? && code == 0 ==>
              update.queued && out.disk.files == Target(whole, update.wheels) && out.disk.marker.None?
  {
    var recovered := Recover(w, r);
    RecoverKeepsWhole(w, r, whole);
    var checked := Checks(recovered, 4);
    ChecksFrame(recovered, 4);
    if recovered.flow.Done? && update.queued && checked.flow.Done? {
      var prepared := Prepare(w, checked);
      PrepareBacksUpWhole(w, checked);
      if prepared.flow.Done? {
        SwapOrRollBackKeepsWhole(w, prepared, update.wheels, Entries(w.listing(checked.disk.files)), whole);
      }
    }
  }

  // ---------------------------------------------------------------------------------------------
  // Histories
  // ---------------------------------------------------------------------------------------------

  /** One process: an update or a recovery, with the fates it met. */
  datatype Op = Applying(update: Update, fates: seq<Fate>) | Recovering(fates: seq<Fate>)

  ghost function AfterOne(w: World, d: Disk, op: Op): Disk
    requires Lists(w)
  {
    match op
    case Applying(update, fates) => Apply(w, Run(d, fates, Done), update).0.disk
    case Recovering(fates) => Recover(w, Run(d, fates, Done)).disk
  }

  ghost function After(w: World, d: Disk, ops: seq<Op>): Disk
    requires Lists(w)
    decreases |ops|
  {
    if ops == [] then d else After(w, AfterOne(w, d, ops[0]), ops[1..])
  }

  /** The package sets that whole updates, and nothing else, can turn `files` into. */
  function Wholes(files: Files, ops: seq<Op>): set<Files>
    decreases |ops|
  {
    if ops == [] then {files}
    else if ops[0].Applying? && ops[0].update.queued then
      Wholes(files, ops[1..]) + Wholes(Target(files, ops[0].update.wheels), ops[1..])
    else Wholes(files, ops[1..])
  }

  lemma {:induction false} OneStandsFor(w: World, d: Disk, op: Op, start: Files)
    requires Lists(w) && Sound(w)
    requires StandsFor(d, start)
    ensures || StandsFor(AfterOne(w, d, op), start)
            || (op.Applying? && op.update.queued && StandsFor(AfterOne(w, d, op), Target(start, op.update.wheels)))
  {
    match op
    case Recovering(fates) => RecoverKeepsWhole(w, Run(d, fates, Done), start);
    case Applying(update, fates) => ApplyKeepsWhole(w, Run(d, fates, Done), update, start);
  }

  lemma {:induction false} HistoryStandsFor(w: World, d: Disk, ops: seq<Op>, start: Files) returns (whole: Files)
    requires Lists(w) && Sound(w)
    requires StandsFor(d, start)
    ensures whole in Wholes(start, ops) && StandsFor(After(w, d, ops), whole)
    decreases |ops|
  {
    if ops == [] {
      whole := start;
    } else {
      var next := AfterOne(w, d, ops[0]);
      OneStandsFor(w, d, ops[0], start);
      if StandsFor(next, start) {
        whole := HistoryStandsFor(w, next, ops[1..], start);
      } else {
        whole := HistoryStandsFor(w, next, ops[1..], Target(start, ops[0].update.wheels));
      }
    }
  }

  /** After any history of interrupted processes, a recovery that completes leaves a whole set and no marker. */
  ghost predicate EndsWhole(w: World, files: Files, ops: seq<Op>, fates: seq<Fate>)
    requires Lists(w)
  {
    var last := Recover(w, Run(After(w, Disk(files, map[], None), ops), fates, Done));
    last.flow.Done? ==> last.disk.files in Wholes(files, ops) && last.disk.marker.None?
  }

  ghost predicate CrashSafe(w: World)
    requires Lists(w)
  {
    forall files, ops, fates :: EndsWhole(w, files, ops, fates)
  }

  lemma {:induction false} SoundIsCrashSafe(w: World)
    requires Lists(w) && Sound(w)
    ensures CrashSafe(w)
  {
    forall files, ops, fates ensures EndsWhole(w, files, ops, fates) {
      var d := Disk(files, map[], None);
      var whole := HistoryStandsFor(w, d, ops, files);
      RecoverKeepsWhole(w, Run(After(w, d, ops), fates, Done), whole);
    }
  }

  // ---------------------------------------------------------------------------------------------
  // Recovery can complete, and exactly the sound worlds are crash safe
  // ---------------------------------------------------------------------------------------------

  function Goes(n: nat): (fates: seq<Fate>)
    ensures |fates| == n && forall i :: 0 <= i < n ==> fates[i].Go?
    ensures n > 0 ==> fates[1..] == Goes(n - 1)
  {
    seq(n, i => Go)
  }

  lemma {:induction false} RemoveGoes(r: Run, paths: seq<string>, n: nat)
    requires r.flow.Done? && r.fates == Goes(|paths| + n)
    ensures Remove(r, paths).flow.Done? && Remove(r, paths).fates == Goes(n)
    decreases |paths|
  {
    if paths != [] {
      RemoveGoes(PutFiles(r, r.disk.files - {paths[0]}), paths[1..], n);
    }
  }

  lemma {:induction false} CopyInGoes(r: Run, entries: seq<Entry>, n: nat)
    requires r.flow.Done? && r.fates == Goes(|entries| + n)
    requires forall e :: e in entries ==> e.slot in r.disk.backup
    ensures CopyIn(r, entries).flow.Done? && CopyIn(r, entries).fates == Goes(n)
    decreases |entries|
  {
    if entries != [] {
      CopyInGoes(PutFiles(r, r.disk.files[entries[0].original := r.disk.backup[entries[0].slot]]), entries[1..], n);
    }
  }

  lemma {:induction false} RecommitGoes(w: World, r: Run)
    requires r.flow.Done? && r.fates == Goes(5) && r.disk.marker.Some?
    ensures Recommit(w, r).flow.Done?
  {
    var restarted := Check(r);
    assert restarted.fates == Goes(4);
    var written := Atomic(restarted, restarted.disk.(marker := Some(restarted.disk.marker.value.(phase := Committed))));
    assert written.fates == Goes(3);
  }

  /** From every disk that stands for a whole set, an undisturbed recovery completes. */
  lemma {:induction false} RecoveryCompletes(w: World, d: Disk, whole: Files)
    requires Lists(w) && StandsFor(d, whole)
    ensures exists fates :: Recover(w, Run(d, fates, Done)).flow.Done?
  {
    if d.marker.None? {
      assert Recover(w, Run(d, [], Done)).flow.Done?;
    } else if d.marker.value.phase.Committed? {
      var r := Run(d, Goes(2), Done);
      assert Check(r).fates == Goes(1);
      assert Recover(w, r).flow.Done?;
    } else {
      var entries := d.marker.value.entries;
      var paths := w.listing(d.files);
      var r := Run(d, Goes(|paths| + (|entries| + 5)), Done);
      RemoveGoes(r, paths, |entries| + 5);
      RemoveFrame(r, paths);
      var removed := Remove(r, paths);
      CopyInGoes(removed, entries, 5);
      CopyInFrame(removed, entries);
      RecommitGoes(w, CopyIn(removed, entries));
      assert Recover(w, r).flow.Done?;
    }
  }

  /** One package, replaced by one wheel: the smallest update. */
  const OLD: Files := map["ficelle" := "old"]
  const NEW: Files := map["ficelle" := "new"]
  const SMALLEST: Update := Update(true, [Wheel({"ficelle"}, NEW)])
  const LOST: Debris := Debris(map[], map[], true)

  function Prepend(fate: Fate, rest: seq<Fate>): (fates: seq<Fate>)
    ensures fates != [] && fates[0] == fate && fates[1..] == rest
  {
    [fate] + rest
  }

  function AfterGoes(n: nat, rest: seq<Fate>): (fates: seq<Fate>)
    decreases n
  {
    if n == 0 then rest else Prepend(Go, AfterGoes(n - 1, rest))
  }

  lemma {:induction false} ChecksGo(r: Run, n: nat, rest: seq<Fate>)
    requires r.flow.Done? && r.fates == AfterGoes(n, rest)
    ensures Checks(r, n) == r.(fates := rest)
    decreases n
  {
    if n > 0 {
      ChecksGo(Check(r), n - 1, rest);
    }
  }

  /** Up to the stop of the service, with the smallest package set. */
  lemma {:induction false} SmallestPrepare(w: World, r: Run, rest: seq<Fate>)
    requires Lists(w)
    requires r == Run(Disk(OLD, map[], None), AfterGoes(2, if w.chmodFails then AfterGoes(2, rest)
        else AfterGoes(1, rest)), Done)
    ensures Prepare(w, r) == Run(Disk(OLD, map[0 := "old"], Some(Marker(Prepared, [Entry("ficelle", 0)]))), rest, Done)
  {
    var paths := w.listing(OLD);
    OneListing(w, OLD);
    var cleared := Clear(w, r);
    assert cleared.disk == r.disk && cleared.flow.Done?;
    var copied := PutBackup(cleared, cleared.disk.backup[0 := OLD["ficelle"]]);
    assert CopyOut(cleared, paths, 0) == copied;
    assert copied.disk.backup == map[0 := "old"];
    assert BackUp(w, cleared) == copied;
    assert Entries(paths) == [Entry("ficelle", 0)];
    var written := Atomic(copied, copied.disk.(marker := Some(Marker(Prepared, Entries(paths)))));
    assert written.flow.Done?;
    assert w.chmodFails ==> written.fates == AfterGoes(1, rest);
  }

  lemma {:induction false} OneListing(w: World, files: Files)
    requires Lists(w) && files.Keys == {"ficelle"}
    ensures w.listing(files) == ["ficelle"]
  {
    var paths := w.listing(files);
    assert IsListing(files, paths);
    assert |files| == |files.Keys|;
    assert paths[0] in files;
  }

  lemma {:induction false} SmallestInstall(r: Run, rest: seq<Fate>)
    requires r.flow.Done? && r.disk.files == OLD && r.fates == Prepend(Go, rest)
    ensures Install(r, SMALLEST.wheels) == Run(r.disk.(files := NEW), rest, Done)
  {
    assert Installed(OLD, SMALLEST.wheels[0]) == NEW;
    var next := PutFiles(r, NEW);
    assert Install(next, SMALLEST.wheels[1..]) == next;
  }

  lemma {:induction false} ApplyReachesSwap(w: World, start: Run, checked: Run, update: Update)
    requires Lists(w)
    requires start.flow.Done? && start.disk.marker.None? && update.queued
    requires checked == Checks(start, 4) && checked.flow.Done? && Prepare(w, checked).flow.Done?
    ensures Apply(w, start, update) ==
            SwapOrRollBack(w, Prepare(w, checked), update.wheels, Entries(w.listing(checked.disk.files)))
  {
  }

  const BACKED_UP: Disk := Disk(OLD, map[0 := "old"], Some(Marker(Prepared, [Entry("ficelle", 0)])))

  /** The smallest update reaches the swap with any fates left over. */
  lemma {:induction false} SmallestReachesSwap(w: World, swapping: seq<Fate>) returns (fates: seq<Fate>)
    requires Lists(w)
    ensures Apply(w, Run(Disk(OLD, map[], None), fates, Done), SMALLEST) ==
            SwapOrRollBack(w, Run(BACKED_UP, swapping, Done), SMALLEST.wheels, [Entry("ficelle", 0)])
  {
    var preparing := AfterGoes(2, if w.chmodFails then AfterGoes(2, swapping) else AfterGoes(1, swapping));
    fates := AfterGoes(4, preparing);
    var start := Run(Disk(OLD, map[], None), fates, Done);
    ChecksGo(start, 4, preparing);
    var checked := start.(fates := preparing);
    SmallestPrepare(w, checked, swapping);
    OneListing(w, OLD);
    assert Entries(w.listing(OLD)) == [Entry("ficelle", 0)];
    ApplyReachesSwap(w, start, checked, SMALLEST);
  }

  lemma {:induction false} AfterOneOp(w: World, d: Disk, op: Op)
    requires Lists(w)
    ensures After(w, d, [op]) == AfterOne(w, d, op)
  {
    var next := AfterOne(w, d, op);
    assert [op][1..] == [];
    assert After(w, next, []) == next;
  }

  /** A crash safe world has no smallest update that ends in a set that is neither old nor new. */
  lemma {:induction false} NotCrashSafe(w: World, fates: seq<Fate>, last: Run)
    requires Lists(w)
    requires last.disk == Apply(w, Run(Disk(OLD, map[], None), fates, Done), SMALLEST).0.disk
    requires last.flow.Done? && Recover(w, last).flow.Done?
    requires Recover(w, last).disk.files !in {OLD, NEW}
    ensures !CrashSafe(w)
  {
    var ops := [Applying(SMALLEST, fates)];
    var start := Disk(OLD, map[], None);
    AfterOneOp(w, start, Applying(SMALLEST, fates));
    SmallestWholes(fates);
    assert !EndsWhole(w, OLD, ops, last.fates);
  }

  /** The commit's `chmod` raises after the marker already says `committed`. */
  lemma {:induction false} SwapFailsAfterCommit(w: World, r: Run, rest: seq<Fate>)
    requires w.chmodFails
    requires r == Run(BACKED_UP, AfterGoes(1, Prepend(Go, AfterGoes(5, AfterGoes(1, Prepend(Fail(LOST), rest))))), Done)
    ensures Swap(w, r, SMALLEST.wheels) ==
            Run(Disk(NEW, map[0 := "old"], Some(Marker(Committed, [Entry("ficelle", 0)]))), rest, Raised)
  {
    var committing := AfterGoes(1, Prepend(Fail(LOST), rest));
    SmallestInstall(Check(r), AfterGoes(5, committing));
    var installed := Install(Check(r), SMALLEST.wheels);
    ChecksGo(installed, 5, committing);
  }

  /** That failure, followed by a crash inside the rollback, leaves no packages under a committed marker. */
  lemma {:induction false} RollBackAfterCommit(w: World) returns (fates: seq<Fate>)
    requires Lists(w) && w.chmodFails
    ensures Apply(w, Run(Disk(OLD, map[], None), fates, Done), SMALLEST).0.disk ==
            Disk(map[], map[0 := "old"], Some(Marker(Committed, [Entry("ficelle", 0)])))
  {
    var entries := [Entry("ficelle", 0)];
    var dying := Prepend(Go, Prepend(Die(LOST), []));
    var swapping := AfterGoes(1, Prepend(Go, AfterGoes(5, AfterGoes(1, Prepend(Fail(LOST), dying)))));
    fates := SmallestReachesSwap(w, swapping);
    var prepared := Run(BACKED_UP, swapping, Done);
    SwapFailsAfterCommit(w, prepared, dying);
    RollBackDies(w, Caught(Swap(w, prepared, SMALLEST.wheels)), entries);
  }

  lemma {:induction false} RollBackDies(w: World, r: Run, entries: seq<Entry>)
    requires Lists(w)
    requires r.flow.Done? && r.disk.files == NEW && r.fates == Prepend(Go, Prepend(Die(LOST), []))
    ensures RollBack(w, r, entries) == Run(r.disk.(files := map[]), [], Died)
  {
    RemovalDies(w, Check(r), NEW, entries);
  }

  /** The world in which the commit's `chmod` can raise is not crash safe. */
  lemma {:induction false} ChmodFailureLosesPackages(w: World)
    requires Lists(w) && w.chmodFails
    ensures !CrashSafe(w)
  {
    var fates := RollBackAfterCommit(w);
    var d := Apply(w, Run(Disk(OLD, map[], None), fates, Done), SMALLEST).0.disk;
    var last := Run(d, Goes(2), Done);
    assert Check(last).fates == Goes(1);
    assert Recover(w, last).disk.files == map[];
    assert "ficelle" in OLD && "ficelle" in NEW;
    NotCrashSafe(w, fates, last);
  }

  lemma {:induction false} SmallestWholes(fates: seq<Fate>)
    ensures Wholes(OLD, [Applying(SMALLEST, fates)]) == {OLD, NEW}
  {
    assert Installed(OLD, SMALLEST.wheels[0]) == NEW;
    assert Target(NEW, SMALLEST.wheels[1..]) == NEW;
  }

  lemma {:induction false} RemovalDies(w: World, r: Run, files: Files, entries: seq<Entry>)
    requires Lists(w) && files.Keys == {"ficelle"}
    requires r.flow.Done? && r.disk.files == files && r.fates == Prepend(Die(LOST), [])
    ensures Restore(w, r, entries) == Run(r.disk.(files := map[]), [], Died)
  {
    OneListing(w, files);
    var removed := PutFiles(r, files - {"ficelle"});
    assert Remove(removed, ["ficelle"][1..]) == removed;
  }

  const TORN: Debris := Debris(map["ficelle" := "half"], map[0 := "half"], true)

  /** The ways in which a delete can tear the backup and leave the marker. */
  predicate Tears(w: World, fate: Fate) {
    (w.clearTears && fate == Die(TORN)) || (w.clearSkips && fate == Fail(TORN))
  }

  lemma {:induction false} RollBackTears(w: World, r: Run, fate: Fate)
    requires Lists(w) && Tears(w, fate)
    requires r.flow.Done? && r.disk == BACKED_UP.(files := TORN.files)
    requires r.fates == Prepend(Go, AfterGoes(2, Prepend(Go, [fate])))
    ensures RollBack(w, r, [Entry("ficelle", 0)]).disk ==
            Disk(OLD, TORN.backup, Some(Marker(Prepared, [Entry("ficelle", 0)])))
  {
    var stopped := Check(r);
    SmallestRestore(w, stopped, TORN.files, Prepend(Go, [fate]), "old");
    var restored := Restore(w, stopped, [Entry("ficelle", 0)]);
    assert Check(restored) == restored.(fates := [fate]);
  }

  /** The clean-up after a rollback is not complete: it tears the backup and leaves the marker. */
  lemma {:induction false} CleanUpTears(w: World, fate: Fate) returns (fates: seq<Fate>)
    requires Lists(w) && Tears(w, fate)
    ensures Apply(w, Run(Disk(OLD, map[], None), fates, Done), SMALLEST).0.disk ==
            Disk(OLD, TORN.backup, Some(Marker(Prepared, [Entry("ficelle", 0)])))
  {
    var rollingBack := Prepend(Go, AfterGoes(2, Prepend(Go, [fate])));
    var swapping := Prepend(Go, Prepend(Fail(TORN), rollingBack));
    fates := SmallestReachesSwap(w, swapping);
    var prepared := Run(BACKED_UP, swapping, Done);
    SwapFailsInPip(w, prepared, TORN, rollingBack);
    RollBackTears(w, Caught(Swap(w, prepared, SMALLEST.wheels)), fate);
  }

  lemma {:induction false} SwapFailsInPip(w: World, r: Run, torn: Debris, rest: seq<Fate>)
    requires r.flow.Done? && r.fates == Prepend(Go, Prepend(Fail(torn), rest))
    ensures Swap(w, r, SMALLEST.wheels) == Run(r.disk.(files := torn.files), rest, Raised)
  {
    var stopped := Check(r);
    var failed := PutFiles(stopped, Installed(stopped.disk.files, SMALLEST.wheels[0]));
    assert Install(failed, SMALLEST.wheels[1..]) == failed;
    ChecksFrame(failed, 5);
  }

  /** Once it has torn the backup under a prepared marker, the next recovery installs what is left of it. */
  lemma {:induction false} TornBackupIsInstalled(w: World, fate: Fate)
    requires Lists(w) && Tears(w, fate)
    ensures !CrashSafe(w)
  {
    var fates := CleanUpTears(w, fate);
    var d := Apply(w, Run(Disk(OLD, map[], None), fates, Done), SMALLEST).0.disk;
    var last := Run(d, AfterGoes(2, Goes(5)), Done);
    SmallestRestore(w, last, OLD, Goes(5), "half");
    var restored := Restore(w, last, [Entry("ficelle", 0)]);
    RecommitGoes(w, restored);
    RecommitFrame(w, restored);
    assert Recover(w, last) == Recommit(w, restored);
    assert Recover(w, last).disk.files["ficelle"] == "half";
    assert OLD["ficelle"] == "old" && NEW["ficelle"] == "new" && "half" != "old" && "half" != "new";
    NotCrashSafe(w, fates, last);
  }

  /** The world in which the recursive delete can die half way is not crash safe. */
  lemma {:induction false} TornClearMixesPackages(w: World)
    requires Lists(w) && w.clearTears
    ensures !CrashSafe(w)
  {
    TornBackupIsInstalled(w, Die(TORN));
  }

  /** Nor is the one in which it ignores an error: no process has to die for that. */
  lemma {:induction false} IgnoredErrorMixesPackages(w: World)
    requires Lists(w) && w.clearSkips
    ensures !CrashSafe(w)
  {
    TornBackupIsInstalled(w, Fail(TORN));
  }

  lemma {:induction false} ClearFrame(w: World, r: Run)
    ensures Clear(w, r).disk.files == r.disk.files
  {
  }

  lemma {:induction false} PutPhaseFrame(w: World, r: Run, phase: Phase)
    ensures PutPhase(w, r, phase).disk.files == r.disk.files
  {
  }

  lemma {:induction false} RecommitFrame(w: World, r: Run)
    ensures Recommit(w, r).disk.files == r.disk.files
  {
    var restarted := Check(r);
    PutPhaseFrame(w, restarted, Committed);
    ClearFrame(w, Caught(Check(PutPhase(w, restarted, Committed))));
  }

  lemma {:induction false} SmallestRestore(w: World, r: Run, files: Files, rest: seq<Fate>, saved: string)
    requires Lists(w) && files.Keys == {"ficelle"}
    requires r.flow.Done? && r.disk.files == files && r.fates == AfterGoes(2, rest)
    requires r.disk.backup == map[0 := saved]
    ensures Restore(w, r, [Entry("ficelle", 0)]) == Run(r.disk.(files := map["ficelle" := saved]), rest, Done)
  {
    OneListing(w, files);
    var removed := PutFiles(r, files - {"ficelle"});
    assert Remove(removed, ["ficelle"][1..]) == removed;
    assert removed.disk.files == map[];
    var copied := PutFiles(removed, removed.disk.files["ficelle" := saved]);
    assert CopyIn(copied, [Entry("ficelle", 0)][1..]) == copied;
  }

  /**
    The protocol survives a failure or a crash at every place exactly in the worlds in which the
    commit's `chmod` never raises after the replacement and the recursive delete never leaves a part
    behind, neither when the process dies in it nor when it ignores an error.
   */
  lemma {:induction false} CrashSafeExactlyWhenSound(w: World)
    requires Lists(w)
    ensures CrashSafe(w) <==> Sound(w)
  {
    if Sound(w) {
      SoundIsCrashSafe(w);
    } else if w.chmodFails {
      ChmodFailureLosesPackages(w);
    } else if w.clearTears {
      TornClearMixesPackages(w);
    } else {
      IgnoredErrorMixesPackages(w);
    }
  }

  // ---------------------------------------------------------------------------------------------
  // When an update succeeds
  // ---------------------------------------------------------------------------------------------

  /** The next `n` steps work. */
  predicate AllGo(fates: seq<Fate>, n: nat) {
    n <= |fates| && forall i :: 0 <= i < n ==> fates[i].Go?
  }

  /** `s` is `r` after `n` steps, each of which has to work. */
  predicate Takes(r: Run, s: Run, n: nat) {
    && (s.flow.Done? <==> r.flow.Done? && AllGo(r.fates, n))
    && (s.flow.Done? ==> s.fates == r.fates[n..])
  }

  /** `s` is `r` after one step that only must not kill the process. */
  predicate Survives(r: Run, s: Run) {
    && (s.flow.Done? <==> r.flow.Done? && r.fates != [] && !r.fates[0].Die?)
    && (s.flow.Done? ==> s.fates == r.fates[1..])
  }

  lemma {:induction false} StepTakes(r: Run, after: Disk, torn: Disk)
    ensures Takes(r, Step(r, after, torn), 1)
    ensures Step(r, after, torn).flow.Done? ==> r.flow.Done? ==> Step(r, after, torn).disk == after
  {
  }

  lemma {:induction false} TakesThen(r: Run, s: Run, t: Run, m: nat, n: nat)
    requires Takes(r, s, m) && Takes(s, t, n)
    ensures Takes(r, t, m + n)
  {
    if r.flow.Done? && AllGo(r.fates, m) {
      assert s.fates == r.fates[m..];
      if AllGo(s.fates, n) {
        assert forall i :: m <= i < m + n ==> r.fates[i] == s.fates[i - m];
        assert s.fates[n..] == r.fates[m + n..];
      }
      if AllGo(r.fates, m + n) {
        assert forall i :: 0 <= i < n ==> s.fates[i] == r.fates[m + i];
      }
    }
  }

  lemma {:induction false} ChecksTake(r: Run, n: nat)
    ensures Takes(r, Checks(r, n), n)
    decreases n
  {
    if n == 0 {
      assert r.fates[0..] == r.fates;
    } else {
      StepTakes(r, r.disk, r.disk);
      ChecksTake(Check(r), n - 1);
      TakesThen(r, Check(r), Checks(r, n), 1, n - 1);
    }
  }

  lemma {:induction false} InstallTakes(r: Run, wheels: seq<Wheel>)
    ensures Takes(r, Install(r, wheels), |wheels|)
    decreases |wheels|
  {
    if wheels == [] || !r.flow.Done? {
      assert r.fates[0..] == r.fates;
    } else {
      var next := PutFiles(r, Installed(r.disk.files, wheels[0]));
      StepTakes(r, r.disk.(files := Installed(r.disk.files, wheels[0])), r.disk.(files := NextDebris(r).files));
      InstallTakes(next, wheels[1..]);
      TakesThen(r, next, Install(r, wheels), 1, |wheels| - 1);
    }
  }

  lemma {:induction false} CopyOutTakes(r: Run, paths: seq<string>, i: nat)
    requires i <= |paths| && r.flow.Done?
    requires forall p :: p in paths ==> p in r.disk.files
    ensures Takes(r, CopyOut(r, paths, i), |paths| - i)
    decreases |paths| - i
  {
    if i == |paths| {
      assert r.fates[0..] == r.fates;
    } else {
      var backup := r.disk.backup[i := r.disk.files[paths[i]]];
      var next := PutBackup(r, backup);
      StepTakes(r, r.disk.(backup := backup), r.disk.(backup := NextDebris(r).backup));
      if next.flow.Done? {
        CopyOutTakes(next, paths, i + 1);
        TakesThen(r, next, CopyOut(r, paths, i), 1, |paths| - i - 1);
      }
    }
  }

  /** A backup needs a package, and one step for each path. */
  lemma {:induction false} BackUpTakes(w: World, r: Run)
    requires Lists(w)
    ensures if r.disk.files == map[] then !BackUp(w, r).flow.Done? else Takes(r, BackUp(w, r), |r.disk.files|)
  {
    var paths := w.listing(r.disk.files);
    assert IsListing(r.disk.files, paths);
    if r.flow.Done? {
      CopyOutTakes(r, paths, 0);
      if r.disk.files == map[] {
        assert paths == [];
      } else {
        assert |r.disk.files.Keys| == |r.disk.files|;
        assert |paths| > 0;
      }
    }
  }

  /** Replacing the marker is one step, and another one where the `chmod` after it can fail. */
  function MarkerSteps(w: World): nat {
    if w.chmodFails then 2 else 1
  }

  lemma {:induction false} PutMarkerTakes(w: World, r: Run, marker: Marker)
    ensures Takes(r, PutMarker(w, r, marker), MarkerSteps(w))
    ensures r.flow.Done? && PutMarker(w, r, marker).flow.Done? ==>
              PutMarker(w, r, marker).disk == r.disk.(marker := Some(marker))
  {
    var written := Atomic(r, r.disk.(marker := Some(marker)));
    StepTakes(r, r.disk.(marker := Some(marker)), r.disk);
    if w.chmodFails {
      StepTakes(written, written.disk, written.disk);
      TakesThen(r, written, Check(written), 1, 1);
    }
  }

  lemma {:induction false} ClearSurvives(w: World, r: Run)
    requires r.flow.Done?
    ensures Survives(r, Clear(w, r))
    ensures r.disk.marker.None? ==> Clear(w, r).disk.marker.None?
    ensures AllGo(r.fates, 1) ==> Clear(w, r).disk == Cleared(r.disk)
  {
    ClearFrame(w, r);
  }

  lemma {:induction false} CaughtCheckSurvives(r: Run)
    requires r.flow.Done?
    ensures Survives(r, Caught(Check(r))) && Caught(Check(r)).disk == r.disk
  {
  }

  /** The first guarded block succeeds exactly when there is a package and its steps work; the clean-up may fail. */
  lemma {:induction false} PrepareTakes(w: World, r: Run)
    requires Lists(w) && r.flow.Done?
    ensures var s := Prepare(w, r);
            var n := |r.disk.files| + MarkerSteps(w);
            && (s.flow.Done? <==> r.disk.files != map[] && r.fates != [] && !r.fates[0].Die? && AllGo(r.fates[1..], n))
            && (s.flow.Done? ==> s.fates == r.fates[1..][n..] && s.disk.files == r.disk.files && s.disk.marker.Some?)
  {
    var cleared := Clear(w, r);
    ClearSurvives(w, r);
    ClearFrame(w, r);
    BackUpHoldsWhole(w, cleared);
    BackUpTakes(w, cleared);
    var backedUp := BackUp(w, cleared);
    var marker := Marker(Prepared, Entries(w.listing(backedUp.disk.files)));
    PutMarkerTakes(w, backedUp, marker);
    if r.disk.files != map[] {
      TakesThen(cleared, backedUp, PutMarker(w, backedUp, marker), |r.disk.files|, MarkerSteps(w));
    }
  }

  /** The swap takes the stop, the wheels, five checks and the commit. */
  function SwapSteps(w: World, wheels: seq<Wheel>): nat {
    1 + |wheels| + 5 + MarkerSteps(w)
  }

  lemma {:induction false} SwapTakes(w: World, r: Run, wheels: seq<Wheel>)
    requires r.flow.Done? && r.disk.marker.Some?
    ensures Takes(r, Swap(w, r, wheels), SwapSteps(w, wheels))
    ensures Swap(w, r, wheels).flow.Done? ==> Swap(w, r, wheels).disk.files == Target(r.disk.files, wheels)
  {
    var stopped := Check(r);
    var installed := Install(stopped, wheels);
    var restarted := Checks(installed, 5);
    StepTakes(r, r.disk, r.disk);
    InstallTakes(stopped, wheels);
    InstallFrame(stopped, wheels);
    ChecksTake(installed, 5);
    ChecksFrame(installed, 5);
    TakesThen(r, stopped, installed, 1, |wheels|);
    TakesThen(r, installed, restarted, 1 + |wheels|, 5);
    if restarted.flow.Done? {
      var marker := restarted.disk.marker.value.(phase := Committed);
      PutMarkerTakes(w, restarted, marker);
      TakesThen(r, restarted, PutMarker(w, restarted, marker), 1 + |wheels| + 5, MarkerSteps(w));
    }
  }

  /** The status and the clean-up after the commit, which may fail but must not kill the process. */
  predicate FinishSurvives(fates: seq<Fate>) {
    |fates| >= 2 && !fates[0].Die? && !fates[1].Die?
  }

  lemma {:induction false} SwapSucceedsExactly(w: World, r: Run, wheels: seq<Wheel>, entries: seq<Entry>)
    requires Lists(w) && r.flow.Done? && r.disk.marker.Some?
    ensures var (out, code) := SwapOrRollBack(w, r, wheels, entries);
            && (out.flow.Done? && code == 0 <==> SwapGoesThrough(w, wheels, r.fates))
            && (out.flow.Done? && code == 0 ==> out.disk.files == Target(r.disk.files, wheels))
            && (AllGo(r.fates, SwapSteps(w, wheels) + 2) ==> out.disk.marker.None?)
  {
    var n := SwapSteps(w, wheels);
    var swapped := Swap(w, r, wheels);
    SwapTakes(w, r, wheels);
    if swapped.flow.Done? {
      var noted := Caught(Check(swapped));
      CaughtCheckSurvives(swapped);
      FinishClears(w, noted);
      assert swapped.fates == r.fates[n..];
      assert AllGo(r.fates, n + 2) ==> swapped.fates[0] == r.fates[n] && swapped.fates[1] == r.fates[n + 1];
    }
  }

  /** The last clean-up, unless the process died just before it. */
  lemma {:induction false} FinishClears(w: World, r: Run)
    requires !r.flow.Raised?
    ensures Survives(r, Clear(w, r)) && Clear(w, r).disk.files == r.disk.files
    ensures r.flow.Done? && AllGo(r.fates, 1) ==> Clear(w, r).disk.marker.None?
  {
    ClearFrame(w, r);
    if r.flow.Done? {
      ClearSurvives(w, r);
    }
  }

  /** Everything from the stop of the service on. */
  predicate SwapGoesThrough(w: World, wheels: seq<Wheel>, fates: seq<Fate>) {
    AllGo(fates, SwapSteps(w, wheels)) && FinishSurvives(fates[SwapSteps(w, wheels)..])
  }

  /** Everything after the first clean-up, with so many packages. */
  predicate BackupGoesThrough(w: World, count: nat, wheels: seq<Wheel>, fates: seq<Fate>) {
    var n := count + MarkerSteps(w);
    AllGo(fates, n) && SwapGoesThrough(w, wheels, fates[n..])
  }

  /** What the fates of a run have to be for the update of so many packages to go through. */
  predicate GoesThrough(w: World, count: nat, wheels: seq<Wheel>, fates: seq<Fate>) {
    AllGo(fates, 4) && |fates| > 4 && !fates[4].Die? && BackupGoesThrough(w, count, wheels, fates[5..])
  }

  /**
    An update reports success exactly when one is queued, there is a package, and every step works but
    the first clean-up, the last status and the last clean-up, which may fail; then the target is installed.
   */
  lemma {:induction false} UpdateSucceedsExactly(w: World, d: Disk, update: Update, fates: seq<Fate>)
    requires Lists(w) && d.marker.None?
    ensures var (out, code) := Apply(w, Run(d, fates, Done), update);
            && (out.flow.Done? && code == 0 <==>
                update.queued && d.files != map[] && GoesThrough(w, |d.files|, update.wheels, fates))
            && (out.flow.Done? && code == 0 ==> out.disk.files == Target(d.files, update.wheels))
  {
    var r := Run(d, fates, Done);
    if update.queued {
      var checked := Checks(r, 4);
      ChecksTake(r, 4);
      ChecksFrame(r, 4);
      if checked.flow.Done? {
        var prepared := Prepare(w, checked);
        PrepareTakes(w, checked);
        AfterFour(fates);
        if prepared.flow.Done? {
          SwapSucceedsExactly(w, prepared, update.wheels, Entries(w.listing(checked.disk.files)));
        }
      }
    }
  }

  lemma {:induction false} AfterFour(fates: seq<Fate>)
    requires |fates| >= 4
    ensures fates[4..] != [] <==> |fates| > 4
    ensures |fates| > 4 ==> fates[4..][0] == fates[4] && fates[4..][1..] == fates[5..]
  {
  }

  // ---- from every disk ----

  lemma {:induction false} GoesAreGo(n: nat, m: nat)
    requires m <= n
    ensures AllGo(Goes(n), m) && Goes(n)[m..] == Goes(n - m)
    decreases m
  {
    if m > 0 {
      GoesAreGo(n - 1, m - 1);
      assert Goes(n)[m..] == Goes(n)[1..][m - 1..];
    } else {
      assert Goes(n)[0..] == Goes(n);
    }
  }

  /** The steps of an undisturbed update of so many packages. */
  function AllSteps(w: World, count: nat, wheels: seq<Wheel>): nat {
    5 + (count + MarkerSteps(w)) + SwapSteps(w, wheels) + 2
  }

  lemma {:induction false} GoesGoThrough(w: World, count: nat, wheels: seq<Wheel>)
    ensures GoesThrough(w, count, wheels, Goes(AllSteps(w, count, wheels)))
  {
    var a, b := count + MarkerSteps(w), SwapSteps(w, wheels);
    GoesAreGo(5 + a + b + 2, 4);
    GoesAreGo(5 + a + b + 2, 5);
    BackupGoes(w, count, wheels);
  }

  lemma {:induction false} BackupGoes(w: World, count: nat, wheels: seq<Wheel>)
    ensures BackupGoesThrough(w, count, wheels, Goes(count + MarkerSteps(w) + SwapSteps(w, wheels) + 2))
  {
    var a, b := count + MarkerSteps(w), SwapSteps(w, wheels);
    GoesAreGo(a + b + 2, a);
    GoesAreGo(b + 2, b);
  }

  lemma {:induction false} RecommitTakes(w: World, r: Run, n: nat)
    requires r.flow.Done? && r.disk.marker.Some? && r.fates == Goes(3 + MarkerSteps(w) + n)
    ensures Recommit(w, r) == Run(Disk(r.disk.files, map[], None), Goes(n), Done)
  {
    var m := MarkerSteps(w);
    var restarted := Check(r);
    GoesAreGo(3 + m + n, 1);
    var marker := restarted.disk.marker.value.(phase := Committed);
    var committed := PutMarker(w, restarted, marker);
    PutMarkerTakes(w, restarted, marker);
    GoesAreGo(2 + m + n, m);
    GoesAreGo(2 + n, 1);
    GoesAreGo(1 + n, 1);
    assert PutPhase(w, restarted, Committed) == committed && committed.fates == Goes(2 + n);
    assert Check(committed).fates == Goes(1 + n);
  }

  /** Undisturbed, a recovery takes some number of steps, whatever comes after them. */
  lemma {:induction false} RecoverGoes(w: World, d: Disk, whole: Files) returns (steps: nat)
    requires Lists(w) && StandsFor(d, whole)
    ensures forall n: nat :: GoneRecovery(w, d, whole, steps, n)
  {
    if d.marker.None? {
      steps := 0;
    } else if d.marker.value.phase.Committed? {
      steps := 2;
      forall n: nat ensures GoneRecovery(w, d, whole, 2, n) {
        CommittedGoes(w, d, whole, n);
      }
    } else {
      var m := d.marker.value;
      var paths := w.listing(d.files);
      steps := |paths| + |m.entries| + (3 + MarkerSteps(w));
      forall n: nat ensures GoneRecovery(w, d, whole, steps, n) {
        PreparedGoes(w, d, whole, n);
      }
    }
  }

  predicate GoneRecovery(w: World, d: Disk, whole: Files, steps: nat, n: nat) {
    var out := Recover(w, Run(d, Goes(steps + n), Done));
    out.flow.Done? && out.fates == Goes(n) && out.disk.files == whole && out.disk.marker.None?
  }

  lemma {:induction false} CommittedGoes(w: World, d: Disk, whole: Files, n: nat)
    requires StandsFor(d, whole) && d.marker.Some? && d.marker.value.phase.Committed?
    ensures GoneRecovery(w, d, whole, 2, n)
  {
    var r := Run(d, Goes(2 + n), Done);
    GoesAreGo(2 + n, 1);
    GoesAreGo(1 + n, 1);
    var noted := Caught(Check(r));
    assert noted == Run(d, Goes(1 + n), Done);
    assert Clear(w, noted) == Run(Cleared(d), Goes(n), Done);
  }

  lemma {:induction false} PreparedGoes(w: World, d: Disk, whole: Files, n: nat)
    requires Lists(w) && StandsFor(d, whole) && d.marker.Some? && d.marker.value.phase.Prepared?
    ensures GoneRecovery(w, d, whole, |w.listing(d.files)| + |d.marker.value.entries| + (3 + MarkerSteps(w)), n)
  {
    var paths, entries := w.listing(d.files), d.marker.value.entries;
    var left := 3 + MarkerSteps(w) + n;
    var r := Run(d, Goes(|paths| + (|entries| + left)), Done);
    RemoveGoes(r, paths, |entries| + left);
    RemoveFrame(r, paths);
    var removed := Remove(r, paths);
    CopyInGoes(removed, entries, left);
    RestoreInstallsBackup(w, r, entries);
    RecommitTakes(w, Restore(w, r, entries), n);
  }

  lemma {:induction false} ApplyAfterRecovery(w: World, r: Run, update: Update)
    requires Lists(w) && Recover(w, r).flow.Done? && Recover(w, r).disk.marker.None?
    ensures Apply(w, r, update) == Apply(w, Recover(w, r), update)
  {
  }

  /** From every disk that stands for packages an undisturbed update goes through and installs its whole target. */
  lemma {:induction false} UpdateCompletes(w: World, d: Disk, update: Update, whole: Files) returns (fates: seq<Fate>)
    requires Lists(w) && StandsFor(d, whole)
    requires update.queued && whole != map[]
    ensures forall i :: 0 <= i < |fates| ==> fates[i].Go?
    ensures var (out, code) := Apply(w, Run(d, fates, Done), update);
            out.flow.Done? && code == 0 && out.disk.files == Target(whole, update.wheels) && out.disk.marker.None?
  {
    var steps := RecoverGoes(w, d, whole);
    var n := AllSteps(w, |whole|, update.wheels);
    fates := Goes(steps + n);
    assert GoneRecovery(w, d, whole, steps, n);
    UpdateAfterGone(w, d, update, whole, steps);
  }

  lemma {:induction false} UpdateAfterGone(w: World, d: Disk, update: Update, whole: Files, steps: nat)
    requires Lists(w) && update.queued && whole != map[]
    requires GoneRecovery(w, d, whole, steps, AllSteps(w, |whole|, update.wheels))
    ensures var (out, code) := Apply(w, Run(d, Goes(steps + AllSteps(w, |whole|, update.wheels)), Done), update);
            out.flow.Done? && code == 0 && out.disk.files == Target(whole, update.wheels) && out.disk.marker.None?
  {
    UpdateAfterRecovery(w, Run(d, Goes(steps + AllSteps(w, |whole|, update.wheels)), Done), update, whole);
  }

  lemma {:induction false} UpdateAfterRecovery(w: World, r: Run, update: Update, whole: Files)
    requires Lists(w) && update.queued && whole != map[]
    requires var out := Recover(w, r);
             && out.flow.Done? && out.fates == Goes(AllSteps(w, |whole|, update.wheels))
             && out.disk.files == whole && out.disk.marker.None?
    ensures var (out, code) := Apply(w, r, update);
            out.flow.Done? && code == 0 && out.disk.files == Target(whole, update.wheels) && out.disk.marker.None?
  {
    ApplyAfterRecovery(w, r, update);
    UndisturbedUpdate(w, Recover(w, r).disk, update);
  }

  lemma {:induction false} UndisturbedUpdate(w: World, d: Disk, update: Update)
    requires Lists(w) && d.marker.None? && d.files != map[] && update.queued
    ensures var (out, code) := Apply(w, Run(d, Goes(AllSteps(w, |d.files|, update.wheels)), Done), update);
            out.flow.Done? && code == 0 && out.disk.files == Target(d.files, update.wheels) && out.disk.marker.None?
  {
    var n := AllSteps(w, |d.files|, update.wheels);
    GoesGoThrough(w, |d.files|, update.wheels);
    UpdateSucceedsExactly(w, d, update, Goes(n));
    UndisturbedReachesSwap(w, Run(d, Goes(n), Done), update);
  }

  lemma {:induction false} UndisturbedReachesSwap(w: World, r: Run, update: Update)
    requires Lists(w) && r.disk.marker.None? && r.disk.files != map[] && update.queued
    requires r.flow.Done? && r.fates == Goes(AllSteps(w, |r.disk.files|, update.wheels))
    ensures Apply(w, r, update).0.disk.marker.None?
  {
    var a, b := |r.disk.files| + MarkerSteps(w), SwapSteps(w, update.wheels);
    var checked := Checks(r, 4);
    ChecksTake(r, 4);
    ChecksFrame(r, 4);
    GoesAreGo(5 + a + b + 2, 4);
    UndisturbedPrepare(w, checked, a, b + 2);
    GoesAreGo(b + 2, b + 2);
    SwapSucceedsExactly(w, Prepare(w, checked), update.wheels, Entries(w.listing(checked.disk.files)));
    ApplyReachesSwap(w, r, checked, update);
  }

  lemma {:induction false} UndisturbedPrepare(w: World, r: Run, a: nat, n: nat)
    requires Lists(w) && r.flow.Done? && r.disk.files != map[]
    requires a == |r.disk.files| + MarkerSteps(w) && r.fates == Goes(1 + a + n)
    ensures var s := Prepare(w, r); s.flow.Done? && s.fates == Goes(n) && s.disk.marker.Some?
  {
    GoesAreGo(1 + a + n, 1);
    GoesAreGo(a + n, a);
    PrepareTakes(w, r);
  }

  /** A marker without entries, or with one whose copy is not there, is refused, and nothing is touched. */
  lemma {:induction false} UnreadableIsRefused(w: World, r: Run, m: Marker)
    requires r.flow.Done? && r.disk.marker == Some(m)
    requires m.entries == [] || exists i :: 0 <= i < |m.entries| && m.entries[i].slot !in r.disk.backup
    ensures Recover(w, r) == Run(r.disk, r.fates, Raised)
  {
    if m.entries != [] {
      var i :| 0 <= i < |m.entries| && m.entries[i].slot !in r.disk.backup;
      assert m.entries[i] in m.entries;
    }
  }

  // ---- a swap that fails is undone ----

  /** When one of the first `n` steps raises and those before it work, `s` is `r` right after it. */
  ghost predicate Breaks(r: Run, s: Run, n: nat) {
    forall k: nat :: k < n && RaisesAt(r, k) ==> IsBroken(r, s, k)
  }

  predicate RaisesAt(r: Run, k: nat) {
    r.flow.Done? && k < |r.fates| && AllGo(r.fates, k) && r.fates[k].Fail?
  }

  predicate IsBroken(r: Run, s: Run, k: nat)
    requires k < |r.fates|
  {
    s.flow.Raised? && s.fates == r.fates[k + 1..]
  }

  lemma {:induction false} BreaksThen(r: Run, s: Run, t: Run, m: nat, n: nat)
    requires Takes(r, s, m) && Breaks(r, s, m) && Breaks(s, t, n)
    requires !s.flow.Done? ==> t == s
    ensures Breaks(r, t, m + n)
  {
    forall k: nat | k < m + n && RaisesAt(r, k) ensures IsBroken(r, t, k) {
      if k >= m {
        assert AllGo(r.fates, m) && s.fates == r.fates[m..];
        assert s.fates[k - m] == r.fates[k];
        assert forall i :: 0 <= i < k - m ==> s.fates[i] == r.fates[m + i];
        assert RaisesAt(s, k - m);
        assert s.fates[k - m + 1..] == r.fates[k + 1..];
      }
    }
  }

  lemma {:induction false} StepBreaks(r: Run, after: Disk, torn: Disk)
    ensures Breaks(r, Step(r, after, torn), 1)
  {
  }

  lemma {:induction false} ChecksBreak(r: Run, n: nat)
    ensures Breaks(r, Checks(r, n), n)
    decreases n
  {
    if n > 0 {
      StepTakes(r, r.disk, r.disk);
      StepBreaks(r, r.disk, r.disk);
      ChecksBreak(Check(r), n - 1);
      ChecksFrame(Check(r), n - 1);
      BreaksThen(r, Check(r), Checks(r, n), 1, n - 1);
    }
  }

  lemma {:induction false} InstallBreaks(r: Run, wheels: seq<Wheel>)
    ensures Breaks(r, Install(r, wheels), |wheels|)
    decreases |wheels|
  {
    if wheels != [] && r.flow.Done? {
      var next := PutFiles(r, Installed(r.disk.files, wheels[0]));
      var after, torn := r.disk.(files := Installed(r.disk.files, wheels[0])), r.disk.(files := NextDebris(r).files);
      StepTakes(r, after, torn);
      StepBreaks(r, after, torn);
      InstallBreaks(next, wheels[1..]);
      BreaksThen(r, next, Install(r, wheels), 1, |wheels| - 1);
    }
  }

  lemma {:induction false} PutMarkerBreaks(w: World, r: Run, marker: Marker)
    ensures Breaks(r, PutMarker(w, r, marker), MarkerSteps(w))
    ensures PutMarker(w, r, marker).disk.backup == r.disk.backup
  {
    var written := Atomic(r, r.disk.(marker := Some(marker)));
    StepTakes(r, r.disk.(marker := Some(marker)), r.disk);
    StepBreaks(r, r.disk.(marker := Some(marker)), r.disk);
    if w.chmodFails {
      StepBreaks(written, written.disk, written.disk);
      BreaksThen(r, written, Check(written), 1, 1);
    }
  }

  /** A swap whose step `k` raises keeps the backup. */
  lemma {:induction false} SwapBreaks(w: World, r: Run, wheels: seq<Wheel>)
    requires r.flow.Done? && r.disk.marker.Some?
    ensures Breaks(r, Swap(w, r, wheels), SwapSteps(w, wheels))
    ensures Swap(w, r, wheels).disk.backup == r.disk.backup
  {
    var stopped := Check(r);
    var installed := Install(stopped, wheels);
    var restarted := Checks(installed, 5);
    StepTakes(r, r.disk, r.disk);
    StepBreaks(r, r.disk, r.disk);
    InstallTakes(stopped, wheels);
    InstallBreaks(stopped, wheels);
    InstallFrame(stopped, wheels);
    ChecksTake(installed, 5);
    ChecksBreak(installed, 5);
    ChecksFrame(installed, 5);
    TakesThen(r, stopped, installed, 1, |wheels|);
    BreaksThen(r, stopped, installed, 1, |wheels|);
    TakesThen(r, installed, restarted, 1 + |wheels|, 5);
    BreaksThen(r, installed, restarted, 1 + |wheels|, 5);
    CommitBreaks(w, r, restarted, 1 + |wheels| + 5);
  }

  lemma {:induction false} CommitBreaks(w: World, r: Run, restarted: Run, n: nat)
    requires r.disk.marker.Some? && restarted.disk.marker == r.disk.marker
    requires Takes(r, restarted, n) && Breaks(r, restarted, n)
    ensures var s := if restarted.flow.Done? then PutPhase(w, restarted, Committed) else restarted;
            Breaks(r, s, n + MarkerSteps(w)) && s.disk.backup == restarted.disk.backup
  {
    var marker := restarted.disk.marker.value.(phase := Committed);
    var s := if restarted.flow.Done? then PutMarker(w, restarted, marker) else restarted;
    if restarted.flow.Done? {
      PutMarkerBreaks(w, restarted, marker);
    }
    BreaksThen(r, restarted, s, n, MarkerSteps(w));
  }

  lemma {:induction false} RemoveTakes(r: Run, paths: seq<string>)
    ensures Takes(r, Remove(r, paths), |paths|)
    decreases |paths|
  {
    if paths == [] || !r.flow.Done? {
      assert r.fates[0..] == r.fates;
    } else {
      var next := PutFiles(r, r.disk.files - {paths[0]});
      StepTakes(r, r.disk.(files := r.disk.files - {paths[0]}), r.disk.(files := NextDebris(r).files));
      RemoveTakes(next, paths[1..]);
      TakesThen(r, next, Remove(r, paths), 1, |paths| - 1);
    }
  }

  lemma {:induction false} CopyInTakes(r: Run, entries: seq<Entry>)
    requires forall e :: e in entries ==> e.slot in r.disk.backup
    ensures Takes(r, CopyIn(r, entries), |entries|)
    decreases |entries|
  {
    if entries == [] || !r.flow.Done? {
      assert r.fates[0..] == r.fates;
    } else {
      var files := r.disk.files[entries[0].original := r.disk.backup[entries[0].slot]];
      var next := PutFiles(r, files);
      StepTakes(r, r.disk.(files := files), r.disk.(files := NextDebris(r).files));
      CopyInTakes(next, entries[1..]);
      TakesThen(r, next, CopyIn(r, entries), 1, |entries| - 1);
    }
  }

  /** A rollback takes the stop, the removal of each path, each entry, the restart and the clean-up. */
  function RollBackSteps(w: World, files: Files, entries: seq<Entry>): nat {
    1 + |w.listing(files)| + |entries| + 1
  }

  /** It brings back what the backup holds whenever its steps work, whatever the swap had left. */
  lemma {:induction false} RollBackRestores(w: World, r: Run, entries: seq<Entry>)
    requires Lists(w) && r.flow.Done?
    requires forall e :: e in entries ==> e.slot in r.disk.backup
    requires AllGo(r.fates, RollBackSteps(w, r.disk.files, entries) + 1)
    ensures var out := RollBack(w, r, entries);
            out.flow.Raised? && out.disk == Disk(RestoredOver(map[], entries, r.disk.backup), map[], None)
  {
    var paths := w.listing(r.disk.files);
    var stopped := Check(r);
    var removed := Remove(stopped, paths);
    var restored := Restore(w, stopped, entries);
    var restarted := Check(restored);
    StepTakes(r, r.disk, r.disk);
    RemoveTakes(stopped, paths);
    RemoveFrame(stopped, paths);
    CopyInTakes(removed, entries);
    StepTakes(restored, restored.disk, restored.disk);
    TakesThen(r, stopped, removed, 1, |paths|);
    TakesThen(r, removed, restored, 1 + |paths|, |entries|);
    TakesThen(r, restored, restarted, 1 + |paths| + |entries|, 1);
    RestoreInstallsBackup(w, stopped, entries);
    ClearSurvives(w, restarted);
  }

  /**
    An update that fails in its swap raises, and brings back the old packages without a trace when the
    steps that undo it work, whichever step of the swap it was that failed and whatever that step left.
   */
  lemma {:induction false} FailedSwapIsUndone(w: World, r: Run, wheels: seq<Wheel>, entries: seq<Entry>, k: nat)
    requires Lists(w) && r.flow.Done? && r.disk.marker.Some?
    requires forall e :: e in entries ==> e.slot in r.disk.backup
    requires k < SwapSteps(w, wheels) && RaisesAt(r, k)
    requires AllGo(r.fates[k + 1..], RollBackSteps(w, Swap(w, r, wheels).disk.files, entries) + 1)
    ensures var out := SwapOrRollBack(w, r, wheels, entries).0;
            out.flow.Raised? && out.disk == Disk(RestoredOver(map[], entries, r.disk.backup), map[], None)
  {
    SwapBreaks(w, r, wheels);
    assert IsBroken(r, Swap(w, r, wheels), k);
    RollBackRestores(w, Caught(Swap(w, r, wheels)), entries);
  }

  // ---- what the target is ----

  function FileAt(files: Files, name: string): Option<string> {
    if name in files then Some(files[name]) else None
  }

  /** What the last wheel that knows a name says about it; an untouched name stays. */
  function LastSays(files: Files, wheels: seq<Wheel>, name: string): Option<string>
    decreases |wheels|
  {
    if wheels == [] then FileAt(files, name)
    else
      var last := wheels[|wheels| - 1];
      if name in last.files then Some(last.files[name])
      else if name in last.owned then None
      else LastSays(files, wheels[..|wheels| - 1], name)
  }

  lemma {:induction false} TargetSnoc(files: Files, wheels: seq<Wheel>, last: Wheel)
    ensures Target(files, wheels + [last]) == Installed(Target(files, wheels), last)
    decreases |wheels|
  {
    if wheels == [] {
      assert wheels + [last] == [last] && [last][1..] == [];
    } else {
      assert (wheels + [last])[0] == wheels[0] && (wheels + [last])[1..] == wheels[1..] + [last];
      TargetSnoc(Installed(files, wheels[0]), wheels[1..], last);
    }
  }

  /** Under every name the target has what the last wheel that brings or replaces it says. */
  lemma {:induction false} TargetIsLastSaid(files: Files, wheels: seq<Wheel>, name: string)
    ensures FileAt(Target(files, wheels), name) == LastSays(files, wheels, name)
    decreases |wheels|
  {
    if wheels != [] {
      var init, last := wheels[..|wheels| - 1], wheels[|wheels| - 1];
      assert wheels == init + [last];
      TargetSnoc(files, init, last);
      TargetIsLastSaid(files, init, name);
    }
  }

  // ---------------------------------------------------------------------------------------------
  // The updater itself
  // ---------------------------------------------------------------------------------------------

  /** The code as it runs: every method changes the disk step by step and is proved against its function. */
  class Updater {
    const world: World
    var disk: Disk
    var fates: seq<Fate>

    ghost function Now(flow: Flow): Run
      reads this
    {
      Run(disk, fates, flow)
    }

    constructor (world: World, disk: Disk, fates: seq<Fate>)
      ensures this.world == world && Now(Done) == Run(disk, fates, Done)
    {
      this.world, this.disk, this.fates := world, disk, fates;
    }

    method Advance(after: Disk, torn: Disk) returns (flow: Flow)
      modifies this
      ensures Now(flow) == Step(old(Now(Done)), after, torn)
    {
      if fates == [] {
        return Died;
      }
      var fate := fates[0];
      fates := fates[1..];
      if fate.Go? {
        disk := after;
        return Done;
      }
      disk := torn;
      return if fate.Fail? then Raised else Died;
    }

    method Call() returns (flow: Flow)
      modifies this
      ensures Now(flow) == Check(old(Now(Done)))
    {
      flow := Advance(disk, disk);
    }

    method WriteFiles(files: Files) returns (flow: Flow)
      modifies this
      ensures Now(flow) == PutFiles(old(Now(Done)), files)
    {
      var debris := if fates == [] || fates[0].Go? then Debris(map[], map[], false)
                    else if fates[0].Fail? then fates[0].failed else fates[0].died;
      flow := Advance(disk.(files := files), disk.(files := debris.files));
    }

    method WriteBackup(backup: map<nat, string>) returns (flow: Flow)
      modifies this
      ensures Now(flow) == PutBackup(old(Now(Done)), backup)
    {
      var debris := if fates == [] || fates[0].Go? then Debris(map[], map[], false)
                    else if fates[0].Fail? then fates[0].failed else fates[0].died;
      flow := Advance(disk.(backup := backup), disk.(backup := debris.backup));
    }

    method ClearUpdateRecovery() returns (flow: Flow)
      modifies this
      ensures Now(flow) == Clear(world, old(Now(Done)))
    {
      var torn := disk;
      if fates != [] && fates[0].Fail? {
        torn := if world.clearSkips then Torn(disk, fates[0].failed) else Cleared(disk);
      } else if fates != [] && fates[0].Die? && world.clearTears {
        torn := Torn(disk, fates[0].died);
      }
      flow := Advance(Cleared(disk), torn);
      if flow.Raised? {
        flow := Done;
      }
    }

    method WriteRecoveryMarker(marker: Marker) returns (flow: Flow)
      modifies this
      ensures Now(flow) == PutMarker(world, old(Now(Done)), marker)
    {
      flow := Advance(disk.(marker := Some(marker)), disk);
      if flow.Done? && world.chmodFails {
        flow := Call();
      }
    }

    method WriteRecoveryPhase(phase: Phase) returns (flow: Flow)
      modifies this
      ensures Now(flow) == PutPhase(world, old(Now(Done)), phase)
    {
      if disk.marker.None? {
        return Raised;
      }
      flow := WriteRecoveryMarker(disk.marker.value.(phase := phase));
    }

    method BackupInstalledPackages() returns (flow: Flow, entries: seq<Entry>)
      requires Lists(world)
      modifies this
      ensures Now(flow) == BackUp(world, old(Now(Done)))
      ensures flow.Done? ==> entries == Entries(world.listing(old(disk.files)))
    {
      ghost var start := Now(Done);
      assert IsListing(disk.files, world.listing(disk.files));
      var paths := world.listing(disk.files);
      entries := [];
      flow := Done;
      var i := 0;
      while i < |paths|
        invariant 0 <= i <= |paths| && flow.Done?
        invariant disk.files == start.disk.files
        invariant entries == Entries(paths)[..i]
        invariant CopyOut(Now(Done), paths, i) == CopyOut(start, paths, 0)
      {
        flow := WriteBackup(disk.backup[i := disk.files[paths[i]]]);
        if !flow.Done? {
          return;
        }
        entries := entries + [Entry(paths[i], i)];
        i := i + 1;
      }
      if entries == [] {
        flow := Raised;
      }
    }

    method RestoreInstalledPackages(entries: seq<Entry>) returns (flow: Flow)
      modifies this
      ensures Now(flow) == Restore(world, old(Now(Done)), entries)
    {
      ghost var start := Now(Done);
      var paths := world.listing(disk.files);
      var i := 0;
      while i < |paths|
        invariant 0 <= i <= |paths|
        invariant Remove(Now(Done), paths[i..]) == Remove(start, paths)
      {
        assert paths[i..][1..] == paths[i + 1..];
        :- WriteFiles(disk.files - {paths[i]});
        i := i + 1;
      }
      var j := 0;
      while j < |entries|
        invariant 0 <= j <= |entries|
        invariant CopyIn(Now(Done), entries[j..]) == Restore(world, start, entries)
      {
        assert entries[j..][1..] == entries[j + 1..];
        if entries[j].slot !in disk.backup {
          return Raised;
        }
        :- WriteFiles(disk.files[entries[j].original := disk.backup[entries[j].slot]]);
        j := j + 1;
      }
      return Done;
    }

    method RecoverInterruptedUpdateLocked() returns (flow: Flow)
      modifies this
      ensures Now(flow) == Recover(world, old(Now(Done)))
    {
      if disk.marker.None? {
        return Done;
      }
      var m := disk.marker.value;
      if !Readable(disk) {
        return Raised;
      }
      if m.phase.Prepared? {
        :- RestoreInstalledPackages(m.entries);
        :- Call();
        :- WriteRecoveryPhase(Committed);
      }
      var status := Call();
      if status.Died? {
        return Died;
      }
      flow := ClearUpdateRecovery();
    }

    method PrepareSwap() returns (flow: Flow, entries: seq<Entry>)
      requires Lists(world)
      modifies this
      ensures Now(flow) == Prepare(world, old(Now(Done)))
      ensures flow.Done? ==> entries == Entries(world.listing(old(disk.files)))
    {
      flow := ClearUpdateRecovery();
      entries := [];
      if flow.Done? {
        BackUpHoldsWhole(world, Now(Done));
        flow, entries := BackupInstalledPackages();
      }
      if flow.Done? {
        flow := WriteRecoveryMarker(Marker(Prepared, entries));
      }
      if flow.Raised? {
        flow := ClearUpdateRecovery();
        flow := if flow.Died? then Died else Raised;
      }
    }

    method CallAll(n: nat) returns (flow: Flow)
      modifies this
      ensures Now(flow) == Checks(old(Now(Done)), n)
    {
      ghost var start := Now(Done);
      var i := 0;
      while i < n
        invariant 0 <= i <= n
        invariant Checks(Now(Done), n - i) == Checks(start, n)
      {
        flow := Call();
        if !flow.Done? {
          ChecksFrame(Now(flow), n - i - 1);
          return;
        }
        i := i + 1;
      }
      return Done;
    }

    method SwapPackages(wheels: seq<Wheel>) returns (flow: Flow)
      modifies this
      ensures Now(flow) == Swap(world, old(Now(Done)), wheels)
    {
      flow := Call();
      ghost var stopped := Now(flow);
      var i := 0;
      while i < |wheels| && flow.Done?
        invariant 0 <= i <= |wheels|
        invariant Install(Now(flow), wheels[i..]) == Install(stopped, wheels)
      {
        assert wheels[i..][1..] == wheels[i + 1..];
        flow := WriteFiles(Installed(disk.files, wheels[i]));
        i := i + 1;
      }
      ghost var installed := Now(flow);
      if !flow.Done? {
        ChecksFrame(installed, 5);
        return;
      }
      :- CallAll(5);
      flow := WriteRecoveryPhase(Committed);
    }

    method RollBackSwap(entries: seq<Entry>) returns (flow: Flow)
      modifies this
      ensures Now(flow) == RollBack(world, old(Now(Done)), entries)
    {
      flow := Call();
      if flow.Done? {
        flow := RestoreInstalledPackages(entries);
      }
      if flow.Done? {
        flow := Call();
      }
      if flow.Done? {
        flow := ClearUpdateRecovery();
      }
      flow := if flow.Died? then Died else Raised;
    }

    method ApplyUpdateLocked(update: Update) returns (flow: Flow, code: int)
      requires Lists(world)
      modifies this
      ensures (Now(flow), code) == Apply(world, old(Now(Done)), update)
    {
      code := 1;
      flow := RecoverInterruptedUpdateLocked();
      if !flow.Done? {
        return;
      }
      if !update.queued {
        flow := Call();
        flow := if flow.Died? then Died else Done;
        return;
      }
      flow := CallAll(4);
      if !flow.Done? {
        return;
      }
      var entries;
      flow, entries := PrepareSwap();
      if !flow.Done? {
        return;
      }
      flow := SwapPackages(update.wheels);
      if flow.Raised? {
        flow := RollBackSwap(entries);
      } else if flow.Done? {
        flow := Call();
        if !flow.Died? {
          flow := ClearUpdateRecovery();
        }
        code := 0;
      }
    }
  }
}
