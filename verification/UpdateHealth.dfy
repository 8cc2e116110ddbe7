/**
 * The updater's persisted health record, over process restarts and crashes.
 *
 * Any version may be started at any time, every write of the record may be
 * lost (the process dies first, or the write raises), and a process may die
 * after any event.
 */
module UpdateHealth {
  import opened Wrappers

  /** A release version; the empty string is "no version". */
  type Version = string

  datatype Status = Unset | Downloaded | Installing | Booting | Healthy | RecoveryRequired | RolledBack

  datatype Backup = Backup(directory: string, executable: string)

  datatype Record = Record(status: Status, previous: Version, pending: Version, attempts: int, backup: Option<Backup>)

  const EMPTY := Record(Unset, "", "", 0, None)

  /** A running process: its `updateHealth` variable, and whether it has an `autoUpdater`. */
  datatype Process = Process(version: Version, health: Record, updater: bool)

  /** That a version was started, and whether what its boot check wrote survived. */
  datatype Start = Start(version: Version, written: bool)

  /** `starts` are the starts since an installation was last recorded on disk. */
  datatype World = World(disk: Record, process: Option<Process>, starts: seq<Start>)

  const INITIAL := World(EMPTY, None, [])

  datatype Event =
    | Boot(version: Version, written: bool)
    | LoadUpdater
    | UpdateDownloaded(version: Version, written: bool)
    | CommitInstall(backup: Backup, written: bool, launched: bool, reverted: bool)
    | MarkHealthy(written: bool)
    | LaunchRollback(written: bool, spawned: bool)
    | Exit

  /** What `beginBootHealthCheck` makes of the record it reads. */
  function AfterBoot(r: Record, current: Version): Record {
    if r.pending == current && r.status in {Installing, Booting} then
      r.(status := if r.status == Booting then RecoveryRequired else Booting, attempts := r.attempts + 1)
    else if r.pending != "" && r.previous == current && r.status == RecoveryRequired then
      r.(status := RolledBack)
    else r
  }

  /** `downloadedUpdateVersion()`. */
  function ReadyVersion(r: Record): Version {
    if r.status == Downloaded then r.pending else ""
  }

  function Saved(w: World, p: Process, r: Record, written: bool): World {
    w.(disk := if written then r else w.disk, process := Some(p.(health := r)))
  }

  /** One event; an event that is not enabled leaves the world alone. */
  function Step(w: World, e: Event): World {
    match (w.process, e)
    case (None, Boot(v, written)) =>
      var r := AfterBoot(w.disk, v);
      World(if written then r else w.disk, Some(Process(v, r, false)), w.starts + [Start(v, written)])
    case (Some(p), LoadUpdater) =>
      if p.health.status == RecoveryRequired then w else w.(process := Some(p.(updater := true)))
    case (Some(p), UpdateDownloaded(v, written)) =>
      if p.updater then Saved(w, p, Record(Downloaded, p.version, v, 0, None), written) else w
    case (Some(p), CommitInstall(backup, written, launched, reverted)) =>
      // reached only behind a preflight that found a ready version
      if !p.updater || ReadyVersion(p.health) == "" then w
      else
        var r := p.health.(status := Installing, previous := p.version, backup := Some(backup));
        var committed := Saved(w, p, r, written).(starts := if written then [] else w.starts);
        if written && launched then committed
        else Saved(committed, p, r.(status := Downloaded), reverted)
    case (Some(p), MarkHealthy(written)) =>
      if p.health.status == Booting then Saved(w, p, p.health.(status := Healthy), written) else w
    case (Some(p), LaunchRollback(written, spawned)) =>
      if p.health.status != RecoveryRequired then w
      else
        var saved := Saved(w, p, p.health, written);
        if written && spawned then saved.(process := None) else saved
    case (Some(_), Exit) => w.(process := None)
    case _ => w
  }

  function After(w: World, events: seq<Event>): World
    decreases |events|
  {
    if events == [] then w else After(Step(w, events[0]), events[1..])
  }

  // ---------------------------------------------------------------------
  // The record
  // ---------------------------------------------------------------------

  function AttemptsOf(status: Status): int {
    match status
    case Unset | Downloaded | Installing => 0
    case Booting | Healthy => 1
    case RecoveryRequired | RolledBack => 2
  }

  predicate RecordOk(r: Record) {
    && r.attempts == AttemptsOf(r.status)
    && (r.status in {Installing, Booting, Healthy, RecoveryRequired, RolledBack} ==> r.backup.Some? && r.pending != "")
  }

  function Earlier(starts: seq<Start>): seq<Start> { if starts == [] then [] else starts[..|starts| - 1] }

  /** No start of version `v` was saved. */
  predicate AllLost(starts: seq<Start>, v: Version) { forall s | s in starts && s.version == v :: !s.written }

  /** No start of version `v` was lost. */
  predicate NoneLost(starts: seq<Start>, v: Version) { forall s | s in starts && s.version == v :: s.written }

  predicate NeverStarted(starts: seq<Start>, v: Version) { forall s | s in starts :: s.version != v }

  /**
   * A process with a booting record for its own version made that record from
   * an installing one, so every earlier start of the version was lost; on disk
   * is what it made or, if that write was lost too, what it found.
   */
  predicate BootOk(w: World) {
    w.process.Some? && w.process.value.health.status == Booting && w.process.value.health.pending == w.process.value.version ==>
      var p := w.process.value;
      && w.starts != [] && w.starts[|w.starts| - 1].version == p.version && AllLost(Earlier(w.starts), p.version)
      && w.disk == if w.starts[|w.starts| - 1].written then p.health else p.health.(status := Installing, attempts := 0)
  }

  predicate Inv(w: World) {
    && RecordOk(w.disk) && (w.disk.status == Installing ==> AllLost(w.starts, w.disk.pending))
    && (w.process.Some? ==> RecordOk(w.process.value.health)) && BootOk(w)
  }

  lemma StepKeeps(w: World, e: Event)
    requires Inv(w)
    ensures Inv(Step(w, e))
  {
    if w.process.None? && e.Boot? {
      assert Earlier(Step(w, e).starts) == w.starts;
    }
  }

  lemma {:induction false} AfterKeeps(w: World, events: seq<Event>)
    requires Inv(w)
    ensures Inv(After(w, events))
    decreases |events|
  {
    if events != [] {
      StepKeeps(w, events[0]);
      AfterKeeps(Step(w, events[0]), events[1..]);
    }
  }

  /**
   * In every run, on disk and in memory, the number of boot attempts is fixed
   * by the status, and whatever is installing, booting or to be recovered has
   * a recorded backup.
   */
  lemma RecordsStayConsistent(events: seq<Event>)
    ensures var w := After(INITIAL, events);
            RecordOk(w.disk) && (w.process.Some? ==> RecordOk(w.process.value.health))
  {
    AfterKeeps(INITIAL, events);
  }

  // ---------------------------------------------------------------------
  // Healthy only from the first boot
  // ---------------------------------------------------------------------

  /** The running process is the first start of the pending version since its installation was recorded. */
  predicate IsFirstBoot(w: World)
    requires w.process.Some?
  {
    var p := w.process.value;
    p.version == p.health.pending && NeverStarted(Earlier(w.starts), p.version)
  }

  /**
   * Main result: when `markHealthy` is about to take effect, the process is the
   * first boot of the update exactly if it runs the pending version and no
   * earlier boot of that version lost its write. `markHealthy` looks at neither.
   */
  lemma HealthyFromFirstBootIff(events: seq<Event>)
    ensures var w := After(INITIAL, events);
            w.process.Some? && w.process.value.health.status == Booting ==>
              var p := w.process.value;
              IsFirstBoot(w) <==> p.version == p.health.pending && NoneLost(Earlier(w.starts), p.version)
  {
    AfterKeeps(INITIAL, events);
  }

  lemma {:induction false} AfterConcat(w: World, a: seq<Event>, b: seq<Event>)
    ensures After(w, a + b) == After(After(w, a), b)
    decreases |a|
  {
    if a == [] {
      assert a + b == b;
    } else {
      assert (a + b)[0] == a[0] && (a + b)[1..] == a[1..] + b;
      AfterConcat(Step(w, a[0]), a[1..], b);
    }
  }

  lemma AfterTwo(w: World, a: Event, b: Event)
    ensures After(w, [a, b]) == Step(Step(w, a), b)
  {
    assert [a, b][1..] == [b] && [b][1..] == [];
    assert After(w, [a, b]) == After(Step(w, a), [b]) == After(Step(Step(w, a), b), []);
  }

  const DOWNLOAD := [Boot("1", true), LoadUpdater]
  const INSTALL := [UpdateDownloaded("2", true), CommitInstall(Backup("d", "e"), true, true, true)]

  const READY := Record(Downloaded, "1", "2", 0, None)
  const TO_INSTALL := Record(Installing, "1", "2", 0, Some(Backup("d", "e")))
  const BOOTED_ONCE := Record(Booting, "1", "2", 1, Some(Backup("d", "e")))

  /** Version 1 downloads and installs version 2. */
  lemma VersionTwoInstalls()
    ensures After(INITIAL, DOWNLOAD + INSTALL) == World(TO_INSTALL, Some(Process("1", TO_INSTALL, true)), [])
  {
    AfterConcat(INITIAL, DOWNLOAD, INSTALL);
    AfterTwo(INITIAL, DOWNLOAD[0], DOWNLOAD[1]);
    var w := World(EMPTY, Some(Process("1", EMPTY, true)), [Start("1", true)]);
    assert After(INITIAL, DOWNLOAD) == w;
    AfterTwo(w, INSTALL[0], INSTALL[1]);
    assert Step(w, INSTALL[0]) == w.(disk := READY, process := Some(Process("1", READY, true)));
    assert |"2"| == 1 && ReadyVersion(READY) != "";
  }

  /** The first boot of version 2 runs and dies; whether its write survives is left open. */
  function DeadBoot(written: bool): seq<Event> { DOWNLOAD + INSTALL + [Exit, Boot("2", written)] }

  lemma VersionTwoBoots(written: bool)
    ensures After(INITIAL, DeadBoot(written)) ==
            World(if written then BOOTED_ONCE else TO_INSTALL, Some(Process("2", BOOTED_ONCE, false)), [Start("2", written)])
  {
    var w := World(TO_INSTALL, Some(Process("1", TO_INSTALL, true)), []);
    VersionTwoInstalls();
    AfterConcat(INITIAL, DOWNLOAD + INSTALL, [Exit, Boot("2", written)]);
    AfterTwo(w, Exit, Boot("2", written));
    assert [] + [Start("2", written)] == [Start("2", written)];
  }

  /** The boot of version 2 dies, and version `again` is started and reports healthy. */
  function Retried(written: bool, again: Version): seq<Event> {
    DeadBoot(written) + [Exit, Boot(again, true)] + [MarkHealthy(true)]
  }

  lemma RetriedRun(written: bool, again: Version)
    ensures var dead := World(if written then BOOTED_ONCE else TO_INSTALL, None, [Start("2", written)]);
            After(INITIAL, Retried(written, again)) == Step(Step(dead, Boot(again, true)), MarkHealthy(true))
  {
    VersionTwoBoots(written);
    var w := After(INITIAL, DeadBoot(written));
    AfterConcat(INITIAL, DeadBoot(written) + [Exit, Boot(again, true)], [MarkHealthy(true)]);
    AfterConcat(INITIAL, DeadBoot(written), [Exit, Boot(again, true)]);
    AfterTwo(w, Exit, Boot(again, true));
    var next := Step(Step(w, Exit), Boot(again, true));
    assert [MarkHealthy(true)][1..] == [];
    assert After(next, [MarkHealthy(true)]) == After(Step(next, MarkHealthy(true)), []);
  }

  /** Either half of the condition can fail: the previous version, started by hand, records the update healthy after its only boot died; */
  lemma UpdateRecordedHealthyWithoutHealthyBoot()
    ensures After(INITIAL, Retried(true, "1")) ==
            World(BOOTED_ONCE.(status := Healthy), Some(Process("1", BOOTED_ONCE.(status := Healthy), false)),
                  [Start("2", true), Start("1", true)])
  {
    RetriedRun(true, "1");
    assert "2"[0] != "1"[0];
    assert [Start("2", true)] + [Start("1", true)] == [Start("2", true), Start("1", true)];
  }

  /** and a second boot of the update does, after the first one died before its record was saved. */
  lemma UpdateRecordedHealthyBySecondBoot()
    ensures After(INITIAL, Retried(false, "2")) ==
            World(BOOTED_ONCE.(status := Healthy), Some(Process("2", BOOTED_ONCE.(status := Healthy), false)),
                  [Start("2", false), Start("2", true)])
  {
    RetriedRun(false, "2");
    assert [Start("2", false)] + [Start("2", true)] == [Start("2", false), Start("2", true)];
  }

  /** Every boot in `events` is one of version `v`, and nothing new is downloaded. */
  predicate OnlyBoots(events: seq<Event>, v: Version) {
    forall e | e in events :: (e.Boot? ==> e.version == v) && !e.UpdateDownloaded?
  }

  predicate Doomed(w: World, v: Version) {
    && w.disk.pending == v && w.disk.status in {Booting, RecoveryRequired, RolledBack}
    && (w.process.Some? ==>
          && w.process.value.version == v && w.process.value.health.pending == v
          && w.process.value.health.status in {RecoveryRequired, RolledBack})
  }

  lemma {:induction false} StaysDoomed(w: World, v: Version, events: seq<Event>)
    requires Doomed(w, v) && OnlyBoots(events, v)
    ensures Doomed(After(w, events), v)
    decreases |events|
  {
    if events != [] {
      assert events[0] in events;
      assert forall e | e in events[1..] :: e in events;
      StaysDoomed(Step(w, events[0]), v, events[1..]);
    }
  }

  /** A process in the middle of a boot of the pending version. */
  predicate BootingPending(w: World) {
    w.process.Some? && w.process.value.health.status == Booting && w.process.value.health.pending == w.process.value.version
  }

  lemma RetryTurnsHealthy(w: World, v: Version)
    requires w.process == None && w.disk.status == Installing && w.disk.pending == v
    ensures After(w, [Boot(v, true), MarkHealthy(true)]).disk.status == Healthy
  {
    AfterTwo(w, Boot(v, true), MarkHealthy(true));
  }

  /**
   * Main result: when a boot of the pending version dies in any run, further
   * starts of that version can still record it healthy exactly if what the
   * dead boot wrote was lost.
   */
  lemma DeadBootTurnsHealthyIffItsWriteWasLost(events: seq<Event>)
    requires BootingPending(After(INITIAL, events))
    ensures var w := After(INITIAL, events);
            var v := w.process.value.version;
            && w.starts != []
            && ((exists more :: OnlyBoots(more, v) && After(Step(w, Exit), more).disk.status == Healthy)
                <==> !w.starts[|w.starts| - 1].written)
  {
    AfterKeeps(INITIAL, events);
    var w := After(INITIAL, events);
    var v := w.process.value.version;
    var dead := Step(w, Exit);
    if w.starts[|w.starts| - 1].written {
      forall more | OnlyBoots(more, v)
        ensures After(dead, more).disk.status != Healthy
      {
        StaysDoomed(dead, v, more);
      }
    } else {
      RetryTurnsHealthy(dead, v);
      assert OnlyBoots([Boot(v, true), MarkHealthy(true)], v);
    }
  }

  /** The previous version, booted on a recovery record, settles it; and nothing but that writes `rolled_back`. */
  lemma RolledBackExactlyByThePreviousVersion(w: World, e: Event)
    requires Inv(w) && w.disk.status != RolledBack
    requires w.process.Some? ==> w.process.value.health.status != RolledBack
    ensures Step(w, e).disk.status == RolledBack <==>
            && w.process == None && e.Boot? && e.written
            && w.disk.status == RecoveryRequired && w.disk.previous == e.version
  {
  }

  /** The process may install what it has downloaded. */
  predicate CanInstall(w: World) {
    w.process.Some? && w.process.value.updater && ReadyVersion(w.process.value.health) != ""
  }

  /** An installation that was saved and launched is recorded, from the running version to the downloaded one. */
  lemma InstallIsRecorded(w: World, backup: Backup, reverted: bool)
    requires Inv(w) && CanInstall(w)
    ensures var p := w.process.value;
            var t := Step(w, CommitInstall(backup, true, true, reverted));
            && t.process == Some(p.(health := t.disk)) && t.starts == []
            && t.disk == Record(Installing, p.version, p.health.pending, 0, Some(backup))
  {
  }

  /**
   * An installation that was not saved or not launched leaves the update ready
   * in memory, and on disk what was there, unless one of its writes was saved.
   */
  lemma FailedInstallIsUndone(w: World, backup: Backup, written: bool, launched: bool, reverted: bool)
    requires Inv(w) && CanInstall(w) && !(written && launched)
    ensures var p := w.process.value;
            var t := Step(w, CommitInstall(backup, written, launched, reverted));
            var undone := Record(Downloaded, p.version, p.health.pending, 0, Some(backup));
            && t.process == Some(p.(health := undone)) && ReadyVersion(undone) == ReadyVersion(p.health)
            && t.disk == if reverted then undone else if written then undone.(status := Installing) else w.disk
  {
  }

  /** A failed attempt makes no difference to what a later one does. */
  lemma RetryInstallsTheSame(w: World, backup: Backup, written: bool, launched: bool, reverted: bool, again: Backup)
    requires Inv(w) && CanInstall(w) && !(written && launched)
    ensures var failed := Step(w, CommitInstall(backup, written, launched, reverted));
            Step(failed, CommitInstall(again, true, true, true)) == Step(w, CommitInstall(again, true, true, true))
  {
    FailedInstallIsUndone(w, backup, written, launched, reverted);
  }

  /** A rollback ends the process exactly if there is something to recover, the record was saved and the backup was started. */
  lemma RollbackEndsTheProcessIff(w: World, written: bool, spawned: bool)
    requires w.process.Some?
    ensures var health := w.process.value.health;
            var t := Step(w, LaunchRollback(written, spawned));
            && t.starts == w.starts
            && t.process == (if health.status == RecoveryRequired && written && spawned then None else w.process)
            && t.disk == (if health.status == RecoveryRequired && written then health else w.disk)
  {
  }

  /** The previous version, which a rollback starts, settles the record. */
  lemma RollbackSettles(w: World)
    requires w.process.Some? && w.process.value.health.status == RecoveryRequired
    requires w.process.value.health.pending != "" && w.process.value.health.previous != w.process.value.health.pending
    ensures var health := w.process.value.health;
            var t := Step(Step(w, LaunchRollback(true, true)), Boot(health.previous, true));
            t.disk == health.(status := RolledBack) && t.process == Some(Process(health.previous, t.disk, false))
  {
  }

  // ---------------------------------------------------------------------
  // The module's own variables
  // ---------------------------------------------------------------------

  /** `updateHealth`, `currentVersion` and `autoUpdater`, beside the health file; `running` is the process's life. */
  class Updater {
    var file: Record
    var running: bool
    var currentVersion: Version
    var updateHealth: Record
    var autoUpdater: bool
    ghost var starts: seq<Start>

    ghost function View(): World
      reads this
    {
      World(file, if running then Some(Process(currentVersion, updateHealth, autoUpdater)) else None, starts)
    }

    constructor ()
      ensures View() == INITIAL
    {
      file, running, currentVersion, updateHealth, autoUpdater := EMPTY, false, "", EMPTY, false;
      starts := [];
    }

    method WriteHealthState(written: bool)
      modifies this`file
      ensures file == if written then updateHealth else old(file)
    {
      if written { file := updateHealth; }
    }

    method BeginBootHealthCheck(version: Version, written: bool)
      requires !running
      modifies this
      ensures View() == Step(old(View()), Event.Boot(version, written))
    {
      running, currentVersion, autoUpdater := true, version, false;
      updateHealth := file;
      starts := starts + [Start(version, written)];
      if updateHealth.pending == currentVersion && updateHealth.status in {Installing, Booting} {
        var previousStatus := updateHealth.status;
        updateHealth := updateHealth.(
          status := if previousStatus == Booting then RecoveryRequired else Booting,
          attempts := updateHealth.attempts + 1);
        WriteHealthState(written);
      } else if updateHealth.pending != "" && updateHealth.previous == currentVersion && updateHealth.status == RecoveryRequired {
        updateHealth := updateHealth.(status := RolledBack);
        WriteHealthState(written);
      }
    }

    method OnUpdateDownloaded(version: Version, written: bool)
      requires running && autoUpdater
      modifies this
      ensures View() == Step(old(View()), Event.UpdateDownloaded(version, written))
    {
      updateHealth := Record(Downloaded, currentVersion, version, 0, None);
      WriteHealthState(written);
    }

    /** `commitInstall`, and the `catch` block of `install` when it raises. */
    method CommitInstall(backup: Backup, written: bool, launched: bool, reverted: bool) returns (installed: bool)
      requires running && autoUpdater && ReadyVersion(updateHealth) != ""
      modifies this
      ensures installed == (written && launched)
      ensures View() == Step(old(View()), Event.CommitInstall(backup, written, launched, reverted))
    {
      updateHealth := updateHealth.(status := Installing, previous := currentVersion, backup := Some(backup));
      WriteHealthState(written);
      if written { starts := []; }
      installed := written && launched;
      if !installed && updateHealth.status == Installing {
        updateHealth := updateHealth.(status := Downloaded);
        WriteHealthState(reverted);
      }
    }

    method MarkHealthy(written: bool) returns (marked: bool)
      requires running
      modifies this
      ensures marked == (old(updateHealth).status == Booting)
      ensures View() == Step(old(View()), Event.MarkHealthy(written))
    {
      marked := updateHealth.status == Booting;
      if marked {
        updateHealth := updateHealth.(status := Healthy);
        WriteHealthState(written);
      }
    }

    /** `attemptAutomaticRollback` once it has found the backup's executable. */
    method LaunchRollback(written: bool, spawned: bool) returns (launched: bool)
      requires running && updateHealth.status == RecoveryRequired
      modifies this
      ensures launched == (written && spawned)
      ensures View() == Step(old(View()), Event.LaunchRollback(written, spawned))
    {
      updateHealth := updateHealth.(status := RecoveryRequired);
      WriteHealthState(written);
      launched := written && spawned;
      if launched { running := false; }
    }
  }
}
