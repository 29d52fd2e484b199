/** The main window's refresh thread: fetch the catalog, filter it for the user,
    save a backup (a failed save is only printed) and emit it; on any failure
    emit the backup, or the empty catalog, followed by an error message. */
module Refresh {
  import opened Wrappers
  import opened Text
  import opened Catalog
  import opened Worker

  /** The refresh thread's three signals. */
  datatype Signal = ProgressUpdated(message: string) | DataLoaded(frame: Frame<Row>) | ErrorOccurred(message: string)

  /** The run up to the processing step: two stop checkpoints, three progress
      messages, three fallible steps, in three pieces that each end at a
      checkpoint or at the processing step. */
  const Front: seq<Instr<Signal>> := [
    Emit(ProgressUpdated("Connecting to SharePoint...")),
    Try(OpenSite, false),
    Check]
  const Middle: seq<Instr<Signal>> := [
    Emit(ProgressUpdated("Fetching application data...")),
    Try(ReadList, false),
    Check]
  const Back: seq<Instr<Signal>> := [
    Emit(ProgressUpdated("Processing data...")),
    Try(Normalise, false)]
  const Script: seq<Instr<Signal>> := Front + Middle + Back

  const Connecting: Signal := ProgressUpdated("Connecting to SharePoint...")
  const Fetching: Signal := ProgressUpdated("Fetching application data...")
  const Processing: Signal := ProgressUpdated("Processing data...")

  /** The script's run in closed form, case by case. */
  function Closed(remote: Remote, stopAt: Option<nat>): Trace<Signal> {
    if remote.openSite.Fails? then Trace([Connecting], Raised(remote.openSite.fault), 1)
    else if Stops(stopAt, 0) then Trace([Connecting], Stopped, 2)
    else if remote.readList.Err? then Trace([Connecting, Fetching], Raised(remote.readList.error), 4)
    else if Stops(stopAt, 1) then Trace([Connecting, Fetching], Stopped, 5)
    else if AccessColumn !in remote.readList.value.columns then
      Trace([Connecting, Fetching, Processing], Raised(MissingAccessColumn), 7)
    else Trace([Connecting, Fetching, Processing], Finished, 8)
  }

  lemma FrontRun(remote: Remote, stopAt: Option<nat>)
    ensures Exec(Front, remote, stopAt, 0) ==
      if remote.openSite.Fails? then Trace([Connecting], Raised(remote.openSite.fault), 1)
      else if Stops(stopAt, 0) then Trace([Connecting], Stopped, 2)
      else Trace([Connecting], Finished, 3)
  {
  }

  lemma MiddleRun(remote: Remote, stopAt: Option<nat>)
    ensures Exec(Middle, remote, stopAt, 1) ==
      if remote.readList.Err? then Trace([Fetching], Raised(remote.readList.error), 1)
      else if Stops(stopAt, 1) then Trace([Fetching], Stopped, 2)
      else Trace([Fetching], Finished, 3)
  {
  }

  lemma BackRun(remote: Remote, stopAt: Option<nat>)
    requires remote.readList.Ok?
    ensures Exec(Back, remote, stopAt, 2) ==
      if AccessColumn !in remote.readList.value.columns then Trace([Processing], Raised(MissingAccessColumn), 1)
      else Trace([Processing], Finished, 2)
  {
  }

  lemma Shapes()
    ensures Ticks(Front) == [Connecting] && Checks(Front) == 1
    ensures Ticks(Middle) == [Fetching] && Checks(Middle) == 1
    ensures Ticks(Back) == [Processing]
  {
  }

  /** The interpreter's run of the script agrees with the closed form. */
  lemma ScriptRuns(remote: Remote, stopAt: Option<nat>)
    ensures Exec(Script, remote, stopAt, 0) == Closed(remote, stopAt)
  {
    ExecThree(Front, Middle, Back, remote, stopAt, 0);
    Shapes();
    FrontRun(remote, stopAt);
    MiddleRun(remote, stopAt);
    if remote.readList.Ok? {
      BackRun(remote, stopAt);
    }
  }

  /** What one run emits, and the frame it wrote as the backup, if any. */
  datatype Outcome = Outcome(signals: seq<Signal>, wrote: Option<Frame<Row>>)

  /** The filtered table after `reset_index(drop=True)`: same columns, visible rows. */
  function Processed(list: Frame<RawRow>, user: string): (f: Frame<Row>)
    ensures f.columns == list.columns && |f.rows| <= 2 * |list.rows|
  {
    Frame(list.columns, Visible(list.rows, user))
  }

  /** The `except` branch: the backup and a notice, or the empty catalog and an
      error. When reading the backup raises, the message carries the original
      failure `e`, not the read error. */
  function Fallback(backup: Backup, e: Fault): (r: seq<Signal>)
    ensures |r| == 2 && r[0].DataLoaded? && r[1].ErrorOccurred?
    ensures backup.Readable? ==>
      r == [DataLoaded(backup.frame), ErrorOccurred("Loaded from backup due to connection error")]
    ensures backup.Absent? ==>
      r == [DataLoaded(EmptyCatalog()), ErrorOccurred("No backup available. Please check your connection.")]
    ensures backup.Unreadable? ==> r == [DataLoaded(EmptyCatalog()), ErrorOccurred("Failed to refresh: " + e.message)]
  {
    match backup
    case Readable(f) => [DataLoaded(f), ErrorOccurred("Loaded from backup due to connection error")]
    case Absent => [DataLoaded(EmptyCatalog()), ErrorOccurred("No backup available. Please check your connection.")]
    case Unreadable(_) => [DataLoaded(EmptyCatalog()), ErrorOccurred("Failed to refresh: " + e.message)]
  }

  /** The fetched table, once the script has finished. */
  function Fetched(remote: Remote, stopAt: Option<nat>): (list: Frame<RawRow>)
    requires Exec(Script, remote, stopAt, 0).halt.Finished?
    ensures remote.readList == Ok(list) && AccessColumn in list.columns
  {
    ScriptRuns(remote, stopAt);
    remote.readList.value
  }

  /** `RefreshWorker.run`. `user` is the signed-in user id; `remote.makeDirs` and
      `remote.saveBackup` together stand for the backup save. */
  function Run(remote: Remote, backup: Backup, stopAt: Option<nat>, user: string): Outcome
  {
    var t := Exec(Script, remote, stopAt, 0);
    match t.halt
    case Finished =>
      var f := Processed(Fetched(remote, stopAt), user);
      Outcome(t.ticks + [DataLoaded(f)],
              if remote.makeDirs.Done? && remote.saveBackup.Done? then Some(f) else None)
    case Stopped => Outcome(t.ticks, None)
    case Raised(e) => Outcome(t.ticks + Fallback(backup, e), None)
  }

  /** A fetch that succeeds and is not stopped emits the three progress messages
      and the filtered table, whether or not the backup could be saved; the
      backup is written exactly when saving works. */
  lemma RefreshSuccess(remote: Remote, backup: Backup, stopAt: Option<nat>, user: string)
    requires remote.openSite.Done? && remote.readList.Ok? && AccessColumn in remote.readList.value.columns
    requires stopAt.None? || stopAt.value >= 2
    ensures Run(remote, backup, stopAt, user).signals ==
      [ProgressUpdated("Connecting to SharePoint..."), ProgressUpdated("Fetching application data..."),
       ProgressUpdated("Processing data..."), DataLoaded(Processed(remote.readList.value, user))]
    ensures Run(remote, backup, stopAt, user).wrote.Some? <==> remote.makeDirs.Done? && remote.saveBackup.Done?
  {
    ScriptRuns(remote, stopAt);
  }

  /** When a checkpoint sees the stop flag, the run emits only progress messages:
      no table and no error. */
  lemma StopMeansSilence(remote: Remote, backup: Backup, stopAt: Option<nat>, user: string)
    requires Exec(Script, remote, stopAt, 0).halt.Stopped?
    ensures forall x :: x in Run(remote, backup, stopAt, user).signals ==> x.ProgressUpdated?
    ensures Run(remote, backup, stopAt, user).wrote.None?
  {
    OnlyProgressTicks(remote, stopAt);
  }

  /** The stop flag set before the first checkpoint, with the site reachable:
      only the first progress message is emitted. */
  lemma StopAtFirstCheckpoint(remote: Remote, backup: Backup, user: string)
    requires remote.openSite.Done?
    ensures Run(remote, backup, Some(0), user).signals == [ProgressUpdated("Connecting to SharePoint...")]
  {
    ScriptRuns(remote, Some(0));
  }

  /** Unless stopped, a run emits exactly one table: the progress messages, then
      the table, then at most one error, which comes only with a fallback. */
  lemma ExactlyOneTable(remote: Remote, backup: Backup, stopAt: Option<nat>, user: string)
    requires !Exec(Script, remote, stopAt, 0).halt.Stopped?
    ensures var o := Run(remote, backup, stopAt, user);
      var n := |Exec(Script, remote, stopAt, 0).ticks|;
      && n < |o.signals| && o.signals[n].DataLoaded?
      && (forall i :: 0 <= i < n ==> o.signals[i].ProgressUpdated?)
      && (forall i :: n < i < |o.signals| ==> o.signals[i].ErrorOccurred?)
      && |o.signals| <= n + 2
  {
    OnlyProgressTicks(remote, stopAt);
  }

  /** Before the table, a run emits only progress messages. */
  lemma OnlyProgressTicks(remote: Remote, stopAt: Option<nat>)
    ensures forall x :: x in Exec(Script, remote, stopAt, 0).ticks ==> x.ProgressUpdated?
  {
    ScriptRuns(remote, stopAt);
  }

  /** A site that cannot be opened: the first progress message, then the
      fallback for that failure. */
  lemma SiteFailureFallsBack(remote: Remote, backup: Backup, stopAt: Option<nat>, user: string)
    requires remote.openSite.Fails?
    ensures Run(remote, backup, stopAt, user).signals ==
      [ProgressUpdated("Connecting to SharePoint...")] + Fallback(backup, remote.openSite.fault)
    ensures Run(remote, backup, stopAt, user).wrote.None?
  {
    ScriptRuns(remote, stopAt);
  }

  /** A list that comes back with no access column (an empty list, for one) is
      treated as a failure: the fallback runs with the KeyError. */
  lemma MissingColumnFallsBack(remote: Remote, backup: Backup, stopAt: Option<nat>, user: string)
    requires remote.openSite.Done? && remote.readList.Ok? && AccessColumn !in remote.readList.value.columns
    requires stopAt.None? || stopAt.value >= 2
    ensures Run(remote, backup, stopAt, user).signals ==
      [ProgressUpdated("Connecting to SharePoint..."), ProgressUpdated("Fetching application data..."),
       ProgressUpdated("Processing data...")] + Fallback(backup, MissingAccessColumn)
  {
    ScriptRuns(remote, stopAt);
  }

  /** The backup round trip: a run that saved its table, followed by a run that
      cannot reach the site, shows the same table again. */
  lemma BackupRoundTrip(first: Remote, second: Remote, stopAt: Option<nat>, user: string, previous: Backup)
    requires Run(first, previous, stopAt, user).wrote.Some?
    requires second.openSite.Fails?
    ensures var f := Run(first, previous, stopAt, user).wrote.value;
      DataLoaded(f) in Run(first, previous, stopAt, user).signals
      && DataLoaded(f) in Run(second, Readable(f), stopAt, user).signals
  {
    ScriptRuns(first, stopAt);
    ScriptRuns(second, stopAt);
  }
}
