/** The enhanced start-up loader: the same fetch and filter as the cancellable
    loader, but with no stop checkpoints, one message for every failure, and a
    fallback that is not total: when reading the backup raises, nothing at all is
    loaded. */
module EnhancedLoader {
  import opened Wrappers
  import opened Catalog
  import opened Worker
  import opened Splash

  const P5: Signal := Progress(5, "Initializing connection...")
  const P15: Signal := Progress(15, "Connecting to SharePoint...")
  const P35: Signal := Progress(35, "Fetching application data...")
  const P60: Signal := Progress(60, "Processing user access...")
  const P75: Signal := Progress(75, "Saving local backup...")
  const P85: Signal := Progress(85, "Loading additional data...")
  const P100: Signal := Progress(100, "Loading complete!")

  /** `DataLoader.run` up to reading the list, in two chunks. No step re-raises
      as a `ConnectionError`. */
  const HeadA: seq<Instr<Signal>> := [Try(MakeDirs, false), Emit(Progress(5, "Initializing connection...")), Emit(Progress(15, "Connecting to SharePoint..."))]
  const HeadB: seq<Instr<Signal>> := [Try(OpenSite, false), Emit(Progress(35, "Fetching application data...")), Try(ReadList, false)]
  const Head: seq<Instr<Signal>> := HeadA + HeadB

  /** The rest, up to the final emission: the backup is written before the side
      tables are fetched, and those fetches cannot fail. */
  const TailA: seq<Instr<Signal>> := [Try(Normalise, false), Emit(Progress(60, "Processing user access...")), Emit(Progress(75, "Saving local backup..."))]
  const TailB: seq<Instr<Signal>> := [Try(SaveBackup, false), Emit(Progress(85, "Loading additional data...")), Emit(Progress(100, "Loading complete!"))]
  const Tail: seq<Instr<Signal>> := TailA + TailB

  /** The progress of a complete run. */
  const SuccessProgress: seq<Signal> := [P5, P15, P35, P60, P75, P85, P100]

  lemma ChunkShapes()
    ensures Ticks(HeadA) == [P5, P15] && Checks(HeadA) == 0
    ensures Ticks(HeadB) == [P35] && Checks(HeadB) == 0
    ensures Ticks(TailA) == [P60, P75] && Checks(TailA) == 0
    ensures Ticks(TailB) == [P85, P100] && Checks(TailB) == 0
  {
  }

  lemma HeadShape()
    ensures Ticks(Head) == [P5, P15, P35] && Checks(Head) == 0 && |Head| == 6
  {
    ChunkShapes();
    TicksAppend(HeadA, HeadB);
    ChecksAppend(HeadA, HeadB);
  }

  lemma TailShape()
    ensures Ticks(Tail) == [P60, P75, P85, P100] && Checks(Tail) == 0 && |Tail| == 6
  {
    ChunkShapes();
    TicksAppend(TailA, TailB);
    ChecksAppend(TailA, TailB);
  }

  /** The first piece in closed form: it finishes exactly when the directory is
      made, the site opened and the list read. */
  function HeadTrace(remote: Remote): Trace<Signal> {
    if remote.makeDirs.Fails? then Trace([], Raised(remote.makeDirs.fault), 0)
    else if remote.openSite.Fails? then Trace([P5, P15], Raised(remote.openSite.fault), 3)
    else if remote.readList.Err? then Trace([P5, P15, P35], Raised(remote.readList.error), 5)
    else Trace([P5, P15, P35], Finished, 6)
  }

  /** The second piece in closed form: it finishes exactly when the list has the
      access column and the backup is saved. */
  function TailTrace(remote: Remote): Trace<Signal> {
    if remote.readList.Ok? && AccessColumn !in remote.readList.value.columns then
      Trace([], Raised(MissingAccessColumn), 0)
    else if remote.saveBackup.Fails? then Trace([P60, P75], Raised(remote.saveBackup.fault), 3)
    else Trace([P60, P75, P85, P100], Finished, 6)
  }

  lemma HeadARun(remote: Remote)
    ensures Exec(HeadA, remote, None, 0) ==
      if remote.makeDirs.Fails? then Trace([], Raised(remote.makeDirs.fault), 0)
      else Trace([P5, P15], Finished, 3)
  {
  }

  lemma HeadBRun(remote: Remote)
    ensures Exec(HeadB, remote, None, 0) ==
      if remote.openSite.Fails? then Trace([], Raised(remote.openSite.fault), 0)
      else if remote.readList.Err? then Trace([P35], Raised(remote.readList.error), 2)
      else Trace([P35], Finished, 3)
  {
  }

  lemma TailARun(remote: Remote)
    ensures Exec(TailA, remote, None, 0) ==
      if remote.readList.Ok? && AccessColumn !in remote.readList.value.columns then
        Trace([], Raised(MissingAccessColumn), 0)
      else Trace([P60, P75], Finished, 3)
  {
  }

  lemma TailBRun(remote: Remote)
    ensures Exec(TailB, remote, None, 0) ==
      if remote.saveBackup.Fails? then Trace([], Raised(remote.saveBackup.fault), 0)
      else Trace([P85, P100], Finished, 3)
  {
  }

  lemma HeadRun(remote: Remote)
    ensures Exec(Head, remote, None, 0) == HeadTrace(remote)
  {
    ChunkShapes();
    ExecTwo(HeadA, HeadB, remote, None, 0);
    HeadARun(remote);
    HeadBRun(remote);
  }

  lemma TailRun(remote: Remote)
    ensures Exec(Tail, remote, None, 0) == TailTrace(remote)
  {
    ChunkShapes();
    ExecTwo(TailA, TailB, remote, None, 0);
    TailARun(remote);
    TailBRun(remote);
  }

  /** The run of the whole script in closed form. There are no checkpoints, so
      the stop flag plays no part. */
  function Closed(remote: Remote): Trace<Signal> {
    var h := HeadTrace(remote);
    if !h.halt.Finished? then h
    else
      var t := TailTrace(remote);
      Trace([P5, P15, P35] + t.ticks, t.halt, 6 + t.pc)
  }

  /** The script, the two pieces one after the other, runs as its closed form,
      whatever the stop flag does. */
  lemma ScriptRuns(remote: Remote, stopAt: Option<nat>)
    ensures Exec(Head + Tail, remote, stopAt, 0) == Closed(remote)
  {
    HeadShape();
    TailShape();
    ExecTwo(Head, Tail, remote, stopAt, 0);
    HeadRun(remote);
    TailRun(remote);
  }

  /** The one message emitted for every failure, whatever its class. */
  const FailureMessage: string := "Failed to connect to SharePoint. Loading from backup..."

  /** The `except` branch after its first message: the backup with empty side
      tables, or the empty catalog and a second error. A backup read that raises
      escapes the handler, so nothing follows. */
  function Recover(backup: Backup): (r: seq<Signal>)
    ensures Loads(r) == (if backup.Unreadable? then 0 else 1)
    ensures backup.Readable? ==> r == [Progress(100, "Loaded from backup"), DataLoaded(backup.frame, NoColumns(), NoColumns())]
    ensures backup.Absent? ==>
      r == [ErrorOccurred("No backup data available. Please check your connection."),
            DataLoaded(EmptyCatalog(), NoColumns(), NoColumns())]
    ensures backup.Unreadable? ==> r == []
  {
    match backup
    case Readable(f) => [Progress(100, "Loaded from backup"), DataLoaded(f, NoColumns(), NoColumns())]
    case Absent =>
      [ErrorOccurred("No backup data available. Please check your connection."),
       DataLoaded(EmptyCatalog(), NoColumns(), NoColumns())]
    case Unreadable(_) => []
  }

  /** The fetched table, once the script has finished. */
  function Fetched(remote: Remote): (list: Frame<RawRow>)
    requires Closed(remote).halt.Finished?
    ensures remote.readList == Ok(list) && AccessColumn in list.columns
  {
    remote.readList.value
  }

  /** What one run emits and the backup it wrote, if any. */
  datatype Outcome = Outcome(signals: seq<Signal>, wrote: Option<Frame<Row>>)

  /** `DataLoader.run`, given what the cost-centre and user fetches return. The
      script has no checkpoints, so it either finishes or raises. */
  function Run(remote: Remote, backup: Backup, user: string,
               costCentres: Result<Frame<Record>, Fault>, users: Result<Frame<Record>, Fault>): Outcome
  {
    var t := Closed(remote);
    if t.halt.Finished? then
      var f := IndexedView(Fetched(remote), user);
      Outcome(t.ticks + [DataLoaded(f, FetchCostCentres(costCentres), FetchUserData(users))], Some(f))
    else Outcome(t.ticks + [ErrorOccurred(FailureMessage)] + Recover(backup), None)
  }

  /** A run of the script finishes exactly when every step succeeds. */
  lemma FinishesIff(remote: Remote, stopAt: Option<nat>)
    ensures Exec(Head + Tail, remote, stopAt, 0).halt.Finished? <==>
      remote.makeDirs.Done? && remote.openSite.Done? && remote.readList.Ok? &&
      AccessColumn in remote.readList.value.columns && remote.saveBackup.Done?
  {
    ScriptRuns(remote, stopAt);
  }

  /** The success path: seven progress steps, then the filtered table with its
      old index, and the side tables; the backup holds the same table. */
  lemma EnhancedSuccess(remote: Remote, backup: Backup, user: string,
                        cc: Result<Frame<Record>, Fault>, users: Result<Frame<Record>, Fault>)
    requires remote.makeDirs.Done? && remote.openSite.Done? && remote.saveBackup.Done?
    requires remote.readList.Ok? && AccessColumn in remote.readList.value.columns
    ensures Run(remote, backup, user, cc, users).signals ==
      SuccessProgress + [DataLoaded(IndexedView(remote.readList.value, user), FetchCostCentres(cc), FetchUserData(users))]
    ensures Run(remote, backup, user, cc, users).wrote == Some(IndexedView(remote.readList.value, user))
  {
    assert Closed(remote) == Trace(SuccessProgress, Finished, 12);
  }

  /** On the success path the percentages strictly increase and stay within 0..100. */
  lemma ProgressIncreases()
    ensures forall i, j :: 0 <= i < j < |SuccessProgress| ==>
      SuccessProgress[i].Progress? && SuccessProgress[j].Progress? &&
      0 <= SuccessProgress[i].percent < SuccessProgress[j].percent <= 100
  {
  }

  /** Any failure emits the same message first, whatever the exception, then
      the backup; nothing is written. */
  lemma AnyFailureSameMessage(remote: Remote, backup: Backup, user: string,
                              cc: Result<Frame<Record>, Fault>, users: Result<Frame<Record>, Fault>)
    requires !Closed(remote).halt.Finished?
    ensures var o := Run(remote, backup, user, cc, users);
      var n := |Closed(remote).ticks|;
      && o.wrote.None?
      && n < |o.signals| && o.signals[n] == ErrorOccurred(FailureMessage)
      && o.signals[n + 1..] == Recover(backup)
      && (forall i :: 0 <= i < n ==> o.signals[i].Progress?)
  {
    OnlyProgressTicks(remote);
  }

  /** A failed backup write after a good fetch throws the fetched table away:
      the run shows the backup instead, unlike the main window's refresh. */
  lemma SaveFailureDiscardsRows(remote: Remote, backup: Backup, user: string,
                                cc: Result<Frame<Record>, Fault>, users: Result<Frame<Record>, Fault>)
    requires remote.makeDirs.Done? && remote.openSite.Done? && remote.saveBackup.Fails?
    requires remote.readList.Ok? && AccessColumn in remote.readList.value.columns
    ensures Run(remote, backup, user, cc, users).signals ==
      [P5, P15, P35, P60, P75, ErrorOccurred(FailureMessage)] + Recover(backup)
    ensures Run(remote, backup, user, cc, users).wrote.None?
  {
    assert Closed(remote) == Trace([P5, P15, P35, P60, P75], Raised(remote.saveBackup.fault), 9);
  }

  /** A site that cannot be opened, even with a `ConnectionError`, gives the same
      message after the first two progress steps. */
  lemma SiteFailure(remote: Remote, backup: Backup, user: string,
                    cc: Result<Frame<Record>, Fault>, users: Result<Frame<Record>, Fault>)
    requires remote.makeDirs.Done? && remote.openSite.Fails?
    ensures Run(remote, backup, user, cc, users).signals ==
      [P5, P15, ErrorOccurred(FailureMessage)] + Recover(backup)
  {
  }

  /** A backup directory that cannot be made fails before any progress. */
  lemma DirectoryFailure(remote: Remote, backup: Backup, user: string,
                         cc: Result<Frame<Record>, Fault>, users: Result<Frame<Record>, Fault>)
    requires remote.makeDirs.Fails?
    ensures Run(remote, backup, user, cc, users).signals == [ErrorOccurred(FailureMessage)] + Recover(backup)
  {
  }

  /** Before the table or the error, a run emits only progress. */
  lemma OnlyProgressTicks(remote: Remote)
    ensures forall x :: x in Closed(remote).ticks ==> x.Progress?
  {
  }

  /** The fallback is not total: a run loads exactly one table, except when it
      fails and the backup cannot be read, when it loads none. */
  lemma TablesLoaded(remote: Remote, backup: Backup, user: string,
                     cc: Result<Frame<Record>, Fault>, users: Result<Frame<Record>, Fault>)
    ensures Loads(Run(remote, backup, user, cc, users).signals) ==
      if !Closed(remote).halt.Finished? && backup.Unreadable? then 0 else 1
  {
    var t := Closed(remote);
    OnlyProgressTicks(remote);
    NoLoadsInProgress(t.ticks);
    var o := Run(remote, backup, user, cc, users);
    if t.halt.Finished? {
      LoadsAppend(t.ticks, [o.signals[|o.signals| - 1]]);
      assert o.signals == t.ticks + [o.signals[|o.signals| - 1]];
    } else {
      LoadsAppend(t.ticks, [ErrorOccurred(FailureMessage)]);
      LoadsAppend(t.ticks + [ErrorOccurred(FailureMessage)], Recover(backup));
    }
  }
}
