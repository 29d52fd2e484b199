/** The start-up loader with cancellation: nine stop checkpoints between the
    steps of fetch, filter and save; a failure is routed by whether it is a
    connection error, and the backup loader then always emits one table. */
module PslvLoader {
  import opened Wrappers
  import opened Catalog
  import opened Worker
  import opened Splash

  /** Up to opening the site: checkpoints 0 to 2, in three chunks. */
  const ConnectA: seq<Instr<Signal>> := [Check, Try(MakeDirs, false), Emit(Progress(5, "Initializing connection..."))]
  const ConnectB: seq<Instr<Signal>> := [Check, Emit(Progress(15, "Connecting to SharePoint..."))]
  const ConnectC: seq<Instr<Signal>> := [Check, Try(OpenSite, true)]
  const Connect: seq<Instr<Signal>> := ConnectA + ConnectB + ConnectC

  /** Reading and normalising the list: checkpoints 3 to 5. */
  const FetchA: seq<Instr<Signal>> := [Emit(Progress(35, "Fetching application data...")), Check, Try(ReadList, false)]
  const FetchB: seq<Instr<Signal>> := [Check, Try(Normalise, false)]
  const FetchC: seq<Instr<Signal>> := [Emit(Progress(50, "Processing user access...")), Check]
  const Fetch: seq<Instr<Signal>> := FetchA + FetchB + FetchC

  /** Saving the backup and finishing: checkpoints 6 to 8. The side tables are
      fetched between checkpoints 7 and 8 and cannot fail. */
  const SaveA: seq<Instr<Signal>> := [Emit(Progress(70, "Saving local backup...")), Check, Try(SaveBackup, false)]
  const SaveB: seq<Instr<Signal>> := [Emit(Progress(85, "Loading additional data...")), Check]
  const SaveC: seq<Instr<Signal>> := [Check, Emit(Progress(100, "Loading complete!"))]
  const Save: seq<Instr<Signal>> := SaveA + SaveB + SaveC

  /** `DataLoader.run` up to the final emission, as its three pieces run in turn:
      each piece starts once the one before it has finished. */
  function Piecewise(remote: Remote, stopAt: Option<nat>): Trace<Signal>
  {
    var c := Exec(Connect, remote, stopAt, 0);
    if !c.halt.Finished? then c
    else
      var f := Exec(Fetch, remote, stopAt, 3);
      if !f.halt.Finished? then Trace(Ticks(Connect) + f.ticks, f.halt, 7 + f.pc)
      else
        var s := Exec(Save, remote, stopAt, 6);
        Trace(Ticks(Connect) + Ticks(Fetch) + s.ticks, s.halt, 14 + s.pc)
  }

  /** Running the pieces in turn is running the whole script, their concatenation. */
  lemma RunsInPieces(remote: Remote, stopAt: Option<nat>)
    ensures Exec(Connect + Fetch + Save, remote, stopAt, 0) == Piecewise(remote, stopAt)
  {
    ExecThree(Connect, Fetch, Save, remote, stopAt, 0);
    ConnectShape();
    FetchShape();
  }

  const P5: Signal := Progress(5, "Initializing connection...")
  const P15: Signal := Progress(15, "Connecting to SharePoint...")
  const P35: Signal := Progress(35, "Fetching application data...")
  const P50: Signal := Progress(50, "Processing user access...")
  const P70: Signal := Progress(70, "Saving local backup...")
  const P85: Signal := Progress(85, "Loading additional data...")
  const P100: Signal := Progress(100, "Loading complete!")

  /** The progress of a complete run. */
  const SuccessProgress: seq<Signal> := [P5, P15, P35, P50, P70, P85, P100]

  lemma ConnectShape()
    ensures Ticks(Connect) == [P5, P15] && Checks(Connect) == 3 && |Connect| == 7
  {
    ChunkShapes();
    TicksAppend(ConnectA, ConnectB);
    TicksAppend(ConnectA + ConnectB, ConnectC);
    ChecksAppend(ConnectA, ConnectB);
    ChecksAppend(ConnectA + ConnectB, ConnectC);
  }

  lemma FetchShape()
    ensures Ticks(Fetch) == [P35, P50] && Checks(Fetch) == 3 && |Fetch| == 7
  {
    ChunkShapes();
    TicksAppend(FetchA, FetchB);
    TicksAppend(FetchA + FetchB, FetchC);
    ChecksAppend(FetchA, FetchB);
    ChecksAppend(FetchA + FetchB, FetchC);
  }

  lemma SaveShape()
    ensures Ticks(Save) == [P70, P85, P100] && Checks(Save) == 3 && |Save| == 7
  {
    ChunkShapes();
    TicksAppend(SaveA, SaveB);
    TicksAppend(SaveA + SaveB, SaveC);
    ChecksAppend(SaveA, SaveB);
    ChecksAppend(SaveA + SaveB, SaveC);
  }

  lemma ChunkShapes()
    ensures Ticks(ConnectA) == [P5] && Checks(ConnectA) == 1
    ensures Ticks(ConnectB) == [P15] && Checks(ConnectB) == 1
    ensures Ticks(ConnectC) == [] && Checks(ConnectC) == 1
    ensures Ticks(FetchA) == [P35] && Checks(FetchA) == 1
    ensures Ticks(FetchB) == [] && Checks(FetchB) == 1
    ensures Ticks(FetchC) == [P50] && Checks(FetchC) == 1
    ensures Ticks(SaveA) == [P70] && Checks(SaveA) == 1
    ensures Ticks(SaveB) == [P85] && Checks(SaveB) == 1
    ensures Ticks(SaveC) == [P100] && Checks(SaveC) == 1
  {
  }

  /** The three pieces' progress, in turn, is the progress of a complete run. */
  lemma ScriptTicks()
    ensures Ticks(Connect) + Ticks(Fetch) + Ticks(Save) == SuccessProgress
  {
    ConnectShape();
    FetchShape();
    SaveShape();
  }

  /** On the success path the percentages strictly increase and stay within 0..100. */
  lemma ProgressIncreases()
    ensures forall x :: x in SuccessProgress ==> x.Progress?
    ensures forall i, j :: 0 <= i < j < |SuccessProgress| ==>
      SuccessProgress[i].Progress? && SuccessProgress[j].Progress? &&
      0 <= SuccessProgress[i].percent < SuccessProgress[j].percent <= 100
  {
  }

  /** Every tick a run emits is progress. */
  lemma OnlyProgressTicks(remote: Remote, stopAt: Option<nat>)
    ensures forall x :: x in Closed(remote, stopAt).ticks ==> x.Progress?
  {
  }

  /** The connect piece in closed form. */
  function ConnectTrace(remote: Remote, stopAt: Option<nat>): Trace<Signal> {
    if Stops(stopAt, 0) then Trace([], Stopped, 0)
    else if remote.makeDirs.Fails? then Trace([], Raised(remote.makeDirs.fault), 1)
    else if Stops(stopAt, 1) then Trace([P5], Stopped, 3)
    else if Stops(stopAt, 2) then Trace([P5, P15], Stopped, 5)
    else if remote.openSite.Fails? then Trace([P5, P15], Raised(Raise(remote.openSite.fault, true)), 6)
    else Trace([P5, P15], Finished, 7)
  }

  /** The fetch piece in closed form. */
  function FetchTrace(remote: Remote, stopAt: Option<nat>): Trace<Signal> {
    if Stops(stopAt, 3) then Trace([P35], Stopped, 1)
    else if remote.readList.Err? then Trace([P35], Raised(remote.readList.error), 2)
    else if Stops(stopAt, 4) then Trace([P35], Stopped, 3)
    else if AccessColumn !in remote.readList.value.columns then Trace([P35], Raised(MissingAccessColumn), 4)
    else if Stops(stopAt, 5) then Trace([P35, P50], Stopped, 6)
    else Trace([P35, P50], Finished, 7)
  }

  /** The save piece in closed form. */
  function SaveTrace(remote: Remote, stopAt: Option<nat>): Trace<Signal> {
    if Stops(stopAt, 6) then Trace([P70], Stopped, 1)
    else if remote.saveBackup.Fails? then Trace([P70], Raised(remote.saveBackup.fault), 2)
    else if Stops(stopAt, 7) then Trace([P70, P85], Stopped, 4)
    else if Stops(stopAt, 8) then Trace([P70, P85], Stopped, 5)
    else Trace([P70, P85, P100], Finished, 7)
  }

  lemma ConnectARun(remote: Remote, stopAt: Option<nat>)
    ensures Exec(ConnectA, remote, stopAt, 0) ==
      if Stops(stopAt, 0) then Trace([], Stopped, 0)
      else if remote.makeDirs.Fails? then Trace([], Raised(remote.makeDirs.fault), 1)
      else Trace([P5], Finished, 3)
  {
  }

  lemma ConnectBRun(remote: Remote, stopAt: Option<nat>)
    ensures Exec(ConnectB, remote, stopAt, 1) ==
      if Stops(stopAt, 1) then Trace([], Stopped, 0) else Trace([P15], Finished, 2)
  {
  }

  lemma ConnectCRun(remote: Remote, stopAt: Option<nat>)
    ensures Exec(ConnectC, remote, stopAt, 2) ==
      if Stops(stopAt, 2) then Trace([], Stopped, 0)
      else if remote.openSite.Fails? then Trace([], Raised(Raise(remote.openSite.fault, true)), 1)
      else Trace([], Finished, 2)
  {
  }

  lemma ConnectRun(remote: Remote, stopAt: Option<nat>)
    ensures Exec(Connect, remote, stopAt, 0) == ConnectTrace(remote, stopAt)
  {
    ExecThree(ConnectA, ConnectB, ConnectC, remote, stopAt, 0);
    ChunkShapes();
    ConnectARun(remote, stopAt);
    ConnectBRun(remote, stopAt);
    ConnectCRun(remote, stopAt);
  }

  lemma FetchARun(remote: Remote, stopAt: Option<nat>)
    ensures Exec(FetchA, remote, stopAt, 3) ==
      if Stops(stopAt, 3) then Trace([P35], Stopped, 1)
      else if remote.readList.Err? then Trace([P35], Raised(remote.readList.error), 2)
      else Trace([P35], Finished, 3)
  {
  }

  lemma FetchBRun(remote: Remote, stopAt: Option<nat>)
    requires remote.readList.Ok?
    ensures Exec(FetchB, remote, stopAt, 4) ==
      if Stops(stopAt, 4) then Trace([], Stopped, 0)
      else if AccessColumn !in remote.readList.value.columns then Trace([], Raised(MissingAccessColumn), 1)
      else Trace([], Finished, 2)
  {
  }

  lemma FetchCRun(remote: Remote, stopAt: Option<nat>)
    ensures Exec(FetchC, remote, stopAt, 5) ==
      if Stops(stopAt, 5) then Trace([P50], Stopped, 1) else Trace([P50], Finished, 2)
  {
  }

  lemma FetchRun(remote: Remote, stopAt: Option<nat>)
    ensures Exec(Fetch, remote, stopAt, 3) == FetchTrace(remote, stopAt)
  {
    ExecThree(FetchA, FetchB, FetchC, remote, stopAt, 3);
    ChunkShapes();
    FetchARun(remote, stopAt);
    if remote.readList.Ok? {
      FetchBRun(remote, stopAt);
    }
    FetchCRun(remote, stopAt);
  }

  lemma SaveARun(remote: Remote, stopAt: Option<nat>)
    ensures Exec(SaveA, remote, stopAt, 6) ==
      if Stops(stopAt, 6) then Trace([P70], Stopped, 1)
      else if remote.saveBackup.Fails? then Trace([P70], Raised(remote.saveBackup.fault), 2)
      else Trace([P70], Finished, 3)
  {
  }

  lemma SaveBRun(remote: Remote, stopAt: Option<nat>)
    ensures Exec(SaveB, remote, stopAt, 7) ==
      if Stops(stopAt, 7) then Trace([P85], Stopped, 1) else Trace([P85], Finished, 2)
  {
  }

  lemma SaveCRun(remote: Remote, stopAt: Option<nat>)
    ensures Exec(SaveC, remote, stopAt, 8) ==
      if Stops(stopAt, 8) then Trace([], Stopped, 0) else Trace([P100], Finished, 2)
  {
  }

  lemma SaveRun(remote: Remote, stopAt: Option<nat>)
    ensures Exec(Save, remote, stopAt, 6) == SaveTrace(remote, stopAt)
  {
    ExecThree(SaveA, SaveB, SaveC, remote, stopAt, 6);
    ChunkShapes();
    SaveARun(remote, stopAt);
    SaveBRun(remote, stopAt);
    SaveCRun(remote, stopAt);
  }

  /** The whole run, from the pieces' closed forms. */
  function Closed(remote: Remote, stopAt: Option<nat>): Trace<Signal> {
    var c := ConnectTrace(remote, stopAt);
    if !c.halt.Finished? then c
    else
      var f := FetchTrace(remote, stopAt);
      if !f.halt.Finished? then Trace([P5, P15] + f.ticks, f.halt, 7 + f.pc)
      else
        var s := SaveTrace(remote, stopAt);
        Trace([P5, P15, P35, P50] + s.ticks, s.halt, 14 + s.pc)
  }

  /** The interpreter's run of the pieces agrees with the closed form. */
  lemma PiecesClosed(remote: Remote, stopAt: Option<nat>)
    ensures Piecewise(remote, stopAt) == Closed(remote, stopAt)
  {
    ConnectRun(remote, stopAt);
    FetchRun(remote, stopAt);
    SaveRun(remote, stopAt);
    ConnectShape();
    FetchShape();
    assert [P5, P15] + [P35, P50] == [P5, P15, P35, P50];
  }

  /** The script as the interpreter runs it agrees with the closed form. */
  lemma ScriptRuns(remote: Remote, stopAt: Option<nat>)
    ensures Exec(Connect + Fetch + Save, remote, stopAt, 0) == Closed(remote, stopAt)
  {
    RunsInPieces(remote, stopAt);
    PiecesClosed(remote, stopAt);
  }

  /** Index of the backup write in the script. */
  const SaveIndex: nat := 16

  /** The list, once the run got past the normalising step. */
  function Fetched(remote: Remote, stopAt: Option<nat>): (list: Frame<RawRow>)
    requires Closed(remote, stopAt).pc > 11
    ensures remote.readList == Ok(list) && AccessColumn in list.columns
  {
    remote.readList.value
  }

  /** `_load_from_backup`: exactly one table, always with empty side tables. A
      readable backup is announced at 100 percent, a missing one is reported as
      an error first, and an unreadable one is passed over in silence. */
  function LoadFromBackup(backup: Backup): (r: seq<Signal>)
    ensures Loads(r) == 1
    ensures backup.Readable? ==>
      r == [Progress(100, "Loaded from backup"), DataLoaded(backup.frame, NoColumns(), NoColumns())]
    ensures backup.Absent? ==>
      r == [ErrorOccurred("No backup data available. Please check your connection."),
            DataLoaded(EmptyCatalog(), NoColumns(), NoColumns())]
    ensures backup.Unreadable? ==> r == [DataLoaded(EmptyCatalog(), NoColumns(), NoColumns())]
    ensures exists i :: 0 <= i < |r| && r[i].DataLoaded? && r[i].costCentres == NoColumns() && r[i].users == NoColumns()
              && r[i].apps == (if backup.Readable? then backup.frame else EmptyCatalog())
  {
    match backup
    case Readable(f) =>
      var r := [Progress(100, "Loaded from backup"), DataLoaded(f, NoColumns(), NoColumns())];
      assert r[1].DataLoaded?;
      r
    case Absent =>
      var r := [ErrorOccurred("No backup data available. Please check your connection."),
                DataLoaded(EmptyCatalog(), NoColumns(), NoColumns())];
      assert r[1].DataLoaded?;
      r
    case Unreadable(_) =>
      var r := [DataLoaded(EmptyCatalog(), NoColumns(), NoColumns())];
      assert r[0].DataLoaded?;
      r
  }

  const ConnectFailure: string := "Failed to connect to SharePoint. Loading from backup..."
  const LoadFailure: string := "Failed to load data from SharePoint. Loading from backup..."

  /** The message shown when the fetch fails, chosen by the exception's class. */
  function FailureMessage(e: Fault): string {
    if e.isConnectionError then ConnectFailure else LoadFailure
  }

  /** What one run emits and the backup it wrote, if any. */
  datatype Outcome = Outcome(signals: seq<Signal>, wrote: Option<Frame<Row>>)

  /** `DataLoader.run` (with the cancellation flag as `stopAt`), given what the
      cost-centre and user fetches return. */
  function Run(remote: Remote, backup: Backup, stopAt: Option<nat>, user: string,
               costCentres: Result<Frame<Record>, Fault>, users: Result<Frame<Record>, Fault>): Outcome
  {
    var t := Closed(remote, stopAt);
    var wrote := if t.pc > SaveIndex then Some(IndexedView(Fetched(remote, stopAt), user)) else None;
    match t.halt
    case Finished =>
      Outcome(t.ticks + [DataLoaded(wrote.value, FetchCostCentres(costCentres), FetchUserData(users))], wrote)
    case Stopped => Outcome(t.ticks, wrote)
    case Raised(e) => Outcome(t.ticks + [ErrorOccurred(FailureMessage(e))] + LoadFromBackup(backup), wrote)
  }

  /** The success path: seven progress steps, then the filtered table and the
      side tables (empty, with their known columns, when their fetch failed). */
  lemma PslvSuccess(remote: Remote, backup: Backup, stopAt: Option<nat>, user: string,
                    cc: Result<Frame<Record>, Fault>, users: Result<Frame<Record>, Fault>)
    requires remote.makeDirs.Done? && remote.openSite.Done? && remote.saveBackup.Done?
    requires remote.readList.Ok? && AccessColumn in remote.readList.value.columns
    requires stopAt.None? || stopAt.value >= 9
    ensures Run(remote, backup, stopAt, user, cc, users).signals ==
      SuccessProgress + [DataLoaded(IndexedView(remote.readList.value, user), FetchCostCentres(cc), FetchUserData(users))]
    ensures Run(remote, backup, stopAt, user, cc, users).wrote == Some(IndexedView(remote.readList.value, user))
  {
    SuccessTrace(remote, stopAt);
  }

  lemma SuccessTrace(remote: Remote, stopAt: Option<nat>)
    requires remote.makeDirs.Done? && remote.openSite.Done? && remote.saveBackup.Done?
    requires remote.readList.Ok? && AccessColumn in remote.readList.value.columns
    requires stopAt.None? || stopAt.value >= 9
    ensures Closed(remote, stopAt) == Trace(SuccessProgress, Finished, 21)
  {
  }

  /** A cancellation seen at any checkpoint ends the run with progress only: no
      table, no error, and no fallback. */
  lemma StopMeansSilence(remote: Remote, backup: Backup, stopAt: Option<nat>, user: string,
                         cc: Result<Frame<Record>, Fault>, users: Result<Frame<Record>, Fault>)
    requires Closed(remote, stopAt).halt.Stopped?
    ensures forall x :: x in Run(remote, backup, stopAt, user, cc, users).signals ==> !IsResult(x)
  {
    OnlyProgressTicks(remote, stopAt);
  }

  /** With every step succeeding, a cancellation requested before any of the nine
      checkpoints does stop the run. */
  lemma EveryCheckpointStops(remote: Remote, stopAt: Option<nat>)
    requires remote.makeDirs.Done? && remote.openSite.Done? && remote.saveBackup.Done?
    requires remote.readList.Ok? && AccessColumn in remote.readList.value.columns
    requires stopAt.Some? && stopAt.value < 9
    ensures Closed(remote, stopAt).halt.Stopped?
  {
  }

  /** A run that raises emits its progress, the message for the exception, and
      what the backup loader emits. */
  lemma RunRaised(remote: Remote, backup: Backup, stopAt: Option<nat>, user: string,
                  cc: Result<Frame<Record>, Fault>, users: Result<Frame<Record>, Fault>)
    requires Closed(remote, stopAt).halt.Raised?
    ensures var t := Closed(remote, stopAt);
      Run(remote, backup, stopAt, user, cc, users).signals ==
        t.ticks + [ErrorOccurred(FailureMessage(t.halt.fault))] + LoadFromBackup(backup)
  {
  }

  /** A site that cannot be opened is reported as a connection failure after the
      first two progress steps, and the backup loader takes over. */
  lemma SiteFailure(remote: Remote, backup: Backup, stopAt: Option<nat>, user: string,
                    cc: Result<Frame<Record>, Fault>, users: Result<Frame<Record>, Fault>)
    requires remote.makeDirs.Done? && remote.openSite.Fails?
    requires stopAt.None? || stopAt.value >= 3
    ensures Run(remote, backup, stopAt, user, cc, users).signals ==
      [P5, P15, ErrorOccurred(ConnectFailure)] + LoadFromBackup(backup)
  {
    var e := Raise(remote.openSite.fault, true);
    assert Closed(remote, stopAt) == Trace([P5, P15], Raised(e), 6);
    RunRaised(remote, backup, stopAt, user, cc, users);

  }

  /** A list read that fails with an exception other than `ConnectionError` is
      reported as a load failure. */
  lemma ListFailure(remote: Remote, backup: Backup, stopAt: Option<nat>, user: string,
                    cc: Result<Frame<Record>, Fault>, users: Result<Frame<Record>, Fault>)
    requires remote.makeDirs.Done? && remote.openSite.Done?
    requires remote.readList.Err? && !remote.readList.error.isConnectionError
    requires stopAt.None? || stopAt.value >= 5
    ensures Run(remote, backup, stopAt, user, cc, users).signals ==
      [P5, P15, P35, ErrorOccurred(LoadFailure)] + LoadFromBackup(backup)
  {
    var e := remote.readList.error;
    assert Closed(remote, stopAt) == Trace([P5, P15, P35], Raised(e), 9);
    RunRaised(remote, backup, stopAt, user, cc, users);

  }

  /** Unless cancelled, a run emits exactly one table. */
  lemma ExactlyOneTable(remote: Remote, backup: Backup, stopAt: Option<nat>, user: string,
                        cc: Result<Frame<Record>, Fault>, users: Result<Frame<Record>, Fault>)
    requires !Closed(remote, stopAt).halt.Stopped?
    ensures Loads(Run(remote, backup, stopAt, user, cc, users).signals) == 1
  {
    var t := Closed(remote, stopAt);
    OnlyProgressTicks(remote, stopAt);
    NoLoadsInProgress(t.ticks);
    var o := Run(remote, backup, stopAt, user, cc, users);
    if t.halt.Finished? {
      LoadsAppend(t.ticks, [o.signals[|o.signals| - 1]]);
      assert o.signals == t.ticks + [o.signals[|o.signals| - 1]];
    } else {
      var e := t.halt.fault;
      LoadsAppend(t.ticks, [ErrorOccurred(FailureMessage(e))]);
      LoadsAppend(t.ticks + [ErrorOccurred(FailureMessage(e))], LoadFromBackup(backup));
    }
  }

  /** A cancellation seen after the save (checkpoint 7 or 8) emits no table but
      leaves the new backup written. */
  lemma StopAfterSaveKeepsBackup(remote: Remote, backup: Backup, user: string,
                                 cc: Result<Frame<Record>, Fault>, users: Result<Frame<Record>, Fault>)
    requires remote.makeDirs.Done? && remote.openSite.Done? && remote.saveBackup.Done?
    requires remote.readList.Ok? && AccessColumn in remote.readList.value.columns
    ensures Run(remote, backup, Some(7), user, cc, users).wrote == Some(IndexedView(remote.readList.value, user))
    ensures Loads(Run(remote, backup, Some(7), user, cc, users).signals) == 0
  {
    OnlyProgressTicks(remote, Some(7));
    NoLoadsInProgress(Closed(remote, Some(7)).ticks);
  }
}
