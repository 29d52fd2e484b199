/** What the two start-up loaders share: their signals, the side-table fetchers
    that never raise, and the splash screen's cancel-button latch. */
module Splash {
  import opened Wrappers
  import opened Catalog
  import opened Worker

  /** A row of a side table (cost centres, user records), as its cells. */
  type Record = seq<string>

  /** The start-up loader's signals: progress with a task name, the three loaded
      tables, and an error message. */
  datatype Signal =
    | Progress(percent: int, task: string)
    | DataLoaded(apps: Frame<Row>, costCentres: Frame<Record>, users: Frame<Record>)
    | ErrorOccurred(message: string)

  const CostCentreColumns: seq<string> := ["cost_center_code", "cost_center_name", "is_gfbm"]
  const UserColumns: seq<string> :=
    ["sid", "display_name", "email", "job_title", "building_name", "cost_center_id"]

  /** `fetch_cost_centers`: the fetched table, or, whatever the failure, an empty
      table with the three cost-centre columns. It never raises. */
  function FetchCostCentres(fetched: Result<Frame<Record>, Fault>): (f: Frame<Record>)
    ensures fetched.Ok? ==> f == fetched.value
    ensures fetched.Err? ==> f == Frame(["cost_center_code", "cost_center_name", "is_gfbm"], [])
  {
    if fetched.Ok? then fetched.value else Frame(CostCentreColumns, [])
  }

  /** `fetch_user_data`: the fetched records, or an empty table with the six user
      columns. It never raises. */
  function FetchUserData(fetched: Result<Frame<Record>, Fault>): (f: Frame<Record>)
    ensures fetched.Ok? ==> f == fetched.value
    ensures fetched.Err? ==>
      f == Frame(["sid", "display_name", "email", "job_title", "building_name", "cost_center_id"], [])
  {
    if fetched.Ok? then fetched.value else Frame(UserColumns, [])
  }

  /** The filtered table after `reset_index()` without `drop`: the old index
      becomes a leading "index" column; the rows are the visible rows. */
  function IndexedView(list: Frame<RawRow>, user: string): (f: Frame<Row>)
    ensures f.columns == ["index"] + list.columns
    ensures f.rows == Visible(list.rows, user)
  {
    Frame(["index"] + list.columns, Visible(list.rows, user))
  }

  /** Whether a signal is a data or error signal rather than progress. */
  predicate IsResult(x: Signal) {
    x.DataLoaded? || x.ErrorOccurred?
  }

  /** Number of `DataLoaded` signals in a sequence. */
  function Loads(xs: seq<Signal>): (n: nat)
    ensures n <= |xs|
  {
    if xs == [] then 0 else (if xs[0].DataLoaded? then 1 else 0) + Loads(xs[1..])
  }

  lemma {:induction false} LoadsAppend(a: seq<Signal>, b: seq<Signal>)
    ensures Loads(a + b) == Loads(a) + Loads(b)
  {
    if a == [] {
      assert a + b == b;
    } else {
      assert (a + b)[0] == a[0];
      assert (a + b)[1..] == a[1..] + b;
      LoadsAppend(a[1..], b);
    }
  }

  lemma {:induction false} NoLoadsInProgress(xs: seq<Signal>)
    requires forall x :: x in xs ==> x.Progress?
    ensures Loads(xs) == 0
  {
    if xs != [] {
      assert xs[0] in xs;
      assert forall x :: x in xs[1..] ==> x in xs;
      NoLoadsInProgress(xs[1..]);
    }
  }

  /** The splash screen's progress state: the value shown, how many times the
      cancel button has been shown, and the `can_cancel` latch. */
  datatype Screen = Screen(value: int, task: string, cancelShows: nat, canCancel: bool)

  /** The screen as the constructor builds it: at 0, the label reading
      "Initializing...", the cancel button hidden. */
  const InitialScreen: Screen := Screen(0, "Initializing...", 0, false)

  /** `updateProgress`: show the value and task; the first value above 20 sets
      the latch and shows the cancel button. */
  function UpdateProgress(s: Screen, value: int, task: string): (r: Screen)
    ensures r.value == value && r.task == task
    ensures r.canCancel <==> s.canCancel || value > 20
    ensures r.cancelShows == s.cancelShows + (if value > 20 && !s.canCancel then 1 else 0)
  {
    if value > 20 && !s.canCancel then Screen(value, task, s.cancelShows + 1, true)
    else s.(value := value, task := task)
  }

  /** Feeds a sequence of progress values to the screen. */
  function ShowAll(s: Screen, values: seq<int>): Screen
    decreases |values|
  {
    if values == [] then s else ShowAll(UpdateProgress(s, values[0], ""), values[1..])
  }

  /** From the initial screen, the latch is set exactly when some value exceeded
      20, and the cancel button has then been shown exactly once. */
  lemma {:induction false} CancelShownOnce(s: Screen, values: seq<int>)
    requires s.cancelShows == (if s.canCancel then 1 else 0)
    ensures ShowAll(s, values).canCancel <==> s.canCancel || exists i :: 0 <= i < |values| && values[i] > 20
    ensures ShowAll(s, values).cancelShows == (if ShowAll(s, values).canCancel then 1 else 0)
    decreases |values|
  {
    if values != [] {
      var s' := UpdateProgress(s, values[0], "");
      CancelShownOnce(s', values[1..]);
      if exists i :: 0 <= i < |values[1..]| && values[1..][i] > 20 {
        var i :| 0 <= i < |values[1..]| && values[1..][i] > 20;
        assert values[i + 1] > 20;
      }
      if exists i :: 0 <= i < |values| && values[i] > 20 {
        var i :| 0 <= i < |values| && values[i] > 20;
        if i > 0 { assert values[1..][i - 1] > 20; }
      }
    }
  }

  /** From the screen as it is first shown, the cancel button appears exactly
      once, and only when some value exceeds 20. */
  lemma CancelShownFromStart(values: seq<int>)
    ensures ShowAll(InitialScreen, values).canCancel <==> exists i :: 0 <= i < |values| && values[i] > 20
    ensures ShowAll(InitialScreen, values).cancelShows == (if ShowAll(InitialScreen, values).canCancel then 1 else 0)
  {
    CancelShownOnce(InitialScreen, values);
  }

  /** Once set, the latch stays set whatever values follow. */
  lemma {:induction false} LatchStaysSet(s: Screen, values: seq<int>)
    requires s.canCancel
    ensures ShowAll(s, values).canCancel && ShowAll(s, values).cancelShows == s.cancelShows
    decreases |values|
  {
    if values != [] {
      LatchStaysSet(UpdateProgress(s, values[0], ""), values[1..]);
    }
  }
}
