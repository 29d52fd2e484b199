/** The loader threads share one shape: a straight-line script of stop-flag
    checkpoints, progress emissions and fallible steps, run until the script ends,
    a checkpoint sees the stop flag, or a step raises. This module is that script
    language and its interpreter; each loader is a script plus what it does with
    the way the script ended. */
module Worker {
  import opened Wrappers
  import opened Catalog

  /** An exception: whether it is a `ConnectionError`, and its `str()`. */
  datatype Fault = Fault(isConnectionError: bool, message: string)

  /** The outcome of one fallible step. */
  datatype Step = Done | Fails(fault: Fault)

  /** The fallible steps the loaders perform. */
  datatype Op =
    | MakeDirs     // create the backup directory
    | OpenSite     // open the SharePoint site
    | ReadList     // read the application list
    | Normalise    // `fillna` and lower-case the access column (raises KeyError if it is absent)
    | SaveBackup   // write the filtered rows to the backup workbook

  /** One script instruction. `Try(op, true)` re-raises a failure of `op` as a
      `ConnectionError` with the "Failed to connect to SharePoint: " prefix. */
  datatype Instr<P> = Check | Emit(tick: P) | Try(op: Op, asConnectionError: bool)

  /** What the world outside the thread does during one run. */
  datatype Remote = Remote(makeDirs: Step, openSite: Step,
                           readList: Result<Frame<RawRow>, Fault>, saveBackup: Step)

  /** The KeyError raised when the fetched table has no access column. */
  const MissingAccessColumn: Fault := Fault(false, "'" + AccessColumn + "'")

  /** The outcome of `op` against `remote`. */
  function Perform(op: Op, remote: Remote): (r: Step)
    ensures op == ReadList ==> (r.Done? <==> remote.readList.Ok?)
    ensures op == Normalise && remote.readList.Ok? ==>
      (r.Done? <==> AccessColumn in remote.readList.value.columns)
    ensures r.Fails? && op == Normalise ==> r.fault == MissingAccessColumn
  {
    match op
    case MakeDirs => remote.makeDirs
    case OpenSite => remote.openSite
    case ReadList => if remote.readList.Ok? then Done else Fails(remote.readList.error)
    case Normalise =>
      if remote.readList.Ok? && AccessColumn !in remote.readList.value.columns then Fails(MissingAccessColumn)
      else Done
    case SaveBackup => remote.saveBackup
  }

  /** The exception that leaves a failed `Try`. */
  function Raise(f: Fault, asConnectionError: bool): (r: Fault)
    ensures asConnectionError ==> r.isConnectionError
    ensures !asConnectionError ==> r == f
  {
    if asConnectionError then Fault(true, "Failed to connect to SharePoint: " + f.message) else f
  }

  /** How a script run ended. */
  datatype Halt = Finished | Stopped | Raised(fault: Fault)

  /** The ticks emitted, how the run ended, and the index of the instruction it
      ended at (the script's length when it finished). */
  datatype Trace<P> = Trace(ticks: seq<P>, halt: Halt, pc: nat)

  /** The ticks of a script, in order. */
  function Ticks<P>(s: seq<Instr<P>>): (r: seq<P>)
    ensures |r| <= |s|
  {
    if s == [] then [] else (if s[0].Emit? then [s[0].tick] else []) + Ticks(s[1..])
  }

  /** The number of checkpoints in a script. */
  function Checks<P>(s: seq<Instr<P>>): (r: nat)
    ensures r <= |s|
  {
    if s == [] then 0 else (if s[0].Check? then 1 else 0) + Checks(s[1..])
  }

  lemma {:induction false} TicksAppend<P>(a: seq<Instr<P>>, b: seq<Instr<P>>)
    ensures Ticks(a + b) == Ticks(a) + Ticks(b)
  {
    if a != [] {
      assert (a + b)[0] == a[0];
      assert (a + b)[1..] == a[1..] + b;
      TicksAppend(a[1..], b);
    } else {
      assert a + b == b;
    }
  }

  lemma {:induction false} ChecksAppend<P>(a: seq<Instr<P>>, b: seq<Instr<P>>)
    ensures Checks(a + b) == Checks(a) + Checks(b)
  {
    if a != [] {
      assert (a + b)[0] == a[0];
      assert (a + b)[1..] == a[1..] + b;
      ChecksAppend(a[1..], b);
    } else {
      assert a + b == b;
    }
  }

  /** The stop flag is a latch set by the owning thread: `stopAt` is the index of
      the first checkpoint that sees it set (None: never set during the run). */
  predicate Stops(stopAt: Option<nat>, k: int) {
    stopAt.Some? && stopAt.value <= k
  }

  /** Prepends the effect of one instruction that let the run continue. */
  function After<P>(prefix: seq<P>, t: Trace<P>): Trace<P> {
    Trace(prefix + t.ticks, t.halt, t.pc + 1)
  }

  /** Runs script `s` whose first checkpoint has index `k`. */
  function Exec<P>(s: seq<Instr<P>>, remote: Remote, stopAt: Option<nat>, k: nat): (t: Trace<P>)
    ensures t.pc <= |s|
    ensures t.halt.Finished? <==> t.pc == |s|
    decreases |s|
  {
    if s == [] then Trace([], Finished, 0)
    else
      match s[0]
      case Check =>
        if Stops(stopAt, k) then Trace([], Stopped, 0)
        else After([], Exec(s[1..], remote, stopAt, k + 1))
      case Emit(p) => After([p], Exec(s[1..], remote, stopAt, k))
      case Try(op, wrap) =>
        match Perform(op, remote)
        case Fails(f) => Trace([], Raised(Raise(f, wrap)), 0)
        case Done => After([], Exec(s[1..], remote, stopAt, k))
  }

  /** What a run's trace means: the ticks are those of the instructions before
      the halting one; a stop happens at a checkpoint that sees the flag; a raise
      happens at a failing step, with that step's (possibly re-wrapped) fault; and
      every step before the halting instruction succeeded. */
  lemma ExecSound<P>(s: seq<Instr<P>>, remote: Remote, stopAt: Option<nat>, k: nat)
    ensures var t := Exec(s, remote, stopAt, k);
      && t.ticks == Ticks(s[..t.pc])
      && (t.halt.Stopped? ==> s[t.pc].Check? && Stops(stopAt, k + Checks(s[..t.pc])))
      && (t.halt.Raised? ==>
            s[t.pc].Try? && Perform(s[t.pc].op, remote).Fails?
            && t.halt.fault == Raise(Perform(s[t.pc].op, remote).fault, s[t.pc].asConnectionError))
      && (forall i :: 0 <= i < t.pc && s[i].Try? ==> Perform(s[i].op, remote).Done?)
  {
    ExecTicks(s, remote, stopAt, k);
    ExecStops(s, remote, stopAt, k);
    ExecRaises(s, remote, stopAt, k);
  }

  /** The ticks of a run are those of the instructions before the halting one. */
  lemma {:induction false} ExecTicks<P>(s: seq<Instr<P>>, remote: Remote, stopAt: Option<nat>, k: nat)
    ensures var t := Exec(s, remote, stopAt, k); t.ticks == Ticks(s[..t.pc])
    decreases |s|
  {
    if s != [] {
      var rest := s[1..];
      var k' := if s[0].Check? then k + 1 else k;
      ExecTicks(rest, remote, stopAt, k');
      var t := Exec(s, remote, stopAt, k);
      if t.pc == 0 {
        assert s[..0] == [];
      } else {
        var u := Exec(rest, remote, stopAt, k');
        assert t.pc == u.pc + 1;
        assert s[..t.pc][0] == s[0];
        assert s[..t.pc][1..] == rest[..u.pc];
      }
    }
  }

  /** A run stops at a checkpoint that sees the flag, counting the checkpoints
      passed before it. */
  lemma {:induction false} ExecStops<P>(s: seq<Instr<P>>, remote: Remote, stopAt: Option<nat>, k: nat)
    ensures var t := Exec(s, remote, stopAt, k);
      t.halt.Stopped? ==> s[t.pc].Check? && Stops(stopAt, k + Checks(s[..t.pc]))
    decreases |s|
  {
    if s != [] {
      var rest := s[1..];
      var k' := if s[0].Check? then k + 1 else k;
      ExecStops(rest, remote, stopAt, k');
      var t := Exec(s, remote, stopAt, k);
      if t.pc == 0 {
        assert s[..0] == [];
      } else {
        var u := Exec(rest, remote, stopAt, k');
        assert t.pc == u.pc + 1;
        assert s[..t.pc][0] == s[0];
        assert s[..t.pc][1..] == rest[..u.pc];
      }
    }
  }

  /** A run raises at a failing step, with that step's (possibly re-wrapped)
      fault, and every step before the halting instruction succeeded. */
  lemma {:induction false} ExecRaises<P>(s: seq<Instr<P>>, remote: Remote, stopAt: Option<nat>, k: nat)
    ensures var t := Exec(s, remote, stopAt, k);
      && (t.halt.Raised? ==>
            s[t.pc].Try? && Perform(s[t.pc].op, remote).Fails?
            && t.halt.fault == Raise(Perform(s[t.pc].op, remote).fault, s[t.pc].asConnectionError))
      && (forall i :: 0 <= i < t.pc && s[i].Try? ==> Perform(s[i].op, remote).Done?)
    decreases |s|
  {
    if s != [] {
      var rest := s[1..];
      var k' := if s[0].Check? then k + 1 else k;
      ExecRaises(rest, remote, stopAt, k');
      var t := Exec(s, remote, stopAt, k);
      if t.pc != 0 {
        assert forall i :: 1 <= i < t.pc ==> s[i] == rest[i - 1];
      }
    }
  }

  /** A run in which no checkpoint sees the stop flag and every step succeeds
      reaches the end and emits every tick. */
  lemma {:induction false} ExecFinishes<P>(s: seq<Instr<P>>, remote: Remote, stopAt: Option<nat>, k: nat)
    requires !Stops(stopAt, k + Checks(s) - 1)
    requires forall i :: 0 <= i < |s| && s[i].Try? ==> Perform(s[i].op, remote).Done?
    ensures Exec(s, remote, stopAt, k) == Trace(Ticks(s), Finished, |s|)
    decreases |s|
  {
    if s != [] {
      var rest := s[1..];
      assert forall i :: 0 <= i < |rest| ==> rest[i] == s[i + 1];
      ExecFinishes(rest, remote, stopAt, if s[0].Check? then k + 1 else k);
      if s[0].Try? {
        assert Perform(s[0].op, remote).Done?;
      }
    }
  }

  /** Running a concatenation runs the first part, then, if it finished, the second
      part from the next checkpoint index. */
  lemma {:induction false} ExecAppend<P>(a: seq<Instr<P>>, b: seq<Instr<P>>, remote: Remote, stopAt: Option<nat>, k: nat)
    ensures Exec(a + b, remote, stopAt, k) ==
      if Exec(a, remote, stopAt, k).halt.Finished? then
        var t := Exec(b, remote, stopAt, k + Checks(a));
        Trace(Ticks(a) + t.ticks, t.halt, |a| + t.pc)
      else Exec(a, remote, stopAt, k)
    decreases |a|, 1
  {
    if a == [] {
      assert a + b == b;
    } else {
      assert (a + b)[0] == a[0];
      assert (a + b)[1..] == a[1..] + b;
      var continues := match a[0]
        case Check => !Stops(stopAt, k)
        case Emit(_) => true
        case Try(op, _) => Perform(op, remote).Done?;
      if continues {
        AppendContinues(a, b, remote, stopAt, k);
      } else {
        assert Exec(a, remote, stopAt, k).pc == 0;
      }
    }
  }

  /** `ExecAppend` when the first instruction of `a` lets the run continue. */
  lemma {:induction false} AppendContinues<P>(a: seq<Instr<P>>, b: seq<Instr<P>>, remote: Remote,
                                             stopAt: Option<nat>, k: nat)
    requires a != [] && (a + b)[0] == a[0] && (a + b)[1..] == a[1..] + b
    requires match a[0]
      case Check => !Stops(stopAt, k)
      case Emit(_) => true
      case Try(op, _) => Perform(op, remote).Done?
    ensures Exec(a + b, remote, stopAt, k) ==
      if Exec(a, remote, stopAt, k).halt.Finished? then
        var t := Exec(b, remote, stopAt, k + Checks(a));
        Trace(Ticks(a) + t.ticks, t.halt, |a| + t.pc)
      else Exec(a, remote, stopAt, k)
    decreases |a|, 0
  {
    var a' := a[1..];
    var k' := if a[0].Check? then k + 1 else k;
    var prefix := if a[0].Emit? then [a[0].tick] else [];
    assert Checks(a) == Checks(a') + (k' - k);
    assert Ticks(a) == prefix + Ticks(a');
    var ta := Exec(a', remote, stopAt, k');
    ExecAppend(a', b, remote, stopAt, k');
    assert Exec(a, remote, stopAt, k) == After(prefix, ta);
    assert Exec(a + b, remote, stopAt, k) == After(prefix, Exec(a' + b, remote, stopAt, k'));
    AfterCompose(prefix, ta, Exec(a' + b, remote, stopAt, k'), Exec(b, remote, stopAt, k' + Checks(a')),
                 Ticks(a'), |a'|);
  }

  /** Prepending one continuing instruction commutes with running a second script
      after the first. */
  lemma AfterCompose<P>(prefix: seq<P>, ta: Trace<P>, tab: Trace<P>, tb: Trace<P>, rest: seq<P>, n: nat)
    requires tab == if ta.halt.Finished? then Trace(rest + tb.ticks, tb.halt, n + tb.pc) else ta
    ensures After(prefix, tab) ==
      if After(prefix, ta).halt.Finished? then Trace((prefix + rest) + tb.ticks, tb.halt, (n + 1) + tb.pc)
      else After(prefix, ta)
  {
    assert prefix + (rest + tb.ticks) == (prefix + rest) + tb.ticks;
  }

  /** Runs three scripts in turn: each starts, from the next checkpoint index,
      once the one before it has finished. */
  function Exec3<P>(a: seq<Instr<P>>, b: seq<Instr<P>>, c: seq<Instr<P>>, remote: Remote, stopAt: Option<nat>, k: nat): Trace<P>
  {
    var ta := Exec(a, remote, stopAt, k);
    if !ta.halt.Finished? then ta
    else
      var tb := Exec(b, remote, stopAt, k + Checks(a));
      if !tb.halt.Finished? then Trace(Ticks(a) + tb.ticks, tb.halt, |a| + tb.pc)
      else
        var tc := Exec(c, remote, stopAt, k + Checks(a) + Checks(b));
        Trace(Ticks(a) + Ticks(b) + tc.ticks, tc.halt, |a| + |b| + tc.pc)
  }

  /** Running three scripts in turn is running their concatenation. */
  lemma ExecThree<P>(a: seq<Instr<P>>, b: seq<Instr<P>>, c: seq<Instr<P>>, remote: Remote, stopAt: Option<nat>, k: nat)
    ensures Exec(a + b + c, remote, stopAt, k) == Exec3(a, b, c, remote, stopAt, k)
  {
    ExecAppend(a, b, remote, stopAt, k);
    ExecAppend(a + b, c, remote, stopAt, k);
    TicksAppend(a, b);
    ChecksAppend(a, b);
  }

  /** A script without checkpoints runs the same whatever the stop flag does. */
  lemma {:induction false} NoCheckpoints<P>(s: seq<Instr<P>>, remote: Remote, stopAt: Option<nat>, k: nat)
    requires Checks(s) == 0
    ensures Exec(s, remote, stopAt, k) == Exec(s, remote, None, k)
    decreases |s|
  {
    if s != [] {
      NoCheckpoints(s[1..], remote, stopAt, k);
    }
  }

  /** Two scripts without checkpoints, run in turn, whatever the stop flag does. */
  lemma ExecTwo<P>(a: seq<Instr<P>>, b: seq<Instr<P>>, remote: Remote, stopAt: Option<nat>, k: nat)
    requires Checks(a) == 0 && Checks(b) == 0
    ensures Exec(a + b, remote, stopAt, k) ==
      if !Exec(a, remote, None, k).halt.Finished? then Exec(a, remote, None, k)
      else
        var t := Exec(b, remote, None, k);
        Trace(Ticks(a) + t.ticks, t.halt, |a| + t.pc)
  {
    ChecksAppend(a, b);
    NoCheckpoints(a + b, remote, stopAt, k);
    ExecAppend(a, b, remote, None, k);
  }

  /** The ticks of a stopped or failed run are a prefix of the script's ticks. */
  lemma TicksPrefix<P>(s: seq<Instr<P>>, remote: Remote, stopAt: Option<nat>, k: nat)
    ensures Ticks(s) == Exec(s, remote, stopAt, k).ticks + Ticks(s[Exec(s, remote, stopAt, k).pc..])
  {
    ExecSound(s, remote, stopAt, k);
    var pc := Exec(s, remote, stopAt, k).pc;
    assert s == s[..pc] + s[pc..];
    TicksAppend(s[..pc], s[pc..]);
  }

  /** Every tick a run emits is a tick of its script. */
  lemma TicksWithin<P>(s: seq<Instr<P>>, remote: Remote, stopAt: Option<nat>, k: nat)
    ensures forall x :: x in Exec(s, remote, stopAt, k).ticks ==> x in Ticks(s)
  {
    TicksPrefix(s, remote, stopAt, k);
  }

  /** What a backup workbook read gives: no file, a read that raises, or a table. */
  datatype Backup = Absent | Unreadable(message: string) | Readable(frame: Frame<Row>)
}
