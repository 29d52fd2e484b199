/** The write helpers: an action-history entry or a new user record is sent to
    the site with up to three attempts and exponential back-off; the background
    versions can be cancelled and report through two signals; a failure that
    reaches the caller is turned into a friendly message by what its text says. */
module Retry {
  import opened Wrappers
  import opened Text
  import opened Worker

  const MaxRetries: nat := 3

  /** What is being written: the action log entries, or a user given as a list of
      fields (id, display name, email, job title, building, cost centre). */
  datatype Job = LogAction | AddUser(data: seq<string>)

  /** What attempt `i` would meet: opening the site, looking up the list
      (`site.List`), then the list update. */
  datatype Attempt = Attempt(connect: Step, lookup: Step, write: Step)

  /** The IndexError raised when a user is given with fewer than six fields. */
  const IndexOutOfRange: Fault := Fault(false, "list index out of range")

  /** `2 ** n`. */
  function Pow2(n: nat): (r: nat)
    ensures r >= 1
  {
    if n == 0 then 1 else 2 * Pow2(n - 1)
  }

  /** The sleeps between the first `n + 1` attempts: 1, 2, 4, ... seconds. */
  function Backoff(n: nat): (r: seq<nat>)
    ensures |r| == n && forall i :: 0 <= i < n ==> r[i] == Pow2(i)
  {
    seq(n, i requires 0 <= i < n => Pow2(i))
  }

  function Sum(xs: seq<nat>): nat {
    if xs == [] then 0 else xs[0] + Sum(xs[1..])
  }

  lemma {:induction false} SumSnoc(xs: seq<nat>, x: nat)
    ensures Sum(xs + [x]) == Sum(xs) + x
  {
    if xs == [] {
      assert xs + [x] == [x];
    } else {
      assert (xs + [x])[1..] == xs[1..] + [x];
      SumSnoc(xs[1..], x);
    }
  }

  /** The back-off before attempt `n` adds up to 2^n - 1 seconds, so a write
      that fails three times has slept 3 seconds. */
  lemma {:induction false} BackoffTotal(n: nat)
    ensures Sum(Backoff(n)) == Pow2(n) - 1
  {
    if n > 0 {
      BackoffTotal(n - 1);
      assert Backoff(n) == Backoff(n - 1) + [Pow2(n - 1)];
      SumSnoc(Backoff(n - 1), Pow2(n - 1));
    }
  }

  /** What follows opening the site: the list lookup, then, for a user, building
      the record from its six fields, then the update. The record is built after
      the lookup, so a failing lookup is reported even for a short record. */
  function WriteStep(job: Job, a: Attempt): (r: Step)
    ensures a.lookup.Fails? ==> r == a.lookup
    ensures a.lookup.Done? && job.AddUser? && |job.data| < 6 ==> r == Fails(IndexOutOfRange)
    ensures a.lookup.Done? && (job.LogAction? || |job.data| >= 6) ==> r == a.write
  {
    if a.lookup.Fails? then a.lookup
    else if job.AddUser? && |job.data| < 6 then Fails(IndexOutOfRange)
    else a.write
  }

  /** How one uncancelled attempt ends: the first of its two steps that raises. */
  function AttemptResult(job: Job, a: Attempt): (r: Step)
    ensures r.Done? <==> a.connect.Done? && WriteStep(job, a).Done?
  {
    if a.connect.Fails? then a.connect else WriteStep(job, a)
  }

  /** The index of the first attempt from `i` on that would succeed, or
      `MaxRetries` when none of the remaining ones would. */
  function FirstDone(job: Job, world: (nat -> Attempt), i: nat): (r: nat)
    requires i <= MaxRetries
    ensures i <= r <= MaxRetries
    ensures forall j :: i <= j < r ==> AttemptResult(job, world(j)).Fails?
    ensures r < MaxRetries ==> AttemptResult(job, world(r)).Done?
    decreases MaxRetries - i
  {
    if i == MaxRetries then MaxRetries
    else if AttemptResult(job, world(i)).Done? then i
    else FirstDone(job, world, i + 1)
  }

  /** What a synchronous write does: the exception it lets out, if any, how many
      attempts it made and the sleeps between them. */
  datatype Synced = Synced(raised: Option<Fault>, attempts: nat, sleeps: seq<nat>)

  /** `_pslv_action_entry_sync` and `_add_new_user_to_userbase_sync`: stop at the
      first success; after a failure sleep 2^attempt seconds, except after the
      last attempt, whose exception is re-raised. */
  method SyncRetry(job: Job, world: (nat -> Attempt)) returns (o: Synced)
    ensures o.raised.None? <==> FirstDone(job, world, 0) < MaxRetries
    ensures o.attempts == if o.raised.None? then FirstDone(job, world, 0) + 1 else MaxRetries
    ensures o.raised.Some? ==> o.raised.value == AttemptResult(job, world(MaxRetries - 1)).fault
    ensures o.sleeps == Backoff(o.attempts - 1)
  {
    var attempt := 0;
    var sleeps := [];
    while true
      invariant attempt < MaxRetries
      invariant forall i :: 0 <= i < attempt ==> AttemptResult(job, world(i)).Fails?
      invariant sleeps == Backoff(attempt)
      decreases MaxRetries - attempt
    {
      var r := AttemptResult(job, world(attempt));
      if r.Done? {
        return Synced(None, attempt + 1, sleeps);
      }
      if attempt == MaxRetries - 1 {
        return Synced(Some(r.fault), MaxRetries, sleeps);
      }
      sleeps := sleeps + [Pow2(attempt)];
      attempt := attempt + 1;
    }
  }

  /** How a cancellable write returned: `True`, `False`, or an exception. */
  datatype Exit = Returns(ok: bool) | Throws(fault: Fault)

  /** What a cancellable write does, and how many times it read the cancel flag. */
  datatype Retried = Retried(exit: Exit, attempts: nat, wrote: bool, sleeps: seq<nat>, flagReads: nat)

  /** `_log_with_retry` and `_add_user_with_retry`. The cancel flag is read at the
      top of every attempt, after opening the site, and before each sleep; reads
      are numbered from `k`, and `cancelledAt` is the first read that sees the
      flag set (it stays set). */
  method CancellableRetry(job: Job, world: (nat -> Attempt), cancelledAt: Option<nat>, k: nat) returns (o: Retried)
    ensures o.flagReads >= 1
    ensures o.attempts <= MaxRetries && o.attempts <= FirstDone(job, world, 0) + 1
    ensures o.wrote <==> o.exit == Returns(true)
    ensures o.exit == Returns(true) ==> o.attempts == FirstDone(job, world, 0) + 1
    ensures o.exit.Throws? ==>
      o.attempts == MaxRetries && FirstDone(job, world, 0) == MaxRetries
      && o.exit.fault == AttemptResult(job, world(MaxRetries - 1)).fault
    ensures o.exit == Returns(false) ==> Stops(cancelledAt, k + o.flagReads - 1)
    ensures Stops(cancelledAt, k) ==> o == Retried(Returns(false), 0, false, [], 1)
    ensures cancelledAt.None? ==> (o.exit.Throws? <==> FirstDone(job, world, 0) == MaxRetries)
    ensures cancelledAt.None? ==> o.sleeps == Backoff(o.attempts - 1)
    ensures o.sleeps == Backoff(|o.sleeps|) && |o.sleeps| <= o.attempts
  {
    var attempt := 0;
    var j := k;
    var sleeps := [];
    while true
      invariant attempt < MaxRetries && j >= k + attempt
      invariant forall i :: 0 <= i < attempt ==> AttemptResult(job, world(i)).Fails?
      invariant sleeps == Backoff(|sleeps|) && |sleeps| <= attempt
      invariant |sleeps| < attempt ==> Stops(cancelledAt, j - 1)
      invariant cancelledAt.None? ==> |sleeps| == attempt
      invariant attempt == 0 ==> j == k
      invariant attempt > 0 ==> !Stops(cancelledAt, k)
      decreases MaxRetries - attempt
    {
      if Stops(cancelledAt, j) {
        return Retried(Returns(false), attempt, false, sleeps, j + 1 - k);
      }
      j := j + 1;
      var a := world(attempt);
      if a.connect.Done? {
        if Stops(cancelledAt, j) {
          return Retried(Returns(false), attempt + 1, false, sleeps, j + 1 - k);
        }
        j := j + 1;
        if WriteStep(job, a).Done? {
          return Retried(Returns(true), attempt + 1, true, sleeps, j - k);
        }
      }
      if attempt == MaxRetries - 1 {
        return Retried(Throws(AttemptResult(job, a).fault), MaxRetries, false, sleeps, j - k);
      }
      if !Stops(cancelledAt, j) {
        sleeps := sleeps + [Pow2(attempt)];
      }
      j := j + 1;
      attempt := attempt + 1;
    }
  }

  /** The background workers' two signals. */
  datatype Note = FinishedWith(success: bool) | Error(message: string)

  /** The prefix of the error signal of each worker. */
  function ErrorPrefix(job: Job): string {
    if job.LogAction? then "Failed to log action: " else "Failed to add user: "
  }

  /** `AsyncActionLogger.run` and `AsyncUserAdder.run`: nothing if cancelled at
      the start; otherwise the write, then, unless the flag is set by then, the
      result, or the error followed by `finished(False)`. Flag reads are numbered
      from 0. */
  method RunWorker(job: Job, world: (nat -> Attempt), cancelledAt: Option<nat>) returns (signals: seq<Note>, wrote: bool)
    ensures Stops(cancelledAt, 0) ==> signals == [] && !wrote
    ensures cancelledAt.None? && FirstDone(job, world, 0) < MaxRetries ==> signals == [FinishedWith(true)] && wrote
    ensures cancelledAt.None? && FirstDone(job, world, 0) == MaxRetries ==>
      !wrote && signals == [Error(ErrorPrefix(job) + AttemptResult(job, world(MaxRetries - 1)).fault.message), FinishedWith(false)]
    ensures |signals| <= 2 && (signals != [] ==> signals[|signals| - 1].FinishedWith?)
    ensures FinishedWith(true) in signals ==> wrote
    ensures signals != [FinishedWith(false)]
  {
    if Stops(cancelledAt, 0) {
      return [], false;
    }
    var o := CancellableRetry(job, world, cancelledAt, 1);
    wrote := o.wrote;
    if Stops(cancelledAt, 1 + o.flagReads) {
      signals := [];
    } else {
      match o.exit
      case Returns(b) => signals := [FinishedWith(b)];
      case Throws(f) => signals := [Error(ErrorPrefix(job) + f.message), FinishedWith(false)];
    }
  }

  /** What a failure's text says it is, as `UserFriendlyError` reports it. */
  datatype Kind = ConnectionProblem | AuthenticationProblem | OtherProblem

  /** Whether the lower-cased message names a connection problem. */
  predicate SaysConnection(m: string) {
    Contains(Lower(m), "connection") || Contains(Lower(m), "timeout")
  }

  /** The kind of a failure, from the lower-cased text of the exception:
      connection problems first, then authentication (for the action log also any
      text containing "auth"), else anything else. */
  function Classify(job: Job, m: string): (k: Kind)
    ensures SaysConnection(m) <==> k == ConnectionProblem
  {
    var low := Lower(m);
    if SaysConnection(m) then ConnectionProblem
    else if Contains(low, "authentication") || (job.LogAction? && Contains(low, "auth")) then AuthenticationProblem
    else OtherProblem
  }

  const ConnectMessage: string := "Unable to connect to SharePoint. Please check your network connection."
  const AuthMessage: string := "SharePoint authentication failed. Please contact IT support."

  function GenericPrefix(job: Job): string {
    if job.LogAction? then "Failed to save action history: " else "Failed to add user to database: "
  }

  /** The message of the `UserFriendlyError` raised for a failure with text `m`;
      only the generic one carries the original text, as it was. */
  function Friendly(job: Job, m: string): string
  {
    match Classify(job, m)
    case ConnectionProblem => ConnectMessage
    case AuthenticationProblem => AuthMessage
    case OtherProblem => GenericPrefix(job) + m
  }

  /** A needle that contains a shorter needle at its start: wherever the long one
      occurs, so does the short one. */
  lemma ContainsPrefix(hay: string, long: string, short: string)
    requires |short| <= |long| && long[..|short|] == short
    requires Contains(hay, long)
    ensures Contains(hay, short)
  {
    var i :| 0 <= i <= |hay| && OccursAt(hay, long, i);
    assert hay[i..i + |short|] == hay[i..i + |long|][..|short|];
    assert OccursAt(hay, short, i);
  }

  /** For the action log the "authentication" test is subsumed by the "auth" one:
      a message is an authentication failure exactly when it mentions "auth" and
      no connection problem. */
  lemma ActionAuthIsAuth(m: string)
    ensures Classify(LogAction, m) == AuthenticationProblem <==> !SaysConnection(m) && Contains(Lower(m), "auth")
  {
    if Contains(Lower(m), "authentication") {
      ContainsPrefix(Lower(m), "authentication", "auth");
    }
  }

  /** For the user writer a message is an authentication failure exactly when it
      mentions "authentication" and no connection problem. */
  lemma UserAuthIsAuthentication(data: seq<string>, m: string)
    ensures Classify(AddUser(data), m) == AuthenticationProblem <==>
      !SaysConnection(m) && Contains(Lower(m), "authentication")
  {
  }

  /** Every message the user writer reports as an authentication failure, the
      action log reports so too. */
  lemma UserAuthImpliesActionAuth(data: seq<string>, m: string)
    requires Classify(AddUser(data), m) == AuthenticationProblem
    ensures Classify(LogAction, m) == AuthenticationProblem
  {
  }

  /** The classification ignores case: a message and its lower-cased form are of
      the same kind. */
  lemma CaseInsensitive(job: Job, m: string)
    ensures Classify(job, m) == Classify(job, Lower(m))
  {
    LowerIdempotent(m);
  }

  /** A needle with a character the text lacks does not occur in it. */
  lemma MissingCharNotContained(hay: string, needle: string, j: nat)
    requires j < |needle| && needle[j] !in hay
    ensures !Contains(hay, needle)
  {
    forall i | 0 <= i <= |hay|
      ensures !OccursAt(hay, needle, i)
    {
      if i + |needle| <= |hay| {
        assert hay[i..i + |needle|][j] == hay[i + j];
      }
    }
  }

  /** "unauthorized" is an authentication failure for the action log but not for
      the user writer, which reports it with its generic message. */
  lemma UnauthorizedDiffers()
    ensures Classify(LogAction, "unauthorized") == AuthenticationProblem
    ensures Friendly(AddUser([]), "unauthorized") == GenericPrefix(AddUser([])) + "unauthorized"
  {
    var m := "unauthorized";
    assert Lower(m) == m;
    assert OccursAt(m, "auth", 2);
    assert 'c' !in m && 'm' !in m;
    MissingCharNotContained(m, "connection", 0);
    MissingCharNotContained(m, "timeout", 2);
    MissingCharNotContained(m, "authentication", 8);
  }

  /** The friendly message, from the text alone: the connection message when
      the text mentions "connection" or "timeout"; otherwise the authentication
      message when it mentions "authentication"; otherwise, when it does not
      even mention "auth", the generic prefix and the original text. */
  lemma FriendlyMessages(job: Job, m: string)
    ensures SaysConnection(m) ==> Friendly(job, m) == ConnectMessage
    ensures !SaysConnection(m) && Contains(Lower(m), "authentication") ==> Friendly(job, m) == AuthMessage
    ensures !SaysConnection(m) && !Contains(Lower(m), "auth") ==> Friendly(job, m) == GenericPrefix(job) + m
  {
    if Contains(Lower(m), "authentication") {
      ContainsPrefix(Lower(m), "authentication", "auth");
    }
  }

  /** A user record with too few fields still reports a failing list lookup,
      which comes first, rather than the IndexError. */
  lemma ShortRecordLookupFailure(data: seq<string>, a: Attempt)
    requires |data| < 6 && a.connect.Done? && a.lookup.Fails?
    ensures AttemptResult(AddUser(data), a) == a.lookup
    ensures a.lookup.fault != IndexOutOfRange ==> AttemptResult(AddUser(data), a) != Fails(IndexOutOfRange)
  {
  }

  /** `pslv_action_entry` and `add_new_user_to_userbase`: on the GUI thread the
      write is handed to the background worker and the call returns at once;
      otherwise it is made synchronously and a failure leaves as a friendly
      message. */
  method Submit(job: Job, isMainThread: bool, world: (nat -> Attempt)) returns (raised: Option<string>)
    ensures isMainThread ==> raised.None?
    ensures !isMainThread ==> (raised.Some? <==> FirstDone(job, world, 0) == MaxRetries)
    ensures raised.Some? ==>
      raised.value == Friendly(job, AttemptResult(job, world(MaxRetries - 1)).fault.message)
  {
    if isMainThread {
      return None;
    }
    var o := SyncRetry(job, world);
    if o.raised.Some? {
      raised := Some(Friendly(job, o.raised.value.message));
    } else {
      raised := None;
    }
  }
}
