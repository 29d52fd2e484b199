/** The expiry rule of a catalog entry: an entry is expired once the current time is
    past its release date plus its validity period in days. Instants are whole seconds
    on one clock; the current time is a parameter. */
module Expiry {
  import opened Wrappers

  const SecondsPerDay: int := 86400

  /** The exception classes that reading a date field can raise. `expire_sort`
      catches the first three only; `check_validity` catches all of them. */
  datatype Fault = ValueFault | TypeFault | KeyFault | OtherFault

  /** A field of a catalog row: parsed, or the exception its conversion raises. */
  datatype Field<+T> = Parsed(value: T) | Malformed(fault: Fault)

  /** `Release_Date` as `pd.Timestamp` reads it: an instant; NaT, which an empty
      cell, the text "NaT" or a NaN cell read back from a backup give without
      raising; or the exception the conversion raises. */
  datatype Release = At(instant: int) | NaT | BadDate(fault: Fault)

  /** The date fields of one catalog entry: `Release_Date`, and `Validity_Period`
      as a number of days. */
  datatype Window = Window(release: Release, validityDays: Field<int>)

  /** What `release_date + timedelta(days=validity)` gives: an instant, NaT, or
      the exception it raises. */
  datatype Deadline = Expires(instant: int) | NoDeadline | Fails(fault: Fault)

  /** The instant the entry expires. The release date is converted before the
      validity period, and NaT plus any period is NaT. */
  function ExpiresAt(w: Window): (r: Deadline)
    ensures r.Expires? <==> w.release.At? && w.validityDays.Parsed?
    ensures r.Expires? ==> r.instant == w.release.instant + w.validityDays.value * SecondsPerDay
    ensures r.NoDeadline? <==> w.release.NaT? && w.validityDays.Parsed?
    ensures w.release.BadDate? ==> r == Fails(w.release.fault)
    ensures !w.release.BadDate? && w.validityDays.Malformed? ==> r == Fails(w.validityDays.fault)
  {
    match (w.release, w.validityDays)
    case (BadDate(f), _) => Fails(f)
    case (_, Malformed(f)) => Fails(f)
    case (NaT, Parsed(_)) => NoDeadline
    case (At(t), Parsed(d)) => Expires(t + d * SecondsPerDay)
  }

  /** `ApplicationTile.check_validity`: true when `now` is past the expiry instant.
      A comparison with NaT is false, and any failure yields "not expired". */
  function CheckValidity(w: Window, now: int): bool
  {
    match ExpiresAt(w)
    case Expires(e) => now > e
    case _ => false
  }

  /** `expire_sort`: the same rule, but only ValueError, TypeError and KeyError are
      turned into "not expired"; any other exception escapes. */
  function ExpireSort(w: Window, now: int): (r: Result<bool, Fault>)
    ensures r.Err? <==> ExpiresAt(w) == Fails(OtherFault)
    ensures r.Ok? ==> r.value == CheckValidity(w, now)
  {
    match ExpiresAt(w)
    case Expires(e) => Ok(now > e)
    case NoDeadline => Ok(false)
    case Fails(OtherFault) => Err(OtherFault)
    case Fails(_) => Ok(false)
  }

  /** Expired exactly when the release date is an instant, the period parses, and
      `now` is strictly later than release + validity days. */
  lemma ExpiredIff(w: Window, now: int)
    ensures CheckValidity(w, now) <==>
      w.release.At? && w.validityDays.Parsed?
      && now > w.release.instant + w.validityDays.value * SecondsPerDay
  {
  }

  /** Once expired, an entry stays expired at every later instant. */
  lemma ExpiryMonotone(w: Window, now: int, later: int)
    requires now <= later
    requires CheckValidity(w, now)
    ensures CheckValidity(w, later)
  {
  }

  /** A malformed field, or a NaT release date, means "never expired", whatever
      the time. */
  lemma MalformedNeverExpires(w: Window, now: int)
    requires !w.release.At? || w.validityDays.Malformed?
    ensures !CheckValidity(w, now)
  {
  }

  /** The entry is still valid at the very instant it expires. */
  lemma ValidAtExpiryInstant(w: Window)
    requires ExpiresAt(w).Expires?
    ensures !CheckValidity(w, ExpiresAt(w).instant)
    ensures CheckValidity(w, ExpiresAt(w).instant + 1)
  {
  }

  /** Released 2023-01-01 with a 30-day period, checked on 2023-03-01: expired. */
  lemma ThirtyDayScenario()
    ensures CheckValidity(Window(At(1672531200), Parsed(30)), 1677628800)
  {
  }
}
