/** Catalog rows as the loaders see them, the frames they emit, and the per-user
    access filter: the rows whose lower-cased access list mentions "everyone",
    followed by the rows that mention the current user. */
module Catalog {
  import opened Wrappers
  import opened Text
  import Expiry

  /** The `Version_Number` cell of a row: an empty cell, a numeric cell, or a text
      cell that `float()` either parses or rejects. */
  datatype VersionCell = EmptyCell | NumberCell(number: real) | TextCell(parsed: Option<real>)

  /** The fields of a catalog entry the launcher reasons about. */
  datatype Entry = Entry(name: string, environment: string, window: Expiry.Window, version: VersionCell)

  /** A row as fetched: the access cell may be missing (NaN before `fillna`). */
  datatype RawRow = RawRow(access: Option<string>, entry: Entry)

  /** A row after `fillna('')` and lower-casing of the access column. */
  datatype Row = Row(access: string, entry: Entry)

  /** A table: its column names and its rows, in order. */
  datatype Frame<+R> = Frame(columns: seq<string>, rows: seq<R>)

  const AccessColumn: string := "SIDs_For_SolutionAccess"
  const Everyone: string := "everyone"

  /** The nine columns of the empty catalog emitted when there is nothing to show. */
  const KnownColumns: seq<string> := ["Expired", "Solution_Name", "Description", "ApplicationExePath",
                                       "Status", "Release_Date", "Validity_Period", "Version_Number",
                                       "UMAT_IAHub_ID"]

  /** The empty catalog with the known columns. */
  function EmptyCatalog(): (f: Frame<Row>)
    ensures f.columns == ["Expired", "Solution_Name", "Description", "ApplicationExePath", "Status",
                          "Release_Date", "Validity_Period", "Version_Number", "UMAT_IAHub_ID"]
    ensures f.rows == []
  {
    Frame(KnownColumns, [])
  }

  /** `pd.DataFrame()`: no columns and no rows. */
  function NoColumns<R>(): (f: Frame<R>)
    ensures f.columns == [] && f.rows == []
  {
    Frame([], [])
  }

  /** `fillna('')` followed by `str.lower()` on the access column. */
  function Normalise(raw: RawRow): (r: Row)
    ensures r.entry == raw.entry
    ensures raw.access.None? ==> r.access == ""
    ensures raw.access.Some? ==> r.access == Lower(raw.access.value)
  {
    Row(Lower(raw.access.GetOr("")), raw.entry)
  }

  function NormaliseAll(raws: seq<RawRow>): (rows: seq<Row>)
    ensures |rows| == |raws|
    ensures forall k :: 0 <= k < |raws| ==> rows[k] == Normalise(raws[k])
  {
    seq(|raws|, k requires 0 <= k < |raws| => Normalise(raws[k]))
  }

  predicate Mentions(r: Row, needle: string) {
    Contains(r.access, needle)
  }

  /** `df[df[AccessColumn].str.contains(needle)]`: the rows whose access cell
      contains `needle`, in their original order, duplicates kept. */
  function Keep(rows: seq<Row>, needle: string): (r: seq<Row>)
    ensures |r| <= |rows|
    ensures forall x :: x in r ==> Mentions(x, needle)
  {
    if rows == [] then []
    else (if Mentions(rows[0], needle) then [rows[0]] else []) + Keep(rows[1..], needle)
  }

  /** `Keep` keeps every occurrence of a matching row and drops every other row. */
  lemma {:induction false} KeepCounts(rows: seq<Row>, needle: string)
    ensures forall x :: multiset(Keep(rows, needle))[x] == if Mentions(x, needle) then multiset(rows)[x] else 0
  {
    if rows != [] {
      KeepCounts(rows[1..], needle);
      assert rows == [rows[0]] + rows[1..];
      var h := if Mentions(rows[0], needle) then [rows[0]] else [];
      assert multiset(Keep(rows, needle)) == multiset(h) + multiset(Keep(rows[1..], needle));
      assert multiset(rows) == multiset([rows[0]]) + multiset(rows[1..]);
    }
  }

  /** Selecting from a concatenation selects from each part in turn: `Keep`
      preserves the original order. */
  lemma {:induction false} KeepDistributes(a: seq<Row>, b: seq<Row>, needle: string)
    ensures Keep(a + b, needle) == Keep(a, needle) + Keep(b, needle)
  {
    if a == [] {
      assert a + b == b;
    } else {
      assert (a + b)[0] == a[0];
      assert (a + b)[1..] == a[1..] + b;
      KeepDistributes(a[1..], b, needle);
    }
  }

  /** The visible catalog: every "everyone" row, then every row naming the
      lower-cased user id (`pd.concat([all_df, processed_df])`). */
  function AccessFilter(rows: seq<Row>, user: string): (r: seq<Row>)
    ensures |r| <= 2 * |rows|
    ensures |Keep(rows, Everyone)| <= |r| && r[..|Keep(rows, Everyone)|] == Keep(rows, Everyone)
    ensures forall x :: x in r ==> Mentions(x, Everyone) || Mentions(x, Lower(user))
  {
    Keep(rows, Everyone) + Keep(rows, Lower(user))
  }

  /** The whole per-user view of a fetched table. */
  function Visible(raws: seq<RawRow>, user: string): seq<Row>
  {
    AccessFilter(NormaliseAll(raws), user)
  }

  /** A row is visible exactly when it is in the table and mentions "everyone" or
      the user. */
  lemma VisibleIff(rows: seq<Row>, user: string, x: Row)
    ensures x in AccessFilter(rows, user) <==>
      x in rows && (Mentions(x, Everyone) || Mentions(x, Lower(user)))
  {
    var e := Keep(rows, Everyone);
    var u := Keep(rows, Lower(user));
    KeepCounts(rows, Everyone);
    KeepCounts(rows, Lower(user));
    assert x in e <==> multiset(e)[x] > 0;
    assert x in u <==> multiset(u)[x] > 0;
    assert x in rows <==> multiset(rows)[x] > 0;
    assert multiset(e + u) == multiset(e) + multiset(u);
    assert x in e + u <==> multiset(e + u)[x] > 0;
  }

  /** No deduplication: a row appears once per group it matches, so a row that
      mentions both "everyone" and the user appears twice per occurrence. */
  lemma FilterMultiplicity(rows: seq<Row>, user: string, x: Row)
    ensures multiset(AccessFilter(rows, user))[x] ==
      multiset(rows)[x] * ((if Mentions(x, Everyone) then 1 else 0) + (if Mentions(x, Lower(user)) then 1 else 0))
  {
    var e := Keep(rows, Everyone);
    var u := Keep(rows, Lower(user));
    KeepCounts(rows, Everyone);
    KeepCounts(rows, Lower(user));
    assert multiset(e + u) == multiset(e) + multiset(u);
  }

  /** Every visible row's access cell is already lower case. */
  lemma VisibleRowsLowered(raws: seq<RawRow>, user: string)
    ensures forall x :: x in Visible(raws, user) ==> Lower(x.access) == x.access
  {
    var rows := NormaliseAll(raws);
    forall x | x in Visible(raws, user) ensures Lower(x.access) == x.access {
      VisibleIff(rows, user, x);
      var k :| 0 <= k < |rows| && rows[k] == x;
      LowerIdempotent(raws[k].access.GetOr(""));
    }
  }

  /** Adding rows to the table never hides a previously visible row, and the new
      rows' selections come after the old ones within each group. */
  lemma FilterAppend(a: seq<Row>, b: seq<Row>, user: string)
    ensures AccessFilter(a + b, user) ==
      Keep(a, Everyone) + Keep(b, Everyone) + Keep(a, Lower(user)) + Keep(b, Lower(user))
  {
    KeepDistributes(a, b, Everyone);
    KeepDistributes(a, b, Lower(user));
  }
}
