/** How the main window lists the catalog: each row is flagged with `expire_sort`,
    the rows are ordered non-expired first and then by solution name, each row's
    version cell becomes the tile's version number, and the tiles whose lower-cased
    name contains the search text are laid out three to a grid row. */
module Ordering {
  import opened Wrappers
  import opened Text
  import Expiry
  import opened Catalog

  /** A row with its `Expired` flag, as sorted by `sort_values(['Expired', 'Solution_Name'])`. */
  datatype Flagged = Flagged(expired: bool, row: Row)

  /** `False < True`, then names in code-point order. */
  predicate KeyLe(a: Flagged, b: Flagged) {
    (!a.expired && b.expired)
    || (a.expired == b.expired && StrLe(a.row.entry.name, b.row.entry.name))
  }

  lemma KeyLeTotal(a: Flagged, b: Flagged)
    ensures KeyLe(a, b) || KeyLe(b, a)
  {
    StrLeTotal(a.row.entry.name, b.row.entry.name);
  }

  lemma KeyLeTransitive(a: Flagged, b: Flagged, c: Flagged)
    requires KeyLe(a, b) && KeyLe(b, c)
    ensures KeyLe(a, c)
  {
    if a.expired == b.expired && b.expired == c.expired {
      StrLeTransitive(a.row.entry.name, b.row.entry.name, c.row.entry.name);
    }
  }

  predicate Sorted(s: seq<Flagged>) {
    forall i, j :: 0 <= i < j < |s| ==> KeyLe(s[i], s[j])
  }

  /** The `Expired` column: `expire_sort` applied to every row in order; the
      first exception that `expire_sort` lets through aborts the listing. */
  function FlagRows(rows: seq<Row>, now: int): (r: Result<seq<Flagged>, Expiry.Fault>)
    ensures r.Ok? ==> |r.value| == |rows|
    ensures r.Ok? ==> forall k :: 0 <= k < |rows| ==>
      r.value[k] == Flagged(Expiry.CheckValidity(rows[k].entry.window, now), rows[k])
    ensures r.Err? <==> exists k :: 0 <= k < |rows| && Expiry.ExpireSort(rows[k].entry.window, now).Err?
  {
    if rows == [] then Ok([])
    else
      match Expiry.ExpireSort(rows[0].entry.window, now)
      case Err(f) => Err(f)
      case Ok(e) =>
        match FlagRows(rows[1..], now)
        case Err(f) =>
          assert forall k :: 0 <= k < |rows| - 1 ==> rows[1..][k] == rows[k + 1];
          Err(f)
        case Ok(rest) =>
          assert forall k :: 1 <= k < |rows| ==> rows[1..][k - 1] == rows[k];
          Ok([Flagged(e, rows[0])] + rest)
  }

  /** Places `x` before the first element it does not follow. */
  function Insert(x: Flagged, s: seq<Flagged>): (r: seq<Flagged>)
    requires Sorted(s)
    ensures Sorted(r)
    ensures multiset(r) == multiset(s) + multiset{x}
  {
    if s == [] then [x]
    else if KeyLe(x, s[0]) then
      assert forall j :: 0 <= j < |s| ==> KeyLe(x, s[j]) by {
        forall j | 0 <= j < |s| ensures KeyLe(x, s[j]) {
          if j > 0 { KeyLeTransitive(x, s[0], s[j]); }
        }
      }
      [x] + s
    else
      KeyLeTotal(x, s[0]);
      var rest := Insert(x, s[1..]);
      assert s == [s[0]] + s[1..];
      BoundKept(s[0], x, s[1..], rest);
      [s[0]] + rest
  }

  lemma {:induction false} InsertLength(x: Flagged, s: seq<Flagged>)
    requires Sorted(s)
    ensures |Insert(x, s)| == |s| + 1
  {
    if s != [] && !KeyLe(x, s[0]) {
      InsertLength(x, s[1..]);
    }
  }

  /** A lower bound of `x` and of every element of `s` bounds every element of a
      sequence holding exactly those. */
  lemma BoundKept(y: Flagged, x: Flagged, s: seq<Flagged>, r: seq<Flagged>)
    requires multiset(r) == multiset(s) + multiset{x}
    requires KeyLe(y, x) && forall j :: 0 <= j < |s| ==> KeyLe(y, s[j])
    ensures forall j :: 0 <= j < |r| ==> KeyLe(y, r[j])
  {
    forall j | 0 <= j < |r| ensures KeyLe(y, r[j]) {
      assert r[j] in multiset(r);
      if r[j] != x {
        assert r[j] in multiset(s);
        var m :| 0 <= m < |s| && s[m] == r[j];
      }
    }
  }

  /** The ordering of the listing: non-expired rows first, each group by name. */
  function SortExpiredLast(s: seq<Flagged>): (r: seq<Flagged>)
    ensures Sorted(r) && |r| == |s|
    ensures multiset(r) == multiset(s)
  {
    if s == [] then []
    else
      assert s == [s[0]] + s[1..];
      InsertLength(s[0], SortExpiredLast(s[1..]));
      Insert(s[0], SortExpiredLast(s[1..]))
  }

  /** Two rows the sort cannot tell apart: same flag, same solution name. */
  predicate SameKey(a: Flagged, b: Flagged) {
    a.expired == b.expired && a.row.entry.name == b.row.entry.name
  }

  /** The rows of `s` whose key is that of `k`, in the order of `s`. */
  function WithKey(s: seq<Flagged>, k: Flagged): (r: seq<Flagged>)
    ensures |r| <= |s|
  {
    if s == [] then [] else (if SameKey(s[0], k) then [s[0]] else []) + WithKey(s[1..], k)
  }

  lemma {:induction false} WithKeyCons(x: Flagged, s: seq<Flagged>, k: Flagged)
    ensures WithKey([x] + s, k) == (if SameKey(x, k) then [x] else []) + WithKey(s, k)
  {
    assert ([x] + s)[1..] == s;
  }

  /** Inserting `x` puts it ahead of every row with its key, so the rows of
      any one key keep their order with `x` first among its own. */
  lemma {:induction false} InsertWithKey(x: Flagged, s: seq<Flagged>, k: Flagged)
    requires Sorted(s)
    ensures WithKey(Insert(x, s), k) == (if SameKey(x, k) then [x] else []) + WithKey(s, k)
  {
    if s == [] {
      WithKeyCons(x, [], k);
    } else if KeyLe(x, s[0]) {
      WithKeyCons(x, s, k);
    } else {
      var r := Insert(x, s[1..]);
      assert Insert(x, s) == [s[0]] + r;
      InsertWithKey(x, s[1..], k);
      assert s == [s[0]] + s[1..];
      PassKey(x, s[0], s[1..], r, k);
    }
  }

  /** When `x` moves past a row `y` whose key is strictly smaller, `y` and `x`
      cannot both have the key `k`, so their order among the rows of `k` is
      unaffected. */
  lemma {:induction false} PassKey(x: Flagged, y: Flagged, tail: seq<Flagged>, r: seq<Flagged>, k: Flagged)
    requires !KeyLe(x, y)
    requires WithKey(r, k) == (if SameKey(x, k) then [x] else []) + WithKey(tail, k)
    ensures WithKey([y] + r, k) == (if SameKey(x, k) then [x] else []) + WithKey([y] + tail, k)
  {
    assert !(SameKey(x, k) && SameKey(y, k)) by {
      if SameKey(x, k) && SameKey(y, k) { StrLeTotal(x.row.entry.name, x.row.entry.name); }
    }
    WithKeyCons(y, r, k);
    WithKeyCons(y, tail, k);
  }

  /** The sort is stable: rows with equal `(Expired, Solution_Name)` keep their
      fetched order, as pandas' multi-column sort keeps them. */
  lemma {:induction false} SortStable(s: seq<Flagged>, k: Flagged)
    ensures WithKey(SortExpiredLast(s), k) == WithKey(s, k)
  {
    if s != [] {
      SortStable(s[1..], k);
      InsertWithKey(s[0], SortExpiredLast(s[1..]), k);
      assert s == [s[0]] + s[1..];
      WithKeyCons(s[0], s[1..], k);
    }
  }

  /** In the sorted listing no expired row precedes a non-expired one. */
  lemma ExpiredComeLast(s: seq<Flagged>, i: int, j: int)
    requires 0 <= i < j < |SortExpiredLast(s)|
    requires SortExpiredLast(s)[i].expired
    ensures SortExpiredLast(s)[j].expired
  {
  }

  /** The listing holds every flagged row, as many times as it was fetched. */
  lemma SortKeepsEveryRow(s: seq<Flagged>, x: Flagged)
    ensures x in SortExpiredLast(s) <==> x in s
  {
    assert x in SortExpiredLast(s) <==> multiset(SortExpiredLast(s))[x] > 0;
    assert x in s <==> multiset(s)[x] > 0;
  }

  /** The tile's version number: `float(cell)` when the cell is truthy, else 1.0.
      A text cell `float()` rejects raises ValueError. */
  function TileVersion(cell: VersionCell): (r: Result<real, Expiry.Fault>)
    ensures cell.EmptyCell? ==> r == Ok(1.0)
    ensures cell.NumberCell? ==> r == Ok(if cell.number == 0.0 then 1.0 else cell.number)
    ensures cell.TextCell? ==> (r.Ok? <==> cell.parsed.Some?)
    ensures r.Ok? && cell.TextCell? ==> r.value == cell.parsed.value
  {
    match cell
    case EmptyCell => Ok(1.0)
    case NumberCell(x) => if x == 0.0 then Ok(1.0) else Ok(x)
    case TextCell(p) => if p.Some? then Ok(p.value) else Err(Expiry.ValueFault)
  }

  /** A numeric cell can never give a tile the falsy version 0.0; only the text
      cell "0" (or "0.0") can. */
  lemma NumericCellNeverZero(x: real)
    ensures TileVersion(NumberCell(x)).Ok? && TileVersion(NumberCell(x)).value != 0.0
  {
  }

  /** One listed tile: the row, its expiry flag and its version number. */
  datatype Listed = Listed(expired: bool, row: Row, version: real)

  /** What a listing leaves in `all_tiles`, and the exception that ended it, if
      any. `all_tiles` is cleared first and one tile is appended per row, so a
      failure part way keeps the tiles built before it. */
  datatype Listing = Listing(tiles: seq<Listed>, failure: Option<Expiry.Fault>)

  /** The tiles' flags and rows, as the sort saw them. */
  function AsFlagged(t: seq<Listed>): (r: seq<Flagged>)
    ensures |r| == |t| && forall k :: 0 <= k < |t| ==> r[k] == Flagged(t[k].expired, t[k].row)
  {
    seq(|t|, k requires 0 <= k < |t| => Flagged(t[k].expired, t[k].row))
  }

  /** One tile per sorted row, in order, until a version cell raises. */
  function Versions(s: seq<Flagged>): (r: Listing)
    ensures |r.tiles| <= |s| && AsFlagged(r.tiles) == s[..|r.tiles|]
    ensures forall k :: 0 <= k < |r.tiles| ==> TileVersion(s[k].row.entry.version) == Ok(r.tiles[k].version)
    ensures r.failure.None? ==> |r.tiles| == |s|
    ensures r.failure.Some? ==>
      |r.tiles| < |s| && TileVersion(s[|r.tiles|].row.entry.version) == Err(r.failure.value)
  {
    if s == [] then Listing([], None)
    else
      match TileVersion(s[0].row.entry.version)
      case Err(f) => Listing([], Some(f))
      case Ok(v) =>
        var rest := Versions(s[1..]);
        var tiles := [Listed(s[0].expired, s[0].row, v)] + rest.tiles;
        assert forall k :: 1 <= k < |tiles| ==> tiles[k] == rest.tiles[k - 1] && s[k] == s[1..][k - 1];
        assert AsFlagged(tiles) == s[..|tiles|];
        Listing(tiles, rest.failure)
  }

  /** `MainWindow.load_applications`: clear the tiles, flag every row, sort, then
      build one tile per row. An exception while flagging leaves no tiles; one
      while building leaves the tiles built so far. */
  function LoadApplications(rows: seq<Row>, now: int): (r: Listing)
    ensures FlagRows(rows, now).Err? ==> r == Listing([], Some(FlagRows(rows, now).error))
    ensures FlagRows(rows, now).Ok? ==>
      |r.tiles| <= |rows| && AsFlagged(r.tiles) == SortExpiredLast(FlagRows(rows, now).value)[..|r.tiles|]
    ensures forall k :: 0 <= k < |r.tiles| ==> TileVersion(r.tiles[k].row.entry.version) == Ok(r.tiles[k].version)
    ensures r.failure.None? ==> |r.tiles| == |rows|
  {
    match FlagRows(rows, now)
    case Err(f) => Listing([], Some(f))
    case Ok(flagged) =>
      Versions(SortExpiredLast(flagged))
  }

  /** Every row of the sorted listing is one of the flagged rows. */
  lemma SortedFrom(s: seq<Flagged>, k: nat)
    requires k < |SortExpiredLast(s)|
    ensures exists m :: 0 <= m < |s| && s[m] == SortExpiredLast(s)[k]
  {
    assert SortExpiredLast(s)[k] in multiset(s);
  }

  /** Every flagged row is somewhere in the sorted listing. */
  lemma SortedHas(s: seq<Flagged>, m: nat)
    requires m < |s|
    ensures exists k :: 0 <= k < |SortExpiredLast(s)| && SortExpiredLast(s)[k] == s[m]
  {
    assert s[m] in multiset(SortExpiredLast(s));
  }

  /** Every listed tile, finished or not: its flag is `check_validity` of its row,
      and the tiles come in key order, so no expired tile precedes a valid one. A
      complete listing is the flagged rows, each as often as fetched. */
  lemma ListingSound(rows: seq<Row>, now: int)
    ensures var r := LoadApplications(rows, now);
      && (forall k :: 0 <= k < |r.tiles| ==>
            r.tiles[k].expired == Expiry.CheckValidity(r.tiles[k].row.entry.window, now))
      && Sorted(AsFlagged(r.tiles))
      && (forall i, j :: 0 <= i < j < |r.tiles| && r.tiles[i].expired ==> r.tiles[j].expired)
      && (r.failure.None? ==> multiset(AsFlagged(r.tiles)) == multiset(FlagRows(rows, now).value))
  {
    var r := LoadApplications(rows, now);
    if FlagRows(rows, now).Ok? {
      var flagged := FlagRows(rows, now).value;
      var sorted := SortExpiredLast(flagged);
      var a := AsFlagged(r.tiles);
      forall k | 0 <= k < |r.tiles|
        ensures r.tiles[k].expired == Expiry.CheckValidity(r.tiles[k].row.entry.window, now)
      {
        assert a[k] == sorted[k];
        SortedFrom(flagged, k);
        var m :| 0 <= m < |flagged| && flagged[m] == sorted[k];
      }
      forall i, j | 0 <= i < j < |a| ensures KeyLe(a[i], a[j]) {
        assert a[i] == sorted[i] && a[j] == sorted[j];
      }
      forall i, j | 0 <= i < j < |r.tiles| && r.tiles[i].expired ensures r.tiles[j].expired {
        assert KeyLe(a[i], a[j]);
      }
      if r.failure.None? {
        assert a == sorted;
      }
    }
  }

  /** A listing completes exactly when `expire_sort` raises for no row and every
      row's version cell converts; otherwise it reports an exception. */
  lemma ListingCompletesIff(rows: seq<Row>, now: int)
    ensures LoadApplications(rows, now).failure.None? <==>
      forall k :: 0 <= k < |rows| ==>
        Expiry.ExpireSort(rows[k].entry.window, now).Ok? && TileVersion(rows[k].entry.version).Ok?
  {
    var r := LoadApplications(rows, now);
    if FlagRows(rows, now).Ok? {
      var flagged := FlagRows(rows, now).value;
      var sorted := SortExpiredLast(flagged);
      if r.failure.None? {
        forall k | 0 <= k < |rows| ensures TileVersion(rows[k].entry.version).Ok? {
          SortedHas(flagged, k);
          var m :| 0 <= m < |sorted| && sorted[m] == flagged[k];
          assert AsFlagged(r.tiles)[m] == sorted[m];
        }
      } else {
        var n := |r.tiles|;
        assert AsFlagged(r.tiles) == sorted[..n];
        SortedFrom(flagged, n);
        var m :| 0 <= m < |flagged| && flagged[m] == sorted[n];
        assert !TileVersion(rows[m].entry.version).Ok?;
      }
    }
  }

  /** Where a visible tile goes: the tile's position in the listing, and its grid cell. */
  datatype Placement = Placement(tile: nat, row: nat, col: nat)

  /** The indices of the tiles whose lower-cased name contains `filter`, in order. */
  function Matching(names: seq<string>, filter: string, from: nat): (r: seq<nat>)
    requires from <= |names|
    ensures forall k :: 0 <= k < |r| ==> from <= r[k] < |names| && Contains(Lower(names[r[k]]), filter)
    ensures forall i :: from <= i < |names| && Contains(Lower(names[i]), filter) ==> i in r
    ensures forall a, b :: 0 <= a < b < |r| ==> r[a] < r[b]
    decreases |names| - from
  {
    if from == |names| then []
    else if Contains(Lower(names[from]), filter) then [from] + Matching(names, filter, from + 1)
    else Matching(names, filter, from + 1)
  }

  /** `update_grid_layout`: the i-th visible tile goes to row i // 3, column i % 3. */
  function GridLayout(names: seq<string>, filter: string): (r: seq<Placement>)
    ensures forall k :: 0 <= k < |r| ==> r[k].row == k / 3 && r[k].col == k % 3
  {
    var visible := Matching(names, filter, 0);
    seq(|visible|, k requires 0 <= k < |visible| => Placement(visible[k], k / 3, k % 3))
  }

  /** The row given the stretch that keeps the tiles top-aligned. */
  function StretchRow(visibleCount: nat): nat {
    visibleCount / 3 + 1
  }

  /** The grid shows exactly the matching tiles, in listing order, each in its own
      cell, three columns wide, all above the stretch row. */
  lemma GridLayoutSound(names: seq<string>, filter: string)
    ensures var g := GridLayout(names, filter);
      && (forall k :: 0 <= k < |g| ==> g[k].tile < |names| && Contains(Lower(names[g[k].tile]), filter))
      && (forall i :: 0 <= i < |names| && Contains(Lower(names[i]), filter) ==>
            exists k :: 0 <= k < |g| && g[k].tile == i)
      && (forall a, b :: 0 <= a < b < |g| ==> g[a].tile < g[b].tile)
      && (forall a, b :: 0 <= a < b < |g| ==> (g[a].row, g[a].col) != (g[b].row, g[b].col))
      && (forall k :: 0 <= k < |g| ==> g[k].col < 3 && g[k].row < StretchRow(|g|))
  {
    var g := GridLayout(names, filter);
    var visible := Matching(names, filter, 0);
    forall i | 0 <= i < |names| && Contains(Lower(names[i]), filter)
      ensures exists k :: 0 <= k < |g| && g[k].tile == i
    {
      var k :| 0 <= k < |visible| && visible[k] == i;
      assert g[k].tile == i;
    }
    forall a, b | 0 <= a < b < |g| ensures (g[a].row, g[a].col) != (g[b].row, g[b].col) {
      if a / 3 == b / 3 {
        assert a % 3 != b % 3;
      }
    }
  }

  /** The empty search text (the initial layout) shows every tile. */
  lemma EmptyFilterShowsAll(names: seq<string>)
    ensures |GridLayout(names, "")| == |names|
  {
    var visible := Matching(names, "", 0);
    forall i | 0 <= i < |names| ensures i in visible {
      ContainsEmpty(Lower(names[i]));
    }
    DistinctCount(visible, |names|);
  }

  /** A strictly increasing sequence of indices below n that contains every index
      below n has exactly n elements. */
  lemma {:induction false} DistinctCount(v: seq<nat>, n: nat)
    requires forall a, b :: 0 <= a < b < |v| ==> v[a] < v[b]
    requires forall i :: 0 <= i < n ==> i in v
    requires forall k :: 0 <= k < |v| ==> v[k] < n
    ensures |v| == n
  {
    forall k | 0 <= k < |v| ensures v[k] == k {
      IndexBound(v, k, n);
    }
    if |v| > 0 {
      assert v[|v| - 1] == |v| - 1;
    }
    if n > 0 {
      assert n - 1 in v;
      var k :| 0 <= k < |v| && v[k] == n - 1;
      assert v[k] == k;
    }
  }

  lemma {:induction false} IndexBound(v: seq<nat>, k: nat, n: nat)
    requires forall a, b :: 0 <= a < b < |v| ==> v[a] < v[b]
    requires forall i :: 0 <= i < n ==> i in v
    requires forall j :: 0 <= j < |v| ==> v[j] < n
    requires k < |v|
    ensures v[k] == k
    decreases k
  {
    if k > 0 {
      IndexBound(v, k - 1, n);
    }
    if v[k] > k {
      assert k in v;
      var m :| 0 <= m < |v| && v[m] == k;
      if m < k {
        IndexBound(v, m, n);
      }
    }
  }
}
