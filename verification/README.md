# PSLV launcher core in Dafny

PSLV is a desktop launcher. It shows each user the catalog applications they may
use, and installs, updates, launches and uninstalls them. This project models the
launcher's business rules as pure Dafny functions and proves what they promise:

- **Expiry** (`expiry.dfy`): an entry is expired once `now` is strictly past
  its release date plus its validity period in days. `ApplicationTile.check_validity`
  treats any failure as "not expired". `expire_sort` catches only `ValueError`,
  `TypeError` and `KeyError`.
- **Tile** (`tile.dfy`): the application tile as a state record.
  - The update rule and the installed-version marker.
  - Label priority: Expired, then Update, then Launch, then Install.
  - Click dispatch.
  - Install, install-error, update and uninstall transitions.
  - An event-driven run of the tile.
  - Launching, as written and as intended.
- **ChunkedCopy** (`chunked_copy.dfy`): `InstallThread.run`. It copies 1024-byte
  chunks and reports a whole-number percentage after each one.
- **Catalog** (`catalog.dfy`): rows, frames, and the per-user access filter.
  The filter keeps the rows whose lower-cased access cell contains "everyone",
  followed by the rows that contain the user id. It does not deduplicate.
- **Ordering** (`ordering.dfy`): how `MainWindow.load_applications` lists the
  tiles.
  - Expiry flag, then sort with non-expired first and then by name.
  - The version number each tile gets.
  - The search filter and the three-column grid.
- **Worker** (`worker.dfy`): the three data-loading threads share one shape. Each
  is a straight-line script of stop-flag checkpoints, progress emissions and
  fallible steps. This module is that script language, its interpreter, and
  general facts about running scripts one after another.
- **The loaders**:
  - **Refresh** (`refresh.dfy`): `RefreshWorker.run` in `2.py`.
  - **PslvLoader** (`pslv_loader.dfy`): the cancellable start-up `DataLoader.run`
    and `_load_from_backup` in `PSLV_fixed.py`.
  - **EnhancedLoader** (`enhanced_loader.dfy`): the start-up `DataLoader.run` in
    `1_fixed.py`.

  Each loader is a script, a closed form proved equal to the interpreter's run of
  that script, and a `Run` function. `Run` turns the way the script ended into the
  signals the thread emits.
- **Splash** (`splash.dfy`): what the two start-up loaders share.
  - The signal type.
  - The side-table fetchers, which never raise.
  - The splash screen's cancel-button latch.
- **Retry** (`retry.dfy`): the write helpers of `4.py`.
  - The bounded exponential-backoff retry, with and without cancellation.
  - The background workers' signals.
  - The text-based error classification.
- **Config** (`config.dfy`): `split_user` and `validate_configuration`.
- **Text** (`text.dfy`): the Python `str` operations these rules use:
  `lower`, `strip`, `split`, `join`, `in`, and string order.
- **Wrappers** (`wrappers.dfy`): `Option` and `Result`.

Some inputs become parameters rather than being modelled:

- The current time is an integer number of seconds.
- Remote-service results, file existence and readability, and version-file
  contents are data.
- A stop or cancel flag is a latch, given as the index of the first checkpoint
  that sees it set.
- Version numbers are reals.

Some behaviours of the code are easy to misread. The model follows the code:

- The visible catalog is a concatenation of two selections, and duplicates are
  kept (`2.py:81-83`). It is not a set union.
- `check_update_available` is false when the tile is not installed or the
  catalog version is `0.0`, whatever the marker says (`2.py:840-845`).
- Only the action-log and user writes retry (`4.py:61-89`, `4.py:123-159`,
  `4.py:261-282`, `4.py:316-346`). The catalog fetch is tried once
  (`2.py:51-117`).
- Not every fault is caught. Three can escape their handlers:
  - the backup read in `1_fixed.py:131`;
  - the date arithmetic in `launch_application`, which runs before its `try`
    (`2.py:786-788`);
  - any exception other than the three that `expire_sort` lists
    (`4.py:366`).
- Launching starts only unregistered BETA applications (`2.py:790-796`). See
  Findings.

The date rule is written with a broken import at `2.py:15-16`. The model uses
the intended rule, which `4.py:360-368` states with working imports.

## Model

| member | source | states |
|---|---|---|
| `Text.LowerChar` | 2.py:80 | one character lower-cased: ASCII capitals move down by 32, every other character is kept, and the result is never a capital |
| `Text.Lower` | 2.py:80 | `str.lower()` keeps the length, leaves no ASCII capital, and changes only capitals |
| `Text.LowerIdempotent` | 1_fixed.py:101-102 | lower-casing an already lower-cased access cell changes nothing |
| `Text.ContainsEmpty` | 2.py:1652-1655 | the empty search text is contained in every name |
| `Text.TrimLeft` | 4.py:373-374 | `lstrip` drops exactly the leading whitespace run: the result is a suffix, every dropped character is whitespace, and its first character is not |
| `Text.TrimRight` | 4.py:373-374 | `rstrip` drops exactly the trailing whitespace run, symmetrically |
| `Text.Strip` | 4.py:373-374 | `strip()` leaves no whitespace at either end, and is empty exactly when the input is all whitespace |
| `Text.StripKeepsOut` | 4.py:374 | stripping never introduces a character, so a `;`-free piece stays `;`-free |
| `Text.StrippedIsFixed` | 4.py:374 | a string with no whitespace at either end strips to itself |
| `Text.StripIdempotent` | 4.py:374 | stripping twice is stripping once |
| `Text.IndexOf` | 4.py:374 | the first occurrence of the separator, or the length when there is none |
| `Text.Split` | 4.py:374 | `split(';')` gives at least one piece, and no piece contains the separator |
| `Text.SplitJoin` | 4.py:374 | splitting on a separator and joining with it gives back the input |
| `Text.StrLeTotal` | 2.py:1621 | any two names are ordered one way or the other |
| `Text.StrLeTransitive` | 2.py:1621 | the name order is transitive |
| `Text.StrLeAntisymmetric` | 2.py:1621 | two names ordered both ways are equal |
| `Expiry.ExpiresAt` | 2.py:826-828 | the expiry instant is release plus validity days when the release date is an instant and the period parses; NaT when the release date is NaT; otherwise the first field's fault, release date first |
| `Expiry.ExpiredIff` | 2.py:822-832 | `check_validity` (`Expiry.CheckValidity`) is true exactly when the release date is an instant, the period parses, and `now` is strictly after release plus validity days |
| `Expiry.ExpiryMonotone` | 2.py:822-832 | once expired, an entry is expired at every later time |
| `Expiry.MalformedNeverExpires` | 2.py:829-832 | a malformed field, or a NaT release date (whose comparison is false), means "not expired" at every time |
| `Expiry.ValidAtExpiryInstant` | 2.py:829 | the comparison is strict: still valid at the expiry instant, expired one second later |
| `Expiry.ThirtyDayScenario` | 2.py:822-832 | released 2023-01-01 with 30 days of validity, the entry is expired on 2023-03-01 |
| `Expiry.ExpireSort` | 4.py:360-368 | `expire_sort` raises exactly when the fault is none of ValueError, TypeError or KeyError; otherwise it agrees with `check_validity` |
| `Catalog.EmptyCatalog` | 2.py:107-110 | the fallback frame has exactly the nine columns Expired, Solution_Name, Description, ApplicationExePath, Status, Release_Date, Validity_Period, Version_Number, UMAT_IAHub_ID, in that order, and no rows |
| `Catalog.NoColumns` | PSLV_fixed.py:178 | `pd.DataFrame()` has no columns and no rows |
| `Catalog.Normalise` | 2.py:79-80 | `fillna('')` then `lower()`: a missing access cell becomes "", and a present one is lower-cased; the entry is untouched |
| `Catalog.NormaliseAll` | 2.py:78-80 | every row is normalised, in place and in order |
| `Catalog.Keep` | 2.py:81-82 | `str.contains` selection: no more rows than the input, and every kept row mentions the needle |
| `Catalog.KeepCounts` | 2.py:81-82 | each matching row keeps its multiplicity, and every other row is dropped |
| `Catalog.KeepDistributes` | 2.py:81-82 | selecting from a concatenation selects from each part in turn, so the original order is kept |
| `Catalog.AccessFilter` | 2.py:81-83 | the view starts with all "everyone" rows, is at most twice the table, and every row mentions "everyone" or the user |
| `Catalog.VisibleIff` | 2.py:81-83 | a row is visible exactly when it is in the table and mentions "everyone" or the lower-cased user |
| `Catalog.FilterMultiplicity` | 2.py:83 | no deduplication: a row appears once for each group it matches, per occurrence |
| `Catalog.VisibleRowsLowered` | 2.py:79-83 | every visible row's access cell is already lower case |
| `Catalog.FilterAppend` | 2.py:81-83 | filtering a longer table keeps the old selections, and new rows follow within each group |
| `Ordering.KeyLeTotal` | 2.py:1621 | the sort key `(Expired, Solution_Name)` orders any two rows |
| `Ordering.KeyLeTransitive` | 2.py:1621 | the sort key order is transitive |
| `Ordering.FlagRows` | 2.py:1620 | each row is flagged with its `check_validity` value, in order; the listing fails exactly when `expire_sort` raises on some row |
| `Ordering.Insert` | 2.py:1621 | insertion keeps a sorted list sorted and adds exactly the one row |
| `Ordering.SortExpiredLast` | 2.py:1621 | the listing is sorted by the key and is a permutation of the flagged rows |
| `Ordering.InsertWithKey` | 2.py:1621 | an inserted row goes ahead of every row with its key, and the other rows of that key keep their order |
| `Ordering.SortStable` | 2.py:1621 | the sort is stable: for every key, the rows with that `(Expired, Solution_Name)` appear in the listing in their fetched order |
| `Ordering.ExpiredComeLast` | 2.py:1621 | no expired row comes before a non-expired one |
| `Ordering.SortKeepsEveryRow` | 2.py:1621 | a row is in the listing exactly when it was fetched |
| `Ordering.TileVersion` | 2.py:1633 | a falsy cell (empty, or numeric zero) gives 1.0; a numeric cell gives its value; a text cell gives its parse or raises ValueError |
| `Ordering.NumericCellNeverZero` | 2.py:1633 | a numeric cell never gives the falsy version 0.0 |
| `Ordering.Versions` | 2.py:1624-1636 | one tile per sorted row, in order, each with its flag, row and `TileVersion`, until a version cell raises; the failure is that cell's ValueError and the tiles built before it are kept |
| `Ordering.LoadApplications` | 2.py:1606-1642 | an exception from `expire_sort` leaves `all_tiles` empty (cleared at line 1619) with that fault; otherwise the tiles are a prefix of the sorted flagged rows, each with its version; a complete listing has one tile per row |
| `Ordering.ListingSound` | 2.py:1619-1636 | every tile left in `all_tiles`, complete or not, is flagged with `check_validity` of its row and in `(Expired, Solution_Name)` order, so expired tiles come last; a complete listing is a permutation of the flagged rows |
| `Ordering.ListingCompletesIff` | 2.py:1620-1636 | a listing completes exactly when `expire_sort` raises for no row and every version cell converts with `float` |
| `Ordering.Matching` | 2.py:1652-1655 | the visible tiles are exactly those whose lower-cased name contains the text, in listing order |
| `Ordering.GridLayout` | 2.py:1658-1661 | the k-th visible tile goes to row k // 3, column k % 3 |
| `Ordering.GridLayoutSound` | 2.py:1647-1665 | the grid shows exactly the matching tiles, in order, in distinct cells, three columns wide, above the stretch row |
| `Ordering.EmptyFilterShowsAll` | 2.py:1639 | the initial layout with empty text shows every tile |
| `Tile.InstalledVersion` | 2.py:873-882 | the marker's number, or None exactly when the file is missing or does not parse |
| `Tile.UpdateRule` | 2.py:834-848 | `check_update_available` (`Tile.CheckUpdateAvailable`): never an update when not installed or when the catalog version is 0.0; always one when installed and the marker is unusable; otherwise exactly when the catalog version is newer |
| `Tile.SameVersionNoUpdate` | 2.py:834-848 | a marker equal to the catalog version never asks for an update |
| `Tile.UpdateButtonStates` | 2.py:850-871 | expired: expired text and both buttons disabled, with the button text kept; otherwise the enabled flags are kept; no other field changes |
| `Tile.ButtonStatesConsistent` | 2.py:850-871 | afterwards the labels agree with the flags, and an expired tile's display ignores the install flags |
| `Tile.NewTile` | 2.py:319-327 | a new tile has its expiry, update and marker from disk, is installed when either executable location exists (checked again at lines 658-661), shows consistent labels, and is enabled exactly when not expired |
| `Tile.LegacyInstallNeverUpdates` | 2.py:658-661 | an application found only at the older `<install_path>.exe` is shown as "Launch", never "Update" |
| `Tile.Click` | 2.py:717-726 | the button updates exactly when an update is available, installs exactly when there is none and nothing is installed, and launches otherwise |
| `Tile.ClickMatchesLabel` | 2.py:717-726 | on a consistent, non-expired tile the click does what the label says |
| `Tile.InstallApplication` | 2.py:733-752 | installing only shows "Installing..." and the progress bar; the disk is untouched until the copy reports |
| `Tile.InstallationFinished` | 2.py:768-779 | the tile becomes installed at the catalog version with no update, the marker is written when the write succeeds, expiry is kept, and the labels agree |
| `Tile.InstallationError` | 2.py:754-762 | only the status and progress bar change; a copy that created the destination leaves a partial executable |
| `Tile.Leftover` | 2.py:807 | `shutil.rmtree` deletes only inside the install directory: the older `<install_path>.exe` stays, the executable and marker can only disappear, and a full removal leaves neither |
| `Tile.UninstallClicked` | 2.py:802-820 | only an installed tile acts; a full removal makes it not installed with "Install" and an empty disk; a removal that raises leaves the tile as it was but keeps whatever was deleted; expiry, the update flag and the enabled flags never change |
| `Tile.UpdateApplication` | 2.py:894-912 | with a truthy version the disk is what removal leaves; a full removal clears the update flag and starts a new install; a removal that raises leaves the tile unchanged; a falsy version changes nothing |
| `Tile.UpdateShowsLaunchWhileCopying` | 2.py:894-912 | during an update the button already reads "Launch" while the executable is gone |
| `Tile.UninstallKeepsPendingUpdate` | 2.py:802-820 | after uninstalling a tile with a pending update, the button reads "Install" but a click takes the update path |
| `Tile.PartialUninstallOffersUpdate` | 2.py:807-820 | an uninstall that deletes `version.txt` and then raises leaves the tile saying installed, and a tile built later from disk offers "Update" |
| `Tile.PartialUninstallStrandsTile` | 2.py:807-820 | an uninstall that deletes the executable and then raises leaves the tile installed, with a click that never installs and no executable left |
| `Tile.NextPreserves` | 2.py:850-857 | one event of `Tile.Next` (the tile's dispatch of clicks and copy reports) keeps an expired tile's buttons disabled and never changes its expiry or version |
| `Tile.ExpiredTileStaysLocked` | 2.py:850-857 | over any event sequence run by `Tile.Run`, an expired tile stays locked and its expiry never changes |
| `Tile.ExpiredIgnoresClicks` | 2.py:850-857 | no sequence of button presses changes an expired tile or its disk |
| `Tile.InstallRoundTrip` | 2.py:884-892 | a tile rebuilt from the disk after an install agrees with the in-memory tile on flags, marker and status |
| `Tile.UninstallRoundTrip` | 2.py:802-820 | after uninstalling, a tile rebuilt from disk is not installed and offers "Install", as the in-memory tile does |
| `Tile.PartialCopyLooksInstalled` | 2.py:277 | a failed copy that created the destination makes a later tile count the app as installed |
| `Tile.LaunchAsWritten` | 2.py:781-800 | as written, the launch starts a process only for an unregistered BETA app, and crashes exactly when the date arithmetic raises (a NaT release date does not) |
| `Tile.NaTReleaseStillLaunches` | 2.py:785-796 | with a NaT release date the arithmetic gives NaT without raising, and an unregistered BETA app with its executable is started |
| `Tile.Launch` | 2.py:781-800 | as intended, every present executable is started (warned when unregistered BETA); a missing one gives the warning |
| `Tile.LaunchDiscrepancy` | 2.py:790-796 | the two agree on unregistered BETA apps; for every other app with the executable present, the code does nothing |
| `Tile.RegisteredProdAppNeverStarts` | 2.py:790-796 | a registered, installed PROD app: nothing happens as written, and it starts as intended |
| `ChunkedCopy.ChunkBound` | 2.py:279-284 | another chunk is read exactly while fewer than `size` bytes are copied, and the copied count is capped at the size |
| `ChunkedCopy.ErrorText` | 2.py:288-291 | a `FileNotFoundError` is reported by its own text; every other exception gets the "Installation error: " prefix |
| `ChunkedCopy.Copy` | 2.py:266-291 | the copy loop emits exactly `ChunkedCopy.Expected`, the chunk-by-chunk description: one percentage per chunk copied, then one terminal signal |
| `ChunkedCopy.OneTerminalSignal` | 2.py:266-291 | every run ends with exactly one finished or error signal, and everything before it is progress |
| `ChunkedCopy.MissingSourceReportsPath` | 2.py:272-273 | a missing source emits only its error, with no progress |
| `ChunkedCopy.ProgressMonotone` | 2.py:285 | the percentages lie in 0..100 and never decrease |
| `ChunkedCopy.CopiedMonotone` | 2.py:284 | the copied count never decreases and never exceeds the size |
| `ChunkedCopy.CompleteCopy` | 2.py:279-287 | a full copy emits ceil(size/1024) percentages, the last being 100, then finished; an empty file emits only finished |
| `ChunkedCopy.LastChunkIsHundred` | 2.py:285 | the last chunk reports exactly 100 |
| `ChunkedCopy.FailedCopy` | 2.py:279-291 | an exception at chunk c emits the c earlier percentages and its error text, and never finished |
| `ChunkedCopy.OpenFailure` | 2.py:275-277 | an exception in `getsize` or either `open` emits only its error, for every size including an empty file; bare for `FileNotFoundError`, prefixed otherwise |
| `ChunkedCopy.CloseFailure` | 2.py:277-291 | an exception when the files are closed comes after every percentage, 100 included, and replaces finished |
| `ChunkedCopy.TenThousandBytes` | 2.py:279-286 | a 10,000-byte file emits ten percentages from 10 to 100, then finished |
| `Worker.Perform` | PSLV_fixed.py:112-120 | reading the list succeeds exactly when the list is fetched; normalising fails, with the KeyError, exactly when the access column is absent |
| `Worker.Raise` | PSLV_fixed.py:103-105 | a site failure re-raised as `ConnectionError` is marked as one; otherwise the fault is kept |
| `Worker.Exec` | PSLV_fixed.py:81-157 | a run ends at some instruction, and finishes exactly when it reaches the end of the script |
| `Worker.ExecTicks` | PSLV_fixed.py:81-157 | a run has emitted exactly the progress of the instructions before the one it ended at |
| `Worker.ExecStops` | PSLV_fixed.py:82-153 | a stopped run ended at a checkpoint that sees the flag |
| `Worker.ExecRaises` | PSLV_fixed.py:81-157 | a raised run ended at a failing step, with that step's (possibly re-wrapped) fault, and every earlier step succeeded |
| `Worker.ExecSound` | PSLV_fixed.py:81-157 | the three facts above together |
| `Worker.ExecFinishes` | PSLV_fixed.py:81-157 | with no checkpoint seeing the flag and every step succeeding, the run finishes with all of the script's progress |
| `Worker.ExecAppend` | PSLV_fixed.py:81-157 | running a concatenation runs the first part and then, if it finished, the second |
| `Worker.ExecThree` | PSLV_fixed.py:81-157 | three scripts run in turn are their concatenation |
| `Worker.NoCheckpoints` | 1_fixed.py:80-122 | a script without checkpoints ignores the stop flag |
| `Worker.ExecTwo` | 1_fixed.py:80-122 | two checkpoint-free scripts run in turn are their concatenation |
| `Worker.TicksPrefix` | PSLV_fixed.py:81-157 | a run's progress is a prefix of the script's progress |
| `Worker.TicksWithin` | PSLV_fixed.py:81-157 | every progress value a run emits is one the script contains |
| `Refresh.FrontRun` | 2.py:54-65 | the first piece: connect message, open the site, first stop check |
| `Refresh.MiddleRun` | 2.py:67-74 | the second piece: fetch message, read the list, second stop check |
| `Refresh.BackRun` | 2.py:76-80 | the third piece: processing message, and a KeyError when the access column is absent |
| `Refresh.ScriptRuns` | 2.py:53-80 | the whole fetch runs as its case-by-case closed form, on which `Refresh.Run` builds the signals |
| `Refresh.Processed` | 2.py:78-84 | the processed frame keeps the columns (`reset_index(drop=True)`) and has at most twice the rows |
| `Refresh.Fallback` | 2.py:98-117 | a readable backup: that table, then "Loaded from backup due to connection error"; no backup: the empty catalog, then "No backup available. Please check your connection."; a read that raises: the empty catalog, then "Failed to refresh: " with the original fetch error, not the read error |
| `Refresh.RefreshSuccess` | 2.py:53-96 | an unstopped, successful fetch emits three messages and then the filtered table, and writes it exactly when the save succeeds |
| `Refresh.StopMeansSilence` | 2.py:64-74 | a run stopped at a checkpoint emits only progress messages and writes nothing |
| `Refresh.StopAtFirstCheckpoint` | 2.py:54-65 | a flag set before the first check leaves only the connect message |
| `Refresh.ExactlyOneTable` | 2.py:51-117 | unless stopped, a run emits exactly one table, after progress messages only |
| `Refresh.OnlyProgressTicks` | 2.py:54-76 | everything before the table is a progress message |
| `Refresh.SiteFailureFallsBack` | 2.py:98-117 | a site that cannot be opened gives the connect message and then the fallback, with nothing written |
| `Refresh.MissingColumnFallsBack` | 2.py:80 | a list without the access column raises KeyError and takes the fallback |
| `Refresh.BackupRoundTrip` | 2.py:87-104 | a later run that cannot reach the site, and reads back exactly the table an earlier run saved, shows that table |
| `Splash.FetchCostCentres` | PSLV_fixed.py:28-40 | the fetched table, or exactly the empty table with columns cost_center_code, cost_center_name, is_gfbm; it never raises (the same at 1_fixed.py:30-42) |
| `Splash.FetchUserData` | PSLV_fixed.py:43-58 | the fetched records, or exactly the empty table with columns sid, display_name, email, job_title, building_name, cost_center_id; it never raises (the same at 1_fixed.py:46-60) |
| `Splash.IndexedView` | PSLV_fixed.py:135 | `reset_index()` without `drop` adds a leading "index" column to the visible rows |
| `Splash.UpdateProgress` | PSLV_fixed.py:278-288 | the value and task are shown; the latch is set exactly when it was set or the value exceeds 20, and the button is shown once when it is first set |
| `Splash.CancelShownOnce` | 1_fixed.py:315-317 | over any sequence of values the latch is set exactly when some value exceeded 20, and the button has then been shown exactly once |
| `Splash.CancelShownFromStart` | PSLV_fixed.py:209-288 | from the screen as first shown (`can_cancel` false), the cancel button is shown once exactly when some value exceeds 20, and never otherwise |
| `Splash.LatchStaysSet` | PSLV_fixed.py:286-288 | once set, the latch stays set and the button is not shown again |
| `PslvLoader.ScriptTicks` | PSLV_fixed.py:91-155 | the script's progress is 5, 15, 35, 50, 70, 85, 100 |
| `PslvLoader.ProgressIncreases` | PSLV_fixed.py:91-155 | those percentages strictly increase within 0..100 |
| `PslvLoader.OnlyProgressTicks` | PSLV_fixed.py:91-155 | a run emits only progress before its table or error |
| `PslvLoader.ConnectRun` | PSLV_fixed.py:81-105 | checkpoints 0 to 2, the directory and the site, in closed form; a site failure is re-raised as `ConnectionError` |
| `PslvLoader.FetchRun` | PSLV_fixed.py:107-125 | checkpoints 3 to 5, the list read and the normalising, in closed form |
| `PslvLoader.SaveRun` | PSLV_fixed.py:131-155 | checkpoints 6 to 8 and the backup write, in closed form |
| `PslvLoader.ScriptRuns` | PSLV_fixed.py:81-155 | the whole script runs as the composed closed form, on which `PslvLoader.Run` builds the signals |
| `PslvLoader.LoadFromBackup` | PSLV_fixed.py:171-190 | the backup loader is total, with one table in every branch: a readable backup gives `Progress(100, "Loaded from backup")` and then the backup; a missing one gives the "No backup data available. Please check your connection." error and then the empty catalog; an unreadable one gives the empty catalog alone; the side tables are always empty |
| `PslvLoader.PslvSuccess` | PSLV_fixed.py:81-157 | the success path emits the seven progress steps, then the indexed view and the side tables, and writes the same view |
| `PslvLoader.SuccessTrace` | PSLV_fixed.py:81-155 | with every step succeeding and no stop, the script finishes with the seven progress steps |
| `PslvLoader.StopMeansSilence` | PSLV_fixed.py:82-153 | a stop seen at any checkpoint ends the run with no table and no error |
| `PslvLoader.EveryCheckpointStops` | PSLV_fixed.py:82-153 | each of the nine checkpoints, when it is the first to see the flag, stops an otherwise successful run |
| `PslvLoader.RunRaised` | PSLV_fixed.py:159-169 | a raised run emits its progress, the message chosen by the exception class, then the backup loader's signals |
| `PslvLoader.SiteFailure` | PSLV_fixed.py:102-105 | a site failure gives 5, 15, the connection message, then the backup loader |
| `PslvLoader.ListFailure` | PSLV_fixed.py:165-169 | any other list failure gives 5, 15, 35, the load message, then the backup loader |
| `PslvLoader.ExactlyOneTable` | PSLV_fixed.py:77-190 | unless cancelled, a run emits exactly one table |
| `PslvLoader.StopAfterSaveKeepsBackup` | PSLV_fixed.py:135-141 | a stop at checkpoint 7 emits no table but leaves the new backup written |
| `EnhancedLoader.HeadRun` | 1_fixed.py:83-98 | up to reading the list: the directory, the site and the list, in closed form |
| `EnhancedLoader.TailRun` | 1_fixed.py:101-120 | from normalising to the final progress, in closed form |
| `EnhancedLoader.ScriptRuns` | 1_fixed.py:80-122 | the whole script runs as its closed form, whatever the stop flag; `EnhancedLoader.Run` builds the signals on it |
| `EnhancedLoader.FinishesIff` | 1_fixed.py:80-122 | a run finishes exactly when the directory, site, list, access column and backup write all succeed |
| `EnhancedLoader.Recover` | 1_fixed.py:129-139 | a readable backup: progress 100 "Loaded from backup", then the table with two empty side tables; no backup: "No backup data available. Please check your connection.", then the empty catalog with two empty side tables; a read that raises: nothing, as it escapes the handler |
| `EnhancedLoader.EnhancedSuccess` | 1_fixed.py:80-122 | the success path emits 5, 15, 35, 60, 75, 85, 100, then the indexed view, and writes it |
| `EnhancedLoader.ProgressIncreases` | 1_fixed.py:89-120 | those percentages strictly increase within 0..100 |
| `EnhancedLoader.AnyFailureSameMessage` | 1_fixed.py:124-127 | every failure, whatever its class, emits the same message after its progress, then the fallback, and writes nothing |
| `EnhancedLoader.SaveFailureDiscardsRows` | 1_fixed.py:111-114 | a failed backup write after a good fetch discards the fetched rows and takes the fallback |
| `EnhancedLoader.SiteFailure` | 1_fixed.py:92-93 | a site failure gives 5, 15, the message, then the fallback |
| `EnhancedLoader.DirectoryFailure` | 1_fixed.py:83 | a directory that cannot be made fails before any progress |
| `EnhancedLoader.OnlyProgressTicks` | 1_fixed.py:89-120 | a run emits only progress before its table or error |
| `EnhancedLoader.TablesLoaded` | 1_fixed.py:124-139 | a run loads exactly one table, except a failed run with an unreadable backup, which loads none |
| `Retry.Backoff` | 4.py:282 | the sleeps before each retry are 1, 2, 4, ... seconds |
| `Retry.BackoffTotal` | 4.py:282 | the sleeps before attempt n add up to 2^n - 1 seconds |
| `Retry.WriteStep` | 4.py:327-336 | after the site opens: a failing `site.List` lookup is reported first; then a user record with fewer than six fields raises IndexError; otherwise the list update's outcome |
| `Retry.ShortRecordLookupFailure` | 4.py:138-146 | a short user record with a failing list lookup reports the lookup's fault, not the IndexError |
| `Retry.AttemptResult` | 4.py:266-279 | an attempt succeeds exactly when opening the site and the write both succeed |
| `Retry.FirstDone` | 4.py:265-279 | the first succeeding attempt from a given one, or 3 when none succeeds |
| `Retry.SyncRetry` | 4.py:261-282 | at most three attempts, stopping at the first success; the sleeps are 1 s and 2 s between failures; the last failure is re-raised |
| `Retry.CancellableRetry` | 4.py:61-89 | the cancellable loop, also `_add_user_with_retry` at lines 123-159: returns False without writing when the flag is seen; writes exactly on True; raises only after three failures |
| `Retry.RunWorker` | 4.py:44-59 | nothing when cancelled at the start; otherwise `finished(True)`, or the error followed by `finished(False)`; never a lone `finished(False)` (also `AsyncUserAdder.run` at lines 106-121) |
| `Retry.Classify` | 4.py:250-258 | a message is a connection problem exactly when its lower-cased text mentions "connection" or "timeout" |
| `Retry.FriendlyMessages` | 4.py:250-258 | `Retry.Friendly`, from the text alone: "connection" or "timeout" gives the connection message; otherwise "authentication" gives the authentication message; otherwise a text without "auth" gives the generic prefix and the original text |
| `Retry.ActionAuthIsAuth` | 4.py:253-256 | for the action log, authentication exactly when it mentions "auth" and no connection problem |
| `Retry.UserAuthIsAuthentication` | 4.py:308-311 | for the user writer, authentication exactly when it mentions "authentication" and no connection problem |
| `Retry.UserAuthImpliesActionAuth` | 4.py:308-311 | a user-write authentication failure is one for the action log too |
| `Retry.CaseInsensitive` | 4.py:252 | classification ignores case |
| `Retry.UnauthorizedDiffers` | 4.py:255 | "unauthorized" is an authentication failure for the action log, but gets the generic message from the user writer |
| `Retry.Submit` | 4.py:230-258 | on the GUI thread nothing is raised; otherwise the friendly message of the last failure is raised exactly when all three attempts fail |
| `Config.Clean` | 4.py:374 | dropping the blank pieces never lengthens the list |
| `Config.KeptFrom` | 4.py:374 | the indices of the non-blank pieces, strictly increasing, each pointing at a non-blank piece |
| `Config.KeptFromCovers` | 4.py:374 | every non-blank piece's index is among them |
| `Config.CleanInOrder` | 4.py:374 | the k-th cleaned user is the k-th non-blank piece, stripped, so every non-blank piece is kept in order and no other |
| `Config.CleanCons` | 4.py:374 | a leading piece is kept, stripped, exactly when it is not blank |
| `Config.CleanPiecesStripped` | 4.py:374 | every kept piece is non-empty and stripped |
| `Config.CleanKeepsOut` | 4.py:374 | cleaning introduces no character the pieces did not have |
| `Config.SplitUser` | 4.py:371-376 | a non-string or blank value gives []; for a string, the k-th user is the k-th non-blank piece of `split(';')`, stripped, so users come back in input order; every user is non-empty, stripped and free of ';' |
| `Config.SplitUserCleans` | 4.py:371-376 | a non-blank string gives the cleaned pieces of its `split(';')` |
| `Config.AliceThenBob` | 4.py:371-376 | `"alice; bob"` gives `["alice", "bob"]` |
| `Config.SplitUserRoundTrip` | 4.py:371-376 | clean names joined with ';' split back into the same names, in order |
| `Config.CleanKeepsCleanNames` | 4.py:374 | already-clean names survive cleaning unchanged |
| `Config.MissingNames` | 4.py:389-392 | the missing settings: empty exactly when none is missing, and a name is listed exactly when its value is falsy or blank |
| `Config.MissingFrom` | 4.py:389-390 | the indices of the missing settings, strictly increasing, each missing one included |
| `Config.MissingNamesInOrder` | 4.py:389-392 | the k-th reported name is the name of the k-th missing setting, so the message lists them in dict order |
| `Config.Required` | 4.py:381-387 | the five settings that are checked |
| `Config.ValidateConfiguration` | 4.py:379-398 | True exactly when nothing is missing; otherwise the error names every missing setting, comma-separated |
| `Config.ShippedConfiguration` | 4.py:468-472 | with the constants at lines 426-432, the check at import reports exactly SITE_URL as missing |

## Left out

- Qt widgets, styling, animations, dialogs and message boxes are not modelled.
  Only the texts and enabled flags the rules set are kept.
- `outlook_dashboard.py`, `rocket.py` and `Newp.py` are not part of this model.
  `Newp.py`'s fallback is the same as `1_fixed.py:124-139`.
- Thread start, quit, wait and terminate are not modelled, nor are
  `cancelLoading`, the thread pool, or which thread emits what. Signals are
  the sequence one run emits.
- SharePoint, NTLM, Excel and file-system calls are not modelled, nor are
  `os.startfile` and `LauncherSecurity`. They become step outcomes given as
  parameters.
- The payloads written by the retry helpers are not modelled, nor is the
  success `print` in `_add_new_user_to_userbase_sync`.
- The `return False` after the retry loops (`4.py:89`, `4.py:159`) cannot be
  reached, because the last attempt always returns or raises.
- The `except` around the side-table fetches (`PSLV_fixed.py:147-150`) is dead
  code, because both fetchers catch everything.
- The values of the "index" column are not modelled. The view records only
  that the column is added.
- `Refresh.BackupRoundTrip`: the Excel write and read are taken as the
  identity. `read_excel` can return a different table; for example, empty
  cells come back as NaN.
- `ChunkedCopy.Expected`: percentages are the exact floor of copied*100/size. The
  source computes `int((copied / total) * 100)` in floating point, which can
  come out one lower for some sizes.
- `Text.Lower`: only ASCII capitals are lowered. Python lowers every cased
  Unicode character.
- `Catalog.Keep`: `str.contains` is read as a plain substring test. Pandas reads
  its argument as a regular expression.
- `Text.Strip`: the contract does not say that the result is a contiguous
  substring of the input.
- `Ordering.SortExpiredLast`: it is an insertion sort, not pandas' lexsort.
  Its own contract says only that the result is sorted and a permutation. Rows
  with equal keys keep their input order, as in pandas' multi-column sort; the
  lemma `Ordering.SortStable` states that.
- `Config.Clean`: its own contract only bounds the length. Which pieces are
  kept, and in what order, is stated by `Config.CleanInOrder` and in the
  contract of `Config.SplitUser`.
- `Expiry.ExpiresAt`: validity periods are whole days. The period cell is
  passed to `timedelta(days=...)` unconverted (`2.py:1632`, `2.py:828`,
  `4.py:364`), and `timedelta` also accepts a fractional number of days: a
  7.5-day period expires 648000 seconds after release. The model cannot express
  such a period.
- `Expiry.CheckValidity`: pandas timestamp range limits are not modelled, and
  neither is timezone handling. Dates are whole seconds.
- NaN cells other than the access cell are not modelled, nor is NaN identity
  in `registration_id is np.nan`. The latter is a boolean input.
- The directory creation inside `install_application` (`2.py:744`) is not
  modelled. The model treats it as always succeeding.
  - On a plain install its failure would escape the click handler.
  - On the update path, `update_application` calls `install_application` inside
    its `try` (`2.py:906`), so the failure is caught there and an "Update Error"
    dialog is shown (`2.py:911-912`). By then the removal has run, and the tile
    already shows "Installing..." and the progress bar (`2.py:738-740`).
    `update_available` stays true, because `2.py:908` is skipped.
- The finished signal declared by `InstallThread` shadows `QThread.finished`.
  The model treats it as the one terminal signal, as the tile connects it.

## Findings

| source | as written | input that shows it | evidently intended | confidence | as-written member | corrected member |
|---|---|---|---|---|---|---|
| 2.py:790-796 | `os.startfile` and the launch token sit inside `if registration_id is np.nan and environment == 'BETA'`, so only unregistered BETA applications are ever started | a registered, installed PROD application whose executable exists: pressing Launch shows nothing and starts nothing | the warning is conditional, and every present executable is started | not executed | `Tile.LaunchAsWritten`, `Tile.RegisteredProdAppNeverStarts` | `Tile.Launch`, `Tile.LaunchDiscrepancy` |
