/** The application tile: what it reads from disk when it is built, the label and
    enabled state it shows (expired, then update, then launch, then install), what
    its main button does, and how installing, updating and uninstalling change it. */
module Tile {
  import opened Wrappers
  import Expiry

  /** The per-install `version.txt`: absent, present but not a number, or a number. */
  datatype VersionFile = NoFile | Unparsable | Holds(version: real)

  /** What the tile can see on disk: `<install_path>\<name>.exe`, the older
      `<install_path>.exe` location, and the version marker. */
  datatype Disk = Disk(exePresent: bool, legacyExePresent: bool, versionFile: VersionFile)

  /** The widgets' state: main button text, status text, the two buttons' enabled
      flags, and whether the progress bar is shown. */
  datatype Display = Display(buttonText: string, statusText: string,
                             buttonEnabled: bool, uninstallEnabled: bool, progressVisible: bool)

  /** The in-memory tile. `version` is the catalog's version number. */
  datatype Tile = Tile(environment: string, version: real, window: Expiry.Window,
                       installed: bool, installedVersion: Option<real>,
                       expired: bool, updateAvailable: bool, display: Display)

  /** A tile together with the disk it manages. */
  datatype World = World(tile: Tile, disk: Disk)

  /** The widgets as `setup_front_ui` creates them. */
  const InitialDisplay: Display := Display("Install", "Not Installed", true, true, false)

  /** `get_installed_version`: the marker's number, or None when the file is
      missing or does not parse. */
  function InstalledVersion(f: VersionFile): (r: Option<real>)
    ensures r.Some? <==> f.Holds?
    ensures r.Some? ==> r.value == f.version
  {
    match f
    case Holds(v) => Some(v)
    case _ => None
  }

  /** `check_update_available`. A version number of 0.0 is falsy in Python and
      means "no update". */
  function CheckUpdateAvailable(version: real, installed: bool, f: VersionFile): bool
  {
    if version != 0.0 && installed then
      match InstalledVersion(f)
      case None => true
      case Some(v) => version > v
    else false
  }

  /** The update rule, case by case: never when not installed or when the
      catalog version is 0.0; always when installed and the marker is unusable;
      otherwise exactly when the catalog version is newer. */
  lemma UpdateRule(version: real, installed: bool, f: VersionFile)
    ensures !installed || version == 0.0 ==> !CheckUpdateAvailable(version, installed, f)
    ensures installed && version != 0.0 && !f.Holds? ==> CheckUpdateAvailable(version, installed, f)
    ensures installed && version != 0.0 && f.Holds? ==>
      (CheckUpdateAvailable(version, installed, f) <==> version > f.version)
  {
  }

  /** An installed version equal to the catalog's never asks for an update. */
  lemma SameVersionNoUpdate(version: real, installed: bool)
    ensures !CheckUpdateAvailable(version, installed, Holds(version))
  {
  }

  /** The status text of an expired tile. */
  function ExpiredText(environment: string): string {
    if environment == "PROD" then "Application Expired" else "UAT Period Expired"
  }

  /** `update_button_states`, in priority order. An expired tile only gets its
      status text and both buttons disabled; the main button's text is left as it
      was. Otherwise the texts follow update, then installed, then not installed,
      and the enabled flags are left as they were. */
  function UpdateButtonStates(t: Tile): (r: Tile)
    ensures r.(display := t.display) == t
    ensures r.display.progressVisible == t.display.progressVisible
    ensures t.expired ==> r.display.buttonText == t.display.buttonText
                           && r.display.statusText == ExpiredText(t.environment)
                           && !r.display.buttonEnabled && !r.display.uninstallEnabled
    ensures !t.expired ==> r.display.buttonEnabled == t.display.buttonEnabled
                            && r.display.uninstallEnabled == t.display.uninstallEnabled
  {
    var d := t.display;
    if t.expired then
      t.(display := d.(statusText := ExpiredText(t.environment), buttonEnabled := false, uninstallEnabled := false))
    else if t.updateAvailable then
      t.(display := d.(buttonText := "Update", statusText := "Update Available"))
    else if t.installed then
      t.(display := d.(buttonText := "Launch", statusText := "Ready for Launch"))
    else
      t.(display := d.(buttonText := "Install", statusText := "Not Installed"))
  }

  /** The texts a non-expired tile should show for its flags. */
  function Labels(t: Tile): (string, string) {
    if t.updateAvailable then ("Update", "Update Available")
    else if t.installed then ("Launch", "Ready for Launch")
    else ("Install", "Not Installed")
  }

  /** The display agrees with the tile's flags. */
  predicate Consistent(t: Tile) {
    if t.expired then t.display.statusText == ExpiredText(t.environment)
    else (t.display.buttonText, t.display.statusText) == Labels(t)
  }

  /** After `update_button_states` the display agrees with the flags, and when
      expired it no longer depends on the install flags at all. */
  lemma ButtonStatesConsistent(t: Tile, installed: bool, updateAvailable: bool)
    ensures Consistent(UpdateButtonStates(t))
    ensures t.expired ==>
      UpdateButtonStates(t.(installed := installed, updateAvailable := updateAvailable)).display
      == UpdateButtonStates(t).display
  {
  }

  /** The `ApplicationTile` constructor: read the marker, test for the executable,
      compute expiry and update flags, then (at the end of `setup_front_ui`)
      treat the older `<install_path>.exe` as installed too, and show the states.
      The update flag is computed before that last step. */
  function NewTile(environment: string, version: real, window: Expiry.Window, now: int, disk: Disk): (t: Tile)
    ensures t.expired == Expiry.CheckValidity(window, now)
    ensures t.installed == (disk.exePresent || disk.legacyExePresent)
    ensures t.updateAvailable == CheckUpdateAvailable(version, disk.exePresent, disk.versionFile)
    ensures t.installedVersion == InstalledVersion(disk.versionFile)
    ensures Consistent(t)
    ensures t.expired <==> !t.display.buttonEnabled
    ensures !t.display.progressVisible
  {
    var t0 := Tile(environment, version, window, disk.exePresent, InstalledVersion(disk.versionFile),
                   Expiry.CheckValidity(window, now),
                   CheckUpdateAvailable(version, disk.exePresent, disk.versionFile),
                   InitialDisplay);
    var t1 := if disk.legacyExePresent then t0.(installed := true) else t0;
    UpdateButtonStates(t1)
  }

  /** An app found only at the older location is shown as ready to launch, never
      as needing an update, whatever its version marker says. */
  lemma LegacyInstallNeverUpdates(environment: string, version: real, window: Expiry.Window, now: int, disk: Disk)
    requires disk.legacyExePresent && !disk.exePresent
    requires !Expiry.CheckValidity(window, now)
    ensures NewTile(environment, version, window, now, disk).display.buttonText == "Launch"
  {
  }

  /** What the main button does. */
  datatype Action = UpdateAction | InstallAction | LaunchAction

  /** `on_install_launch_clicked`: update if an update is available, else install
      if not installed, else launch. */
  function Click(t: Tile): (a: Action)
    ensures a == UpdateAction <==> t.updateAvailable
    ensures a == InstallAction <==> !t.updateAvailable && !t.installed
    ensures a == LaunchAction <==> !t.updateAvailable && t.installed
  {
    if t.updateAvailable then UpdateAction
    else if !t.installed then InstallAction
    else LaunchAction
  }

  /** On a tile whose display agrees with its flags, the button does what its
      label says. */
  lemma ClickMatchesLabel(t: Tile)
    requires !t.expired && Consistent(t)
    ensures t.display.buttonText == "Update" <==> Click(t) == UpdateAction
    ensures t.display.buttonText == "Install" <==> Click(t) == InstallAction
    ensures t.display.buttonText == "Launch" <==> Click(t) == LaunchAction
  {
  }

  /** `install_application`: show the progress bar and "Installing...", then start
      the copy thread (its result arrives later as `CopyFinished` or `CopyFailed`). */
  function InstallApplication(w: World): (r: World)
    ensures r.disk == w.disk
    ensures r.tile == w.tile.(display := w.tile.display.(statusText := "Installing...", progressVisible := true))
  {
    w.(tile := w.tile.(display := w.tile.display.(statusText := "Installing...", progressVisible := true)))
  }

  /** `installation_finished`: the executable is in place, the marker is written
      when `markerWritten` (a failed write is only printed), and the tile becomes
      installed at the catalog version with no update pending. */
  function InstallationFinished(w: World, markerWritten: bool): (r: World)
    ensures r.tile.installed && r.tile.installedVersion == Some(w.tile.version) && !r.tile.updateAvailable
    ensures r.tile.expired == w.tile.expired && r.tile.version == w.tile.version
    ensures r.disk.exePresent && r.disk.legacyExePresent == w.disk.legacyExePresent
    ensures markerWritten ==> r.disk.versionFile == Holds(w.tile.version)
    ensures !markerWritten ==> r.disk.versionFile == w.disk.versionFile
    ensures Consistent(r.tile) && !r.tile.display.progressVisible
  {
    var disk := w.disk.(exePresent := true,
                        versionFile := if markerWritten then Holds(w.tile.version) else w.disk.versionFile);
    var t := UpdateButtonStates(w.tile.(installed := true, installedVersion := Some(w.tile.version),
                                        updateAvailable := false));
    World(t.(display := t.display.(progressVisible := false)), disk)
  }

  /** `installation_error`: hide the progress bar and report the failure. When the
      copy had already created the destination file, a partial executable stays
      on disk. */
  function InstallationError(w: World, destinationCreated: bool): (r: World)
    ensures r.tile == w.tile.(display := w.tile.display.(statusText := "Installation Failed", progressVisible := false))
    ensures r.disk.exePresent == (w.disk.exePresent || destinationCreated)
    ensures r.disk.(exePresent := w.disk.exePresent) == w.disk
  {
    World(w.tile.(display := w.tile.display.(statusText := "Installation Failed", progressVisible := false)),
          w.disk.(exePresent := w.disk.exePresent || destinationCreated))
  }

  /** What `shutil.rmtree` of the install directory does: remove all of it, or
      raise part way, having deleted some of the executable and the marker. */
  datatype Removal = Removed | Partial(exeKept: bool, markerKept: bool)

  /** The disk after the install directory is (partly) removed. The older
      `<install_path>.exe` lies outside the directory and is never touched. */
  function Leftover(d: Disk, removal: Removal): (r: Disk)
    ensures r.legacyExePresent == d.legacyExePresent
    ensures r.exePresent ==> d.exePresent
    ensures r.versionFile == d.versionFile || r.versionFile == NoFile
    ensures removal.Removed? ==> !r.exePresent && r.versionFile == NoFile
  {
    match removal
    case Removed => d.(exePresent := false, versionFile := NoFile)
    case Partial(exeKept, markerKept) =>
      d.(exePresent := d.exePresent && exeKept, versionFile := if markerKept then d.versionFile else NoFile)
  }

  /** `on_uninstall_clicked`: only an installed tile acts. When the install
      directory is removed the tile becomes not installed and shows "Install";
      when removal raises only a warning is shown, whatever it deleted. The update
      flag is untouched. */
  function UninstallClicked(w: World, removal: Removal): (r: World)
    ensures !w.tile.installed ==> r == w
    ensures w.tile.installed ==> r.disk == Leftover(w.disk, removal)
    ensures w.tile.installed && removal.Partial? ==> r.tile == w.tile
    ensures w.tile.installed && removal.Removed? ==>
      && !r.tile.installed
      && r.tile.display.buttonText == "Install" && r.tile.display.statusText == "Not Installed"
      && r.disk == Disk(false, w.disk.legacyExePresent, NoFile)
    ensures r.tile.expired == w.tile.expired && r.tile.updateAvailable == w.tile.updateAvailable
    ensures r.tile.display.buttonEnabled == w.tile.display.buttonEnabled
    ensures r.tile.display.uninstallEnabled == w.tile.display.uninstallEnabled
  {
    if !w.tile.installed then w
    else if removal.Partial? then w.(disk := Leftover(w.disk, removal))
    else
      World(w.tile.(installed := false,
                    display := w.tile.display.(statusText := "Not Installed", buttonText := "Install")),
            Leftover(w.disk, removal))
  }

  /** `update_application`: with a truthy catalog version, remove the install
      directory, start a fresh install, clear the update flag and refresh the
      states. When removal raises, an error dialog is shown and the tile is
      unchanged, but whatever was deleted stays deleted. */
  function UpdateApplication(w: World, removal: Removal): (r: World)
    ensures w.tile.version == 0.0 ==> r == w
    ensures w.tile.version != 0.0 ==> r.disk == Leftover(w.disk, removal)
    ensures w.tile.version != 0.0 && removal.Partial? ==> r.tile == w.tile
    ensures w.tile.version != 0.0 && removal.Removed? ==>
      && !r.tile.updateAvailable && r.tile.installed == w.tile.installed
      && r.disk == Disk(false, w.disk.legacyExePresent, NoFile)
      && r.tile.display.progressVisible
    ensures r.tile.expired == w.tile.expired
  {
    if w.tile.version == 0.0 then w
    else if removal.Partial? then w.(disk := Leftover(w.disk, removal))
    else
      var w1 := InstallApplication(w.(disk := Leftover(w.disk, removal)));
      w1.(tile := UpdateButtonStates(w1.tile.(updateAvailable := false)))
  }

  /** Clicking Update on an installed, non-expired tile shows "Launch" while the new
      copy is still running and the old executable is already gone. */
  lemma UpdateShowsLaunchWhileCopying(w: World)
    requires w.tile.installed && !w.tile.expired && w.tile.version != 0.0
    ensures UpdateApplication(w, Removed).tile.display.buttonText == "Launch"
    ensures !UpdateApplication(w, Removed).disk.exePresent
  {
  }

  /** After uninstalling a tile with a pending update, the button reads "Install"
      but a click still dispatches to the update path. */
  lemma UninstallKeepsPendingUpdate(w: World)
    requires w.tile.installed && w.tile.updateAvailable
    ensures UninstallClicked(w, Removed).tile.display.buttonText == "Install"
    ensures Click(UninstallClicked(w, Removed).tile) == UpdateAction
  {
  }

  /** What the user does, and what the copy thread reports. */
  datatype Event =
    | PressMain(removal: Removal)        // main button; `removal` is used on the update path
    | PressUninstall(removal: Removal)
    | CopyFinished(markerWritten: bool)
    | CopyFailed(destinationCreated: bool)

  /** One event. A disabled button delivers no click. Launching changes nothing
      in the tile. */
  function Next(w: World, e: Event): World
  {
    match e
    case PressMain(removal) =>
      if !w.tile.display.buttonEnabled then w
      else (match Click(w.tile)
            case UpdateAction => UpdateApplication(w, removal)
            case InstallAction => InstallApplication(w)
            case LaunchAction => w)
    case PressUninstall(removal) =>
      if !w.tile.display.uninstallEnabled then w else UninstallClicked(w, removal)
    case CopyFinished(written) => InstallationFinished(w, written)
    case CopyFailed(created) => InstallationError(w, created)
  }

  function Run(w: World, events: seq<Event>): World
    decreases |events|
  {
    if events == [] then w else Run(Next(w, events[0]), events[1..])
  }

  /** An expired tile keeps both buttons disabled through any event. */
  predicate Locked(t: Tile) {
    t.expired ==> !t.display.buttonEnabled && !t.display.uninstallEnabled
  }

  lemma NextPreserves(w: World, e: Event)
    requires Locked(w.tile)
    ensures Locked(Next(w, e).tile)
    ensures Next(w, e).tile.expired == w.tile.expired
    ensures Next(w, e).tile.version == w.tile.version
  {
  }

  /** Whatever happens after a tile is built, its expiry flag never changes and an
      expired tile's buttons stay disabled, so it can never be installed, updated,
      uninstalled or launched from the tile. */
  lemma {:induction false} ExpiredTileStaysLocked(w: World, events: seq<Event>)
    requires Locked(w.tile)
    ensures Locked(Run(w, events).tile)
    ensures Run(w, events).tile.expired == w.tile.expired
    decreases |events|
  {
    if events != [] {
      NextPreserves(w, events[0]);
      ExpiredTileStaysLocked(Next(w, events[0]), events[1..]);
    }
  }

  predicate IsPress(e: Event) {
    e.PressMain? || e.PressUninstall?
  }

  /** An expired tile ignores every click: no sequence of button presses changes
      the tile or the disk. */
  lemma {:induction false} ExpiredIgnoresClicks(w: World, events: seq<Event>)
    requires w.tile.expired && Locked(w.tile)
    requires forall k :: 0 <= k < |events| ==> IsPress(events[k])
    ensures Run(w, events) == w
    decreases |events|
  {
    if events != [] {
      assert IsPress(events[0]);
      assert Next(w, events[0]) == w;
      ExpiredIgnoresClicks(w, events[1..]);
    }
  }

  /** The tile the launcher would build for the same entry from `w`'s disk. */
  function Rebuilt(w: World, now: int): Tile {
    NewTile(w.tile.environment, w.tile.version, w.tile.window, now, w.disk)
  }

  /** A finished install agrees with what the tile would read back from disk:
      rebuilding the tile from the new disk gives the same flags and labels. */
  lemma InstallRoundTrip(w: World, now: int)
    requires w.tile.expired == Expiry.CheckValidity(w.tile.window, now)
    ensures Rebuilt(InstallationFinished(w, true), now).installed == InstallationFinished(w, true).tile.installed
    ensures Rebuilt(InstallationFinished(w, true), now).updateAvailable == InstallationFinished(w, true).tile.updateAvailable
    ensures Rebuilt(InstallationFinished(w, true), now).installedVersion == InstallationFinished(w, true).tile.installedVersion
    ensures Rebuilt(InstallationFinished(w, true), now).display.statusText == InstallationFinished(w, true).tile.display.statusText
  {
  }

  /** After a successful uninstall, a tile rebuilt from disk is not installed
      (unless the older executable location is still occupied) and offers "Install". */
  lemma UninstallRoundTrip(w: World, now: int)
    requires w.tile.installed && !w.disk.legacyExePresent
    requires !Expiry.CheckValidity(w.tile.window, now)
    ensures !Rebuilt(UninstallClicked(w, Removed), now).installed && !UninstallClicked(w, Removed).tile.installed
    ensures Rebuilt(UninstallClicked(w, Removed), now).display.buttonText == "Install"
    ensures UninstallClicked(w, Removed).tile.display.buttonText == "Install"
  {
  }

  /** An uninstall that deletes the marker and then raises leaves the tile saying
      installed; a tile built later from the disk offers "Update". */
  lemma PartialUninstallOffersUpdate(w: World, now: int)
    requires w.tile.installed && w.disk.exePresent && w.tile.version != 0.0
    requires !Expiry.CheckValidity(w.tile.window, now)
    ensures UninstallClicked(w, Partial(true, false)).tile == w.tile
    ensures Rebuilt(UninstallClicked(w, Partial(true, false)), now).updateAvailable
    ensures Rebuilt(UninstallClicked(w, Partial(true, false)), now).display.buttonText == "Update"
  {
  }

  /** An uninstall that deletes the executable and then raises leaves the tile
      saying installed, with nothing left to launch. */
  lemma PartialUninstallStrandsTile(w: World)
    requires w.tile.installed
    ensures UninstallClicked(w, Partial(false, true)).tile.installed
    ensures !UninstallClicked(w, Partial(false, true)).disk.exePresent
    ensures Click(UninstallClicked(w, Partial(false, true)).tile) != InstallAction
  {
  }

  /** A copy that fails after creating the destination leaves a partial
      executable, and a tile built later treats the app as installed. */
  lemma PartialCopyLooksInstalled(w: World, now: int)
    requires !w.disk.exePresent
    ensures Rebuilt(InstallationError(w, true), now).installed
  {
  }

  /** What pressing Launch leads to. */
  datatype LaunchOutcome =
    | Crashed                  // the expiry arithmetic before the `try` raised
    | ExeMissing               // "Application executable not found" warning
    | Started(warned: bool)    // the executable was started, after the IA Hub warning or not
    | LaunchFailed             // token generation or start raised; an error dialog is shown
    | NothingHappened          // no dialog and no process

  /** `launch_application` as written. The days-remaining arithmetic runs outside
      the `try`, so a malformed date field escapes; a NaT release date gives NaT
      and does not raise. The start call sits inside the
      branch for an unregistered BETA app, so only those apps are ever started.
      `unregistered` is the source's `registration_id is np.nan` test; `startOk`
      says whether generating the token and starting the process succeed. */
  function LaunchAsWritten(t: Tile, disk: Disk, unregistered: bool, startOk: bool): (r: LaunchOutcome)
    ensures r.Started? ==> unregistered && t.environment == "BETA" && r.warned
    ensures Expiry.ExpiresAt(t.window).Fails? <==> r == Crashed
  {
    if Expiry.ExpiresAt(t.window).Fails? then Crashed
    else if !disk.exePresent then ExeMissing
    else if unregistered && t.environment == "BETA" then
      (if startOk then Started(true) else LaunchFailed)
    else NothingHappened
  }

  /** A NaT release date does not raise: an unregistered BETA app with its
      executable present is started as written. */
  lemma NaTReleaseStillLaunches(t: Tile, disk: Disk)
    requires t.window.release.NaT? && t.window.validityDays.Parsed?
    requires disk.exePresent && t.environment == "BETA"
    ensures LaunchAsWritten(t, disk, true, true) == Started(true)
  {
  }

  /** The evident intent: warn unregistered BETA apps, and start every installed
      executable. */
  function Launch(t: Tile, disk: Disk, unregistered: bool, startOk: bool): (r: LaunchOutcome)
    ensures !Expiry.ExpiresAt(t.window).Fails? && disk.exePresent && startOk ==>
      r == Started(unregistered && t.environment == "BETA")
    ensures !Expiry.ExpiresAt(t.window).Fails? && !disk.exePresent ==> r == ExeMissing
    ensures r != NothingHappened
  {
    if Expiry.ExpiresAt(t.window).Fails? then Crashed
    else if !disk.exePresent then ExeMissing
    else if startOk then Started(unregistered && t.environment == "BETA")
    else LaunchFailed
  }

  /** The two agree on an unregistered BETA app, and differ on every other app
      whose executable is present: as written, nothing is launched. */
  lemma LaunchDiscrepancy(t: Tile, disk: Disk, unregistered: bool, startOk: bool)
    requires !Expiry.ExpiresAt(t.window).Fails? && disk.exePresent
    ensures unregistered && t.environment == "BETA" ==>
      LaunchAsWritten(t, disk, unregistered, startOk) == Launch(t, disk, unregistered, startOk)
    ensures !(unregistered && t.environment == "BETA") ==>
      LaunchAsWritten(t, disk, unregistered, startOk) == NothingHappened
  {
  }

  /** A registered, installed PROD app: as written, pressing Launch does nothing;
      as intended, it starts. */
  lemma RegisteredProdAppNeverStarts()
    ensures var t := Tile("PROD", 1.0, Expiry.Window(Expiry.At(1672531200), Expiry.Parsed(30)),
                          true, Some(1.0), false, false, InitialDisplay);
      LaunchAsWritten(t, Disk(true, false, Holds(1.0)), false, true) == NothingHappened
      && Launch(t, Disk(true, false, Holds(1.0)), false, true) == Started(false)
  {
  }
}
