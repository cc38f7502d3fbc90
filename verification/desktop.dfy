/** The desktop screen: three window records (settings, file manager, browser), the
    theme and the accent colour, with the callbacks the windows and the taskbar
    invoke. The step functions on `DesktopState` say what each callback does to the
    records; the `Desktop` class holds the same state and, in addition, the window
    components that are mounted exactly while their record is open. */
module Desktop {
  import opened Optional
  import opened Geometry
  import opened SettingsWindow
  import DragControl
  import BrowserWindow

  datatype AppId = SettingsApp | FilesApp | BrowserApp

  /** The id string an application is opened by and listed under. */
  function AppIdString(a: AppId): string
  {
    match a
    case SettingsApp => "settings"
    case FilesApp => "files"
    case BrowserApp => "browser"
  }

  /** The application an id string names, if any. */
  function ParseAppId(s: string): (r: Option<AppId>)
    ensures r.Some? ==> AppIdString(r.value) == s
  {
    if s == "settings" then Some(SettingsApp)
    else if s == "files" then Some(FilesApp)
    else if s == "browser" then Some(BrowserApp)
    else None
  }

  /** Every application's id string names it back, and the three strings differ. */
  lemma AppIdRoundTrip(a: AppId, b: AppId)
    ensures ParseAppId(AppIdString(a)) == Some(a)
    ensures AppIdString(a) == AppIdString(b) ==> a == b
  {
    assert AppIdString(a)[0] == AppIdString(b)[0] ==> a == b;
  }

  /** Position of an application in the fixed order settings, files, browser. */
  function Rank(a: AppId): int
  {
    match a
    case SettingsApp => 0
    case FilesApp => 1
    case BrowserApp => 2
  }

  datatype WindowState = WindowState(isOpen: bool, isFullscreen: bool, position: Point)

  datatype DesktopState = DesktopState(
    settingsWindow: WindowState,
    fileManagerWindow: WindowState,
    browserWindow: WindowState,
    theme: Theme,
    accentColor: string)

  const InitialAccent: string := "#7AD0BD"

  /** All windows closed and windowed at their default positions, dark theme, teal accent. */
  function InitialState(): DesktopState
  {
    DesktopState(
      WindowState(false, false, Point(100, 50)),
      WindowState(false, false, Point(150, 100)),
      WindowState(false, false, Point(80, 30)),
      Dark,
      InitialAccent)
  }

  function Window(d: DesktopState, a: AppId): WindowState
  {
    match a
    case SettingsApp => d.settingsWindow
    case FilesApp => d.fileManagerWindow
    case BrowserApp => d.browserWindow
  }

  function WithWindow(d: DesktopState, a: AppId, w: WindowState): DesktopState
  {
    match a
    case SettingsApp => d.(settingsWindow := w)
    case FilesApp => d.(fileManagerWindow := w)
    case BrowserApp => d.(browserWindow := w)
  }

  /** `handleOpenApp(appId)`: the matching record is marked open; any other string
      changes nothing. */
  function OpenedApp(d: DesktopState, appId: string): DesktopState
  {
    if appId == "settings" then d.(settingsWindow := d.settingsWindow.(isOpen := true))
    else if appId == "files" then d.(fileManagerWindow := d.fileManagerWindow.(isOpen := true))
    else if appId == "browser" then d.(browserWindow := d.browserWindow.(isOpen := true))
    else d
  }

  /** `onClose`. */
  function Closed(d: DesktopState, a: AppId): DesktopState
  {
    WithWindow(d, a, Window(d, a).(isOpen := false))
  }

  /** `onToggleFullscreen`. */
  function FullscreenToggled(d: DesktopState, a: AppId): DesktopState
  {
    WithWindow(d, a, Window(d, a).(isFullscreen := !Window(d, a).isFullscreen))
  }

  /** `onPositionChange(pos)`: the position is overwritten, fullscreen or not. */
  function Moved(d: DesktopState, a: AppId, pos: Point): DesktopState
  {
    WithWindow(d, a, Window(d, a).(position := pos))
  }

  /** The ids of the open windows, in the order settings, files, browser. */
  function OpenApps(d: DesktopState): seq<string>
  {
    (if d.settingsWindow.isOpen then ["settings"] else [])
    + (if d.fileManagerWindow.isOpen then ["files"] else [])
    + (if d.browserWindow.isOpen then ["browser"] else [])
  }

  /** The initial desktop: nothing open, nothing fullscreen, the three default
      positions, dark theme, and the accent `#7AD0BD`, the palette's first swatch. */
  lemma InitialDesktop()
    ensures forall a :: !Window(InitialState(), a).isOpen && !Window(InitialState(), a).isFullscreen
    ensures Window(InitialState(), SettingsApp).position == Point(100, 50)
    ensures Window(InitialState(), FilesApp).position == Point(150, 100)
    ensures Window(InitialState(), BrowserApp).position == Point(80, 30)
    ensures InitialState().theme == Dark && ThemeName(InitialState().theme) == "dark"
    ensures InitialState().accentColor == "#7AD0BD"
    ensures IsAccentValue(InitialState().accentColor)
    ensures OpenApps(InitialState()) == []
  {
    assert PickedAccent(0) == InitialAccent;
  }

  /** Opening by a known id marks exactly that record open and changes nothing else;
      an unknown id changes nothing; opening twice is opening once. */
  lemma OpenAppEffect(d: DesktopState, appId: string)
    ensures ParseAppId(appId).Some? ==>
      OpenedApp(d, appId) == WithWindow(d, ParseAppId(appId).value, Window(d, ParseAppId(appId).value).(isOpen := true))
    ensures ParseAppId(appId).None? ==> OpenedApp(d, appId) == d
    ensures OpenedApp(OpenedApp(d, appId), appId) == OpenedApp(d, appId)
    ensures Window(d, SettingsApp).isOpen && Window(d, FilesApp).isOpen && Window(d, BrowserApp).isOpen
            ==> OpenedApp(d, appId) == d
  {
  }

  /** Each window callback changes only its own record: the other two records, the
      theme and the accent colour stay as they were. */
  lemma StepsChangeOneRecord(d: DesktopState, a: AppId, b: AppId, pos: Point)
    requires a != b
    ensures Window(Closed(d, a), b) == Window(d, b)
    ensures Window(FullscreenToggled(d, a), b) == Window(d, b)
    ensures Window(Moved(d, a, pos), b) == Window(d, b)
    ensures Window(OpenedApp(d, AppIdString(a)), b) == Window(d, b)
    ensures Closed(d, a).theme == d.theme && Closed(d, a).accentColor == d.accentColor
    ensures FullscreenToggled(d, a).theme == d.theme && FullscreenToggled(d, a).accentColor == d.accentColor
    ensures Moved(d, a, pos).theme == d.theme && Moved(d, a, pos).accentColor == d.accentColor
    ensures OpenedApp(d, AppIdString(a)).(theme := d.theme, accentColor := d.accentColor) == OpenedApp(d, AppIdString(a))
  {
  }

  /** Closing touches only `isOpen`, so closing and then reopening restores the
      fullscreen flag and the position; if the window was open, it restores the state. */
  lemma CloseThenOpen(d: DesktopState, a: AppId)
    ensures Window(Closed(d, a), a) == Window(d, a).(isOpen := false)
    ensures Window(OpenedApp(Closed(d, a), AppIdString(a)), a) == Window(d, a).(isOpen := true)
    ensures Window(d, a).isOpen ==> OpenedApp(Closed(d, a), AppIdString(a)) == d
  {
  }

  /** Toggling fullscreen flips only the flag, and toggling twice changes nothing. */
  lemma ToggleTwice(d: DesktopState, a: AppId)
    ensures Window(FullscreenToggled(d, a), a) == Window(d, a).(isFullscreen := !Window(d, a).isFullscreen)
    ensures FullscreenToggled(FullscreenToggled(d, a), a) == d
  {
  }

  /** A position change lands even on a fullscreen window and leaves its open and
      fullscreen flags alone; the last of two moves wins. */
  lemma MoveIgnoresFullscreen(d: DesktopState, a: AppId, p: Point, q: Point)
    ensures Window(Moved(d, a, p), a).position == p
    ensures Window(Moved(d, a, p), a).isOpen == Window(d, a).isOpen
    ensures Window(Moved(d, a, p), a).isFullscreen == Window(d, a).isFullscreen
    ensures Moved(Moved(d, a, p), a, q) == Moved(d, a, q)
  {
  }

  /** `openApps` lists an application exactly when its window is open, and is empty
      exactly when every window is closed. */
  lemma OpenAppsMembership(d: DesktopState)
    ensures forall a :: AppIdString(a) in OpenApps(d) <==> Window(d, a).isOpen
    ensures OpenApps(d) == [] <==> forall a :: !Window(d, a).isOpen
  {
    var r := OpenApps(d);
    forall a ensures AppIdString(a) in r <==> Window(d, a).isOpen {
      forall b ensures AppIdString(a) == AppIdString(b) ==> a == b {
        AppIdRoundTrip(a, b);
      }
    }
    if r == [] {
      forall a ensures !Window(d, a).isOpen {
        assert AppIdString(a) !in r;
      }
    } else {
      assert AppIdString(SettingsApp) in r || AppIdString(FilesApp) in r || AppIdString(BrowserApp) in r;
    }
  }

  /** `openApps` lists only known ids, in the order settings, files, browser, never
      twice, and so at most three. */
  lemma OpenAppsOrdered(d: DesktopState)
    ensures forall i :: 0 <= i < |OpenApps(d)| ==> ParseAppId(OpenApps(d)[i]).Some?
    ensures forall i, j :: 0 <= i < j < |OpenApps(d)| ==>
      Rank(ParseAppId(OpenApps(d)[i]).value) < Rank(ParseAppId(OpenApps(d)[j]).value)
    ensures forall i, j :: 0 <= i < j < |OpenApps(d)| ==> OpenApps(d)[i] != OpenApps(d)[j]
    ensures |OpenApps(d)| <= 3
  {
    var r := OpenApps(d);
    forall i | 0 <= i < |r| ensures ParseAppId(r[i]).Some? && Rank(ParseAppId(r[i]).value) == RankOf(r[i]) {
    }
    assert forall i, j :: 0 <= i < j < |r| ==> RankOf(r[i]) < RankOf(r[j]);
  }

  /** The rank of a listed id string. */
  function RankOf(s: string): int
  {
    if s == "settings" then 0 else if s == "files" then 1 else 2
  }

  /** A window's drag controller follows the pointer: while it is dragging, the record
      takes the position the controller emits; otherwise it is left alone. */
  function Followed(c: DragControl.DragController?, w: WindowState, pointer: Point): WindowState
    reads c
  {
    if c != null && c.dragging then w.(position := Sub(pointer, c.offset)) else w
  }

  /** The desktop screen with its mounted window components. */
  class Desktop {
    var settingsWindow: WindowState
    var fileManagerWindow: WindowState
    var browserWindow: WindowState
    var theme: Theme
    var accentColor: string
    /** The drag controllers of the mounted windows, null while a window is closed. */
    var settingsDrag: DragControl.DragController?
    var filesDrag: DragControl.DragController?
    var browserDrag: DragControl.DragController?
    /** The mounted browser's navigation state, null while the browser is closed. */
    var browserView: BrowserWindow.Browser?

    function State(): DesktopState
      reads this
    {
      DesktopState(settingsWindow, fileManagerWindow, browserWindow, theme, accentColor)
    }

    ghost function Components(): set<object>
      reads this
    {
      (if settingsDrag != null then {settingsDrag} else {})
      + (if filesDrag != null then {filesDrag} else {})
      + (if browserDrag != null then {browserDrag} else {})
      + (if browserView != null then {browserView} else {})
    }

    /** The mounted components, as references. */
    ghost function Mounted(): (DragControl.DragController?, DragControl.DragController?,
                               DragControl.DragController?, BrowserWindow.Browser?)
      reads this
    {
      (settingsDrag, filesDrag, browserDrag, browserView)
    }

    /** A component exists exactly while its window is open; the browser's listeners
        stay attached, the other two attach theirs only while dragging; the three
        controllers are distinct objects. */
    ghost predicate Valid()
      reads this, Components()
    {
      && (settingsDrag != null <==> settingsWindow.isOpen)
      && (filesDrag != null <==> fileManagerWindow.isOpen)
      && (browserDrag != null <==> browserWindow.isOpen)
      && (browserView != null <==> browserWindow.isOpen)
      && (settingsDrag != null ==> !settingsDrag.alwaysListening && settingsDrag.Valid())
      && (filesDrag != null ==> !filesDrag.alwaysListening && filesDrag.Valid())
      && (browserDrag != null ==> browserDrag.alwaysListening && browserDrag.Valid())
      && (browserView != null ==> browserView.Valid())
      && (settingsDrag != null && filesDrag != null ==> settingsDrag != filesDrag)
      && (settingsDrag != null && browserDrag != null ==> settingsDrag != browserDrag)
      && (filesDrag != null && browserDrag != null ==> filesDrag != browserDrag)
    }

    constructor ()
      ensures Valid() && State() == InitialState()
      ensures Components() == {}
    {
      settingsWindow := WindowState(false, false, Point(100, 50));
      fileManagerWindow := WindowState(false, false, Point(150, 100));
      browserWindow := WindowState(false, false, Point(80, 30));
      theme := Dark;
      accentColor := InitialAccent;
      settingsDrag := null;
      filesDrag := null;
      browserDrag := null;
      browserView := null;
    }

    /** `handleOpenApp(appId)`. A window that opens gets freshly mounted components
        (a browser starts with an empty history); one already open keeps its own. */
    method OpenApp(appId: string)
      requires Valid()
      modifies this
      ensures Valid()
      ensures State() == OpenedApp(old(State()), appId)
      ensures old(settingsWindow.isOpen) ==> settingsDrag == old(settingsDrag)
      ensures old(fileManagerWindow.isOpen) ==> filesDrag == old(filesDrag)
      ensures old(browserWindow.isOpen) ==> browserDrag == old(browserDrag) && browserView == old(browserView)
      ensures !old(settingsWindow.isOpen) && settingsWindow.isOpen ==>
        fresh(settingsDrag) && !settingsDrag.dragging
      ensures !old(fileManagerWindow.isOpen) && fileManagerWindow.isOpen ==>
        fresh(filesDrag) && !filesDrag.dragging
      ensures !old(browserWindow.isOpen) && browserWindow.isOpen ==>
        fresh(browserDrag) && !browserDrag.dragging && fresh(browserView)
        && browserView.State() == BrowserWindow.Initial()
    {
      if appId == "settings" {
        if !settingsWindow.isOpen {
          settingsDrag := new DragControl.DragController(false);
        }
        settingsWindow := settingsWindow.(isOpen := true);
      } else if appId == "files" {
        if !fileManagerWindow.isOpen {
          filesDrag := new DragControl.DragController(false);
        }
        fileManagerWindow := fileManagerWindow.(isOpen := true);
      } else if appId == "browser" {
        if !browserWindow.isOpen {
          browserDrag := new DragControl.DragController(true);
          browserView := new BrowserWindow.Browser();
        }
        browserWindow := browserWindow.(isOpen := true);
      }
    }

    /** `onClose`: the record is marked closed and the window's components unmount. */
    method CloseApp(a: AppId)
      requires Valid()
      modifies this
      ensures Valid()
      ensures State() == Closed(old(State()), a)
      ensures Components() <= old(Components())
      ensures a != SettingsApp ==> settingsDrag == old(settingsDrag)
      ensures a != FilesApp ==> filesDrag == old(filesDrag)
      ensures a != BrowserApp ==> browserDrag == old(browserDrag) && browserView == old(browserView)
      ensures a == SettingsApp ==> settingsDrag == null
      ensures a == FilesApp ==> filesDrag == null
      ensures a == BrowserApp ==> browserDrag == null && browserView == null
    {
      match a
      case SettingsApp =>
        settingsWindow := settingsWindow.(isOpen := false);
        settingsDrag := null;
      case FilesApp =>
        fileManagerWindow := fileManagerWindow.(isOpen := false);
        filesDrag := null;
      case BrowserApp =>
        browserWindow := browserWindow.(isOpen := false);
        browserDrag := null;
        browserView := null;
    }

    /** `onToggleFullscreen`. */
    method ToggleFullscreen(a: AppId)
      requires Valid()
      modifies this
      ensures Valid()
      ensures State() == FullscreenToggled(old(State()), a)
      ensures Mounted() == old(Mounted())
    {
      match a
      case SettingsApp =>
        settingsWindow := settingsWindow.(isFullscreen := !settingsWindow.isFullscreen);
      case FilesApp =>
        fileManagerWindow := fileManagerWindow.(isFullscreen := !fileManagerWindow.isFullscreen);
      case BrowserApp =>
        browserWindow := browserWindow.(isFullscreen := !browserWindow.isFullscreen);
    }

    /** `onPositionChange(pos)`. */
    method ChangePosition(a: AppId, pos: Point)
      requires Valid()
      modifies this
      ensures Valid()
      ensures State() == Moved(old(State()), a, pos)
      ensures Mounted() == old(Mounted())
    {
      match a
      case SettingsApp =>
        settingsWindow := settingsWindow.(position := pos);
      case FilesApp =>
        fileManagerWindow := fileManagerWindow.(position := pos);
      case BrowserApp =>
        browserWindow := browserWindow.(position := pos);
    }

    /** The settings window's theme buttons. */
    method SetTheme(t: Theme)
      requires Valid() && settingsWindow.isOpen
      modifies this
      ensures Valid()
      ensures State() == old(State()).(theme := t)
      ensures Mounted() == old(Mounted())
    {
      theme := t;
    }

    /** The settings window's accent swatch `i`. */
    method PickAccent(i: int)
      requires Valid() && settingsWindow.isOpen && 0 <= i < |AccentColors|
      modifies this
      ensures Valid()
      ensures State() == old(State()).(accentColor := PickedAccent(i))
      ensures RingedSwatches(accentColor) == {i}
      ensures Mounted() == old(Mounted())
    {
      accentColor := AccentColors[i].value;
      PickRingsPicked(i);
    }

    /** The user navigates in the open browser window: the mounted browser component
        performs `navigate` on its own state; the desktop's records are untouched. */
    method NavigateBrowser(input: string)
      requires Valid() && browserWindow.isOpen
      modifies browserView
      ensures Valid() && Mounted() == old(Mounted())
      ensures browserView.State() == BrowserWindow.Navigated(old(browserView.State()), input)
    {
      browserView.Navigate(input);
    }

    /** A press on the title bar of an open window: its drag controller starts a drag
        from the window's current position unless the window is fullscreen. */
    method TitleBarMouseDown(a: AppId, pointer: Point)
      requires Valid() && Window(State(), a).isOpen
      modifies if a == SettingsApp then {settingsDrag} else if a == FilesApp then {filesDrag} else {browserDrag}
      ensures Valid()
      ensures Window(State(), a).isFullscreen ==>
        var c := if a == SettingsApp then settingsDrag else if a == FilesApp then filesDrag else browserDrag;
        c.dragging == old(c.dragging) && c.offset == old(c.offset)
      ensures !Window(State(), a).isFullscreen ==>
        var c := if a == SettingsApp then settingsDrag else if a == FilesApp then filesDrag else browserDrag;
        c.dragging && Sub(pointer, c.offset) == Window(State(), a).position
    {
      var w := Window(State(), a);
      match a
      case SettingsApp => settingsDrag.MouseDown(pointer, w.position, w.isFullscreen);
      case FilesApp => filesDrag.MouseDown(pointer, w.position, w.isFullscreen);
      case BrowserApp => browserDrag.MouseDown(pointer, w.position, w.isFullscreen);
    }

    /** A pointer move anywhere: each mounted window whose controller is dragging
        reports `pointer - offset` through `onPositionChange`; the rest stay put. */
    method PointerMove(pointer: Point)
      requires Valid()
      modifies this
      ensures Valid()
      ensures settingsWindow == Followed(settingsDrag, old(settingsWindow), pointer)
      ensures fileManagerWindow == Followed(filesDrag, old(fileManagerWindow), pointer)
      ensures browserWindow == Followed(browserDrag, old(browserWindow), pointer)
      ensures theme == old(theme) && accentColor == old(accentColor)
      ensures Mounted() == old(Mounted())
    {
      if settingsDrag != null {
        var p := settingsDrag.MouseMove(pointer);
        if p.Some? {
          ChangePosition(SettingsApp, p.value);
        }
      }
      if filesDrag != null {
        var p := filesDrag.MouseMove(pointer);
        if p.Some? {
          ChangePosition(FilesApp, p.value);
        }
      }
      if browserDrag != null {
        var p := browserDrag.MouseMove(pointer);
        if p.Some? {
          ChangePosition(BrowserApp, p.value);
        }
      }
    }

    /** A pointer release anywhere: every mounted controller ends its drag. */
    method PointerUp()
      requires Valid()
      modifies settingsDrag, filesDrag, browserDrag
      ensures Valid()
      ensures settingsDrag != null ==> !settingsDrag.dragging
      ensures filesDrag != null ==> !filesDrag.dragging
      ensures browserDrag != null ==> !browserDrag.dragging
      ensures settingsDrag != null ==> settingsDrag.offset == old(settingsDrag.offset)
      ensures filesDrag != null ==> filesDrag.offset == old(filesDrag.offset)
      ensures browserDrag != null ==> browserDrag.offset == old(browserDrag.offset)
    {
      if settingsDrag != null {
        settingsDrag.MouseUp();
      }
      if filesDrag != null {
        filesDrag.MouseUp();
      }
      if browserDrag != null {
        browserDrag.MouseUp();
      }
    }
  }

  /** The browser's history lives only as long as its window: after a navigation, a
      close and a reopen, the history is empty again. */
  method BrowserHistoryDiesWithWindow(input: string) returns (before: seq<string>, after: seq<string>)
    ensures before == [BrowserWindow.FormatUrl(input)]
    ensures after == []
  {
    var d;
    d, before := OpenBrowserAndNavigate(input);
    after := ReopenBrowser(d);
  }

  /** From a fresh desktop, open the browser and navigate once: the history holds the
      one resolved address. */
  method OpenBrowserAndNavigate(input: string) returns (d: Desktop, history: seq<string>)
    ensures fresh(d) && d.Valid() && d.browserWindow.isOpen
    ensures history == [BrowserWindow.FormatUrl(input)]
  {
    d := new Desktop();
    d.OpenApp("browser");
    d.NavigateBrowser(input);
    history := d.browserView.history;
  }

  /** Closing an open browser window and opening it again mounts a new browser
      component, whatever the old one held: its history is empty and the window
      record is as it was. */
  method ReopenBrowser(d: Desktop) returns (history: seq<string>)
    requires d.Valid() && d.browserWindow.isOpen
    modifies d
    ensures d.Valid() && d.State() == old(d.State())
    ensures d.browserView.State() == BrowserWindow.Initial()
    ensures history == []
  {
    d.CloseApp(BrowserApp);
    assert "browser"[0] != "settings"[0] && "browser"[0] != "files"[0];
    d.OpenApp("browser");
    history := d.browserView.history;
  }

  /** Dragging the settings window: pressing its title bar at `grab` and moving the
      pointer by `delta` moves the window by `delta`; after release, further pointer
      moves leave it where it is. */
  method DragSettings(grab: Point, delta: Point, later: Point) returns (start: Point, moved: Point, released: Point)
    ensures start == Point(100, 50)
    ensures moved == Add(start, delta)
    ensures released == moved
  {
    var d := new Desktop();
    d.OpenApp("settings");
    start := d.settingsWindow.position;
    d.TitleBarMouseDown(SettingsApp, grab);
    d.PointerMove(Add(grab, delta));
    moved := d.settingsWindow.position;
    FollowDisplacement(grab, start, delta);
    d.PointerUp();
    d.PointerMove(later);
    released := d.settingsWindow.position;
  }
}
