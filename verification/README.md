# WAVEos desktop logic, modelled in Dafny

WAVEos is a simulated desktop that runs in a web page. There is a startup screen that
greets the user and leads to the desktop. The desktop has three movable,
closable, fullscreen-capable windows (settings, file manager, browser) and a taskbar. This
project models the parts of it that hold state or make decisions, and proves what they
guarantee:

- **Address resolution and the browser's history** (`BrowserWindow`, with `JsString` for
  `String.prototype.trim` and `UriComponent` for `encodeURIComponent`). `formatUrl`
  turns typed text into a search URL or a direct address; `navigate`, `goBack`,
  `goForward`, `refresh` and `handleSubmit` move a cursor over a history stack that
  discards forward entries on a new navigation. The handlers are step functions on
  `NavState`, and the class `Browser` performs the same steps in place on its five
  state cells. The 500 ms loading timer is the explicit event `LoadTimerFires`, which
  clears the loading flag unconditionally (a stale timer clears it too).
- **Dragging** (`DragControl`, `Geometry`). One `DragController` class serves all three
  windows. A press on the title bar records `pointer - position` unless the window is
  fullscreen, each pointer move while dragging emits `pointer - offset`, and release
  ends the drag. The browser keeps its window-level listeners attached for as long as it
  is mounted (components/waveos/browser-window.tsx:49-68). The settings window and the
  file manager attach theirs only while dragging
  (components/waveos/settings-window.tsx:57-79, components/waveos/file-manager-window.tsx:55-77).
  `Geometry.Layout` is the window rectangle: the window's fixed size at its position
  when windowed, or the viewport minus a 48-unit band at the bottom when fullscreen.
- **The desktop's window records** (`Desktop`). The three `WindowState` records, the
  theme and the accent colour, with `handleOpenApp`, the close, toggle and position
  callbacks, and the derived `openApps` list. They are step functions on `DesktopState`,
  and the class `Desktop` holds the same fields. The class also holds the window
  components, which are mounted exactly while their record is open. So a window that
  opens gets fresh drag state and, for the browser, an empty history.
- **Settings and file manager content** (`SettingsWindow`, `FileManagerWindow`): the
  six accent swatches and which one is ringed, the two theme buttons, and the fixed
  listing with its folder and file icons.
- **The taskbar's menus** (`Taskbar`): the flags `showAppDrawer` and `showPowerMenu`,
  the document-level mousedown that closes a menu when the press lands outside it, the
  click handlers, the app registry, the open indicator, and the routes Sign Out and
  Power Off lead to.
- **The greeting** (`Startup`): the greeting chosen from the hour, and the Sign In
  route `/desktop` (app/startup/page.tsx:131).

Two behaviours of the code are worth stating:

- A position change has no fullscreen check in the code (app/desktop/page.tsx:178-180,
  200-202, 220-222). Only the start of a drag is guarded
  (components/waveos/settings-window.tsx:49). `Desktop.Moved` therefore overwrites the
  position of a fullscreen window too.
- A window component exists only while its record is open (app/desktop/page.tsx:167,
  189, 209). Closing the browser therefore discards its history and any drag in
  progress, and reopening starts afresh.

## Model

| member | source | states |
|---|---|---|
| `JsString.TrimStart` | components/waveos/browser-window.tsx:71 | keeps a suffix of the input; everything it drops is ECMAScript whitespace or a line terminator; what it keeps does not start with one |
| `JsString.TrimEnd` | components/waveos/browser-window.tsx:71 | keeps a prefix of the input; everything it drops is whitespace; what it keeps does not end with whitespace |
| `JsString.TrimStartIsSuffix` | components/waveos/browser-window.tsx:71 | what the leading trim keeps is exactly the input's suffix of that length |
| `JsString.TrimEndIsPrefix` | components/waveos/browser-window.tsx:71 | what the trailing trim keeps is exactly the input's prefix of that length |
| `JsString.TrimIsTrimmed` | components/waveos/browser-window.tsx:71 | `trim()` leaves no whitespace at either end |
| `JsString.TrimIsMiddleSlice` | components/waveos/browser-window.tsx:71 | `trim()` is a slice `s[i..j]` with only whitespace before `i` and after `j` |
| `JsString.TrimOfTrimmed` | components/waveos/browser-window.tsx:71 | a string with no whitespace at either end is its own trim |
| `JsString.TrimIdempotent` | components/waveos/browser-window.tsx:71 | trimming twice is trimming once |
| `JsString.TrimNoWhitespace` | components/waveos/browser-window.tsx:71 | a string without whitespace is its own trim |
| `JsString.TrimEmptyIffBlank` | components/waveos/browser-window.tsx:103 | `url.trim()` is falsy (empty) exactly when every character of `url` is whitespace |
| `UriComponent.Utf8` | components/waveos/browser-window.tsx:76 | the UTF-8 form of a code point is 1 to 4 octets, and a single octet exactly for ASCII |
| `UriComponent.Escape` | components/waveos/browser-window.tsx:76 | an octet becomes `%` followed by two hex digits |
| `UriComponent.EscapeAll` | components/waveos/browser-window.tsx:76 | escaping n octets gives 3n characters, all of them URI characters |
| `UriComponent.EncodeChar` | components/waveos/browser-window.tsx:76 | an unescaped character stays itself; any other becomes percent-escapes starting with `%` |
| `UriComponent.Encode` | components/waveos/browser-window.tsx:76 | `encodeURIComponent` outputs only URI characters and is never shorter than its input |
| `UriComponent.HexValueOfDigit` | components/waveos/browser-window.tsx:76 | the hex digit written for a nibble reads back as that nibble |
| `UriComponent.ByteAtEscapeAll` | components/waveos/browser-window.tsx:76 | the j-th `%XY` of an escaped octet sequence reads back as the j-th octet |
| `UriComponent.DecodeEscape` | components/waveos/browser-window.tsx:76 | the source never calls `decodeURIComponent`; this is the decoder written as the partner of the encoding at line 76, used to state its round trip. A decoded escape sequence starts with `%` and consumes between 3 characters and the whole input; the character it yields is a scalar value (no surrogate, nothing past U+10FFFF) and the sequence is exactly 3 characters per octet of that character's UTF-8 form, so no overlong form is accepted |
| `UriComponent.DecodeEscapeOfUtf8` | components/waveos/browser-window.tsx:76 | the escaped UTF-8 form of a character decodes to that character, consuming 3 characters per octet |
| `UriComponent.DecodeEncodeChar` | components/waveos/browser-window.tsx:76 | decoding one encoded character followed by any text yields the character, then that text decoded |
| `UriComponent.DecodeEncode` | components/waveos/browser-window.tsx:76 | `decodeURIComponent(encodeURIComponent(s)) == s` for every string |
| `UriComponent.EncodeIdentityIff` | components/waveos/browser-window.tsx:76 | encoding leaves a string unchanged exactly when all its characters are unescaped ones; otherwise it is strictly longer |
| `UriComponent.EncodeHasNoWhitespace` | components/waveos/browser-window.tsx:76 | the encoded text has no space and no control or whitespace character up to U+0020 |
| `BrowserWindow.FormatUrl` | components/waveos/browser-window.tsx:70-85 | `formatUrl` always returns an address starting with `http://` or `https://`, so it is never empty |
| `BrowserWindow.FormatUrlSearch` | components/waveos/browser-window.tsx:73-77 | trimmed text without `.` or with a space becomes the search prefix plus its encoding, and the query part decodes back to the trimmed text |
| `BrowserWindow.FormatUrlDirect` | components/waveos/browser-window.tsx:79-84 | trimmed text with a `.` and no space is returned as is if it has an http(s) scheme, and with `https://` in front otherwise |
| `BrowserWindow.FormatUrlResolved` | components/waveos/browser-window.tsx:70-85 | every result has a scheme and a `.`, has no space, and has no whitespace at either end |
| `BrowserWindow.FormatUrlFixedPoints` | components/waveos/browser-window.tsx:70-85 | `formatUrl(e) == e` exactly for those resolved addresses (both directions) |
| `BrowserWindow.FormatUrlIdempotent` | components/waveos/browser-window.tsx:70-85 | resolving a resolved address changes nothing |
| `BrowserWindow.BrowserLayout` | components/waveos/browser-window.tsx:162-164 | 800 x 600 at the position when windowed; full width and viewport height minus 48 from the origin when fullscreen |
| `BrowserWindow.NavigatedInv` | components/waveos/browser-window.tsx:87-99 | `navigate` keeps the history invariant: the cursor is in range, -1 exactly when the history is empty, the shown address is the entry under the cursor, and every entry is resolved |
| `BrowserWindow.SubmittedInv` | components/waveos/browser-window.tsx:101-106 | `handleSubmit` keeps the history invariant |
| `BrowserWindow.BackForwardInv` | components/waveos/browser-window.tsx:133-147 | back and forward keep the history invariant |
| `BrowserWindow.HandlersPreserveInv` | components/waveos/browser-window.tsx:149-154 | the initial state has the invariant, and refresh, the timer and typing keep it |
| `BrowserWindow.NavigatedEffect` | components/waveos/browser-window.tsx:87-99 | after `navigate(s)` the history is the entries up to the cursor plus `formatUrl(s)`; the cursor is on it; it is shown; the address bar holds `s`; loading is on; forward is disabled; back is enabled exactly when the history was non-empty |
| `BrowserWindow.BackForwardRoundTrip` | components/waveos/browser-window.tsx:133-147 | when enabled, back then forward (and forward then back) returns to the same entry, with that entry in the address bar |
| `BrowserWindow.BackForwardFrame` | components/waveos/browser-window.tsx:133-147 | back and forward never touch the history or the loading flag; each is a no-op exactly when its button is disabled; otherwise each moves the cursor by exactly one |
| `BrowserWindow.NavigateTwiceThenBack` | components/waveos/browser-window.tsx:87-147 | after `navigate(a)`, `navigate(b)`, back shows `formatUrl(a)` and forward shows `formatUrl(b)` again |
| `BrowserWindow.NavigateAfterBackDiscardsForward` | components/waveos/browser-window.tsx:94-96 | navigating after going back drops every entry that was ahead of the cursor, leaving nothing to go forward to |
| `BrowserWindow.BackWithOneEntry` | components/waveos/browser-window.tsx:133-139 | with a single entry, back does nothing |
| `BrowserWindow.GuardedHandlers` | components/waveos/browser-window.tsx:101-154 | refresh changes only the loading flag, and turns it on exactly when an address is shown; the cloaked-tab button is disabled, and has no target, exactly when the history is empty; and that target is the entry under the cursor; submit with a blank address bar does nothing |
| `BrowserWindow.SubmitResolved` | components/waveos/browser-window.tsx:101-106 | submitting an address bar that holds a resolved address navigates to exactly that address |
| `BrowserWindow.SubmitAfterBack` | components/waveos/browser-window.tsx:101-139 | after back, submitting the address bar unchanged re-navigates to the shown entry itself, dropping the forward entries |
| `BrowserWindow.FormatPlainWord` | components/waveos/browser-window.tsx:73-77 | a word of unescaped characters without `.` or whitespace becomes the search prefix followed by the word itself |
| `BrowserWindow.FormatOpenai` | components/waveos/browser-window.tsx:73-77 | `"openai"` resolves to `https://www.google.com/search?q=openai` |
| `BrowserWindow.FormatExample` | components/waveos/browser-window.tsx:79-84 | `"example.com"` resolves to `https://example.com` |
| `BrowserWindow.Scenario` | components/waveos/browser-window.tsx:87-147 | from a fresh window, navigating to "openai" and then "example.com": back shows the search URL and forward shows `https://example.com` |
| `BrowserWindow.Browser.constructor` | components/waveos/browser-window.tsx:26-30 | a new browser has an empty address bar, nothing shown, no loading, an empty history and cursor -1 |
| `BrowserWindow.Browser.Navigate` | components/waveos/browser-window.tsx:87-99 | updates the five cells in place to the `navigate` step, keeps the invariant, and starts one loading timer |
| `BrowserWindow.Browser.HandleSubmit` | components/waveos/browser-window.tsx:101-106 | navigates to the address bar's text exactly when its trim is non-empty |
| `BrowserWindow.Browser.GoBack` | components/waveos/browser-window.tsx:133-139 | performs the `goBack` step in place and keeps the invariant |
| `BrowserWindow.Browser.GoForward` | components/waveos/browser-window.tsx:141-147 | performs the `goForward` step in place and keeps the invariant |
| `BrowserWindow.Browser.Refresh` | components/waveos/browser-window.tsx:149-154 | sets loading and starts a timer exactly when an address is shown |
| `BrowserWindow.Browser.LoadTimerFires` | components/waveos/browser-window.tsx:98 | a pending timer fires and clears the loading flag, whichever navigation started it; loading is never on without a pending timer |
| `BrowserWindow.Browser.Type` | components/waveos/browser-window.tsx:243 | typing replaces the address bar's text and nothing else |
| `BrowserWindow.Browser.OpenInCloakedTab` | components/waveos/browser-window.tsx:108-110 | nothing is opened exactly when the history is empty; otherwise the target is the resolved entry under the cursor |
| `DragControl.DragController.constructor` | components/waveos/browser-window.tsx:31-32 | a mounted window starts not dragging, with offset (0,0) |
| `DragControl.DragController.MouseDown` | components/waveos/browser-window.tsx:40-47 | a fullscreen window ignores the press; otherwise dragging starts with offset `pointer - position` |
| `DragControl.DragController.MouseMove` | components/waveos/browser-window.tsx:50-56 | a position is emitted exactly while dragging, and it is `pointer - offset` |
| `DragControl.DragController.MouseUp` | components/waveos/browser-window.tsx:58-60 | release ends the drag |
| `Geometry.FullscreenLayout` | components/waveos/browser-window.tsx:162-163 | fullscreen spans the viewport from (0,0), its bottom 48 above the viewport's, whatever the position and size |
| `Geometry.WindowedLayout` | components/waveos/browser-window.tsx:164 | windowed is the window's own size at its position, whatever the viewport |
| `Geometry.FollowDisplacement` | components/waveos/settings-window.tsx:50-63 | a window grabbed at `g` and followed to `g + d` lands at its origin plus `d`, and a move at the grab point gives back the origin |
| `SettingsWindow.ThemeName` | components/waveos/settings-window.tsx:13 | a theme is named `"dark"` or `"light"` |
| `SettingsWindow.RingedSwatches` | components/waveos/settings-window.tsx:210-217 | ringed swatches are indices of the palette |
| `SettingsWindow.PickedAccent` | components/waveos/settings-window.tsx:206 | clicking a swatch always yields one of the six palette values |
| `SettingsWindow.AccentValuesDistinct` | components/waveos/settings-window.tsx:19-26 | the six palette values are pairwise distinct |
| `SettingsWindow.RingedExactlyOne` | components/waveos/settings-window.tsx:210-217 | a palette accent rings exactly its own swatch; any other accent rings none |
| `SettingsWindow.PickRingsPicked` | components/waveos/settings-window.tsx:206-217 | after picking swatch i, swatch i and no other is ringed |
| `SettingsWindow.ThemeButtonsExclusive` | components/waveos/settings-window.tsx:172-193 | exactly one theme button is highlighted; a pressed button is the highlighted one; `"dark"` highlights Dark |
| `SettingsWindow.SettingsLayout` | components/waveos/settings-window.tsx:88-90 | 500 x 400 at the position when windowed; viewport minus the 48 band when fullscreen |
| `FileManagerWindow.Icons` | components/waveos/file-manager-window.tsx:168-176 | one icon per entry, in order, and the folder icon exactly when the type is `"folder"` |
| `FileManagerWindow.IconsAppend` | components/waveos/file-manager-window.tsx:168 | the icons of a concatenated listing are the concatenated icons |
| `FileManagerWindow.ListingShape` | components/waveos/file-manager-window.tsx:17-26 | eight entries: five folders followed by three files |
| `FileManagerWindow.ListingNamesDistinct` | components/waveos/file-manager-window.tsx:17-26 | the eight names, which are the list's keys, are pairwise distinct |
| `FileManagerWindow.FileManagerLayout` | components/waveos/file-manager-window.tsx:85-87 | 600 x 450 at the position when windowed; viewport minus the 48 band when fullscreen |
| `Desktop.ParseAppId` | app/desktop/page.tsx:36-47 | an id string recognised by the switch names back that application's id |
| `Desktop.AppIdRoundTrip` | app/desktop/page.tsx:36-47 | each application's id string is recognised as that application, and the three id strings differ |
| `Desktop.InitialDesktop` | app/desktop/page.tsx:16-32 | all closed and windowed, at (100,50), (150,100) and (80,30); theme dark; accent `#7AD0BD`, one of the palette's; `openApps` empty |
| `Desktop.OpenAppEffect` | app/desktop/page.tsx:36-48 | a known id marks only its record open; an unknown id changes nothing; opening is idempotent |
| `Desktop.StepsChangeOneRecord` | app/desktop/page.tsx:167-222 | close, toggle, move and open change only their own window's record; the other two records, the theme and the accent are kept |
| `Desktop.CloseThenOpen` | app/desktop/page.tsx:171 | close changes only `isOpen`, so close then open restores the fullscreen flag and the position (and the whole state if the window was open) |
| `Desktop.ToggleTwice` | app/desktop/page.tsx:172-177 | toggling flips only `isFullscreen`; toggling twice is the identity |
| `Desktop.MoveIgnoresFullscreen` | app/desktop/page.tsx:178-180 | a position change lands even while fullscreen, keeps both flags, and the last of two moves wins |
| `Desktop.OpenAppsMembership` | app/desktop/page.tsx:50-54 | an id is in `openApps` exactly when its window is open; the list is empty exactly when all are closed |
| `Desktop.OpenAppsOrdered` | app/desktop/page.tsx:50-54 | `openApps` holds known ids only, in the order settings, files, browser, without duplicates, at most three |
| `Desktop.Desktop.constructor` | app/desktop/page.tsx:16-32 | the desktop starts in the initial state with no component mounted |
| `Desktop.Desktop.OpenApp` | app/desktop/page.tsx:36-48 | performs `handleOpenApp`; a window that opens gets fresh components (a fresh browser has the initial navigation state); an open one keeps its own |
| `Desktop.Desktop.CloseApp` | app/desktop/page.tsx:166-171 | marks the window closed and unmounts its components; the other windows keep their own mounted components (the same controller and browser objects) |
| `Desktop.Desktop.ToggleFullscreen` | app/desktop/page.tsx:172-177 | performs the toggle step; components stay mounted |
| `Desktop.Desktop.ChangePosition` | app/desktop/page.tsx:178-180 | performs the move step, with no fullscreen check |
| `Desktop.Desktop.SetTheme` | components/waveos/settings-window.tsx:173 | with the settings window open (its buttons exist only then), sets the theme and nothing else |
| `Desktop.Desktop.PickAccent` | components/waveos/settings-window.tsx:206 | with the settings window open, sets the accent to the swatch's value, after which exactly that swatch is ringed |
| `Desktop.Desktop.TitleBarMouseDown` | components/waveos/settings-window.tsx:48-55 | a press on an open window's title bar starts no drag when it is fullscreen, and otherwise starts one whose offset maps the pointer back to the window's position; only the pressed window's controller may change, and a fullscreen press keeps its flag and offset |
| `Desktop.Desktop.PointerMove` | components/waveos/settings-window.tsx:57-64 | each window whose controller is dragging moves to `pointer - offset`; the others, the theme and the accent stay |
| `Desktop.Desktop.PointerUp` | components/waveos/settings-window.tsx:66-68 | every mounted controller stops dragging and keeps its offset |
| `Desktop.Desktop.NavigateBrowser` | components/waveos/browser-window.tsx:87-99 | the open browser window's component performs `navigate` on its own state; the desktop's records and mounted components are unchanged |
| `Desktop.BrowserHistoryDiesWithWindow` | app/desktop/page.tsx:209-226 | navigate, close and reopen: the history held one entry and is empty after reopening |
| `Desktop.OpenBrowserAndNavigate` | app/desktop/page.tsx:36-48 | from a fresh desktop, opening the browser and navigating once leaves exactly the resolved address in its history |
| `Desktop.ReopenBrowser` | app/desktop/page.tsx:209-213 | closing an open browser and opening it again keeps the desktop's records and mounts a browser in the initial state, whatever the old one held |
| `Desktop.DragSettings` | components/waveos/settings-window.tsx:48-79 | grabbing the settings window and moving the pointer by `d` moves it by `d`; after release, moves leave it in place |
| `Taskbar.AppsRegistry` | components/waveos/taskbar.tsx:63-94 | the registry is exactly settings, files, browser, in the desktop's order |
| `Taskbar.IndicatorTracksWindows` | components/waveos/taskbar.tsx:174-179 | an app button is highlighted exactly when that application's window is open |
| `Taskbar.MouseDownClosesOutside` | components/waveos/taskbar.tsx:36-47 | a mousedown outside a menu's container closes that menu; inside, it keeps it |
| `Taskbar.MenuClicks` | components/waveos/taskbar.tsx:117-171 | each toggle flips only its own flag; a drawer item launches its app and closes the drawer; a centre button launches its app and keeps both flags |
| `Taskbar.PowerMenuExits` | components/waveos/taskbar.tsx:96-104 | Sign Out closes the power menu and routes to `/startup`; Power Off closes it and routes to `/` |
| `Taskbar.PanelPresses` | components/waveos/taskbar.tsx:138-145 | a press on the open drawer's panel (label or padding) keeps the drawer open, closes the power menu and launches nothing; the same for the open power dropdown's padding; a press elsewhere closes both |
| `Taskbar.NeverBothOpen` | components/waveos/taskbar.tsx:37-44 | after any press (mousedown then click), the drawer and the power menu are not both open |
| `Taskbar.TogglePresses` | components/waveos/taskbar.tsx:117 | pressing a toggle opens or closes its menu and closes the other; pressing the drawer button twice restores the drawer |
| `Taskbar.LaunchOpensWindow` | components/waveos/taskbar.tsx:149-152 | every launch from a rendered button names a known application, whose window the desktop then opens |
| `Taskbar.Taskbar.constructor` | components/waveos/taskbar.tsx:23-24 | both menus start closed |
| `Taskbar.Taskbar.MouseDown` | components/waveos/taskbar.tsx:37-44 | performs the click-outside step in place |
| `Taskbar.Taskbar.Click` | components/waveos/taskbar.tsx:96-253 | performs the pressed element's click handler in place and returns its effect |
| `Taskbar.Taskbar.Press` | components/waveos/taskbar.tsx:36-47 | a press on a rendered element never leaves both menus open |
| `Startup.Greeting` | app/startup/page.tsx:35-40 | the greeting is one of the three greetings |
| `Startup.GreetingsDistinct` | app/startup/page.tsx:35-40 | the three greetings are different strings |
| `Startup.GreetingBands` | app/startup/page.tsx:37-39 | morning exactly for hours 0-11, afternoon exactly for 12-17, evening exactly for 18-23 |
| `Startup.GreetingChangesAtNoonAndSix` | app/startup/page.tsx:35-40 | from one hour to the next, wrapping from 23 to 0, the greeting changes exactly when the new hour is 0, 12 or 18 |

## Left out

- Rendering: JSX, CSS, SVG icons and the colour lookups per theme are presentation only. The layout rectangle is kept.
- The clocks: `toLocaleTimeString`/`toLocaleDateString` and the one-second refresh ticks are a locale library and the wall clock. The greeting takes the hour as a parameter.
- The splash page `app/page.tsx` holds only timers and a route change. It is not part of this model.
- `openInCloakedTab` opening a window and writing an iframe into it is browser I/O. Only its guard and its target address are modelled.
- Route changes (`router.push`) are modelled as route strings returned as an effect, not as navigation.
- React mechanics are not modelled: render scheduling, stale closures, `useCallback`, and listener registration (reduced to the `listening` flag of `DragController`).
- Real timers are not modelled. The 500 ms loading delay is the explicit `LoadTimerFires` event.
- Pointer coordinates are integers, not floating point.
- `BrowserWindow.FormatUrl` works on Unicode scalar values. A lone surrogate, on which `encodeURIComponent` throws, cannot occur in a Dafny string.
- The taskbar's effects are not wired to the desktop in one combined state machine. `Taskbar.LaunchOpensWindow` states what a launch does to the desktop's records.
- `Desktop.Desktop.TitleBarMouseDown` and `Desktop.Desktop.PointerUp` do not keep "at most one drag at a time" as an invariant; the code does not enforce it either, since a drag ends only on release.
