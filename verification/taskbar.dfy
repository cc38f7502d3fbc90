/** The taskbar: the app drawer on the left, the app buttons in the centre, the power
    menu on the right. Its state is the two flags `showAppDrawer` and `showPowerMenu`.
    A document-level mousedown closes each menu the press lands outside of; a click
    then runs the pressed button's handler. Handlers either change the flags, ask the
    desktop to open an application, or leave the desktop for another route. */
module Taskbar {
  import Desktop

  /** An entry of the app registry: id (passed to `onOpenApp`) and display name. */
  datatype App = App(id: string, name: string)

  const Apps: seq<App> := [App("settings", "Settings"), App("files", "Files"), App("browser", "Browser")]

  /** The registry's ids are the desktop's application ids, in the desktop's order. */
  lemma AppsRegistry()
    ensures |Apps| == 3
    ensures forall i :: 0 <= i < |Apps| ==> Desktop.ParseAppId(Apps[i].id).Some?
    ensures forall i :: 0 <= i < |Apps| ==> Desktop.Rank(Desktop.ParseAppId(Apps[i].id).value) == i
    ensures forall a: Desktop.AppId :: 0 <= Desktop.Rank(a) < |Apps| && Apps[Desktop.Rank(a)].id == Desktop.AppIdString(a)
  {
  }

  function IsAppId(id: string): bool
  {
    exists i :: 0 <= i < |Apps| && Apps[i].id == id
  }

  /** An app button shows the highlight and the dot when its id is in `openApps`. */
  predicate Indicated(openApps: seq<string>, id: string)
  {
    id in openApps
  }

  /** Fed with the desktop's `openApps`, an app button is indicated exactly when that
      application's window is open. */
  lemma IndicatorTracksWindows(d: Desktop.DesktopState, i: int)
    requires 0 <= i < |Apps|
    ensures Desktop.ParseAppId(Apps[i].id).Some?
    ensures Indicated(Desktop.OpenApps(d), Apps[i].id) <==> Desktop.Window(d, Desktop.ParseAppId(Apps[i].id).value).isOpen
  {
    AppsRegistry();
    Desktop.OpenAppsMembership(d);
  }

  datatype Menus = Menus(showAppDrawer: bool, showPowerMenu: bool)

  /** Where a press lands. The drawer's container holds the drawer button and, while
      the drawer is shown, its panel (the "All Apps" label and the padding around the
      items) and its items; the power menu's container holds the power button and, while
      the menu is shown, its dropdown's padding, Sign Out and Power Off. */
  datatype Target =
    | DrawerButton
    | DrawerPanel
    | DrawerItem(id: string)
    | CenterButton(id: string)
    | PowerButton
    | PowerPanel
    | SignOutItem
    | PowerOffItem
    | Elsewhere

  predicate InDrawerContainer(t: Target)
  {
    t.DrawerButton? || t.DrawerPanel? || t.DrawerItem?
  }

  predicate InPowerContainer(t: Target)
  {
    t.PowerButton? || t.PowerPanel? || t.SignOutItem? || t.PowerOffItem?
  }

  /** A target that is on screen in state `m`. */
  predicate Rendered(m: Menus, t: Target)
  {
    match t
    case DrawerPanel => m.showAppDrawer
    case DrawerItem(id) => m.showAppDrawer && IsAppId(id)
    case CenterButton(id) => IsAppId(id)
    case PowerPanel => m.showPowerMenu
    case SignOutItem => m.showPowerMenu
    case PowerOffItem => m.showPowerMenu
    case _ => true
  }

  /** What a handler asks of the rest of the system. */
  datatype Effect = NoEffect | Launch(appId: string) | Route(path: string)

  const SignOutRoute: string := "/startup"
  const PowerOffRoute: string := "/"

  /** The document-level mousedown handler. */
  function AfterMouseDown(m: Menus, t: Target): (r: Menus)
  {
    Menus(m.showAppDrawer && InDrawerContainer(t), m.showPowerMenu && InPowerContainer(t))
  }

  /** The click handler of the pressed element. */
  function AfterClick(m: Menus, t: Target): (Menus, Effect)
  {
    match t
    case DrawerButton => (m.(showAppDrawer := !m.showAppDrawer), NoEffect)
    case DrawerPanel => (m, NoEffect)
    case DrawerItem(id) => (m.(showAppDrawer := false), Launch(id))
    case CenterButton(id) => (m, Launch(id))
    case PowerButton => (m.(showPowerMenu := !m.showPowerMenu), NoEffect)
    case PowerPanel => (m, NoEffect)
    case SignOutItem => (m.(showPowerMenu := false), Route(SignOutRoute))
    case PowerOffItem => (m.(showPowerMenu := false), Route(PowerOffRoute))
    case Elsewhere => (m, NoEffect)
  }

  /** A press: mousedown, then click on the same element. */
  function Pressed(m: Menus, t: Target): (Menus, Effect)
  {
    AfterClick(AfterMouseDown(m, t), t)
  }

  /** A mousedown outside a menu's container closes that menu; inside, it leaves
      the menu as it was. */
  lemma MouseDownClosesOutside(m: Menus, t: Target)
    ensures AfterMouseDown(m, t).showAppDrawer == (if InDrawerContainer(t) then m.showAppDrawer else false)
    ensures AfterMouseDown(m, t).showPowerMenu == (if InPowerContainer(t) then m.showPowerMenu else false)
    ensures !InDrawerContainer(t) && !InPowerContainer(t) ==> AfterMouseDown(m, t) == Menus(false, false)
  {
  }

  /** Each toggle button flips its own flag only; a drawer item launches its app and
      closes the drawer; a centre button launches its app and leaves both flags. */
  lemma MenuClicks(m: Menus, id: string)
    ensures AfterClick(m, DrawerButton) == (Menus(!m.showAppDrawer, m.showPowerMenu), NoEffect)
    ensures AfterClick(m, PowerButton) == (Menus(m.showAppDrawer, !m.showPowerMenu), NoEffect)
    ensures AfterClick(m, DrawerItem(id)) == (Menus(false, m.showPowerMenu), Launch(id))
    ensures AfterClick(m, CenterButton(id)) == (m, Launch(id))
  {
  }

  /** Sign Out and Power Off close the power menu, leave the drawer flag alone and
      leave the desktop for the startup screen and the splash screen. */
  lemma PowerMenuExits(m: Menus)
    ensures AfterClick(m, SignOutItem) == (Menus(m.showAppDrawer, false), Route("/startup"))
    ensures AfterClick(m, PowerOffItem) == (Menus(m.showAppDrawer, false), Route("/"))
  {
  }

  /** A press inside an open menu that hits none of its buttons keeps that menu open,
      closes the other one and asks for nothing. */
  lemma PanelPresses(m: Menus)
    ensures m.showAppDrawer ==> Pressed(m, DrawerPanel) == (Menus(true, false), NoEffect)
    ensures m.showPowerMenu ==> Pressed(m, PowerPanel) == (Menus(false, true), NoEffect)
    ensures Pressed(m, Elsewhere) == (Menus(false, false), NoEffect)
  {
  }

  /** After any press, the drawer and the power menu are not both shown: each toggle
      button lies outside the other menu's container, so its mousedown closes the
      other menu before its click opens its own. */
  lemma NeverBothOpen(m: Menus, t: Target)
    ensures !(Pressed(m, t).0.showAppDrawer && Pressed(m, t).0.showPowerMenu)
  {
  }

  /** Pressing a toggle button twice restores its menu when the other one was closed;
      opening one menu closes the other. */
  lemma TogglePresses(m: Menus)
    ensures Pressed(m, DrawerButton).0 == Menus(!m.showAppDrawer, false)
    ensures Pressed(m, PowerButton).0 == Menus(false, !m.showPowerMenu)
    ensures Pressed(Pressed(m, DrawerButton).0, DrawerButton).0 == Menus(m.showAppDrawer, false)
  {
  }

  /** Every launch a rendered target can ask for names a known application, and the
      desktop then shows that application's window open. */
  lemma LaunchOpensWindow(m: Menus, t: Target, d: Desktop.DesktopState)
    requires Rendered(m, t)
    ensures Pressed(m, t).1.Launch? ==> Desktop.ParseAppId(Pressed(m, t).1.appId).Some?
    ensures Pressed(m, t).1.Launch? ==>
      var a := Desktop.ParseAppId(Pressed(m, t).1.appId).value;
      Desktop.Window(Desktop.OpenedApp(d, Pressed(m, t).1.appId), a).isOpen
  {
    AppsRegistry();
    if Pressed(m, t).1.Launch? {
      Desktop.OpenAppEffect(d, Pressed(m, t).1.appId);
    }
  }

  /** The taskbar component's menu state. */
  class Taskbar {
    var showAppDrawer: bool
    var showPowerMenu: bool

    function State(): Menus
      reads this
    {
      Menus(showAppDrawer, showPowerMenu)
    }

    /** Both menus start closed. */
    constructor ()
      ensures State() == Menus(false, false)
    {
      showAppDrawer := false;
      showPowerMenu := false;
    }

    /** `handleClickOutside`. */
    method MouseDown(t: Target)
      modifies this
      ensures State() == AfterMouseDown(old(State()), t)
    {
      if !InPowerContainer(t) {
        showPowerMenu := false;
      }
      if !InDrawerContainer(t) {
        showAppDrawer := false;
      }
    }

    /** The pressed element's `onClick`. */
    method Click(t: Target) returns (effect: Effect)
      modifies this
      ensures (State(), effect) == AfterClick(old(State()), t)
    {
      match t
      case DrawerButton =>
        showAppDrawer := !showAppDrawer;
        effect := NoEffect;
      case DrawerPanel =>
        effect := NoEffect;
      case DrawerItem(id) =>
        effect := Launch(id);
        showAppDrawer := false;
      case CenterButton(id) =>
        effect := Launch(id);
      case PowerButton =>
        showPowerMenu := !showPowerMenu;
        effect := NoEffect;
      case PowerPanel =>
        effect := NoEffect;
      case SignOutItem =>
        showPowerMenu := false;
        effect := Route(SignOutRoute);
      case PowerOffItem =>
        showPowerMenu := false;
        effect := Route(PowerOffRoute);
      case Elsewhere =>
        effect := NoEffect;
    }

    /** A full press on a rendered element; the menus are never both left open. */
    method Press(t: Target) returns (effect: Effect)
      requires Rendered(State(), t)
      modifies this
      ensures (State(), effect) == Pressed(old(State()), t)
      ensures !(showAppDrawer && showPowerMenu)
    {
      MouseDown(t);
      effect := Click(t);
      NeverBothOpen(old(State()), t);
    }
  }
}
