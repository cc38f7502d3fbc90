/** The settings window: a 500 x 400 window whose Appearance section holds the two
    theme buttons and the six accent-colour swatches. The window's drag handlers are
    a `DragControl.DragController` that listens only while a drag is in progress. */
module SettingsWindow {
  import opened Geometry

  const SettingsSize: Size := Size(500, 400)

  /** The desktop theme, `"dark" | "light"`. */
  datatype Theme = Dark | Light

  function ThemeName(t: Theme): (r: string)
    ensures r == "dark" || r == "light"
  {
    match t
    case Dark => "dark"
    case Light => "light"
  }

  /** A theme button is highlighted (accent background, accent border) exactly when
      its theme is the current one; pressing it sets that theme. */
  predicate ThemeButtonActive(button: Theme, theme: Theme)
  {
    button == theme
  }

  /** One accent swatch: its tooltip name and its colour value (also its list key). */
  datatype Swatch = Swatch(name: string, value: string)

  const AccentColors: seq<Swatch> := [
    Swatch("Teal", "#7AD0BD"),
    Swatch("Blue", "#5B9BD5"),
    Swatch("Purple", "#9B7AD0"),
    Swatch("Pink", "#D07A9B"),
    Swatch("Orange", "#D0A07A"),
    Swatch("Green", "#7AD07A")
  ]

  /** A swatch is ringed (white border, coloured halo) when it equals the accent colour. */
  predicate Ringed(i: int, accentColor: string)
    requires 0 <= i < |AccentColors|
  {
    AccentColors[i].value == accentColor
  }

  /** The indices of the ringed swatches. */
  function RingedSwatches(accentColor: string): (r: set<int>)
    ensures forall i :: i in r ==> 0 <= i < |AccentColors|
  {
    set i | 0 <= i < |AccentColors| && AccentColors[i].value == accentColor
  }

  predicate IsAccentValue(c: string)
  {
    exists i :: 0 <= i < |AccentColors| && AccentColors[i].value == c
  }

  /** The value a swatch's click passes to `setAccentColor`. */
  function PickedAccent(i: int): (c: string)
    requires 0 <= i < |AccentColors|
    ensures IsAccentValue(c)
  {
    AccentColors[i].value
  }

  /** The six swatch values are pairwise distinct (they are the list's keys). */
  lemma AccentValuesDistinct()
    ensures forall i, j :: 0 <= i < j < |AccentColors| ==> AccentColors[i].value != AccentColors[j].value
  {
    forall i, j | 0 <= i < j < |AccentColors|
      ensures AccentColors[i].value != AccentColors[j].value
    {
      var u, v := AccentColors[i].value, AccentColors[j].value;
      assert u[1] != v[1] || u[3] != v[3] || u[5] != v[5];
    }
  }

  /** When the accent colour is one of the palette's, exactly that swatch is ringed;
      otherwise none is. */
  lemma RingedExactlyOne(accentColor: string)
    ensures forall i :: 0 <= i < |AccentColors| && AccentColors[i].value == accentColor
              ==> RingedSwatches(accentColor) == {i}
    ensures !IsAccentValue(accentColor) ==> RingedSwatches(accentColor) == {}
  {
    AccentValuesDistinct();
  }

  /** After picking swatch `i`, swatch `i` and no other is ringed. */
  lemma PickRingsPicked(i: int)
    requires 0 <= i < |AccentColors|
    ensures RingedSwatches(PickedAccent(i)) == {i}
    ensures forall j :: 0 <= j < |AccentColors| ==> (Ringed(j, PickedAccent(i)) <==> j == i)
  {
    RingedExactlyOne(PickedAccent(i));
  }

  /** Exactly one of the two theme buttons is highlighted, whatever the theme, and
      after pressing a button it is the highlighted one. */
  lemma ThemeButtonsExclusive(theme: Theme, pressed: Theme)
    ensures ThemeButtonActive(Dark, theme) != ThemeButtonActive(Light, theme)
    ensures ThemeButtonActive(pressed, pressed)
    ensures ThemeName(theme) == "dark" <==> ThemeButtonActive(Dark, theme)
  {
  }

  /** The settings window is 500 x 400 at its position when windowed, and spans the
      viewport above the taskbar band when fullscreen. */
  lemma SettingsLayout(position: Point, viewport: Size)
    ensures Layout(SettingsSize, false, position, viewport) == Rect(position.x, position.y, 500, 400)
    ensures Layout(SettingsSize, true, position, viewport) == Rect(0, 0, viewport.width, viewport.height - 48)
  {
  }
}
