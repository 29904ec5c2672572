/**
 * The weather app header: the logo follows the theme, and the toggle sets
 * `"dark"` when the theme is `"light"` and `"light"` otherwise.
 */
module Header {
  import opened ThemeUtils

  const LightLogo: string := "/logo_light.png"
  const DarkLogo: string := "/logo_dark.png"

  /** `isLight = theme === 'light'`. */
  predicate IsLight(theme: Theme) {
    theme == "light"
  }

  /** The theme the toggle sets. */
  function Toggle(theme: Theme): (r: Theme)
    ensures r == "dark" <==> theme == "light"
    ensures r == "light" <==> theme != "light"
  {
    if IsLight(theme) then "dark" else "light"
  }

  /** The logo image the header shows. */
  function Logo(theme: Theme): (r: string)
    ensures r == LightLogo <==> theme == "light"
    ensures r == LightLogo || r == DarkLogo
  {
    if IsLight(theme) then LightLogo else DarkLogo
  }

  /** Light and dark swap; the system theme is treated as not light and becomes light. */
  lemma ToggleCases()
    ensures Toggle("light") == "dark"
    ensures Toggle("dark") == "light"
    ensures Toggle("system") == "light"
  {
  }

  /** Two toggles bring light and dark back, but take the system theme to dark. */
  lemma ToggleTwice(theme: Theme)
    ensures theme != "system" ==> Toggle(Toggle(theme)) == theme
    ensures theme == "system" ==> Toggle(Toggle(theme)) == "dark"
  {
  }

  /** The toggle never produces the system theme, so after one click the header is always light or dark. */
  lemma ToggleLeavesSystem(theme: Theme)
    ensures Toggle(theme) != "system"
    ensures Logo(Toggle(theme)) == LightLogo <==> theme != "light"
  {
  }
}
