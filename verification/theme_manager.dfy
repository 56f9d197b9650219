/**
 * `ThemeManager`: whether the document carries the `dark` class, the theme
 * stored in `localStorage` (absent until the user toggles), and the system
 * preference `(prefers-color-scheme: dark)`.
 */
module ThemeManager {
  import opened Wrappers

  datatype Theme = Theme(dark: bool, stored: Option<string>)

  /** `#applyTheme()`: dark for a stored `"dark"`, or for the system preference when nothing is stored. */
  function ApplyTheme(t: Theme, systemDark: bool): (r: Theme)
    ensures r.stored == t.stored
    ensures r.dark <==> t.stored == Some("dark") || (t.stored.None? && systemDark)
  {
    t.(dark := t.stored == Some("dark") || (t.stored.None? && systemDark))
  }

  /** `#handleSystemThemeChange(e)`: follows `e.matches` only while no theme is stored. */
  function SystemThemeChange(t: Theme, matches: bool): (r: Theme)
    ensures r.stored == t.stored
    ensures t.stored.Some? ==> r == t
    ensures t.stored.None? ==> r.dark == matches
  {
    if t.stored.None? then t.(dark := matches) else t
  }

  /** `#handleToggleClick()`: flips the class and stores the theme now shown. */
  function ToggleClick(t: Theme): (r: Theme)
    ensures r.dark == !t.dark
    ensures r.stored == Some(if r.dark then "dark" else "light")
  {
    Theme(!t.dark, Some(if t.dark then "light" else "dark"))
  }

  /** After a toggle, applying the stored theme again shows what the toggle showed, whatever the system prefers. */
  lemma ToggleIsPersisted(t: Theme, systemDark: bool)
    ensures ApplyTheme(ToggleClick(t), systemDark) == ToggleClick(t)
  {
  }

  /** Two toggles restore the class (the stored theme is then the one shown). */
  lemma ToggleTwice(t: Theme)
    ensures ToggleClick(ToggleClick(t)).dark == t.dark
    ensures ToggleClick(ToggleClick(t)).stored == Some(if t.dark then "dark" else "light")
  {
  }

  /** Once the user has toggled, system changes are ignored from then on. */
  lemma ToggledIgnoresSystem(t: Theme, matches: bool)
    ensures SystemThemeChange(ToggleClick(t), matches) == ToggleClick(t)
  {
  }

  /** With nothing stored, a system change shows what applying the theme with the new preference shows. */
  lemma SystemChangeAgreesWithApply(t: Theme, matches: bool)
    requires t.stored.None?
    ensures SystemThemeChange(t, matches) == ApplyTheme(t, matches)
  {
  }
}
