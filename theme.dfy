/** The colour theme of `useTheme` (src/hooks/useTheme.ts): a setting that is "light", "dark" or
    "auto", and whether the page is dark, which in "auto" follows the system preference. */
module Theme {
  import opened Types

  /** The setting. Storage is read back without validation, so any other non-empty string can
      become the setting; it is kept as `Other`. */
  datatype Setting = Light | Dark | Auto | Other(raw: string)

  /** The string stored and compared. */
  function Name(t: Setting): (r: string)
    ensures WellFormed(t) ==> (t == Light <==> r == "light")
    ensures WellFormed(t) ==> (t == Dark <==> r == "dark")
    ensures WellFormed(t) ==> (t == Auto <==> r == "auto")
  {
    match t
    case Light => "light"
    case Dark => "dark"
    case Auto => "auto"
    case Other(raw) => raw
  }

  /** Reads a stored string back. */
  function Parse(s: string): (r: Setting)
    ensures r.Other? <==> s !in {"light", "dark", "auto"}
  {
    if s == "light" then Light
    else if s == "dark" then Dark
    else if s == "auto" then Auto
    else Other(s)
  }

  /** A setting that `Parse` can produce. */
  predicate WellFormed(t: Setting) {
    t.Other? ==> t.raw !in {"light", "dark", "auto"}
  }

  /** Reading back what was stored gives the setting again, and storing what was read gives the
      string again. */
  lemma NameParse(t: Setting, s: string)
    ensures WellFormed(t) ==> Parse(Name(t)) == t
    ensures Name(Parse(s)) == s
    ensures WellFormed(Parse(s))
  {
  }

  /** The first render: the stored string when it is non-empty, otherwise "auto". */
  function Initial(saved: Option<string>): (r: Setting)
    ensures !Truthy(saved) ==> r == Auto
    ensures Truthy(saved) ==> Name(r) == saved.value
    ensures WellFormed(r)
  {
    if Truthy(saved) then Parse(saved.value) else Auto
  }

  /** `toggleTheme`'s transition: auto to light to dark and back to auto; anything else goes to
      auto. */
  function Next(t: Setting): (r: Setting)
    ensures r != t
    ensures !r.Other?
  {
    if t == Auto then Light
    else if t == Light then Dark
    else Auto
  }

  /** The cycle runs auto, light, dark and back to auto, so three toggles come back to each of the
      three settings; an unknown setting joins the cycle at "auto" on the first toggle. */
  lemma ThreeToggles(t: Setting)
    ensures Next(Auto) == Light && Next(Light) == Dark && Next(Dark) == Auto
    ensures !t.Other? ==> Next(Next(Next(t))) == t
    ensures t.Other? ==> Next(t) == Auto
  {
  }

  /** `isDark` for a setting: the system preference in "auto", otherwise whether the setting is
      "dark" (an unknown setting is light). */
  function DarkFor(t: Setting, systemDark: bool): (r: bool)
    ensures t != Auto ==> (r <==> t == Dark)
    ensures t == Auto ==> r == systemDark
  {
    if t == Auto then systemDark else t == Dark
  }

  /** The hook's state once its effects have run. */
  class ThemeState {
    var setting: Setting
    var systemDark: bool
    var isDark: bool

    /** `isDark` agrees with the setting and the system preference. */
    predicate Valid()
      reads this
    {
      isDark == DarkFor(setting, systemDark)
    }

    constructor (saved: Option<string>, systemDark: bool)
      ensures setting == Initial(saved) && this.systemDark == systemDark
      ensures Valid()
    {
      setting := Initial(saved);
      this.systemDark := systemDark;
      isDark := DarkFor(Initial(saved), systemDark);
    }

    method ToggleTheme()
      modifies this
      ensures setting == Next(old(setting)) && systemDark == old(systemDark)
      ensures Valid()
    {
      setting := Next(setting);
      isDark := DarkFor(setting, systemDark);
    }

    /** `setThemeManual`. */
    method SetTheme(t: Setting)
      modifies this
      ensures setting == t && systemDark == old(systemDark)
      ensures Valid()
    {
      setting := t;
      isDark := DarkFor(t, systemDark);
    }

    /** The `change` listener of the `prefers-color-scheme` media query. */
    method SystemChange(dark: bool)
      requires Valid()
      modifies this
      ensures setting == old(setting) && systemDark == dark
      ensures Valid()
      ensures old(setting) != Auto ==> isDark == old(isDark)
    {
      systemDark := dark;
      isDark := DarkFor(setting, dark);
    }
  }
}
