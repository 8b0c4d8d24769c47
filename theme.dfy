/** The colour theme: a stored preference and the `theme-light` class on the
    document root. */
module Theme {
  import opened Wrappers

  /** `localStorage.getItem(THEME_KEY) || 'dark'`: nothing stored, or the
      empty string, means dark. */
  function Effective(stored: Option<string>): (t: string)
    ensures t == "dark" <==> stored == None || stored == Some("") || stored == Some("dark")
    ensures stored.Some? && stored.value != "" ==> t == stored.value
  {
    if stored.None? || stored.value == "" then "dark" else stored.value
  }

  /** The theme toggleTheme switches to. */
  function Toggled(current: string): (t: string)
    ensures t == "light" || t == "dark"
    ensures t == "light" <==> current == "dark"
  {
    if current == "dark" then "light" else "dark"
  }

  /** Toggling twice comes back exactly to the two themes the toggle itself
      produces; any other stored value is replaced by dark after one toggle. */
  lemma ToggleTwice(current: string)
    ensures Toggled(Toggled(current)) == current <==> current == "light" || current == "dark"
  {
  }

  class ThemeState {
    /** The stored preference. */
    var stored: Option<string>
    /** Whether the document root has the `theme-light` class. */
    var lightClass: bool

    /** The class matches the stored preference. */
    predicate ClassMatchesStored()
      reads this
    {
      lightClass <==> stored == Some("light")
    }

    constructor (stored: Option<string>)
      ensures this.stored == stored && !lightClass
    {
      this.stored := stored;
      lightClass := false;
    }

    /** applyTheme: set the class exactly for 'light', then store the theme. */
    method ApplyTheme(theme: string)
      modifies this
      ensures lightClass <==> theme == "light"
      ensures stored == Some(theme)
      ensures ClassMatchesStored()
    {
      lightClass := theme == "light";
      stored := Some(theme);
    }

    /** toggleTheme: dark (or nothing stored) becomes light, anything else dark. */
    method ToggleTheme()
      modifies this
      ensures stored == Some(Toggled(Effective(old(stored))))
      ensures lightClass <==> Effective(old(stored)) == "dark"
      ensures ClassMatchesStored()
    {
      var current := Effective(stored);
      ApplyTheme(Toggled(current));
    }

    /** initThemeToggle: on a page with the toggle button, apply the stored
        theme, dark by default; on a page without one, change nothing. */
    method Init(hasButton: bool)
      modifies this
      ensures hasButton ==> stored == Some(Effective(old(stored))) && ClassMatchesStored()
      ensures !hasButton ==> stored == old(stored) && lightClass == old(lightClass)
    {
      if !hasButton {
        return;
      }
      ApplyTheme(Effective(stored));
    }
  }
}
