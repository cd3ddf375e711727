/**
 * `withTheme`: the theme state of the wrapped component, the mount effect
 * that adopts a stored theme, and `toggleTheme`, which also stores the new
 * theme. `storage` stands for `window.localStorage`.
 */
module Theme {

  const Light := "light"
  const Dark := "dark"
  const StorageKey := "theme"

  /** `theme === "light" ? "dark" : "light"` */
  function NextTheme(theme: string): (r: string)
    ensures r == Dark <==> theme == Light
    ensures r == Light <==> theme != Light
  {
    if theme == Light then Dark else Light
  }

  /** Toggling twice restores the theme exactly for the two built-in themes. */
  lemma NextThemeTwice(theme: string)
    ensures NextTheme(NextTheme(theme)) == theme <==> theme == Light || theme == Dark
  {
  }

  /** After one toggle, the theme is always one of the two built-in themes. */
  lemma NextThemeIsBuiltIn(theme: string)
    ensures NextTheme(theme) == Light || NextTheme(theme) == Dark
  {
  }

  class Themed {
    var theme: string
    var storage: map<string, string>

    /** `useState("light")` */
    constructor (storage: map<string, string>)
      ensures theme == Light && this.storage == storage
    {
      theme := Light;
      this.storage := storage;
    }

    /** The mount effect: a stored theme that is present and non-empty replaces the current one. */
    method Mount()
      modifies this
      ensures storage == old(storage)
      ensures StorageKey in storage && storage[StorageKey] != "" ==> theme == storage[StorageKey]
      ensures !(StorageKey in storage && storage[StorageKey] != "") ==> theme == old(theme)
    {
      if StorageKey in storage {
        var storedTheme := storage[StorageKey];
        if storedTheme != "" {
          theme := storedTheme;
        }
      }
    }

    /**
     * `toggleTheme`: switch the theme, then store the new one under "theme".
     * `accepted` is false when the host's `setItem` throws (a full or
     * blocked store): nothing catches that, so the exception leaves the
     * handler after the theme was already switched, and the store is unchanged.
     */
    method ToggleTheme(accepted: bool)
      modifies this
      ensures theme == NextTheme(old(theme))
      ensures accepted ==> storage == old(storage)[StorageKey := theme]
      ensures !accepted ==> storage == old(storage)
    {
      var newTheme := NextTheme(theme);
      theme := newTheme;
      if accepted {
        storage := storage[StorageKey := newTheme];
      }
    }
  }

  /**
   * With nothing stored, the component starts light, and two toggles bring it
   * back to light; a toggle whose write is refused leaves the stored theme behind.
   */
  method Scenario() {
    var c := new Themed(map[]);
    c.Mount();
    assert c.theme == Light;
    c.ToggleTheme(true);
    assert c.theme == Dark && c.storage[StorageKey] == Dark;
    c.ToggleTheme(true);
    assert c.theme == Light && c.storage[StorageKey] == Light;
    c.ToggleTheme(false);
    assert c.theme == Dark && c.storage[StorageKey] == Light;
  }
}
