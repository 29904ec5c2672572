/**
 * Theme persistence: the chosen theme is kept under a storage key in the
 * browser's `localStorage`, read back with the default filling in for a
 * missing or empty value.
 */
module ThemeUtils {
  import opened JsValues

  /** `type Theme = 'dark' | 'light' | 'system'`. */
  type Theme = s: string | s == "dark" || s == "light" || s == "system" witness "system"

  /** `getItem` on a string-to-string store: `null` for a missing key. */
  function GetItem(items: map<string, string>, key: string): (r: Option<string>)
    ensures r.Some? <==> key in items
    ensures r.Some? ==> r.value == items[key]
  {
    if key in items then Some(items[key]) else None
  }

  /**
   * `(localStorage.getItem(key) as Theme) || defaultTheme`: the cast checks
   * nothing, so whatever non-empty string is stored comes back.
   */
  function InitialTheme(items: map<string, string>, key: string, defaultTheme: Theme): (r: string)
    ensures key in items && items[key] != "" ==> r == items[key]
    ensures key !in items || items[key] == "" ==> r == defaultTheme
  {
    OrElse(GetItem(items, key), defaultTheme)
  }

  /** The browser's `localStorage`, as far as the theme code uses it. */
  class LocalStorage {
    var items: map<string, string>

    constructor(initial: map<string, string>)
      ensures items == initial
    {
      items := initial;
    }

    /** `getInitialTheme(storageKey, defaultTheme)`. */
    method GetInitialTheme(storageKey: string, defaultTheme: Theme) returns (theme: string)
      ensures theme == InitialTheme(items, storageKey, defaultTheme)
      ensures theme != ""
    {
      var stored := GetItem(items, storageKey);
      theme := OrElse(stored, defaultTheme);
    }

    /** `setThemeInLocalStorage(storageKey, theme)`. */
    method SetThemeInLocalStorage(storageKey: string, theme: Theme)
      modifies this
      ensures items == old(items)[storageKey := theme]
    {
      items := items[storageKey := theme];
    }
  }

  /** A theme that was just stored is read back whatever the default. */
  lemma GetAfterSet(items: map<string, string>, key: string, theme: Theme, defaultTheme: Theme)
    ensures InitialTheme(items[key := theme], key, defaultTheme) == theme
  {
  }

  /** Storing under one key leaves what every other key reads unchanged. */
  lemma OtherKeysUnchanged(items: map<string, string>, key: string, theme: Theme, other: string)
    requires other != key
    ensures GetItem(items[key := theme], other) == GetItem(items, other)
  {
  }

  /** The stored text is not checked against the three themes: `"blue"` is returned as it is. */
  lemma StoredValueUnchecked(defaultTheme: Theme)
    ensures var r := InitialTheme(map["theme" := "blue"], "theme", defaultTheme);
      r == "blue" && !(r == "dark" || r == "light" || r == "system")
  {
  }

  /** Storing a theme and reading it back through the class gives that theme. */
  method SetThenGet(store: LocalStorage, key: string, theme: Theme, defaultTheme: Theme) returns (read: string)
    modifies store
    ensures read == theme
    ensures forall k :: k != key ==> GetItem(store.items, k) == GetItem(old(store.items), k)
  {
    store.SetThemeInLocalStorage(key, theme);
    read := store.GetInitialTheme(key, defaultTheme);
  }
}
