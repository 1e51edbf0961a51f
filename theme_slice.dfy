/**
 * The theme slice of `src/store/slices/themeSlice.ts`: light or dark, and
 * the value last written to the device storage under `@theme_mode`.
 */
module ThemeSlice {
  datatype ThemeMode = Light | Dark

  /** The storage key the reducers write to. */
  const THEME_MODE_KEY: string := "@theme_mode"

  /** The other mode. */
  function Toggled(m: ThemeMode): (r: ThemeMode)
    ensures r != m
  {
    if m == Light then Dark else Light
  }

  /** Toggling twice gives the mode back. */
  lemma ToggleTwice(m: ThemeMode)
    ensures Toggled(Toggled(m)) == m
  {
  }

  class ThemeState {
    var mode: ThemeMode
    /** The device storage the reducers write to. */
    ghost var storage: map<string, ThemeMode>

    /**
     * `initialState`: light, whatever storage holds from an earlier run (the
     * slice never reads it back).
     */
    constructor (storage: map<string, ThemeMode>)
      ensures mode == Light && this.storage == storage
    {
      mode := Light;
      this.storage := storage;
    }

    /** `setThemeMode`: the mode, persisted under `THEME_MODE_KEY`. */
    method SetThemeMode(m: ThemeMode)
      modifies this
      ensures mode == m && storage == old(storage)[THEME_MODE_KEY := m]
    {
      mode := m;
      storage := storage[THEME_MODE_KEY := m];
    }

    /** `toggleTheme`: the other mode, persisted under `THEME_MODE_KEY`. */
    method ToggleTheme()
      modifies this
      ensures mode == Toggled(old(mode)) && storage == old(storage)[THEME_MODE_KEY := mode]
    {
      mode := if mode == Light then Dark else Light;
      storage := storage[THEME_MODE_KEY := mode];
    }
  }
}
