/**
 * The theme slice: a two-state machine (`light` / `dark`) whose reducers
 * also write the new mode to the `theme` storage slot (only in a browser).
 */
module Theme {
  import opened Wrappers

  datatype Mode = Light | Dark

  /** The string stored for a mode. */
  function ModeName(m: Mode): (r: string)
    ensures r == "light" || r == "dark"
    ensures r == "dark" <==> m == Dark
  {
    match m
    case Light => "light"
    case Dark => "dark"
  }

  /** The mode a stored `theme` item stands for: only the exact strings count. */
  function ParseMode(saved: Option<string>): (r: Option<Mode>)
    ensures r.Some? <==> saved == Some("light") || saved == Some("dark")
    ensures r.Some? ==> saved == Some(ModeName(r.value))
  {
    if saved == Some("light") then Some(Light)
    else if saved == Some("dark") then Some(Dark)
    else None
  }

  /** What `toggleTheme` switches to. */
  function Opposite(m: Mode): (r: Mode)
    ensures r != m
  {
    if m == Light then Dark else Light
  }

  /** Toggling twice restores the mode. */
  lemma ToggleTwiceRestores(m: Mode)
    ensures Opposite(Opposite(m)) == m
  {
  }

  /** A mode written to the slot reads back as the same mode. */
  lemma PersistedModeRoundTrip(m: Mode)
    ensures ParseMode(Some(ModeName(m))) == Some(m)
  {
  }

  /** The theme state together with its persisted storage slot. */
  class ThemeStore {
    var mode: Mode
    /** The `theme` storage slot: the string last written, if any. */
    ghost var persisted: Option<string>
    /** Whether the reducers run where `window` (and so storage) exists. */
    const inBrowser: bool

    /** The initial state is the dark theme. */
    constructor (inBrowser: bool, ghost slot: Option<string>)
      ensures mode == Dark
      ensures persisted == slot
      ensures this.inBrowser == inBrowser
    {
      mode := Dark;
      persisted := slot;
      this.inBrowser := inBrowser;
    }

    method ToggleTheme()
      modifies this
      ensures mode == Opposite(old(mode))
      ensures persisted == if inBrowser then Some(ModeName(mode)) else old(persisted)
    {
      mode := if mode == Light then Dark else Light;
      if inBrowser {
        persisted := Some(ModeName(mode));
      }
    }

    method SetTheme(m: Mode)
      modifies this
      ensures mode == m
      ensures persisted == if inBrowser then Some(ModeName(m)) else old(persisted)
    {
      mode := m;
      if inBrowser {
        persisted := Some(ModeName(mode));
      }
    }

    method InitializeTheme(saved: Option<string>)
      modifies this
      ensures inBrowser && ParseMode(saved).Some? ==> mode == ParseMode(saved).value
      ensures !(inBrowser && ParseMode(saved).Some?) ==> mode == old(mode)
      ensures persisted == old(persisted)
    {
      if inBrowser {
        if saved == Some("light") || saved == Some("dark") {
          mode := if saved.value == "light" then Light else Dark;
        }
      }
    }
  }

  /** Toggling twice leaves the mode and the slot as one toggle back would. */
  method ToggleTwice(store: ThemeStore)
    modifies store
    ensures store.mode == old(store.mode)
    ensures store.inBrowser ==> store.persisted == Some(ModeName(old(store.mode)))
  {
    store.ToggleTheme();
    store.ToggleTheme();
  }

  /** Setting a mode twice has the same effect as setting it once. */
  method SetThemeTwice(store: ThemeStore, m: Mode)
    modifies store
    ensures store.mode == m
    ensures store.persisted == if store.inBrowser then Some(ModeName(m)) else old(store.persisted)
  {
    store.SetTheme(m);
    store.SetTheme(m);
  }

  /**
   * After a toggle in a browser, a fresh store initialised from the slot's
   * contents (`saved`, as read back from storage) takes the toggled mode.
   */
  method ReloadAfterToggle(store: ThemeStore, saved: Option<string>) returns (reloaded: ThemeStore)
    requires store.inBrowser
    modifies store
    ensures store.mode == Opposite(old(store.mode))
    ensures saved == store.persisted ==> reloaded.mode == store.mode
  {
    store.ToggleTheme();
    reloaded := new ThemeStore(true, saved);
    PersistedModeRoundTrip(store.mode);
    reloaded.InitializeTheme(saved);
  }
}
