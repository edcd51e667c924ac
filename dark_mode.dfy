/**
 * The theme preference of `Frontend/src/hooks/useDarkMode.js`: the initial
 * value read from `localStorage` or the system preference, and the value
 * written back. `hasWindow` is `typeof window !== "undefined"`, and
 * `prefersDark` is the `matches` of the `prefers-color-scheme: dark` query,
 * `None` when `window.matchMedia` is missing.
 */
module DarkMode {
  import opened Wrappers
  import LocalStorage

  const ThemeKey := "theme"

  /** `getInitial`: the stored theme decides when it is "dark" or "light"; otherwise the system preference, by default light. */
  function GetInitial(hasWindow: bool, items: map<string, string>, prefersDark: Option<bool>): (dark: bool)
    ensures !hasWindow ==> !dark
    ensures hasWindow && LocalStorage.Get(items, ThemeKey) == Some("dark") ==> dark
    ensures hasWindow && LocalStorage.Get(items, ThemeKey) == Some("light") ==> !dark
    ensures (hasWindow && LocalStorage.Get(items, ThemeKey) != Some("dark") && LocalStorage.Get(items, ThemeKey) != Some("light"))
      ==> dark == (prefersDark == Some(true))
  {
    if !hasWindow then false
    else
      var stored := LocalStorage.Get(items, ThemeKey);
      if stored == Some("dark") then true
      else if stored == Some("light") then false
      else prefersDark.GetOr(false)
  }

  /** The string the persistence effect writes. */
  function ThemeValue(dark: bool): (v: string)
    ensures v == "dark" || v == "light"
    ensures (v == "dark") == dark
  {
    if dark then "dark" else "light"
  }

  /** The persistence effect: `theme` is "dark" or "light", every other key is kept. */
  method PersistPreference(storage: LocalStorage.Storage, dark: bool)
    modifies storage
    ensures storage.items == old(storage.items)[ThemeKey := ThemeValue(dark)]
  {
    storage.SetItem(ThemeKey, if dark then "dark" else "light");
  }

  /** The persisted preference is read back as the same boolean, whatever the system prefers. */
  lemma PersistedThemeReadsBack(items: map<string, string>, dark: bool, prefersDark: Option<bool>)
    ensures GetInitial(true, items[ThemeKey := ThemeValue(dark)], prefersDark) == dark
  {
  }
}
