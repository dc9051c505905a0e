/**
 * The light/dark theme: the initial choice (stored choice, else the system
 * preference), the `dark` class on the document root, the stored choice under
 * the key "nb.theme", and the reaction to a change of the system preference.
 * The browser environment (storage and the `prefers-color-scheme` query) is a
 * parameter; the document class and the stored value are fields.
 */
module ThemeProvider {
  import opened Wrappers

  datatype Theme = Light | Dark

  function ThemeName(t: Theme): string
  {
    if t == Dark then "dark" else "light"
  }

  /** The flip `toggle` applies; flipping twice is the identity, as the type has two values. */
  function Flip(t: Theme): (r: Theme)
    ensures r != t
  {
    if t == Dark then Light else Dark
  }

  /** What the browser offers at start: the stored value and `matchMedia(...)?.matches` (`None` when unavailable). */
  datatype BrowserEnv = BrowserEnv(stored: Option<string>, prefersDark: Option<bool>)

  /** `readInitialTheme()`; `None` stands for "no window" (server rendering). */
  function ReadInitialTheme(window: Option<BrowserEnv>): (t: Theme)
    ensures window.None? ==> t == Dark
    ensures window.Some? && window.value.stored == Some("light") ==> t == Light
    ensures window.Some? && window.value.stored == Some("dark") ==> t == Dark
    ensures window.Some? && window.value.stored != Some("light") && window.value.stored != Some("dark") ==>
      (t == Dark <==> window.value.prefersDark == Some(true))
  {
    if window.None? then Dark
    else if window.value.stored == Some("light") then Light
    else if window.value.stored == Some("dark") then Dark
    else if window.value.prefersDark == Some(true) then Dark
    else Light
  }

  /** `!stored`: nothing stored, or the empty string. */
  predicate Unset(stored: Option<string>)
  {
    stored.None? || stored.value == []
  }

  function PreferredTheme(matches: bool): Theme
  {
    if matches then Dark else Light
  }

  /** The provider as written: every application of a theme also stores it. */
  class ThemeState {
    var theme: Theme
    var darkClass: bool
    var stored: Option<string>

    /** The page shows `theme`, and the stored value records it. */
    predicate Consistent()
      reads this
    {
      darkClass == (theme == Dark) && stored == Some(ThemeName(theme))
    }

    /** Mounting in a browser: the initial theme, then the effect that applies it. */
    constructor Mount(env: BrowserEnv)
      ensures theme == ReadInitialTheme(Some(env))
      ensures Consistent()
    {
      theme := ReadInitialTheme(Some(env));
      darkClass := ReadInitialTheme(Some(env)) == Dark;
      stored := Some(ThemeName(ReadInitialTheme(Some(env))));
    }

    /** `applyTheme(t)`: the `dark` class is present exactly for dark, and `t` is stored. */
    method ApplyTheme(t: Theme)
      modifies this`darkClass, this`stored
      ensures darkClass == (t == Dark)
      ensures stored == Some(ThemeName(t))
    {
      darkClass := t == Dark;
      stored := Some(ThemeName(t));
    }

    /** `setTheme(t)`; the effect on `theme` re-applies only when the theme changes. */
    method SetTheme(t: Theme)
      modifies this
      ensures theme == t
      ensures t != old(theme) ==> darkClass == (t == Dark) && stored == Some(ThemeName(t))
      ensures t == old(theme) ==> darkClass == old(darkClass) && stored == old(stored)
      ensures old(Consistent()) ==> Consistent()
    {
      if t != theme {
        theme := t;
        ApplyTheme(t);
      }
    }

    /** `toggle()`. */
    method Toggle()
      modifies this
      ensures theme == Flip(old(theme))
      ensures Consistent()
    {
      theme := Flip(theme);
      ApplyTheme(theme);
    }

    /** The `change` listener of the preference query, `matches` being its new value. */
    method OnPreferenceChange(matches: bool)
      modifies this
      ensures Unset(old(stored)) ==> theme == PreferredTheme(matches) && darkClass == (theme == Dark) && stored == Some(ThemeName(theme))
      ensures !Unset(old(stored)) ==> theme == old(theme) && darkClass == old(darkClass) && stored == old(stored)
      ensures old(Consistent()) ==> Consistent()
    {
      if Unset(stored) {
        var next := PreferredTheme(matches);
        ApplyTheme(next);
        if next != theme {
          theme := next;
          ApplyTheme(next);
        }
      }
    }
  }

  /**
   * As written, the listener never takes effect once the provider is mounted:
   * mounting stores the theme, so a later preference change finds a stored value.
   */
  method PreferenceIgnoredAfterMount(env: BrowserEnv, matches: bool) returns (before: Theme, after: Theme)
    ensures before == ReadInitialTheme(Some(env))
    ensures after == before
  {
    var s := new ThemeState.Mount(env);
    before := s.theme;
    s.OnPreferenceChange(matches);
    after := s.theme;
  }

  /**
   * The evidently intended provider: the stored value records only an explicit
   * choice (`setTheme` or `toggle`); showing a theme only sets the class, so the
   * page follows the system preference until the user picks a theme.
   */
  class FollowingThemeState {
    var theme: Theme
    var darkClass: bool
    var stored: Option<string>

    predicate Shown()
      reads this
    {
      darkClass == (theme == Dark)
    }

    constructor Mount(env: BrowserEnv)
      ensures theme == ReadInitialTheme(Some(env))
      ensures stored == env.stored
      ensures Shown()
    {
      theme := ReadInitialTheme(Some(env));
      darkClass := ReadInitialTheme(Some(env)) == Dark;
      stored := env.stored;
    }

    method SetTheme(t: Theme)
      modifies this
      ensures theme == t && stored == Some(ThemeName(t))
      ensures old(Shown()) ==> Shown()
    {
      stored := Some(ThemeName(t));
      if t != theme {
        theme := t;
        darkClass := t == Dark;
      }
    }

    method Toggle()
      modifies this
      ensures theme == Flip(old(theme)) && stored == Some(ThemeName(theme))
      ensures Shown()
    {
      theme := Flip(theme);
      stored := Some(ThemeName(theme));
      darkClass := theme == Dark;
    }

    method OnPreferenceChange(matches: bool)
      modifies this
      ensures Unset(old(stored)) ==> theme == PreferredTheme(matches) && stored == old(stored)
      ensures !Unset(old(stored)) ==> theme == old(theme) && stored == old(stored)
      ensures old(Shown()) ==> Shown()
    {
      if Unset(stored) {
        theme := PreferredTheme(matches);
        darkClass := theme == Dark;
      }
    }
  }

  /** With nothing stored, the corrected provider follows every preference change. */
  method PreferenceFollowedAfterMount(prefersDark: Option<bool>, m1: bool, m2: bool) returns (first: Theme, second: Theme)
    ensures first == PreferredTheme(m1) && second == PreferredTheme(m2)
  {
    var s := new FollowingThemeState.Mount(BrowserEnv(None, prefersDark));
    s.OnPreferenceChange(m1);
    first := s.theme;
    s.OnPreferenceChange(m2);
    second := s.theme;
  }

  /** Once the user picks a theme, the corrected provider keeps it whatever the preference does. */
  method ChoiceSurvivesPreferenceChange(env: BrowserEnv, t: Theme, matches: bool) returns (after: Theme)
    ensures after == t
  {
    var s := new FollowingThemeState.Mount(env);
    s.SetTheme(t);
    s.OnPreferenceChange(matches);
    after := s.theme;
  }
}
