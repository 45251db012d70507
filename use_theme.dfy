/** The `useTheme` hook: the chosen theme (light, dark or following the system), the
    theme actually shown, the `dark` class on the document root and the stored choice. */
module UseTheme {

  import Coupons

  /** The `Theme` union. A stored string is cast to it unchecked, so any other name can
      reach the state too. */
  datatype Theme = Light | Dark | System | Other(name: string)

  /** The string a theme is stored and compared as. */
  function NameOf(t: Theme): (name: string)
    ensures Named(t) ==> (name == "light" <==> t == Light)
    ensures Named(t) ==> (name == "dark" <==> t == Dark)
    ensures Named(t) ==> (name == "system" <==> t == System)
  {
    match t
    case Light => "light"
    case Dark => "dark"
    case System => "system"
    case Other(name) => name
  }

  /** The theme a stored string stands for. */
  function ThemeOf(s: string): (t: Theme)
    ensures NameOf(t) == s
  {
    if s == "light" then Light
    else if s == "dark" then Dark
    else if s == "system" then System
    else Other(s)
  }

  /** A theme whose name is not one of the three the union declares. */
  predicate Named(t: Theme)
  {
    t.Other? ==> t.name != "light" && t.name != "dark" && t.name != "system"
  }

  /** Storing a theme and reading it back gives the same theme. */
  lemma ThemeOfNameOf(t: Theme)
    requires Named(t)
    ensures ThemeOf(NameOf(t)) == t
  {
  }

  /** Every stored string reads back as a theme without a clashing name. */
  lemma ThemeOfNamed(s: string)
    ensures Named(ThemeOf(s))
  {
  }

  /** The `toggleTheme` updater: light to dark, dark to system, anything else to light. */
  function Next(t: Theme): (r: Theme)
    ensures r != t && !r.Other?
  {
    if t == Light then Dark
    else if t == Dark then System
    else Light
  }

  /** Toggling three times comes back to the declared theme it started from. */
  lemma NextThreeTimes(t: Theme)
    requires !t.Other?
    ensures Next(Next(Next(t))) == t
  {
  }

  /** Toggling from an undeclared name goes through all three declared themes. */
  lemma NextFromOther(t: Theme)
    requires t.Other?
    ensures Next(t) == Light && Next(Next(t)) == Dark && Next(Next(Next(t))) == System
  {
  }

  /** `updateTheme`'s choice: the system preference for `system`, the theme itself
      otherwise. */
  function Resolve(t: Theme, prefersDark: bool): (r: Theme)
    ensures r != System
    ensures t != System ==> r == t
    ensures t == System ==> (r == Dark <==> prefersDark) && (r == Light <==> !prefersDark)
  {
    if t == System then (if prefersDark then Dark else Light) else t
  }

  /** The theme chosen on mount: the stored string when there is a non-empty one,
      `system` otherwise. */
  function InitialTheme(stored: Coupons.Option<string>): (t: Theme)
    ensures stored.Some? && stored.value != [] ==> NameOf(t) == stored.value
    ensures !(stored.Some? && stored.value != []) ==> t == System
  {
    if stored.Some? && stored.value != [] then ThemeOf(stored.value) else System
  }

  /** The hook's state together with what its effect writes outside it. */
  class ThemeState {
    var theme: Theme
    var resolvedTheme: Theme
    var darkClass: bool
    var storage: Coupons.Option<string>

    /** After the effect: the shown theme is the chosen one resolved, the root has the
        `dark` class exactly when it is dark, and the choice is stored. */
    ghost predicate Applied(prefersDark: bool)
      reads this
    {
      resolvedTheme == Resolve(theme, prefersDark) &&
      darkClass == (resolvedTheme == Dark) &&
      storage == Coupons.Some(NameOf(theme))
    }

    /** The first render: `system` chosen, `light` shown; `storage` is what the browser
        holds for the theme key. */
    constructor (storage: Coupons.Option<string>)
      ensures theme == System && resolvedTheme == Light && this.storage == storage
    {
      theme := System;
      resolvedTheme := Light;
      darkClass := false;
      this.storage := storage;
    }

    /** The `[theme]` effect: resolve, set the class, store the choice. */
    method ApplyTheme(prefersDark: bool)
      modifies this
      ensures theme == old(theme)
      ensures Applied(prefersDark)
    {
      if theme == System {
        resolvedTheme := if prefersDark then Dark else Light;
      } else {
        resolvedTheme := theme;
      }
      darkClass := resolvedTheme == Dark;
      storage := Coupons.Some(NameOf(theme));
    }

    /** Mounting: the load effect reads the stored string, the theme effect applies
        `system` (and stores it), and when the stored string was non-empty the theme
        becomes that string and the effect applies it. */
    method Mount(prefersDark: bool)
      requires theme == System
      modifies this
      ensures theme == InitialTheme(old(storage))
      ensures Applied(prefersDark)
    {
      var stored := storage;
      ApplyTheme(prefersDark);
      if stored.Some? && stored.value != [] {
        theme := ThemeOf(stored.value);
        ApplyTheme(prefersDark);
      }
    }

    /** `toggleTheme`, followed by the effect. */
    method ToggleTheme(prefersDark: bool)
      modifies this
      ensures theme == Next(old(theme))
      ensures Applied(prefersDark)
    {
      theme := Next(theme);
      ApplyTheme(prefersDark);
    }

    /** `setTheme`; the effect runs only when the theme changes. */
    method SetTheme(t: Theme, prefersDark: bool)
      requires Named(t)
      modifies this
      ensures theme == t
      ensures t == old(theme) ==> unchanged(this)
      ensures t != old(theme) ==> Applied(prefersDark)
    {
      if t != theme {
        theme := t;
        ApplyTheme(prefersDark);
      }
    }

    /** The media-query listener, registered only while the theme is `system`: it re-runs
        the resolution and the class toggle, and leaves the stored choice alone. */
    method SystemPreferenceChanged(prefersDark: bool)
      requires theme == System
      modifies this
      ensures theme == System && storage == old(storage)
      ensures resolvedTheme == Resolve(System, prefersDark)
      ensures darkClass == (resolvedTheme == Dark)
    {
      resolvedTheme := if prefersDark then Dark else Light;
      darkClass := resolvedTheme == Dark;
    }
  }
}
