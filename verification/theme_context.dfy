/** The theme provider of `contexts/ThemeContext.jsx`: the current theme and
    whether it is still being read, the stored preference (local storage key
    "theme") and the `data-theme` attribute of the document. The system's
    colour-scheme preference is a parameter. */
module ThemeContext {
  import opened Wrappers

  /** The theme the system prefers: dark exactly when the media query
      `(prefers-color-scheme: dark)` matches. */
  function SystemTheme(prefersDark: bool): (t: string)
    ensures t == "dark" <==> prefersDark
    ensures t == "light" <==> !prefersDark
  {
    if prefersDark then "dark" else "light"
  }

  /** `savedTheme || systemTheme`: a stored, non-empty value wins, whatever
      it is; otherwise the system's preference. */
  function InitialTheme(saved: Option<string>, prefersDark: bool): (t: string)
    ensures Truthy(saved) ==> t == saved.value
    ensures !Truthy(saved) ==> t == SystemTheme(prefersDark)
    ensures t != ""
  {
    if Truthy(saved) then saved.value else SystemTheme(prefersDark)
  }

  /** The updater `toggleTheme` applies. */
  function Toggled(theme: string): (t: string)
    ensures t in {"dark", "light"}
    ensures t == "light" <==> theme == "dark"
  {
    if theme == "dark" then "light" else "dark"
  }

  /** Toggling twice gives back "dark" or "light"; any other stored value
      becomes "light" after two toggles. */
  lemma ToggleTwice(theme: string)
    ensures theme in {"dark", "light"} ==> Toggled(Toggled(theme)) == theme
    ensures theme !in {"dark", "light"} ==> Toggled(Toggled(theme)) == "light"
  {
  }

  class ThemeProvider {
    var theme: string
    var isLoading: bool
    /** The local storage entry "theme". */
    var stored: Option<string>
    /** The document's `data-theme` attribute. */
    var dataTheme: Option<string>

    /** Once loaded, the storage and the document agree with the theme. */
    predicate Synced()
      reads this
    {
      !isLoading ==> stored == Some(theme) && dataTheme == Some(theme)
    }

    /** The first render: "dark", still loading; storage and document as
        found. */
    constructor (stored: Option<string>, dataTheme: Option<string>)
      ensures theme == "dark" && isLoading
      ensures this.stored == stored && this.dataTheme == dataTheme
      ensures Synced()
    {
      theme := "dark";
      isLoading := true;
      this.stored := stored;
      this.dataTheme := dataTheme;
    }

    /** The mount effect: the theme becomes the stored one or the system's,
        loading ends, and the document shows it. The storage is not written
        here. */
    method Initialize(prefersDark: bool)
      modifies this`theme, this`isLoading, this`dataTheme
      ensures theme == InitialTheme(stored, prefersDark)
      ensures !isLoading
      ensures dataTheme == Some(theme)
    {
      var initial := InitialTheme(stored, prefersDark);
      theme := initial;
      isLoading := false;
      dataTheme := Some(initial);
    }

    /** The effect that runs after `theme` or `isLoading` changed: while
        loading it does nothing; afterwards it stores the theme and shows it
        on the document. */
    method PersistTheme()
      modifies this`stored, this`dataTheme
      ensures isLoading ==> stored == old(stored) && dataTheme == old(dataTheme)
      ensures Synced()
    {
      if !isLoading {
        stored := Some(theme);
        dataTheme := Some(theme);
      }
    }

    /** `toggleTheme()`. */
    method ToggleTheme()
      modifies this`theme
      ensures theme == Toggled(old(theme))
    {
      theme := Toggled(theme);
    }

    /** Mounting: the mount effect, then the persistence effect of the next
        render. Afterwards the theme is the stored or system one, and it is
        stored. */
    method Mount(prefersDark: bool)
      modifies this`theme, this`isLoading, this`stored, this`dataTheme
      ensures theme == InitialTheme(old(stored), prefersDark) && !isLoading
      ensures stored == Some(theme) && dataTheme == Some(theme)
    {
      Initialize(prefersDark);
      PersistTheme();
    }

    /** A toggle once loaded, followed by its persistence effect: the new
        theme is stored. */
    method ToggleAndPersist()
      requires !isLoading
      modifies this`theme, this`stored, this`dataTheme
      ensures theme == Toggled(old(theme))
      ensures stored == Some(theme) && dataTheme == Some(theme)
    {
      ToggleTheme();
      PersistTheme();
    }
  }
}
