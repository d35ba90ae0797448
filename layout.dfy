/**
 * The shell of components/Layout.tsx: which navigation entry is highlighted, the banner
 * shown when no API key is configured, and the dark/light theme switch.
 *
 * The document's `dark` class and the `allnoop-theme` entry of local storage are kept as two
 * fields; nothing else of the DOM is modelled.
 */
module Layout {
  import opened Wrappers
  import opened Strings
  import opened Environment

  // ---------------------------------------------------------------------------
  // Navigation

  /** The paths of the sidebar entries, in order. */
  const NavPaths: seq<string> := ["/", "/docs", "/mock-data", "/regex", "/simplify", "/commit-msg",
    "/sql-nosql", "/og-image", "/github-push", "/cron", "/json-types", "/readme"]

  /** `isActive(path)` while the browser is at `pathname`. */
  function IsActive(path: string, pathname: string): (r: bool)
    ensures path == "/" ==> (r <==> pathname == "/")
    ensures path != "/" ==> (r <==> path <= pathname)
  {
    if path == "/" && pathname != "/" then false
    else pathname == path || (path != "/" && StartsWith(pathname, path))
  }

  /** `s.startsWith(prefix)` */
  function StartsWith(s: string, prefix: string): (r: bool)
    ensures r <==> prefix <= s
  {
    |prefix| <= |s| && s[..|prefix|] == prefix
  }

  /** The dashboard's path prefixes every other path, yet it is highlighted only on "/". */
  lemma DashboardOnlyOnRoot(pathname: string)
    ensures forall i :: 0 <= i < |NavPaths| ==> "/" <= NavPaths[i]
    ensures IsActive("/", pathname) <==> pathname == "/"
  {
  }

  /** The prefix test is on raw characters, not on path segments. */
  lemma PrefixIsNotSegmentAware()
    ensures IsActive("/regex", "/regex-tester")
    ensures IsActive("/cron", "/cronjobs")
  {
    assert "/regex" <= "/regex-tester";
    assert "/cron" <= "/cronjobs";
  }

  /** On a sub-page of an entry, that entry stays highlighted. */
  lemma SubPageKeepsEntry(path: string, rest: string)
    requires path != "/"
    ensures IsActive(path, path + rest)
  {
    assert path <= path + rest;
  }

  // ---------------------------------------------------------------------------
  // The missing-key banner

  /**
   * What the banner's effect reads: `typeof process !== 'undefined' ? process.env.API_KEY :
   * window.VITE_API_KEY`. With a `process` that has no `env` the read throws.
   */
  function ProbeKey(e: Env): (r: Result<Option<string>, string>)
    ensures e.process.None? ==> r == Ok(e.windowViteKey)
    ensures e.process.Some? && e.process.value.env.Some? ==> r == Ok(ProcessApiKey(e))
    ensures r.Err? <==> e.process.Some? && e.process.value.env.None?
  {
    if e.process.None? then Ok(e.windowViteKey)
    else if e.process.value.env.None? then Err("TypeError")
    else Ok(e.process.value.env.value.apiKey)
  }

  /**
   * After the start-up shim the read cannot throw, and the banner's key is missing exactly
   * when the shim found no key.
   */
  lemma BannerAfterShim(before: Env, after: Env)
    requires ShimmedFrom(before, after)
    ensures ProbeKey(after).Ok?
    ensures !Truthy(ProbeKey(after).value) <==> !Truthy(DetectedKey(before))
  {
  }

  // ---------------------------------------------------------------------------
  // Theme

  /** The theme as the page and the browser hold it. */
  datatype Theme = Theme(isDarkMode: bool, documentDark: bool, stored: Option<string>)

  /** What `toggleTheme` makes of a theme. */
  function Toggled(t: Theme): (r: Theme)
    ensures r.isDarkMode == !t.isDarkMode
    ensures r.documentDark == r.isDarkMode
    ensures r.stored == Some(if r.isDarkMode then "dark" else "light")
  {
    var newMode := !t.isDarkMode;
    Theme(newMode, newMode, Some(if newMode then "dark" else "light"))
  }

  /** Toggling twice restores the mode; the class and the stored value then agree with it. */
  lemma ToggleTwice(t: Theme)
    ensures Toggled(Toggled(t)).isDarkMode == t.isDarkMode
    ensures Toggled(Toggled(t)) == Theme(t.isDarkMode, t.isDarkMode, Some(if t.isDarkMode then "dark" else "light"))
  {
  }

  /** Once toggled, the page, the class and the stored value stay in step. */
  predicate InStep(t: Theme) {
    t.documentDark == t.isDarkMode && t.stored == Some(if t.isDarkMode then "dark" else "light")
  }

  lemma ToggleKeepsInStep(t: Theme)
    ensures InStep(Toggled(t))
    ensures InStep(t) ==> InStep(Toggled(t)) && Toggled(t) != t
  {
  }

  /** The layout's state. */
  class Shell {
    var isDarkMode: bool
    var isApiKeyMissing: bool
    var documentDark: bool
    var stored: Option<string>

    function ThemeOf(): Theme
      reads this
    {
      Theme(isDarkMode, documentDark, stored)
    }

    /** The first render: dark mode on and no banner, whatever the document holds. */
    constructor (documentDark: bool, stored: Option<string>)
      ensures ThemeOf() == Theme(true, documentDark, stored) && !isApiKeyMissing
    {
      isDarkMode := true;
      isApiKeyMissing := false;
      this.documentDark := documentDark;
      this.stored := stored;
    }

    /**
     * The key effect: the banner is switched on when the key it reads is falsy, and is never
     * switched off. `threw` reports the read that fails, which leaves the flag as it was.
     */
    method CheckApiKey(e: Env) returns (threw: bool)
      modifies this
      ensures threw <==> ProbeKey(e).Err?
      ensures isApiKeyMissing == (old(isApiKeyMissing) || (ProbeKey(e).Ok? && !Truthy(ProbeKey(e).value)))
      ensures ThemeOf() == old(ThemeOf())
    {
      var key := ProbeKey(e);
      if key.Err? {
        return true;
      }
      if !Truthy(key.value) {
        isApiKeyMissing := true;
      }
      return false;
    }

    /** The theme effect: the page adopts the document's `dark` class. */
    method InitTheme()
      modifies this
      ensures ThemeOf() == old(ThemeOf()).(isDarkMode := old(documentDark))
      ensures isApiKeyMissing == old(isApiKeyMissing)
    {
      isDarkMode := documentDark;
    }

    /** `toggleTheme()` */
    method ToggleTheme()
      modifies this
      ensures ThemeOf() == Toggled(old(ThemeOf()))
      ensures isApiKeyMissing == old(isApiKeyMissing)
    {
      var newMode := !isDarkMode;
      isDarkMode := newMode;
      if newMode {
        documentDark := true;
        stored := Some("dark");
      } else {
        documentDark := false;
        stored := Some("light");
      }
    }
  }
}
