/** The application controller (public/js/app.js): the current view and
    the history entries navigation pushes, the theme setting and the page's
    theme, the quick-capture panel and its submit rule. Loading data,
    rendering and the capture request are outside the model; their outcomes
    are parameters. */
module App {
  import opened Optionals
  import opened Strings
  import opened Utils

  /** The keys of the controller's view table. */
  const Views: set<String> := {"dashboard", "board", "notes", "links", "focus", "activity", "settings"}

  /** The views whose table entry is meant to be a manager object; the other
      three keys hold `null`. */
  const ManagedViews: set<String> := {"dashboard", "board", "notes", "links"}

  /** The three `null` entries, each with a "coming soon" placeholder page. */
  const Placeholders: set<String> := {"focus", "activity", "settings"}

  /** The views whose entry is a manager as the table is written: it reads
      `window.dashboardManager` and `window.kanbanBoard`, but the dashboard
      and board scripts publish their managers as `window.dashboard` and
      `window.board`, so only the notes and links entries are set. */
  const WiredAsWritten: set<String> := {"notes", "links"}

  /** The views whose entry is a manager once the table reads the names the
      scripts publish. */
  const IntendedWired: set<String> := ManagedViews

  /** The properties every object literal inherits from `Object.prototype`.
      Each is a function or an object, so `this.views[name]` is truthy for
      them although `hasOwnProperty` rejects them. */
  const InheritedNames: set<String> := {
    "constructor", "__proto__", "toString", "toLocaleString", "valueOf", "hasOwnProperty",
    "isPrototypeOf", "propertyIsEnumerable", "__defineGetter__", "__defineSetter__",
    "__lookupGetter__", "__lookupSetter__"
  }

  /** `this.views[name]` is truthy: a manager entry, or an inherited property. */
  predicate EntrySet(name: String, wired: set<String>) {
    name in wired || name in InheritedNames
  }

  /** The saved settings the controller reads. */
  datatype Settings = Settings(theme: Option<String>, defaultView: Option<String>)

  /** What `renderView` puts on the page. */
  datatype Page = ManagerPage(view: String) | PlaceholderPage(view: String)

  /** `renderView(viewName)` for a table whose manager entries are `wired`:
      the manager renders its view; a view without a manager gets its
      placeholder page; a view with neither leaves the page as it was. */
  function RenderView(viewName: String, wired: set<String>): (r: Option<Page>)
    ensures r.Some? ==> r.value.view == viewName
    ensures r.Some? && r.value.ManagerPage? <==> viewName in wired
    ensures r.None? <==> viewName !in wired && viewName !in Placeholders
  {
    if viewName in wired then Some(ManagerPage(viewName))
    else if viewName in Placeholders then Some(PlaceholderPage(viewName))
    else None
  }

  /** `getInitialView()` for a table whose manager entries are `wired`: the
      hash if its entry is set, else the saved default view if its entry is,
      else the dashboard. `hash` is `location.hash`. An inherited name passes
      the test too, and is returned although it is no view of the table. */
  function InitialView(hash: String, defaultView: Option<String>, wired: set<String>): (v: String)
    requires wired <= ManagedViews
    ensures v in wired || v in InheritedNames || v == "dashboard"
    ensures v in Views <==> v in wired || v == "dashboard"
    ensures EntrySet(HashName(hash), wired) ==> v == HashName(hash)
    ensures !EntrySet(HashName(hash), wired) && defaultView.Some? && EntrySet(defaultView.value, wired) ==>
      v == defaultView.value
    ensures !EntrySet(HashName(hash), wired) && !(defaultView.Some? && EntrySet(defaultView.value, wired)) ==>
      v == "dashboard"
  {
    var name := HashName(hash);
    if EntrySet(name, wired) then name
    else if defaultView.Some? && EntrySet(defaultView.value, wired) then defaultView.value
    else "dashboard"
  }

  /** An inherited name in the hash, or as the saved default view with an
      empty hash, is what the start view becomes, and it names no view of
      the table: a reload with '#constructor' and the saved default 'notes'
      starts on 'constructor', which `navigateToView` then refuses. */
  lemma InheritedNameWins(name: String, defaultView: Option<String>, wired: set<String>)
    requires wired <= ManagedViews && name in InheritedNames
    ensures InitialView("#" + name, defaultView, wired) == name
    ensures InitialView("", Some(name), wired) == name
    ensures name !in Views
  {
    assert HashName("#" + name) == name;
    assert HashName("") == [];
  }

  /** Reloading a page whose hash a navigation wrote restores that view,
      for every view whose entry is set. */
  lemma InitialViewOfPushedHash(view: String, defaultView: Option<String>, wired: set<String>)
    requires wired <= ManagedViews && view in wired
    ensures InitialView("#" + view, defaultView, wired) == view
  {
    assert HashName("#" + view) == view;
  }

  /** A placeholder view in the hash is not restored: the reload falls back
      to the default view or the dashboard. */
  lemma PlaceholderHashFallsBack(defaultView: Option<String>, wired: set<String>)
    requires wired <= ManagedViews
    ensures InitialView("#focus", defaultView, wired) == InitialView("", defaultView, wired)
  {
    assert HashName("#focus") == "focus";
  }

  /** As the table is written, the dashboard and the board have neither a
      manager nor a placeholder, so navigating to them renders nothing; the
      start page is the dashboard unless the hash or the default view names
      notes or links, and '#board' is not restored on reload. */
  lemma UnwiredViewsRenderNothing(defaultView: Option<String>)
    ensures RenderView("dashboard", WiredAsWritten).None? && RenderView("board", WiredAsWritten).None?
    ensures InitialView("#board", Some("notes"), WiredAsWritten) == "notes"
    ensures InitialView("#board", None, WiredAsWritten) == "dashboard"
  {
    assert HashName("#board") == "board";
  }

  /** With the intended table every view in it renders a page, and each of
      the four manager views is restored from its hash. */
  lemma EveryViewRendersWhenWired(view: String, defaultView: Option<String>)
    requires view in Views
    ensures RenderView(view, IntendedWired).Some?
    ensures view in ManagedViews ==> InitialView("#" + view, defaultView, IntendedWired) == view
  {
    if view in ManagedViews {
      InitialViewOfPushedHash(view, defaultView, IntendedWired);
    }
  }

  /** `theme || 'dark'`. */
  function ThemeOrDark(theme: Option<String>): (t: String)
    ensures t != []
  {
    if theme.Some? && theme.value != [] then theme.value else "dark"
  }

  /** The view a captured item of each type is listed in. */
  function ListingView(captureType: String): Option<String> {
    if captureType == "task" then Some("board")
    else if captureType == "note" then Some("notes")
    else if captureType == "link" then Some("links")
    else None
  }

  /** The refresh rule of `processQuickCapture`: the view is refreshed when
      it lists the captured type, or is the dashboard. */
  function ShouldRefresh(captureType: String, view: String): (r: bool)
    ensures view == "dashboard" ==> r
    ensures captureType == "task" ==> (r <==> view == "board" || view == "dashboard")
  {
    (captureType == "task" && view == "board") ||
    (captureType == "note" && view == "notes") ||
    (captureType == "link" && view == "links") ||
    view == "dashboard"
  }

  /** The rule reads as: the dashboard, or the view that lists the type. */
  lemma ShouldRefreshListing(captureType: String, view: String)
    ensures ShouldRefresh(captureType, view) <==> view == "dashboard" || ListingView(captureType) == Some(view)
  {
  }

  class MissionControlApp {
    var currentView: String
    /** The `#view` entries `navigateToView` pushed, oldest first. */
    var history: seq<String>
    /** `window.MissionControl.settings.theme`. */
    var settingsTheme: Option<String>
    /** The document's `data-theme`. */
    var pageTheme: String
    var captureVisible: bool
    var captureType: String
    var captureInput: String
    /** The views whose table entry is a manager object. */
    const wired: set<String>
    /** The page the content area shows; `None` before any view rendered. */
    var content: Option<Page>

    /** The constructor and `init()` after the data loaded: the theme from the
      settings, then navigation to the initial view. `wired` is the set of
      views whose manager the table found. An initial view outside the
      table (an inherited name) is refused by the navigation: the view stays
      'dashboard', nothing is pushed and nothing is rendered. */
    constructor (settings: Settings, hash: String, wired: set<String>)
      requires wired <= ManagedViews
      ensures this.wired == wired
      ensures var v := InitialView(hash, settings.defaultView, wired);
        && (v in Views ==> currentView == v && history == ["#" + v] && content == RenderView(v, wired))
        && (v !in Views ==> currentView == "dashboard" && history == [] && content.None?)
      ensures settingsTheme == settings.theme && pageTheme == ThemeOrDark(settings.theme)
      ensures !captureVisible && captureType == "task" && captureInput == []
    {
      this.wired := wired;
      var view := InitialView(hash, settings.defaultView, wired);
      if view in Views {
        currentView := view;
        history := ["#" + view];
        content := RenderView(view, wired);
      } else {
        currentView := "dashboard";
        history := [];
        content := None;
      }
      settingsTheme := settings.theme;
      pageTheme := ThemeOrDark(settings.theme);
      captureVisible := false;
      captureType := "task";
      captureInput := [];
    }

    /** `isViewActive(viewName)`. */
    predicate IsViewActive(viewName: String)
      reads this
    {
      currentView == viewName
    }

    /** `navigateToView(viewName, updateHistory)`: a name outside the view
      table changes nothing; any other becomes the current view, its hash is
      pushed when asked, and the view is rendered, which leaves the page as
      it was for a view with neither a manager nor a placeholder. */
    method NavigateToView(viewName: String, updateHistory: bool)
      modifies this
      ensures viewName !in Views ==> currentView == old(currentView) && history == old(history)
      ensures viewName !in Views ==> content == old(content)
      ensures viewName in Views ==> IsViewActive(viewName)
      ensures viewName in Views && updateHistory ==> history == old(history) + ["#" + viewName]
      ensures viewName in Views && updateHistory ==> CurrentView(history[|history| - 1]) == viewName
      ensures !(viewName in Views && updateHistory) ==> history == old(history)
      ensures viewName in Views && RenderView(viewName, wired).Some? ==> content == RenderView(viewName, wired)
      ensures RenderView(viewName, wired).None? ==> content == old(content)
      ensures settingsTheme == old(settingsTheme) && pageTheme == old(pageTheme)
      ensures captureVisible == old(captureVisible) && captureType == old(captureType)
      ensures captureInput == old(captureInput)
    {
      if viewName !in Views {
        return;
      }
      currentView := viewName;
      if updateHistory {
        history := history + ["#" + viewName];
        CurrentViewOfHash(viewName);
      }
      var page := RenderView(viewName, wired);
      if page.Some? {
        content := page;
      }
    }

    /** Back and forward: the hash's view, or the initial view when the hash
      is empty; no entry is pushed. */
    method OnPopState(hash: String, defaultView: Option<String>)
      requires wired <= ManagedViews
      modifies this
      ensures HashName(hash) in Views ==> currentView == HashName(hash)
      ensures var v := if HashName(hash) != [] then HashName(hash) else InitialView(hash, defaultView, wired);
        && (v in Views ==> currentView == v)
        && (v !in Views ==> currentView == old(currentView))
        && (v in Views && RenderView(v, wired).Some? ==> content == RenderView(v, wired))
        && (!(v in Views && RenderView(v, wired).Some?) ==> content == old(content))
      ensures history == old(history)
      ensures settingsTheme == old(settingsTheme) && pageTheme == old(pageTheme)
      ensures captureVisible == old(captureVisible) && captureType == old(captureType)
      ensures captureInput == old(captureInput)
    {
      var name := HashName(hash);
      var view := if name != [] then name else InitialView(hash, defaultView, wired);
      NavigateToView(view, false);
    }

    /** The page shows the theme the settings hold. */
    predicate ThemeInSync()
      reads this
    {
      pageTheme == ThemeOrDark(settingsTheme)
    }

    /** `toggleTheme()`: the setting flips at once; the page follows only when
      the setting was saved (`saved`). */
    method ToggleTheme(saved: bool)
      modifies this
      ensures content == old(content)
      ensures settingsTheme == Some(ToggledTheme(old(settingsTheme).GetOr([])))
      ensures saved ==> pageTheme == settingsTheme.value && ThemeInSync()
      ensures !saved ==> pageTheme == old(pageTheme)
      ensures currentView == old(currentView) && history == old(history)
      ensures captureVisible == old(captureVisible) && captureType == old(captureType)
      ensures captureInput == old(captureInput)
    {
      var newTheme := ToggledTheme(settingsTheme.GetOr([]));
      settingsTheme := Some(newTheme);
      if saved {
        pageTheme := newTheme;
      }
    }

    /** Showing the panel while it is shown changes nothing. */
    method ShowQuickCapture()
      modifies this
      ensures content == old(content)
      ensures captureVisible
      ensures currentView == old(currentView) && history == old(history)
      ensures settingsTheme == old(settingsTheme) && pageTheme == old(pageTheme)
      ensures captureType == old(captureType) && captureInput == old(captureInput)
    {
      if !captureVisible {
        captureVisible := true;
      }
    }

    /** Hiding the panel while it is hidden changes nothing. */
    method HideQuickCapture()
      modifies this
      ensures content == old(content)
      ensures !captureVisible
      ensures currentView == old(currentView) && history == old(history)
      ensures settingsTheme == old(settingsTheme) && pageTheme == old(pageTheme)
      ensures captureType == old(captureType) && captureInput == old(captureInput)
    {
      if captureVisible {
        captureVisible := false;
      }
    }

    /** A click on a capture type button. */
    method SelectCaptureType(t: String)
      modifies this
      ensures content == old(content)
      ensures captureType == t
      ensures currentView == old(currentView) && history == old(history)
      ensures settingsTheme == old(settingsTheme) && pageTheme == old(pageTheme)
      ensures captureVisible == old(captureVisible) && captureInput == old(captureInput)
    {
      captureType := t;
    }

    /** Typing in the capture box: the input's value. */
    method TypeCapture(value: String)
      modifies this
      ensures content == old(content)
      ensures captureInput == value
      ensures currentView == old(currentView) && history == old(history)
      ensures settingsTheme == old(settingsTheme) && pageTheme == old(pageTheme)
      ensures captureVisible == old(captureVisible) && captureType == old(captureType)
    {
      captureInput := value;
    }

    /** Enter in the capture box. Blank input submits nothing. Otherwise the
      trimmed text is sent with the selected type; `succeeded` is whether the
      request succeeded, and only then is the view refreshed, by the refresh
      rule. The box is cleared and hidden either way. */
    method OnCaptureEnter(succeeded: bool) returns (sent: Option<(String, String)>, refreshed: bool)
      modifies this
      ensures content == old(content)
      ensures Blank(old(captureInput)) ==> sent.None? && !refreshed
      ensures Blank(old(captureInput)) ==> captureInput == old(captureInput) && captureVisible == old(captureVisible)
      ensures !Blank(old(captureInput)) ==>
        && sent == Some((Trim(old(captureInput)), captureType))
        && Trim(old(captureInput)) != []
        && refreshed == (succeeded && ShouldRefresh(captureType, currentView))
        && captureInput == [] && !captureVisible
      ensures currentView == old(currentView) && history == old(history)
      ensures settingsTheme == old(settingsTheme) && pageTheme == old(pageTheme)
      ensures captureType == old(captureType)
    {
      BlankIsTrimEmpty(captureInput);
      if Blank(captureInput) {
        return None, false;
      }
      sent := Some((Trim(captureInput), captureType));
      refreshed := succeeded && ShouldRefresh(captureType, currentView);
      captureInput := [];
      HideQuickCapture();
    }
  }

  /** A failed save leaves the setting and the page apart: toggled once from
      dark without saving, the setting says light while the page stays dark;
      the next, saved, toggle then returns the setting to dark with no
      visible change. */
  method ThemeAfterFailedSave() returns (setting: String, page: String, settingAfterRetry: String, pageAfterRetry: String)
    ensures setting == "light" && page == "dark"
    ensures settingAfterRetry == "dark" && pageAfterRetry == "dark"
  {
    var app := new MissionControlApp(Settings(Some("dark"), None), "", IntendedWired);
    app.ToggleTheme(false);
    setting, page := app.settingsTheme.GetOr([]), app.pageTheme;
    app.ToggleTheme(true);
    settingAfterRetry, pageAfterRetry := app.settingsTheme.GetOr([]), app.pageTheme;
  }
}
