/**
  The main process's table of browser windows and its default window
  options (windows.ts). Windows with ids 1 and 2 are taken to be the main
  ones; only windows with larger ids are treated as auxiliary.
*/
module WindowsMain {

  import opened Common

  /** The largest id still treated as a main window. */
  const LastMainWindowId: int := 2

  /** A browser window: its id, whether it has focus, whether it still has
      a menu, and the last title bar overlay colours it was given. */
  class BrowserWindow {
    const id: int
    var focused: bool
    var hasMenu: bool
    var overlay: Option<(string, string)>

    constructor (id: int, focused: bool)
      ensures this.id == id && this.focused == focused && hasMenu && overlay == None
    {
      this.id := id;
      this.focused := focused;
      hasMenu := true;
      overlay := None;
    }
  }

  datatype UpdateWindowEvent = Close | Create

  /** The sequence without the value `k`. */
  function Without(s: seq<int>, k: int): (r: seq<int>)
    ensures forall x :: x in r <==> x in s && x != k
    ensures |r| <= |s|
  {
    if s == [] then [] else (if s[0] == k then [] else [s[0]]) + Without(s[1..], k)
  }

  /** No value occurs twice. */
  predicate Distinct(s: seq<int>) {
    forall i, j :: 0 <= i < j < |s| ==> s[i] != s[j]
  }

  lemma {:induction false} WithoutKeepsDistinct(s: seq<int>, k: int)
    requires Distinct(s)
    ensures Distinct(Without(s, k))
  {
    if s != [] {
      assert Distinct(s[1..]) by {
        forall a, b | 0 <= a < b < |s[1..]|
          ensures s[1..][a] != s[1..][b]
        {
          assert s[1..][a] == s[a + 1] && s[1..][b] == s[b + 1];
        }
      }
      WithoutKeepsDistinct(s[1..], k);
      var t := Without(s[1..], k);
      var r := Without(s, k);
      if s[0] == k {
        assert r == t;
      } else {
        assert r == [s[0]] + t;
        forall a, b | 0 <= a < b < |r|
          ensures r[a] != r[b]
        {
          assert r[b] == t[b - 1] && t[b - 1] in t;
          if a == 0 {
            assert r[0] == s[0];
            assert forall c :: 1 <= c < |s| ==> s[c] != s[0];
            assert s[0] !in s[1..];
          } else {
            assert r[a] == t[a - 1];
          }
        }
      }
    }
  }

  /** `auxWindows`: a `Map` from id to window, with its insertion order. */
  class WindowTable {
    var windows: map<int, BrowserWindow>
    /** The keys in the order `values()` visits them. */
    var order: seq<int>

    ghost predicate Valid()
      reads this
    {
      Distinct(order) &&
      (forall k :: k in windows <==> k in order) &&
      (forall i :: 0 <= i < |order| ==> order[i] in windows) &&
      (forall k :: k in windows ==> windows[k].id == k)
    }

    constructor ()
      ensures windows == map[] && order == [] && Valid()
    {
      windows := map[];
      order := [];
    }

    /**
      `updateWindow`. `Create` maps the window's id to it (a new id goes
      last in the order) and takes its menu away when the id is above 2;
      any other event deletes the id.
    */
    method UpdateWindow(w: BrowserWindow, event: UpdateWindowEvent)
      requires Valid()
      modifies this, w`hasMenu
      ensures Valid()
      ensures event == Create ==>
                windows == old(windows)[w.id := w] &&
                order == (if w.id in old(windows) then old(order) else old(order) + [w.id]) &&
                w.hasMenu == (old(w.hasMenu) && w.id <= LastMainWindowId)
      ensures event == Close ==>
                windows == old(windows) - {w.id} && order == Without(old(order), w.id) &&
                w.hasMenu == old(w.hasMenu)
    {
      if event == Create {
        if w.id !in windows {
          order := order + [w.id];
        }
        windows := windows[w.id := w];
        if w.id > LastMainWindowId {
          w.hasMenu := false;
        }
      } else {
        WithoutKeepsDistinct(order, w.id);
        windows := windows - {w.id};
        order := Without(order, w.id);
        assert Distinct(order);
        forall i | 0 <= i < |order|
          ensures order[i] in windows
        {
          assert order[i] in order;
        }
      }
    }

    /** Index in `order` of the first focused window, if any. */
    function FirstFocused(from: nat): (r: Option<nat>)
      requires Valid() && from <= |order|
      reads this, windows.Values
      ensures r.Some? ==> from <= r.value < |order| && windows[order[r.value]].focused &&
                          forall i :: from <= i < r.value ==> !windows[order[i]].focused
      ensures r.None? ==> forall i :: from <= i < |order| ==> !windows[order[i]].focused
      decreases |order| - from
    {
      if from == |order| then None
      else if windows[order[from]].focused then Some(from)
      else FirstFocused(from + 1)
    }

    /** `getActiveBrowserWindow`: the first focused window in insertion
        order, or none when no window has focus. */
    method GetActiveBrowserWindow() returns (r: Option<BrowserWindow>)
      requires Valid()
      ensures r.Some? <==> exists k :: k in windows && windows[k].focused
      ensures r.Some? ==> FirstFocused(0).Some? && r.value == windows[order[FirstFocused(0).value]]
    {
      for i := 0 to |order|
        invariant forall j :: 0 <= j < i ==> !windows[order[j]].focused
      {
        var window := windows[order[i]];
        if window.focused {
          assert FirstFocused(0) == Some(i);
          r := Some(window);
          assert order[i] in windows && windows[order[i]].focused;
          assert exists k :: k in windows && windows[k].focused;
          assert r.value == windows[order[FirstFocused(0).value]];
          return;
        }
      }
      r := None;
      forall k | k in windows
        ensures !windows[k].focused
      {
        var j :| 0 <= j < |order| && order[j] == k;
      }
    }

    /**
      `updateAuxWindowsTitleControl`: every window with an id above 2 gets
      the overlay colours and loses its menu; the others are left as they
      were.
    */
    method UpdateAuxWindowsTitleControl(color: string, symbolColor: string)
      requires Valid()
      modifies windows.Values
      ensures forall k :: k in windows && k > LastMainWindowId ==>
                windows[k].overlay == Some((color, symbolColor)) && !windows[k].hasMenu
      ensures forall k :: k in windows && k <= LastMainWindowId ==>
                windows[k].overlay == old(windows[k].overlay) && windows[k].hasMenu == old(windows[k].hasMenu)
      ensures forall k :: k in windows ==> windows[k].focused == old(windows[k].focused)
    {
      for i := 0 to |order|
        invariant forall j :: 0 <= j < i && order[j] > LastMainWindowId ==>
                    windows[order[j]].overlay == Some((color, symbolColor)) && !windows[order[j]].hasMenu
        invariant forall j :: 0 <= j < |order| && !(j < i && order[j] > LastMainWindowId) ==>
                    windows[order[j]].overlay == old(windows[order[j]].overlay) &&
                    windows[order[j]].hasMenu == old(windows[order[j]].hasMenu)
        invariant forall k :: k in windows ==> windows[k].focused == old(windows[k].focused)
      {
        var window := windows[order[i]];
        assert forall j :: 0 <= j < |order| && j != i ==> windows[order[j]] != window;
        if window.id > LastMainWindowId {
          window.overlay := Some((color, symbolColor));
          window.hasMenu := false;
        }
      }
      forall k | k in windows
        ensures k > LastMainWindowId ==> windows[k].overlay == Some((color, symbolColor)) && !windows[k].hasMenu
        ensures k <= LastMainWindowId ==>
                  windows[k].overlay == old(windows[k].overlay) && windows[k].hasMenu == old(windows[k].hasMenu)
      {
        var j :| 0 <= j < |order| && order[j] == k;
      }
    }

    /** `updateAuxWindowsMenu`: every window with an id above 2 loses its
        menu; the others are left as they were. */
    method UpdateAuxWindowsMenu()
      requires Valid()
      modifies windows.Values
      ensures forall k :: k in windows ==>
                windows[k].hasMenu == (old(windows[k].hasMenu) && k <= LastMainWindowId)
      ensures forall k :: k in windows ==>
                windows[k].overlay == old(windows[k].overlay) && windows[k].focused == old(windows[k].focused)
    {
      for i := 0 to |order|
        invariant forall j :: 0 <= j < |order| ==>
                    windows[order[j]].hasMenu == (old(windows[order[j]].hasMenu) && (j >= i || order[j] <= LastMainWindowId))
        invariant forall k :: k in windows ==>
                    windows[k].overlay == old(windows[k].overlay) && windows[k].focused == old(windows[k].focused)
      {
        var window := windows[order[i]];
        assert forall j :: 0 <= j < |order| && j != i ==> windows[order[j]] != window;
        if window.id > LastMainWindowId {
          window.hasMenu := false;
        }
      }
      forall k | k in windows
        ensures windows[k].hasMenu == (old(windows[k].hasMenu) && k <= LastMainWindowId)
      {
        var j :| 0 <= j < |order| && order[j] == k;
      }
    }
  }

  // ---------------------------------------------------------------------
  // `defaultBrowserWindowOptions`
  // ---------------------------------------------------------------------

  /** The property names the options records use; any other name the
      caller may pass is an `OtherKey`. */
  datatype Key =
    | BackgroundColor | MinWidth | MinHeight | Title | WebPreferences | ExperimentalDarkMode
    | Icon | AcceptFirstMouse | TitleBarStyle | Frame | TitleBarOverlay
    | Width | Height | X | Y
    | Preload | V8CacheOptions | EnableWebSQL | Spellcheck | ZoomFactor | EnableBlinkFeatures
    | NodeIntegration | ContextIsolation
    | Color | SymbolColor
    | OtherKey(name: string)

  /** A property value of an options record. */
  datatype Value = Undefined | Bool(b: bool) | Num(n: int) | Str(s: string) | Foreign(tag: string) | Record(fields: map<Key, Value>)

  type Options = map<Key, Value>

  datatype Platform = Linux | Windows | Macintosh | OtherPlatform

  /** What the services, the configuration and the platform answer. */
  datatype Env = Env(
    backgroundColor: string,           // themeMainService.getBackgroundColor()
    minWidth: int, minHeight: int,     // WindowMinimumSize
    nameLong: string,                  // productService.nameLong
    preload: string,                   // the preload script's file path
    useCodeCache: bool,
    zoomFactor: Value,                 // zoomLevelToZoomFactor(window.zoomLevel)
    platform: Platform,
    isBuilt: bool,
    appRoot: string,
    clickThroughInactive: Option<bool>,
    titleBarStyle: TitleBarSetting,    // getTitleBarStyle(configuration)
    windowControlsOverlay: bool,       // useWindowControlsOverlay(configuration)
    splashTitleBarBackground: Option<string>,
    isDarker: string -> bool,          // Color.fromHex(c).isDarker()
    join: (string, string) -> string)  // path.join

  /** `windowState`: each of these may be missing. */
  datatype WindowState = WindowState(width: Option<int>, height: Option<int>, x: Option<int>, y: Option<int>)

  function NumberOrUndefined(v: Option<int>): Value {
    if v.Some? then Num(v.value) else Undefined
  }

  /** `{...v}`: the fields of a record; anything else spreads to nothing. */
  function Spread(v: Value): map<Key, Value> {
    if v.Record? then v.fields else map[]
  }

  /** `overrides?.[key]`. */
  function Field(overrides: Option<Options>, key: Key): Value {
    if overrides.Some? && key in overrides.value then overrides.value[key] else Undefined
  }

  /** The caller's entry for `key` when it gives one, else `default`. */
  function Given(overrides: Option<Options>, key: Key, default: Value): Value {
    if overrides.Some? && key in overrides.value then overrides.value[key] else default
  }

  const LinuxIcon: string := "resources/linux/code.png"
  const WindowsIcon: string := "resources/win32/code_150x150.png"
  const White: string := "#FFFFFF"
  const Black: string := "#000000"
  const OverlayHeight: int := 30

  /** The `webPreferences` record: the defaults, node integration on and
      context isolation off, then the caller's `webPreferences`, whose
      entries win. `WebPreferencesDefaults` states the defaults. */
  function WebPreferencesRecord(env: Env, overrides: Option<Options>): (r: map<Key, Value>)
    ensures var given := Spread(Field(overrides, WebPreferences));
            forall k :: k in given ==> k in r && r[k] == given[k]
  {
    map[Preload := Str(env.preload),
        V8CacheOptions := Str(if env.useCodeCache then "bypassHeatCheck" else "none"),
        EnableWebSQL := Bool(false),
        Spellcheck := Bool(false),
        ZoomFactor := env.zoomFactor,
        EnableBlinkFeatures := Str("HighlightAPI")]
    + map[NodeIntegration := Bool(true), ContextIsolation := Bool(false)]
    + Spread(Field(overrides, WebPreferences))
  }

  /** Each default of the `webPreferences` record holds unless the caller's
      `webPreferences` names that key. */
  lemma WebPreferencesDefaults(env: Env, overrides: Option<Options>)
    ensures var r := WebPreferencesRecord(env, overrides);
            var given := Spread(Field(overrides, WebPreferences));
            (Preload !in given ==> Preload in r && r[Preload] == Str(env.preload)) &&
            (V8CacheOptions !in given ==>
               V8CacheOptions in r && r[V8CacheOptions] == Str(if env.useCodeCache then "bypassHeatCheck" else "none")) &&
            (EnableWebSQL !in given ==> EnableWebSQL in r && r[EnableWebSQL] == Bool(false)) &&
            (Spellcheck !in given ==> Spellcheck in r && r[Spellcheck] == Bool(false)) &&
            (ZoomFactor !in given ==> ZoomFactor in r && r[ZoomFactor] == env.zoomFactor) &&
            (EnableBlinkFeatures !in given ==> EnableBlinkFeatures in r && r[EnableBlinkFeatures] == Str("HighlightAPI")) &&
            (NodeIntegration !in given ==> NodeIntegration in r && r[NodeIntegration] == Bool(true)) &&
            (ContextIsolation !in given ==> ContextIsolation in r && r[ContextIsolation] == Bool(false))
  {
  }

  /** The title bar colour: the splash's, else the theme background. */
  function TitleBarColor(env: Env): string {
    env.splashTitleBarBackground.GetOr(env.backgroundColor)
  }

  /** The window controls overlay record, the caller's fields winning. */
  function TitleBarOverlayRecord(env: Env, overrides: Option<Options>): (r: map<Key, Value>)
    ensures var given := Spread(Field(overrides, TitleBarOverlay));
            (forall k :: k in given ==> k in r && r[k] == given[k]) &&
            (Height !in given ==> Height in r && r[Height] == Num(OverlayHeight)) &&
            (Color !in given ==> Color in r && r[Color] == Str(TitleBarColor(env))) &&
            (SymbolColor !in given ==>
               SymbolColor in r && r[SymbolColor] == Str(if env.isDarker(TitleBarColor(env)) then White else Black))
  {
    var color := TitleBarColor(env);
    map[Height := Num(OverlayHeight),
        Color := Str(color),
        SymbolColor := Str(if env.isDarker(color) then White else Black)]
    + Spread(Field(overrides, TitleBarOverlay))
  }

  /** `a` and `b` agree on `k`: both lack it or both map it to the same value. */
  predicate Agrees(a: Options, b: Options, k: Key) {
    (k in a <==> k in b) && (k in a ==> a[k] == b[k])
  }

  /** The four basics under the caller's overrides. */
  function Basics(env: Env, overrides: Option<Options>): (r: Options)
    ensures forall k :: (k != BackgroundColor && k != MinWidth && k != MinHeight && k != Title) ==>
              Agrees(r, overrides.GetOr(map[]), k)
    ensures Title in r && r[Title] == Given(overrides, Title, Str(env.nameLong))
    ensures BackgroundColor in r && r[BackgroundColor] == Given(overrides, BackgroundColor, Str(env.backgroundColor))
    ensures MinWidth in r && r[MinWidth] == Given(overrides, MinWidth, Num(env.minWidth))
    ensures MinHeight in r && r[MinHeight] == Given(overrides, MinHeight, Num(env.minHeight))
  {
    var given := overrides.GetOr(map[]);
    var basics := map[BackgroundColor := Str(env.backgroundColor),
                      MinWidth := Num(env.minWidth),
                      MinHeight := Num(env.minHeight),
                      Title := Str(env.nameLong)];
    var r := basics + given;
    assert forall k :: k in r <==> k in basics || k in given;
    assert forall k :: k in r ==> r[k] == if k in given then given[k] else basics[k];
    r
  }

  /** The four basics, then the caller's overrides, then `webPreferences`
      and dark mode. */
  function InitialOptions(env: Env, overrides: Option<Options>): (r: Options)
    ensures forall k :: k != WebPreferences && k != ExperimentalDarkMode ==> Agrees(r, Basics(env, overrides), k)
    ensures WebPreferences in r && r[WebPreferences] == Record(WebPreferencesRecord(env, overrides))
    ensures ExperimentalDarkMode in r && r[ExperimentalDarkMode] == Bool(true)
  {
    Basics(env, overrides)[WebPreferences := Record(WebPreferencesRecord(env, overrides))][ExperimentalDarkMode := Bool(true)]
  }

  /** The icon: set on Linux, and on Windows out of sources. */
  function WithIcon(env: Env, o: Options): (r: Options)
    ensures forall k :: k != Icon ==> Agrees(r, o, k)
    ensures env.platform == Linux ==> Icon in r && r[Icon] == Str(env.join(env.appRoot, LinuxIcon))
    ensures env.platform == Windows && !env.isBuilt ==> Icon in r && r[Icon] == Str(env.join(env.appRoot, WindowsIcon))
    ensures !(env.platform == Linux || (env.platform == Windows && !env.isBuilt)) ==> r == o
  {
    if env.platform == Linux then o[Icon := Str(env.join(env.appRoot, LinuxIcon))]
    else if env.platform == Windows && !env.isBuilt then o[Icon := Str(env.join(env.appRoot, WindowsIcon))]
    else o
  }

  /** `acceptFirstMouse` on macOS: on unless the setting is exactly `false`. */
  function WithFirstMouse(env: Env, o: Options): (r: Options)
    ensures forall k :: k != AcceptFirstMouse ==> Agrees(r, o, k)
    ensures env.platform == Macintosh ==> AcceptFirstMouse in r && r[AcceptFirstMouse] == Bool(env.clickThroughInactive != Some(false))
    ensures env.platform != Macintosh ==> r == o
  {
    if env.platform == Macintosh then o[AcceptFirstMouse := Bool(env.clickThroughInactive != Some(false))]
    else o
  }

  /** The custom title style: hidden title bar, no frame except on macOS,
      and the controls overlay or `false`. */
  function WithTitleBar(env: Env, overrides: Option<Options>, o: Options): (r: Options)
    ensures forall k :: k != TitleBarStyle && k != Frame && k != TitleBarOverlay ==> Agrees(r, o, k)
    ensures env.titleBarStyle == Custom ==>
              TitleBarStyle in r && r[TitleBarStyle] == Str("hidden") &&
              (env.platform != Macintosh ==> Frame in r && r[Frame] == Bool(false)) &&
              (env.platform == Macintosh ==> Agrees(r, o, Frame)) &&
              TitleBarOverlay in r &&
              r[TitleBarOverlay] == (if env.windowControlsOverlay then Record(TitleBarOverlayRecord(env, overrides)) else Bool(false))
    ensures env.titleBarStyle != Custom ==> r == o
  {
    if env.titleBarStyle == Custom then
      var hidden := o[TitleBarStyle := Str("hidden")];
      var framed := if env.platform != Macintosh then hidden[Frame := Bool(false)] else hidden;
      if env.windowControlsOverlay then framed[TitleBarOverlay := Record(TitleBarOverlayRecord(env, overrides))]
      else framed[TitleBarOverlay := Bool(false)]
    else o
  }

  /** The main window's size and position from the window state. */
  function WithGeometry(isMainWindow: bool, state: WindowState, o: Options): (r: Options)
    ensures forall k :: k != Width && k != Height && k != X && k != Y ==> Agrees(r, o, k)
    ensures isMainWindow ==>
              Width in r && r[Width] == NumberOrUndefined(state.width) &&
              Height in r && r[Height] == NumberOrUndefined(state.height) &&
              X in r && r[X] == NumberOrUndefined(state.x) &&
              Y in r && r[Y] == NumberOrUndefined(state.y)
    ensures !isMainWindow ==> r == o
  {
    if isMainWindow then
      o[Width := NumberOrUndefined(state.width)][Height := NumberOrUndefined(state.height)]
       [X := NumberOrUndefined(state.x)][Y := NumberOrUndefined(state.y)]
    else o
  }

  /**
    The options record, built in the order of the source: the initial
    record, then the icon, first-mouse, title bar and main-window
    assignments, each of which replaces what the overrides said; dark mode
    once more at the end.
  */
  function DefaultBrowserWindowOptions(env: Env, isMainWindow: bool, state: WindowState, overrides: Option<Options>): (r: Options)
    ensures ExperimentalDarkMode in r && r[ExperimentalDarkMode] == Bool(true)
  {
    var before := WithTitleBar(env, overrides, WithFirstMouse(env, WithIcon(env, InitialOptions(env, overrides))));
    WithGeometry(isMainWindow, state, before)[ExperimentalDarkMode := Bool(true)]
  }

  /** The options before the title bar step, as the first three steps leave them. */
  function BeforeTitleBar(env: Env, overrides: Option<Options>): Options {
    WithFirstMouse(env, WithIcon(env, InitialOptions(env, overrides)))
  }

  /** The last two steps touch only the geometry and dark mode. */
  lemma AfterTitleBar(env: Env, isMainWindow: bool, state: WindowState, overrides: Option<Options>, k: Key)
    requires k != Width && k != Height && k != X && k != Y && k != ExperimentalDarkMode
    ensures Agrees(DefaultBrowserWindowOptions(env, isMainWindow, state, overrides),
                   WithTitleBar(env, overrides, BeforeTitleBar(env, overrides)), k)
  {
    var o3 := WithTitleBar(env, overrides, BeforeTitleBar(env, overrides));
    var o4 := WithGeometry(isMainWindow, state, o3);
    assert Agrees(o4, o3, k);
    assert DefaultBrowserWindowOptions(env, isMainWindow, state, overrides) == o4[ExperimentalDarkMode := Bool(true)];
  }

  /** A key no step after the first touches keeps its initial value. */
  lemma UntouchedKey(env: Env, isMainWindow: bool, state: WindowState, overrides: Option<Options>, k: Key)
    requires k != Icon && k != AcceptFirstMouse && k != TitleBarStyle && k != Frame && k != TitleBarOverlay
    requires k != Width && k != Height && k != X && k != Y && k != ExperimentalDarkMode
    ensures Agrees(DefaultBrowserWindowOptions(env, isMainWindow, state, overrides), InitialOptions(env, overrides), k)
  {
    var o0 := InitialOptions(env, overrides);
    var o1 := WithIcon(env, o0);
    var o2 := WithFirstMouse(env, o1);
    assert Agrees(o1, o0, k) && Agrees(o2, o1, k);
    assert Agrees(WithTitleBar(env, overrides, o2), o2, k);
    AfterTitleBar(env, isMainWindow, state, overrides, k);
  }

  /** `webPreferences` holds the defaults, node integration on and context
      isolation off, except where the caller's `webPreferences` says
      otherwise: the caller's entries are applied last and win. */
  lemma WebPreferencesRule(env: Env, isMainWindow: bool, state: WindowState, overrides: Option<Options>)
    ensures var opts := DefaultBrowserWindowOptions(env, isMainWindow, state, overrides);
            var given := Spread(Field(overrides, WebPreferences));
            WebPreferences in opts && opts[WebPreferences].Record? &&
            var wp := opts[WebPreferences].fields;
            (forall k :: k in given ==> k in wp && wp[k] == given[k]) &&
            (NodeIntegration !in given ==> NodeIntegration in wp && wp[NodeIntegration] == Bool(true)) &&
            (ContextIsolation !in given ==> ContextIsolation in wp && wp[ContextIsolation] == Bool(false))
  {
    UntouchedKey(env, isMainWindow, state, overrides, WebPreferences);
    WebPreferencesDefaults(env, overrides);
  }

  /** The caller's title wins over the product name. */
  lemma TitleRule(env: Env, isMainWindow: bool, state: WindowState, overrides: Option<Options>)
    ensures var opts := DefaultBrowserWindowOptions(env, isMainWindow, state, overrides);
            Title in opts &&
            opts[Title] == (if overrides.Some? && Title in overrides.value then overrides.value[Title] else Str(env.nameLong))
  {
    UntouchedKey(env, isMainWindow, state, overrides, Title);
  }

  /** The caller's background colour wins over the theme's. */
  lemma BackgroundColorRule(env: Env, isMainWindow: bool, state: WindowState, overrides: Option<Options>)
    ensures var opts := DefaultBrowserWindowOptions(env, isMainWindow, state, overrides);
            BackgroundColor in opts &&
            opts[BackgroundColor] == (if overrides.Some? && BackgroundColor in overrides.value then overrides.value[BackgroundColor]
                                      else Str(env.backgroundColor))
  {
    UntouchedKey(env, isMainWindow, state, overrides, BackgroundColor);
  }

  /** The minimum size is `WindowMinimumSize` unless the caller gives its own. */
  lemma MinimumSizeRule(env: Env, isMainWindow: bool, state: WindowState, overrides: Option<Options>)
    ensures var opts := DefaultBrowserWindowOptions(env, isMainWindow, state, overrides);
            MinWidth in opts &&
            opts[MinWidth] == (if overrides.Some? && MinWidth in overrides.value then overrides.value[MinWidth]
                               else Num(env.minWidth)) &&
            MinHeight in opts &&
            opts[MinHeight] == (if overrides.Some? && MinHeight in overrides.value then overrides.value[MinHeight]
                                else Num(env.minHeight))
  {
    UntouchedKey(env, isMainWindow, state, overrides, MinWidth);
    UntouchedKey(env, isMainWindow, state, overrides, MinHeight);
  }

  /** The icon is always set on Linux, on Windows only out of sources, and
      otherwise is whatever the caller gave. */
  lemma IconRule(env: Env, isMainWindow: bool, state: WindowState, overrides: Option<Options>)
    ensures var opts := DefaultBrowserWindowOptions(env, isMainWindow, state, overrides);
            (env.platform == Linux ==> Icon in opts && opts[Icon] == Str(env.join(env.appRoot, LinuxIcon))) &&
            (env.platform == Windows && !env.isBuilt ==> Icon in opts && opts[Icon] == Str(env.join(env.appRoot, WindowsIcon))) &&
            (!(env.platform == Linux || (env.platform == Windows && !env.isBuilt)) ==>
               (Icon in opts <==> overrides.Some? && Icon in overrides.value) &&
               (Icon in opts ==> opts[Icon] == overrides.value[Icon]))
  {
    var o1 := WithIcon(env, InitialOptions(env, overrides));
    LaterStepsKeepIcon(env, overrides, o1);
    InitialIcon(env, overrides);
    AfterTitleBar(env, isMainWindow, state, overrides, Icon);
  }

  /** The first-mouse and title bar steps leave the icon alone. */
  lemma LaterStepsKeepIcon(env: Env, overrides: Option<Options>, o: Options)
    ensures Agrees(WithTitleBar(env, overrides, WithFirstMouse(env, o)), o, Icon)
  {
    assert Agrees(WithFirstMouse(env, o), o, Icon);
  }

  /** Before the icon step, the icon is the caller's. */
  lemma InitialIcon(env: Env, overrides: Option<Options>)
    ensures Agrees(InitialOptions(env, overrides), overrides.GetOr(map[]), Icon)
  {
    assert Agrees(InitialOptions(env, overrides), Basics(env, overrides), Icon);
  }

  /** On macOS a click on an inactive window goes through unless the
      setting is exactly `false`. */
  lemma FirstMouseRule(env: Env, isMainWindow: bool, state: WindowState, overrides: Option<Options>)
    requires env.platform == Macintosh
    ensures var opts := DefaultBrowserWindowOptions(env, isMainWindow, state, overrides);
            AcceptFirstMouse in opts && opts[AcceptFirstMouse] == Bool(env.clickThroughInactive != Some(false))
  {
    var o2 := BeforeTitleBar(env, overrides);
    assert Agrees(WithTitleBar(env, overrides, o2), o2, AcceptFirstMouse);
    AfterTitleBar(env, isMainWindow, state, overrides, AcceptFirstMouse);
  }

  /** The custom title style hides the native title bar, drops the frame
      except on macOS, and installs the controls overlay or turns it off. */
  lemma CustomTitleBarRule(env: Env, isMainWindow: bool, state: WindowState, overrides: Option<Options>)
    requires env.titleBarStyle == Custom
    ensures var opts := DefaultBrowserWindowOptions(env, isMainWindow, state, overrides);
            TitleBarStyle in opts && opts[TitleBarStyle] == Str("hidden") &&
            (env.platform != Macintosh ==> Frame in opts && opts[Frame] == Bool(false)) &&
            TitleBarOverlay in opts &&
            opts[TitleBarOverlay] ==
              (if env.windowControlsOverlay then Record(TitleBarOverlayRecord(env, overrides)) else Bool(false))
  {
    AfterTitleBar(env, isMainWindow, state, overrides, TitleBarStyle);
    AfterTitleBar(env, isMainWindow, state, overrides, Frame);
    AfterTitleBar(env, isMainWindow, state, overrides, TitleBarOverlay);
  }

  /** Any other title style leaves these three entries to the caller. */
  lemma NativeTitleBarRule(env: Env, isMainWindow: bool, state: WindowState, overrides: Option<Options>, k: Key)
    requires env.titleBarStyle != Custom
    requires k == TitleBarStyle || k == Frame || k == TitleBarOverlay
    ensures var opts := DefaultBrowserWindowOptions(env, isMainWindow, state, overrides);
            (k in opts <==> overrides.Some? && k in overrides.value) &&
            (k in opts ==> opts[k] == overrides.value[k])
  {
    var o0 := InitialOptions(env, overrides);
    var o1 := WithIcon(env, o0);
    var o2 := WithFirstMouse(env, o1);
    assert Agrees(o1, o0, k) && Agrees(o2, o1, k);
    assert Agrees(o0, Basics(env, overrides), k);
    assert Agrees(Basics(env, overrides), overrides.GetOr(map[]), k);
    AfterTitleBar(env, isMainWindow, state, overrides, k);
  }

  /** Through the title bar step, a key none of the first four steps sets
      is the caller's. */
  lemma CallerKeyThroughTitleBar(env: Env, overrides: Option<Options>, k: Key)
    requires k != Title && k != BackgroundColor && k != MinWidth && k != MinHeight
    requires k != WebPreferences && k != ExperimentalDarkMode && k != Icon
    requires k != TitleBarStyle && k != TitleBarOverlay
    requires k == AcceptFirstMouse ==> env.platform != Macintosh
    requires k == Frame ==> env.platform == Macintosh
    ensures Agrees(WithTitleBar(env, overrides, BeforeTitleBar(env, overrides)), overrides.GetOr(map[]), k)
  {
    var o0 := InitialOptions(env, overrides);
    var o1 := WithIcon(env, o0);
    var o2 := WithFirstMouse(env, o1);
    assert Agrees(o0, Basics(env, overrides), k);
    assert Agrees(Basics(env, overrides), overrides.GetOr(map[]), k);
    assert Agrees(o1, o0, k) && Agrees(o2, o1, k);
    assert Agrees(WithTitleBar(env, overrides, o2), o2, k);
  }

  /** First-mouse off macOS and the frame on macOS are the caller's: the
      steps that set them do not apply there. */
  lemma CallerKeyRule(env: Env, isMainWindow: bool, state: WindowState, overrides: Option<Options>, k: Key)
    requires (k == AcceptFirstMouse && env.platform != Macintosh) || (k == Frame && env.platform == Macintosh)
    ensures Agrees(DefaultBrowserWindowOptions(env, isMainWindow, state, overrides), overrides.GetOr(map[]), k)
  {
    CallerKeyThroughTitleBar(env, overrides, k);
    AfterTitleBar(env, isMainWindow, state, overrides, k);
  }

  /** For a window other than the main one, the last two steps touch only dark mode. */
  lemma SecondaryAfterTitleBar(env: Env, state: WindowState, overrides: Option<Options>, k: Key)
    requires k != ExperimentalDarkMode
    ensures Agrees(DefaultBrowserWindowOptions(env, false, state, overrides),
                   WithTitleBar(env, overrides, BeforeTitleBar(env, overrides)), k)
  {
    var o3 := WithTitleBar(env, overrides, BeforeTitleBar(env, overrides));
    assert WithGeometry(false, state, o3) == o3;
    assert DefaultBrowserWindowOptions(env, false, state, overrides) == o3[ExperimentalDarkMode := Bool(true)];
  }

  /** A window other than the main one keeps the caller's size and position. */
  lemma SecondaryWindowGeometryRule(env: Env, state: WindowState, overrides: Option<Options>, k: Key)
    requires k == Width || k == Height || k == X || k == Y
    ensures Agrees(DefaultBrowserWindowOptions(env, false, state, overrides), overrides.GetOr(map[]), k)
  {
    CallerKeyThroughTitleBar(env, overrides, k);
    SecondaryAfterTitleBar(env, state, overrides, k);
  }

  /** The main window takes its size and position from the window state. */
  lemma MainWindowGeometryRule(env: Env, state: WindowState, overrides: Option<Options>)
    ensures var opts := DefaultBrowserWindowOptions(env, true, state, overrides);
            Width in opts && opts[Width] == NumberOrUndefined(state.width) &&
            Height in opts && opts[Height] == NumberOrUndefined(state.height) &&
            X in opts && opts[X] == NumberOrUndefined(state.x) &&
            Y in opts && opts[Y] == NumberOrUndefined(state.y)
  {
  }

  /** The symbol colour of the overlay is white exactly when the title bar
      colour is dark, unless the caller gives one. */
  lemma OverlaySymbolColor(env: Env, isMainWindow: bool, state: WindowState, overrides: Option<Options>)
    requires env.titleBarStyle == Custom && env.windowControlsOverlay
    requires SymbolColor !in Spread(Field(overrides, TitleBarOverlay))
    ensures var opts := DefaultBrowserWindowOptions(env, isMainWindow, state, overrides);
            TitleBarOverlay in opts && opts[TitleBarOverlay].Record? && SymbolColor in opts[TitleBarOverlay].fields &&
            (opts[TitleBarOverlay].fields[SymbolColor] == Str(White) <==> env.isDarker(TitleBarColor(env)))
  {
    CustomTitleBarRule(env, isMainWindow, state, overrides);
  }
}
