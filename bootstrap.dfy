// scripts/main.js: the start-up sequence (`hydrateState`, then the first
// `renderHome`) and the five-tap gesture on the header title that opens the
// admin panel.

module Bootstrap {
  import opened Wrappers
  import opened Data
  import opened Csv
  import opened Storage
  import opened Render

  // ---------------------------------------------------------------------
  // The theme check of `hydrateState`
  // ---------------------------------------------------------------------

  /** The names every plain object inherits from `Object.prototype`; looking
      one of them up in the `THEMES` object yields a truthy built-in (a
      function, or the prototype itself) rather than `undefined`. */
  const OBJECT_PROTOTYPE_KEYS: set<string> := {
    "constructor", "hasOwnProperty", "isPrototypeOf", "propertyIsEnumerable",
    "toLocaleString", "toString", "valueOf", "__proto__",
    "__defineGetter__", "__defineSetter__", "__lookupGetter__", "__lookupSetter__"
  }

  /** `!THEMES[key]` as written: false for the three theme keys and also for
      every inherited prototype name. */
  predicate ThemeLookupTruthy(key: string) {
    key in THEME_KEYS || key in OBJECT_PROTOTYPE_KEYS
  }

  /** The theme `hydrateState` keeps, as written: a key the lookup finds
      truthy stays, anything else becomes `evergreen`. */
  function HydratedThemeAsWritten(key: string): (r: string)
    ensures r == key || r == DEFAULT_THEME
    ensures key in THEME_KEYS ==> r == key
  {
    if ThemeLookupTruthy(key) then key else DEFAULT_THEME
  }

  /** A stored theme named `constructor` survives the check although no
      theme has that name, so the following `applyTheme` reads the `vars`
      of the `Object` function, which has none. */
  lemma ConstructorThemeSurvives()
    ensures HydratedThemeAsWritten("constructor") == "constructor"
    ensures "constructor" !in THEME_KEYS
  {
    assert "constructor" in OBJECT_PROTOTYPE_KEYS;
    assert "constructor"[0] == 'c';
  }

  /** The intended check: the stored theme is kept exactly when it names one
      of the themes, and the result always names one. */
  function ThemeFallback(key: string): (r: string)
    ensures r in THEME_KEYS
    ensures r == key <==> key in THEME_KEYS
  {
    if key in THEME_KEYS then key else DEFAULT_THEME
  }

  /** The check as written and the intended one agree on every key that is
      not an inherited prototype name. */
  lemma ThemeChecksAgree(key: string)
    requires key !in OBJECT_PROTOTYPE_KEYS
    ensures HydratedThemeAsWritten(key) == ThemeFallback(key)
  {
  }

  // ---------------------------------------------------------------------
  // hydrateState and bootstrap
  // ---------------------------------------------------------------------

  /** `hydrateState()`. The meta time stamp and the settings come from the
      store; the catalog comes from the store, otherwise from the sheet at
      `sheetUrl` when one is configured. `fetched` is the body of that
      download, or None when the download throws; `token` stands for the
      random ids `parseCsvText` gives untitled rows. */
  method Hydrate(k: Kiosk, store: Store, sheetUrl: string, fetched: Option<string>, token: nat -> string)
    requires k.Valid()
    modifies k, k.meta
    ensures k.Valid()
    ensures StoredUpdatedAt(store.entries).Some? ==> k.meta.updatedAt == StoredUpdatedAt(store.entries)
    ensures StoredUpdatedAt(store.entries).None? ==> k.meta.updatedAt == old(k.meta.updatedAt)
    ensures var loaded := LoadSettings(store.entries, old(k.settings));
      k.settings == loaded.(theme := ThemeFallback(loaded.theme))
    ensures k.settings.theme in THEME_KEYS
    ensures k.pendingSettings == Some(k.settings)
    ensures LoadMissions(store.entries).Some? ==> k.missions == LoadMissions(store.entries).value
    ensures LoadMissions(store.entries).None? && sheetUrl == "" ==> k.missions == old(k.missions)
    ensures LoadMissions(store.entries).None? && sheetUrl != "" && fetched.None? ==>
      k.missions == DEFAULT_MISSIONS
    ensures LoadMissions(store.entries).None? && sheetUrl != "" && fetched.Some? ==>
      var remote := ParseCsvText(fetched.value, token);
      k.missions == if |remote| > 0 then remote else old(k.missions)
    ensures unchanged(k`pendingMissions, k`historyStack, k`appStarted, k`highlightTimer, k`idleTimer)
    ensures unchanged(k`shown, k`highlightIndex)
  {
    store.LoadMeta(k.meta);
    k.settings := LoadSettings(store.entries, k.settings);
    k.settings := k.settings.(theme := ThemeFallback(k.settings.theme));
    LoadCatalog(k, store, sheetUrl, fetched, token);
    k.pendingSettings := Some(k.settings);
  }

  /** The `try` block of `hydrateState`: the stored catalog when there is
      one; otherwise, with a sheet configured, its rows when there are any,
      or the default catalog when the download throws. */
  method LoadCatalog(k: Kiosk, store: Store, sheetUrl: string, fetched: Option<string>, token: nat -> string)
    requires |k.missions| > 0
    modifies k`missions
    ensures |k.missions| > 0
    ensures LoadMissions(store.entries).Some? ==> k.missions == LoadMissions(store.entries).value
    ensures LoadMissions(store.entries).None? && sheetUrl == "" ==> k.missions == old(k.missions)
    ensures LoadMissions(store.entries).None? && sheetUrl != "" && fetched.None? ==>
      k.missions == DEFAULT_MISSIONS
    ensures LoadMissions(store.entries).None? && sheetUrl != "" && fetched.Some? ==>
      var remote := ParseCsvText(fetched.value, token);
      k.missions == if |remote| > 0 then remote else old(k.missions)
  {
    var stored := LoadMissions(store.entries);
    if stored.Some? {
      k.missions := stored.value;
    } else if sheetUrl != "" {
      match fetched
      case None =>
        DefaultMissionsWellFormed();
        k.missions := DEFAULT_MISSIONS;
      case Some(text) =>
        var remote := ParseCsvText(text, token);
        if |remote| > 0 {
          k.missions := remote;
        }
    }
  }

  /** `bootstrap()`: a fresh state is hydrated and the home pane rendered,
      which leaves the intro screen up with the first mission highlighted
      and the highlight rotating when there is more than one mission. */
  method Start(store: Store, sheetUrl: string, fetched: Option<string>, token: nat -> string)
    returns (k: Kiosk, t: Timers)
    ensures fresh(k) && fresh(k.meta) && fresh(t)
    ensures Coherent(k, t)
    ensures k.settings.theme in THEME_KEYS && k.pendingSettings == Some(k.settings)
    ensures !k.appStarted && k.historyStack == [] && k.idleTimer == None && t.timeouts == map[]
    ensures k.highlightIndex == 0 && Highlighted(k) == k.missions[0]
    ensures (|k.missions| > 1) == (k.highlightTimer.Some?)
    ensures k.meta.updatedAt == StoredUpdatedAt(store.entries)
    ensures var loaded := LoadSettings(store.entries, DEFAULT_SETTINGS);
      k.settings == loaded.(theme := ThemeFallback(loaded.theme))
    ensures LoadMissions(store.entries).Some? ==> k.missions == LoadMissions(store.entries).value
    ensures LoadMissions(store.entries).None? && (sheetUrl == "" || fetched.None?) ==> k.missions == DEFAULT_MISSIONS
    ensures LoadMissions(store.entries).None? && sheetUrl != "" && fetched.Some? ==>
      var remote := ParseCsvText(fetched.value, token);
      k.missions == if |remote| > 0 then remote else DEFAULT_MISSIONS
  {
    k := new Kiosk();
    t := new Timers();
    Hydrate(k, store, sheetUrl, fetched, token);
    RenderHome(k, t);
  }

  // ---------------------------------------------------------------------
  // The admin gesture of `registerGestures`
  // ---------------------------------------------------------------------

  /** The gesture's two closure variables. */
  datatype TapState = TapState(taps: nat, last: int)

  /** The longest pause, in milliseconds, that keeps a run of taps going. */
  const TAP_GAP: int := 1500
  /** The taps in one run that open the admin panel. */
  const TAPS_TO_OPEN: nat := 5

  /** One click on the title at time `now`: the new state and whether the
      admin panel opens. */
  function TapStep(s: TapState, now: int): (r: (TapState, bool))
    ensures r.0.last == now
    ensures r.1 <==> now - s.last <= TAP_GAP && s.taps + 1 >= TAPS_TO_OPEN
    ensures r.1 ==> r.0.taps == 0
    ensures !r.1 ==> r.0.taps == if now - s.last > TAP_GAP then 1 else s.taps + 1
    ensures r.0.taps < TAPS_TO_OPEN
  {
    var taps := (if now - s.last > TAP_GAP then 0 else s.taps) + 1;
    if taps >= TAPS_TO_OPEN then (TapState(0, now), true) else (TapState(taps, now), false)
  }

  /** A run of clicks at `times`, in order: the final state and how many
      times the panel opened. */
  function Replay(s: TapState, times: seq<int>): (TapState, nat) {
    if times == [] then (s, 0)
    else
      var (p, opens) := Replay(s, times[..|times| - 1]);
      var (q, open) := TapStep(p, times[|times| - 1]);
      (q, opens + if open then 1 else 0)
  }

  /** Every click comes at most `TAP_GAP` after the previous one. */
  predicate Quick(s: TapState, times: seq<int>) {
    forall i :: 0 <= i < |times| ==> times[i] - Previous(s, times, i) <= TAP_GAP
  }

  /** The time of the click before the `i`-th (the state's last click for the first). */
  function Previous(s: TapState, times: seq<int>, i: nat): int
    requires i < |times|
  {
    if i == 0 then s.last else times[i - 1]
  }

  /** Dropping the last click of a quick run leaves a quick run. */
  lemma QuickPrefix(s: TapState, times: seq<int>)
    requires Quick(s, times) && |times| > 0
    ensures Quick(s, times[..|times| - 1])
  {
    var front := times[..|times| - 1];
    forall i | 0 <= i < |front|
      ensures front[i] - Previous(s, front, i) <= TAP_GAP
    {
      assert front[i] == times[i];
      assert Previous(s, front, i) == Previous(s, times, i);
    }
  }

  /** Fewer than five clicks since the count was last reset never open the
      panel, whatever their timing. */
  lemma {:induction false} FewTapsNeverOpen(s: TapState, times: seq<int>)
    requires s.taps + |times| < TAPS_TO_OPEN
    ensures Replay(s, times).1 == 0
    ensures Replay(s, times).0.taps <= s.taps + |times|
  {
    if times != [] {
      FewTapsNeverOpen(s, times[..|times| - 1]);
    }
  }

  /** In a quick run, each click adds one to the count. */
  lemma {:induction false} QuickTapsCount(s: TapState, times: seq<int>)
    requires Quick(s, times) && s.taps + |times| < TAPS_TO_OPEN
    ensures Replay(s, times) == (TapState(s.taps + |times|, if times == [] then s.last else times[|times| - 1]), 0)
  {
    if times != [] {
      var front := times[..|times| - 1];
      QuickPrefix(s, times);
      QuickTapsCount(s, front);
      assert times[|times| - 1] - Previous(s, times, |times| - 1) <= TAP_GAP;
    }
  }

  /** The click that completes a quick run of five (counting the taps already
      made) opens the panel, exactly once, and starts the count afresh. */
  lemma FifthQuickTapOpens(s: TapState, times: seq<int>)
    requires Quick(s, times) && |times| > 0 && s.taps + |times| == TAPS_TO_OPEN
    ensures Replay(s, times) == (TapState(0, times[|times| - 1]), 1)
  {
    var front := times[..|times| - 1];
    QuickPrefix(s, times);
    QuickTapsCount(s, front);
    assert times[|times| - 1] - Previous(s, times, |times| - 1) <= TAP_GAP;
  }

  /** The listener registered on the title, with its closure state. */
  class TitleGesture {
    var taps: nat
    var last: int

    constructor()
      ensures taps == 0 && last == 0
    {
      taps := 0;
      last := 0;
    }

    function State(): TapState
      reads this
    {
      TapState(taps, last)
    }

    /** A click at `now`; `open` says whether `openAdmin()` runs. */
    method Tap(now: int) returns (open: bool)
      modifies this
      ensures (State(), open) == TapStep(old(State()), now)
    {
      if now - last > TAP_GAP {
        taps := 0;
      }
      taps := taps + 1;
      last := now;
      open := false;
      if taps >= TAPS_TO_OPEN {
        taps := 0;
        open := true;
      }
    }
  }
}
