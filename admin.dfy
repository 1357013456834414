// scripts/admin.js: the admin panel's draft (`pendingMissions`,
// `pendingSettings`) beside the committed catalog and settings: the PIN
// gate, the row actions, field edits, CSV import, adding a mission, the
// settings inputs, committing the draft, and resetting to the defaults.

module Admin {
  import opened Wrappers
  import opened JsString
  import opened Helpers
  import opened Data
  import opened Csv
  import opened Storage
  import opened Render

  /** `splice(index, 1)`: the list without its element at `index`; an index
      past the end removes nothing. */
  function Removed(p: seq<Mission>, index: nat): (r: seq<Mission>)
    ensures index < |p| ==> |r| == |p| - 1 && multiset(r) + multiset{p[index]} == multiset(p)
    ensures index < |p| ==> forall j :: 0 <= j < index ==> r[j] == p[j]
    ensures index < |p| ==> forall j :: index <= j < |r| ==> r[j] == p[j + 1]
    ensures index >= |p| ==> r == p
  {
    if index < |p| then
      assert p == p[..index] + [p[index]] + p[index + 1..];
      p[..index] + p[index + 1..]
    else p
  }

  /** `splice(index, 0, x)`: `x` inserted before position `index`. */
  function Inserted(p: seq<Mission>, index: nat, x: Mission): (r: seq<Mission>)
    requires index <= |p|
    ensures |r| == |p| + 1 && r[index] == x && multiset(r) == multiset(p) + multiset{x}
    ensures forall j :: 0 <= j < index ==> r[j] == p[j]
    ensures forall j :: index < j < |r| ==> r[j] == p[j - 1]
  {
    assert p == p[..index] + p[index..];
    p[..index] + [x] + p[index..]
  }

  /** The `up` action: the row is taken out and put back one place earlier;
      the first row stays where it is. */
  function MovedUp(p: seq<Mission>, index: nat): seq<Mission>
    requires index < |p|
  {
    if index > 0 then Inserted(Removed(p, index), index - 1, p[index]) else p
  }

  /** The `down` action: the row is taken out and put back one place later;
      the last row stays where it is. */
  function MovedDown(p: seq<Mission>, index: nat): seq<Mission> {
    if index + 1 < |p| then Inserted(Removed(p, index), index + 1, p[index]) else p
  }

  /** Moving up swaps a row with the one before it: the same records in the
      same number, every other row in place. */
  lemma MovedUpSwaps(p: seq<Mission>, index: nat)
    requires 0 < index < |p|
    ensures var r := MovedUp(p, index);
            |r| == |p| && multiset(r) == multiset(p)
            && r[index - 1] == p[index] && r[index] == p[index - 1]
            && forall j :: 0 <= j < |p| && j != index - 1 && j != index ==> r[j] == p[j]
  {
    var q := Removed(p, index);
    var r := MovedUp(p, index);
    assert r == Inserted(q, index - 1, p[index]);
    forall j | 0 <= j < |p| && j != index - 1 && j != index
      ensures r[j] == p[j]
    {
      if j > index {
        assert r[j] == q[j - 1];
      }
    }
    assert r[index] == q[index - 1];
  }

  /** Moving down swaps a row with the one after it. */
  lemma MovedDownSwaps(p: seq<Mission>, index: nat)
    requires index + 1 < |p|
    ensures var r := MovedDown(p, index);
            |r| == |p| && multiset(r) == multiset(p)
            && r[index] == p[index + 1] && r[index + 1] == p[index]
            && forall j :: 0 <= j < |p| && j != index && j != index + 1 ==> r[j] == p[j]
  {
    var q := Removed(p, index);
    var r := MovedDown(p, index);
    assert r == Inserted(q, index + 1, p[index]);
    forall j | 0 <= j < |p| && j != index && j != index + 1
      ensures r[j] == p[j]
    {
      if j > index + 1 {
        assert r[j] == q[j - 1];
      }
    }
    assert r[index] == q[index];
  }

  /** Moving the first row up, or the last row down, changes nothing. */
  lemma MoveAtTheEnds(p: seq<Mission>)
    requires |p| > 0
    ensures MovedUp(p, 0) == p
    ensures MovedDown(p, |p| - 1) == p
  {
  }

  /** Moving a row down and then back up restores the list. */
  lemma DownThenUp(p: seq<Mission>, index: nat)
    requires index + 1 < |p|
    ensures MovedUp(MovedDown(p, index), index + 1) == p
  {
    var d := MovedDown(p, index);
    MovedDownSwaps(p, index);
    MovedUpSwaps(d, index + 1);
    var r := MovedUp(d, index + 1);
    assert |r| == |p|;
    forall j | 0 <= j < |p|
      ensures r[j] == p[j]
    {
      if j == index {
        assert r[j] == d[index + 1] == p[index];
      } else if j == index + 1 {
        assert r[j] == d[index] == p[index + 1];
      } else {
        assert r[j] == d[j] == p[j];
      }
    }
  }

  /** The editable fields of a mission row. */
  datatype Field = Title | Subtitle | Focus | Involved | Body | Contact | Image | Links

  /** A field edit: the `links` textarea is parsed, every other field takes
      the raw input. The id never changes. */
  function WithField(m: Mission, f: Field, value: string): (r: Mission)
    ensures r.id == m.id
    ensures f == Links ==> r == m.(links := ParseLinks(value))
    ensures f != Links ==> r.links == m.links
  {
    match f
    case Title => m.(title := value)
    case Subtitle => m.(subtitle := value)
    case Focus => m.(focus := value)
    case Involved => m.(involved := value)
    case Body => m.(body := value)
    case Contact => m.(contact := value)
    case Image => m.(image := value)
    case Links => m.(links := ParseLinks(value))
  }

  /** The links textarea shows `serializeLinks(links)`; submitting it
      unedited leaves a mission with plain links as it was. */
  lemma UneditedLinksKept(m: Mission)
    requires forall j :: 0 <= j < |m.links| ==> PlainLink(m.links[j])
    ensures WithField(m, Links, SerializeLinks(Some(m.links))) == m
  {
    LinksRoundTrip(m.links);
  }

  /** `Math.max(10, parseInt(value, 10) || 60)`: the idle input in seconds. */
  function IdleSeconds(value: string): (r: int)
    ensures r >= 10
    ensures ParseInt(value) == None ==> r == 60
  {
    var n := ParseIntOr(value, 60);
    if n > 10 then n else 10
  }

  /** `Math.max(3, parseInt(value, 10) || 8)`: the highlight input in seconds. */
  function HighlightSeconds(value: string): (r: int)
    ensures r >= 3
    ensures ParseInt(value) == None ==> r == 8
  {
    var n := ParseIntOr(value, 8);
    if n > 3 then n else 3
  }

  /** A typed number at or above the floor is taken as it is; one below it
      (zero included) is raised to the floor or the default. */
  lemma SecondsOfTyped(n: int)
    ensures n >= 10 ==> IdleSeconds(NumberToString(n)) == n
    ensures n >= 3 ==> HighlightSeconds(NumberToString(n)) == n
    ensures n == 0 ==> IdleSeconds(NumberToString(n)) == 60 && HighlightSeconds(NumberToString(n)) == 8
    ensures 0 < n < 10 ==> IdleSeconds(NumberToString(n)) == 10
    ensures 0 < n < 3 ==> HighlightSeconds(NumberToString(n)) == 3
    ensures n < 0 ==> IdleSeconds(NumberToString(n)) == 10 && HighlightSeconds(NumberToString(n)) == 3
  {
    ParseIntOfNumberToString(n);
  }

  /** The record the add button appends, with `now` for `Date.now()`. */
  function NewMission(now: int): (m: Mission)
    ensures m.title == "New Mission" && m.links == []
    ensures m.id == "mission-" + NumberToString(now)
    ensures m.subtitle == [] && m.focus == [] && m.involved == [] && m.contact == [] && m.body == [] && m.image == []
  {
    Mission("mission-" + NumberToString(now), "New Mission", "", "", "", "", "", "", [])
  }

  /** Distinct times give distinct ids to added missions. */
  lemma NewMissionIdsDiffer(a: int, b: int)
    requires a != b
    ensures NewMission(a).id != NewMission(b).id
  {
    ParseIntOfNumberToString(a);
    ParseIntOfNumberToString(b);
    assert NewMission(a).id[8..] == NumberToString(a);
    assert NewMission(b).id[8..] == NumberToString(b);
  }

  /** The settings draft the inputs edit: `pendingSettings`, or a copy of
      the committed settings when there is none yet. */
  function Draft(k: Kiosk): (s: Settings)
    reads k
    ensures k.pendingSettings.None? ==> s == k.settings
  {
    if k.pendingSettings.Some? then k.pendingSettings.value else k.settings
  }

  /** `initAdminPanel()`: the draft becomes a copy of what is committed. */
  method InitAdminPanel(k: Kiosk)
    modifies k
    ensures k.pendingMissions == k.missions && k.pendingSettings == Some(k.settings)
    ensures unchanged(k`settings, k`missions, k`historyStack, k`appStarted, k`highlightTimer, k`idleTimer, k`shown, k`highlightIndex)
  {
    k.pendingMissions := Clone(Some(k.missions));
    k.pendingSettings := Some(k.settings);
  }

  /** The PIN button: the right PIN opens the panel with a fresh draft, a
      wrong one changes nothing. */
  method SubmitPin(k: Kiosk, pin: string) returns (unlocked: bool)
    modifies k
    ensures unlocked <==> pin == ADMIN_PIN
    ensures unlocked ==> k.pendingMissions == k.missions && k.pendingSettings == Some(k.settings)
    ensures !unlocked ==> k.pendingMissions == old(k.pendingMissions) && k.pendingSettings == old(k.pendingSettings)
    ensures unchanged(k`settings, k`missions, k`historyStack, k`appStarted, k`highlightTimer, k`idleTimer, k`shown, k`highlightIndex)
  {
    unlocked := pin == ADMIN_PIN;
    if unlocked {
      InitAdminPanel(k);
    }
  }

  /** The `remove` action. */
  method RowRemove(k: Kiosk, index: nat)
    modifies k
    ensures k.pendingMissions == Removed(old(k.pendingMissions), index)
    ensures unchanged(k`settings, k`missions, k`pendingSettings, k`historyStack, k`appStarted, k`highlightTimer, k`idleTimer, k`shown, k`highlightIndex)
  {
    k.pendingMissions := Removed(k.pendingMissions, index);
  }

  /** The `up` action, on a row of the rendered list. */
  method RowUp(k: Kiosk, index: nat)
    requires index < |k.pendingMissions|
    modifies k
    ensures k.pendingMissions == MovedUp(old(k.pendingMissions), index)
    ensures unchanged(k`settings, k`missions, k`pendingSettings, k`historyStack, k`appStarted, k`highlightTimer, k`idleTimer, k`shown, k`highlightIndex)
  {
    if index > 0 {
      var current := k.pendingMissions[index];
      k.pendingMissions := Removed(k.pendingMissions, index);
      k.pendingMissions := Inserted(k.pendingMissions, index - 1, current);
    }
  }

  /** The `down` action. */
  method RowDown(k: Kiosk, index: nat)
    modifies k
    ensures k.pendingMissions == MovedDown(old(k.pendingMissions), index)
    ensures unchanged(k`settings, k`missions, k`pendingSettings, k`historyStack, k`appStarted, k`highlightTimer, k`idleTimer, k`shown, k`highlightIndex)
  {
    if index + 1 < |k.pendingMissions| {
      var current := k.pendingMissions[index];
      k.pendingMissions := Removed(k.pendingMissions, index);
      k.pendingMissions := Inserted(k.pendingMissions, index + 1, current);
    }
  }

  /** An `input` event on a field of a rendered row: only that row's field
      changes. */
  method EditField(k: Kiosk, index: nat, f: Field, value: string)
    requires index < |k.pendingMissions|
    modifies k
    ensures k.pendingMissions == old(k.pendingMissions)[index := WithField(old(k.pendingMissions[index]), f, value)]
    ensures unchanged(k`settings, k`missions, k`pendingSettings, k`historyStack, k`appStarted, k`highlightTimer, k`idleTimer, k`shown, k`highlightIndex)
  {
    k.pendingMissions := k.pendingMissions[index := WithField(k.pendingMissions[index], f, value)];
  }

  /** `handleCsvText(text)`: a non-empty import replaces the draft; an empty
      one changes nothing. The committed catalog is never touched. */
  method HandleCsvText(k: Kiosk, text: string, token: nat -> string)
    modifies k
    ensures |ParseCsvText(text, token)| > 0 ==> k.pendingMissions == ParseCsvText(text, token)
    ensures |ParseCsvText(text, token)| == 0 ==> k.pendingMissions == old(k.pendingMissions)
    ensures unchanged(k`settings, k`missions, k`pendingSettings, k`historyStack, k`appStarted, k`highlightTimer, k`idleTimer, k`shown, k`highlightIndex)
  {
    var parsed := ParseCsvText(text, token);
    if |parsed| == 0 {
      return;
    }
    k.pendingMissions := Clone(Some(parsed));
  }

  /** The add button: an empty draft is first filled from the committed
      catalog, then one blank mission is appended. */
  method AddMission(k: Kiosk, now: int)
    modifies k
    ensures |old(k.pendingMissions)| > 0 ==> k.pendingMissions == old(k.pendingMissions) + [NewMission(now)]
    ensures |old(k.pendingMissions)| == 0 ==> k.pendingMissions == k.missions + [NewMission(now)]
    ensures unchanged(k`settings, k`missions, k`pendingSettings, k`historyStack, k`appStarted, k`highlightTimer, k`idleTimer, k`shown, k`highlightIndex)
  {
    if |k.pendingMissions| == 0 {
      k.pendingMissions := Clone(Some(k.missions));
    }
    k.pendingMissions := k.pendingMissions + [NewMission(now)];
  }

  /** The announcement input. */
  method SetAnnouncement(k: Kiosk, value: string)
    modifies k
    ensures k.pendingSettings == Some(old(Draft(k)).(announcement := value))
    ensures unchanged(k`settings, k`missions, k`pendingMissions, k`historyStack, k`appStarted, k`highlightTimer, k`idleTimer, k`shown, k`highlightIndex)
  {
    k.pendingSettings := Some(Draft(k).(announcement := value));
  }

  /** The idle input: the draft's idle time becomes the clamped seconds in
      milliseconds, so never below 10 s. */
  method SetIdle(k: Kiosk, value: string)
    modifies k
    ensures k.pendingSettings == Some(old(Draft(k)).(idleMs := IdleSeconds(value) * 1000))
    ensures k.pendingSettings.value.idleMs >= 10000
    ensures unchanged(k`settings, k`missions, k`pendingMissions, k`historyStack, k`appStarted, k`highlightTimer, k`idleTimer, k`shown, k`highlightIndex)
  {
    var seconds := IdleSeconds(value);
    k.pendingSettings := Some(Draft(k).(idleMs := seconds * 1000));
  }

  /** The highlight input: never below 3 s. */
  method SetHighlight(k: Kiosk, value: string)
    modifies k
    ensures k.pendingSettings == Some(old(Draft(k)).(highlightMs := HighlightSeconds(value) * 1000))
    ensures k.pendingSettings.value.highlightMs >= 3000
    ensures unchanged(k`settings, k`missions, k`pendingMissions, k`historyStack, k`appStarted, k`highlightTimer, k`idleTimer, k`shown, k`highlightIndex)
  {
    var seconds := HighlightSeconds(value);
    k.pendingSettings := Some(Draft(k).(highlightMs := seconds * 1000));
  }

  /** The theme select; the value is taken as given. */
  method SetTheme(k: Kiosk, value: string)
    modifies k
    ensures k.pendingSettings == Some(old(Draft(k)).(theme := value))
    ensures unchanged(k`settings, k`missions, k`pendingMissions, k`historyStack, k`appStarted, k`highlightTimer, k`idleTimer, k`shown, k`highlightIndex)
  {
    k.pendingSettings := Some(Draft(k).(theme := value));
  }

  /** `applyPendingChanges()`: nothing with an empty draft; otherwise the
      draft becomes the committed catalog and settings, both are saved
      (each write may fail: `dataOk`, `metaOk`, `settingsOk`), and the home
      pane is rendered again. */
  method ApplyPendingChanges(k: Kiosk, t: Timers, store: Store, now: int, dataOk: bool, metaOk: bool, settingsOk: bool)
    requires Coherent(k, t)
    modifies k, k.meta, t, store
    ensures Coherent(k, t)
    ensures |old(k.pendingMissions)| == 0 ==>
      k.missions == old(k.missions) && k.settings == old(k.settings) && k.pendingSettings == old(k.pendingSettings)
      && store.entries == old(store.entries) && k.meta.updatedAt == old(k.meta.updatedAt)
      && k.highlightTimer == old(k.highlightTimer) && k.highlightIndex == old(k.highlightIndex)
      && t.intervals == old(t.intervals)
    ensures |old(k.pendingMissions)| > 0 ==>
      k.missions == old(k.pendingMissions) && k.settings == old(Draft(k))
      && k.pendingSettings == Some(k.settings) && k.highlightIndex == 0
    ensures |old(k.pendingMissions)| > 0 && dataOk ==>
      k.meta.updatedAt == Some(now) && LoadMissions(store.entries) == Some(k.missions)
    ensures |old(k.pendingMissions)| > 0 && !dataOk ==> k.meta.updatedAt == old(k.meta.updatedAt)
    ensures |old(k.pendingMissions)| > 0 && settingsOk ==> forall defaults :: LoadSettings(store.entries, defaults) == k.settings
    ensures |old(k.pendingMissions)| > 0 && |k.missions| > 1 ==>
      k.highlightTimer.Some? && t.intervals == map[k.highlightTimer.value := HighlightPeriod(k.settings)]
    ensures |old(k.pendingMissions)| > 0 && |k.missions| <= 1 ==>
      k.highlightTimer == old(k.highlightTimer) && t.intervals == map[]
    ensures t.timeouts == old(t.timeouts) && k.pendingMissions == old(k.pendingMissions)
    ensures unchanged(k`historyStack, k`appStarted, k`idleTimer, k`shown)
  {
    if |k.pendingMissions| == 0 {
      return;
    }
    if k.pendingSettings.None? {
      k.pendingSettings := Some(k.settings);
    }
    k.missions := Clone(Some(k.pendingMissions));
    k.settings := Merge(k.settings, Written(k.pendingSettings.value));
    MergeLaws(old(k.settings), k.pendingSettings.value, Written(k.pendingSettings.value));
    store.SaveMissions(k.missions, k.meta, now, dataOk, metaOk);
    store.SaveSettings(k.settings, settingsOk);
    RenderHome(k, t);
  }

  /** The clear button: the saved catalog and its time stamp are removed,
      the built-in catalog is committed and copied into the draft, and the
      home pane is rendered again. */
  method ClearData(k: Kiosk, t: Timers, store: Store)
    requires Coherent(k, t)
    modifies k, k.meta, t, store
    ensures Coherent(k, t)
    ensures store.entries == old(store.entries) - {DATA_KEY, META_KEY}
    ensures LoadMissions(store.entries) == None && StoredUpdatedAt(store.entries) == None
    ensures k.meta.updatedAt == None
    ensures k.missions == DEFAULT_MISSIONS && k.pendingMissions == DEFAULT_MISSIONS && k.highlightIndex == 0
    ensures k.highlightTimer.Some? && t.intervals == map[k.highlightTimer.value := HighlightPeriod(k.settings)]
    ensures t.timeouts == old(t.timeouts)
    ensures unchanged(k`settings, k`pendingSettings, k`historyStack, k`appStarted, k`idleTimer, k`shown)
  {
    store.RemoveItem(DATA_KEY);
    store.RemoveItem(META_KEY);
    k.meta.updatedAt := None;
    k.missions := Clone(Some(DEFAULT_MISSIONS));
    k.pendingMissions := Clone(Some(k.missions));
    assert |DEFAULT_MISSIONS| == 3;
    RenderHome(k, t);
  }
}
