// scripts/storage.js: the browser's localStorage as a map from keys to
// entries, the per-mission view counters, and the saved catalog, catalog
// metadata and settings.

module Storage {
  import opened Wrappers
  import opened JsString
  import opened Data

  const DATA_KEY: string := "missions:data"
  const META_KEY: string := "missions:meta"
  const SETTINGS_KEY: string := "missions:settings"

  /** `views:${id}`. */
  function ViewsKey(id: string): string {
    "views:" + id
  }

  /** Distinct ids count under distinct keys, and no counter key is one of
      the three document keys. */
  lemma ViewsKeyInjective(a: string, b: string)
    ensures ViewsKey(a) == ViewsKey(b) <==> a == b
    ensures ViewsKey(a) != DATA_KEY && ViewsKey(a) != META_KEY && ViewsKey(a) != SETTINGS_KEY
  {
    if ViewsKey(a) == ViewsKey(b) {
      assert a == ViewsKey(a)[6..];
      assert b == ViewsKey(b)[6..];
    }
    assert ViewsKey(a)[0] == 'v';
  }

  /** A settings object as JSON.parse returns it: each key is present or not. */
  datatype SettingsPatch = SettingsPatch(
    announcement: Option<string>,
    idleMs: Option<int>,
    highlightMs: Option<int>,
    theme: Option<string>,
    splashTitle: Option<string>,
    splashSubtitle: Option<string>,
    splashImage: Option<string>)

  /** The object `JSON.stringify(settings)` writes: every key present. */
  function Written(s: Settings): SettingsPatch {
    SettingsPatch(Some(s.announcement), Some(s.idleMs), Some(s.highlightMs), Some(s.theme),
                  Some(s.splashTitle), Some(s.splashSubtitle), Some(s.splashImage))
  }

  /** What a key holds. localStorage keeps strings; the documents the app
      writes with JSON.stringify are kept as their decoded values, and `Text`
      is any other string (one that is not the JSON of such a document). */
  datatype Entry =
    | Text(text: string)
    | Catalog(missions: seq<Mission>)
    | MetaDoc(updatedAt: Option<int>)
    | SettingsDoc(patch: SettingsPatch)

  type Entries = map<string, Entry>

  /** `getViewsFor(id)`: the count under `views:id` read with parseInt, or 0
      when the key is missing, empty or does not start with a number. */
  function ViewsFor(entries: Entries, id: string): (r: int)
    ensures ViewsKey(id) !in entries ==> r == 0
  {
    if ViewsKey(id) in entries then
      match entries[ViewsKey(id)]
      case Text(t) => ParseIntOr(Or(t, "0"), 0)
      // the JSON of a document starts with `[` or `{`, where parseInt finds no digits
      case _ => 0
    else ParseIntOr("0", 0)
  }

  /** A count written with String(n) reads back as n. */
  lemma ViewsOfWritten(entries: Entries, id: string, n: int)
    ensures ViewsFor(entries[ViewsKey(id) := Text(NumberToString(n))], id) == n
  {
    ParseIntOfNumberToString(n);
    assert |NumberToString(n)| > 0;
  }

  /** Writing one id's counter leaves every other id's count alone. */
  lemma ViewsOfOther(entries: Entries, id: string, other: string, e: Entry)
    requires other != id
    ensures ViewsFor(entries[ViewsKey(id) := e], other) == ViewsFor(entries, other)
  {
    ViewsKeyInjective(other, id);
  }

  /** The same id's counter in a catalog document or settings write is untouched. */
  lemma ViewsOfDocument(entries: Entries, id: string, key: string, e: Entry)
    requires key in {DATA_KEY, META_KEY, SETTINGS_KEY}
    ensures ViewsFor(entries[key := e], id) == ViewsFor(entries, id)
  {
    ViewsKeyInjective(id, id);
  }

  /** The sum of `getTotalViews`, folded from the left over the list. */
  function SumViews(entries: Entries, ms: seq<Mission>): int {
    if ms == [] then 0 else SumViews(entries, ms[..|ms| - 1]) + ViewsFor(entries, ms[|ms| - 1].id)
  }

  /** `getTotalViews(list)`: the counts of the listed missions added up; 0
      for an absent list. */
  function TotalViews(entries: Entries, list: Option<seq<Mission>>): (r: int)
    ensures list.None? ==> r == 0
  {
    match list
    case None => 0
    case Some(ms) => SumViews(entries, ms)
  }

  /** The sum splits over a concatenation of lists. */
  lemma {:induction false} SumViewsAppend(entries: Entries, a: seq<Mission>, b: seq<Mission>)
    ensures SumViews(entries, a + b) == SumViews(entries, a) + SumViews(entries, b)
  {
    if b == [] {
      assert a + b == a;
    } else {
      var c := b[..|b| - 1];
      assert (a + b)[..|a + b| - 1] == a + c;
      assert (a + b)[|a + b| - 1] == b[|b| - 1];
      SumViewsAppend(entries, a, c);
    }
  }

  /** How many missions of the list carry `id`. */
  function Occurrences(ms: seq<Mission>, id: string): (n: nat)
    ensures n <= |ms|
  {
    if ms == [] then 0
    else Occurrences(ms[..|ms| - 1], id) + (if ms[|ms| - 1].id == id then 1 else 0)
  }

  /** Incrementing one id's counter raises the total of a list by the number
      of times that id occurs in it. */
  lemma {:induction false} TotalAfterIncrement(entries: Entries, id: string, ms: seq<Mission>)
    ensures var after := entries[ViewsKey(id) := Text(NumberToString(ViewsFor(entries, id) + 1))];
            SumViews(after, ms) == SumViews(entries, ms) + Occurrences(ms, id)
  {
    var after := entries[ViewsKey(id) := Text(NumberToString(ViewsFor(entries, id) + 1))];
    if ms != [] {
      var last := ms[|ms| - 1].id;
      TotalAfterIncrement(entries, id, ms[..|ms| - 1]);
      if last == id {
        ViewsOfWritten(entries, id, ViewsFor(entries, id) + 1);
      } else {
        ViewsOfOther(entries, id, last, Text(NumberToString(ViewsFor(entries, id) + 1)));
      }
    }
  }

  /** `loadMissions()`: the stored catalog when it is a non-empty array,
      otherwise null (missing key, unparsable text, a non-array, or `[]`). */
  function LoadMissions(entries: Entries): (r: Option<seq<Mission>>)
    ensures r.Some? ==> |r.value| > 0 && DATA_KEY in entries && entries[DATA_KEY] == Catalog(r.value)
    ensures DATA_KEY !in entries ==> r == None
  {
    if DATA_KEY in entries && entries[DATA_KEY].Catalog? && |entries[DATA_KEY].missions| > 0
    then Some(entries[DATA_KEY].missions)
    else None
  }

  /** A saved catalog loads back unchanged when it is non-empty, and as
      null when it is empty. */
  lemma MissionsRoundTrip(entries: Entries, ms: seq<Mission>)
    ensures LoadMissions(entries[DATA_KEY := Catalog(ms)]) == if |ms| > 0 then Some(ms) else None
  {
  }

  /** The `updatedAt` that `loadMeta` adopts: present only when the stored
      meta object holds a number there. */
  function StoredUpdatedAt(entries: Entries): (r: Option<int>)
    ensures META_KEY !in entries ==> r == None
    ensures r.Some? ==> entries[META_KEY] == MetaDoc(r)
  {
    if META_KEY in entries && entries[META_KEY].MetaDoc? then entries[META_KEY].updatedAt else None
  }

  /** `{ ...base, ...stored }`: each key present in the stored object
      overrides the base, every other key keeps the base's value. */
  function Merge(base: Settings, p: SettingsPatch): Settings {
    Settings(
      Pick(p.announcement, base.announcement),
      Pick(p.idleMs, base.idleMs),
      Pick(p.highlightMs, base.highlightMs),
      Pick(p.theme, base.theme),
      Pick(p.splashTitle, base.splashTitle),
      Pick(p.splashSubtitle, base.splashSubtitle),
      Pick(p.splashImage, base.splashImage))
  }

  function Pick<T>(o: Option<T>, base: T): T {
    match o
    case Some(v) => v
    case None => base
  }

  /** A patch with every key overrides the base entirely; one with no key
      leaves it as it is; merging the same patch twice is merging it once. */
  lemma MergeLaws(base: Settings, s: Settings, p: SettingsPatch)
    ensures Merge(base, Written(s)) == s
    ensures Merge(base, SettingsPatch(None, None, None, None, None, None, None)) == base
    ensures Merge(Merge(base, p), p) == Merge(base, p)
  {
  }

  /** `loadSettings(defaults)`: the defaults overridden key by key by the
      stored object, or the defaults unchanged when nothing usable is stored. */
  function LoadSettings(entries: Entries, defaults: Settings): (r: Settings)
    ensures SETTINGS_KEY !in entries ==> r == defaults
    ensures SETTINGS_KEY in entries && !entries[SETTINGS_KEY].SettingsDoc? ==> r == defaults
  {
    if SETTINGS_KEY in entries && entries[SETTINGS_KEY].SettingsDoc?
    then Merge(defaults, entries[SETTINGS_KEY].patch)
    else defaults
  }

  /** Saved settings load back unchanged, whatever the defaults. */
  lemma SettingsRoundTrip(entries: Entries, defaults: Settings, s: Settings)
    ensures LoadSettings(entries[SETTINGS_KEY := SettingsDoc(Written(s))], defaults) == s
  {
    MergeLaws(defaults, s, Written(s));
  }

  /** localStorage. */
  class Store {
    var entries: Entries

    constructor()
      ensures entries == map[]
    {
      entries := map[];
    }

    /** `incrementViewsFor(id)`: the old count plus one, written back under
        `views:id` and returned; no other key changes. The new count reads
        back as written (ViewsOfWritten) and no other id's count changes
        (ViewsOfOther). */
    method IncrementViewsFor(id: string) returns (next: int)
      modifies this
      ensures next == old(ViewsFor(entries, id)) + 1
      ensures entries == old(entries)[ViewsKey(id) := Text(NumberToString(next))]
    {
      next := ViewsFor(entries, id) + 1;
      entries := entries[ViewsKey(id) := Text(NumberToString(next))];
    }

    /** `saveMissions(missions, meta)`: the catalog write, then the time
        stamp, then the meta write; a failing write (`dataOk`, `metaOk`
        false, a full store) ends the sequence there. */
    method SaveMissions(missions: seq<Mission>, meta: Meta, now: int, dataOk: bool, metaOk: bool)
      modifies this, meta
      ensures !dataOk ==> entries == old(entries) && meta.updatedAt == old(meta.updatedAt)
      ensures dataOk ==> meta.updatedAt == Some(now)
      ensures dataOk && metaOk ==> entries == old(entries)[DATA_KEY := Catalog(missions)][META_KEY := MetaDoc(Some(now))]
      ensures dataOk && !metaOk ==> entries == old(entries)[DATA_KEY := Catalog(missions)]
      ensures dataOk ==> LoadMissions(entries) == if |missions| > 0 then Some(missions) else None
      ensures dataOk && metaOk ==> StoredUpdatedAt(entries) == Some(now)
    {
      if dataOk {
        entries := entries[DATA_KEY := Catalog(missions)];
        meta.updatedAt := Some(now);
        if metaOk {
          entries := entries[META_KEY := MetaDoc(meta.updatedAt)];
        }
      }
    }

    /** `loadMeta(meta)`: adopts the stored time stamp when there is one. */
    method LoadMeta(meta: Meta)
      modifies meta
      ensures StoredUpdatedAt(entries).Some? ==> meta.updatedAt == StoredUpdatedAt(entries)
      ensures StoredUpdatedAt(entries).None? ==> meta.updatedAt == old(meta.updatedAt)
    {
      var stored := StoredUpdatedAt(entries);
      if stored.Some? {
        meta.updatedAt := stored;
      }
    }

    /** `localStorage.removeItem(key)`. */
    method RemoveItem(key: string)
      modifies this
      ensures entries == old(entries) - {key}
      ensures key !in entries
    {
      entries := entries - {key};
    }

    /** `saveSettings(settings)`; a failing write (`ok` false) changes nothing. */
    method SaveSettings(settings: Settings, ok: bool)
      modifies this
      ensures ok ==> entries == old(entries)[SETTINGS_KEY := SettingsDoc(Written(settings))]
      ensures !ok ==> entries == old(entries)
      ensures ok ==> forall defaults :: LoadSettings(entries, defaults) == settings
    {
      if ok {
        entries := entries[SETTINGS_KEY := SettingsDoc(Written(settings))];
        forall defaults
          ensures LoadSettings(entries, defaults) == settings
        {
          SettingsRoundTrip(old(entries), defaults, settings);
        }
      }
    }
  }
}
