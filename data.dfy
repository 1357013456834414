// scripts/data.js: the mission and settings records, the built-in defaults,
// the theme keys, the admin PIN and the shared application state.

module Data {
  import opened Wrappers
  import opened JsString
  import opened Helpers

  /** One mission of the catalog. */
  datatype Mission = Mission(
    id: string,
    title: string,
    subtitle: string,
    focus: string,
    involved: string,
    contact: string,
    body: string,
    image: string,
    links: seq<Link>)

  /** The kiosk settings record. */
  datatype Settings = Settings(
    announcement: string,
    idleMs: int,
    highlightMs: int,
    theme: string,
    splashTitle: string,
    splashSubtitle: string,
    splashImage: string)

  /** Which of the two main panes was last shown. */
  datatype Pane = Home | Detail

  const SHEET_CSV_URL: string := ""
  const ADMIN_PIN: string := "112200"
  const MISSION_IMAGE_DIR: string := "images/missions/"

  /** The keys of the THEMES table. */
  const THEME_KEYS: set<string> := {"evergreen", "ocean", "ember"}

  const DEFAULT_THEME: string := "evergreen"

  const DEFAULT_SETTINGS: Settings := Settings(
    "",
    60000,
    8000,
    DEFAULT_THEME,
    "Welcome to Imagine Church",
    "Tap below to explore how Imagine Church is moving through missions and outreach.",
    "")

  /** The three built-in missions. */
  const DEFAULT_MISSIONS: seq<Mission> := [
    Mission(
      "kairos",
      "Cookies for Kairos",
      "Bake hope. Share grace with those inside.",
      "Support Kairos Prison Ministry by baking dozens of cookies for weekend retreats.",
      "Bake 2–4 dozen cookies, pray over each batch, drop off by the due date.",
      "missions@imaginechurchnow.com",
      "Kairos brings the love and forgiveness of Jesus Christ to incarcerated individuals and their families. Cookies are a tangible way to open hearts and start conversations.",
      MISSION_IMAGE_DIR + "kairos.jpg",
      [Link("Cookie Guidelines (PDF)", "#"), Link("Sign Up", "#")]),
    Mission(
      "trauma",
      "Trauma Center",
      "Care for the wounded. Restore dignity and hope.",
      "Partner with local trauma recovery services to provide supplies and volunteer hours.",
      "Donate gift cards / hygiene kits, volunteer for intake or prayer team.",
      "care@imaginechurchnow.com",
      "We serve survivors with practical resources, compassionate presence, and pathways to long-term healing.",
      MISSION_IMAGE_DIR + "trauma.jpg",
      [Link("Needed Items List", "#"), Link("Volunteer Form", "#")]),
    Mission(
      "other",
      "Some Other Thing",
      "Another local or global mission focus.",
      "Describe the cause and the practical impact here.",
      "Provide 2–3 clear next steps to engage.",
      "hello@imaginechurchnow.com",
      "Use this slot for a rotating or seasonal mission (e.g., school supply drive, Honduras trip, etc.).",
      MISSION_IMAGE_DIR + "seasonal.jpg",
      [Link("Learn More", "#")])
  ]

  /** The ids of a list of missions, in order. */
  function Ids(ms: seq<Mission>): (r: seq<string>)
    ensures |r| == |ms|
    ensures forall k :: 0 <= k < |ms| ==> r[k] == ms[k].id
  {
    if ms == [] then [] else [ms[0].id] + Ids(ms[1..])
  }

  /** The built-in catalog is non-empty and its ids are non-empty and pairwise distinct. */
  lemma DefaultMissionsWellFormed()
    ensures |DEFAULT_MISSIONS| == 3
    ensures Ids(DEFAULT_MISSIONS) == ["kairos", "trauma", "other"]
    ensures forall i, j :: 0 <= i < j < |DEFAULT_MISSIONS| ==> DEFAULT_MISSIONS[i].id != DEFAULT_MISSIONS[j].id
    ensures forall i :: 0 <= i < |DEFAULT_MISSIONS| ==> DEFAULT_MISSIONS[i].id != []
  {
  }

  /** The default timings already satisfy the floors the admin inputs enforce,
      and the default theme is a key of THEMES. */
  lemma DefaultSettingsWellFormed()
    ensures DEFAULT_SETTINGS.idleMs == 60000 && DEFAULT_SETTINGS.idleMs >= 10000
    ensures DEFAULT_SETTINGS.highlightMs == 8000 && DEFAULT_SETTINGS.highlightMs >= 3000
    ensures DEFAULT_SETTINGS.theme in THEME_KEYS
  {
  }

  /** `state.meta`: the time of the last catalog save, null until one happens. */
  class Meta {
    var updatedAt: Option<int>

    /** DEFAULT_META. */
    constructor()
      ensures updatedAt == None
    {
      updatedAt := None;
    }
  }

  /** `state`: the committed catalog and settings, the admin draft, the
      navigation history, and the handles of the two timers. */
  class Kiosk {
    var settings: Settings
    const meta: Meta
    var missions: seq<Mission>
    var pendingMissions: seq<Mission>
    var pendingSettings: Option<Settings>
    var historyStack: seq<string>
    var appStarted: bool
    var highlightTimer: Option<nat>
    var idleTimer: Option<nat>
    /** The pane made visible by the last `showView`. */
    var shown: Pane
    /** The rotation counter of the highlight interval started by the last `renderHome`. */
    var highlightIndex: nat

    /** The catalog is never empty, and the history only ever holds `home`. */
    predicate Valid()
      reads this
    {
      |missions| > 0 && forall k :: 0 <= k < |historyStack| ==> historyStack[k] == "home"
    }

    /** The initial state literal. */
    constructor()
      ensures settings == DEFAULT_SETTINGS && fresh(meta) && meta.updatedAt == None
      ensures missions == DEFAULT_MISSIONS && pendingMissions == [] && pendingSettings == None
      ensures historyStack == [] && !appStarted && highlightTimer == None && idleTimer == None
      ensures shown == Home && highlightIndex == 0
      ensures Valid()
    {
      settings := DEFAULT_SETTINGS;
      meta := new Meta();
      missions := DEFAULT_MISSIONS;
      pendingMissions := [];
      pendingSettings := None;
      historyStack := [];
      appStarted := false;
      highlightTimer := None;
      idleTimer := None;
      shown := Home;
      highlightIndex := 0;
    }
  }
}
