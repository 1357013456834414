# Missions kiosk — a Dafny model

The kiosk is a browser app. It shows a church's mission catalog on a touch
screen: an intro screen, a home grid with a rotating highlight card, and a
detail pane that counts views. An idle timer brings the screen back to the
home pane. A PIN-protected admin panel edits a draft of the catalog and the
settings, with CSV import, row reordering and an on-screen keyboard. Data
lives in the browser's `localStorage`.

This project models the app's logic in Dafny and proves properties of it.
The modules, one per script:

| module | script | form |
|---|---|---|
| `JsString`, `Wrappers` | the JavaScript built-ins the scripts use: `trim`, `split`, `join`, `replace`, `toLowerCase`, `parseInt`, `String(n)`, `a \|\| b` | functions |
| `Helpers` | `scripts/helpers.js` | functions |
| `Data` | `scripts/data.js`: records, defaults, the shared `state` object | datatypes, the classes `Kiosk` and `Meta` |
| `Csv` | `scripts/csv.js` | a loop method (`ParseRow`) proved against a fold, plus functions |
| `Storage` | `scripts/storage.js` | `localStorage` as the class `Store` over a map; functions for the readers |
| `Render` | `scripts/render.js` | methods on `Kiosk` and the browser's timer table `Timers` |
| `Admin` | `scripts/admin.js` | methods on `Kiosk`, with the list edits as functions |
| `Keyboard` | `scripts/keyboard.js` | the classes `Osk` (module state) and `Element` (a text field) |
| `Bootstrap` | `scripts/main.js` | `Hydrate` and `Start` methods; the class `TitleGesture` |

Conventions:

- The browser's `state` object is `Data.Kiosk`.
- `localStorage` is `Storage.Store`. Its map sends each key to an `Entry`:
  - the view counters are `Text` holding the decimal string;
  - the three JSON documents are kept as their decoded values.
- `setTimeout` and `setInterval` are `Render.Timers`. This is a table of live
  handles, each with its delay or period.
- The predicate `Render.Coherent` ties the kiosk to the timers:
  - the only live timeout is the stored idle handle, and only once the app
    is started;
  - the only live interval is the stored highlight handle;
  - the catalog is never empty;
  - the history only ever holds `home`.

  Every navigation and admin method preserves it.
- Anything that comes from outside is a parameter:
  - the clock: `now`;
  - the random id digits: `token`;
  - `toLocaleString`: `localeString`;
  - storage-quota failures: `dataOk`, `metaOk`, `settingsOk`;
  - the downloaded sheet: `fetched`;
  - the sheet URL: `sheetUrl`. The shipped `SHEET_CSV_URL` is empty.

In `parseLinks`, a piece whose href part is blank after the bar gets the
empty href, not `#`: the test `href || '#'` runs before `trim()`
(`Helpers.BlankHrefIsEmpty`).

Header names of a CSV import are split on every comma, quotes included.
Data lines go through the quote-aware `parseRow` (`Csv.HeadersOfPlainLine`,
`Csv.HeaderAndColumnCounts`).

## Model

| member | source | states |
|---|---|---|
| JsString.Or | scripts/helpers.js:15-16 | `a \|\| b` on strings: the first operand unless it is empty |
| JsString.Trim | scripts/helpers.js:10 | `trim()` leaves no white space at either end and never lengthens the string |
| JsString.TrimIsInfix | scripts/helpers.js:10 | `trim()` returns a contiguous infix of its input |
| JsString.TrimDropsPadding | scripts/csv.js:29 | white space in front of a trimmed non-empty string is removed again |
| JsString.TrimmedIsFixed | scripts/csv.js:27 | trimming is idempotent on trimmed strings |
| JsString.Split | scripts/helpers.js:9 | `split(c)` gives one piece more than there are separators, none holding the separator |
| JsString.SplitJoin | scripts/helpers.js:9 | joining the pieces of `split(c)` with `c` gives the input back |
| JsString.JoinSplit | scripts/helpers.js:25 | splitting a join of separator-free pieces gives the pieces back |
| JsString.ReplaceAll | scripts/helpers.js:30-32 | a global one-character `replace` leaves a string without that character unchanged |
| JsString.ReplaceAllOrigin | scripts/helpers.js:30-32 | every character of the result comes from the input (other than the replaced one) or from the replacement |
| JsString.ReplaceAllAppend | scripts/helpers.js:36-39 | the global replacement distributes over concatenation |
| JsString.ToLowerCase | scripts/csv.js:35 | `toLowerCase()` maps each character and keeps the length |
| JsString.ReplaceSpaceRuns | scripts/csv.js:35 | `replace(/\s+/g, '-')` leaves no white space, keeps a white-space-free string and keeps a non-empty one non-empty |
| JsString.ParseInt | scripts/storage.js:65 | `parseInt(s, 10)` is NaN exactly when no digit follows the leading white space and sign |
| JsString.ParseIntOr | scripts/admin.js:280 | `parseInt(v, 10) \|\| d` is never 0 unless the fallback is 0 |
| JsString.ParseIntOfNumberToString | scripts/storage.js:65-70 | `parseInt` reads back exactly the integer `String(n)` wrote, negative ones included (integers unbounded, see Left out) |
| Helpers.Clone | scripts/helpers.js:4 | `clone(v)` is a copy of `v \|\| []` |
| Helpers.ParseLinks | scripts/helpers.js:6-19 | empty input gives no links; at most one link per `;`-piece; every label is non-empty |
| Helpers.ParsePairWithBar | scripts/helpers.js:13-17 | the label is the trimmed text before the first bar and the href the trimmed text between the first and second bar; an empty part gives `Open` or `#` |
| Helpers.ParsePairWithoutBar | scripts/helpers.js:13-17 | a piece without a bar is all label, with href `#` |
| Helpers.BlankHrefIsEmpty | scripts/helpers.js:16 | a blank href part yields the empty href, not `#` |
| Helpers.SerializeLinks | scripts/helpers.js:21-26 | a non-array or an empty list gives `''`; a single link gives its `label\|href` text |
| Helpers.EmptyPartsGetDefaults | scripts/helpers.js:6-26 | a link with empty label and href is written `Link\|#` and parses back with those defaults |
| Helpers.LinkTexts | scripts/helpers.js:24 | one `label\|href` text per link, in order |
| Helpers.LinksRoundTrip | scripts/helpers.js:6-26 | `parseLinks(serializeLinks(ls)) == ls` for every list of links whose texts are trimmed, non-empty and free of `;` and `\|` |
| Helpers.ParseSerialized | scripts/helpers.js:21-26 | the `; `-joined texts parse back to the links, also after the blank of the separator |
| Helpers.EscapeAttr | scripts/helpers.js:28-33 | the result holds no `"` or `<`; null gives the empty string; a string with nothing to escape is unchanged |
| Helpers.EscapeHTML | scripts/helpers.js:35-40 | the result holds no `<` or `>`; null gives the empty string; a string with nothing to escape is unchanged |
| Helpers.EscapeHTMLPerChar | scripts/helpers.js:35-40 | the three-step replacement chain equals escaping each character once (no `&amp;` is escaped twice) |
| Helpers.EscapeAttrPerChar | scripts/helpers.js:28-33 | the attribute chain likewise equals writing each character's entity once (`&`, `"`, `<`), every other character kept |
| Helpers.HtmlIsInterleaving | scripts/helpers.js:54-65 | the `reduce` of `html` is each chunk followed by its rendered value, arrays joined and null/undefined empty |
| Helpers.HtmlWithoutValues | scripts/helpers.js:54-65 | with no values, `html` concatenates the chunks |
| Helpers.FormatDate | scripts/helpers.js:42-52 | a missing or zero time stamp reads `Never`; any other is formatted by the locale |
| Data.Ids | scripts/data.js:77-117 | the ids of a catalog, in order |
| Data.DefaultMissionsWellFormed | scripts/data.js:77-117 | the built-in catalog has three missions, `kairos`, `trauma`, `other`, with distinct non-empty ids |
| Data.DefaultSettingsWellFormed | scripts/data.js:63-71 | the default idle and highlight times already meet the admin floors, and the default theme exists |
| Data.Meta.constructor | scripts/data.js:73-75 | the meta record starts with no time stamp |
| Data.Kiosk.constructor | scripts/data.js:119-131 | the initial state: defaults, empty draft and history, not started, no timers |
| Csv.RowFields | scripts/csv.js:3-22 | one field more than the tokenizer has finished |
| Csv.ParseRow | scripts/csv.js:3-22 | the loop returns exactly the fields of the left fold `Run` |
| Csv.QuoteParity | scripts/csv.js:9-11 | quoted mode is open exactly when an odd number of quotes has been read |
| Csv.FieldCount | scripts/csv.js:13-20 | `parseRow` returns one field more than there are commas outside quotes |
| Csv.FieldsHaveNoQuote | scripts/csv.js:9-12 | no quote character reaches a field |
| Csv.FieldsJoinToRowWithoutQuotes | scripts/csv.js:3-22 | the fields joined back with commas are the row with its quotes deleted |
| Csv.PlainRowIsSplit | scripts/csv.js:3-22 | on a row without quotes `parseRow` is `split(',')` |
| Csv.ParseRowOfJoin | scripts/csv.js:3-22 | comma- and quote-free fields joined with commas are read back unchanged |
| Csv.SplitLines | scripts/csv.js:25 | `split(/\r?\n/)` gives one line more than there are line feeds |
| Csv.DropCRs | scripts/csv.js:25 | only a carriage return right before a line feed is dropped |
| Csv.NonEmpty | scripts/csv.js:25 | `filter(Boolean)` keeps the non-empty lines and only them |
| Csv.LastIndexOf | scripts/csv.js:31-33 | the record takes a duplicated header's last column; a missing header is found nowhere |
| Csv.Slug | scripts/csv.js:35 | the id from a title has no white space and is non-empty for a non-empty title |
| Csv.ParseCsvText | scripts/csv.js:24-46 | no missions without lines; otherwise one mission per data line |
| Csv.ImportedMission | scripts/csv.js:24-46 | the k-th mission is built from the (k+1)-th non-empty line under the first line's headers |
| Csv.MissionFields | scripts/csv.js:29-44 | every text field of an imported mission is trimmed, whatever the line holds, and every parsed link has a caption |
| Csv.MissionIdChain | scripts/csv.js:35 | the id is the id column, else the title's slug, else the random digits |
| Csv.ColumnTrimmed | scripts/csv.js:29-33 | every column value is trimmed, and a missing header gives `''` |
| Csv.ColumnAt | scripts/csv.js:31-33 | the value under the last header of a name, `''` past the end of the row |
| Csv.HeadersOfPlainLine | scripts/csv.js:27-29 | headers and columns agree on a line without quotes |
| Csv.HeaderAndColumnCounts | scripts/csv.js:27-29 | headers count every comma; columns only those outside quotes |
| Storage.ViewsKeyInjective | scripts/storage.js:64-72 | distinct ids have distinct `views:` keys, none of them a document key |
| Storage.ViewsFor | scripts/storage.js:64-66 | `getViewsFor` is 0 for a missing counter |
| Storage.ViewsOfWritten | scripts/storage.js:64-72 | a count written with `String(n)` reads back as `n` |
| Storage.ViewsOfOther | scripts/storage.js:68-72 | writing one id's counter leaves every other id's count alone |
| Storage.ViewsOfDocument | scripts/storage.js:3-11 | writing a document key leaves every view count alone |
| Storage.TotalViews | scripts/storage.js:74-76 | `getTotalViews(null)` is 0 |
| Storage.SumViewsAppend | scripts/storage.js:74-76 | the total splits over a concatenation of lists |
| Storage.TotalAfterIncrement | scripts/storage.js:68-76 | one increment raises a list's total by the number of times the id occurs in it |
| Storage.LoadMissions | scripts/storage.js:13-25 | only a non-empty stored catalog loads; a missing key loads null |
| Storage.MissionsRoundTrip | scripts/storage.js:3-25 | a saved catalog loads back unchanged when non-empty, as null when empty |
| Storage.StoredUpdatedAt | scripts/storage.js:27-38 | the stored time stamp, absent when no meta is stored |
| Storage.MergeLaws | scripts/storage.js:40-54 | the `{...base, ...stored}` merge: a full object overrides, an empty one keeps the base, merging twice is merging once |
| Storage.LoadSettings | scripts/storage.js:40-54 | the defaults when nothing usable is stored |
| Storage.SettingsRoundTrip | scripts/storage.js:40-62 | saved settings load back unchanged, whatever the defaults |
| Storage.Store.IncrementViewsFor | scripts/storage.js:68-72 | returns the old count plus one and writes it as decimal text; no other key changes |
| Storage.Store.SaveMissions | scripts/storage.js:3-11 | catalog, time stamp and meta written in order; a failing write stops the sequence; the catalog then loads back |
| Storage.Store.LoadMeta | scripts/storage.js:27-38 | adopts the stored time stamp when there is one, else keeps the old |
| Storage.Store.RemoveItem | scripts/admin.js:255-256 | the key is gone and nothing else changes |
| Storage.Store.SaveSettings | scripts/storage.js:56-62 | a successful write loads back as the settings for any defaults; a failing one changes nothing |
| Render.Timers.SetTimeout | scripts/render.js:225 | a fresh handle, the timeout registered under it |
| Render.Timers.ClearTimeout | scripts/render.js:222-224 | the timeout is gone |
| Render.Timers.SetInterval | scripts/render.js:175-178 | a fresh handle, the interval registered under it |
| Render.Timers.ClearInterval | scripts/render.js:170 | the interval is gone |
| Render.IdleDelay | scripts/render.js:225 | `idleMs \|\| 60000` is never 0 |
| Render.HighlightPeriod | scripts/render.js:174 | the highlight period is at least 3 s, `highlightMs` when that is at least 3 s, 8 s when it is 0 |
| Render.Find | scripts/render.js:86 | the first mission with the id, or none when no mission has it |
| Render.NextHighlight | scripts/render.js:176 | the next index stays below the catalog length |
| Render.HighlightCycles | scripts/render.js:160-180 | after n ticks the card shows mission n mod length: the rotation visits every mission in turn |
| Render.ModSucc | scripts/render.js:176 | one tick from `(n-1) mod c` gives `n mod c` |
| Render.Highlighted | scripts/render.js:162 | the highlight card shows a mission of the catalog |
| Render.ResetIdle | scripts/render.js:220-226 | nothing before start; afterwards exactly one idle timeout, with the configured delay, is pending |
| Render.ShowView | scripts/render.js:66-77 | the pane is shown, and the idle timeout is restarted once started |
| Render.GotoHome | scripts/render.js:79-83 | the history is emptied and home shown |
| Render.GotoDetail | scripts/render.js:85-120 | an unknown id changes nothing; a known one pushes `home`, bumps and returns its view count, and shows the detail pane |
| Render.Back | scripts/render.js:122-129 | always ends at home with an empty history |
| Render.RenderHome | scripts/render.js:160-180 | the first mission is highlighted; exactly one interval runs when there are two or more missions, none otherwise |
| Render.HighlightTick | scripts/render.js:175-178 | a tick advances the highlight by one, wrapping around |
| Render.StartApp | scripts/render.js:186-197 | starting twice does nothing; the first start shows home and leaves exactly one idle timeout with the configured delay; when no highlight handle is stored it renders home, so the rotation restarts, with one interval at the highlight period, exactly when there are two or more missions |
| Render.ReturnToIntro | scripts/render.js:199-218 | no timer is left pending, the history is empty and the app is stopped |
| Render.FireIdle | scripts/render.js:225 | the idle timeout brings the kiosk home and re-arms itself |
| Admin.Removed | scripts/admin.js:124-126 | `splice(i, 1)` drops exactly the row at `i`, keeps the rest in order, and ignores an index past the end |
| Admin.Inserted | scripts/admin.js:128-133 | `splice(i, 0, x)` puts `x` at `i` and shifts the rest |
| Admin.MovedUpSwaps | scripts/admin.js:127-130 | `up` swaps a row with the one before it, a permutation that leaves every other row in place |
| Admin.MovedDownSwaps | scripts/admin.js:131-134 | `down` swaps a row with the one after it |
| Admin.MoveAtTheEnds | scripts/admin.js:127-134 | the first row cannot move up nor the last row down |
| Admin.DownThenUp | scripts/admin.js:127-134 | `down` then `up` restores the list |
| Admin.WithField | scripts/admin.js:111-118 | a field edit never changes the id; the links field is parsed, other fields keep the links |
| Admin.UneditedLinksKept | scripts/admin.js:111-118 | submitting the links textarea as shown leaves the mission unchanged |
| Admin.IdleSeconds | scripts/admin.js:278-283 | the idle input is at least 10 s, 60 s when not a number |
| Admin.HighlightSeconds | scripts/admin.js:285-289 | the highlight input is at least 3 s, 8 s when not a number |
| Admin.SecondsOfTyped | scripts/admin.js:278-289 | a typed number at or above the floor is taken as it is; 0 gives the default; below the floor gives the floor |
| Admin.NewMission | scripts/admin.js:301-311 | the added record: title `New Mission`, id `mission-<now>`, every other field empty |
| Admin.NewMissionIdsDiffer | scripts/admin.js:302 | missions added at distinct times get distinct ids |
| Admin.Draft | scripts/admin.js:268 | the settings draft, or a copy of the committed settings when there is none |
| Admin.InitAdminPanel | scripts/admin.js:172-174 | the draft becomes a copy of the committed catalog and settings |
| Admin.SubmitPin | scripts/admin.js:233-242 | the panel unlocks exactly for `112200`, with a fresh draft; a wrong PIN changes nothing |
| Admin.RowRemove | scripts/admin.js:124-126 | the draft loses the row |
| Admin.RowUp | scripts/admin.js:127-130 | the draft's row moves up |
| Admin.RowDown | scripts/admin.js:131-134 | the draft's row moves down |
| Admin.EditField | scripts/admin.js:111-118 | only that row's field changes |
| Admin.HandleCsvText | scripts/admin.js:224-230 | a non-empty import replaces the draft; an empty one leaves it |
| Admin.AddMission | scripts/admin.js:297-314 | the new record is appended to the draft, which is first filled from the catalog when empty |
| Admin.SetAnnouncement | scripts/admin.js:267-276 | the draft's announcement is the input |
| Admin.SetIdle | scripts/admin.js:278-283 | the draft's idle time is the clamped seconds in ms, never below 10 s |
| Admin.SetHighlight | scripts/admin.js:285-289 | the draft's highlight time is the clamped seconds in ms, never below 3 s |
| Admin.SetTheme | scripts/admin.js:291-295 | the draft's theme is the selected value |
| Admin.ApplyPendingChanges | scripts/admin.js:210-222 | an empty draft changes nothing; otherwise the draft is committed, saved, reloadable, and the highlight restarted |
| Admin.ClearData | scripts/admin.js:254-263 | the saved catalog and time stamp are removed, and the built-in catalog is restored to both the state and the draft |
| Keyboard.InsertInto | scripts/keyboard.js:140-156 | the selection is replaced by the text, with the caret after it; the text before and after is kept |
| Keyboard.BackspaceIn | scripts/keyboard.js:158-178 | nothing at the very start; a selection is deleted; otherwise the character before the caret |
| Keyboard.InsertThenBackspace | scripts/keyboard.js:140-178 | typing a character and backspacing restores the field |
| Keyboard.InsertIsDeleteThenInsert | scripts/keyboard.js:140-178 | typing over a selection is deleting it and then typing |
| Keyboard.LayoutFor | scripts/keyboard.js:87-102 | minimized shows only the head; a number field gets the numeric rows; otherwise the symbol rows exactly in symbol mode |
| Keyboard.LayoutKeys | scripts/keyboard.js:11-31 | the numeric layout has no mode keys; every layout has `hide`, `⌫` and `enter` |
| Keyboard.ButtonKey | scripts/keyboard.js:33-54 | `space` carries a blank; letters are upper-case exactly with shift outside symbol mode; other keys carry themselves |
| Keyboard.Element.Insert | scripts/keyboard.js:140-156 | the field's value and selection become `InsertInto` of the old ones |
| Keyboard.Element.Backspace | scripts/keyboard.js:158-178 | the field's value and selection become `BackspaceIn` of the old ones |
| Keyboard.Osk.RenderLayout | scripts/keyboard.js:56-107 | the layout built is `LayoutFor` of the hint and modes |
| Keyboard.Osk.FocusIn | scripts/keyboard.js:214-220 | the field becomes current and the keyboard opens expanded for its type |
| Keyboard.Osk.ToggleMinimize | scripts/keyboard.js:72-75 | flips minimized and re-renders for the same hint |
| Keyboard.Osk.HideOSK | scripts/keyboard.js:129-138 | hidden, detached from any field, all modes reset |
| Keyboard.Osk.OnKeyClick | scripts/keyboard.js:180-202 | without a field nothing happens; each mode key, `hide`, `⌫` and `enter` act as written; any other key is typed and releases a one-shot shift; in every branch the keyboard's visibility, minimised state, layout and hint change only where that branch changes them |
| Bootstrap.HydratedThemeAsWritten | scripts/main.js:14-16 | the theme check as written keeps any key the `THEMES` lookup finds truthy |
| Bootstrap.ConstructorThemeSurvives | scripts/main.js:14-17 | a stored theme `constructor` passes the check though no theme has that name |
| Bootstrap.ThemeFallback | scripts/main.js:14-16 | the intended check: the result is always a theme, and equals the stored one exactly when that is a theme |
| Bootstrap.ThemeChecksAgree | scripts/main.js:14-16 | both checks agree on every key that is not an inherited prototype name |
| Bootstrap.Hydrate | scripts/main.js:11-38 | meta and settings loaded, the theme made valid, the catalog taken from the store, else the sheet, else kept, and defaults on a failed download; the draft settings are a copy |
| Bootstrap.LoadCatalog | scripts/main.js:20-33 | the catalog source chosen in order: store, sheet rows, defaults on a throw; never empty |
| Bootstrap.Start | scripts/main.js:87-99 | a fresh state, hydrated and rendered: intro screen, first mission highlighted, rotation running exactly when there are two or more missions; the stored time stamp, the stored settings over the defaults with a valid theme, and the catalog from the store, else the sheet's rows, else the default catalog |
| Bootstrap.TapStep | scripts/main.js:45-56 | a tap more than 1.5 s after the last restarts the count; the fifth tap of a run opens the panel and resets the count |
| Bootstrap.FewTapsNeverOpen | scripts/main.js:43-56 | fewer than five taps since a reset never open the panel |
| Bootstrap.QuickTapsCount | scripts/main.js:45-56 | in a quick run each tap adds one to the count |
| Bootstrap.FifthQuickTapOpens | scripts/main.js:45-56 | the tap completing a quick run of five opens the panel exactly once and resets the count |
| Bootstrap.TitleGesture.Tap | scripts/main.js:45-56 | the listener's closure state and the open decision follow `TapStep` |

## Left out

- The DOM is not modelled:
  - templates, `textContent`/`innerHTML` writes, class toggles and scrolling;
  - `applyTheme`, `updateFooter`, `updateAnnouncement`, `updateSplash`, `triggerBounce`;
  - the admin summary and row rendering;
  - the logo fallback.

  The model keeps only the state these read and write.
- JSON is not typed. Stored documents are taken to have the shape the app
  writes. Extra keys, and values of the wrong type inside a stored
  document, are not modelled. A stored settings object is a record of
  optional fields.
- Upper- and lower-casing covers ASCII letters only. White space is
  ECMAScript's WhiteSpace and LineTerminator set, which `trim` and `\s` use.
- Real time, `Math.random`, `fetch`/`fetchCsv` and `toLocaleString` are
  parameters, as listed above.
- The directory pickers, image upload and the JSON download of the admin
  panel use the file-system API and `Blob` URLs, which are outside the model.
- `scripts/qr.js`, the QR deep link of `gotoDetail` and the
  `missions:viewed` / `missions:updated` events are not part of this model.
- The keyboard's `eligible` check (admin panel open, matching input
  selector) is a precondition of `Keyboard.Osk.FocusIn`. The `input`
  events that typing dispatches to the admin handlers are not modelled.
  The `blur`/`focus` calls are not modelled.
- Render.GotoDetail: a `setItem` failure of the view counter throws out of
  `gotoDetail` in the source. The model writes the counter unconditionally.
- Render.StartApp: the `!state.highlightTimer` test is modelled on the
  stored handle. After `renderHome` clears an interval, the handle stays
  stored, as in the source.
- Storage.ViewsFor: a view counter holding something other than text (one
  of the three documents, which cannot happen under a `views:` key) reads
  as 0.
- Bootstrap.Hydrate, Bootstrap.Start: a stored theme named after an
  `Object.prototype` member (`constructor`, `toString`, …) passes the
  source's check, and the following `applyTheme` then throws. So
  `hydrateState` rejects before the catalog is loaded, and `bootstrap`
  never reaches `renderHome`. The model applies the intended check
  (`Bootstrap.ThemeFallback`) and goes on; the as-written check is
  `Bootstrap.HydratedThemeAsWritten` (see Findings).
- Keyboard.InsertInto, Keyboard.BackspaceIn: strings and selection offsets
  count code points, where the source counts UTF-16 code units. For text
  with characters outside the Basic Multilingual Plane (an emoji, say)
  the offsets differ, and the source's backspace can delete half of a
  surrogate pair, which the model cannot express.
- Keyboard.Element.Insert, Keyboard.Element.Backspace, Keyboard.Osk.OnKeyClick:
  the browser's sanitisation of values assigned to `number` and `email`
  fields is not modelled. A number field whose new value is not a valid
  floating-point number becomes empty (typing `.` after `1`, or `-` into an
  empty field), and an email field drops leading and trailing white space.
  The model stores the edited value as it is.
- JsString.NumberToString, JsString.ParseIntOfNumberToString,
  Storage.ViewsOfWritten, Admin.SecondsOfTyped, Render.IdleDelay,
  Render.HighlightPeriod: numbers are unbounded integers, where JavaScript
  numbers are doubles. `String(n)` writes exponent notation from 1e21 on
  (and `parseInt` of `"1e+21"` is 1); integers above 2^53 lose precision;
  `setTimeout` and `setInterval` convert the delay to a 32-bit integer, so
  a setting of 2147484 s or more fires at once. The source behaves as
  these contracts state only below those bounds.
- Keyboard.Osk.OnKeyClick: `ABC` and `123` call `renderLayout()` without
  a hint. The model renders with the empty hint, so a number field loses
  its numeric rows, as in the source.

## Findings

| source | as written | input that shows it | evidently intended | confidence | as-written member | corrected member |
|---|---|---|---|---|---|---|
| scripts/main.js:14-17 | `!THEMES[state.settings.theme]` treats every name inherited from `Object.prototype` as a known theme | stored settings `{"theme":"constructor"}` (also `toString`, `__proto__`, …): the check keeps it, and `applyTheme` then reads `vars` of the `Object` function, so `Object.entries(undefined)` throws and start-up stops before the catalog loads | replace any stored theme that is not one of `evergreen`, `ocean`, `ember` by `evergreen` | not executed; reachable only through a hand-edited stored settings object, since the admin select offers the three themes only | Bootstrap.ConstructorThemeSurvives | Bootstrap.ThemeFallback |
