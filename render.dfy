// scripts/render.js: the navigation state machine (intro screen, home and
// detail panes, the history stack), the idle timer that returns to home, and
// the rotating highlight of the home pane.

module Render {
  import opened Wrappers
  import opened JsString
  import opened Data
  import opened Storage

  /** The browser's pending timers. Handles are positive, so a stored handle
      is always truthy; the idle timeout's callback is always `gotoHome` and
      the interval's callback always the highlight step. */
  class Timers {
    /** Pending `setTimeout`s: handle to delay. */
    var timeouts: map<nat, int>
    /** Running `setInterval`s: handle to period. */
    var intervals: map<nat, int>
    /** The handle the next timer gets. */
    var next: nat

    constructor()
      ensures timeouts == map[] && intervals == map[] && next == 1
    {
      timeouts := map[];
      intervals := map[];
      next := 1;
    }

    method SetTimeout(delay: int) returns (h: nat)
      modifies this
      ensures h == old(next) && next == h + 1
      ensures timeouts == old(timeouts)[h := delay] && intervals == old(intervals)
    {
      h := next;
      next := next + 1;
      timeouts := timeouts[h := delay];
    }

    method ClearTimeout(h: nat)
      modifies this
      ensures timeouts == old(timeouts) - {h}
      ensures intervals == old(intervals) && next == old(next)
    {
      timeouts := timeouts - {h};
    }

    method SetInterval(period: int) returns (h: nat)
      modifies this
      ensures h == old(next) && next == h + 1
      ensures intervals == old(intervals)[h := period] && timeouts == old(timeouts)
    {
      h := next;
      next := next + 1;
      intervals := intervals[h := period];
    }

    method ClearInterval(h: nat)
      modifies this
      ensures intervals == old(intervals) - {h}
      ensures timeouts == old(timeouts) && next == old(next)
    {
      intervals := intervals - {h};
    }
  }

  /** The kiosk state agrees with the pending timers: the only idle timeout
      that can be pending is the one whose handle is stored, and only while
      the app is started; the only interval that can run is the stored
      highlight handle. So at most one of each is ever pending. */
  predicate Coherent(k: Kiosk, t: Timers)
    reads k, t
  {
    k.Valid()
    && (forall h :: h in t.timeouts ==> k.idleTimer == Some(h) && k.appStarted)
    && (forall h :: h in t.intervals ==> k.highlightTimer == Some(h))
  }

  /** `state.settings.idleMs || 60000`. */
  function IdleDelay(s: Settings): (d: int)
    ensures d != 0
    ensures s.idleMs != 0 ==> d == s.idleMs
  {
    if s.idleMs != 0 then s.idleMs else 60000
  }

  /** `Math.max(3000, state.settings.highlightMs || 8000)`. */
  function HighlightPeriod(s: Settings): (d: int)
    ensures d >= 3000
    ensures s.highlightMs >= 3000 ==> d == s.highlightMs
    ensures s.highlightMs < 3000 ==> d == if s.highlightMs == 0 then 8000 else 3000
  {
    var ms := if s.highlightMs != 0 then s.highlightMs else 8000;
    if ms > 3000 then ms else 3000
  }

  /** `missions.find(item => item.id === id)`, as the position of the first
      mission with that id. */
  function Find(ms: seq<Mission>, id: string): (r: Option<nat>)
    ensures r.Some? ==> r.value < |ms| && ms[r.value].id == id
                        && forall j :: 0 <= j < r.value ==> ms[j].id != id
    ensures r.None? ==> forall j :: 0 <= j < |ms| ==> ms[j].id != id
  {
    if ms == [] then None
    else if ms[0].id == id then Some(0)
    else match Find(ms[1..], id)
      case None => None
      case Some(i) => Some(i + 1)
  }

  /** One step of the highlight interval. */
  function NextHighlight(index: nat, count: nat): (r: nat)
    requires count > 0
    ensures r < count
  {
    (index + 1) % count
  }

  /** The highlight index after `n` steps from 0. */
  function HighlightAfter(n: nat, count: nat): (r: nat)
    requires count > 0
  {
    if n == 0 then 0 else NextHighlight(HighlightAfter(n - 1, count), count)
  }

  /** After n steps the rotation shows mission `n mod count`: it cycles
      through every mission in order and starts over. */
  lemma {:induction false} HighlightCycles(n: nat, count: nat)
    requires count > 0
    ensures HighlightAfter(n, count) == n % count
  {
    if n > 0 {
      HighlightCycles(n - 1, count);
      ModSucc(n, count);
    }
  }

  lemma MulMono(d: int, c: int)
    requires d >= 1 && c > 0
    ensures d * c >= c
  {
  }

  /** Euclidean division has one quotient and one remainder. */
  lemma ModUnique(a: int, c: int, q: int, r: int)
    requires c > 0 && a == c * q + r && 0 <= r < c
    ensures a % c == r && a / c == q
  {
    var q', r' := a / c, a % c;
    assert a == c * q' + r';
    if q > q' {
      assert c * q - c * q' == (q - q') * c;
      MulMono(q - q', c);
    } else if q < q' {
      assert c * q' - c * q == (q' - q) * c;
      MulMono(q' - q, c);
    }
  }

  lemma ModSucc(n: nat, count: nat)
    requires n > 0 && count > 0
    ensures NextHighlight((n - 1) % count, count) == n % count
  {
    var m := n - 1;
    var q, r := m / count, m % count;
    assert m == count * q + r;
    if r + 1 < count {
      ModUnique(n, count, q, r + 1);
      ModUnique(r + 1, count, 0, r + 1);
    } else {
      assert n == count * (q + 1);
      ModUnique(n, count, q + 1, 0);
      ModUnique(r + 1, count, 1, 0);
    }
  }

  /** The mission the highlight card shows: `missions[index % length]`. */
  function Highlighted(k: Kiosk): (m: Mission)
    reads k
    requires k.Valid()
    ensures m in k.missions
  {
    k.missions[k.highlightIndex % |k.missions|]
  }

  /** `resetIdle()`: nothing before the app is started; otherwise the pending
      idle timeout, if any, is cancelled and a new one armed. */
  method ResetIdle(k: Kiosk, t: Timers)
    requires Coherent(k, t)
    modifies k, t
    ensures Coherent(k, t)
    ensures !old(k.appStarted) ==> k.idleTimer == old(k.idleTimer) && t.timeouts == old(t.timeouts)
    ensures old(k.appStarted) ==> k.idleTimer == Some(old(t.next)) && t.timeouts == map[old(t.next) := IdleDelay(k.settings)]
    ensures t.intervals == old(t.intervals)
    ensures k.appStarted == old(k.appStarted) && k.historyStack == old(k.historyStack) && k.shown == old(k.shown)
    ensures unchanged(k`settings, k`missions, k`pendingMissions, k`pendingSettings, k`highlightTimer, k`highlightIndex)
  {
    if !k.appStarted {
      return;
    }
    if k.idleTimer.Some? {
      t.ClearTimeout(k.idleTimer.value);
    }
    assert t.timeouts == map[];
    var h := t.SetTimeout(IdleDelay(k.settings));
    k.idleTimer := Some(h);
  }

  /** `showView(view)`: shows one pane and, once started, restarts the idle timeout. */
  method ShowView(k: Kiosk, t: Timers, view: Pane)
    requires Coherent(k, t)
    modifies k, t
    ensures Coherent(k, t)
    ensures k.shown == view
    ensures k.appStarted ==> k.idleTimer == Some(old(t.next)) && t.timeouts == map[old(t.next) := IdleDelay(k.settings)]
    ensures !k.appStarted ==> k.idleTimer == old(k.idleTimer) && t.timeouts == old(t.timeouts)
    ensures t.intervals == old(t.intervals)
    ensures k.appStarted == old(k.appStarted) && k.historyStack == old(k.historyStack)
    ensures unchanged(k`settings, k`missions, k`pendingMissions, k`pendingSettings, k`highlightTimer, k`highlightIndex)
  {
    k.shown := view;
    if k.appStarted {
      ResetIdle(k, t);
    }
  }

  /** `gotoHome()`: an empty history and the home pane. */
  method GotoHome(k: Kiosk, t: Timers)
    requires Coherent(k, t)
    modifies k, t
    ensures Coherent(k, t)
    ensures k.historyStack == [] && k.shown == Home
    ensures k.appStarted ==> k.idleTimer == Some(old(t.next)) && t.timeouts == map[old(t.next) := IdleDelay(k.settings)]
    ensures !k.appStarted ==> k.idleTimer == old(k.idleTimer) && t.timeouts == old(t.timeouts)
    ensures t.intervals == old(t.intervals) && k.appStarted == old(k.appStarted)
    ensures unchanged(k`settings, k`missions, k`pendingMissions, k`pendingSettings, k`highlightTimer, k`highlightIndex)
  {
    k.historyStack := [];
    ShowView(k, t, Home);
  }

  /** `gotoDetail(id)`: nothing for an unknown id; otherwise one `home` is
      pushed on the history, the mission's view counter goes up by exactly
      one, and the detail pane is shown. `views` is the count displayed. */
  method GotoDetail(k: Kiosk, t: Timers, store: Store, id: string) returns (views: Option<int>)
    requires Coherent(k, t)
    modifies k, t, store
    ensures Coherent(k, t)
    ensures Find(k.missions, id).None? ==>
      views == None && store.entries == old(store.entries)
      && k.historyStack == old(k.historyStack) && k.shown == old(k.shown)
      && k.idleTimer == old(k.idleTimer) && t.timeouts == old(t.timeouts)
    ensures Find(k.missions, id).Some? ==>
      views == Some(old(ViewsFor(store.entries, id)) + 1)
      && store.entries == old(store.entries)[ViewsKey(id) := Text(NumberToString(views.value))]
      && k.historyStack == old(k.historyStack) + ["home"] && k.shown == Detail
    ensures Find(k.missions, id).Some? && k.appStarted ==>
      k.idleTimer == Some(old(t.next)) && t.timeouts == map[old(t.next) := IdleDelay(k.settings)]
    ensures t.intervals == old(t.intervals) && k.appStarted == old(k.appStarted)
    ensures unchanged(k`settings, k`missions, k`pendingMissions, k`pendingSettings, k`highlightTimer, k`highlightIndex)
  {
    var found := Find(k.missions, id);
    if found.None? {
      return None;
    }
    k.historyStack := k.historyStack + ["home"];
    var count := store.IncrementViewsFor(k.missions[found.value].id);
    views := Some(count);
    ShowView(k, t, Detail);
  }

  /** `back()`: with only `home` ever pushed, it always ends at home with an
      empty history, whether the stack was empty or not. */
  method Back(k: Kiosk, t: Timers)
    requires Coherent(k, t)
    modifies k, t
    ensures Coherent(k, t)
    ensures k.historyStack == [] && k.shown == Home
    ensures k.appStarted ==> k.idleTimer == Some(old(t.next)) && t.timeouts == map[old(t.next) := IdleDelay(k.settings)]
    ensures !k.appStarted ==> k.idleTimer == old(k.idleTimer) && t.timeouts == old(t.timeouts)
    ensures t.intervals == old(t.intervals) && k.appStarted == old(k.appStarted)
    ensures unchanged(k`settings, k`missions, k`pendingMissions, k`pendingSettings, k`highlightTimer, k`highlightIndex)
  {
    if |k.historyStack| == 0 {
      GotoHome(k, t);
      return;
    }
    var previous := k.historyStack[|k.historyStack| - 1];
    k.historyStack := k.historyStack[..|k.historyStack| - 1];
    if previous == "home" {
      GotoHome(k, t);
    } else {
      assert false;
    }
  }

  /** The highlight part of `renderHome()`: the interval whose handle is
      stored is cleared (the handle itself is kept), the card shows the
      first mission, and with more than one mission a new interval starts. */
  method RenderHome(k: Kiosk, t: Timers)
    requires Coherent(k, t)
    modifies k, t
    ensures Coherent(k, t)
    ensures k.highlightIndex == 0 && Highlighted(k) == k.missions[0]
    ensures |k.missions| > 1 ==>
      k.highlightTimer == Some(old(t.next)) && t.intervals == map[old(t.next) := HighlightPeriod(k.settings)]
    ensures |k.missions| <= 1 ==> k.highlightTimer == old(k.highlightTimer) && t.intervals == map[]
    ensures t.timeouts == old(t.timeouts)
    ensures k.appStarted == old(k.appStarted) && k.historyStack == old(k.historyStack) && k.shown == old(k.shown)
    ensures unchanged(k`settings, k`missions, k`pendingMissions, k`pendingSettings, k`idleTimer)
  {
    if k.highlightTimer.Some? {
      t.ClearInterval(k.highlightTimer.value);
    }
    assert t.intervals == map[];
    k.highlightIndex := 0;
    if |k.missions| > 1 {
      var h := t.SetInterval(HighlightPeriod(k.settings));
      k.highlightTimer := Some(h);
    }
  }

  /** The highlight interval fires: the card moves on to the next mission,
      wrapping around at the end of the catalog. */
  method HighlightTick(k: Kiosk, t: Timers, h: nat)
    requires Coherent(k, t) && h in t.intervals
    modifies k
    ensures Coherent(k, t)
    ensures k.highlightIndex == NextHighlight(old(k.highlightIndex), |k.missions|)
    ensures k.highlightTimer == Some(h)
    ensures unchanged(k`settings, k`missions, k`pendingMissions, k`pendingSettings, k`idleTimer)
    ensures k.appStarted == old(k.appStarted) && k.historyStack == old(k.historyStack) && k.shown == old(k.shown)
  {
    k.highlightIndex := NextHighlight(k.highlightIndex, |k.missions|);
  }

  /** `startApp()`: nothing when already started; otherwise the app starts,
      the home pane is rendered, restarting the highlight rotation, unless a
      highlight handle is stored; home is shown and exactly one idle timeout,
      with the configured delay, is pending. */
  method StartApp(k: Kiosk, t: Timers)
    requires Coherent(k, t)
    modifies k, t
    ensures Coherent(k, t)
    ensures old(k.appStarted) ==>
      k.shown == old(k.shown) && k.idleTimer == old(k.idleTimer) && k.highlightTimer == old(k.highlightTimer)
      && t.timeouts == old(t.timeouts) && t.intervals == old(t.intervals)
    ensures !old(k.appStarted) ==>
      k.shown == Home && k.idleTimer.Some? && t.timeouts.Keys == {k.idleTimer.value}
    ensures !old(k.appStarted) ==> t.timeouts == map[k.idleTimer.value := IdleDelay(k.settings)]
    ensures !old(k.appStarted) && old(k.highlightTimer).None? ==>
      k.highlightIndex == 0 && (k.highlightTimer.Some? <==> |k.missions| > 1)
      && (|k.missions| > 1 ==> t.intervals == map[k.highlightTimer.value := HighlightPeriod(k.settings)])
      && (|k.missions| <= 1 ==> t.intervals == map[])
    ensures !old(k.appStarted) && old(k.highlightTimer).Some? ==>
      k.highlightTimer == old(k.highlightTimer) && t.intervals == old(t.intervals)
    ensures k.appStarted && k.historyStack == old(k.historyStack)
    ensures unchanged(k`settings, k`missions, k`pendingMissions, k`pendingSettings)
  {
    if k.appStarted {
      return;
    }
    k.appStarted := true;
    if k.highlightTimer.None? {
      RenderHome(k, t);
    }
    ShowView(k, t, Home);
    ResetIdle(k, t);
  }

  /** `returnToIntro()`: both timers cancelled and forgotten, the history
      emptied and the app back on the intro screen. */
  method ReturnToIntro(k: Kiosk, t: Timers)
    requires Coherent(k, t)
    modifies k, t
    ensures Coherent(k, t)
    ensures k.highlightTimer == None && k.idleTimer == None
    ensures t.timeouts == map[] && t.intervals == map[]
    ensures k.historyStack == [] && !k.appStarted
    ensures k.shown == old(k.shown)
    ensures unchanged(k`settings, k`missions, k`pendingMissions, k`pendingSettings, k`highlightIndex)
  {
    if k.highlightTimer.Some? {
      t.ClearInterval(k.highlightTimer.value);
      k.highlightTimer := None;
    }
    if k.idleTimer.Some? {
      t.ClearTimeout(k.idleTimer.value);
      k.idleTimer := None;
    }
    k.historyStack := [];
    k.appStarted := false;
  }

  /** The pending idle timeout fires: the browser drops it and runs
      `gotoHome`, which arms the next one, so an idle kiosk keeps returning
      to home once per idle period. */
  method FireIdle(k: Kiosk, t: Timers, h: nat)
    requires Coherent(k, t) && h in t.timeouts
    modifies k, t
    ensures Coherent(k, t)
    ensures k.historyStack == [] && k.shown == Home && k.appStarted
    ensures k.idleTimer == Some(old(t.next)) && t.timeouts == map[old(t.next) := IdleDelay(k.settings)]
    ensures t.intervals == old(t.intervals)
    ensures unchanged(k`settings, k`missions, k`pendingMissions, k`pendingSettings, k`highlightTimer, k`highlightIndex)
  {
    t.ClearTimeout(h);
    GotoHome(k, t);
  }
}
