// scripts/keyboard.js: the on-screen keyboard of the admin panel: text
// insertion and backspace on the focused field's value and selection, and
// the shift / symbols / minimized mode machine with its layout choice.

module Keyboard {
  import opened Wrappers
  import opened JsString

  /** A selection `[start, end)` of a text field. */
  datatype Sel = Sel(start: nat, end: nat)

  /** A text field's value and selection; the selection is null on fields
      that do not support one (`type="number"`, `type="email"`). */
  datatype TextState = TextState(value: string, sel: Option<Sel>)

  /** The browser keeps the selection inside the value. */
  predicate WellFormed(st: TextState) {
    st.sel.Some? ==> st.sel.value.start <= st.sel.value.end <= |st.value|
  }

  /** `selectionStart ?? value.length`. */
  function Start(st: TextState): nat {
    if st.sel.Some? then st.sel.value.start else |st.value|
  }

  /** `selectionEnd ?? start`. */
  function End(st: TextState): nat {
    if st.sel.Some? then st.sel.value.end else Start(st)
  }

  /** `setSelectionRange(pos, pos)`: a collapsed caret, or nothing on a field
      without a selection (the call throws and is caught). */
  function Caret(st: TextState, pos: nat): Option<Sel> {
    if st.sel.Some? then Some(Sel(pos, pos)) else None
  }

  /** `insertText(txt)`: the selection (or the caret, or the end of the
      value) is replaced by `txt` and the caret put just after it. */
  function InsertInto(st: TextState, txt: string): (r: TextState)
    requires WellFormed(st)
    ensures WellFormed(r)
    ensures |r.value| == |st.value| - (End(st) - Start(st)) + |txt|
    ensures r.value[..Start(st)] == st.value[..Start(st)]
    ensures r.value[Start(st)..Start(st) + |txt|] == txt
    ensures r.value[Start(st) + |txt|..] == st.value[End(st)..]
    ensures st.sel.Some? <==> r.sel.Some?
    ensures r.sel.Some? ==> r.sel.value == Sel(Start(st) + |txt|, Start(st) + |txt|)
  {
    var start, end := Start(st), End(st);
    var v := st.value[..start] + txt + st.value[end..];
    assert v[..start] == st.value[..start];
    assert v[start..start + |txt|] == txt;
    assert v[start + |txt|..] == st.value[end..];
    TextState(v, Caret(st, start + |txt|))
  }

  /** `backspace()`: nothing at the very beginning; otherwise a selection is
      deleted and the caret put at its start, or the one character before
      the caret is deleted and the caret moved back by one. */
  function BackspaceIn(st: TextState): (r: TextState)
    requires WellFormed(st)
    ensures WellFormed(r)
    ensures Start(st) == 0 && End(st) == 0 ==> r == st
    ensures Start(st) != End(st) ==>
      r.value == st.value[..Start(st)] + st.value[End(st)..] && r.sel == Caret(st, Start(st))
    ensures Start(st) == End(st) > 0 ==>
      r.value == st.value[..Start(st) - 1] + st.value[End(st)..] && r.sel == Caret(st, Start(st) - 1)
  {
    var start, end := Start(st), End(st);
    if start == 0 && end == 0 then st
    else if start != end then TextState(st.value[..start] + st.value[end..], Caret(st, start))
    else TextState(st.value[..start - 1] + st.value[end..], Caret(st, start - 1))
  }

  /** Typing one character at a collapsed caret and then backspacing gives
      back the field as it was. */
  lemma InsertThenBackspace(st: TextState, c: char)
    requires WellFormed(st) && Start(st) == End(st)
    ensures BackspaceIn(InsertInto(st, [c])) == st
  {
    var s := Start(st);
    var mid := InsertInto(st, [c]);
    assert Start(mid) == s + 1 == End(mid);
    var r := BackspaceIn(mid);
    assert r.value == mid.value[..s] + mid.value[s + 1..];
    assert mid.value[..s] == st.value[..s];
    assert mid.value[s + 1..] == st.value[s..];
    assert st.value == st.value[..s] + st.value[s..];
  }

  /** Deleting a selection and typing over it give the same text before the
      caret: typing `txt` is deleting the selection and then inserting. */
  lemma InsertIsDeleteThenInsert(st: TextState, txt: string)
    requires WellFormed(st) && Start(st) != End(st)
    ensures InsertInto(BackspaceIn(st), txt) == InsertInto(st, txt)
  {
    var s, e := Start(st), End(st);
    var d := BackspaceIn(st);
    assert Start(d) == s && End(d) == s;
    var a := InsertInto(d, txt);
    var b := InsertInto(st, txt);
    assert d.value[..s] == st.value[..s];
    assert d.value[s..] == st.value[e..];
    assert a.value == d.value[..s] + txt + d.value[s..];
    assert b.value == st.value[..s] + txt + st.value[e..];
  }

  /** The keys of the three layouts, as `LETTER_ROWS`, `SYMBOL_ROWS`, `NUMERIC_ROWS`. */
  const LETTER_ROWS: seq<seq<string>> := [
    ["1", "2", "3", "4", "5", "6", "7", "8", "9", "0"],
    ["q", "w", "e", "r", "t", "y", "u", "i", "o", "p"],
    ["a", "s", "d", "f", "g", "h", "j", "k", "l"],
    ["⇧", "z", "x", "c", "v", "b", "n", "m", "⌫"],
    ["123", ".", ",", "space", "enter", "hide"]
  ]

  const SYMBOL_ROWS: seq<seq<string>> := [
    ["1", "2", "3", "4", "5", "6", "7", "8", "9", "0"],
    ["!", "@", "#", "$", "%", "&", "*", "(", ")", "/"],
    ["-", "_", "+", "=", "[", "]", "{", "}", "\\"],
    ["ABC", ".", ":", ";", "\"", "'", "?", "⌫"],
    [".", "@", ",", "space", "enter", "hide"]
  ]

  const NUMERIC_ROWS: seq<seq<string>> := [
    ["1", "2", "3", "4", "5", "6", "7", "8", "9", "0"],
    ["-", "+", ".", ",", "@"],
    ["hide", "⌫", "enter"]
  ]

  /** What `renderLayout` puts under the keyboard's head. */
  datatype Layout = Letters | Symbols | Numeric | HeadOnly

  /** `renderLayout(typeHint)`: only the head when minimized; otherwise the
      numeric rows for a number field, else the symbol rows in symbols
      mode, else the letter rows. */
  function LayoutFor(hint: string, symbols: bool, minimized: bool): (l: Layout)
    ensures minimized <==> l == HeadOnly
    ensures !minimized && hint == "number" ==> l == Numeric
    ensures !minimized && hint != "number" ==> (l == Symbols <==> symbols)
  {
    if minimized then HeadOnly
    else if hint == "number" then Numeric
    else if symbols then Symbols
    else Letters
  }

  function Rows(l: Layout): seq<seq<string>> {
    match l
    case Letters => LETTER_ROWS
    case Symbols => SYMBOL_ROWS
    case Numeric => NUMERIC_ROWS
    case HeadOnly => []
  }

  /** The numeric layout has no mode keys, so a number field keeps it; every
      layout with rows has the `hide`, `⌫` and `enter` keys on its last row. */
  lemma LayoutKeys()
    ensures forall i :: 0 <= i < |Rows(Numeric)| ==>
      "⇧" !in Rows(Numeric)[i] && "ABC" !in Rows(Numeric)[i] && "123" !in Rows(Numeric)[i]
    ensures forall l :: l != HeadOnly ==> |Rows(l)| > 0 && var last := Rows(l)[|Rows(l)| - 1];
      "hide" in last && "⌫" in Rows(l)[|Rows(l)| - 2] + last && "enter" in last
  {
  }

  predicate IsLetter(c: char) {
    'a' <= c <= 'z' || 'A' <= c <= 'Z'
  }

  /** The value a key button carries after `buildRow` and `applyCasing`:
      `space` carries a blank, and outside symbols mode a one-letter key is
      upper-case while shift is on and lower-case otherwise. */
  function ButtonKey(raw: string, shift: bool, symbols: bool): (v: string)
    ensures raw != "space" && !(|raw| == 1 && IsLetter(raw[0])) ==> v == raw
    ensures |raw| == 1 && IsLetter(raw[0]) ==> |v| == 1 && IsLetter(v[0])
    ensures |raw| == 1 && IsLetter(raw[0]) && !symbols ==> ('A' <= v[0] <= 'Z' <==> shift)
    ensures symbols ==> v == if raw == "space" then " " else raw
  {
    var value := if raw == "space" then " " else raw;
    if |value| == 1 && IsLetter(value[0]) && !symbols then
      [if shift then UpperChar(value[0]) else LowerChar(value[0])]
    else value
  }

  /** A focusable input or textarea of the admin panel. */
  class Element {
    var value: string
    var sel: Option<Sel>
    const isTextarea: bool
    /** The lower-cased `type` attribute, `""` when there is none. */
    const kind: string

    function State(): TextState
      reads this
    {
      TextState(value, sel)
    }

    predicate Valid()
      reads this
    {
      WellFormed(State())
    }

    constructor(value: string, sel: Option<Sel>, isTextarea: bool, kind: string)
      ensures this.value == value && this.sel == sel && this.isTextarea == isTextarea && this.kind == kind
    {
      this.value := value;
      this.sel := sel;
      this.isTextarea := isTextarea;
      this.kind := kind;
    }

    /** `insertText(txt)` on this field. */
    method Insert(txt: string)
      requires Valid()
      modifies this
      ensures Valid()
      ensures State() == InsertInto(old(State()), txt)
    {
      var start := if sel.Some? then sel.value.start else |value|;
      var end := if sel.Some? then sel.value.end else start;
      value := value[..start] + txt + value[end..];
      var pos := start + |txt|;
      if sel.Some? {
        sel := Some(Sel(pos, pos));
      }
    }

    /** `backspace()` on this field. */
    method Backspace()
      requires Valid()
      modifies this
      ensures Valid()
      ensures State() == BackspaceIn(old(State()))
    {
      var start := if sel.Some? then sel.value.start else |value|;
      var end := if sel.Some? then sel.value.end else start;
      if start == 0 && end == 0 {
        return;
      }
      if start != end {
        value := value[..start] + value[end..];
        if sel.Some? {
          sel := Some(Sel(start, start));
        }
      } else {
        value := value[..start - 1] + value[end..];
        if sel.Some? {
          sel := Some(Sel(start - 1, start - 1));
        }
      }
    }
  }

  /** The keyboard's module state. */
  class Osk {
    var current: Element?
    var shift: bool
    var symbols: bool
    var minimized: bool
    /** Whether the keyboard is on screen. */
    var visible: bool
    /** The type hint of the last `renderLayout` call. */
    var hint: string
    /** What the last `renderLayout` call built. */
    var layout: Layout

    constructor()
      ensures current == null && !shift && !symbols && !minimized && !visible
    {
      current := null;
      shift := false;
      symbols := false;
      minimized := false;
      visible := false;
      hint := "";
      layout := HeadOnly;
    }

    /** The focused field is well formed. */
    predicate Valid()
      reads this, current
    {
      current != null ==> current.Valid()
    }

    /** `renderLayout(typeHint)`. */
    method RenderLayout(typeHint: string)
      modifies this
      ensures layout == LayoutFor(typeHint, symbols, minimized) && hint == typeHint
      ensures current == old(current) && shift == old(shift) && symbols == old(symbols)
      ensures minimized == old(minimized) && visible == old(visible)
    {
      hint := typeHint;
      if minimized {
        layout := HeadOnly;
        return;
      }
      if typeHint == "number" {
        layout := Numeric;
      } else if symbols {
        layout := Symbols;
      } else {
        layout := Letters;
      }
    }

    /** The `focusin` handler on an eligible field, then `showOSK`: the
        keyboard opens expanded on that field. */
    method FocusIn(el: Element)
      requires el.Valid()
      modifies this
      ensures Valid()
      ensures current == el && visible && !minimized
      ensures layout == LayoutFor(el.kind, symbols, false) && hint == el.kind
      ensures shift == old(shift) && symbols == old(symbols)
    {
      current := el;
      minimized := false;
      RenderLayout(el.kind);
      visible := true;
    }

    /** The minimize button: toggles between the head alone and the rows. */
    method ToggleMinimize()
      modifies this
      ensures minimized == !old(minimized)
      ensures layout == LayoutFor(old(hint), symbols, minimized) && hint == old(hint)
      ensures current == old(current) && shift == old(shift) && symbols == old(symbols) && visible == old(visible)
    {
      minimized := !minimized;
      RenderLayout(hint);
    }

    /** `hideOSK()`: hidden, detached from any field, all modes reset. */
    method HideOSK()
      modifies this
      ensures Valid()
      ensures !visible && current == null && !shift && !symbols && !minimized
      ensures layout == old(layout) && hint == old(hint)
    {
      visible := false;
      current := null;
      shift := false;
      symbols := false;
      minimized := false;
    }

    /** `onKeyClick`: `val` is the value the clicked button carries. Mode
        keys switch modes, `hide` hides, `⌫` deletes, `enter` types a line
        break in a textarea and otherwise closes the keyboard, and any other
        key types its value, ending a one-shot shift. Without a focused
        field nothing happens. */
    method OnKeyClick(val: string)
      requires Valid()
      modifies this, current
      ensures Valid()
      ensures old(current) == null ==>
        current == null && shift == old(shift) && symbols == old(symbols) && minimized == old(minimized)
        && visible == old(visible) && layout == old(layout) && hint == old(hint)
      ensures old(current) != null && val == "⇧" ==>
        shift == !old(shift) && !symbols && current == old(current) && current.State() == old(current.State())
        && visible == old(visible) && minimized == old(minimized) && layout == old(layout) && hint == old(hint)
      ensures old(current) != null && val == "ABC" ==>
        !shift && !symbols && current == old(current) && current.State() == old(current.State())
        && layout == LayoutFor("", false, minimized)
        && visible == old(visible) && minimized == old(minimized) && hint == ""
      ensures old(current) != null && val == "123" ==>
        !shift && symbols && current == old(current) && current.State() == old(current.State())
        && layout == LayoutFor("", true, minimized)
        && visible == old(visible) && minimized == old(minimized) && hint == ""
      ensures old(current) != null && val == "hide" ==>
        current == null && !visible && !shift && !symbols && !minimized
        && old(current).State() == old(current.State()) && layout == old(layout) && hint == old(hint)
      ensures old(current) != null && val == "⌫" ==>
        current == old(current) && current.State() == BackspaceIn(old(current.State()))
        && shift == old(shift) && symbols == old(symbols)
        && visible == old(visible) && minimized == old(minimized) && layout == old(layout) && hint == old(hint)
      ensures old(current) != null && val == "enter" && old(current).isTextarea ==>
        current == old(current) && current.State() == InsertInto(old(current.State()), "\n")
        && shift == old(shift) && symbols == old(symbols)
        && visible == old(visible) && minimized == old(minimized) && layout == old(layout) && hint == old(hint)
      ensures old(current) != null && val == "enter" && !old(current).isTextarea ==>
        current == null && !visible && !shift && !symbols && !minimized
        && old(current).State() == old(current.State()) && layout == old(layout) && hint == old(hint)
      ensures old(current) != null && val !in {"⇧", "ABC", "123", "hide", "⌫", "enter"} ==>
        current == old(current) && current.State() == InsertInto(old(current.State()), val)
        && symbols == old(symbols) && shift == (old(shift) && old(symbols))
        && visible == old(visible) && minimized == old(minimized) && layout == old(layout) && hint == old(hint)
    {
      if current == null {
        return;
      }
      if val == "⇧" {
        shift := !shift;
        symbols := false;
        return;
      }
      if val == "ABC" {
        symbols := false;
        shift := false;
        RenderLayout("");
        return;
      }
      if val == "123" {
        symbols := true;
        shift := false;
        RenderLayout("");
        return;
      }
      if val == "hide" {
        HideOSK();
        return;
      }
      if val == "⌫" {
        current.Backspace();
        return;
      }
      if val == "enter" {
        if current.isTextarea {
          current.Insert("\n");
        } else {
          HideOSK();
        }
        return;
      }
      current.Insert(val);
      if shift && !symbols {
        shift := false;
      }
    }
  }
}
