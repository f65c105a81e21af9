/**
 * Terminal input events (crossterm's Event/KeyEvent, reduced to what the
 * application inspects), the helpers in event_ext.rs and app.rs, and the
 * text editing the tui_input widget applies to a key press.
 */
module Events {
  datatype KeyCode =
    | Enter | Esc | Up | Down | Left | Right | Tab | Backspace
    | Char(c: char)
    | OtherKey

  datatype Modifier = Shift | Control | Alt

  datatype Event =
    | Key(code: KeyCode, modifiers: set<Modifier>)
    | Resize
    | Mouse

  /** A key press with no modifiers. */
  function Press(code: KeyCode): Event {
    Key(code, {})
  }

  /** `is_enter`: a key press whose code is Enter, whatever the modifiers; no other event. */
  predicate IsEnter(e: Event)
    ensures !e.Key? ==> !IsEnter(e)
    ensures e.Key? ==> (IsEnter(e) <==> e.code == Enter)
  {
    e.Key? && e.code == Enter
  }

  /** Only the key code decides: the modifiers held make no difference. */
  lemma IsEnterIgnoresModifiers(code: KeyCode, m1: set<Modifier>, m2: set<Modifier>)
    ensures IsEnter(Key(code, m1)) == IsEnter(Key(code, m2))
    ensures IsEnter(Key(code, m1)) <==> code == Enter
  {
  }

  /** Is this the key press with exactly this code, any modifiers? */
  predicate IsKey(e: Event, code: KeyCode) {
    e.Key? && e.code == code
  }

  /** Ctrl+letter where Control is among the modifiers (crossterm `contains`). */
  predicate IsCtrlWith(e: Event, c: char) {
    e.Key? && e.code == Char(c) && Control in e.modifiers
  }

  /** Ctrl+letter where Control is the only modifier (crossterm `==`). */
  predicate IsOnlyCtrl(e: Event, c: char) {
    e.Key? && e.code == Char(c) && e.modifiers == {Control}
  }

  /** The answer a component gives for an event (app.rs), with what handling it produced. */
  datatype UpdateResult<R> = Handled(payload: R) | NotHandled

  /** `handled`: true for every `Handled` payload, false for `NotHandled`. */
  predicate WasHandled<R>(r: UpdateResult<R>)
    ensures WasHandled(r) <==> r.Handled?
    ensures WasHandled(r) != (r == NotHandled)
  {
    r.Handled?
  }

  /**
   * The single-line text editing of tui_input, reduced to appending typed
   * characters and deleting the last one with Backspace; other events leave
   * the text unchanged.
   */
  function EditText(text: string, e: Event): (r: string)
    ensures e.Key? && e.code.Char? && Control !in e.modifiers ==> r == text + [e.code.c]
    ensures IsKey(e, Backspace) ==> r == if text == [] then [] else text[..|text| - 1]
    ensures !e.Key? ==> r == text
  {
    if e.Key? && e.code.Char? && Control !in e.modifiers then text + [e.code.c]
    else if IsKey(e, Backspace) then (if text == [] then [] else text[..|text| - 1])
    else text
  }

  /** Typing a string character by character appends it to the text. */
  function TypeAll(text: string, typed: string): string
    decreases |typed|
  {
    if typed == [] then text else TypeAll(EditText(text, Press(Char(typed[0]))), typed[1..])
  }

  lemma {:induction false} TypeAllAppends(text: string, typed: string)
    ensures TypeAll(text, typed) == text + typed
    decreases |typed|
  {
    if typed != [] {
      TypeAllAppends(text + [typed[0]], typed[1..]);
      assert text + [typed[0]] + typed[1..] == text + typed;
    }
  }
}
