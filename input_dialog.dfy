/**
 * The modal input dialog of both generations (bountui/components/input_dialog.rs
 * and components/input_dialog.rs behave alike): text fields above a row of
 * buttons, with the focus on one field or one button. Only Enter on a button
 * answers with that button's id.
 */
module InputDialog {
  import opened Wrappers
  import opened Events

  datatype InputField<F> = InputField(id: F, title: string, value: string)
  datatype DialogButton<B> = DialogButton(id: B, title: string)
  datatype Focus = Field(index: nat) | Button(index: nat)

  datatype DialogState<F, B> = DialogState(fields: seq<InputField<F>>, buttons: seq<DialogButton<B>>, focus: Focus)

  /** There is a field and a button, and the focus is on one that exists. */
  predicate Valid<F, B>(s: DialogState<F, B>) {
    && |s.fields| > 0 && |s.buttons| > 0
    && (s.focus.Field? ==> s.focus.index < |s.fields|)
    && (s.focus.Button? ==> s.focus.index < |s.buttons|)
  }

  /** A new dialog has the focus on its first field. */
  function NewDialog<F, B>(fields: seq<InputField<F>>, buttons: seq<DialogButton<B>>): (s: DialogState<F, B>)
    ensures s.focus == Field(0) && s.fields == fields && s.buttons == buttons
    ensures |fields| > 0 && |buttons| > 0 ==> Valid(s)
  {
    DialogState(fields, buttons, Field(0))
  }

  /** The event applied to the value of field i; the other fields stay as they are. */
  function EditField<F>(fields: seq<InputField<F>>, i: nat, e: Event): (r: seq<InputField<F>>)
    ensures |r| == |fields|
    ensures forall k :: 0 <= k < |fields| && k != i ==> r[k] == fields[k]
    ensures i < |fields| ==> r[i] == fields[i].(value := EditText(fields[i].value, e))
  {
    if i < |fields| then fields[i := fields[i].(value := EditText(fields[i].value, e))] else fields
  }

  /**
   * `handle_event_while_input_selected`: Up moves to the previous field,
   * Down and Tab to the next one or, from the last field, to the first
   * button; any other key edits the field.
   */
  function WhileFieldFocused<F, B>(s: DialogState<F, B>, e: Event, i: nat): (r: DialogState<F, B>)
    requires |s.fields| > 0
    ensures r.buttons == s.buttons && |r.fields| == |s.fields|
  {
    if !e.Key? then s
    else
      match e.code
      case Up => if i > 0 then s.(focus := Field(i - 1)) else s
      case Down => if i < |s.fields| - 1 then s.(focus := Field(i + 1)) else s.(focus := Button(0))
      case Tab => if i < |s.fields| - 1 then s.(focus := Field(i + 1)) else s.(focus := Button(0))
      case _ => s.(fields := EditField(s.fields, i, e))
  }

  /**
   * `handle_event_while_button_is_selected`: Up goes to the last field,
   * Left and Right move along the buttons and stop at the ends, Tab moves
   * to the next button or wraps to the first field, Enter answers.
   */
  function WhileButtonFocused<F, B>(s: DialogState<F, B>, e: Event, i: nat): (r: (DialogState<F, B>, Option<B>))
    requires |s.fields| > 0 && |s.buttons| > 0 && i < |s.buttons|
    ensures r.0.fields == s.fields && r.0.buttons == s.buttons
  {
    if !e.Key? then (s, None)
    else
      match e.code
      case Up => (s.(focus := Field(|s.fields| - 1)), None)
      case Left => (if i > 0 then s.(focus := Button(i - 1)) else s, None)
      case Right => (if i < |s.buttons| - 1 then s.(focus := Button(i + 1)) else s, None)
      case Enter => (s, Some(s.buttons[i].id))
      case Tab => (if i < |s.buttons| - 1 then s.(focus := Button(i + 1)) else s.(focus := Field(0)), None)
      case _ => (s, None)
  }

  /** `handle_event`: dispatch on the focus. */
  function Step<F, B>(s: DialogState<F, B>, e: Event): (r: (DialogState<F, B>, Option<B>))
    requires Valid(s)
    ensures Valid(r.0)
    ensures r.0.buttons == s.buttons && |r.0.fields| == |s.fields|
  {
    match s.focus
    case Field(i) => (WhileFieldFocused(s, e, i), None)
    case Button(i) => WhileButtonFocused(s, e, i)
  }

  /** `get_value` / `value`: the text of the first field with this id. */
  function GetValue<F(==)>(fields: seq<InputField<F>>, id: F): (r: Option<string>)
    ensures r.None? <==> forall k :: 0 <= k < |fields| ==> fields[k].id != id
    ensures r.Some? ==> exists k :: 0 <= k < |fields| && fields[k].id == id && fields[k].value == r.value &&
                                    forall j :: 0 <= j < k ==> fields[j].id != id
  {
    if fields == [] then None
    else if fields[0].id == id then Some(fields[0].value)
    else
      var rest := GetValue(fields[1..], id);
      assert forall k :: 1 <= k < |fields| ==> fields[k] == fields[1..][k - 1];
      if rest.Some? then
        var k' :| 0 <= k' < |fields[1..]| && fields[1..][k'].id == id && fields[1..][k'].value == rest.value
          && forall j :: 0 <= j < k' ==> fields[1..][j].id != id;
        assert fields[k' + 1] == fields[1..][k'];
        assert forall j :: 1 <= j < k' + 1 ==> fields[j].id != id by {
          forall j | 1 <= j < k' + 1 ensures fields[j].id != id { assert fields[j] == fields[1..][j - 1]; }
        }
        rest
      else
        rest
  }

  // ---- properties ---------------------------------------------------------

  /** Only Enter on a button answers, with that button's id, and it leaves the dialog as it is. */
  lemma OnlyEnterOnButtonAnswers<F, B>(s: DialogState<F, B>, e: Event)
    requires Valid(s)
    ensures Step(s, e).1.Some? <==> s.focus.Button? && IsKey(e, Enter)
    ensures Step(s, e).1.Some? ==> Step(s, e) == (s, Some(s.buttons[s.focus.index].id))
  {
  }

  /** Events that are not key presses change nothing. */
  lemma NonKeyChangesNothing<F, B>(s: DialogState<F, B>, e: Event)
    requires Valid(s) && !e.Key?
    ensures Step(s, e) == (s, None)
  {
  }

  /** A key that does not navigate edits only the focused field, and the focus stays. */
  lemma EditsOnlyFocusedField<F, B>(s: DialogState<F, B>, c: char)
    requires Valid(s) && s.focus.Field?
    ensures var r := Step(s, Press(Char(c))).0;
      && r.focus == s.focus
      && r.fields[s.focus.index] == s.fields[s.focus.index].(value := s.fields[s.focus.index].value + [c])
      && forall k :: 0 <= k < |s.fields| && k != s.focus.index ==> r.fields[k] == s.fields[k]
  {
  }

  /** A key on a button never edits a field. */
  lemma ButtonsDoNotEdit<F, B>(s: DialogState<F, B>, e: Event)
    requires Valid(s) && s.focus.Button?
    ensures Step(s, e).0.fields == s.fields
  {
  }

  /** Up on the first field stays; Up from any button goes to the last field. */
  lemma UpMoves<F, B>(s: DialogState<F, B>)
    requires Valid(s)
    ensures s.focus == Field(0) ==> Step(s, Press(Up)) == (s, None)
    ensures s.focus.Button? ==> Step(s, Press(Up)).0.focus == Field(|s.fields| - 1)
  {
  }

  /** Down on a field moves as Tab does: to the next field, or from the last field to the first button. */
  lemma DownMoves<F, B>(s: DialogState<F, B>)
    requires Valid(s) && s.focus.Field?
    ensures Step(s, Press(Down)) == Step(s, Press(Tab))
    ensures s.focus.index + 1 < |s.fields| ==> Step(s, Press(Down)) == (s.(focus := Field(s.focus.index + 1)), None)
    ensures s.focus.index + 1 == |s.fields| ==> Step(s, Press(Down)) == (s.(focus := Button(0)), None)
  {
  }

  /** Left on the first button and Right on the last one stay where they are. */
  lemma LeftRightSaturate<F, B>(s: DialogState<F, B>)
    requires Valid(s)
    ensures s.focus == Button(0) ==> Step(s, Press(Left)) == (s, None)
    ensures s.focus == Button(|s.buttons| - 1) ==> Step(s, Press(Right)) == (s, None)
    ensures s.focus.Button? && s.focus.index > 0 ==> Step(s, Press(Left)).0.focus == Button(s.focus.index - 1)
    ensures s.focus.Button? && s.focus.index < |s.buttons| - 1 ==> Step(s, Press(Right)).0.focus == Button(s.focus.index + 1)
  {
  }

  /** n presses of Tab. */
  function Tabs<F, B>(s: DialogState<F, B>, n: nat): (r: DialogState<F, B>)
    requires Valid(s)
    ensures Valid(r) && r.fields == s.fields && r.buttons == s.buttons
    decreases n
  {
    if n == 0 then s else Tabs(Step(s, Press(Tab)).0, n - 1)
  }

  /** The focus position, counting the fields first and then the buttons. */
  function Position(f: Focus, fieldCount: nat): nat {
    match f
    case Field(i) => i
    case Button(i) => fieldCount + i
  }

  /** One Tab moves one position on, wrapping from the last button to the first field. */
  lemma TabAdvances<F, B>(s: DialogState<F, B>)
    requires Valid(s)
    ensures var p := Position(s.focus, |s.fields|);
      Position(Step(s, Press(Tab)).0.focus, |s.fields|) == if p + 1 == |s.fields| + |s.buttons| then 0 else p + 1
    ensures Step(s, Press(Tab)).0.fields == s.fields
  {
    match s.focus
    case Field(i) =>
      assert Step(s, Press(Tab)).0 == WhileFieldFocused(s, Press(Tab), i);
    case Button(i) =>
      assert Step(s, Press(Tab)).0 == WhileButtonFocused(s, Press(Tab), i).0;
  }

  /** k Tabs that do not pass the last button move the focus k positions on. */
  lemma {:induction false} TabsAdvance<F, B>(s: DialogState<F, B>, k: nat)
    requires Valid(s) && Position(s.focus, |s.fields|) + k <= |s.fields| + |s.buttons|
    ensures var p := Position(s.focus, |s.fields|);
      Position(Tabs(s, k).focus, |s.fields|) == if p + k == |s.fields| + |s.buttons| then 0 else p + k
    decreases k
  {
    if k > 0 {
      var t := Step(s, Press(Tab)).0;
      TabAdvances(s);
      if Position(s.focus, |s.fields|) + 1 < |s.fields| + |s.buttons| {
        TabsAdvance(t, k - 1);
      }
    }
  }

  /** Tabbing once around every field and button brings the focus back to the first field. */
  lemma TabCycle<F, B>(s: DialogState<F, B>)
    requires Valid(s) && s.focus == Field(0)
    ensures Tabs(s, |s.fields| + |s.buttons|).focus == Field(0)
  {
    TabsAdvance(s, |s.fields| + |s.buttons|);
  }

  // ---- the dialog object ----------------------------------------------------

  class InputDialog<F(==), B> {
    var title: string
    var fields: seq<InputField<F>>
    var buttons: seq<DialogButton<B>>
    var selectedItem: Focus

    function Model(): DialogState<F, B>
      reads this
    {
      DialogState(fields, buttons, selectedItem)
    }

    constructor (title: string, fields: seq<InputField<F>>, buttons: seq<DialogButton<B>>)
      ensures this.title == title && Model() == NewDialog(fields, buttons)
    {
      this.title := title;
      this.fields := fields;
      this.buttons := buttons;
      selectedItem := Field(0);
    }

    method HandleEventWhileInputSelected(e: Event, i: nat)
      requires |fields| > 0
      modifies this
      ensures Model() == WhileFieldFocused(old(Model()), e, i) && title == old(title)
    {
      if e.Key? {
        match e.code
        case Up =>
          if i > 0 { selectedItem := Field(i - 1); }
        case Down =>
          if i < |fields| - 1 { selectedItem := Field(i + 1); } else { selectedItem := Button(0); }
        case Tab =>
          if i < |fields| - 1 { selectedItem := Field(i + 1); } else { selectedItem := Button(0); }
        case _ =>
          if i < |fields| {
            fields := fields[i := fields[i].(value := EditText(fields[i].value, e))];
          }
      }
    }

    method HandleEventWhileButtonSelected(e: Event, i: nat) returns (pressed: Option<B>)
      requires |fields| > 0 && |buttons| > 0 && i < |buttons|
      modifies this
      ensures (Model(), pressed) == WhileButtonFocused(old(Model()), e, i) && title == old(title)
    {
      pressed := None;
      if e.Key? {
        match e.code
        case Up => selectedItem := Field(|fields| - 1);
        case Left =>
          if i > 0 { selectedItem := Button(i - 1); }
        case Right =>
          if i < |buttons| - 1 { selectedItem := Button(i + 1); }
        case Enter => pressed := Some(buttons[i].id);
        case Tab =>
          selectedItem := if i < |buttons| - 1 then Button(i + 1) else Field(0);
        case _ =>
      }
    }

    method HandleEvent(e: Event) returns (pressed: Option<B>)
      requires Valid(Model())
      modifies this
      ensures (Model(), pressed) == Step(old(Model()), e) && Valid(Model()) && title == old(title)
    {
      match selectedItem
      case Field(i) =>
        HandleEventWhileInputSelected(e, i);
        pressed := None;
      case Button(i) =>
        pressed := HandleEventWhileButtonSelected(e, i);
    }
  }
}
