/** The selection logic shared by the calendar list and the trip list: one selected list
    position or none, a New button, and Edit and Delete buttons guarded by the selection. */
module Selection {
  import opened Wrappers
  import opened Model
  import opened Actions
  import Seqs

  /** What a button press does: the selection afterwards, the detail payload opened (None
      when no detail is opened), and whether the user was asked to confirm. */
  datatype Outcome<T> = Outcome(selected: Option<nat>, panel: Option<DetailPayload<T>>, asked: bool)

  /** New: the selection is cleared and the detail opens in `new` mode with no item. */
  function New<T>(selected: Option<nat>): (o: Outcome<T>)
    ensures o.selected.None? && !o.asked
    ensures o.panel == Some(DetailPayload(NewPanel, None, None))
  {
    Outcome(None, Some(DetailPayload(NewPanel, None, None)), false)
  }

  /** Edit: nothing without a selection; otherwise the detail opens in `edit` mode with the
      selected item spread in (nothing is spread when the position holds no item) and the
      position itself. The selection is kept. */
  function Edit<T>(items: seq<T>, selected: Option<nat>): (o: Outcome<T>)
    ensures o.selected == selected && !o.asked
    ensures selected.None? <==> o.panel.None?
    ensures selected.Some? ==> o.panel.value.mode == EditPanel && o.panel.value.index == selected
    ensures selected.Some? && selected.value < |items| ==> o.panel.value.item == Some(items[selected.value])
    ensures selected.Some? && selected.value >= |items| ==> o.panel.value.item.None?
  {
    match selected
    case None => Outcome(None, None, false)
    case Some(i) => Outcome(selected, Some(DetailPayload(EditPanel, Seqs.ItemAt(items, i), Some(i))), false)
  }

  /** Delete: nothing without a selection; otherwise the user is asked, and a confirmation
      clears the selection while a refusal keeps it. No detail opens and nothing is
      dispatched, so the list itself is never changed. */
  function Delete<T>(selected: Option<nat>, confirmed: bool): (o: Outcome<T>)
    ensures o.panel.None?
    ensures o.asked <==> selected.Some?
    ensures selected.None? ==> o.selected.None?
    ensures selected.Some? && confirmed ==> o.selected.None?
    ensures selected.Some? && !confirmed ==> o.selected == selected
  {
    match selected
    case None => Outcome(None, None, false)
    case Some(_) => Outcome(if confirmed then None else selected, None, true)
  }

  /** Once a delete is confirmed, Edit and Delete do nothing until something is selected again. */
  lemma ConfirmedDeleteDisablesButtons<T>(items: seq<T>, i: nat, confirmed: bool)
    requires confirmed
    ensures var after := Delete<T>(Some(i), confirmed).selected;
      Edit(items, after).panel.None? && !Delete<T>(after, confirmed).asked
  {
  }
  /** A press of one of the three buttons; a delete carries the user's answer. */
  datatype Button = NewButton | EditButton | DeleteButton(confirmed: bool)

  /** What a press does, given the current selection. */
  function Press<T>(items: seq<T>, selected: Option<nat>, b: Button): Outcome<T> {
    match b
    case NewButton => New(selected)
    case EditButton => Edit(items, selected)
    case DeleteButton(confirmed) => Delete(selected, confirmed)
  }

  /** The effect of a sequence of presses: the final selection, the panels opened in
      order, and whether the user was ever asked to confirm. */
  datatype Trace<T> = Trace(selected: Option<nat>, panels: seq<DetailPayload<T>>, asked: bool)

  function Run<T>(items: seq<T>, selected: Option<nat>, bs: seq<Button>): Trace<T>
    decreases |bs|
  {
    if |bs| == 0 then Trace(selected, [], false)
    else
      var o := Press(items, selected, bs[0]);
      var rest := Run(items, o.selected, bs[1..]);
      Trace(rest.selected, (if o.panel.Some? then [o.panel.value] else []) + rest.panels,
            o.asked || rest.asked)
  }

  /** Both lists set their selection only to `null`, so starting with nothing selected,
      nothing is ever selected: every panel opened is an empty new-mode panel, Edit never
      opens one, and Delete never asks. */
  lemma {:induction false} NothingIsEverSelected<T>(items: seq<T>, bs: seq<Button>)
    ensures Run(items, None, bs).selected.None?
    ensures !Run(items, None, bs).asked
    ensures forall j :: 0 <= j < |Run(items, None, bs).panels| ==>
      Run(items, None, bs).panels[j] == DetailPayload(NewPanel, None, None)
    decreases |bs|
  {
    if |bs| > 0 {
      NothingIsEverSelected(items, bs[1..]);
    }
  }
}
