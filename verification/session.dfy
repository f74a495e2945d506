/** The screen as a sequence of user actions, the invariant every reachable
    state keeps, and the stale-edit-index defect of the form's cancel action. */
module Session {
  import opened Options
  import opened Clock
  import opened Shifts
  import opened Ledger

  /** The user actions the screen reacts to. */
  datatype Event =
    | OpenForm(now: string)                         // the Add button
    | Pick(slot: Slot, start: string, end: string)  // a range picker changes
    | Confirm                                       // the form's OK button
    | Dismiss                                       // the form's cancel action
    | EditRow(index: int)                           // a row's edit button
    | DeleteRow(index: int)                         // a row's delete button
    | ClearAll                                      // the Clear button

  /** Which actions the screen can deliver: while the form is open it covers
      the page, so only the form's own controls are reachable; the table only
      offers buttons for rows that exist; the pickers only produce picker text. */
  predicate Enabled(s: State, e: Event) {
    match e
    case OpenForm(_) => !s.showModal
    case Pick(_, start, end) => s.showModal && PickerText(start) && PickerText(end)
    case Confirm => s.showModal
    case Dismiss => s.showModal
    case EditRow(i) => !s.showModal && 0 <= i < |s.items|
    case DeleteRow(i) => !s.showModal && 0 <= i < |s.items|
    case ClearAll => !s.showModal
  }

  /** The invariant of the screen: the edit index is -1 or names an entry, and
      is only set while the form is open; the form is open exactly when there is
      a draft; every stored total agrees with its shifts. */
  predicate Consistent(s: State) {
    && -1 <= s.editing < |s.items|
    && (s.editing != -1 ==> s.showModal)
    && (s.showModal <==> s.tempItem.Some?)
    && forall j | 0 <= j < |s.items| :: Settled(s.items[j])
  }

  lemma InitialConsistent()
    ensures Consistent(Initial)
    ensures Sum(Initial.items) == 0.0
  {
  }

  /** One action, handled to completion; every handler keeps the invariant. */
  function Step(s: State, e: Event): (t: State)
    requires Consistent(s) && Enabled(s, e)
    ensures Consistent(t)
  {
    match e
    case OpenForm(now) => ShowModal(s, now)
    case Pick(slot, start, end) => SetShift(s, slot, start, end)
    case Confirm => Add(s)
    case Dismiss => Cancel(s)
    case EditRow(i) => Edit(s, i)
    case DeleteRow(i) => Delete(s, i)
    case ClearAll => Clear(s)
  }

  /** A run of actions; an action the screen cannot deliver in the current state is ignored. */
  function Run(s: State, events: seq<Event>): (t: State)
    requires Consistent(s)
    ensures Consistent(t)
    decreases |events|
  {
    if |events| == 0 then s
    else if Enabled(s, events[0]) then Run(Step(s, events[0]), events[1..])
    else Run(s, events[1..])
  }

  /** Every state reachable from the start keeps the invariant, so its headline
      total is the sum of the hours recomputed from the entries' shifts. */
  lemma {:induction false} ReachableTotalIsShiftHours(events: seq<Event>)
    ensures Consistent(Run(Initial, events))
    ensures Sum(Run(Initial, events).items) == ShiftHoursSum(Run(Initial, events).items)
  {
    InitialConsistent();
    SettledSum(Run(Initial, events).items);
  }

  /** The hours of a list of entries recomputed from their shifts. */
  function ShiftHoursSum(items: seq<Item>): real {
    if |items| == 0 then 0.0
    else EntryHours(items[0].firstShift, items[0].secondShift) + ShiftHoursSum(items[1..])
  }

  lemma {:induction false} SettledSum(items: seq<Item>)
    requires forall j | 0 <= j < |items| :: Settled(items[j])
    ensures Sum(items) == ShiftHoursSum(items)
    decreases |items|
  {
    if |items| > 0 {
      assert Settled(items[0]);
      SettledSum(items[1..]);
    }
  }

  /** Opening the form and cancelling it leaves the screen as it was. */
  lemma CancelUndoesOpen(s: State, now: string)
    requires Consistent(s) && !s.showModal
    ensures Cancel(ShowModal(s, now)) == s
  {
  }

  /** Opening an entry for editing and cancelling leaves the screen as it was. */
  lemma CancelUndoesEdit(s: State, index: int)
    requires Consistent(s) && !s.showModal && 0 <= index < |s.items|
    ensures Cancel(Edit(s, index)) == s
  {
  }

  /** Opening an entry for editing and confirming it untouched leaves the
      screen as it was: the draft is a copy and its total is recomputed to the
      same value. */
  lemma EditConfirmUnchanged(s: State, index: int)
    requires Consistent(s) && !s.showModal && 0 <= index < |s.items|
    ensures Add(Edit(s, index)) == s
  {
  }

  /** On a consistent closed screen, Add then OK appends one new entry at the end. */
  lemma OpenThenConfirmAppends(s: State, now: string)
    requires Consistent(s) && !s.showModal
    ensures Add(ShowModal(s, now)).items == s.items + [Item(now, None, None, 0.0)]
  {
  }

  /** Defect as the screen has it: edit row `index`, cancel, then add a new day
      and confirm. The new day overwrites row `index` instead of being appended,
      because cancelling kept the edit index. */
  lemma StaleEditOverwritesRow(s: State, index: int, now: string)
    requires Consistent(s) && !s.showModal && 0 <= index < |s.items|
    ensures !Consistent(CancelAsWritten(Edit(s, index)))
    ensures
      var t := Add(ShowModal(CancelAsWritten(Edit(s, index)), now));
      |t.items| == |s.items| && t.items[index] == Item(now, None, None, 0.0)
  {
  }

  /** The same actions with the corrected cancel: the new day is appended and
      every existing row is kept. */
  lemma OpenAfterCancelAppends(s: State, index: int, now: string)
    requires Consistent(s) && !s.showModal && 0 <= index < |s.items|
    ensures Consistent(Cancel(Edit(s, index)))
    ensures Add(ShowModal(Cancel(Edit(s, index)), now)).items == s.items + [Item(now, None, None, 0.0)]
  {
  }

  /** A worse consequence of the same defect: edit row `index` (not the first),
      cancel, clear the list, then add a new day. The edit index now lies past
      the end of the empty list, outside what `Ledger.Add` can take: the screen
      would write the new day after a hole. */
  lemma StaleEditAfterClearPastEnd(s: State, index: int, now: string)
    requires Consistent(s) && !s.showModal && 1 <= index < |s.items|
    ensures
      var u := ShowModal(Clear(CancelAsWritten(Edit(s, index))), now);
      u.items == [] && u.editing == index && u.editing > |u.items|
  {
  }

  /** The same actions with the corrected cancel: the new day becomes the only row. */
  lemma ClearAfterCancelAppends(s: State, index: int, now: string)
    requires Consistent(s) && !s.showModal && 0 <= index < |s.items|
    ensures Consistent(Clear(Cancel(Edit(s, index))))
    ensures Add(ShowModal(Clear(Cancel(Edit(s, index))), now)).items == [Item(now, None, None, 0.0)]
  {
  }

  /** The smallest witness of the defect: a one-row ledger ends with one row. */
  lemma StaleEditExample(day: Item, now: string)
    requires Settled(day)
    ensures
      var s := State(false, -1, [day], None);
      Run(s, [EditRow(0)]) == Edit(s, 0)
      && Add(ShowModal(CancelAsWritten(Run(s, [EditRow(0)])), now)).items == [Item(now, None, None, 0.0)]
      && Run(s, [EditRow(0), Dismiss, OpenForm(now), Confirm]).items == [day, Item(now, None, None, 0.0)]
  {
    var s := State(false, -1, [day], None);
    assert Consistent(s);
    var s1 := Step(s, EditRow(0));
    var s2 := Step(s1, Dismiss);
    var s3 := Step(s2, OpenForm(now));
    var s4 := Step(s3, Confirm);
    assert [EditRow(0)][1..] == [];
    var es := [EditRow(0), Dismiss, OpenForm(now), Confirm];
    assert es[1..] == [Dismiss, OpenForm(now), Confirm];
    assert es[1..][1..] == [OpenForm(now), Confirm];
    assert es[1..][1..][1..] == [Confirm];
    assert es[1..][1..][1..][1..] == [];
    assert Run(s4, []) == s4;
    assert Run(s3, [Confirm]) == s4;
    assert Run(s2, [OpenForm(now), Confirm]) == s4;
    assert Run(s1, [Dismiss, OpenForm(now), Confirm]) == s4;
    assert Run(s, es) == s4;
    OpenThenConfirmAppends(s, now);
  }
}
