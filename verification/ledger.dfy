/** The state of the time-calculator screen and the handlers that change it:
    the ordered list of day entries, the entry form's draft, and the index
    of the entry being edited (-1 when a new entry is being added). */
module Ledger {
  import opened Options
  import opened Clock
  import opened Shifts

  /** One day of the ledger. The draft in the entry form has the same shape. */
  datatype Item = Item(date: string, firstShift: Option<Shift>, secondShift: Option<Shift>, total: real)

  datatype State = State(showModal: bool, editing: int, items: seq<Item>, tempItem: Option<Item>)

  datatype Slot = First | Second

  /** The screen as it starts: no entries, form closed, nothing being edited. */
  const Initial: State := State(false, -1, [], None)

  /** The hours a day is worth, recomputed from its two shifts. */
  function EntryHours(first: Option<Shift>, second: Option<Shift>): real {
    CalculateShift(first).total + CalculateShift(second).total
  }

  /** An entry whose stored total agrees with its shifts. */
  predicate Settled(it: Item) {
    it.total == EntryHours(it.firstShift, it.secondShift)
  }

  /** The entry committed from a draft: the draft's date and shifts, and a
      total recomputed from the shifts, whatever total the draft carried. */
  function BuildItem(draft: Item): (it: Item)
    ensures it.date == draft.date
    ensures it.firstShift == draft.firstShift
    ensures it.secondShift == draft.secondShift
    ensures Settled(it)
    ensures it == draft <==> Settled(draft)
  {
    var first := CalculateShift(draft.firstShift);
    var second := CalculateShift(draft.secondShift);
    Item(draft.date, first.shift, second.shift, first.total + second.total)
  }

  /** Building an entry from an already built entry changes nothing. */
  lemma BuildItemIdempotent(draft: Item)
    ensures BuildItem(BuildItem(draft)) == BuildItem(draft)
  {
  }

  /** The Add button: open the form on a fresh draft dated `now`, with no shifts. */
  function ShowModal(s: State, now: string): (t: State)
    ensures t.showModal
    ensures t.tempItem.Some? && t.tempItem.value.date == now
    ensures t.tempItem.value.firstShift.None? && t.tempItem.value.secondShift.None?
    ensures t.tempItem.value.total == 0.0 && Settled(t.tempItem.value)
    ensures t.items == s.items && t.editing == s.editing
  {
    s.(showModal := true, tempItem := Some(Item(now, None, None, 0.0)))
  }

  /** A range picker's change: store the picked shift in the draft's slot. */
  function SetShift(s: State, slot: Slot, start: string, end: string): (t: State)
    requires PickerText(start) && PickerText(end)
    ensures t.items == s.items && t.editing == s.editing && t.showModal == s.showModal
    ensures s.tempItem.None? ==> t == s
    ensures s.tempItem.Some? ==>
      var d := s.tempItem.value;
      var picked := Some(Shift(ReadEndpoint(start), ReadEndpoint(end)));
      && t.tempItem.Some?
      && t.tempItem.value.date == d.date
      && t.tempItem.value.firstShift == (if slot == First then picked else d.firstShift)
      && t.tempItem.value.secondShift == (if slot == Second then picked else d.secondShift)
      && t.tempItem.value.total == d.total
  {
    match s.tempItem
    case None => s
    case Some(d) =>
      var picked := Some(Shift(ReadEndpoint(start), ReadEndpoint(end)));
      var d' := if slot == First then d.(firstShift := picked) else d.(secondShift := picked);
      s.(tempItem := Some(d'))
  }

  /** The form's OK button: commit the draft, appending a new entry or
      overwriting the one being edited, then close the form.
      An index just past the end appends (a JavaScript array grows on such a
      write); an index below -1 writes no element. */
  function Add(s: State): (t: State)
    requires s.editing <= |s.items|
    ensures s.tempItem.None? ==> t == s
    ensures s.tempItem.Some? ==> !t.showModal && t.editing == -1 && t.tempItem.None?
    ensures s.tempItem.Some? && (s.editing == -1 || s.editing == |s.items|) ==>
      && |t.items| == |s.items| + 1
      && t.items[..|s.items|] == s.items
      && t.items[|s.items|] == BuildItem(s.tempItem.value)
    ensures s.tempItem.Some? && 0 <= s.editing < |s.items| ==>
      && |t.items| == |s.items|
      && t.items[s.editing] == BuildItem(s.tempItem.value)
      && (forall j | 0 <= j < |s.items| && j != s.editing :: t.items[j] == s.items[j])
    ensures s.tempItem.Some? && s.editing < -1 ==> t.items == s.items
  {
    match s.tempItem
    case None => s
    case Some(d) =>
      var it := BuildItem(d);
      var items :=
        if s.editing == -1 || s.editing == |s.items| then s.items + [it]
        else if 0 <= s.editing then s.items[s.editing := it]
        else s.items;
      State(false, -1, items, None)
  }

  /** The edit button of row `index`: open the form on a copy of that entry. */
  function Edit(s: State, index: int): (t: State)
    requires 0 <= index < |s.items|
    ensures t.showModal && t.editing == index
    ensures t.tempItem == Some(s.items[index])
    ensures t.items == s.items
  {
    State(true, index, s.items, Some(s.items[index]))
  }

  /** Where JavaScript's `splice(index, 1)` starts on a list of length `n`:
      a negative index counts from the end, an index past the end is the end. */
  function SpliceStart(index: int, n: nat): (k: nat)
    ensures k <= n
    ensures 0 <= index < n ==> k == index
    ensures index >= n ==> k == n
    ensures index < 0 ==> k == if n + index < 0 then 0 else n + index
  {
    if index < 0 then (if n + index < 0 then 0 else n + index)
    else if index > n then n
    else index
  }

  /** The delete button of row `index`: drop one entry, keep the order of the rest. */
  function Delete(s: State, index: int): (t: State)
    ensures t.showModal == s.showModal && t.editing == s.editing && t.tempItem == s.tempItem
    ensures 0 <= index < |s.items| ==>
      && |t.items| == |s.items| - 1
      && (forall j | 0 <= j < index :: t.items[j] == s.items[j])
      && (forall j | index <= j < |t.items| :: t.items[j] == s.items[j + 1])
    ensures index >= |s.items| ==> t.items == s.items
    ensures |s.items| > 0 && index < 0 ==> |t.items| == |s.items| - 1
  {
    var k := SpliceStart(index, |s.items|);
    if k < |s.items| then s.(items := s.items[..k] + s.items[k + 1..]) else s
  }

  /** The Clear button: empty the list and touch nothing else. */
  function Clear(s: State): (t: State)
    ensures t.items == []
    ensures t.showModal == s.showModal && t.editing == s.editing && t.tempItem == s.tempItem
  {
    s.(items := [])
  }

  /** The form's cancel action as the screen has it: close the form and drop the
      draft, but keep the index of the entry that was being edited. */
  function CancelAsWritten(s: State): (t: State)
    ensures !t.showModal && t.tempItem.None?
    ensures t.items == s.items && t.editing == s.editing
  {
    s.(showModal := false, tempItem := None)
  }

  /** The form's cancel action as intended: close the form, drop the draft and
      forget which entry was being edited. */
  function Cancel(s: State): (t: State)
    ensures !t.showModal && t.tempItem.None? && t.editing == -1
    ensures t.items == s.items
  {
    State(false, -1, s.items, None)
  }

  /** The sum of the entries' totals; the empty ledger sums to 0. */
  function Sum(items: seq<Item>): real {
    if |items| == 0 then 0.0 else items[0].total + Sum(items[1..])
  }

  lemma {:induction false} SumConcat(a: seq<Item>, b: seq<Item>)
    ensures Sum(a + b) == Sum(a) + Sum(b)
    decreases |a|
  {
    if |a| == 0 {
      assert a + b == b;
    } else {
      assert (a + b)[1..] == a[1..] + b;
      SumConcat(a[1..], b);
    }
  }

  /** The headline total: the list folded left to right, adding each entry's
      total to an accumulator that starts at 0. */
  method AggregateTotal(items: seq<Item>) returns (acc: real)
    ensures acc == Sum(items)
    ensures |items| == 0 ==> acc == 0.0
  {
    acc := 0.0;
    var i := 0;
    while i < |items|
      invariant 0 <= i <= |items|
      invariant acc == Sum(items[..i])
    {
      assert items[..i + 1] == items[..i] + [items[i]];
      SumConcat(items[..i], [items[i]]);
      acc := acc + items[i].total;
      i := i + 1;
    }
    assert items[..i] == items;
  }

  /** Appending a committed draft raises the total by the draft's hours. */
  lemma {:induction false} AddAppendTotal(s: State)
    requires s.tempItem.Some? && s.editing == -1
    ensures Sum(Add(s).items) == Sum(s.items) + EntryHours(s.tempItem.value.firstShift, s.tempItem.value.secondShift)
  {
    var it := BuildItem(s.tempItem.value);
    assert Add(s).items == s.items + [it];
    SumConcat(s.items, [it]);
  }

  /** Overwriting the entry being edited trades its total for the draft's hours. */
  lemma {:induction false} AddReplaceTotal(s: State)
    requires s.tempItem.Some? && 0 <= s.editing < |s.items|
    ensures Sum(Add(s).items) == Sum(s.items) - s.items[s.editing].total
                                 + EntryHours(s.tempItem.value.firstShift, s.tempItem.value.secondShift)
  {
    var k := s.editing;
    var it := BuildItem(s.tempItem.value);
    assert s.items == s.items[..k] + [s.items[k]] + s.items[k + 1..];
    assert Add(s).items == s.items[..k] + [it] + s.items[k + 1..];
    SumConcat(s.items[..k] + [s.items[k]], s.items[k + 1..]);
    SumConcat(s.items[..k], [s.items[k]]);
    SumConcat(s.items[..k] + [it], s.items[k + 1..]);
    SumConcat(s.items[..k], [it]);
  }

  /** Deleting a row lowers the total by exactly that row's total. */
  lemma {:induction false} DeleteTotal(s: State, index: int)
    requires 0 <= index < |s.items|
    ensures Sum(Delete(s, index).items) == Sum(s.items) - s.items[index].total
  {
    var k := index;
    assert s.items == s.items[..k] + [s.items[k]] + s.items[k + 1..];
    SumConcat(s.items[..k] + [s.items[k]], s.items[k + 1..]);
    SumConcat(s.items[..k], [s.items[k]]);
    SumConcat(s.items[..k], s.items[k + 1..]);
  }

  /** Deleting a row removes one occurrence of that entry and nothing else. */
  lemma DeleteMultiset(s: State, index: int)
    requires 0 <= index < |s.items|
    ensures multiset(Delete(s, index).items) + multiset{s.items[index]} == multiset(s.items)
  {
    var k := index;
    assert s.items == s.items[..k] + [s.items[k]] + s.items[k + 1..];
  }

  /** After Clear the headline total is 0, whatever was there before. */
  lemma ClearTotal(s: State)
    ensures Sum(Clear(s).items) == 0.0
  {
  }

  /** Deleting the entry just appended restores the list. */
  lemma AddThenDeleteLast(s: State)
    requires s.tempItem.Some? && s.editing == -1
    ensures Delete(Add(s), |s.items|).items == s.items
  {
  }
}
