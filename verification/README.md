# Time calculator: the shift ledger

A model, in Dafny, of the logic inside the `App` component of a single-page
time calculator. A user records days of work. Each day has a date, a first
shift and an optional second shift. The screen shows each day's hours and the
total over all days.

What is modelled:

- **Picker text** (`Clock`). The two range pickers of the entry form use the
  24-hour `"HH:mm"` format, or give `""` once cleared. A time of day is a number
  of minutes since midnight below 1440. `Format` and `Parse` convert between the
  two forms, and each undoes the other.
- **Shift duration** (`Shifts`). `calculateShift` gives `end - start` in hours,
  as an exact `real` over whole minutes. The result is signed: there is no
  clamping and no wrap past midnight. It is 0 when the shift is missing or
  either endpoint is missing or empty. It hands the shift back with the hours.
- **Screen state and handlers** (`Ledger`). The state record holds the form's
  visibility, the edit index (-1 when adding), the list of entries and the
  draft. Each handler is a pure function from state to state: open the form
  (`onShowModal`), pick a shift, confirm (`onAdd`), edit a row (`onEdit`),
  delete a row (`onDelete`, with JavaScript `splice` index rules), clear the
  list, and cancel the form. The aggregate total at the top of the page is the
  `reduce` fold over the entries' totals. A loop computes it left to right, and
  it is proved equal to a recursive sum.
- **Sessions** (`Session`). A sequence of user actions drives the handlers. With the
  cancel action corrected (see Findings), an invariant, `Consistent`, holds in
  every reachable state. It says the edit
  index is -1 or names an entry, and it is set only while the form is open. The
  form is open exactly when a draft exists. Every stored total agrees with its
  shifts.

Inputs from outside the component are parameters. The current date that
`onShowModal` stamps on a new draft is the `now` argument, an opaque string.
The picker text is the `start`/`end` arguments of `SetShift`.

Two behaviours of the code are easy to miss. This model follows the code in both:

- Deleting with an index past the end raises no error. `splice` leaves the list
  unchanged, and so does `Ledger.Delete`.
- An entry may be committed with no first shift. `onAdd` sets `firstShift`
  only when the draft has one, so `Item.firstShift` is optional here even though
  the declared type makes it required.

## Model

| member | source | states |
|---|---|---|
| Clock.Parse | src/App.tsx:217 | Accepts exactly five-character `HH:mm` text with hours 00-23 and minutes 00-59, and returns the time whose hour and minute are those digits |
| Clock.ParseFormat | src/App.tsx:217 | Parsing the `HH:mm` text of any time of day gives that time back |
| Clock.FormatParse | src/App.tsx:232 | Any text the parser accepts is exactly the `HH:mm` formatting of the time it reads |
| Clock.ReadEndpoint | src/App.tsx:219-224 | Picker text denotes no endpoint exactly when it is empty (falsy), and otherwise an endpoint whose `HH:mm` text is that text |
| Clock.ReadFormatted | src/App.tsx:217 | Every time of day has picker text that reads back as that time |
| Shifts.Hours | src/App.tsx:141-144 | Hours from start to end are the minute difference over 60, strictly between -24 and 24, negative exactly when end is before start, and zero exactly when they are equal |
| Shifts.CalculateShift | src/App.tsx:137-148 | Returns the given shift unchanged. The hours are 0 when the shift or either endpoint is missing. Otherwise they are the signed minute difference over 60, negative exactly for a backwards shift, and never wrapped |
| Shifts.HoursSplit | src/App.tsx:144 | Splitting a shift at any time of day divides its hours exactly between the two parts |
| Shifts.BackwardsShiftIsNegated | src/App.tsx:140-144 | A shift whose end is before its start is worth the negated hours of the forward shift, not a wrap past midnight |
| Shifts.NineToHalfFiveExample | src/App.tsx:137-148 | Picker text 09:00 to 17:30 is worth 8.5 hours |
| Ledger.BuildItem | src/App.tsx:156-165 | The committed entry keeps the draft's date and both shifts, and so has a second shift exactly when the draft had one. Its total is the sum of the two shift durations, whatever total the draft carried. It equals the draft exactly when the draft's total already agreed |
| Ledger.BuildItemIdempotent | src/App.tsx:156-165 | Committing an already committed entry changes nothing |
| Ledger.ShowModal | src/App.tsx:128-135 | Opens the form on a draft dated `now` with no shifts and total 0, and leaves the list and edit index alone |
| Ledger.SetShift | src/App.tsx:219-241 | With no draft nothing changes. Otherwise only the chosen slot of the draft is replaced by the picked shift; its date, its other slot and its total stay as they were. The list, the edit index and the form's visibility are untouched |
| Ledger.Add | src/App.tsx:150-178 | With no draft the state is unchanged. Otherwise the form closes, the draft is dropped and the edit index returns to -1. At index -1 the list grows by one: the old entries stay in front and the new entry is last. At a valid index the length is kept, only that position changes, and it becomes the committed entry |
| Ledger.Edit | src/App.tsx:184-193 | Opens the form on a copy of the chosen entry, records its index, and leaves the list unchanged |
| Ledger.SpliceStart | src/App.tsx:198 | The start position of `splice`: a valid index is kept, a negative one counts from the end with a floor of 0, and one past the end is clamped to the end |
| Ledger.Delete | src/App.tsx:195-200 | A valid index removes exactly that entry. Entries before it keep their positions and entries after it move down by one. An index past the end leaves the list unchanged. Form and edit state are untouched |
| Ledger.Clear | src/App.tsx:271 | The list becomes empty and nothing else changes |
| Ledger.CancelAsWritten | src/App.tsx:211 | The form's cancel action as written: it closes the form and drops the draft but keeps the edit index |
| Ledger.Cancel | src/App.tsx:211 | The corrected cancel action: it closes the form, drops the draft and resets the edit index to -1, keeping the list |
| Ledger.SumConcat | src/App.tsx:252 | The total of two lists joined together is the sum of their totals |
| Ledger.AggregateTotal | src/App.tsx:252 | The left-to-right `reduce` accumulation from 0 equals the sum of every entry's total, and is 0 for the empty list |
| Ledger.AddAppendTotal | src/App.tsx:165-168 | Appending a committed draft raises the aggregate by the draft's first- plus second-shift hours |
| Ledger.AddReplaceTotal | src/App.tsx:165-170 | Overwriting the edited entry changes the aggregate by the new hours minus the old entry's total |
| Ledger.DeleteTotal | src/App.tsx:195-199 | Deleting a row lowers the aggregate by exactly that row's total |
| Ledger.DeleteMultiset | src/App.tsx:195-199 | Deleting a row removes one occurrence of that entry and no other entry |
| Ledger.ClearTotal | src/App.tsx:271 | After Clear the aggregate is 0, whatever was there before |
| Ledger.AddThenDeleteLast | src/App.tsx:167-168 | Deleting the entry just appended gives back the previous list |
| Session.InitialConsistent | src/App.tsx:45-52 | The starting state has no entries, no draft, a closed form and edit index -1, so it satisfies the invariant |
| Session.Step | src/App.tsx:128-200 | With the corrected cancel, every user action the screen can deliver keeps the invariant |
| Session.Run | src/App.tsx:128-200 | With the corrected cancel, any sequence of actions from a consistent state ends in a consistent state |
| Session.SettledSum | src/App.tsx:252 | When every stored total agrees with its shifts, the aggregate equals the sum of the hours recomputed from the shifts |
| Session.ReachableTotalIsShiftHours | src/App.tsx:252 | With the corrected cancel, in every reachable state the aggregate equals the hours recomputed from all entries' shifts |
| Session.CancelUndoesOpen | src/App.tsx:128-135 | Opening the form and cancelling it restores the previous state |
| Session.CancelUndoesEdit | src/App.tsx:184-193 | Opening an entry for editing and cancelling (corrected) restores the previous state |
| Session.EditConfirmUnchanged | src/App.tsx:184-193 | Opening an entry and confirming it without changes restores the previous state. The draft is a copy, and the recomputed total equals the stored one |
| Session.OpenThenConfirmAppends | src/App.tsx:128-135 | From a closed consistent screen, Add then OK appends one entry after all existing ones |
| Session.StaleEditOverwritesRow | src/App.tsx:211 | As written, edit row i, cancel, Add and OK leaves the length unchanged and overwrites row i with the new day. The state after the cancel breaks the invariant |
| Session.OpenAfterCancelAppends | src/App.tsx:211 | With the corrected cancel, the same actions keep the invariant and append the new day after every existing row |
| Session.StaleEditAfterClearPastEnd | src/App.tsx:211 | As written, edit row i (i at least 1), cancel, Clear and Add leave the edit index i on an empty list, past its end and outside what `Ledger.Add` accepts |
| Session.ClearAfterCancelAppends | src/App.tsx:211 | With the corrected cancel, the same actions keep the invariant, and OK makes the new day the only row |
| Session.StaleEditExample | src/App.tsx:211 | On a one-row ledger, the as-written actions end with one row (the new day). Running the corrected session ends with both days |

## Findings

| source | as written | input that shows it | evidently intended | confidence | as-written member | corrected member |
|---|---|---|---|---|---|---|
| src/App.tsx:211 | The form's cancel action resets `showModal` and `tempItem` but not `editing`. `onShowModal` does not reset it either | Edit row 0 of a one-row list, cancel, press Add, then OK: `onAdd` sees `editing === 0` and overwrites row 0 with the new day, so the list still has one row | Cancelling ends the edit, with `editing` back at -1, so the next Add appends | high; not executed | Ledger.CancelAsWritten, Session.StaleEditOverwritesRow | Ledger.Cancel, Session.OpenAfterCancelAppends |
| src/App.tsx:211 | The same stale `editing` survives a Clear. `onAdd` then writes `items[editing]` (src/App.tsx:170) past the end of the list | Edit row 1 of a two-row list, cancel, Clear, press Add, then OK: `items[1] = item` on an empty array leaves a hole at index 0. `[...items]` (src/App.tsx:174) turns the hole into `undefined`, and the `reduce` at src/App.tsx:252 reads `undefined.total`, so render throws | Cancelling ends the edit, so after Clear the next Add makes the new day the only row | high; not executed | Ledger.CancelAsWritten, Session.StaleEditAfterClearPastEnd | Ledger.Cancel, Session.ClearAfterCancelAppends |

`Session.Step`, `Session.Run` and every lemma about reachable states use the corrected `Ledger.Cancel`.

## Left out

- Rendering: the table columns, the modal and the tooltip and button wiring (src/App.tsx:58-126, 202-247, 258-282). This is presentation only.
- Luxon: `DateTime.now()` becomes the `now` argument, and dates are opaque strings. The date display format and the `hh:mm` clock display of the aggregate (src/App.tsx:253-256) are library formatting that this model does not include.
- `toFixed(2)` display strings, and IEEE rounding in the hours subtraction. Hours are exact reals over whole minutes.
- The `values` widget field of a shift (src/App.tsx:24). It carries picker state with no meaning for the ledger.
- The `try/catch` around `onAdd` (src/App.tsx:179-181). Nothing in the modelled computation throws.
- Ledger.Add: requires the edit index to be at most the list length. A larger index would make JavaScript create a sparse array with holes, which a sequence does not represent. With the corrected cancel, every reachable state meets this requirement. With the cancel as written it can be broken (edit row 1, cancel, Clear, Add; see `Session.StaleEditAfterClearPastEnd`). The source then leaves a hole that becomes `undefined`, and the next render throws at the `reduce`. The model does not represent that crash.
- Ledger.Edit: requires a valid row index. The table only offers edit buttons for existing rows. An out-of-range index would give an empty draft with no date.
- Clock.ReadEndpoint: requires picker text (`""` or well-formed `HH:mm`). Other non-empty text would make the source's duration `NaN`, which this model does not represent. The pickers never produce such text.
- A `null` list of picker strings (the `formatStrings || []` fallback at src/App.tsx:235) gives `undefined` endpoints. These are falsy like `""`, so they are the same `None` endpoint here.
