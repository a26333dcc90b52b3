# EventCalendar core in Dafny

This project models the core of EventCalendar, a per-user month calendar. Its three
parts are:

- **The event provider** (`src/contexts/EventContext.tsx`). The provider holds the
  logged-in user's list of events in memory and mirrors it into the browser's local
  storage under the key `calendar-events-<uid>`. A load effect runs when the user
  changes. A save effect runs whenever the list or the user changes. The provider
  offers four operations: `addEvent`, `updateEvent`, `deleteEvent` and
  `getEventsForDate`; each acts only for the logged-in user.
- **The event dialog** (`src/components/EventModal.tsx`):
  - the prefill of the fields from an edited event;
  - the `onChange` guards of the hours and minutes inputs;
  - the ordered checks of `handleSubmit` and their messages;
  - the padded `HH:MM` time string;
  - the single store call a successful submit makes;
  - `handleDelete`.

  The month page (`src/app/calendar/page.tsx:200-207`) opens the dialog without an
  `event`, so from that page the edit prefill, the edit submit and `handleDelete` are
  not reached. The dialog's code is modelled as written.
- **The month grid** (`src/app/calendar/page.tsx`):
  - the whole-week range around the month, with Sunday first;
  - the in-month tag of each day;
  - each day's events, looked up through the provider;
  - the cell's truncation to three events plus a "+N more" line.

## Modules

- `Wrappers`: `Option` and `Result`.
- `Events`: the event record, the patch of an update, and the list operations as
  pure functions, with their properties.
- `EventStore`: the stored blob, the load and save effects, and the class `Store`
  with the provider's state and operations.
- `JsText`: the JavaScript string primitives the dialog relies on:
  - `trim`, with the ECMAScript white-space set;
  - `parseInt` without a radix: leading white space, a sign, a `0x` prefix, the
    longest digit run, and NaN as `None`;
  - `padStart`;
  - `split` on one character.
- `EventForm`: the dialog's checks as functions, and the class `Modal` with the
  dialog's state and handlers.
- `CalendarGrid`: the month view as functions on integer day numbers. Day 0 is a
  Sunday.

## How the effects are modelled

Each store operation is one atomic step. It computes the new list and then runs the
save effect, so storage always ends holding the whole new list under the user's key.
A change of user is modelled by the state it settles in: the list becomes what the
load effect sets, and storage holds that list under the new user's key. In React the
save effect of the same render runs right after the load effect and writes the list
still in memory, the previous user's, under the new key; the save of the next render
then writes the loaded list over it. The ghost predicate `Store.Synced` states
that storage holds the whole list under the logged-in user's key. Every operation
preserves it.

The ghost predicate `Store.Owned` states ownership: the list in memory belongs to the
logged-in user, and every stored list lies under its owner's key. The chain that keeps
it is:

- `addEvent` and `deleteEvent` keep it.
- `updateEvent` keeps it when the patch names no owner or the user's own uid.
- A change of user keeps it when the new user's blob parses or is empty.
- The dialog's submit and delete keep it, because an edit's patch names no owner.

`Events.UpdatedCanReassignOwner` and `EventStore.CorruptBlobKeepsPreviousUsersEvents`
show that the two conditions are needed.

Two behaviours of the code are easy to misread; the model follows the code in both:

- **A stored blob that does not parse does not reset the list.** The `catch` branch
  of the load effect (`EventContext.tsx:42-44`) only logs. So the list still holds
  the previous user's events. The save effect then writes them under the new user's
  key, replacing the unreadable record. `EventStore.CorruptBlobKeepsPreviousUsersEvents`
  proves this.
- **`updateEvent` does not protect the entry's `id` or `userId`.** It merges the
  patch with an object spread (`EventContext.tsx:75`), so a patch can change an
  entry's `id` or `userId`. `Events.UpdatedCanReassignOwner` shows an owner being
  reassigned. The dialog never sends either field, and `EventForm.EditKeepsIdentity`
  proves that its edits keep both.

## Model

| member | source | states |
|---|---|---|
| Events.Created | src/contexts/EventContext.tsx:61-65 | defines the new event: the draft's texts with the generated id and the logged-in uid |
| Events.Appended | src/contexts/EventContext.tsx:58-67 | `addEvent` keeps the old list as a prefix and appends one event that has the draft's texts, the generated id and the logged-in uid |
| Events.AppendedIgnoresDraftOwner | src/contexts/EventContext.tsx:63 | the owner of a new event is the logged-in user, whatever `userId` the draft carries |
| Events.AppendedOwned | src/contexts/EventContext.tsx:58-67 | adding to a list owned by the user keeps it owned by the user |
| Events.AddThenQuery | src/contexts/EventContext.tsx:58-67 | after an add, the day's query for its owner is the old answer followed by the new event; for another viewer it is unchanged |
| Events.Merge | src/contexts/EventContext.tsx:75 | defines the object spread `{ ...event, ...patch }`: each field present in the patch wins |
| Events.Targets | src/contexts/EventContext.tsx:74 | defines the entries an update or delete acts on: that id and the user's uid |
| Events.MergeFields | src/contexts/EventContext.tsx:75 | the spread merge takes each field that the patch carries and keeps every other field, `id` and `userId` included |
| Events.Updated | src/contexts/EventContext.tsx:69-79 | `updateEvent` keeps the length, leaves each non-target entry unchanged, and merges the patch into each entry with that id and the user's uid |
| Events.UpdatedNoTarget | src/contexts/EventContext.tsx:72-77 | with no entry of that id owned by the user (for instance another user's id), an update is the identity |
| Events.UpdateTitleOnly | src/contexts/EventContext.tsx:72-77 | a title-only patch changes only the title, and only of the targeted entries |
| Events.UpdatedKeepsIdentity | src/contexts/EventContext.tsx:72-77 | a patch without id and owner keeps every entry's id and owner |
| Events.UpdatedCanReassignOwner | src/contexts/EventContext.tsx:75 | for any list, a patch naming another owner sets every target's owner to it; when a target exists and the new owner differs, the list is no longer owned by the user |
| Events.UpdatedOwned | src/contexts/EventContext.tsx:72-77 | an update whose patch names no owner, or the user's own uid, keeps a list owned by the user owned by the user |
| Events.KeptOnDelete | src/contexts/EventContext.tsx:85-91 | defines the filter condition of `deleteEvent` in its two steps |
| Events.KeptOnDeleteIffNotTarget | src/contexts/EventContext.tsx:85-91 | the filter's two-step condition keeps an entry exactly when it is not (that id and the user's uid) |
| Events.Deleted | src/contexts/EventContext.tsx:81-93 | an entry is in the result if and only if it was in the list and is not a target |
| Events.DeletedExactly | src/contexts/EventContext.tsx:84-92 | delete keeps the original order (a subsequence); it keeps every copy of each non-target and no copy of a target |
| Events.DeleteKeepsForeignOwner | src/contexts/EventContext.tsx:87-89 | an entry with the id but another owner survives |
| Events.DeletedNoTarget | src/contexts/EventContext.tsx:84-92 | with no target present, delete is the identity |
| Events.DeleteIdempotent | src/contexts/EventContext.tsx:84-92 | deleting twice equals deleting once |
| Events.DeletedOwned | src/contexts/EventContext.tsx:84-92 | deleting keeps a list owned by the user owned by the user |
| Events.ForDate | src/contexts/EventContext.tsx:97-99 | an entry is returned if and only if it is in the list, on that date, and owned by the user |
| Events.ForDateExactly | src/contexts/EventContext.tsx:97-99 | the query keeps list order and returns every copy of each matching entry and nothing else |
| Events.Query | src/contexts/EventContext.tsx:95-100 | with no user logged in the query is empty |
| Events.StandupScenario | src/contexts/EventContext.tsx:95-100 | an event added for "u1" is the only one "u1" sees that day, and "u2" sees none |
| EventStore.Parse | src/contexts/EventContext.tsx:38-44 | defines `JSON.parse` of a stored value: the list when it parses, nothing when it throws |
| EventStore.Truthy | src/contexts/EventContext.tsx:38 | defines the truthiness test on the stored text: the empty text is falsy |
| EventStore.Loaded | src/contexts/EventContext.tsx:30-48 | defines the list the load effect leaves: empty with no user or no stored text, the parsed list, or the old list when parsing throws |
| EventStore.Saved | src/contexts/EventContext.tsx:51-56 | defines the storage the save effect leaves: the serialised list under the user's key, or storage unchanged with no user |
| EventStore.Serialize | src/contexts/EventContext.tsx:55 | parsing what the save writes gives the list back, and the written text is truthy |
| EventStore.StorageKey | src/contexts/EventContext.tsx:36 | defines the storage key `calendar-events-${uid}`, used by both effects (lines 36 and 54) |
| EventStore.StorageKeyInjective | src/contexts/EventContext.tsx:36 | distinct uids have distinct storage keys |
| EventStore.SavedTouchesOnlyOwnKey | src/contexts/EventContext.tsx:51-56 | the save writes only the user's own key; every other key keeps its value |
| EventStore.LoadAfterSave | src/contexts/EventContext.tsx:30-48 | loading right after a save returns the saved list, whatever was in memory |
| EventStore.SwitchAwayAndBack | src/contexts/EventContext.tsx:30-56 | switching from user a to user b and back restores a's list, whatever b's blob holds |
| EventStore.LoadedOwned | src/contexts/EventContext.tsx:30-48 | when each stored list lies under its owner's key and the user's blob is not corrupt, the loaded list belongs to the user |
| EventStore.SavedKeepsStorageOwned | src/contexts/EventContext.tsx:51-56 | saving a list owned by the user keeps every stored list under its owner's key |
| EventStore.LoadThenSaveKeepsStorageOwned | src/contexts/EventContext.tsx:30-56 | a change to a user whose blob parses or is empty loads that user's own list and, once saved, keeps every stored list under its owner's key |
| EventStore.CorruptBlobKeepsPreviousUsersEvents | src/contexts/EventContext.tsx:38-44 | an unparsable blob for b leaves a's events in memory, and the save then writes a's events under b's key |
| EventStore.Store.constructor | src/contexts/EventContext.tsx:26-27 | on mount the list is empty, no user is logged in, storage is what the browser holds, and the store is synced |
| EventStore.Store.Save | src/contexts/EventContext.tsx:51-56 | storage becomes the save of the current list under the user's key (unchanged with no user), and the store is synced |
| EventStore.Store.ChangeUser | src/contexts/EventContext.tsx:30-56 | the new user is set, the list becomes the load result from the old list and storage, and storage becomes its save; the store is synced, and ownership holds when storage was owner-scoped and the new blob parses or is empty |
| EventStore.Store.AddEvent | src/contexts/EventContext.tsx:58-67 | with no user nothing changes; otherwise the list is `Appended` and storage its save; sync and ownership are preserved |
| EventStore.Store.UpdateEvent | src/contexts/EventContext.tsx:69-79 | with no user nothing changes; otherwise the list is `Updated` and storage its save; sync is preserved, and ownership too when the patch names no owner or the user |
| EventStore.Store.DeleteEvent | src/contexts/EventContext.tsx:81-93 | with no user nothing changes; otherwise the list is `Deleted` and storage its save; sync and ownership are preserved |
| EventStore.Store.GetEventsForDate | src/contexts/EventContext.tsx:95-100 | returns the user's entries of that date in list order, and nothing with no user |
| EventStore.SwitchUserAndBack | src/contexts/EventContext.tsx:30-56 | on a synced store, logging in as any b and then again as a leaves a's list exactly as it was |
| JsText.Trim | src/components/EventModal.tsx:47 | defines `trim` as removing the leading and then the trailing white space |
| JsText.TrimStart | src/components/EventModal.tsx:47 | the result is a suffix of the input, everything removed is white space, and the result does not start with white space |
| JsText.TrimEnd | src/components/EventModal.tsx:47 | the result is a prefix of the input, everything removed is white space, and the result does not end with white space |
| JsText.IsBlank | src/components/EventModal.tsx:47 | defines the blank test `!s.trim()` of the title and of both time parts (lines 47 and 56) |
| JsText.BlankIffAllSpace | src/components/EventModal.tsx:47 | `!s.trim()` holds exactly when every character of `s` is white space |
| JsText.TrimIsSlice | src/components/EventModal.tsx:47 | `trim` keeps one contiguous slice and removes only white space on either side |
| JsText.ParseInt | src/components/EventModal.tsx:53-54 | defines `parseInt` without a radix: white space, an optional sign, a `0x` prefix or decimal digits, and NaN with no digit |
| JsText.ParseIntDecimal | src/components/EventModal.tsx:53-54 | `parseInt` of a plain decimal numeral is its decimal value |
| JsText.ParseIntForms | src/components/EventModal.tsx:53-54 | `parseInt` skips leading white space, takes a `+` or `-` sign, and reads a decimal numeral up to the first non-digit |
| JsText.ParseIntNaN | src/components/EventModal.tsx:53-54 | after leading white space, text that starts with no digit and no sign is NaN |
| JsText.ValueOfLeadingZero | src/components/EventModal.tsx:53-54 | a leading zero does not change a numeral's value |
| JsText.PadStart | src/components/EventModal.tsx:77 | the result has length max(len, width), ends with the input and starts with fill characters |
| JsText.PadStartIdempotent | src/components/EventModal.tsx:77 | padding twice equals padding once |
| JsText.Split | src/components/EventModal.tsx:32 | `split` gives at least one part, no part contains the separator, and joining the parts gives the input back |
| JsText.SplitJoin | src/components/EventModal.tsx:32 | splitting the join of separator-free parts gives the parts back |
| EventForm.Message | src/components/EventModal.tsx:48-72 | defines the message shown for each failing check |
| EventForm.InRange | src/components/EventModal.tsx:61-66 | defines the range test: `parseInt` gave a number between 0 and max; its negation is each range check, and it is the guard test of the inputs (lines 180 and 201) |
| EventForm.Validate | src/components/EventModal.tsx:47-75 | defines the chain of checks: title, both time parts, hours range, minutes range, then the user |
| EventForm.TimeString | src/components/EventModal.tsx:77 | defines the time text: both parts padded to two places with "0" and joined by ':' |
| EventForm.EditPatch | src/components/EventModal.tsx:83-87 | defines the patch of an edit: trimmed title and description and the time, nothing else |
| EventForm.SubmitCall | src/components/EventModal.tsx:47-98 | defines the outcome of a submit: the first failing check's error, or the one store call |
| EventForm.SubmitErrors | src/components/EventModal.tsx:47-75 | each check in order: the first failing check decides the error, whatever the later ones say |
| EventForm.SubmitSucceedsIff | src/components/EventModal.tsx:47-98 | a submit leads to a store call exactly when the checks pass, and a failing submit carries the checks' error |
| EventForm.ValidatedUser | src/components/EventModal.tsx:47-75 | the checks pass exactly when the title and both time parts are non-blank, both parse into range, and a user is logged in; they then yield that user's uid |
| EventForm.SubmitCallContents | src/components/EventModal.tsx:77-98 | an edit calls `updateEvent` on the edited id with the trimmed texts and the padded time, and no id, date or owner; a create calls `addEvent` with the trimmed texts, the dialog's date, the padded time and the uid |
| EventForm.EditKeepsIdentity | src/components/EventModal.tsx:84-88 | an edit from the dialog keeps every entry's id, owner and date |
| EventForm.PadTwo | src/components/EventModal.tsx:77 | a one-character part gains a leading "0"; a longer part is unchanged |
| EventForm.PadAddsNoColon | src/components/EventModal.tsx:77 | padding adds no ':' |
| EventForm.TimeSplitRoundTrip | src/components/EventModal.tsx:77 | splitting the time string on ':' gives the two padded parts back |
| EventForm.PadNumeral | src/components/EventModal.tsx:77 | a one- or two-digit numeral pads to two digits with the same value |
| EventForm.ShortNumeralsGiveClockTime | src/components/EventModal.tsx:53-77 | numerals of at most two digits that pass the range checks give a well-formed `HH:MM` with HH ≤ 23 and MM ≤ 59 |
| EventForm.DecimalPartsPassChecks | src/components/EventModal.tsx:53-75 | decimal time parts of any length pass the checks exactly by their value |
| EventForm.LongHoursAreNotPadded | src/components/EventModal.tsx:53-77 | decimal hours of three or more digits within range (such as "005") pass every check, yet the time they give is not `HH:MM` |
| EventForm.LongHoursTime | src/components/EventModal.tsx:77 | the hours "005" and the minutes "30" give the six-character time "005:30" |
| EventForm.PrefillFields | src/components/EventModal.tsx:28-41 | defines the prefill: an edited event's texts and its time split on ':', or empty fields |
| EventForm.PrefillReadsBackTime | src/components/EventModal.tsx:28-41 | editing an event whose time the dialog wrote shows the padded parts, and submitting them unchanged gives the same time |
| EventForm.AcceptsInput | src/components/EventModal.tsx:176-205 | defines the input guard: the text is empty or parses into 0..max |
| EventForm.GuardedInputsPassRangeChecks | src/components/EventModal.tsx:176-205 | fields filled only through the input guards never fail the range checks of the submit |
| EventForm.Modal.constructor | src/components/EventModal.tsx:16-41 | the dialog opens with the prefilled fields, no error and not loading; a create dialog starts with guarded time inputs |
| EventForm.Modal.OnHoursChange | src/components/EventModal.tsx:176-184 | the hours text is taken if and only if it is empty or parses into 0..23; the guard invariant is preserved |
| EventForm.Modal.OnMinutesChange | src/components/EventModal.tsx:197-205 | the minutes text is taken if and only if it is empty or parses into 0..59; the guard invariant is preserved |
| EventForm.Modal.Check | src/components/EventModal.tsx:47-98 | the early-return checks give exactly the outcome `SubmitCall` specifies, and success implies a logged-in user |
| EventForm.Modal.HandleSubmit | src/components/EventModal.tsx:43-103 | on a failing check: its message, `loading` as before, and the store untouched; on success: no message, `loading` off, and the list and storage after exactly the one store call; sync and ownership are preserved |
| EventForm.Modal.Dispatch | src/components/EventModal.tsx:82-98 | the store ends as after the call that `ApplyCall` gives, with storage saved; the user is unchanged; ownership is preserved when an update's patch names no owner |
| EventForm.Modal.HandleDelete | src/components/EventModal.tsx:105-117 | with no edited event nothing happens; otherwise the list is `Deleted` on the edited id and storage is its save; `loading` ends off; ownership is preserved |
| CalendarGrid.StartOfWeek | src/app/calendar/page.tsx:37 | the Sunday on or before the day, within the six days before it |
| CalendarGrid.StartOfWeekUnique | src/app/calendar/page.tsx:37 | that Sunday is the only Sunday among the seven days ending at the day |
| CalendarGrid.EndOfWeek | src/app/calendar/page.tsx:38 | the Saturday on or after the day, within the six days after it |
| CalendarGrid.EndOfWeekUnique | src/app/calendar/page.tsx:38 | that Saturday is the only Saturday among the seven days from the day |
| CalendarGrid.EachDay | src/app/calendar/page.tsx:40-43 | every day from start to end inclusive, in consecutive order |
| CalendarGrid.CalendarDays | src/app/calendar/page.tsx:35-43 | defines the grid's days: from the Sunday on or before the month's first day to the Saturday on or after its last |
| CalendarGrid.GridShape | src/app/calendar/page.tsx:35-43 | the grid spans 4 to 6 whole weeks from a Sunday to a Saturday, with consecutive days, and cell i is in weekday column i mod 7 |
| CalendarGrid.GridCoversMonth | src/app/calendar/page.tsx:35-43 | every day of the month is in the grid, with fewer than seven days before it and fewer than seven after it |
| CalendarGrid.IsCurrentMonth | src/app/calendar/page.tsx:150 | defines the in-month tag: the day lies between the month's first and last day |
| CalendarGrid.CurrentMonthIsBlock | src/app/calendar/page.tsx:150 | a cell is in the month exactly when its index lies in one contiguous block |
| CalendarGrid.EventsForDay | src/app/calendar/page.tsx:66-69 | a day's events are exactly the user's entries dated with the day's text |
| CalendarGrid.Shown | src/app/calendar/page.tsx:174 | a cell lists the first min(3, total) events, in store order |
| CalendarGrid.More | src/app/calendar/page.tsx:186-188 | the "+N more" line appears exactly when the day has more than 3 events |
| CalendarGrid.ShownPlusMore | src/app/calendar/page.tsx:174-188 | the shown events plus N make the total; the shown events and the rest make the day's list; with no "more" line every event is shown |
| CalendarGrid.CellFor | src/app/calendar/page.tsx:149-190 | defines one cell: its day, the in-month tag, the first events of the day and the "+N more" count |
| CalendarGrid.MonthView | src/app/calendar/page.tsx:149-152 | one cell per grid day |
| CalendarGrid.MonthViewCells | src/app/calendar/page.tsx:149-190 | each cell has its grid day, the in-month tag, the first events of that day's lookup, and the count of the rest |
| CalendarGrid.NoUserEmptyCells | src/app/calendar/page.tsx:66-69 | with no user logged in every cell is empty |
| CalendarGrid.DistinctDaysShareNoEvent | src/app/calendar/page.tsx:66-69 | when distinct days have distinct texts, no event is listed in two cells |

## Left out

- Rendering, styling and click handlers are left out. This covers the JSX, `onClose`,
  `handleDateClick`, the highlight of today, and the selected date.
- Month navigation (`handlePrevMonth`, `handleNextMonth`) and the wall clock are left
  out.
  - The model takes the month as the numbers of its first and last day.
  - It takes the `yyyy-MM-dd` rendering of a day as a parameter `key`.
  - The date library's calendar arithmetic is not part of this model.
- Local storage and JSON are not modelled byte for byte.
  - A stored value is either a serialised list or a text on which parsing throws.
  - A text that parses to something other than a list of events is not modelled.
- Id generation (`Date.now()` and `Math.random()`) is left out. The id is a
  parameter `freshId`, and its uniqueness is not claimed.
- React's scheduling is left out. Each handler is one atomic step, and a change of
  user is one step to the state its effects settle in.
- EventStore.Store.ChangeUser: the short-lived write on a change of user is not
  modelled. The save effect of that render first stores the previous user's list
  under the new user's key, and the loaded list replaces it only at the next
  render's save. The model goes straight to that final state.
- Authentication is left out. The identity provider is reduced to the user it
  reports, through `Store.ChangeUser`. Logout is the change to no user.
- The `catch` branches of `handleSubmit` and `handleDelete` are left out, because the
  store operations never throw. The `useEvents` check for a missing provider is also
  left out.
- The browser's sanitising of `type="number"` inputs is left out. The guards are
  modelled on whatever text the input reports.
- EventForm.Modal.HandleSubmit: the `loading` flag is observed only before and after
  the call. Its value during the call is not stated.
- JsText.ParseInt: precision loss for numerals beyond 2^53 is not modelled. The value
  is an unbounded integer.
- Events.Updated: a patch carrying an explicit `undefined` value is not modelled. A
  field is either present with a string or absent.
