# MyScheduler schedule store, modelled in Dafny

MyScheduler is a weekly habit tracker. Each habit ("schedule") has a name and seven
done/not-done flags, Monday to Sunday. This project models its core. All of that core
lives in `scheduler.py`, in `MainWindow`, `ScheduleModel` and the module-level `today`:

- **The store** (`store.dfy`, module `Store`). This is the ordered list of records. It also holds:
  - the running row counter `schedule_count`;
  - the row and day addresses attached to every day cell drawn so far;
  - the list as last written to the file.

  The two mutations are the "Add Schedule" dialog and a click on a day cell. Each ends by
  rewriting the whole list. The file write is modelled only as the `saved` snapshot plus a
  `writes` counter.
- **The records** (`schedule.dfy`, module `Schedules`). This module has the record
  datatype, the seven-flag invariant, a fresh record and the per-record flag flip.
- **The week context** (`week.dfy`, module `WeekContext`). Dates are integer ordinals,
  numbered as Python's `date.toordinal` numbers them. This module covers:
  - `weekday`;
  - the Monday and Sunday shown in the header;
  - how a cell is classified as "earlier this week and not done".

  The current date is a parameter, not a clock reading.
- **Sessions** (`session.dfy`, module `Session`). This module covers any sequence of user
  actions after start-up, and the invariants those actions keep.

The model follows the code:
- an empty name is accepted;
- adding a schedule and toggling a day return nothing;
- a toggle writes `0 if current == 1 else 1`, so a stored flag other than 0 or 1 becomes 1;
- the loaded list is not validated.

The Monday computation `d - weekday(d)` never goes below `date.min`. The Sunday
computation `monday + 6` raises an overflow error when the date falls in the last week
of year 9999, because that week runs past `date.max`. `ComputeWeek` models that error.

## Model

| member | source | states |
|---|---|---|
| Schedules.Flip | scheduler.py:149-150 | the new flag is always 0 or 1; it is 0 exactly when the current flag is 1, so any other stored value becomes 1; for a 0/1 flag it is `1 - current` |
| Schedules.FlipInvolutive | scheduler.py:150 | flipping a 0/1 flag twice restores it |
| Schedules.NewSchedule | scheduler.py:94-96 | a new record keeps the entered text unchanged as its name and has seven flags, all 0 |
| Schedules.ToggleDay | scheduler.py:149-151 | only the addressed flag changes: it becomes 0 or 1, and it is 0 exactly when it was 1 (`1 - current` for a 0/1 flag); the name, the length and every other day are unchanged; a well-formed record stays well formed |
| Schedules.ToggleDayTwice | scheduler.py:149-151 | toggling the same 0/1 day twice gives back the original record |
| Store.RowButtons | scheduler.py:114-133 | a drawn row has seven cells; cell d carries the current counter as its row and d as its day |
| Store.DrawRow | scheduler.py:132-139 | drawing a row appends exactly seven cells tagged with the counter's value, then increments the counter; records and file are untouched |
| Store.DrawRowKeepsAddresses | scheduler.py:132-139 | if the cells of rows 0..k-1 were drawn in order, then after the next row, cell 7r+d still carries row r and day d |
| Store.DrawRows | scheduler.py:75-77 | drawing n rows from a correctly addressed state advances the counter by n and keeps every cell addressed to its own record |
| Store.Startup | scheduler.py:22-26 | after start-up, the store holds the loaded list; the counter equals its length; cell 7k+d addresses record k, day d; nothing has been written |
| Store.Save | scheduler.py:180-182 | a save records the whole current list as the file contents and counts one write; the list, counter and cells are unchanged |
| Store.AddSchedule | scheduler.py:93-99 | appends exactly one record `{name, [0,0,0,0,0,0,0]}` at the end and keeps all earlier records; its new cells carry its position as row index; the file then equals the list; the store invariant and well-formedness are preserved |
| Store.OnAddDialog | scheduler.py:93-94 | a cancelled dialog changes nothing and saves nothing; a confirmed one is exactly `AddSchedule` with the entered text: one record appended with that name, earlier records kept, all days 0, saved |
| Store.Click | scheduler.py:141-158 | a cell missing either property leaves the store and the file untouched; otherwise only the addressed record's addressed flag is toggled, the list length and other records are unchanged, and exactly one save follows |
| Store.DrawnButtonsAddressRecords | scheduler.py:132-149 | every drawn cell carries both properties; its day is below 7, and together they address an existing record and one of its flags, so the lookup never fails |
| Store.ClickTwiceRestores | scheduler.py:149-158 | clicking the same 0/1 cell twice restores the list, and the file then holds the original list again |
| WeekContext.Weekday | scheduler.py:12 | the day index lies in 0..6, and it is 0 exactly on ordinals congruent to 1 mod 7 (ordinal 1 is a Monday) |
| WeekContext.ComputeWeek | scheduler.py:43-44 | fails exactly in the last week before `date.max`; otherwise Monday has weekday 0, Sunday is Monday + 6, the date lies between them, date − Monday is today's index, and both bounds are valid dates |
| WeekContext.MondayIsUnique | scheduler.py:43 | a Monday m with m <= d <= m + 6 is necessarily `d - weekday(d)`, so the header's week is the only Monday-anchored week containing d |
| WeekContext.EarlierIndexIsEarlierDate | scheduler.py:43-44 | a day index is below today's index exactly when that day's date in the shown week is before today |
| WeekContext.RowClasses | scheduler.py:114-120 | a cell is past-unmarked iff its index is before today's and its flag is 0; so a done cell never is, no cell on or after today is, and nothing is on a Monday |
| WeekContext.PastUnmarkedAtMostElapsed | scheduler.py:117-120 | at most `today` cells of a row are classified past-unmarked |
| WeekContext.WednesdayWeek | scheduler.py:43-44 | for Wednesday 2026-10-07, the week starts on the Monday two days earlier and today's index is 2 |
| Session.Step | scheduler.py:93-158 | one user action keeps the store invariant and never shortens the list |
| Session.Run | scheduler.py:93-158 | any sequence of actions keeps the store invariant: counter = list length, cells addressed by position, file = list once written |
| Session.RunKeepsWellFormed | scheduler.py:96-151 | with well-formed initial data, every record keeps exactly seven 0/1 flags under any adds and clicks |
| Session.RunKeepsRows | scheduler.py:96 | no action removes, reorders or renames a record: each record keeps its row index and name |
| Session.RunSavedMatchesMemory | scheduler.py:99-158 | after start-up and any actions, the file equals the in-memory list once anything has been written, and nothing has been written otherwise |
| Session.ClickClearsPastUnmarked | scheduler.py:117-151 | clicking a past, not-done cell sets its stored flag to done, so the flag no longer meets the draw-time test and the row's next drawing shows it as not past-unmarked; a second click restores its flag |
| Session.FirstScheduleScenario | scheduler.py:93-99 | an empty store plus a confirmed "Run" holds exactly `{"Run", [0,0,0,0,0,0,0]}`, the file holds that one-element list, and the row's cells address row 0 |
| Session.ToggleWednesdayScenario | scheduler.py:141-158 | after loading `[{"Run", [0,0,0,0,0,0,0]}]`, clicking the cell for row 0, day 2 gives `[0,0,1,0,0,0,0]`, and the file reflects it |

## Left out

- The Qt widgets, layouts, dialogs, styles and checked-state handling (scheduler.py:1-6, 18-72, 79-92, 101-138, 152-156) are presentation. Only the row and day addresses attached to the cells, the row counter and the cell classification are modelled.
- Reading and writing JSON (scheduler.py:167-182) is file I/O through a library. A save is modelled as the `saved` snapshot plus a write counter, and the loaded list is a parameter of start-up.
- A failed write is not modelled. In the code, an error from `open` at scheduler.py:181 comes after the append (scheduler.py:96-97) or the toggle (scheduler.py:151) has already changed memory, which would leave the file stale. In the model `Save` always succeeds, so the `Valid` clause "file equals list once written" relies on that.
- A cell's class is fixed when its row is drawn (scheduler.py:117-120). A click (scheduler.py:141-158) does not re-evaluate the class of a cell already on screen, so the model classifies only the stored flags that a later drawing would use.
- Swallowing a missing file (scheduler.py:170, 173-175) depends on the `FileNotFoundError` raised by `open`. Swallowing a malformed file (scheduler.py:176-178) depends on the JSON parser's error. Start-up takes whatever list the load produced, including an empty one.
- Flags are narrowed to integers and the loaded value to a list of records. JSON can also yield `true`, `1.0`, strings or `null` as a flag, which Python compares with `==` (`True == 1`, `1.0 == 1`) at scheduler.py:117 and 150. A file holding `null` passes the `is not None` guard at scheduler.py:75 as an empty window, and the first add then fails at scheduler.py:96. None of this is modelled.
- Load and save resolve the file name against different directories (scheduler.py:164-165, 170, 181). This is a file-system detail.
- Store.Startup: it requires every loaded record to have at least seven flags. The window reads flags 0..6 of each loaded record, and a shorter list raises an index error. Records with missing keys, or with a JSON value that is not a list, are not modelled.
- Store.Click: it requires in-range, non-negative indices. Python's negative-index wrap-around and the index error are not modelled. Every drawn cell meets this requirement (`DrawnButtonsAddressRecords`).
- Session.Step: a click event names a drawn cell by its position. A position with no drawn cell changes nothing, because the window offers no such cell to click.
- The clock `date.today()` (scheduler.py:12, 43) is a parameter. The module-level `today` and the start-up Monday are assumed to be read on the same date. Line 43 itself calls `date.today()` twice, so a start-up across midnight could mix two dates in the Monday it computes; the model reads one date.
- Renaming for display (`replace(" ", "\n")`), `print` logging and `main()` (scheduler.py:102-104, 146, 160, 184-201) are out of scope.
