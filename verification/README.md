# Persian Gantt chart: a Dafny model of its task list, axis policy and measuring line

The program is a desktop window for planning with Jalali (Shamsi) dates. The user types a task
name, a start date and an end date as Jalali "YYYY-MM-DD" text, and picks one of eight colours.
The program checks the input and stores the task with Gregorian dates. On request it draws a
horizontal-bar Gantt chart. Its time axis is labelled in Jalali dates, with a tick policy chosen
from the length of the whole date span. A click on the chart places a dashed measuring line
captioned with the date under it, and the line can be dragged.

This project models the logic under the widgets, all of it in `gantt.py`:

- `text.dfy` (module `Text`): Python's `str.strip()`. The task name and both date fields are
  stripped before use.
- `tasks.dfy` (module `Tasks`): the add-task validator. Its checks run in a fixed order: a
  non-blank name, a start date that parses, an end date that parses, an end not before the
  start, and a colour name in the eight-entry palette. It builds the task record with an
  inclusive duration.
- `lists.dfy` (module `Lists`): Python's `list.remove`, which deletes the first value-equal
  element.
- `axis.dfy` (module `Axis`): the span of all task dates and the tick policy it selects. The
  policies are Daily, WeeklyInMonth and AutoMultiscale. The module also covers the axis
  configuration each policy stands for.
- `probe.dfy` (module `Probe`): the click/drag/release state machine of the measuring line.
- `gantt.dfy` (module `Gantt`): the application state, meaning the task list, the current chart
  and the marker state. It holds the add, remove, clear-all, generate and pointer-event
  operations, plus an invariant kept by every sequence of user actions.
- `wrappers.dfy` (module `Wrappers`): `Option` and `Result`.

Modelling choices:

- Dates are integer day ordinals. Parsing Jalali text is done by an external calendar library
  (`jdatetime`: `strptime` and then `togregorian`). The model passes it in as a parameter
  `parse: string -> Option<int>`, where `None` means the library raised `ValueError`.
- The caption of the measuring line is also produced by external calls: `num2date`,
  `fromgregorian`, `strftime` and text shaping. It is a parameter `caption: int -> string`.
  Axis coordinates are integers.
- Exceptions become `Result`/`Option` values, or an `Outcome` that carries the unchanged state
  and the reported failure.

Behaviour of the code worth knowing:

- Removal is by value, not by identity. The delete button calls `self.tasks.remove(task)` on
  dicts, and this deletes the first value-equal task. If equal tasks are stored, the deleted
  entry can be a different one from the row that was clicked. `Lists.RemoveFirstSameElements`
  and `Lists.RemoveFirstNotPositional` show that the same tasks remain, possibly in a different
  order.
- `generate_gantt` computes the day count by differencing the two span ends after conversion to
  Jalali. That difference counts the same days as the difference of the Gregorian ordinals, so
  the model uses `hi - lo + 1`.
- An unknown colour name raises `KeyError`. It is caught by the same handler as the other checks
  and reported like them, so the model treats it as the fifth add error.
- Regenerating the chart does not reset the marker variables or the drag flag. Only "clear all"
  resets them, and only when a chart existed.
- A failing `list.remove` is not caught inside `remove_task`. The task list is then unchanged,
  which is what `Gantt.RemoveTask` states.

## Model

| member | source | states |
|---|---|---|
| Text.Strip | gantt.py:177 | the stripped name has non-whitespace first and last characters and is no longer than the input |
| Text.StripShape | gantt.py:177-182 | `strip` cuts out a middle slice whose two margins are entirely whitespace and whose ends are not whitespace |
| Text.StripUnique | gantt.py:177-182 | any slice with whitespace-only margins and non-whitespace ends (or an empty slice of an all-whitespace string) is exactly what `strip` returns |
| Text.StripEmptyIff | gantt.py:177-179 | a name strips to the empty string exactly when every character is whitespace, so a whitespace-only name is blank |
| Text.StripIdempotent | gantt.py:177 | stripping an already stripped name changes nothing, so stored names are stripped |
| Tasks.Admit | gantt.py:175-221 | each add error is reported exactly when its own check fails and all earlier ones pass (blank name, bad start, bad end, end before start); an accepted task is well formed with duration = end − start + 1 ≥ 1, carries the parsed dates and the palette colour |
| Tasks.AdmitOkIff | gantt.py:177-211 | an add succeeds if and only if the name is not all whitespace, both dates parse, end ≥ start and the colour is a palette name |
| Tasks.SameDayTask | gantt.py:196-199 | a task whose end equals its start is accepted and lasts exactly one day |
| Tasks.AdmitIgnoresPadding | gantt.py:177-185 | whitespace around the name and the date texts never changes the outcome of an add |
| Tasks.PaletteIsOneToOne | gantt.py:201-211 | the palette has eight names and maps them to eight different colours |
| Lists.IndexOf | gantt.py:297 | the position found is the first occurrence of the task, or the end of the list when it is absent |
| Lists.RemoveFirst | gantt.py:295-297 | `list.remove` fails exactly when no equal element exists; otherwise one fewer element, the multiset loses exactly one copy, and the elements before and after the first occurrence keep their order |
| Lists.RemoveAppended | gantt.py:295-297 | removing a just-appended task that had no equal in the list restores the list |
| Lists.RemoveMiddle | gantt.py:295-297 | from [A, B, C], removing B leaves [A, C], even when A equals B |
| Lists.RemoveFirstSameElements | gantt.py:289-297 | removing by value leaves the same elements as removing the clicked occurrence |
| Lists.RemoveFirstNotPositional | gantt.py:289-297 | in [a, b, a], clicking the second a's row leaves [b, a], which differs from deleting that clicked row ([a, b]) |
| Axis.Min | gantt.py:342 | the minimum is an element of the dates and no date is smaller |
| Axis.Max | gantt.py:343 | the maximum is an element of the dates and no date is larger |
| Axis.SpanOf | gantt.py:341-343 | the span covers every task's start and end, and each bound is some task's start or end |
| Axis.BuildSpanOfStoredTasks | gantt.py:341-343 | for stored tasks (end ≥ start each), the chart's span is the earliest start to the latest end |
| Axis.SpanCoversDurations | gantt.py:341-346 | the inclusive day count of the span is at least every task's duration, and at least 1 |
| Axis.SpanGrows | gantt.py:341-343 | appending a task moves each span bound exactly to the extreme of the old bound and the task's two dates |
| Axis.Classify | gantt.py:353-378 | Daily iff total_days ≤ 8, WeeklyInMonth iff 8 < total_days ≤ 32, AutoMultiscale iff total_days > 32 |
| Axis.ClassifyBoundaries | gantt.py:353-364 | 8 days is Daily, 9 and 32 days are WeeklyInMonth, and 33 days is AutoMultiscale |
| Axis.ClassifyMonotone | gantt.py:353-378 | a longer span never gets a finer policy |
| Axis.PlanFor | gantt.py:353-378 | only Daily captions the two span ends with month and year, only WeeklyInMonth has minor ticks, only AutoMultiscale labels with full dates and rotates labels by 45° |
| Axis.Build | gantt.py:314-378 | a chart keeps the tasks in insertion order, its span is the min/max over all task dates (so it covers every task and each bound is some task's date), and its tick plan is the one that span's policy installs (locators, label formats, end captions only when Daily, 45° rotation only when AutoMultiscale) |
| Axis.AddNeverFiner | gantt.py:341-378 | adding a task never makes the next chart's policy finer |
| Probe.OnClick | gantt.py:403-426 | a click outside the axes changes nothing; a click inside replaces any marker with one at x captioned for x and starts a drag |
| Probe.OnMotion | gantt.py:428-442 | motion changes nothing unless a drag is on and the pointer is inside the axes; then line and caption both move to x |
| Probe.OnRelease | gantt.py:444-445 | release always ends the drag and leaves the marker where it is |
| Probe.RunCoherent | gantt.py:403-445 | over any event sequence, the caption always names the date under the line and a drag always has a marker |
| Probe.MovesAfterReleaseChangeNothing | gantt.py:428-445 | after the button is released, pointer motion never changes the state |
| Probe.DragEndsAtLastMove | gantt.py:428-442 | during a drag, the marker ends at the last pointer position inside the axes, captioned for it, whatever moves outside the axes follow |
| Probe.MovesOutsideChangeNothing | gantt.py:428-430 | motion outside the axes never moves the marker, even during a drag |
| Gantt.AddTask | gantt.py:175-227 | a failed add leaves the whole state unchanged and reports the validator's error; a successful one appends exactly the admitted task after the unchanged earlier tasks |
| Gantt.RemoveTask | gantt.py:295-297 | removal fails without change exactly when no equal task is stored; otherwise the first equal task is gone, the tasks before and after it keep their order, and chart and marker are untouched |
| Gantt.ClearAll | gantt.py:466-477 | no tasks and no chart afterwards; marker and drag are reset when a chart existed and untouched otherwise |
| Gantt.Generate | gantt.py:299-378 | with no tasks it is refused with the whole state untouched; otherwise the chart is built from the tasks in order, its span is the min/max of all their dates, its tick plan is the one that span's policy installs, and the tasks, marker and drag flag are kept |
| Gantt.Pointer | gantt.py:396-398 | pointer events reach the marker handlers only while a chart exists, and never touch tasks or chart |
| Gantt.ApplyKeepsInvariant | gantt.py:175-477 | every user action keeps tasks well formed, the chart consistent with its rows, the marker coherent, and the marker idle when there is no chart |
| Gantt.ReplayKeepsInvariant | gantt.py:175-477 | every state reachable by a sequence of user actions satisfies that invariant |
| Gantt.ClearResetsEverything | gantt.py:466-477 | in every reachable state, "clear all" leaves no tasks, no chart, no marker and no drag |
| Gantt.AddThenRemove | gantt.py:295-297 | deleting a task right after adding it, when no equal task was stored, restores the earlier list |

## Left out

- Widgets and dialogs: window, frames, entries, combo box, buttons, the task rows built by
  `display_task`, and `show_error`/`show_info`. They are GUI construction only. The model
  reports failures as values in place of dialogs.
- The side effects of a successful add after the append: showing the row, clearing the name
  field, and resetting the date fields from the clock through `set_default_dates`.
- Font loading and global plotting settings (lines 15-22). Right-to-left shaping in
  `persian_text` calls external bidi and reshaping libraries; it is folded into the `caption`
  parameter.
- The Jalali calendar itself: parsing, Jalali↔Gregorian conversion, month-length rules and
  `strftime` formatting all live in the external `jdatetime` library. Parsing is the `parse`
  parameter, and no month-length rule is claimed.
- Drawing: bars, duration texts, locator tick placement, `date2num`/`num2date`, and the figure
  height `fig_height`, which is a float. `Axis.PlanFor` records which locator and label format
  each policy installs, not where the ticks fall. Bars are drawn end − start days wide, one day
  less than the duration shown on them; this is not modelled.
- Bar rows: bars go on a categorical y-axis keyed by the shaped task name, so tasks with the same
  name share one row, while each duration label is placed at y = the task's index. `Axis.Chart`
  keeps the task list a chart was generated from, not the rows as drawn.
- `export_chart` is left out because it is a file dialog and `savefig`.
- Probe.OnClick: the event coordinate is a float in the program and an integer day here.
- Gantt.Pointer: what happens to the old figure's line objects after a regeneration is not
  modelled. Only the state variables are modelled.
