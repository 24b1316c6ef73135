# NamePickerApp: a verified model of the picker's state machine

`chouyipaoming.py` is a frameless, always-on-top desktop widget for calling on
a random person. It loads names from column A of a spreadsheet. A button
shows a random name that differs from the previous one. The window can be
dragged within the screen. After 15 seconds without activity it slides up
to y = -85, where only a sliver stays visible, and its label becomes "？？？".

This project models the logic inside the widget's event handlers, without Qt:

- `wrappers.dfy` — `Option` and `Result`.
- `name_source.dfy` (module `NameSource`) — the cell filter of `read_excel`.
  A column is a sequence of `Cell`s: `Empty` (Python `None`), `Text(s)` or
  `NonText` (a number, date or boolean).
- `picker.dfy` (module `Picker`) — the class `NamePickerApp`. Its fields are
  `names`, `lastName`, `lastActivityTime`, `moving`, the window position
  `x`/`y`, the drag offset and the label text. Its methods are the event
  handlers. Pure functions specify the handlers: `Pick`, `Clamp`, `NextY`,
  `YAfter` and `SlideSteps`.

Modelling choices:

- Clock readings are integer milliseconds, passed to each handler as `now`.
  "Idle" means `now - lastActivityTime > 15000`.
- `random.choice` is replaced by `draws`, the sequence of indices it would
  return in turn. `Pick` gives the loop's outcome for those draws:
  - `Picked(name)` when some draw differs from the last name;
  - `EmptyList` when the list is empty (`random.choice` raises `IndexError`);
  - `StillDrawing` when every draw repeated the last name, so the loop is
    still running.
- The `QTimer.singleShot` chain of `animate_move_to_edge` becomes the loop
  `SlideToEdge`. `AnimateMoveToEdge` is one call; it returns whether it
  scheduled another.
- The window size is fixed at 150 × 100. The screen size is passed to the
  constructor.

Behaviour of the code the model keeps:

- The filter keeps each cell's value as written, surrounding spaces
  included: `strip` is only used to test for blanks.
- A column with no usable name loads without error (`names == []`). The
  first click then fails in `random.choice` (`Pick` gives `EmptyList`).
- With a one-name list the first click shows that name and every later
  click loops forever (`PickHangsWithoutAlternative`).
  The same happens whenever every entry equals the name last shown.
- A slide that starts at or above y = -85 still takes one step. So the step
  count is 1 there, and ceil((y + 85) / 30) below the edge
  (`SlideStepsClosedForm`).
- `lastActivityTime` starts at 0. So the first idle check after startup
  already finds the window idle and starts the slide.

## Model

| member | source | states |
|---|---|---|
| `NameSource.KeepNames` | chouyipaoming.py:82 | the kept names are no more than the cells, and none of them is empty or whitespace only |
| `NameSource.KeepNamesExact` | chouyipaoming.py:82 | the names are exactly the values of the string cells that are not whitespace only, at strictly increasing positions, in column order: a cell's position is selected if and only if the filter keeps it |
| `NameSource.ReadNames` | chouyipaoming.py:78-86 | loading fails exactly when some cell is neither empty nor a string (its `strip` raises and `read_excel` re-raises as `IOError`); otherwise the names are the filter's output (`KeepNames`), none of them blank |
| `Picker.Pick` | chouyipaoming.py:114-118 | a picked name is in the list and differs from the last name; the outcome is the empty-list error exactly when the list is empty |
| `Picker.PickEndsIff` | chouyipaoming.py:115-118 | the loop ends with a name if and only if some draw hits an entry different from the last name |
| `Picker.PickFirstFresh` | chouyipaoming.py:115-118 | the name picked is the one of the first draw that differs from the last name |
| `Picker.PickHangsWithoutAlternative` | chouyipaoming.py:115-118 | when every entry equals the last name, no sequence of draws ends the loop (a corollary of `Pick`'s contract) |
| `Picker.Clamp` | chouyipaoming.py:101-109 | when the range is non-empty the result lies in it, is the point of the range nearest to the proposal, and equals the proposal exactly when the proposal is in range; when the range is empty the lower bound wins below it and the upper bound otherwise |
| `Picker.NextY` | chouyipaoming.py:153-159 | one slide step never goes below -85, lands on -85 exactly when y - 30 <= -85, otherwise moves by exactly -30, and from y >= -85 moves up by at most 30 |
| `Picker.SlideStopsExactlyAtEdge` | chouyipaoming.py:158-169 | after `SlideSteps(y)` steps the window is at -85, and no earlier step lands there (so none stops the chain) |
| `Picker.SlideStepsClosedForm` | chouyipaoming.py:154-166 | the number of steps is 1 from y <= -85 and ceil((y + 85) / 30) otherwise |
| `Picker.NamePickerApp.constructor` | chouyipaoming.py:14-42 | the names are the loaded list, none of them blank; nothing picked, activity time 0, not moving, the empty label of line 42, the window centred horizontally and 75 pixels above the vertical centre (floor division) |
| `Picker.NamePickerApp.MousePress` | chouyipaoming.py:88-92 | a left press stores the press offset within the window and sets the activity time to now; other buttons change nothing; the last name and the moving flag are untouched |
| `Picker.NamePickerApp.MouseMove` | chouyipaoming.py:94-112 | with the left button held, x and y are the clamped pointer position and the activity time is now; on a screen at least as large as the window, 0 <= x <= screen width - 150 and -85 <= y <= screen height - 100; without the left button nothing changes; the last name and the moving flag are untouched |
| `Picker.NamePickerApp.ShowRandomName` | chouyipaoming.py:114-122 | the outcome is `Pick` of the list, the previous last name and the draws; on a pick the label and last name become the new name (in the list, different from the previous one) and the activity time is now; otherwise nothing changes |
| `Picker.NamePickerApp.ClearResult` | chouyipaoming.py:145-147 | the label becomes "？？？" and the activity time is now |
| `Picker.NamePickerApp.AnimateMoveToEdge` | chouyipaoming.py:149-169 | not moving: nothing changes; moving: y becomes `NextY(y)`, another step is scheduled exactly when y is not -85, and the landing step stops the slide, clears the label and resets the activity time |
| `Picker.NamePickerApp.SlideToEdge` | chouyipaoming.py:158-169 | from a moving state the chain runs exactly `SlideSteps(y)` steps and ends at y = -85, not moving, label "？？？", activity time now; from a still state it does nothing |
| `Picker.NamePickerApp.CheckIdle` | chouyipaoming.py:171-175 | when more than 15000 ms have passed since the last activity the slide starts with its first step; otherwise nothing changes, the moving flag included |

## Left out

- Qt window construction, layout, style sheets, fonts and the `GlobalBlur` effect: user-interface chrome with no logic.
- `animate_button` and `reset_button_color`: a colour animation, only calls into Qt.
- `refresh_topmost` and its one-second timer: window-manager plumbing.
- Opening and closing the workbook, and its file errors: the column arrives as a sequence of cells.
- `event.accept()` and the Qt event objects: the handlers take the button, the held buttons and the pointer position.
- The `__main__` block and the `KeyboardInterrupt` message: process start-up and I/O.
- Picker.Pick: does not state that `random.choice` draws uniformly; fairness is a property of the distribution, which the draw sequence does not model.
- Picker.NamePickerApp.CheckIdle: models time as whole milliseconds, not `time.time()` floats, so elapsed times within one millisecond of 15 s are rounded.
- Picker.NamePickerApp.SlideToEdge: uses one clock reading for the step that clears the label, and does not model the 10 ms gaps between steps.
- Picker.NamePickerApp.CheckIdle: does not model the 100 ms idle timer firing while a slide is under way. In the program each such tick takes one step and starts another chain of steps 10 ms apart, so the slide speeds up. The sequence of y values, the number of steps that move the window and the end state stay those of `SlideToEdge`: every step applies `NextY` to the one shared y, and the chains left over return at once when `moving` is false.
