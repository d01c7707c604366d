# Plant-care scheduling core, modelled in Dafny

This project models the scheduling core of a client-side plant-care tracker. The tracker keeps a
registry of plants. Each plant has a watering cadence and a fertilization cadence, in days, and the
instant each kind of care was last done. From these it derives calendar tasks.

The model covers:

- **Task generator** (`Generator`). It takes the plants, the completion ledger and "now". The
  application recomputes the list only when the plants or the ledger change, so "now" is the time of
  the last such change, not the current clock. Lemmas that generate twice with one "now" match the
  application when both computations fall on the same day. For each
  plant, watering first and then fertilization, the last-done instant is cut to its midnight (the
  anchor). Cycles `anchor + i * cadence` for `-10 <= i < 25` become tasks when they fall strictly
  between `today - 30` and `today + 60`. A task is completed when its key is in the ledger or when
  it is due on a day before today.
- **Completion toggle** (`Toggle`). Completing a pending task adds its key to the ledger. It also
  moves the owning plant's last-done date to the due date, but only forward by day. Un-completing
  only removes the key from the ledger.
- **Completion ledger** (`Ledger`). This is the JavaScript `Set` of completed task keys. It is kept
  as a duplicate-free sequence in insertion order.
- **Export, import and reset** of the persisted record (`Backup`).
- **Plant search** (`Search`).
- **New-plant form** (`AddPlant`). It back-dates the last-done dates so that the first forward
  cycle lands `startInDays` days from now.
- **Month grid and month navigation** (`MonthGrid`, `MonthNav`).

Time is modelled on one local timeline.

- An instant is an integer count of milliseconds.
- A day is `instant / 86_400_000`, rounded down.
- `startOfDay`, `addDays`, `isAfter`, `isBefore` and `isSameDay` are defined on that timeline (`Dates`).
- Plant dates stay instants, so the toggle's `isAfter || isSameDay` test is modelled as written.
  Task due dates are always midnights, so they are kept as day numbers.

A task's identity is the structured `TaskKey(kind, plantId, day)`. It stands in for the string
`kind-plantId-yyyy-MM-dd`. `TaskKeys.KeyStringInjective` shows that this string determines kind,
plant id and date label whenever the label has its fixed ten characters, even when plant ids
contain `-`. So the structured key is an exact stand-in.

Two behaviours of the code are modelled exactly as written:

- The cycle range is the fixed `-10 <= i < 25`; it is not scaled to the window.
  `Generator.DailyCadenceStopsShortOfWindow` shows the consequence: a daily plant anchored today
  has no watering task 25 or more days ahead, although the window reaches 59 days ahead.
- An import whose parsed record lacks `plants` or `completedTaskIds` is silently ignored
  (`Ignored`), with no error reported. Text that does not parse, or parses to `null`, reports an
  error (`Unreadable`) and changes nothing. A record whose `completedTaskIds` is truthy but not
  iterable also reports the error, but only after its `plants` have replaced the registry; the
  ledger, profile and notes are kept.

All functions are pure. Generating twice from the same inputs therefore gives the same list by
construction, and no lemma is needed for that.

## Model

| member | source | states |
|---|---|---|
| `Dates.StartOfDay` | App.tsx:100-106 | the normalised instant is a midnight on the same day, at most one day before the input |
| `Dates.AddDays` | App.tsx:101-108 | moves the day number by exactly `n` and keeps the time of day |
| `Dates.MidnightOrder` | App.tsx:109 | between midnights, `isAfter`/`isBefore` coincide with day-number order |
| `Dates.AfterOrSameDay` | App.tsx:138 | "after the recorded instant or on its day" holds exactly when the due day is not earlier than the recorded day |
| `Seqs.Filter` | App.tsx:207-210 | the result is an order-preserving sub-list holding exactly the kept elements, each as many times as the input has it |
| `Seqs.CountIsMultiplicity` | App.tsx:207-210 | the occurrence count used by the filter contracts is the multiplicity of the list's multiset |
| `TaskKeys.KeyString` | App.tsx:110 | the string key ends with the date label and its length is the sum of its parts plus two separators |
| `TaskKeys.KeyStringInjective` | App.tsx:110 | with ten-character date labels, equal string keys have equal kind, plant id and date label |
| `Ledger.Add` | App.tsx:132 | the ledger gains exactly the key, keeps its earlier order and stays duplicate-free |
| `Ledger.Delete` | App.tsx:145-149 | the ledger loses exactly the key, keeps the order of the rest, and is unchanged when the key was absent |
| `Ledger.DeleteUndoesAdd` | App.tsx:132-147 | deleting a freshly added key gives back the original ledger |
| `Ledger.FromArray` | App.tsx:184 | `new Set(array)` yields a duplicate-free ledger with exactly the array's keys |
| `Ledger.FromArrayRoundTrip` | App.tsx:163-184 | writing the ledger out with `Array.from` and reading it back with `new Set` gives the same ledger, in order |
| `Generator.TypeTasks` | App.tsx:105-121 | one kind of one plant yields at most one task per remaining cycle, all of that kind and plant |
| `Generator.StepAgrees` | App.tsx:106-117 | one loop step's instant arithmetic, window test and completed flag agree with the day-number schedule |
| `Generator.TypeTasksSound` | App.tsx:107-118 | every task of a kind is the task of some cycle `i` in [-10, 25) whose due day lies strictly inside the window |
| `Generator.TypeTasksComplete` | App.tsx:107-118 | every cycle in range whose due day lies inside the window produces its task |
| `Generator.TypeTasksAscending` | App.tsx:107-108 | with a cadence of at least one day, due days strictly increase in output order, so they are distinct |
| `Generator.PlantTasks` | App.tsx:122-123 | one plant yields at most 70 tasks, all carrying its id and name |
| `Generator.GenerateTasks` | App.tsx:98-126 | an empty registry yields no tasks, and every task carries the id and name of some plant of the registry |
| `Generator.PlantTasksOrder` | App.tsx:122-123 | a plant yields at most 70 tasks, and all its watering tasks come before its fertilization tasks |
| `Generator.GenerateAppend` | App.tsx:104-125 | the list for a concatenated registry is the concatenation of the lists, so plants keep registry order |
| `Generator.GenerateSound` | App.tsx:98-126 | every generated task is a scheduled in-window occurrence of some plant of the registry; an empty registry therefore yields none |
| `Generator.GenerateComplete` | App.tsx:98-126 | every in-window occurrence of every plant, in the cycle range, is in the generated list |
| `Generator.GeneratedTaskShape` | App.tsx:100-117 | each task is due strictly between today-30 and today+60, has id (kind, plant id, due day), and is completed iff its id is in the ledger or it is due before today |
| `Generator.DueTodayIsPending` | App.tsx:117 | a task due today whose key is absent from the ledger is pending |
| `Generator.DailyCadenceStopsShortOfWindow` | App.tsx:102-108 | with a daily cadence anchored today, no watering task is due 25 or more days ahead, although day today+59 is in the window |
| `Toggle.FindTask` | App.tsx:129-130 | returns the first task carrying the key, or nothing exactly when no task carries it |
| `Toggle.Advance` | App.tsx:134-143 | the instant test "after the recorded instant or on its day" moves the plant's last-done date for the task's kind to the due date exactly when the plant has the task's plant id and the due day is not before the recorded day; otherwise the plant is unchanged |
| `Toggle.ToggleTask` | App.tsx:128-151 | unknown key: nothing changes; pending task: key added, and each plant with the task's plant id advances that kind's date iff the due day is not before its recorded day; completed task: key removed, plants unchanged |
| `Toggle.ToggleNow` | App.tsx:128-151 | over the generated list, the registry keeps its length, the ledger stays duplicate-free, and toggling a key already in the ledger never changes the plants |
| `Toggle.ToggleKeepsAnchorsMonotone` | App.tsx:133-143 | no toggle moves a last-done date to an earlier day or changes a plant's id, name or cadences |
| `Toggle.TogglePastDueIsNoOp` | App.tsx:117-149 | toggling an overdue task whose key is not in the ledger changes nothing: it stays completed |
| `Toggle.CompletedTaskRegenerates` | App.tsx:104-143 | after completing a pending task, regeneration still produces its key, and every task with that key is completed |
| `Toggle.ToggleTwiceRestoresLedger` | App.tsx:128-151 | completing then un-completing restores the ledger exactly, while the advanced plant dates stay |
| `Backup.Export` | App.tsx:160-167 | records the export time; importing it into any state is never ignored |
| `Backup.Import` | App.tsx:177-194 | unparseable or `null` text reports an error and a missing `plants`/`completedTaskIds` is ignored, both leaving the state unchanged; a non-iterable `completedTaskIds` reports an error after the plants were replaced, keeping everything else; otherwise the plants are replaced, the ledger holds exactly the imported keys without duplicates, the profile is replaced only when present and the notes only when non-empty |
| `Backup.ExportImportRoundTrip` | App.tsx:160-186 | importing an export restores plants, ledger and profile; the notes come back unless they were empty, in which case the importing side keeps its own |
| `Backup.ImportEmptyClears` | App.tsx:182-184 | importing empty `plants` and `completedTaskIds` arrays clears registry and ledger and keeps profile and notes |
| `Backup.InitialPlants` | App.tsx:22-34 | the default registry is one plant, id "1", watered every 4 days and fertilized every 30, both last done at load time |
| `Backup.Reset` | App.tsx:196-205 | a confirmed reset restores exactly the default plant list and empties the ledger, and does not itself change the profile or the notes in memory; an unconfirmed one changes nothing |
| `Backup.ResetSchedule` | App.tsx:22-34 | after a reset every task belongs to the default plant and is completed iff overdue; when the page was loaded today, a pending watering and a pending fertilization task are due today |
| `Search.Includes` | App.tsx:208-209 | `includes` holds exactly when the needle occurs at some position of the haystack |
| `Search.FilterPlants` | App.tsx:207-210 | the listed plants are an order-preserving sub-list holding exactly the plants whose lower-cased name or species contains the lower-cased query, each as many times as the registry has it |
| `Search.EmptyQueryKeepsAll` | App.tsx:207-210 | an empty query lists every plant, in order |
| `AddPlant.Submit` | components/AddPlantModal.tsx:86-100 | last watered/fertilized are one cadence before `now + startInDays` days, at now's time of day; an empty image becomes the default URL and a non-empty one is kept; the other fields pass through |
| `AddPlant.AddToRegistry` | App.tsx:338 | the new plant, carrying the supplied fresh id and every submitted field, is appended after the unchanged registry |
| `AddPlant.InitialFormMeetsBounds` | components/AddPlantModal.tsx:12-20 | the form opens with cadences 3 and 30 and start 0, which meet the inputs' declared minimums |
| `AddPlant.FirstCycleLandsOnStart` | components/AddPlantModal.tsx:88-89 | cycle 1 of either kind of the new plant is due exactly `startInDays` days after the submission day |
| `AddPlant.NewPlantScheduledOnStart` | components/AddPlantModal.tsx:86-100 | when the start day is inside the window, the added plant gets a task of each kind on it, pending unless already in the ledger or in the past |
| `MonthGrid.WeekStart` | components/Calendar.tsx:67 | the Sunday on or before the day, less than a week before it |
| `MonthGrid.WeekEnd` | components/Calendar.tsx:68 | the Saturday on or after the day, less than a week after it |
| `MonthGrid.TasksOnDay` | components/Calendar.tsx:77 | exactly the tasks due on that day, in list order, each as many times as the list has it (the same filter feeds the day drawer at App.tsx:334) |
| `MonthGrid.Dots` | components/Calendar.tsx:97 | a prefix of the day's tasks: all of them when there are four or fewer, exactly four otherwise |
| `MonthGrid.MakeCell` | components/Calendar.tsx:76-105 | the cell carries its own day and is marked as in the month exactly when that day is in the month |
| `MonthGrid.CellContents` | components/Calendar.tsx:77-105 | a cell holds exactly its day's tasks with their multiplicities, at most four dots, and an overflow marker iff it has more than four tasks |
| `MonthGrid.WholeWeeks` | components/Calendar.tsx:65-68 | the grid's span from first Sunday to last Saturday is a whole number of weeks |
| `MonthGrid.RenderCells` | components/Calendar.tsx:64-115 | rows of seven cells; cell (r, c) is day `start + 7r + c`; the rows end on the Saturday of the month's last week |
| `MonthGrid.RenderWeek` | components/Calendar.tsx:74-108 | one row: exactly seven cells, cell c being the day `day + c` |
| `MonthGrid.Rows` | components/Calendar.tsx:70-112 | the first `n` rows of a grid, each of seven cells, cell (r, c) being day `start + 7r + c` |
| `MonthGrid.GridBounds` | components/Calendar.tsx:65-74 | the grid starts on a Sunday within a week before the 1st and ends on a Saturday within a week after the last day; a 28-31 day month needs 4 to 6 rows |
| `MonthGrid.GridDaysConsecutive` | components/Calendar.tsx:74-111 | successive cells, across row breaks too, are successive days |
| `MonthGrid.MonthDaysAppearOnce` | components/Calendar.tsx:74-109 | every day of the month has exactly one cell, and that cell is marked as in the month |
| `MonthNav.AddMonths` | components/Calendar.tsx:33-42 | the month index moves by exactly `n` and the day of the month is kept, clamped to the target month's length |
| `MonthNav.NextMonth` | components/Calendar.tsx:42 | the next button shows the following month |
| `MonthNav.PrevMonth` | components/Calendar.tsx:33 | the previous button shows the preceding month |
| `MonthNav.PrevThenNext` | components/Calendar.tsx:33-42 | previous then next returns to the same month, with the same date when the day is the 28th or earlier |

## Left out

- Persistence in `localStorage`, JSON parsing and stringifying (App.tsx:45-96). These are I/O.
  Import takes an already-parsed record, and text that does not parse, or parses to `null`, is `None`.
- Blob, object URL, download link and `FileReader` handling in export and import. These are browser I/O.
- Camera, `getUserMedia`, canvas capture and image-file reading in the new-plant form. These are device I/O.
- Theme and palette styling, profile settings and all rendering. These are presentation.
- `Backup.Reset`: the page reload after a confirmed reset is not modelled. The reload reads the
  profile back from storage, which only the profile settings write. A profile brought in by an
  import and never saved there is therefore lost after a reset, although the model keeps it.
- `alert`, `confirm` and `window.location.reload`. Reset takes the user's confirmation as a parameter.
  The load time used for the default plant's dates is also a parameter.
- `Date.now()` as the new plant's id. The fresh id is a parameter.
- Time zones, daylight-saving shifts, ISO string formatting and parsing. Instants are milliseconds
  on one local timeline.
- Import: a present `plants` field is assumed to be an array, and a present `completedTaskIds`
  either an array of keys or a truthy value that cannot be iterated (then the registry is replaced
  and the error reported). Other values are not modelled. That covers a string given for `plants`
  or for `completedTaskIds` (whose characters would become keys), a falsy `0`/`false`/`""` given
  for an array, which the model treats like an absent field, and a `null` profile.
- Generator: a last-done date that does not parse (an invalid `Date`) is not modelled. Such a date
  makes every comparison false in the application.
- `AddPlant.Submit`: a cadence or start that `parseInt` turns into `NaN` is not modelled; the
  fields are integers. The browser refuses to submit a value below an input's declared `min`
  (`DeclaredBounds`), so only a field left empty gets past it; the model accepts any integer.
- `Search.FilterPlants`: Unicode lower-casing is a function parameter, not a concrete case mapping.
- `MonthGrid.RenderCells`: the first day, length and weekday offset of the displayed month are inputs.
  The Gregorian conversion from a date to a day number is not modelled.
