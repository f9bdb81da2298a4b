# Simulatricula schedule core in Dafny

Simulatricula is a weekly class planner. A class record carries a time code such as
`35T12 4N34`. The code is a space-separated list of blocks. Each block has:

- day digits (`0` Sunday, `2` Monday … `7` Saturday; there is no `1`);
- one period letter (`M` morning, `T` afternoon, `N` night);
- slot digits (1–6, or 1–4 at night).

The app checks a code, expands it into per-weekday time slots, and shows the records on a
grid with 16 rows (6 morning, 6 afternoon and 4 night time ranges) and 7 weekday columns.
The user adds, edits, deletes and clears records.

This project models that core and proves what it does:

- `Text`: the JavaScript string operations the code relies on. These are `trim`,
  `split(' ')`, `join(' ')`, `toLowerCase` and `toUpperCase`.
- `ScheduleParser` (`src/utils/scheduleParser.ts`):
  - the day map, the block pattern and the validator;
  - the parser;
  - the time-range table and the name normaliser.

  `validateTimeCode` and `parseTimeCode` are methods with the loops of the source. Each
  is proved equal to a specification function (`ValidTimeCode` and `ParseSpec`), and the
  lemmas are stated about those functions.
- `ScheduleExamples`: the documented codes and names, worked through those functions.
- `ScheduleGrid` (`src/components/ScheduleGrid.tsx`):
  - the cell lookup (`indexOf`, then `filter`/`some`/`includes`, then the first match);
  - the 16 × 7 table.
- `ScheduleList` (`src/App.tsx`): the record handlers, as functions from the old list to the
  new one. Add appends, update replaces by id, delete filters by id, and clear empties the
  list.
- `Sequences`, `Wrappers`, `ScheduleTypes`: shared vocabulary and the records of `src/types.ts`.

`parseTimeBlock` throws on a block that does not match `^([0234567]+)([MTN])([1-6]+)$`.
Here that throw is the `None` of an `Option`:

- `ValidateTimeCode` catches it as `false`;
- `ParseTimeCode` passes it on as `None` for the whole code.

The parser does not re-check slot bounds or order, so `4N5` parses to row 16, one past the
grid. `Example4N5Parse` shows this. `ParseValid` proves that a code which passes validation
parses without error into slots that all lie inside the grid.

## Model

| member | source | states |
|---|---|---|
| ScheduleParser.DayDigitInMap | src/utils/scheduleParser.ts:3-11 | a character is a key of the day map exactly when it is in the pattern's day class `[0234567]`, and its weekday is in 0..6; so the separate day check can never fail once the pattern matched |
| ScheduleParser.DaysMap | src/utils/scheduleParser.ts:3-11 | the day map as a constant; its properties are stated by `DayDigitInMap` and `DaysMapBijective` |
| ScheduleParser.DaysMapBijective | src/utils/scheduleParser.ts:3-11 | distinct day digits name distinct weekdays, the weekdays named are exactly 0..6, and `'1'` is not a day |
| ScheduleParser.DayPrefixLength | src/utils/scheduleParser.ts:39 | the greedy day group `[0234567]+` takes the longest run of day digits at the start of the block |
| ScheduleParser.Tokens | src/utils/scheduleParser.ts:51 | trimming and splitting on single spaces gives at least one token |
| ScheduleParser.ParseTimeBlock | src/utils/scheduleParser.ts:38-48 | a successful parse is a lexical block (day digits, period, slots 1..6) whose text is exactly the input |
| ScheduleParser.ParseEncodeBlock | src/utils/scheduleParser.ts:38-48 | parsing the text of any lexical block gives that block back (round trip) |
| ScheduleParser.ParseTimeBlockMatches | src/utils/scheduleParser.ts:39-40 | parseTimeBlock succeeds exactly on the strings the block pattern matches, stated position by position |
| ScheduleParser.CheckBlock | src/utils/scheduleParser.ts:57-73 | the three loops answer true exactly when every day is a key of the map, every slot lies in 1..maxSlot (4 for N, 6 otherwise) and each slot exceeds the one before it |
| ScheduleParser.BlockValid | src/utils/scheduleParser.ts:55-73 | specification of one block's check (parse, then day keys, slot bounds, neighbour order); no contract of its own, characterised by `BlockValidIff` |
| ScheduleParser.ValidateBlock | src/utils/scheduleParser.ts:55-73 | one block passes when it matches the pattern and passes the three checks |
| ScheduleParser.ValidateBlocks | src/utils/scheduleParser.ts:53-78 | the loop over blocks answers true exactly when every block passes (all or nothing; the first failure answers false) |
| ScheduleParser.ValidTimeCode | src/utils/scheduleParser.ts:50-79 | specification of validateTimeCode (every token passes `BlockValid`); no contract of its own, characterised by `ValidTimeCodeIff` |
| ScheduleParser.ValidateTimeCode | src/utils/scheduleParser.ts:50-79 | validateTimeCode equals `ValidTimeCode`: every token of the trimmed code, split on single spaces, passes |
| ScheduleParser.AdjacentAscendingIff | src/utils/scheduleParser.ts:69-73 | the neighbour check of the loop is equivalent to the slots being strictly increasing over all pairs |
| ScheduleParser.BlockValidIff | src/utils/scheduleParser.ts:55-73 | a block passes exactly when it parses to a well-formed block (lexical, within its period's slot count, strictly increasing) |
| ScheduleParser.ValidTimeCodeIff | src/utils/scheduleParser.ts:50-79 | a code is valid exactly when every token is the text of some well-formed block |
| ScheduleParser.GlobalIndexBijection | src/utils/scheduleParser.ts:89 | `base + (slot - 1)` with base M=0, T=6, N=12 maps (period, slot within bounds) one to one onto the rows 0..15 |
| ScheduleParser.ExpandBlock | src/utils/scheduleParser.ts:91-97 | one time slot per day digit of the block |
| ScheduleParser.ParseBlocks | src/utils/scheduleParser.ts:85-86 | all blocks parse exactly when each does, and then the i-th result is the parse of the i-th token |
| ScheduleParser.PushBlockSlots | src/utils/scheduleParser.ts:89-97 | the inner loop appends exactly the block's time slots, in day-digit order, to what was there |
| ScheduleParser.GlobalSlots | src/utils/scheduleParser.ts:95 | `slots.map(s => baseIndex + (s - 1))` keeps one entry per slot; the values are stated by `ExpandAllLayout` and `GlobalIndexBijection` |
| ScheduleParser.ExpandAll | src/utils/scheduleParser.ts:85-98 | specification of the slots pushed for a list of blocks; no contract of its own, stated by `ExpandAllLayout`, `ExpandAllGood` and `ExpandAllCells` |
| ScheduleParser.ParseCodes | src/utils/scheduleParser.ts:85-100 | the loop over blocks yields None if some block throws, otherwise the concatenation of every block's time slots in block order |
| ScheduleParser.ParseSpec | src/utils/scheduleParser.ts:81-101 | specification of parseTimeCode (None when a token throws, else the expansion of all blocks); no contract of its own, stated by `ParseValid`, `ParseMalformed` and `ExpandAllLayout` |
| ScheduleParser.ParseTimeCode | src/utils/scheduleParser.ts:81-101 | parseTimeCode equals `ParseSpec` of the trimmed, split code |
| ScheduleParser.ParseBlocksFails | src/utils/scheduleParser.ts:85-86 | a single block that throws makes the whole parse throw |
| ScheduleParser.ParseBlocksStep | src/utils/scheduleParser.ts:85-98 | parsing one more block extends both the parsed blocks and the emitted time slots by that block |
| ScheduleParser.ExpandAllLayout | src/utils/scheduleParser.ts:85-100 | the output has one entry per day digit over all blocks; the entry for day j of block i sits after all earlier blocks' entries and holds that day's weekday, the period and the shifted slots |
| ScheduleParser.ExpandAllGood | src/utils/scheduleParser.ts:89-95 | well-formed blocks yield time slots with a weekday 0..6 and non-empty, strictly increasing rows inside their period and inside 0..15 |
| ScheduleParser.ParseValid | src/utils/scheduleParser.ts:81-101 | a code that passes validation parses without error, and every time slot it yields is good in that sense |
| ScheduleParser.ParseMalformed | src/utils/scheduleParser.ts:85-86 | any token that does not match the pattern makes parsing fail |
| ScheduleParser.PeriodRanges | src/utils/scheduleParser.ts:13-36 | each period has as many time ranges as it has slots (6, 6, 4) |
| ScheduleParser.GenerateTimeRanges | src/utils/scheduleParser.ts:103-109 | 16 rows, and the row at the global index of (period, slot) is that period's range for that slot |
| ScheduleParser.TimeRangesDistinct | src/utils/scheduleParser.ts:13-36 | no two rows of the table are equal |
| ScheduleParser.CapitalizeWord | src/utils/scheduleParser.ts:115 | the result is empty exactly when the word is, and otherwise everything after the first character is kept unchanged at the end of the result |
| ScheduleParser.CapitalizeWords | src/utils/scheduleParser.ts:111-117 | capitalizeWords; no contract of its own, stated by `CapitalizeWordsWords` and `CapitalizeJoinedWords` |
| ScheduleParser.CapitalizeWordsWords | src/utils/scheduleParser.ts:111-117 | the result has as many space-separated words as the input; each is the lower-cased word with its first character upper-cased, and a word is empty exactly when the input word was |
| ScheduleParser.CapitalizeJoinedWords | src/utils/scheduleParser.ts:111-117 | on words joined by single spaces the result is the per-word rewrite joined by single spaces |
| Text.Trim | src/utils/scheduleParser.ts:51 | the result is a slice `s[a..z]` of the input with only whitespace before `a` and after `z`, and it neither starts nor ends with whitespace; so exactly the leading and trailing whitespace is removed |
| Text.Join | src/utils/scheduleParser.ts:116 | no contract of its own; `JoinSplit` and `SplitJoin` prove it the inverse of `split` on separator-free pieces |
| Text.TrimIdentity | src/utils/scheduleParser.ts:51 | text without whitespace at either end is its own trim; all-whitespace text trims to "" |
| Text.Split | src/utils/scheduleParser.ts:51 | split(' ') gives at least one piece and no piece contains the separator |
| Text.JoinSplit | src/utils/scheduleParser.ts:114-116 | joining the pieces of a split restores the string |
| Text.SplitJoin | src/utils/scheduleParser.ts:114-116 | splitting a join of separator-free pieces gives the pieces back |
| Text.SplitAtSep | src/utils/scheduleParser.ts:51 | a separator-free prefix followed by the separator is split off as the first piece |
| Text.ToLower | src/utils/scheduleParser.ts:113 | lower-casing keeps the length and maps each character on its own |
| Text.SplitLower | src/utils/scheduleParser.ts:113-114 | lower-casing then splitting equals splitting then lower-casing each piece |
| ScheduleExamples.Example35T12Valid | src/utils/scheduleParser.ts:50-79 | `35T12` is valid |
| ScheduleExamples.Example35T12Parse | src/utils/scheduleParser.ts:81-101 | `35T12` parses to Tuesday (weekday 2) and Thursday (weekday 4) afternoon, rows 6 and 7 |
| ScheduleExamples.Example4N34Valid | src/utils/scheduleParser.ts:50-79 | `4N34` is valid |
| ScheduleExamples.Example4N34Parse | src/utils/scheduleParser.ts:81-101 | `4N34` parses to Wednesday (weekday 3) night, rows 14 and 15 |
| ScheduleExamples.Example4N5Invalid | src/utils/scheduleParser.ts:63-66 | night has four slots, so `4N5` is invalid |
| ScheduleExamples.Example4N5Parse | src/utils/scheduleParser.ts:85-97 | the parser does not re-check bounds: `4N5` parses to row 16 |
| ScheduleExamples.ExampleDescending | src/utils/scheduleParser.ts:69-73 | `35T21` is invalid (slots descend) |
| ScheduleExamples.ExampleRepeated | src/utils/scheduleParser.ts:69-73 | `35T11` is invalid (slots repeat) |
| ScheduleExamples.ExampleDayOne | src/utils/scheduleParser.ts:39-40 | `1T1` is invalid: `1` is not a day digit |
| ScheduleExamples.ExampleEmpty | src/utils/scheduleParser.ts:51-55 | the empty code is one empty token and is invalid |
| ScheduleExamples.ExampleDoubleSpace | src/utils/scheduleParser.ts:51-55 | a double space leaves an empty token, which makes the whole code invalid |
| ScheduleExamples.SingleWellFormed | src/utils/scheduleParser.ts:50-79 | the text of one well-formed block is a valid code |
| ScheduleExamples.SingleIllFormed | src/utils/scheduleParser.ts:57-73 | the text of one lexical block that breaks a bound or the order is invalid |
| ScheduleExamples.SingleParse | src/utils/scheduleParser.ts:81-101 | the text of one lexical block parses to that block's time slots |
| ScheduleExamples.ExampleCapitalize | src/utils/scheduleParser.ts:111-117 | `JOÃO DA SILVA` becomes `João Da Silva` |
| Sequences.IndexOf | src/components/ScheduleGrid.tsx:15 | indexOf gives the first position holding the value, or -1 exactly when it is absent |
| Sequences.IndexOfDistinct | src/components/ScheduleGrid.tsx:15 | in a list without repeats every element is found at its own position |
| ScheduleGrid.Occupies | src/components/ScheduleGrid.tsx:17-20 | the `some`/`includes` test of the filter; no contract of its own, characterised by `OccupiesCells` |
| ScheduleGrid.MatchingSchedules | src/components/ScheduleGrid.tsx:16-21 | the filter keeps exactly the records with a time slot of that weekday containing the row, each as often as it occurs, in list order |
| ScheduleGrid.RenderTimeCell | src/components/ScheduleGrid.tsx:14-37 | with the row found by `indexOf`, the cell is empty exactly when no record covers it, and an occupied cell shows a record of the list that covers it; `GridCell` adds that it is the earliest such record |
| ScheduleGrid.Grid | src/components/ScheduleGrid.tsx:52-61 | one row per time range (16) and one column per weekday (7) |
| ScheduleGrid.FirstMatch | src/components/ScheduleGrid.tsx:30-34 | the first matching record is the earliest record in the list that covers the cell |
| ScheduleGrid.GridCell | src/components/ScheduleGrid.tsx:14-37 | the cell in row t, column d is "---" exactly when no record covers weekday d at row t; otherwise it shows (and opens) the earliest record that does |
| ScheduleGrid.OccupiesCells | src/components/ScheduleGrid.tsx:16-21 | a record covers a cell exactly when its own time slots name that (weekday, row) pair |
| ScheduleGrid.SingleRecordGrid | src/components/ScheduleGrid.tsx:14-37 | with one record, a cell shows it exactly when its time slots name the cell, and is empty otherwise |
| ScheduleGrid.ExpandAllCells | src/utils/scheduleParser.ts:85-100 | the time slots the parser emits name exactly the (weekday, row) pairs of the code's day digits and slot digits |
| ScheduleGrid.RecordCells | src/components/ScheduleGrid.tsx:16-21 | a record whose slots are the parse of its code covers exactly the cells its code names, and with a valid code they all lie inside the 16 × 7 grid |
| ScheduleList.AddSchedule | src/App.tsx:42-44 | the new record is appended at the end; the earlier records are unchanged and in order |
| ScheduleList.UpdateSchedule | src/App.tsx:46-52 | length and ids kept; every record with the updated id becomes the updated record, every other record is unchanged |
| ScheduleList.DeleteSchedule | src/App.tsx:54-56 | afterwards no record has the id, and the list does not grow |
| ScheduleList.ClearSchedules | src/App.tsx:122 | the list is empty |
| ScheduleList.UpdateAbsent | src/App.tsx:46-52 | an update with an id no record has leaves the list unchanged |
| ScheduleList.UpdateIdempotent | src/App.tsx:46-52 | updating twice with the same record is updating once |
| ScheduleList.UpdatePresent | src/App.tsx:46-52 | the updated record is in the result exactly when its id was present |
| ScheduleList.DeleteAbsent | src/App.tsx:54-56 | deleting an absent id leaves the list unchanged |
| ScheduleList.DeleteSubsequence | src/App.tsx:55 | the records kept are in their original relative order |
| ScheduleList.DeleteCounts | src/App.tsx:55 | every record with another id is kept as often as it occurred, none with the id |
| ScheduleList.DeleteMembers | src/App.tsx:55 | the records left are exactly the records whose id differs |
| ScheduleList.DeleteAppend | src/App.tsx:42-56 | deleting after an add is deleting before it, plus the added record if its id differs |
| ScheduleList.DeleteAfterAdd | src/App.tsx:42-56 | adding a record with a new id and deleting that id restores the list |
| ScheduleList.HandlersKeep | src/App.tsx:42-56 | any property of single records survives add, update, delete and clear, when the added or updated record has it |
| ScheduleList.HandlersKeepConsistent | src/App.tsx:42-56 | the handlers keep every record consistent (valid code, slots equal to its parse) |
| ScheduleList.HandlersKeepDistinct | src/App.tsx:42-56 | adding a record with a new id, updating, deleting and clearing keep ids pairwise distinct |
| ScheduleList.DeleteKeepsDistinct | src/App.tsx:54-56 | deleting keeps ids pairwise distinct |
| ScheduleList.ConsistentWithinGrid | src/components/ScheduleGrid.tsx:16-21 | with consistent records every cell a record covers lies inside the 16 × 7 grid |
| ScheduleList.ForeignTimeEmpty | src/components/ScheduleGrid.tsx:15-25 | a time range that is not a row of the table gets index -1, which no consistent record covers, so its cell is empty |
| ScheduleList.DeleteHidesRecord | src/App.tsx:54-56 | after a delete no cell of the grid shows a record with that id |
| ScheduleList.ClearedGridEmpty | src/App.tsx:122 | after clearing, every cell of the grid is empty |

## Left out

- React rendering, styling, modals, the theme toggle and the background are not modelled.
  Neither are `localStorage` persistence, JSON import and export, and PNG export. These are
  presentation, browser I/O and calls into libraries that cannot be seen from here.
- `src/components/ScheduleForm.tsx` is not part of this model. It validates before parsing,
  upper-cases the typed code and draws a new id from `crypto.randomUUID()`. Validating before
  parsing is what the `Consistent` record invariant states: the stored code is valid and its
  time slots are its parse. The upper-casing is outside the model; the validator itself is
  case-sensitive (`[MTN]`), so a lower-case period letter is invalid here. The random id is a
  parameter: `AddSchedule` takes the record as given, and `HandlersKeepDistinct` requires the
  new id to be unused.
- Text.LowerChar, Text.UpperChar: case mapping covers Basic Latin and Latin-1 Supplement,
  including `ß` → `SS`, `ÿ` → `Ÿ` and `µ` → `Μ` when upper-casing. Every other character is
  left unchanged, whereas JavaScript applies the full Unicode tables.
- ScheduleParser.CapitalizeWord: strings are sequences of Unicode scalar values, not UTF-16
  code units. So `charAt(0)` on a character outside the Basic Multilingual Plane is the whole character,
  not half of a surrogate pair. The results agree all the same: a lone high surrogate
  upper-cases to itself, and `UpperChar` leaves such a character unchanged.
- Sequences.IndexOf: `timeRanges.indexOf(time)` compares objects by reference. The model
  compares time ranges by value. The two agree on the table's own rows, because no two rows
  are equal (`TimeRangesDistinct`).
- ScheduleParser.ParseTimeCode: the thrown `Error` is a `None` result; its message text is
  not modelled.
- ScheduleParser.CheckBlock: the source's `some` scans are written as loops with early exit.
  They give the same answer.
