# Calculation Mastery — a verified model of the practice core

Calculation Mastery is a browser app for practising mental arithmetic. This
project models its logic in Dafny and proves properties of that model:

- **Problem generation** — operands drawn in a digit range, and the answer of each operation.
- **Cross-table practice page** — ten random row headers against ten column headers.
  - The expected answer for each cell.
  - Checking the focused cell.
  - The running statistics.
  - Refreshing the table.
  - The record it saves.
- **Sums-grid page (“phase two”)** — a 5×5 grid of two-digit numbers.
  - The learner enters the five row sums, the five column sums and the grand total.
  - The page re-checks all eleven inputs at once.
- **Result history** — kept under one local-storage key.
  - Saving, reading back, filtering by type, averaging and clearing.
- **Grid components** — answer maps and keyboard navigation.
- **Timer** — a count of seconds, shown as mm:ss or hh:mm:ss.
- **Progress page** — which sessions it shows, its summary figures, the 14-session accuracy trend and its row labels.

Modules, one file each:

| file | module | models |
|---|---|---|
| `wrappers.dfy` | `Wrappers` | `Option` |
| `numbers.dfy` | `Numbers` | digit ranges, `Math.random` draws, floor division, `Math.round` of a ratio, sums, decimal text |
| `sorting.dfy` | `Sorting` | `Array.prototype.sort` with a numeric comparator, as an in-place insertion sort |
| `problem_generator.dfy` | `ProblemGenerator` | `client/lib/problemGenerator.ts` |
| `scoring.dfy` | `Scoring` | answer maps, typed entries, the correct/incorrect tally and accuracy shared by both pages |
| `practice_grid.dfy` | `PracticeGrid` | `client/components/PracticeGrid.tsx` |
| `practice.dfy` | `Practice` | `client/pages/Practice.tsx` |
| `face_two_grid.dfy` | `FaceTwoGrid` | `client/components/FaceTwoGrid.tsx` |
| `face_two.dfy` | `FaceTwo` | `client/pages/FaceTwo.tsx` |
| `storage.dfy` | `Storage` | `client/lib/storage.ts` |
| `timer.dfy` | `Timer` | `client/components/Timer.tsx` |
| `progress.dfy` | `Progress` | `client/pages/Progress.tsx` |

Conventions:

- **Random numbers.** Each `Math.random()` value is a parameter, a `real` in [0, 1).
  - A generator takes all its draws as a sequence.
  - The practice headers take 20 draws in the order the loop makes them: column 0, row 0, column 1, row 1, and so on.
  - The sums grid takes 25 draws, row by row.
- **Changing state.** State that a page or component changes is a class, whose methods name the fields they change:
  - `PracticeSession`, `FaceTwoSession`, `HistoryStore`, `Timer`.
  - Map entries are `Option<int>`. `None` is the `null` stored when an input is cleared. A key missing from the map is `undefined`.
  - A grid hands the page the same `Map` object it holds (client/components/PracticeGrid.tsx:34-36, client/components/FaceTwoGrid.tsx:22-24). The model gives both owners the same map value. Value semantics lose nothing here, because no answer map is ever changed in place: every update builds a new `Map`.
- **Keys.** The grids key answers by strings: `"<row>-<col>"`, `"row-i"`, `"col-j"`, `"grand-total"`.
  - These are the constructors of `Scoring.Key`.
  - Headers are non-negative, so `"<row>-<col>"` is already injective, and distinct constructors lose nothing.
- **Numbers.** JavaScript numbers are unbounded integers here.
  - `Math.floor(a / b)` is `FloorDiv`.
  - `Math.round(c / n * 100)` is the exact round-half-up `RoundDiv(100 c, n)`.
- **Two facts worth knowing:**
  - client/components/Timer.tsx has no reset. Refreshing the practice page keeps the timer's count.
  - The generator never draws a 0 divisor. A cross-table division has divisor 0 only when a column header is 0.
- **Duplicated helpers.** client/components/FaceTwoGrid.tsx:26-44 defines its own row, column and grand-total sums, text-identical to client/pages/FaceTwo.tsx:45-63, and its render never calls them. `FaceTwo.RowTotal`, `FaceTwo.ColumnTotal` and `FaceTwo.GrandTotalOf` model both copies, so the two copies agree by construction.

## Model

| member | source | states |
|---|---|---|
| Numbers.MaxForDigits | client/lib/problemGenerator.ts:10-12 | the largest operand is never negative, and from one digit on it is at least 9 and ends in the digit 9 |
| Numbers.MinForDigits | client/lib/problemGenerator.ts:14-17 | the smallest operand lies in [0, max]; from two digits on it is one past the largest operand with a digit fewer, so consecutive ranges meet without a gap |
| Numbers.DigitRangeOrdered | client/lib/problemGenerator.ts:10-17 | the digit range is never empty and never negative: 0 ≤ min ≤ max for every digit count ≥ 1 |
| Numbers.DigitRangeIsDigitCount | client/lib/problemGenerator.ts:10-17 | a number ≥ 10^(d−1) and ≤ 10^d − 1 is written with exactly d digits |
| Numbers.RandomInRange | client/lib/problemGenerator.ts:6-8 | a draw r in [0, 1) gives `floor(r·(hi−lo+1)) + lo`, which lies in [lo, hi] |
| Numbers.RandomInRangeOnto | client/lib/problemGenerator.ts:6-8 | every value of [lo, hi] is produced by some draw |
| Numbers.FloorDiv | client/lib/problemGenerator.ts:121 | `Math.floor(a / b)` is the quotient rounded toward minus infinity, for either sign of b |
| Numbers.RoundDiv | client/pages/Practice.tsx:167-170 | `Math.round(num / den)` is the nearest integer, halves rounded up |
| Numbers.RoundDivBetween | client/lib/storage.ts:82-97 | a rounded mean stays within the bounds of the values averaged |
| Numbers.Percentage | client/pages/Practice.tsx:167-170 | the accuracy formula: 0 when nothing was answered, else the rounded percentage |
| Numbers.PercentageBounds | client/pages/Practice.tsx:167-170 | a share of at most the whole is a percentage in [0, 100]; all correct is 100, none is 0 |
| Numbers.SumAppend | client/lib/problemGenerator.ts:33 | the additive `reduce` splits over a concatenation |
| Numbers.ProductZero | client/lib/problemGenerator.ts:89-92 | the product starting from 1 is 0 exactly when some operand is 0 |
| Numbers.ShowNat | client/components/Timer.tsx:40-42 | `String(n)` is non-empty decimal digits, without a leading zero |
| Numbers.ParseShow | client/components/PracticeGrid.tsx:71 | `parseInt` of `String(n)` gives back n |
| Numbers.PadTwo | client/components/Timer.tsx:40-42 | `padStart(2, "0")` leaves texts of two or more characters alone and puts zeros in front of shorter ones |
| Numbers.ParsePadded | client/components/Timer.tsx:40-42 | a padded number reads back as itself, and is two characters long below 100 |
| ProblemGenerator.Draw | client/lib/problemGenerator.ts:30-32 | one operand per draw, each within [min, max] |
| ProblemGenerator.DrawOperands | client/lib/problemGenerator.ts:29-32 | the push loop builds exactly the drawn operand list |
| ProblemGenerator.DivisionMin | client/lib/problemGenerator.ts:106 | division's minimum is 1 for one digit, so no drawn divisor is 0 |
| ProblemGenerator.ChainDiv | client/lib/problemGenerator.ts:119-122 | with positive divisors, flooring after every division equals one floored division of numbers[0] by the product of the later operands |
| ProblemGenerator.ChainDivBounds | client/lib/problemGenerator.ts:119-122 | repeated floor division of a non-negative number by divisors ≥ 1 stays in [0, numbers[0]] |
| ProblemGenerator.SubtractRest | client/lib/problemGenerator.ts:58-61 | the loop computes numbers[0] minus the sum of the remaining operands |
| ProblemGenerator.MultiplyAll | client/lib/problemGenerator.ts:89-92 | the loop computes the product of the operands, starting from 1 |
| ProblemGenerator.DivideRest | client/lib/problemGenerator.ts:119-122 | the loop computes the left-to-right floor division of numbers[0] by each later operand |
| ProblemGenerator.SubtractionProblem | client/lib/problemGenerator.ts:56-66 | the operands are sorted in place in descending order and are a permutation of the drawn ones; the answer is \|numbers[0] − Σ rest\| |
| ProblemGenerator.GenerateAddition | client/lib/problemGenerator.ts:19-38 | exactly `total` problems, each with the drawn operands in range and their sum as the answer |
| ProblemGenerator.GenerateSubtraction | client/lib/problemGenerator.ts:40-72 | exactly `total` problems, each a sorted permutation of its draws with the non-negative difference as the answer |
| ProblemGenerator.GenerateMultiplication | client/lib/problemGenerator.ts:74-98 | exactly `total` problems, each with the drawn operands and their product as the answer |
| ProblemGenerator.GenerateDivision | client/lib/problemGenerator.ts:100-128 | exactly `total` problems with operands ≥ 1 and the chained floor division as the answer |
| ProblemGenerator.DivisionAnswerBounds | client/lib/problemGenerator.ts:119-122 | a generated division answer lies in [0, numbers[0]] |
| ProblemGenerator.SubtractionAnswerShape | client/lib/problemGenerator.ts:56-66 | the subtraction answer is ≥ 0; with two operands it is the larger minus the smaller |
| ProblemGenerator.SubtractionOperandsInRange | client/lib/problemGenerator.ts:50-56 | sorting keeps every operand within the digit range |
| ProblemGenerator.GenerateProblems | client/lib/problemGenerator.ts:130-148 | dispatches to the generator for the type, and returns [] for an unknown type |
| Scoring.ParseEntry | client/components/PracticeGrid.tsx:71 | a cleared input stores `null` and any other number text is parsed; the entry is `null` exactly for the empty text |
| Scoring.ParseEntryOfShown | client/components/PracticeGrid.tsx:71 | typing the decimal text of any integer stores that integer |
| Scoring.EnterAnswer | client/components/PracticeGrid.tsx:70-72 | the copied map holds the new entry at the key and agrees with the old map on every other key |
| Scoring.CellStatus | client/components/PracticeGrid.tsx:164-168 | red exactly for incorrect keys, green exactly for checked keys that are not incorrect, plain exactly for keys in neither set |
| Scoring.CellStatusPartition | client/components/PracticeGrid.tsx:164-168 | an input is red exactly when its key is incorrect, green exactly when it is checked and not incorrect, and plain exactly when it is unchecked |
| Scoring.ScoreOf | client/pages/Practice.tsx:149-171 | the score keeps the two sets, its correct and incorrect counts always add up to the number answered, and its accuracy is in [0, 100] |
| Scoring.ScoreOfConsistent | client/pages/Practice.tsx:149-171 | with incorrect ⊆ checked, correct + incorrect = answered = \|checked\|, and accuracy is a percentage in [0, 100] (0 with nothing checked) |
| Scoring.TallyStep | client/pages/Practice.tsx:153-159 | visiting one more checked key adds one to exactly one of the two counters |
| Scoring.Tally | client/pages/Practice.tsx:150-159 | the `forEach` counts the checked keys outside and inside the incorrect set, and the counts add up to the number checked |
| Scoring.Summarize | client/pages/Practice.tsx:161-171 | the statistics set after a check are those derived from the two key sets |
| PracticeGrid.OperationSymbol | client/components/PracticeGrid.tsx:38-51 | `+` for addition, `−` for subtraction, `×` for multiplication, `÷` for division, and `+` for anything else; always one character |
| PracticeGrid.OperationSymbolsDistinct | client/components/PracticeGrid.tsx:38-51 | the four operations show four different symbols |
| PracticeGrid.CalculateAnswer | client/components/PracticeGrid.tsx:53-66 | non-negative headers give a non-negative answer; subtraction is never negative and never below row − col; division never exceeds the row header |
| PracticeGrid.InputChange | client/components/PracticeGrid.tsx:68-73 | the key of the two header values gets the parsed entry (null for empty text); every other key is unchanged |
| PracticeGrid.KeyTarget | client/components/PracticeGrid.tsx:75-111 | Enter and ArrowDown move one row down exactly when a row below exists, ArrowUp one row up exactly when a row above exists, ArrowRight and ArrowLeft one column across exactly when that column exists; a target is inside the grid at distance exactly 1, on the same row for left/right and the same column otherwise; keys other than the five do nothing |
| PracticeGrid.KeyTargetReverses | client/components/PracticeGrid.tsx:75-111 | Enter goes where ArrowDown goes; wherever there is room to move, the move exists and the opposite arrow brings the focus back: down then up, up then down, right then left and left then right |
| PracticeGrid.PositionOfIndex | client/components/PracticeGrid.tsx:135-174 | the render order visits each cell at index row·cols + col, and back |
| PracticeGrid.RegisteredInput | client/components/PracticeGrid.tsx:151-155 | once a key has been registered the map finds an input for it; that input carries the key and no input registered after it carries the same key, so it is the last one |
| PracticeGrid.FocusAfterKey | client/components/PracticeGrid.tsx:80-110 | as written: whenever the key press has a target, some input is focused, and it carries the target's key (not necessarily the target itself) |
| PracticeGrid.RegisteredUnique | client/components/PracticeGrid.tsx:151-155 | with distinct headers, each key is registered by exactly its own cell |
| PracticeGrid.FocusReachesTargetWhenDistinct | client/components/PracticeGrid.tsx:75-111 | with distinct headers, the focus goes exactly to the target cell |
| PracticeGrid.FocusSkipsRepeatedHeader | client/components/PracticeGrid.tsx:80-85 | with rows [5, 5, 5], Enter from the top cell focuses the third row instead of the second |
| PracticeGrid.EqualHeadersShareEntry | client/components/PracticeGrid.tsx:68-73 | two cells with the same header values share one entry: typing into one changes the other |
| Practice.CorrectAnswer | client/pages/Practice.tsx:103-116 | non-negative headers give a non-negative answer; subtraction is never negative and never below row − col; division never exceeds the row header |
| Practice.CorrectAnswerRules | client/pages/Practice.tsx:103-116 | the subtraction answer is max(0, row − col); division by 0 gives 0, otherwise the floor quotient; an unknown type adds |
| Practice.GridAgreesWithPage | client/components/PracticeGrid.tsx:53-66 | the grid's own answer rule is the page's |
| Practice.CellIsTwoOperandProblem | client/pages/Practice.tsx:103-116 | for addition, multiplication and division (divisor ≠ 0) a cell's answer is the generator's answer for the operands (row, col); for subtraction only when row ≥ col, since the cell clamps at 0 where the generator would sort the operands first (row 3, col 5 gives 0 here and 2 there) |
| Practice.DrawnHeaders | client/pages/Practice.tsx:58-71 | ten headers, each within the digit range |
| Practice.GenerateGridHeaders | client/pages/Practice.tsx:58-71 | the loop takes the even draws as column headers and the odd draws as row headers |
| Practice.CheckCell | client/pages/Practice.tsx:122-172 | a check never unmarks a key and adds at most the focused key to the checked set; every other key keeps its incorrect mark |
| Practice.CheckCellMarks | client/pages/Practice.tsx:122-172 | a cleared entry changes nothing; otherwise the key becomes checked, is incorrect exactly when the entry differs from the answer (a never-typed cell is incorrect), and no other key changes |
| Practice.CheckCellConsistent | client/pages/Practice.tsx:122-172 | a consistent score stays consistent, with accuracy in [0, 100] |
| Practice.CheckCellIdempotent | client/pages/Practice.tsx:122-172 | checking the same cell again with the same entry changes nothing |
| Practice.CheckCellExample | client/pages/Practice.tsx:122-172 | 7 + 5 entered as 12 gives 100%; re-entered as 11 and re-checked gives 0% |
| Practice.ResultRecord | client/pages/Practice.tsx:195-206 | the saved record is a practice record whose type is the page's operation |
| Practice.ResultRecordWellFormed | client/pages/Practice.tsx:195-206 | the record's counts add up to its total and its accuracy is a percentage |
| Practice.PracticeSession.constructor | client/pages/Practice.tsx:40-79 | mounting draws the headers and starts with no answers, no checks and a running timer at 0 |
| Practice.PracticeSession.FocusCell | client/pages/Practice.tsx:174-176 | focusing a cell records its header values, and the session stays valid |
| Practice.PracticeSession.EnterText | client/components/PracticeGrid.tsx:68-73 | typing updates the grid's map, and the page then holds the same map, which the effect at client/components/PracticeGrid.tsx:34-36 publishes; the session stays valid |
| Practice.PracticeSession.CheckFocused | client/pages/Practice.tsx:122-172 | without a focused cell nothing changes; otherwise the score is the single-cell check of the focused cell |
| Practice.PracticeSession.Refresh | client/pages/Practice.tsx:178-193 | new headers, no answers, no checks, timer running with time 0; the timer's own count, the grid's map and the focused cell are kept |
| Practice.PracticeSession.Pause | client/pages/Practice.tsx:222-224 | pausing stops the timer and keeps its count |
| Practice.PracticeSession.Resume | client/pages/Practice.tsx:226-228 | resuming restarts the timer if it is active, and keeps its count |
| Practice.PracticeSession.Tick | client/pages/Practice.tsx:118-120 | a second passes: a running timer counts one more and the page's time follows it |
| Practice.PracticeSession.SaveResult | client/pages/Practice.tsx:195-209 | the store gets the page's record appended, or is unchanged when the write fails; the session stays valid |
| Practice.PracticeSession.ClearHistory | client/pages/Practice.tsx:215-220 | after clearing, the history reads back empty |
| FaceTwoGrid.InputChange | client/components/FaceTwoGrid.tsx:46-50 | the typed key gets the parsed entry; every other key is unchanged |
| FaceTwoGrid.RegistrationOrder | client/components/FaceTwoGrid.tsx:107-112 | the ref map's keys in insertion order: the row sums, then the five column sums, then the grand total |
| FaceTwoGrid.RegistrationOrderDistinct | client/components/FaceTwoGrid.tsx:107-112 | no key appears twice in the order |
| FaceTwoGrid.IndexOf | client/components/FaceTwoGrid.tsx:59 | `indexOf` gives the first position of the key, or −1 when it is absent |
| FaceTwoGrid.NextFocus | client/components/FaceTwoGrid.tsx:52-64 | Enter focuses a registered input; in an order without repeated keys, nothing follows the last key |
| FaceTwoGrid.EnterWalksSumsInOrder | client/components/FaceTwoGrid.tsx:52-64 | Enter visits the row sums, then the column sums, then the grand total, and stops there |
| FaceTwoGrid.NextFocusOfDistinct | client/components/FaceTwoGrid.tsx:52-64 | in an order without repeats, Enter goes from each input to the next one |
| FaceTwoGrid.UnregisteredKeyFocusesFirst | client/components/FaceTwoGrid.tsx:58-62 | a key that never registered sends the focus to the first input |
| FaceTwo.DrawnRow | client/pages/FaceTwo.tsx:29-32 | a row is five draws, each in [10, 99] |
| FaceTwo.DrawnGrid | client/pages/FaceTwo.tsx:26-35 | the grid is five rows of five numbers in [10, 99] |
| FaceTwo.GenerateGrid | client/pages/FaceTwo.tsx:26-35 | the nested push loops build exactly the drawn grid |
| FaceTwo.RowTotal | client/pages/FaceTwo.tsx:45-47 | in a 5×5 grid of numbers in [10, 99], every row sum lies in [50, 495] |
| FaceTwo.ColumnTotal | client/pages/FaceTwo.tsx:49-55 | in a 5×5 grid of numbers in [10, 99], every column sum lies in [50, 495] |
| FaceTwo.GrandTotalOf | client/pages/FaceTwo.tsx:57-63 | in a 5×5 grid of numbers in [10, 99], the grand total lies in [250, 2475] |
| FaceTwo.CalculateColumnSum | client/pages/FaceTwo.tsx:49-55 | the loop adds the column's five cells, a missing cell counting 0 |
| FaceTwo.CalculateGrandTotal | client/pages/FaceTwo.tsx:57-63 | the loop adds the five row sums |
| FaceTwo.RowPrefixIsSum | client/pages/FaceTwo.tsx:45-47 | the row sum is the `reduce` sum of the row |
| FaceTwo.TableBothWays | client/pages/FaceTwo.tsx:45-63 | summing a table row by row or column by column gives the same result |
| FaceTwo.GrandTotalIsSumOfColumns | client/pages/FaceTwo.tsx:45-63 | the grand total, the sum of the row sums, is also the sum of the column sums |
| FaceTwo.FaceKeysAreEleven | client/pages/FaceTwo.tsx:69-110 | the check looks at exactly eleven keys |
| FaceTwo.Visit | client/pages/FaceTwo.tsx:72-81 | a filled entry is checked, and is incorrect exactly when it differs from the expected sum |
| FaceTwo.CheckAll | client/pages/FaceTwo.tsx:65-110 | the re-check yields exactly the filled sum keys as checked, and the filled wrong ones as incorrect |
| FaceTwo.CheckAllBounds | client/pages/FaceTwo.tsx:65-110 | at most the eleven sum keys are checked, and only checked keys are incorrect |
| FaceTwo.CheckAllScore | client/pages/FaceTwo.tsx:112-134 | the statistics after a re-check are consistent, at most 11 are answered, and accuracy is in [0, 100] |
| FaceTwo.CheckAllExample | client/pages/FaceTwo.tsx:65-134 | right row sum, wrong column sum and right grand total give 2 correct, 1 incorrect, 67% |
| FaceTwo.FaceTwoSession.constructor | client/pages/FaceTwo.tsx:14-43 | mounting builds a fresh grid, with no answers and no checks |
| FaceTwo.FaceTwoSession.EnterText | client/components/FaceTwoGrid.tsx:46-50 | typing updates the grid's map, and the page then holds the same map, which the effect at client/components/FaceTwoGrid.tsx:22-24 publishes; the session stays valid |
| FaceTwo.FaceTwoSession.CheckAllAnswers | client/pages/FaceTwo.tsx:65-135 | the score is derived from a full re-check of the page's answers |
| FaceTwo.FaceTwoSession.Refresh | client/pages/FaceTwo.tsx:137-154 | a new grid, no answers, no checks; the grid component's own map is kept |
| Storage.Read | client/lib/storage.ts:29-38 | a missing or unreadable entry reads as an empty list, a saved one as its list |
| Storage.Filter | client/lib/storage.ts:73-75 | the filter is no longer than the list, and every record kept has the type |
| Storage.FilterMembers | client/lib/storage.ts:73-80 | a record is kept exactly when it is in the list and has the type |
| Storage.FilterAppend | client/lib/storage.ts:73-75 | the filter keeps saved order: filtering a concatenation concatenates the filters |
| Storage.SumAccuracyBounds | client/lib/storage.ts:89-96 | an accuracy sum lies between n·lo and n·hi |
| Storage.AverageBetween | client/lib/storage.ts:89-96 | the rounded mean lies between the smallest and largest accuracy averaged |
| Storage.AverageSelection | client/lib/storage.ts:82-88 | `face-two` or any other non-empty type selects that type's records; no type selects them all |
| Storage.AverageIsPercentage | client/lib/storage.ts:82-97 | with accuracies in [0, 100], the average is in [0, 100] for any selection (0 when it is empty) |
| Storage.HistoryStore.constructor | client/lib/storage.ts:29-38 | the store starts from the given entry |
| Storage.HistoryStore.Results | client/lib/storage.ts:60-63 | everything saved, in saved order; nothing when the entry is missing or unreadable |
| Storage.HistoryStore.AverageAccuracy | client/lib/storage.ts:82-97 | 0 when no record is selected, otherwise the selected accuracies' sum divided by their count, rounded half up; a percentage in [0, 100] when every saved accuracy is one |
| Storage.HistoryStore.AverageAccuracyBetween | client/lib/storage.ts:82-97 | the average lies between the smallest and the largest selected accuracy |
| Storage.HistoryStore.SaveResult | client/lib/storage.ts:40-48 | a successful write makes the entry the old list plus the record; a failed one leaves it unchanged |
| Storage.HistoryStore.SaveFaceTwoResult | client/lib/storage.ts:50-58 | the same append, for a sums-grid record |
| Storage.HistoryStore.ClearHistory | client/lib/storage.ts:65-71 | after removal the entry is missing and everything reads back empty |
| Storage.HistoryStore.ResultsByType | client/lib/storage.ts:73-75 | exactly the saved records of the type |
| Storage.HistoryStore.FaceTwoResults | client/lib/storage.ts:77-80 | exactly the saved sums-grid records |
| Storage.SavedRecordReadsBack | client/lib/storage.ts:40-75 | a saved record reads back last, and shows up in its type's filter after the earlier ones |
| Timer.Timer.constructor | client/components/Timer.tsx:14 | the count starts at 0 |
| Timer.Timer.SetProps | client/components/Timer.tsx:21-29 | new props re-install or clear the interval, and never reset the count |
| Timer.Timer.Tick | client/components/Timer.tsx:21-29 | each second adds one exactly when the timer is active and not paused |
| Timer.ClockDecomposition | client/components/Timer.tsx:35-37 | 3600·h + 60·m + s gives back the count, with m, s < 60 |
| Timer.FormatClock | client/components/Timer.tsx:39-45 | without hours the text is minutes, a colon and seconds; with hours it is hours, minutes and seconds separated by colons |
| Timer.Display | client/components/Timer.tsx:39-45 | under an hour the clock text is five characters with a colon in the middle; from an hour on it is at least eight, with colons before the minutes and before the seconds |
| Timer.DisplayShape | client/components/Timer.tsx:39-45 | under an hour the clock reads mm:ss, from an hour on hh:mm:ss, every part padded to two digits |
| Timer.ParseDisplay | client/components/Timer.tsx:35-45 | reading the display back gives the count: no information is lost |
| Progress.SelectResults | client/pages/Progress.tsx:28-32 | `phase-two` and `face-two` show the sums-grid records, another type its own records, no type everything |
| Progress.SelectResultsSubset | client/pages/Progress.tsx:28-32 | only saved sessions are shown, never more than are saved |
| Progress.TotalsAppend | client/pages/Progress.tsx:148-161 | problems solved and total time add up over a concatenation |
| Progress.ProblemsSolved | client/pages/Progress.tsx:148 | non-negative problem counts give a non-negative total |
| Progress.TotalTime | client/pages/Progress.tsx:156-161 | sums-grid records add no time, and non-negative times give a non-negative total |
| Progress.SummaryOf | client/pages/Progress.tsx:28-33 | sessions, problems solved and total time come from the shown sessions, and the average from the store's query for the type |
| Progress.ShownAverage | client/pages/Progress.tsx:28-33 | the average the page shows, as written: a percentage in [0, 100] whenever every saved accuracy is one |
| Progress.CorrectedAverage | client/pages/Progress.tsx:28-33 | the average over the shown sessions, equal to the page's figure for every type except `phase-two` |
| Progress.CorrectedAverageBounds | client/pages/Progress.tsx:28-33 | the corrected average lies within the shown accuracies, and is 0 when none is shown |
| Progress.PhaseTwoAverageMismatch | client/pages/Progress.tsx:28-33 | on `phase-two`, one 100% sums-grid session is listed while the average shown is 0 |
| Progress.ChartWindow | client/pages/Progress.tsx:59-69 | at most 14 points, fewer only when fewer sessions exist |
| Progress.ChartWindowProperties | client/pages/Progress.tsx:59-69 | sessions are numbered 1..n; accuracies come unchanged from the most recent sessions, in time order; every dropped session is no later than any that is kept |
| Progress.ChartData | client/pages/Progress.tsx:59-69 | the result list is sorted in place by ascending time, as a permutation, and the chart is the window over it |
| Progress.OperationLabel | client/pages/Progress.tsx:71-81 | fixed labels for the six known tags, with one label shared by `phase-two` and `face-two`; the input itself otherwise |
| Progress.OperationLabelsDistinct | client/pages/Progress.tsx:71-81 | the four operations get four different labels, and no label is itself a tag |
| Progress.Difficulty | client/pages/Progress.tsx:277-279 | the label is 5×5 exactly for `phase-two` records, and ends in `-Digit` for every other record |
| Progress.DifficultyLabels | client/pages/Progress.tsx:277-279 | `phase-two` shows 5×5; a practice record shows `<digits>-Digit`, from which the count reads back; a sums-grid record shows `--Digit` |
| Progress.AccuracyBadge | client/pages/Progress.tsx:290-295 | green exactly from 80, red exactly below 60 |
| Progress.AccuracyBands | client/pages/Progress.tsx:290-295 | the badges split all accuracies into ≥ 80, 60–79 and < 60, and a higher accuracy never gets a lower badge |
| Progress.FormatDuration | client/pages/Progress.tsx:92-104 | the text shows an `h` exactly from an hour on, and then ends in `m`; under an hour it ends in `s` |
| Progress.DurationReadsBack | client/pages/Progress.tsx:92-104 | under an hour, "Ym Zs" or "Zs" reads back as the seconds; from an hour on, "Xh Ym" reads back as the count without its seconds |
| Sorting.InsertAt | client/pages/Progress.tsx:60 | one insertion step extends the sorted prefix, leaves the rest alone and permutes the array |
| Sorting.SortBy | client/pages/Progress.tsx:60 | the comparator sort gives ascending keys and a permutation of the contents |

## Left out

- JSX, styling, charts, routing and navigation, `confirm` dialogs, and DOM focus. Focus is modelled only as which input a key press targets.
- `localStorage` and JSON. The store is an in-memory value: `Missing`, `Unreadable` or a saved list. A write or removal that throws is a `bool` parameter. An entry that parses to something other than an object with a `results` list is not modelled: for example the text `null` passes client/lib/storage.ts:34 and then throws at line 62.
- `Math.random`, `setInterval` and `Date.now()`. They are parameters: draws, `Tick` calls, and `idTime`/`now`.
- `Date` and locale formatting: `toLocaleDateString`, `toLocaleTimeString`, `formatDate`, the chart's date label, and the grouping of the table by day with its newest-first order (client/pages/Progress.tsx:36-56, 83-90, 256-258). A chart point carries its timestamp instead.
- Floating point. `Math.round(c / n * 100)` is computed exactly. The code computes `c / n` in floating point first, and that value could land just below a half.
- `parseInt` on decimals, exponents and text such as ".5". The model accepts only digit text with an optional minus sign. It does not model that `parseInt` truncates "12.5" to 12 (so 12.5 for 7 + 5 is marked correct), reads "1e3" as 1, or gives `NaN` for ".5".
- Practice.tsx's `getOperationLabel` and `getDigitLabel`, the `showStats` panel, and the "unsaved progress" prompt. They are presentation only. `ShowsStatistics` and `AsksBeforeLeaving` record their conditions. `showStats` is never set to true.
- The FaceTwo page's imported `Timer` component and `saveFaceTwoResult`. The page renders neither and never calls it.
- client/pages/Index.tsx and client/components/Statistics.tsx. Both are presentation; Index's totals are the Progress reductions.
- Sort stability. `Sorting.SortBy` promises sorted-and-permuted only. The browser's stable order of equal timestamps is not stated.
- `labels[op] || op` looks up inherited object properties. Tags such as `constructor` would show a function. `Progress.OperationLabel` does not model this.
- Progress.FormatDuration: defined for non-negative counts. Every stored time is a count of ticks, so a negative total cannot arise from the app.
- ProblemGenerator.GenerateSubtraction and ProblemGenerator.GenerateDivision: require at least one operand. With none, the source's answer is `undefined`.
- Default arguments: the generators' `total = 10` (client/lib/problemGenerator.ts:22, 43, 77, 103, 134) and the route's `type = "addition"`, `digits = "2"`, `count = "2"` (client/pages/Practice.tsx:23-27). Every modelled operation takes these values as explicit parameters.
- The generators and the practice headers require a digit count ≥ 1. With 0, `Math.pow(10, −1)` would give fractional bounds.

## Findings

| source | as written | input that shows it | evidently intended | confidence | as-written member | corrected member |
|---|---|---|---|---|---|---|
| client/components/PracticeGrid.tsx:80-110 | navigation re-finds the target input by the key made of its two header values, and the ref map holds only the last input registered under a key | row headers [5, 5, 5], column headers [3]: Enter in the first row focuses the third row | focus the cell one row down (or across) | high, not executed | PracticeGrid.FocusAfterKey, PracticeGrid.FocusSkipsRepeatedHeader | PracticeGrid.KeyTarget, PracticeGrid.FocusReachesTargetWhenDistinct |
| client/pages/Progress.tsx:28-33 | on the `phase-two` route the page lists the `face-two` records but asks the store for the average of `phase-two` records | one saved sums-grid record at 100%, route `phase-two`: "1 session, 0% average"; latent, because no shipped path saves a sums-grid record (`saveFaceTwoResult`, client/lib/storage.ts:50-58, is never called) | the average of the sessions listed | high, not executed | Progress.ShownAverage, Progress.PhaseTwoAverageMismatch | Progress.CorrectedAverage, Progress.CorrectedAverageBounds |
