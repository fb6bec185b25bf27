/**
 * The cross-table practice page: ten random column headers against ten random
 * row headers, one answer per pair, checked one focused cell at a time, with a
 * running timer and a save to the history.
 */
module Practice {
  import opened Wrappers
  import opened Numbers
  import opened Scoring
  import PracticeGrid
  import ProblemGenerator
  import Timer
  import Storage

  // ---------------------------------------------------------------------------
  // The answer rule

  /**
   * The expected answer for the cell (rowNum, colNum): sum, difference clamped
   * at 0, product, floored quotient (0 for a zero divisor), and the sum for any
   * other type name.
   */
  function CorrectAnswer(kind: string, rowNum: int, colNum: int): (r: int)
    ensures rowNum >= 0 && colNum >= 0 ==> r >= 0
    ensures kind == "subtraction" ==> r >= 0 && r >= rowNum - colNum
    ensures kind == "division" && rowNum >= 0 && colNum >= 0 ==> r <= rowNum
  {
    match kind
    case "addition" => rowNum + colNum
    case "subtraction" => if rowNum - colNum > 0 then rowNum - colNum else 0
    case "multiplication" => rowNum * colNum
    case "division" => if colNum != 0 then FloorDiv(rowNum, colNum) else 0
    case _ => rowNum + colNum
  }

  /** What each operation's rule promises. */
  lemma CorrectAnswerRules(kind: string, rowNum: int, colNum: int)
    ensures kind == "subtraction" ==> CorrectAnswer(kind, rowNum, colNum) >= 0
    ensures kind == "subtraction" && rowNum >= colNum ==> CorrectAnswer(kind, rowNum, colNum) == rowNum - colNum
    ensures kind == "subtraction" && rowNum < colNum ==> CorrectAnswer(kind, rowNum, colNum) == 0
    ensures kind == "division" && colNum == 0 ==> CorrectAnswer(kind, rowNum, colNum) == 0
    ensures kind == "division" && colNum > 0 ==>
              var q := CorrectAnswer(kind, rowNum, colNum);
              colNum * q <= rowNum < colNum * q + colNum
    ensures kind !in {"subtraction", "multiplication", "division"} ==> CorrectAnswer(kind, rowNum, colNum) == rowNum + colNum
  {
  }

  /** The grid computes the same answer as the page for every type and every pair. */
  lemma GridAgreesWithPage(kind: string, rowNum: int, colNum: int)
    ensures PracticeGrid.CalculateAnswer(kind, rowNum, colNum) == CorrectAnswer(kind, rowNum, colNum)
  {
  }

  /**
   * A cell is the two-operand problem of the generator with the row header
   * first, except that subtraction clamps at 0 instead of ordering the operands.
   */
  lemma CellIsTwoOperandProblem(rowNum: int, colNum: int)
    ensures CorrectAnswer("addition", rowNum, colNum) == Sum([rowNum, colNum])
    ensures CorrectAnswer("multiplication", rowNum, colNum) == Product([rowNum, colNum])
    ensures colNum != 0 ==> CorrectAnswer("division", rowNum, colNum) == ProblemGenerator.ChainDiv([rowNum, colNum])
    ensures rowNum >= colNum ==> CorrectAnswer("subtraction", rowNum, colNum) == rowNum - Sum([colNum])
  {
    assert [rowNum, colNum][..1] == [rowNum];
    assert [rowNum][..0] == [];
    assert [colNum][..0] == [];
    assert Sum([rowNum]) == rowNum && Sum([colNum]) == colNum && Product([rowNum]) == rowNum;
    assert Sum([rowNum, colNum]) == Sum([rowNum]) + colNum;
    assert Product([rowNum, colNum]) == Product([rowNum]) * colNum;
  }

  // ---------------------------------------------------------------------------
  // Headers

  /** Every header lies in the range of the chosen digit count. */
  predicate HeadersInRange(headers: seq<int>, digitCount: nat)
    requires digitCount >= 1
  {
    forall i :: 0 <= i < |headers| ==> MinForDigits(digitCount) <= headers[i] <= MaxForDigits(digitCount)
  }

  /**
   * The headers one loop of generateGridHeaders draws: the twenty values
   * `Math.random()` returns alternate between a column header (even
   * positions, `parity` 0) and a row header (odd positions, `parity` 1).
   */
  function DrawnHeaders(digitCount: nat, draws: seq<real>, parity: nat): (hs: seq<int>)
    requires digitCount >= 1 && parity < 2
    requires |draws| == 20 && ProblemGenerator.AllDraws(draws)
    ensures |hs| == 10 && HeadersInRange(hs, digitCount)
  {
    DigitRangeOrdered(digitCount);
    seq(10, i requires 0 <= i < 10 =>
      RandomInRange(draws[2 * i + parity], MinForDigits(digitCount), MaxForDigits(digitCount)))
  }

  /** generateGridHeaders: ten column headers and ten row headers from the digit range. */
  method GenerateGridHeaders(digitCount: nat, draws: seq<real>) returns (cols: seq<int>, rows: seq<int>)
    requires digitCount >= 1
    requires |draws| == 20 && ProblemGenerator.AllDraws(draws)
    ensures cols == DrawnHeaders(digitCount, draws, 0)
    ensures rows == DrawnHeaders(digitCount, draws, 1)
  {
    var maxNum := MaxForDigits(digitCount);
    var minNum := MinForDigits(digitCount);
    DigitRangeOrdered(digitCount);
    cols, rows := [], [];
    var i := 0;
    while i < 10
      invariant 0 <= i <= 10
      invariant cols == DrawnHeaders(digitCount, draws, 0)[..i]
      invariant rows == DrawnHeaders(digitCount, draws, 1)[..i]
    {
      cols := cols + [RandomInRange(draws[2 * i], minNum, maxNum)];
      rows := rows + [RandomInRange(draws[2 * i + 1], minNum, maxNum)];
      i := i + 1;
    }
  }

  // ---------------------------------------------------------------------------
  // Checking one cell

  /**
   * handleCheckAllAnswers for the focused cell `key`, whose entry is `entry`
   * (`answers.get(key)`). A `null` entry (an input that was cleared) leaves
   * everything as it was. Otherwise the key becomes checked, and incorrect
   * unless the entry is exactly the expected answer, so a key never typed into
   * counts as incorrect. The counts and the accuracy are recomputed from the
   * two sets.
   */
  function CheckCell(score: Score, key: Key, entry: Option<Option<int>>, expected: int): (s: Score)
    ensures score.checked <= s.checked <= score.checked + {key}
    ensures s.incorrect - {key} == score.incorrect - {key}
  {
    if entry == Some(None) then score
    else
      var incorrect := if entry == Some(Some(expected)) then score.incorrect - {key} else score.incorrect + {key};
      ScoreOf(score.checked + {key}, incorrect)
  }

  /** The check marks only the focused key, and marks it correct exactly when its entry is the expected answer. */
  lemma CheckCellMarks(score: Score, key: Key, entry: Option<Option<int>>, expected: int)
    ensures entry == Some(None) ==> CheckCell(score, key, entry, expected) == score
    ensures entry != Some(None) ==> key in CheckCell(score, key, entry, expected).checked
    ensures entry != Some(None) ==>
              (key in CheckCell(score, key, entry, expected).incorrect <==> entry != Some(Some(expected)))
    ensures forall k :: k != key ==>
              (k in CheckCell(score, key, entry, expected).checked <==> k in score.checked) &&
              (k in CheckCell(score, key, entry, expected).incorrect <==> k in score.incorrect)
  {
  }

  /** The check keeps the score consistent, with an accuracy in [0, 100]. */
  lemma CheckCellConsistent(score: Score, key: Key, entry: Option<Option<int>>, expected: int)
    requires Consistent(score)
    ensures Consistent(CheckCell(score, key, entry, expected))
    ensures 0 <= CheckCell(score, key, entry, expected).accuracy <= 100
  {
    if entry != Some(None) {
      var incorrect := if entry == Some(Some(expected)) then score.incorrect - {key} else score.incorrect + {key};
      ScoreOfConsistent(score.checked + {key}, incorrect);
    } else {
      ScoreOfConsistent(score.checked, score.incorrect);
    }
  }

  /** Checking the same cell again with the same entry changes nothing. */
  lemma CheckCellIdempotent(score: Score, key: Key, entry: Option<Option<int>>, expected: int)
    ensures CheckCell(CheckCell(score, key, entry, expected), key, entry, expected) == CheckCell(score, key, entry, expected)
  {
    if entry != Some(None) {
      var once := CheckCell(score, key, entry, expected);
      if entry == Some(Some(expected)) {
        assert once.incorrect - {key} == once.incorrect;
      } else {
        assert once.incorrect + {key} == once.incorrect;
      }
      assert once.checked + {key} == once.checked;
    }
  }

  /**
   * Addition with row 7 and column 5: entering 12 and checking gives one
   * correct answer and 100%; changing it to 11 and checking again moves the
   * cell to incorrect and the accuracy to 0.
   */
  lemma CheckCellExample()
    ensures CorrectAnswer("addition", 7, 5) == 12
    ensures var s := CheckCell(NoScore, Cell(7, 5), Some(Some(12)), 12);
            s.checked == {Cell(7, 5)} && s.incorrect == {} && s.correct == 1 && s.accuracy == 100
    ensures var s := CheckCell(CheckCell(NoScore, Cell(7, 5), Some(Some(12)), 12), Cell(7, 5), Some(Some(11)), 12);
            s.incorrect == {Cell(7, 5)} && s.correct == 0 && s.wrong == 1 && s.answered == 1 && s.accuracy == 0
  {
    var k := Cell(7, 5);
    assert {k} - {k} == {};
    assert {k} + {k} == {k};
    assert {k} * {} == {};
    assert {k} * {k} == {k};
    assert {} + {k} == {k};
  }

  /** The record handleSaveResult writes from a score and the elapsed time. */
  function ResultRecord(id: string, kind: string, digitCount: int, score: Score, timeSpent: int, timestamp: int): (r: Storage.SessionResult)
    ensures r.PracticeResult? && Storage.TypeOf(r) == kind
  {
    Storage.PracticeResult(id, kind, digitCount, score.answered, score.correct, score.wrong,
                           score.accuracy, timeSpent, timestamp)
  }

  /** A record made from a consistent score adds up and holds a percentage. */
  lemma ResultRecordWellFormed(id: string, kind: string, digitCount: int, score: Score, timeSpent: int, timestamp: int)
    requires Consistent(score)
    ensures var r := ResultRecord(id, kind, digitCount, score, timeSpent, timestamp);
            && r.correctAnswers + r.incorrectAnswers == r.totalProblems
            && 0 <= r.correctAnswers && 0 <= r.incorrectAnswers
            && 0 <= r.accuracy <= 100
  {
    assert score.incorrect <= score.checked;
    assert score.checked == (score.checked - score.incorrect) + score.incorrect;
    PercentageBounds(score.correct, score.answered);
  }

  // ---------------------------------------------------------------------------
  // The page

  /** The focused cell, by its two header values. */
  datatype CellRef = CellRef(rowNum: int, colNum: int)

  /** The page's state, the grid's own answer map and the timer it renders. */
  class PracticeSession {
    const kind: string
    const digitCount: nat
    var columnHeaders: seq<int>
    var rowHeaders: seq<int>
    /** The page's copy of the answers, which the check reads. */
    var answers: Answers
    /** The grid component's own answer map, which it publishes to the page on every change. */
    var gridAnswers: Answers
    var score: Score
    var focused: Option<CellRef>
    var timerActive: bool
    var timerPaused: bool
    var timeSpent: nat
    const timer: Timer.Timer

    /** The headers fill a ten-by-ten table in range, the score is consistent, and the timer sees the page's flags. */
    ghost predicate Valid()
      reads this, timer
    {
      && digitCount >= 1
      && |columnHeaders| == 10 && |rowHeaders| == 10
      && HeadersInRange(columnHeaders, digitCount) && HeadersInRange(rowHeaders, digitCount)
      && Consistent(score)
      && timer.isActive == timerActive && timer.isPaused == timerPaused
    }

    /** Mounting: headers are drawn, nothing is answered or checked, and the timer runs from 0. */
    constructor (kind: string, digitCount: nat, draws: seq<real>)
      requires digitCount >= 1
      requires |draws| == 20 && ProblemGenerator.AllDraws(draws)
      ensures this.kind == kind && this.digitCount == digitCount
      ensures columnHeaders == DrawnHeaders(digitCount, draws, 0)
      ensures rowHeaders == DrawnHeaders(digitCount, draws, 1)
      ensures answers == map[] && gridAnswers == map[] && score == NoScore && focused == None
      ensures timerActive && !timerPaused && timeSpent == 0 && timer.time == 0
      ensures fresh(timer)
      ensures Valid()
    {
      this.kind := kind;
      this.digitCount := digitCount;
      var cols, rows := GenerateGridHeaders(digitCount, draws);
      columnHeaders, rowHeaders := cols, rows;
      answers, gridAnswers := map[], map[];
      score := NoScore;
      focused := None;
      timerActive, timerPaused := true, false;
      timeSpent := 0;
      timer := new Timer.Timer(true, false);
    }

    /** handleFocusCell: focusing an input records its header values. */
    method FocusCell(rowNum: int, colNum: int)
      requires Valid()
      modifies this`focused
      ensures focused == Some(CellRef(rowNum, colNum))
      ensures Valid()
    {
      focused := Some(CellRef(rowNum, colNum));
    }

    /** Typing into an input: the grid updates its map and publishes all of it to the page. */
    method EnterText(rowNum: int, colNum: int, text: string)
      requires Valid() && IsNumberText(text)
      modifies this`gridAnswers, this`answers
      ensures gridAnswers == PracticeGrid.InputChange(old(gridAnswers), rowNum, colNum, text)
      ensures answers == gridAnswers
      ensures Valid()
    {
      gridAnswers := PracticeGrid.InputChange(gridAnswers, rowNum, colNum, text);
      answers := gridAnswers;
    }

    /** The Check button is enabled: a cell is focused and its entry is not `null`. */
    predicate CanCheck()
      reads this
    {
      focused.Some? && Lookup(answers, Cell(focused.value.rowNum, focused.value.colNum)) != Some(None)
    }

    /** handleCheckAllAnswers: scores the focused cell, and does nothing without one. */
    method CheckFocused()
      requires Valid()
      modifies this`score
      ensures Valid()
      ensures focused.None? ==> score == old(score)
      ensures focused.Some? ==>
                var key := Cell(focused.value.rowNum, focused.value.colNum);
                score == CheckCell(old(score), key, Lookup(answers, key),
                                   CorrectAnswer(kind, focused.value.rowNum, focused.value.colNum))
      ensures !CanCheck() ==> score == old(score)
    {
      if focused.None? {
        return;
      }
      var cell := focused.value;
      var key := Cell(cell.rowNum, cell.colNum);
      var entry := Lookup(answers, key);
      if entry == Some(None) {
        return;
      }
      var expected := CorrectAnswer(kind, cell.rowNum, cell.colNum);
      var checked := score.checked + {key};
      var incorrect := score.incorrect;
      if entry == Some(Some(expected)) {
        incorrect := incorrect - {key};
      } else {
        incorrect := incorrect + {key};
      }
      CheckCellConsistent(score, key, entry, expected);
      score := Summarize(checked, incorrect);
    }

    /**
     * handleRefreshProblems: new headers, the page's answers and score cleared,
     * the timer running and the elapsed time shown as 0. The grid keeps its own
     * answer map, the timer keeps its count, and the focused cell is kept.
     */
    method Refresh(draws: seq<real>)
      requires Valid()
      requires |draws| == 20 && ProblemGenerator.AllDraws(draws)
      modifies this`columnHeaders, this`rowHeaders, this`answers, this`score,
               this`timerActive, this`timerPaused, this`timeSpent, timer
      ensures columnHeaders == DrawnHeaders(digitCount, draws, 0)
      ensures rowHeaders == DrawnHeaders(digitCount, draws, 1)
      ensures answers == map[] && score == NoScore
      ensures timerActive && !timerPaused && timeSpent == 0
      ensures timer.time == old(timer.time)
      ensures gridAnswers == old(gridAnswers) && focused == old(focused)
      ensures Valid()
    {
      var cols, rows := GenerateGridHeaders(digitCount, draws);
      columnHeaders, rowHeaders := cols, rows;
      answers := map[];
      score := NoScore;
      timerActive, timerPaused := true, false;
      timeSpent := 0;
      timer.SetProps(true, false);
    }

    /** handlePauseTimer. */
    method Pause()
      requires Valid()
      modifies this`timerPaused, timer
      ensures Valid()
      ensures timerPaused && !timer.Running() && timer.time == old(timer.time)
    {
      timerPaused := true;
      timer.SetProps(timerActive, true);
    }

    /** handleResumeTimer. */
    method Resume()
      requires Valid()
      modifies this`timerPaused, timer
      ensures Valid()
      ensures !timerPaused && timer.Running() == timerActive && timer.time == old(timer.time)
    {
      timerPaused := false;
      timer.SetProps(timerActive, false);
    }

    /**
     * One second passes. When the timer counts, its new count reaches the page
     * through handleTimeUpdate; otherwise nothing changes.
     */
    method Tick()
      requires Valid()
      modifies timer, this`timeSpent
      ensures Valid()
      ensures old(timer.Running()) ==> timer.time == old(timer.time) + 1 && timeSpent == timer.time
      ensures !old(timer.Running()) ==> timer.time == old(timer.time) && timeSpent == old(timeSpent)
    {
      var before := timer.time;
      timer.Tick();
      if timer.time != before {
        timeSpent := timer.time;
      }
    }

    /** The statistics and the save buttons are shown once a cell has been checked. */
    predicate ShowsStatistics()
      reads this
    {
      |score.checked| > 0
    }

    /** Going home asks for confirmation when nothing was checked but time has passed. */
    predicate AsksBeforeLeaving()
      reads this
    {
      |score.checked| == 0 && timeSpent > 0
    }

    /**
     * handleSaveResult: writes the record of this session. The id is the text
     * of one clock reading and the timestamp a second reading.
     */
    method SaveResult(store: Storage.HistoryStore, idTime: int, now: int, writeOk: bool)
      requires Valid()
      modifies store
      ensures writeOk ==> store.stored == Storage.Saved(old(store.Results()) + [ResultRecord(ShowInt(idTime), kind, digitCount, score, timeSpent, now)])
      ensures !writeOk ==> store.stored == old(store.stored)
      ensures Valid()
    {
      var r := ResultRecord(ShowInt(idTime), kind, digitCount, score, timeSpent, now);
      store.SaveResult(r, writeOk);
    }

    /** handleClearHistory, once confirmed: the history entry is removed. */
    method ClearHistory(store: Storage.HistoryStore, removeOk: bool)
      modifies store
      ensures removeOk ==> store.Results() == []
      ensures !removeOk ==> store.stored == old(store.stored)
    {
      store.ClearHistory(removeOk);
    }
  }
}
