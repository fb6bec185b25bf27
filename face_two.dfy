/**
 * The sums page: a five-by-five grid of two-digit numbers whose row sums,
 * column sums and grand total the user enters, all checked together.
 */
module FaceTwo {
  import opened Wrappers
  import opened Numbers
  import opened Scoring
  import FaceTwoGrid
  import ProblemGenerator

  type Grid = seq<seq<int>>

  /** Five rows of five numbers in [10, 99]. */
  predicate IsFaceGrid(g: Grid)
  {
    |g| == 5 && forall i :: 0 <= i < 5 ==> |g[i]| == 5 && forall j :: 0 <= j < 5 ==> 10 <= g[i][j] <= 99
  }

  // ---------------------------------------------------------------------------
  // The grid

  /** Row i of the drawn grid: cell (i, j) from the (5i + j)-th value of `Math.random()`. */
  function DrawnRow(draws: seq<real>, i: nat): (row: seq<int>)
    requires i < 5 && |draws| == 25 && ProblemGenerator.AllDraws(draws)
    ensures |row| == 5
    ensures forall j :: 0 <= j < 5 ==> row[j] == RandomInRange(draws[5 * i + j], 10, 99)
    ensures forall j :: 0 <= j < 5 ==> 10 <= row[j] <= 99
  {
    seq(5, j requires 0 <= j < 5 => RandomInRange(draws[5 * i + j], 10, 99))
  }

  /** The grid the generation loops draw. */
  function DrawnGrid(draws: seq<real>): (g: Grid)
    requires |draws| == 25 && ProblemGenerator.AllDraws(draws)
    ensures IsFaceGrid(g)
  {
    seq(5, i requires 0 <= i < 5 => DrawnRow(draws, i))
  }

  /** The nested loops that build the grid row by row on mount and on refresh. */
  method GenerateGrid(draws: seq<real>) returns (grid: Grid)
    requires |draws| == 25 && ProblemGenerator.AllDraws(draws)
    ensures grid == DrawnGrid(draws)
  {
    ghost var target := DrawnGrid(draws);
    grid := [];
    var i := 0;
    while i < 5
      invariant 0 <= i <= 5
      invariant grid == target[..i]
    {
      var row := [];
      var j := 0;
      while j < 5
        invariant 0 <= j <= 5
        invariant row == target[i][..j]
      {
        row := row + [RandomInRange(draws[5 * i + j], 10, 99)];
        j := j + 1;
      }
      assert row == target[i];
      grid := grid + [row];
      i := i + 1;
    }
  }

  // ---------------------------------------------------------------------------
  // Sums

  /** calculateRowSum: the sum of a row, 0 for a row that does not exist. */
  function RowTotal(grid: Grid, i: int): (r: int)
    ensures IsFaceGrid(grid) && 0 <= i < 5 ==> 50 <= r <= 495
  {
    if 0 <= i < |grid| then
      SumBetween(grid[i], 10, 99);
      Sum(grid[i])
    else 0
  }

  /** `gridData[i]?.[j] || 0`. */
  function CellOrZero(grid: Grid, i: int, j: int): int
  {
    if 0 <= i < |grid| && 0 <= j < |grid[i]| then grid[i][j] else 0
  }

  /** The sum of column j over the first n rows. */
  function ColumnPrefix(grid: Grid, j: int, n: nat): (r: int)
    ensures IsFaceGrid(grid) && 0 <= j < 5 && n <= 5 ==> 10 * n <= r <= 99 * n
  {
    if n == 0 then 0 else ColumnPrefix(grid, j, n - 1) + CellOrZero(grid, n - 1, j)
  }

  /** The column sum the page expects: column j over five rows. */
  function ColumnTotal(grid: Grid, j: int): (r: int)
    ensures IsFaceGrid(grid) && 0 <= j < 5 ==> 50 <= r <= 495
  {
    ColumnPrefix(grid, j, 5)
  }

  /** The sum of the row sums of the first n rows. */
  function RowsPrefix(grid: Grid, n: nat): (r: int)
    ensures IsFaceGrid(grid) && n <= 5 ==> 50 * n <= r <= 495 * n
  {
    if n == 0 then 0 else RowsPrefix(grid, n - 1) + RowTotal(grid, n - 1)
  }

  /** The grand total the page expects: the five row sums added up. */
  function GrandTotalOf(grid: Grid): (r: int)
    ensures IsFaceGrid(grid) ==> 250 <= r <= 2475
  {
    RowsPrefix(grid, 5)
  }

  /** calculateColumnSum. */
  method CalculateColumnSum(grid: Grid, j: int) returns (sum: int)
    ensures sum == ColumnTotal(grid, j)
  {
    sum := 0;
    var i := 0;
    while i < 5
      invariant 0 <= i <= 5
      invariant sum == ColumnPrefix(grid, j, i)
    {
      sum := sum + (if 0 <= i < |grid| && 0 <= j < |grid[i]| then grid[i][j] else 0);
      i := i + 1;
    }
  }

  /** calculateGrandTotal. */
  method CalculateGrandTotal(grid: Grid) returns (total: int)
    ensures total == GrandTotalOf(grid)
  {
    total := 0;
    var i := 0;
    while i < 5
      invariant 0 <= i <= 5
      invariant total == RowsPrefix(grid, i)
    {
      total := total + RowTotal(grid, i);
      i := i + 1;
    }
  }

  // Summing the table both ways

  /** Row i over the first m columns. */
  function RowPrefix(grid: Grid, i: int, m: nat): int
  {
    if m == 0 then 0 else RowPrefix(grid, i, m - 1) + CellOrZero(grid, i, m - 1)
  }

  /** The first n rows by m columns, row by row. */
  function TableByRows(grid: Grid, n: nat, m: nat): int
  {
    if n == 0 then 0 else TableByRows(grid, n - 1, m) + RowPrefix(grid, n - 1, m)
  }

  /** The first n rows by m columns, column by column. */
  function TableByColumns(grid: Grid, n: nat, m: nat): int
  {
    if m == 0 then 0 else TableByColumns(grid, n, m - 1) + ColumnPrefix(grid, m - 1, n)
  }

  /** The five column totals added up. */
  function SumOfColumnTotals(grid: Grid): int
  {
    TableByColumns(grid, 5, 5)
  }

  lemma {:induction false} RowPrefixIsSum(grid: Grid, i: nat, m: nat)
    requires i < |grid| && m <= |grid[i]|
    ensures RowPrefix(grid, i, m) == Sum(grid[i][..m])
    decreases m
  {
    if m > 0 {
      assert grid[i][..m][..m - 1] == grid[i][..m - 1];
      RowPrefixIsSum(grid, i, m - 1);
    }
  }

  lemma {:induction false} NoRowsNoTotal(grid: Grid, m: nat)
    ensures TableByColumns(grid, 0, m) == 0
    decreases m
  {
    if m > 0 {
      NoRowsNoTotal(grid, m - 1);
    }
  }

  /** Adding a row to the table adds that row's prefix to the column-wise total. */
  lemma {:induction false} TableByColumnsLastRow(grid: Grid, n: nat, m: nat)
    requires n >= 1
    ensures TableByColumns(grid, n, m) == TableByColumns(grid, n - 1, m) + RowPrefix(grid, n - 1, m)
    decreases m
  {
    if m > 0 {
      TableByColumnsLastRow(grid, n, m - 1);
    }
  }

  lemma {:induction false} TableBothWays(grid: Grid, n: nat, m: nat)
    ensures TableByRows(grid, n, m) == TableByColumns(grid, n, m)
    decreases n
  {
    if n == 0 {
      NoRowsNoTotal(grid, m);
    } else {
      TableBothWays(grid, n - 1, m);
      TableByColumnsLastRow(grid, n, m);
    }
  }

  lemma {:induction false} RowsPrefixIsTable(grid: Grid, n: nat)
    requires n <= 5 && IsFaceGrid(grid)
    ensures RowsPrefix(grid, n) == TableByRows(grid, n, 5)
    decreases n
  {
    if n > 0 {
      RowsPrefixIsTable(grid, n - 1);
      RowPrefixIsSum(grid, n - 1, 5);
      assert grid[n - 1][..5] == grid[n - 1];
    }
  }

  /** The grand total is also the sum of the five column sums. */
  lemma GrandTotalIsSumOfColumns(grid: Grid)
    requires IsFaceGrid(grid)
    ensures GrandTotalOf(grid) == SumOfColumnTotals(grid)
  {
    RowsPrefixIsTable(grid, 5);
    TableBothWays(grid, 5, 5);
  }

  // ---------------------------------------------------------------------------
  // Checking all answers

  /** The keys of the eleven sum inputs: rows 0-4, columns 0-4 and the grand total. */
  predicate IsFaceKey(k: Key)
  {
    match k
    case RowSum(i) => 0 <= i < 5
    case ColSum(j) => 0 <= j < 5
    case GrandTotal => true
    case Cell(_, _) => false
  }

  const FaceKeys: set<Key> := {RowSum(0), RowSum(1), RowSum(2), RowSum(3), RowSum(4),
                              ColSum(0), ColSum(1), ColSum(2), ColSum(3), ColSum(4), GrandTotal}

  lemma FaceKeysAreEleven()
    ensures forall k :: k in FaceKeys <==> IsFaceKey(k)
    ensures |FaceKeys| == 11
  {
  }

  /** The expected value for a sum input. */
  function Expected(grid: Grid, k: Key): int
    requires IsFaceKey(k)
  {
    match k
    case RowSum(i) => RowTotal(grid, i)
    case ColSum(j) => ColumnTotal(grid, j)
    case GrandTotal => GrandTotalOf(grid)
  }

  /** The entry is neither `undefined` nor `null`. */
  predicate Filled(answers: Answers, k: Key)
  {
    k in answers && answers[k].Some?
  }

  /** The entry is filled and is not the expected value. */
  predicate Wrong(grid: Grid, answers: Answers, k: Key)
    requires IsFaceKey(k)
  {
    Filled(answers, k) && answers[k].value != Expected(grid, k)
  }

  /** The sum inputs that hold a number. */
  function CheckedKeys(answers: Answers): set<Key>
  {
    set k | k in answers && IsFaceKey(k) && Filled(answers, k)
  }

  /** The sum inputs that hold a number other than the expected one. */
  function IncorrectKeys(grid: Grid, answers: Answers): set<Key>
  {
    set k | k in answers && IsFaceKey(k) && Wrong(grid, answers, k)
  }

  /** The keys the check has visited after `rows` row inputs, `cols` column inputs and perhaps the grand total. */
  predicate Visited(k: Key, rows: int, cols: int, grand: bool)
  {
    match k
    case RowSum(i) => 0 <= i < rows
    case ColSum(j) => 0 <= j < cols
    case GrandTotal => grand
    case Cell(_, _) => false
  }

  /** One input of the check: a filled entry is marked checked, and incorrect when it differs from `correct`. */
  method Visit(answers: Answers, key: Key, correct: int, checked: set<Key>, incorrect: set<Key>)
    returns (checked': set<Key>, incorrect': set<Key>)
    ensures checked' == if Filled(answers, key) then checked + {key} else checked
    ensures incorrect' == if Filled(answers, key) && answers[key].value != correct then incorrect + {key} else incorrect
  {
    checked', incorrect' := checked, incorrect;
    var entry := Lookup(answers, key);
    if entry.Some? && entry.value.Some? {
      checked' := checked' + {key};
      if entry.value.value != correct {
        incorrect' := incorrect' + {key};
      }
    }
  }

  /**
   * handleCheckAllAnswers: visits the five row sums, the five column sums and
   * the grand total, checking each filled entry against its expected value.
   */
  method CheckAll(grid: Grid, answers: Answers) returns (checked: set<Key>, incorrect: set<Key>)
    ensures checked == CheckedKeys(answers)
    ensures incorrect == IncorrectKeys(grid, answers)
  {
    checked, incorrect := {}, {};
    var i := 0;
    while i < 5
      invariant 0 <= i <= 5
      invariant forall k :: k in checked <==> Visited(k, i, 0, false) && Filled(answers, k)
      invariant forall k :: k in incorrect <==> Visited(k, i, 0, false) && Wrong(grid, answers, k)
    {
      checked, incorrect := Visit(answers, RowSum(i), RowTotal(grid, i), checked, incorrect);
      i := i + 1;
    }
    var j := 0;
    while j < 5
      invariant 0 <= j <= 5
      invariant forall k :: k in checked <==> Visited(k, 5, j, false) && Filled(answers, k)
      invariant forall k :: k in incorrect <==> Visited(k, 5, j, false) && Wrong(grid, answers, k)
    {
      var correct := CalculateColumnSum(grid, j);
      checked, incorrect := Visit(answers, ColSum(j), correct, checked, incorrect);
      j := j + 1;
    }
    var correctGrandTotal := CalculateGrandTotal(grid);
    checked, incorrect := Visit(answers, GrandTotal, correctGrandTotal, checked, incorrect);
    assert forall k :: Visited(k, 5, 5, true) <==> IsFaceKey(k);
  }

  /** At most the eleven sum inputs are checked, and only checked ones are incorrect. */
  lemma CheckAllBounds(grid: Grid, answers: Answers)
    ensures CheckedKeys(answers) <= FaceKeys
    ensures |CheckedKeys(answers)| <= 11
    ensures IncorrectKeys(grid, answers) <= CheckedKeys(answers)
  {
    FaceKeysAreEleven();
    assert CheckedKeys(answers) <= FaceKeys;
    SubsetCardinality(CheckedKeys(answers), FaceKeys);
  }

  lemma SubsetCardinality(a: set<Key>, b: set<Key>)
    requires a <= b
    ensures |a| <= |b|
  {
    assert b == a + (b - a);
  }

  /** The statistics after a full check are consistent and the accuracy is a percentage. */
  lemma CheckAllScore(grid: Grid, answers: Answers)
    ensures Consistent(ScoreOf(CheckedKeys(answers), IncorrectKeys(grid, answers)))
    ensures 0 <= ScoreOf(CheckedKeys(answers), IncorrectKeys(grid, answers)).accuracy <= 100
    ensures ScoreOf(CheckedKeys(answers), IncorrectKeys(grid, answers)).answered <= 11
  {
    CheckAllBounds(grid, answers);
    ScoreOfConsistent(CheckedKeys(answers), IncorrectKeys(grid, answers));
  }

  /**
   * On any grid: a correct first row sum, a first column sum one too large and
   * a correct grand total give three checked answers, one of them incorrect,
   * and an accuracy of 67.
   */
  lemma CheckAllExample(grid: Grid)
    requires IsFaceGrid(grid)
    ensures var answers := map[RowSum(0) := Some(RowTotal(grid, 0)),
                               ColSum(0) := Some(ColumnTotal(grid, 0) + 1),
                               GrandTotal := Some(GrandTotalOf(grid))];
            var s := ScoreOf(CheckedKeys(answers), IncorrectKeys(grid, answers));
            && s.checked == {RowSum(0), ColSum(0), GrandTotal}
            && s.incorrect == {ColSum(0)}
            && s.correct == 2 && s.wrong == 1 && s.answered == 3 && s.accuracy == 67
  {
    var answers := map[RowSum(0) := Some(RowTotal(grid, 0)),
                       ColSum(0) := Some(ColumnTotal(grid, 0) + 1),
                       GrandTotal := Some(GrandTotalOf(grid))];
    assert answers.Keys == {RowSum(0), ColSum(0), GrandTotal};
    assert IsFaceKey(RowSum(0)) && IsFaceKey(ColSum(0)) && IsFaceKey(GrandTotal);
    assert !Wrong(grid, answers, RowSum(0)) && Wrong(grid, answers, ColSum(0)) && !Wrong(grid, answers, GrandTotal);
    var checked := CheckedKeys(answers);
    var incorrect := IncorrectKeys(grid, answers);
    assert checked == {RowSum(0), ColSum(0), GrandTotal};
    assert incorrect == {ColSum(0)};
    assert checked - incorrect == {RowSum(0), GrandTotal};
    assert checked * incorrect == {ColSum(0)};
    assert |checked| == 3 && |checked - incorrect| == 2 && |checked * incorrect| == 1;
    assert Percentage(2, 3) == 67;
  }

  // ---------------------------------------------------------------------------
  // The page

  /** The page's state and the grid component's own answer map. */
  class FaceTwoSession {
    var grid: Grid
    /** The page's copy of the answers, which the check reads. */
    var userAnswers: Answers
    /** The grid component's own map, seeded from the page's on mount and published on every change. */
    var gridAnswers: Answers
    var score: Score

    ghost predicate Valid()
      reads this
    {
      IsFaceGrid(grid) && Consistent(score) && score.checked <= FaceKeys
    }

    /** Mounting: a fresh grid, nothing entered, nothing checked. */
    constructor (draws: seq<real>)
      requires |draws| == 25 && ProblemGenerator.AllDraws(draws)
      ensures grid == DrawnGrid(draws)
      ensures userAnswers == map[] && gridAnswers == map[] && score == NoScore
      ensures Valid()
    {
      var g := GenerateGrid(draws);
      grid := g;
      userAnswers, gridAnswers := map[], map[];
      score := NoScore;
    }

    /** Typing into a sum input: the grid updates its map and publishes all of it to the page. */
    method EnterText(key: Key, text: string)
      requires Valid() && IsNumberText(text)
      modifies this`gridAnswers, this`userAnswers
      ensures gridAnswers == FaceTwoGrid.InputChange(old(gridAnswers), key, text)
      ensures userAnswers == gridAnswers
      ensures Valid()
    {
      gridAnswers := FaceTwoGrid.InputChange(gridAnswers, key, text);
      userAnswers := gridAnswers;
    }

    /** The Check All button is enabled once the page's map holds any entry. */
    predicate CanCheck()
      reads this
    {
      |userAnswers| > 0
    }

    /** handleCheckAllAnswers: the score is recomputed from scratch from the grid and the page's answers. */
    method CheckAllAnswers()
      requires Valid()
      modifies this`score
      ensures score == ScoreOf(CheckedKeys(userAnswers), IncorrectKeys(grid, userAnswers))
      ensures Valid()
    {
      var checked, incorrect := CheckAll(grid, userAnswers);
      CheckAllBounds(grid, userAnswers);
      ScoreOfConsistent(checked, incorrect);
      score := Summarize(checked, incorrect);
    }

    /** handleRefreshProblems: a new grid, the page's answers and score cleared; the grid component keeps its map. */
    method Refresh(draws: seq<real>)
      requires |draws| == 25 && ProblemGenerator.AllDraws(draws)
      modifies this`grid, this`userAnswers, this`score
      ensures grid == DrawnGrid(draws)
      ensures userAnswers == map[] && score == NoScore
      ensures gridAnswers == old(gridAnswers)
      ensures Valid()
    {
      var g := GenerateGrid(draws);
      grid := g;
      userAnswers := map[];
      score := NoScore;
    }

    /** Going home asks for confirmation when something was entered but nothing checked. */
    predicate AsksBeforeLeaving()
      reads this
    {
      |score.checked| == 0 && |userAnswers| > 0
    }
  }
}
