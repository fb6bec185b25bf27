/**
 * The cross-table grid component: ten row headers against ten column headers,
 * one number input per pair. It keeps its own answer map, shows the operation
 * symbol in the corner, colours inputs from the page's key sets and moves the
 * focus with Enter and the arrow keys.
 */
module PracticeGrid {
  import opened Wrappers
  import opened Numbers
  import opened Scoring

  /** The corner symbol: the four operations, and `+` for any other type name. */
  function OperationSymbol(kind: string): (sym: string)
    ensures |sym| == 1
    ensures kind == "addition" ==> sym == "+"
    ensures kind == "subtraction" ==> sym == "−"
    ensures kind == "multiplication" ==> sym == "×"
    ensures kind == "division" ==> sym == "÷"
    ensures kind !in {"subtraction", "multiplication", "division"} ==> sym == "+"
  {
    match kind
    case "addition" => "+"
    case "subtraction" => "−"
    case "multiplication" => "×"
    case "division" => "÷"
    case _ => "+"
  }

  /** The four operations have four different symbols. */
  lemma OperationSymbolsDistinct()
    ensures OperationSymbol("addition") != OperationSymbol("subtraction")
    ensures OperationSymbol("addition") != OperationSymbol("multiplication")
    ensures OperationSymbol("addition") != OperationSymbol("division")
    ensures OperationSymbol("subtraction") != OperationSymbol("multiplication")
    ensures OperationSymbol("subtraction") != OperationSymbol("division")
    ensures OperationSymbol("multiplication") != OperationSymbol("division")
  {
  }

  /**
   * The grid's own answer for a cell (computed for every input while
   * rendering, though nothing it renders uses it).
   */
  function CalculateAnswer(kind: string, rowNum: int, colNum: int): (r: int)
    ensures rowNum >= 0 && colNum >= 0 ==> r >= 0
    ensures kind == "subtraction" ==> r >= 0 && r >= rowNum - colNum
    ensures kind == "division" && rowNum >= 0 && colNum >= 0 ==> r <= rowNum
  {
    match kind
    case "addition" => rowNum + colNum
    case "subtraction" => if rowNum - colNum > 0 then rowNum - colNum else 0
    case "multiplication" => rowNum * colNum
    case "division" => if colNum != 0 then FloorDiv(rowNum, colNum) else 0
    case _ => rowNum + colNum
  }

  /**
   * Typing into the input of the cell (rowNum, colNum): its key, which is made
   * of the two header values, gets the parsed entry; every other key keeps its
   * entry.
   */
  function InputChange(answers: Answers, rowNum: int, colNum: int, text: string): (r: Answers)
    requires IsNumberText(text)
    ensures Lookup(r, Cell(rowNum, colNum)) == Some(ParseEntry(text))
    ensures text == "" ==> Lookup(r, Cell(rowNum, colNum)) == Some(None)
    ensures forall k :: k != Cell(rowNum, colNum) ==> Lookup(r, k) == Lookup(answers, k)
  {
    EnterAnswer(answers, Cell(rowNum, colNum), ParseEntry(text))
  }

  // ---------------------------------------------------------------------------
  // Keyboard navigation

  /** A grid position: row index and column index, not header values. */
  datatype Position = Position(row: nat, col: nat)

  /**
   * The position a key press asks to move to: Enter and ArrowDown go one row
   * down, ArrowUp one row up, ArrowLeft and ArrowRight one column across, and
   * none of them leaves the grid. Other keys do nothing.
   */
  function KeyTarget(keyName: string, at: Position, rows: nat, cols: nat): (t: Option<Position>)
    requires at.row < rows && at.col < cols
    ensures t.Some? ==> t.value.row < rows && t.value.col < cols
    ensures t.Some? ==> Distance(at, t.value) == 1
    ensures keyName !in NavigationKeys ==> t == None
    ensures t.Some? && keyName in {"ArrowRight", "ArrowLeft"} ==> t.value.row == at.row
    ensures t.Some? && keyName in {"Enter", "ArrowDown", "ArrowUp"} ==> t.value.col == at.col
    ensures keyName in {"Enter", "ArrowDown"} ==> (t.Some? <==> at.row + 1 < rows) && (t.Some? ==> t.value.row > at.row)
    ensures keyName == "ArrowUp" ==> (t.Some? <==> at.row > 0) && (t.Some? ==> t.value.row < at.row)
    ensures keyName == "ArrowRight" ==> (t.Some? <==> at.col + 1 < cols) && (t.Some? ==> t.value.col > at.col)
    ensures keyName == "ArrowLeft" ==> (t.Some? <==> at.col > 0) && (t.Some? ==> t.value.col < at.col)
  {
    match keyName
    case "Enter" => if at.row < rows - 1 then Some(Position(at.row + 1, at.col)) else None
    case "ArrowRight" => if at.col < cols - 1 then Some(Position(at.row, at.col + 1)) else None
    case "ArrowLeft" => if at.col > 0 then Some(Position(at.row, at.col - 1)) else None
    case "ArrowDown" => if at.row < rows - 1 then Some(Position(at.row + 1, at.col)) else None
    case "ArrowUp" => if at.row > 0 then Some(Position(at.row - 1, at.col)) else None
    case _ => None
  }

  /** The keys that move the focus. */
  const NavigationKeys: set<string> := {"Enter", "ArrowDown", "ArrowUp", "ArrowRight", "ArrowLeft"}

  /** How far apart two positions are: rows apart plus columns apart. */
  function Distance(p: Position, q: Position): nat
  {
    (if p.row < q.row then q.row - p.row else p.row - q.row) +
    (if p.col < q.col then q.col - p.col else p.col - q.col)
  }

  /**
   * Opposite keys undo each other: wherever there is room to go down, going
   * down then up comes back to the start, and likewise up then down, right
   * then left and left then right. Enter goes where ArrowDown goes.
   */
  lemma KeyTargetReverses(at: Position, rows: nat, cols: nat)
    requires at.row < rows && at.col < cols
    ensures KeyTarget("Enter", at, rows, cols) == KeyTarget("ArrowDown", at, rows, cols)
    ensures at.row + 1 < rows ==> var t := KeyTarget("ArrowDown", at, rows, cols);
            t.Some? && KeyTarget("ArrowUp", t.value, rows, cols) == Some(at)
    ensures at.row > 0 ==> var t := KeyTarget("ArrowUp", at, rows, cols);
            t.Some? && KeyTarget("ArrowDown", t.value, rows, cols) == Some(at)
    ensures at.col + 1 < cols ==> var t := KeyTarget("ArrowRight", at, rows, cols);
            t.Some? && KeyTarget("ArrowLeft", t.value, rows, cols) == Some(at)
    ensures at.col > 0 ==> var t := KeyTarget("ArrowLeft", at, rows, cols);
            t.Some? && KeyTarget("ArrowRight", t.value, rows, cols) == Some(at)
  {
  }

  /** The answer key of the input at a position: the two header values. */
  function CellKeyAt(rowHeaders: seq<int>, columnHeaders: seq<int>, p: Position): Key
    requires p.row < |rowHeaders| && p.col < |columnHeaders|
  {
    Cell(rowHeaders[p.row], columnHeaders[p.col])
  }

  /** The n-th input in render order, row by row. */
  function PositionOf(n: nat, cols: nat): Position
    requires cols > 0
  {
    Position(n / cols, n % cols)
  }

  /** An input's place in render order. */
  function RenderIndex(p: Position, cols: nat): nat
  {
    p.row * cols + p.col
  }

  lemma PositionInGrid(n: nat, rows: nat, cols: nat)
    requires cols > 0 && n < rows * cols
    ensures PositionOf(n, cols).row < rows && PositionOf(n, cols).col < cols
    ensures RenderIndex(PositionOf(n, cols), cols) == n
  {
    var q := n / cols;
    MulMonotone(cols, rows, q);
    assert cols * q <= n;
  }

  /** A position inside the grid comes before the end of render order. */
  lemma IndexInGrid(p: Position, rows: nat, cols: nat)
    requires p.row < rows && p.col < cols
    ensures RenderIndex(p, cols) < rows * cols
  {
    MulMonotone(cols, p.row + 1, rows);
    assert cols * (p.row + 1) == p.row * cols + cols;
  }

  /** The key of the m-th input in render order. */
  function KeyOfIndex(rowHeaders: seq<int>, columnHeaders: seq<int>, m: nat): Key
    requires |columnHeaders| > 0 && m < |rowHeaders| * |columnHeaders|
  {
    PositionInGrid(m, |rowHeaders|, |columnHeaders|);
    CellKeyAt(rowHeaders, columnHeaders, PositionOf(m, |columnHeaders|))
  }

  /** Render order numbers the positions one to one. */
  lemma PositionOfIndex(p: Position, cols: nat)
    requires cols > 0 && p.col < cols
    ensures PositionOf(RenderIndex(p, cols), cols) == p
  {
    var n := RenderIndex(p, cols);
    var q, r := n / cols, n % cols;
    assert (q - p.row) * cols == p.col - r;
    MulMonotone(cols, 1, q - p.row);
    MulMonotone(cols, q - p.row, -1);
  }

  /**
   * The input the ref map holds for `key` once the first `n` inputs in render
   * order have registered themselves: each registration overwrites the entry
   * for its key, so the map holds the last input with that key.
   */
  function RegisteredInput(rowHeaders: seq<int>, columnHeaders: seq<int>, key: Key, n: nat): (p: Option<Position>)
    requires |columnHeaders| > 0 && n <= |rowHeaders| * |columnHeaders|
    ensures p.Some? ==> p.value.row < |rowHeaders| && p.value.col < |columnHeaders|
    ensures p.Some? ==> CellKeyAt(rowHeaders, columnHeaders, p.value) == key
    ensures (exists m :: 0 <= m < n && KeyOfIndex(rowHeaders, columnHeaders, m) == key) ==> p.Some?
    ensures p.Some? ==> RenderIndex(p.value, |columnHeaders|) < n
    ensures p.Some? ==> forall m :: RenderIndex(p.value, |columnHeaders|) < m < n ==>
              KeyOfIndex(rowHeaders, columnHeaders, m) != key
    decreases n
  {
    if n == 0 then None
    else
      PositionInGrid(n - 1, |rowHeaders|, |columnHeaders|);
      var p := PositionOf(n - 1, |columnHeaders|);
      if CellKeyAt(rowHeaders, columnHeaders, p) == key then Some(p)
      else RegisteredInput(rowHeaders, columnHeaders, key, n - 1)
  }

  /**
   * handleKeyDown as written: it builds the key of the target position from
   * its header values and focuses whatever input the ref map holds for that
   * key.
   */
  function FocusAfterKey(keyName: string, at: Position, rowHeaders: seq<int>, columnHeaders: seq<int>): (f: Option<Position>)
    requires at.row < |rowHeaders| && at.col < |columnHeaders|
    ensures f.Some? ==> f.value.row < |rowHeaders| && f.value.col < |columnHeaders|
    ensures f.Some? ==>
      var t := KeyTarget(keyName, at, |rowHeaders|, |columnHeaders|);
      t.Some? && CellKeyAt(rowHeaders, columnHeaders, f.value) == CellKeyAt(rowHeaders, columnHeaders, t.value)
    ensures KeyTarget(keyName, at, |rowHeaders|, |columnHeaders|).Some? ==> f.Some?
  {
    match KeyTarget(keyName, at, |rowHeaders|, |columnHeaders|)
    case None => None
    case Some(t) =>
      IndexInGrid(t, |rowHeaders|, |columnHeaders|);
      PositionOfIndex(t, |columnHeaders|);
      assert KeyOfIndex(rowHeaders, columnHeaders, RenderIndex(t, |columnHeaders|)) == CellKeyAt(rowHeaders, columnHeaders, t);
      RegisteredInput(rowHeaders, columnHeaders, CellKeyAt(rowHeaders, columnHeaders, t), |rowHeaders| * |columnHeaders|)
  }

  /** No value appears twice. */
  predicate Distinct(s: seq<int>)
  {
    forall i, j :: 0 <= i < j < |s| ==> s[i] != s[j]
  }

  /** With distinct headers each key names one input, and the ref map finds it. */
  lemma {:induction false} RegisteredUnique(rowHeaders: seq<int>, columnHeaders: seq<int>, t: Position, n: nat)
    requires Distinct(rowHeaders) && Distinct(columnHeaders)
    requires t.row < |rowHeaders| && t.col < |columnHeaders|
    requires RenderIndex(t, |columnHeaders|) < n <= |rowHeaders| * |columnHeaders|
    ensures RegisteredInput(rowHeaders, columnHeaders, CellKeyAt(rowHeaders, columnHeaders, t), n) == Some(t)
    decreases n
  {
    var cols := |columnHeaders|;
    PositionInGrid(n - 1, |rowHeaders|, cols);
    var p := PositionOf(n - 1, cols);
    if n - 1 == RenderIndex(t, cols) {
      PositionOfIndex(t, cols);
    } else {
      assert p != t;
      assert CellKeyAt(rowHeaders, columnHeaders, p) != CellKeyAt(rowHeaders, columnHeaders, t) by {
        if p.row != t.row {
          assert rowHeaders[p.row] != rowHeaders[t.row];
        } else {
          assert columnHeaders[p.col] != columnHeaders[t.col];
        }
      }
      RegisteredUnique(rowHeaders, columnHeaders, t, n - 1);
    }
  }

  /** With distinct headers the focus lands on the position the key asked for. */
  lemma FocusReachesTargetWhenDistinct(keyName: string, at: Position, rowHeaders: seq<int>, columnHeaders: seq<int>)
    requires at.row < |rowHeaders| && at.col < |columnHeaders|
    requires Distinct(rowHeaders) && Distinct(columnHeaders)
    ensures FocusAfterKey(keyName, at, rowHeaders, columnHeaders) == KeyTarget(keyName, at, |rowHeaders|, |columnHeaders|)
  {
    var target := KeyTarget(keyName, at, |rowHeaders|, |columnHeaders|);
    if target.Some? {
      var t := target.value;
      var cols := |columnHeaders|;
      IndexInGrid(t, |rowHeaders|, cols);
      RegisteredUnique(rowHeaders, columnHeaders, t, |rowHeaders| * cols);
    }
  }

  /**
   * With a repeated row header the focus skips: from the first of three rows
   * headed 5, Enter focuses the third row instead of the second.
   */
  lemma FocusSkipsRepeatedHeader()
    ensures KeyTarget("Enter", Position(0, 0), 3, 1) == Some(Position(1, 0))
    ensures FocusAfterKey("Enter", Position(0, 0), [5, 5, 5], [3]) == Some(Position(2, 0))
  {
    assert PositionOf(2, 1) == Position(2, 0);
    assert CellKeyAt([5, 5, 5], [3], Position(2, 0)) == Cell(5, 3);
  }

  /**
   * Inputs whose header values agree share one answer entry: typing into one
   * shows the same entry in the other.
   */
  lemma EqualHeadersShareEntry(rowHeaders: seq<int>, columnHeaders: seq<int>, p: Position, q: Position,
                               answers: Answers, text: string)
    requires p.row < |rowHeaders| && p.col < |columnHeaders|
    requires q.row < |rowHeaders| && q.col < |columnHeaders|
    requires rowHeaders[p.row] == rowHeaders[q.row] && columnHeaders[p.col] == columnHeaders[q.col]
    requires IsNumberText(text)
    ensures Lookup(InputChange(answers, rowHeaders[p.row], columnHeaders[p.col], text),
                   CellKeyAt(rowHeaders, columnHeaders, q)) == Some(ParseEntry(text))
  {
  }
}
