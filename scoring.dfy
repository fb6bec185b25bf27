/**
 * What both practice pages share when they score answers: the keys of the
 * answer cells, the answer map, the tally of checked cells and the accuracy.
 */
module Scoring {
  import opened Wrappers
  import opened Numbers

  /**
   * The key of an answer cell. The pages build these as strings: `row-i`,
   * `col-j` and `grand-total` on the sums grid, `${rowNum}-${colNum}` (the two
   * header values) on the cross table.
   */
  datatype Key = RowSum(i: int) | ColSum(j: int) | GrandTotal | Cell(row: int, col: int)

  /**
   * The answer map. A key that is not in the map is `undefined` to
   * `Map.get`; a key mapped to `None` holds `null`, which the pages store when
   * an input is cleared.
   */
  type Answers = map<Key, Option<int>>

  /** `answers.get(key)`: None for `undefined`, Some(None) for `null`. */
  function Lookup(answers: Answers, key: Key): Option<Option<int>>
  {
    if key in answers then Some(answers[key]) else None
  }

  // ---------------------------------------------------------------------------
  // Entering answers

  predicate AllDigits(text: string)
  {
    forall i :: 0 <= i < |text| ==> IsDigit(text[i])
  }

  /**
   * What a number input reports as its value: nothing, or an integer written
   * in decimal with an optional minus sign.
   */
  predicate IsNumberText(text: string)
  {
    || text == ""
    || (|text| >= 1 && text[0] != '-' && AllDigits(text))
    || (|text| >= 2 && text[0] == '-' && AllDigits(text[1..]))
  }

  /** `value === "" ? null : parseInt(value, 10)`: a cleared input stores `null`. */
  function ParseEntry(text: string): (e: Option<int>)
    requires IsNumberText(text)
    ensures e.None? <==> text == ""
  {
    if text == "" then None
    else if text[0] == '-' then Some(-ParseDigits(text[1..]))
    else Some(ParseDigits(text))
  }

  /** Typing the decimal text of a number stores that number. */
  lemma ParseEntryOfShown(n: int)
    ensures IsNumberText(ShowInt(n))
    ensures ParseEntry(ShowInt(n)) == Some(n)
  {
    var digits := if n < 0 then ShowNat(-n) else ShowNat(n);
    assert AllDigits(digits);
    if n < 0 {
      var t := ShowInt(n);
      assert t == "-" + digits;
      assert t[1..] == digits;
      ParseShow(-n);
    } else {
      assert ShowInt(n) == digits && IsDigit(digits[0]);
      ParseShow(n);
    }
  }

  /**
   * `new Map(answers).set(key, entry)`: the copy holds `entry` at `key` and
   * agrees with the original everywhere else.
   */
  function EnterAnswer(answers: Answers, key: Key, entry: Option<int>): (r: Answers)
    ensures Lookup(r, key) == Some(entry)
    ensures forall k :: k != key ==> Lookup(r, k) == Lookup(answers, k)
    ensures r.Keys == answers.Keys + {key}
  {
    answers[key := entry]
  }

  // ---------------------------------------------------------------------------
  // Feedback

  datatype Status = Incorrect | Correct | Unchecked

  /** The colour class of an input: red if incorrect, else green if checked, else plain. */
  function CellStatus(key: Key, checked: set<Key>, incorrect: set<Key>): (st: Status)
    ensures st == Incorrect <==> key in incorrect
    ensures st == Correct <==> key in checked && key !in incorrect
    ensures st == Unchecked <==> key !in checked && key !in incorrect
  {
    if key in incorrect then Incorrect
    else if key in checked then Correct
    else Unchecked
  }

  /** Under the scoring invariant the three colours are exactly the three kinds of key. */
  lemma CellStatusPartition(key: Key, checked: set<Key>, incorrect: set<Key>)
    requires incorrect <= checked
    ensures CellStatus(key, checked, incorrect) == Incorrect <==> key in incorrect
    ensures CellStatus(key, checked, incorrect) == Correct <==> key in checked - incorrect
    ensures CellStatus(key, checked, incorrect) == Unchecked <==> key !in checked
  {
  }

  // ---------------------------------------------------------------------------
  // Statistics

  /** The statistics a page derives from its checked and incorrect key sets. */
  datatype Score = Score(
    checked: set<Key>,
    incorrect: set<Key>,
    correct: int,
    wrong: int,
    accuracy: int,
    answered: int)

  /** The state before anything has been checked. */
  const NoScore := Score({}, {}, 0, 0, 0, 0)

  /** The statistics derived from two key sets, as the `forEach` tally and the accuracy formula give them. */
  function ScoreOf(checked: set<Key>, incorrect: set<Key>): (s: Score)
    ensures s.checked == checked && s.incorrect == incorrect
    ensures s.correct + s.wrong == s.answered
    ensures 0 <= s.accuracy <= 100
  {
    assert checked == (checked - incorrect) + (checked * incorrect);
    assert (checked - incorrect) !! (checked * incorrect);
    PercentageBounds(|checked - incorrect|, |checked|);
    Score(checked, incorrect,
          |checked - incorrect|, |checked * incorrect|,
          Percentage(|checked - incorrect|, |checked|), |checked|)
  }

  /**
   * A score whose counters agree with its sets: incorrect keys are checked keys,
   * the counts split the checked keys, and the accuracy is their percentage.
   */
  predicate Consistent(s: Score)
  {
    && s.incorrect <= s.checked
    && s.correct + s.wrong == s.answered == |s.checked|
    && s.wrong == |s.incorrect|
    && s.accuracy == Percentage(s.correct, s.answered)
  }

  /** Deriving the counters from sets with incorrect within checked gives a consistent score in [0, 100]. */
  lemma ScoreOfConsistent(checked: set<Key>, incorrect: set<Key>)
    requires incorrect <= checked
    ensures Consistent(ScoreOf(checked, incorrect))
    ensures 0 <= ScoreOf(checked, incorrect).accuracy <= 100
    ensures checked == {} ==> ScoreOf(checked, incorrect).accuracy == 0
  {
    assert checked * incorrect == incorrect;
    assert checked == (checked - incorrect) + incorrect;
    PercentageBounds(|checked - incorrect|, |checked|);
  }

  lemma NoScoreConsistent()
    ensures Consistent(NoScore)
  {
  }

  /** Counting one more checked key moves exactly one of the two counts. */
  lemma TallyStep(done: set<Key>, incorrect: set<Key>, k: Key)
    requires k !in done
    ensures |(done + {k}) - incorrect| == |done - incorrect| + (if k in incorrect then 0 else 1)
    ensures |(done + {k}) * incorrect| == |done * incorrect| + (if k in incorrect then 1 else 0)
  {
    if k in incorrect {
      assert (done + {k}) * incorrect == (done * incorrect) + {k};
      assert (done + {k}) - incorrect == done - incorrect;
    } else {
      assert (done + {k}) - incorrect == (done - incorrect) + {k};
      assert (done + {k}) * incorrect == done * incorrect;
    }
  }

  /**
   * The `forEach` over the checked keys that counts those in the incorrect set
   * and those not in it.
   */
  method Tally(checked: set<Key>, incorrect: set<Key>) returns (correct: nat, wrong: nat)
    ensures correct == |checked - incorrect|
    ensures wrong == |checked * incorrect|
    ensures correct + wrong == |checked|
  {
    correct, wrong := 0, 0;
    var todo := checked;
    ghost var done: set<Key> := {};
    while todo != {}
      invariant done !! todo && done + todo == checked
      invariant correct == |done - incorrect|
      invariant wrong == |done * incorrect|
      invariant correct + wrong == |done|
      decreases |todo|
    {
      var k :| k in todo;
      TallyStep(done, incorrect, k);
      if k in incorrect {
        wrong := wrong + 1;
      } else {
        correct := correct + 1;
      }
      done := done + {k};
      todo := todo - {k};
    }
  }

  /** Tallies the sets and computes the accuracy, as both check handlers do. */
  method Summarize(checked: set<Key>, incorrect: set<Key>) returns (s: Score)
    ensures s == ScoreOf(checked, incorrect)
  {
    var correct, wrong := Tally(checked, incorrect);
    var accuracy := if |checked| > 0 then Percentage(correct, |checked|) else 0;
    s := Score(checked, incorrect, correct, wrong, accuracy, |checked|);
  }
}
