/**
 * The multi-operand problem generator: batches of problems whose operands are
 * drawn from a digit range and whose answers are computed per operation.
 *
 * `Math.random()` is not modelled: each generator takes the values it would
 * have returned, `samples[i][j]` being the draw for operand j of problem i.
 */
module ProblemGenerator {
  import opened Numbers
  import Sorting

  /** One generated problem: its operands and the answer accepted for it. */
  datatype Problem = Problem(numbers: seq<int>, answer: int)

  // ---------------------------------------------------------------------------
  // Draws

  /** Every value lies in [0, 1), as `Math.random()` promises. */
  predicate AllDraws(draws: seq<real>)
  {
    forall k :: 0 <= k < |draws| ==> 0.0 <= draws[k] < 1.0
  }

  /** One row of `numCount` draws for each of `total` problems. */
  predicate ValidSamples(samples: seq<seq<real>>, numCount: nat, total: nat)
  {
    |samples| == total &&
    forall i :: 0 <= i < |samples| ==> |samples[i]| == numCount && AllDraws(samples[i])
  }

  /** The operands that one row of draws produces in [lo, hi]. */
  function Draw(draws: seq<real>, lo: int, hi: int): (ns: seq<int>)
    requires lo <= hi && AllDraws(draws)
    ensures |ns| == |draws|
    ensures forall k :: 0 <= k < |ns| ==> lo <= ns[k] <= hi
  {
    seq(|draws|, k requires 0 <= k < |draws| => RandomInRange(draws[k], lo, hi))
  }

  /** The inner push loop: one sampled operand per draw, in draw order. */
  method DrawOperands(draws: seq<real>, lo: int, hi: int) returns (numbers: seq<int>)
    requires lo <= hi && AllDraws(draws)
    ensures numbers == Draw(draws, lo, hi)
  {
    numbers := [];
    var j := 0;
    while j < |draws|
      invariant 0 <= j <= |draws|
      invariant numbers == Draw(draws[..j], lo, hi)
    {
      numbers := numbers + [RandomInRange(draws[j], lo, hi)];
      j := j + 1;
    }
    assert draws[..j] == draws;
  }

  /** The smallest division operand: 1 for one digit, so no divisor is ever 0. */
  function DivisionMin(digits: nat): (m: int)
    requires digits >= 1
    ensures m >= 1
    ensures digits >= 2 ==> m == MinForDigits(digits)
  {
    if digits == 1 then 1 else MinForDigits(digits)
  }

  // ---------------------------------------------------------------------------
  // Answer rules

  function Abs(x: int): int
  {
    if x < 0 then -x else x
  }

  /** The values do not increase from left to right. */
  predicate Descending(s: seq<int>)
  {
    forall i, j :: 0 <= i < j < |s| ==> s[i] >= s[j]
  }

  /**
   * The dividend `s[0]` divided by each later operand in turn, with
   * `Math.floor` after every step. With positive divisors the steps lose
   * nothing: it is one floored division by the product of the divisors.
   */
  function ChainDiv(s: seq<int>): (q: int)
    requires |s| >= 1
    requires forall k :: 1 <= k < |s| ==> s[k] != 0
    ensures (forall k :: 1 <= k < |s| ==> s[k] > 0) ==> q == FloorDiv(s[0], Product(s[1..]))
  {
    if |s| == 1 then
      assert s[1..] == [];
      s[0]
    else
      var init, d := s[..|s| - 1], s[|s| - 1];
      assert s[1..][..|s| - 2] == init[1..];
      FloorDivNested(s[0], Product(init[1..]), d);
      FloorDiv(ChainDiv(init), d)
  }

  /** With positive divisors the quotient stays between 0 and the dividend. */
  lemma {:induction false} ChainDivBounds(s: seq<int>)
    requires |s| >= 1 && s[0] >= 0
    requires forall k :: 1 <= k < |s| ==> s[k] >= 1
    ensures 0 <= ChainDiv(s) <= s[0]
    decreases |s|
  {
    if |s| > 1 {
      var init := s[..|s| - 1];
      ChainDivBounds(init);
      var q := ChainDiv(init);
      var d := s[|s| - 1];
      assert ChainDiv(s) == q / d;
      assert q / d <= q by {
        MulMonotone(q / d, 1, d);
      }
    }
  }

  /** `answer -= numbers[j]` for every operand after the first. */
  method SubtractRest(numbers: seq<int>) returns (answer: int)
    requires |numbers| >= 1
    ensures answer == numbers[0] - Sum(numbers[1..])
  {
    answer := numbers[0];
    var j := 1;
    while j < |numbers|
      invariant 1 <= j <= |numbers|
      invariant answer == numbers[0] - Sum(numbers[1..j])
    {
      assert numbers[1..j + 1][..j - 1] == numbers[1..j];
      answer := answer - numbers[j];
      j := j + 1;
    }
    assert numbers[1..j] == numbers[1..];
  }

  /** `answer *= num` for every operand, starting from 1. */
  method MultiplyAll(numbers: seq<int>) returns (answer: int)
    ensures answer == Product(numbers)
  {
    answer := 1;
    var j := 0;
    while j < |numbers|
      invariant 0 <= j <= |numbers|
      invariant answer == Product(numbers[..j])
    {
      assert numbers[..j + 1][..j] == numbers[..j];
      answer := answer * numbers[j];
      j := j + 1;
    }
    assert numbers[..j] == numbers;
  }

  /** `answer = Math.floor(answer / numbers[j])` for every operand after the first. */
  method DivideRest(numbers: seq<int>) returns (answer: int)
    requires |numbers| >= 1
    requires forall k :: 1 <= k < |numbers| ==> numbers[k] != 0
    ensures answer == ChainDiv(numbers)
  {
    answer := numbers[0];
    var j := 1;
    while j < |numbers|
      invariant 1 <= j <= |numbers|
      invariant answer == ChainDiv(numbers[..j])
    {
      assert numbers[..j + 1][..j] == numbers[..j];
      answer := FloorDiv(answer, numbers[j]);
      j := j + 1;
    }
    assert numbers[..j] == numbers;
  }

  // ---------------------------------------------------------------------------
  // What each generator promises of one problem

  ghost predicate IsSubtractionProblem(p: Problem, drawn: seq<int>)
  {
    && |p.numbers| >= 1
    && multiset(p.numbers) == multiset(drawn)
    && Descending(p.numbers)
    && p.answer == Abs(p.numbers[0] - Sum(p.numbers[1..]))
  }

  ghost predicate IsDivisionProblem(p: Problem, drawn: seq<int>)
  {
    && p.numbers == drawn
    && |drawn| >= 1
    && (forall k :: 0 <= k < |drawn| ==> drawn[k] >= 1)
    && p.answer == ChainDiv(drawn)
  }

  // ---------------------------------------------------------------------------
  // The generators

  /** `generateAdditionProblems`: the answer is the sum of the operands. */
  method GenerateAddition(digitCount: nat, numCount: nat, total: nat, samples: seq<seq<real>>)
    returns (problems: seq<Problem>)
    requires digitCount >= 1
    requires ValidSamples(samples, numCount, total)
    ensures |problems| == total
    ensures forall i :: 0 <= i < total ==>
      var drawn := Draw(samples[i], MinForDigits(digitCount), MaxForDigits(digitCount));
      problems[i] == Problem(drawn, Sum(drawn))
  {
    var maxNum := MaxForDigits(digitCount);
    var minNum := if digitCount == 1 then 0 else MinForDigits(digitCount);
    DigitRangeOrdered(digitCount);
    problems := [];
    var i := 0;
    while i < total
      invariant 0 <= i <= total
      invariant |problems| == i
      invariant forall k :: 0 <= k < i ==>
        var drawn := Draw(samples[k], minNum, maxNum);
        problems[k] == Problem(drawn, Sum(drawn))
    {
      var numbers := DrawOperands(samples[i], minNum, maxNum);
      var answer := Sum(numbers);
      problems := problems + [Problem(numbers, answer)];
      i := i + 1;
    }
  }

  /**
   * `generateSubtractionProblems`: the operands are sorted in place into
   * descending order, and the answer is the first operand minus the rest,
   * made non-negative.
   */
  method GenerateSubtraction(digitCount: nat, numCount: nat, total: nat, samples: seq<seq<real>>)
    returns (problems: seq<Problem>)
    requires digitCount >= 1 && numCount >= 1
    requires ValidSamples(samples, numCount, total)
    ensures |problems| == total
    ensures forall i :: 0 <= i < total ==>
      IsSubtractionProblem(problems[i], Draw(samples[i], MinForDigits(digitCount), MaxForDigits(digitCount)))
  {
    var maxNum := MaxForDigits(digitCount);
    var minNum := if digitCount == 1 then 0 else MinForDigits(digitCount);
    DigitRangeOrdered(digitCount);
    problems := [];
    var i := 0;
    while i < total
      invariant 0 <= i <= total
      invariant |problems| == i
      invariant forall k :: 0 <= k < i ==>
        IsSubtractionProblem(problems[k], Draw(samples[k], minNum, maxNum))
    {
      var drawn := DrawOperands(samples[i], minNum, maxNum);
      var p := SubtractionProblem(drawn);
      problems := problems + [p];
      i := i + 1;
    }
  }

  /** Sorts one problem's operands in place and computes its answer. */
  method SubtractionProblem(drawn: seq<int>) returns (p: Problem)
    requires |drawn| >= 1
    ensures IsSubtractionProblem(p, drawn)
  {
    var numbers := new int[|drawn|](k requires 0 <= k < |drawn| => drawn[k]);
    assert numbers[..] == drawn;
    Sorting.SortBy(numbers, x => -x);
    var sorted := numbers[..];
    assert Descending(sorted) by {
      forall i, j | 0 <= i < j < |sorted| ensures sorted[i] >= sorted[j] {
        assert (x => -x)(sorted[i]) <= (x => -x)(sorted[j]);
      }
    }
    assert |sorted| == |multiset(sorted)| == |multiset(drawn)| >= 1;
    var answer := SubtractRest(sorted);
    if answer < 0 {
      answer := Abs(answer);
    }
    p := Problem(sorted, answer);
  }

  /** `generateMultiplicationProblems`: the answer is the product of the operands. */
  method GenerateMultiplication(digitCount: nat, numCount: nat, total: nat, samples: seq<seq<real>>)
    returns (problems: seq<Problem>)
    requires digitCount >= 1
    requires ValidSamples(samples, numCount, total)
    ensures |problems| == total
    ensures forall i :: 0 <= i < total ==>
      var drawn := Draw(samples[i], MinForDigits(digitCount), MaxForDigits(digitCount));
      problems[i] == Problem(drawn, Product(drawn))
  {
    var maxNum := MaxForDigits(digitCount);
    var minNum := if digitCount == 1 then 0 else MinForDigits(digitCount);
    DigitRangeOrdered(digitCount);
    problems := [];
    var i := 0;
    while i < total
      invariant 0 <= i <= total
      invariant |problems| == i
      invariant forall k :: 0 <= k < i ==>
        var drawn := Draw(samples[k], minNum, maxNum);
        problems[k] == Problem(drawn, Product(drawn))
    {
      var numbers := DrawOperands(samples[i], minNum, maxNum);
      var answer := MultiplyAll(numbers);
      problems := problems + [Problem(numbers, answer)];
      i := i + 1;
    }
  }

  /**
   * `generateDivisionProblems`: operands come from [DivisionMin, max], so every
   * divisor is at least 1, and the answer is the chained floor division.
   */
  method GenerateDivision(digitCount: nat, numCount: nat, total: nat, samples: seq<seq<real>>)
    returns (problems: seq<Problem>)
    requires digitCount >= 1 && numCount >= 1
    requires ValidSamples(samples, numCount, total)
    ensures |problems| == total
    ensures forall i :: 0 <= i < total ==>
      IsDivisionProblem(problems[i], Draw(samples[i], DivisionMin(digitCount), MaxForDigits(digitCount)))
  {
    var maxNum := MaxForDigits(digitCount);
    var minNum := DivisionMin(digitCount);
    problems := [];
    var i := 0;
    while i < total
      invariant 0 <= i <= total
      invariant |problems| == i
      invariant forall k :: 0 <= k < i ==>
        IsDivisionProblem(problems[k], Draw(samples[k], minNum, maxNum))
    {
      var numbers := DrawOperands(samples[i], minNum, maxNum);
      var answer := DivideRest(numbers);
      problems := problems + [Problem(numbers, answer)];
      i := i + 1;
    }
  }

  /** Division answers lie between 0 and the dividend. */
  lemma DivisionAnswerBounds(p: Problem, drawn: seq<int>)
    requires IsDivisionProblem(p, drawn)
    ensures 0 <= p.answer <= p.numbers[0]
  {
    ChainDivBounds(drawn);
  }

  /** Subtraction answers are never negative, and are `max - min` for two operands. */
  lemma SubtractionAnswerShape(p: Problem, drawn: seq<int>)
    requires IsSubtractionProblem(p, drawn)
    ensures p.answer >= 0
    ensures |p.numbers| == |drawn|
    ensures |drawn| == 2 ==> p.answer == p.numbers[0] - p.numbers[1] && p.numbers[0] >= p.numbers[1]
  {
    assert |p.numbers| == |multiset(p.numbers)| == |multiset(drawn)| == |drawn|;
    if |drawn| == 2 {
      assert p.numbers[1..] == [p.numbers[1]];
      assert [p.numbers[1]][..0] == [];
      assert Sum(p.numbers[1..]) == p.numbers[1];
      assert p.numbers[0] >= p.numbers[1];
    }
  }

  /** Sorting keeps each subtraction operand inside the digit range. */
  lemma SubtractionOperandsInRange(p: Problem, drawn: seq<int>, lo: int, hi: int)
    requires IsSubtractionProblem(p, drawn)
    requires forall k :: 0 <= k < |drawn| ==> lo <= drawn[k] <= hi
    ensures forall k :: 0 <= k < |p.numbers| ==> lo <= p.numbers[k] <= hi
  {
    forall k | 0 <= k < |p.numbers| ensures lo <= p.numbers[k] <= hi {
      assert p.numbers[k] in multiset(drawn);
    }
  }

  /**
   * `generateProblems`: dispatches on the operation name and returns no
   * problems for any other name.
   */
  method GenerateProblems(kind: string, digitCount: nat, numCount: nat, total: nat, samples: seq<seq<real>>)
    returns (problems: seq<Problem>)
    requires digitCount >= 1
    requires kind == "subtraction" || kind == "division" ==> numCount >= 1
    requires ValidSamples(samples, numCount, total)
    ensures kind in {"addition", "subtraction", "multiplication", "division"} ==> |problems| == total
    ensures kind !in {"addition", "subtraction", "multiplication", "division"} ==> problems == []
    ensures kind == "addition" ==> forall i :: 0 <= i < total ==>
      var drawn := Draw(samples[i], MinForDigits(digitCount), MaxForDigits(digitCount));
      problems[i] == Problem(drawn, Sum(drawn))
    ensures kind == "subtraction" ==> forall i :: 0 <= i < total ==>
      IsSubtractionProblem(problems[i], Draw(samples[i], MinForDigits(digitCount), MaxForDigits(digitCount)))
    ensures kind == "multiplication" ==> forall i :: 0 <= i < total ==>
      var drawn := Draw(samples[i], MinForDigits(digitCount), MaxForDigits(digitCount));
      problems[i] == Problem(drawn, Product(drawn))
    ensures kind == "division" ==> forall i :: 0 <= i < total ==>
      IsDivisionProblem(problems[i], Draw(samples[i], DivisionMin(digitCount), MaxForDigits(digitCount)))
  {
    match kind
    case "addition" =>
      problems := GenerateAddition(digitCount, numCount, total, samples);
    case "subtraction" =>
      problems := GenerateSubtraction(digitCount, numCount, total, samples);
    case "multiplication" =>
      problems := GenerateMultiplication(digitCount, numCount, total, samples);
    case "division" =>
      problems := GenerateDivision(digitCount, numCount, total, samples);
    case _ =>
      problems := [];
  }
}
