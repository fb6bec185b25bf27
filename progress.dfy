/**
 * The progress page: which saved sessions it shows for a route type, the
 * summary figures over them (sessions, average accuracy, problems solved,
 * total time), the accuracy trend over the last fourteen sessions, and the
 * per-row labels (operation, difficulty, accuracy badge, duration).
 */
module Progress {
  import opened Wrappers
  import opened Numbers
  import opened Sorting
  import opened Storage
  import Timer

  // ---------------------------------------------------------------------------
  // Which sessions are shown

  /**
   * The shown sessions for the route's `type` parameter: the sums-grid
   * records for `phase-two` and `face-two`, the records of the type for any
   * other non-empty type, and everything when there is no type.
   */
  function SelectResults(rs: seq<SessionResult>, kind: Option<string>): (shown: seq<SessionResult>)
    ensures kind == Some("phase-two") || kind == Some("face-two") ==>
              forall x :: x in shown <==> x in rs && TypeOf(x) == "face-two"
    ensures kind.Some? && kind.value != "" && kind.value != "phase-two" ==>
              forall x :: x in shown <==> x in rs && TypeOf(x) == kind.value
    ensures kind == None || kind == Some("") ==> shown == rs
  {
    if kind.Some? && kind.value != "" then
      if kind.value == "phase-two" || kind.value == "face-two" then
        FilterMembers(rs, "face-two");
        Filter(rs, "face-two")
      else
        FilterMembers(rs, kind.value);
        Filter(rs, kind.value)
    else rs
  }

  /** The shown sessions are saved sessions, and never more than are saved. */
  lemma SelectResultsSubset(rs: seq<SessionResult>, kind: Option<string>)
    ensures forall x :: x in SelectResults(rs, kind) ==> x in rs
    ensures |SelectResults(rs, kind)| <= |rs|
  {
  }

  // ---------------------------------------------------------------------------
  // Summary figures

  /** `results.reduce((sum, r) => sum + r.totalProblems, 0)`: non-negative when every record's count is. */
  function ProblemsSolved(rs: seq<SessionResult>): (n: int)
    ensures (forall i :: 0 <= i < |rs| ==> rs[i].totalProblems >= 0) ==> n >= 0
  {
    if rs == [] then 0
    else
      var init := rs[..|rs| - 1];
      assert forall i :: 0 <= i < |init| ==> init[i] == rs[i];
      ProblemsSolved(init) + rs[|rs| - 1].totalProblems
  }

  /** A record's time, and 0 for a sums-grid record, which has no `timeSpent` field. */
  function TimeOf(r: SessionResult): int
  {
    if r.PracticeResult? then r.timeSpent else 0
  }

  /** The sum of the records' times: sums-grid records add none, and non-negative times give a non-negative total. */
  function TotalTime(rs: seq<SessionResult>): (t: int)
    ensures (forall i :: 0 <= i < |rs| ==> rs[i].FaceTwoResult?) ==> t == 0
    ensures (forall i :: 0 <= i < |rs| ==> TimeOf(rs[i]) >= 0) ==> t >= 0
  {
    if rs == [] then 0
    else
      var init := rs[..|rs| - 1];
      assert forall i :: 0 <= i < |init| ==> init[i] == rs[i];
      TotalTime(init) + TimeOf(rs[|rs| - 1])
  }

  /** Both totals add up over a concatenation: one more session adds its own figures. */
  lemma {:induction false} TotalsAppend(a: seq<SessionResult>, b: seq<SessionResult>)
    ensures ProblemsSolved(a + b) == ProblemsSolved(a) + ProblemsSolved(b)
    ensures TotalTime(a + b) == TotalTime(a) + TotalTime(b)
    decreases |b|
  {
    if b == [] {
      assert a + b == a;
    } else {
      assert (a + b)[..|a + b| - 1] == a + b[..|b| - 1];
      TotalsAppend(a, b[..|b| - 1]);
    }
  }

  /** The figures the page shows above the history. */
  datatype Summary = Summary(sessions: nat, averageAccuracy: int, problemsSolved: int, totalTime: int)

  /**
   * The summary as the page computes it: the average comes from the store's
   * getAverageAccuracy called with the route type, the other figures from the
   * shown sessions.
   */
  function SummaryOf(rs: seq<SessionResult>, kind: Option<string>): (s: Summary)
    ensures s.sessions == |SelectResults(rs, kind)|
    ensures s.averageAccuracy == ShownAverage(rs, kind)
    ensures s.problemsSolved == ProblemsSolved(SelectResults(rs, kind))
    ensures s.totalTime == TotalTime(SelectResults(rs, kind))
  {
    var shown := SelectResults(rs, kind);
    Summary(|shown|, ShownAverage(rs, kind), ProblemsSolved(shown), TotalTime(shown))
  }

  /** `type ? getAverageAccuracy(type) : getAverageAccuracy()`, as written. */
  function ShownAverage(rs: seq<SessionResult>, kind: Option<string>): (avg: int)
    ensures (forall i :: 0 <= i < |rs| ==> 0 <= rs[i].accuracy <= 100) ==> 0 <= avg <= 100
  {
    var asked := if kind.Some? && kind.value != "" then kind else None;
    if forall i :: 0 <= i < |rs| ==> 0 <= rs[i].accuracy <= 100 then
      AverageIsPercentage(rs, asked);
      Average(AverageSelection(rs, asked))
    else
      Average(AverageSelection(rs, asked))
  }

  /**
   * The average over the sessions the page shows. For every route type but
   * `phase-two` it is the figure the page computes.
   */
  function CorrectedAverage(rs: seq<SessionResult>, kind: Option<string>): (avg: int)
    ensures kind != Some("phase-two") ==> avg == ShownAverage(rs, kind)
  {
    Average(SelectResults(rs, kind))
  }

  /** The corrected average is a percentage and lies within the accuracies of the shown sessions. */
  lemma CorrectedAverageBounds(rs: seq<SessionResult>, kind: Option<string>, lo: int, hi: int)
    requires forall i :: 0 <= i < |rs| ==> lo <= rs[i].accuracy <= hi
    ensures |SelectResults(rs, kind)| > 0 ==> lo <= CorrectedAverage(rs, kind) <= hi
    ensures |SelectResults(rs, kind)| == 0 ==> CorrectedAverage(rs, kind) == 0
  {
    var shown := SelectResults(rs, kind);
    assert forall i :: 0 <= i < |shown| ==> shown[i] in rs;
    AverageBetween(shown, lo, hi);
  }

  /**
   * On the `phase-two` route the page lists the sums-grid sessions but
   * averages the records whose type is `phase-two`, which it does not list:
   * one saved sums-grid session at 100% shows as one session at 0%.
   */
  lemma PhaseTwoAverageMismatch()
    ensures var rs := [FaceTwoResult("1", 25, 25, 0, 100, 0)];
            SummaryOf(rs, Some("phase-two")).sessions == 1
            && SummaryOf(rs, Some("phase-two")).averageAccuracy == 0
            && CorrectedAverage(rs, Some("phase-two")) == 100
  {
    var r := FaceTwoResult("1", 25, 25, 0, 100, 0);
    var rs := [r];
    assert rs[..0] == [];
    assert Filter(rs, "face-two") == [r];
    assert Filter(rs, "phase-two") == [];
    assert SelectResults(rs, Some("phase-two")) == [r];
    assert ShownAverage(rs, Some("phase-two")) == Average([]) == 0;
    assert SumAccuracy([r]) == 100;
    assert CorrectedAverage(rs, Some("phase-two")) == RoundDiv(100, 1) == 100;
  }

  // ---------------------------------------------------------------------------
  // The accuracy trend

  function Timestamp(r: SessionResult): int
  {
    r.timestamp
  }

  /** One point of the trend: the session's place in the window, its accuracy and the time its date is drawn from. */
  datatype ChartPoint = ChartPoint(session: nat, accuracy: int, timestamp: int)

  /** How many sessions the trend shows. */
  const ChartWindowSize := 14

  /** `slice(-14).map(...)` over the sorted sessions: the last fourteen, numbered from 1. */
  function ChartWindow(sorted: seq<SessionResult>): (points: seq<ChartPoint>)
    ensures |points| == if |sorted| > ChartWindowSize then ChartWindowSize else |sorted|
  {
    var start := if |sorted| > ChartWindowSize then |sorted| - ChartWindowSize else 0;
    var last := sorted[start..];
    seq(|last|, i requires 0 <= i < |last| => ChartPoint(i + 1, last[i].accuracy, last[i].timestamp))
  }

  /**
   * Over sessions sorted by time, the window numbers its points 1, 2, ...,
   * copies each accuracy unchanged from the session at the same place among
   * the most recent ones, keeps them in time order, and drops only sessions
   * no later than any it keeps.
   */
  lemma ChartWindowProperties(sorted: seq<SessionResult>)
    requires SortedBy(sorted, Timestamp)
    ensures var points := ChartWindow(sorted);
            var start := |sorted| - |points|;
            (forall i :: 0 <= i < |points| ==> points[i].session == i + 1)
            && (forall i :: 0 <= i < |points| ==>
                  points[i].accuracy == sorted[start + i].accuracy
                  && points[i].timestamp == sorted[start + i].timestamp)
            && (forall i, j :: 0 <= i < j < |points| ==> points[i].timestamp <= points[j].timestamp)
            && (forall d, i :: 0 <= d < start && 0 <= i < |points| ==> sorted[d].timestamp <= points[i].timestamp)
  {
    var points := ChartWindow(sorted);
    var start := |sorted| - |points|;
    forall i | 0 <= i < |points|
      ensures points[i].accuracy == sorted[start + i].accuracy
      ensures points[i].timestamp == sorted[start + i].timestamp
    {
      assert sorted[start..][i] == sorted[start + i];
    }
    forall i, j | 0 <= i < j < |points|
      ensures points[i].timestamp <= points[j].timestamp
    {
      assert Timestamp(sorted[start + i]) <= Timestamp(sorted[start + j]);
    }
    forall d, i | 0 <= d < start && 0 <= i < |points|
      ensures sorted[d].timestamp <= points[i].timestamp
    {
      assert Timestamp(sorted[d]) <= Timestamp(sorted[start + i]);
    }
  }

  /**
   * chartData: sorts the page's result list in place by ascending time and
   * builds the window over it.
   */
  method ChartData(results: array<SessionResult>) returns (points: seq<ChartPoint>)
    modifies results
    ensures SortedBy(results[..], Timestamp)
    ensures multiset(results[..]) == multiset(old(results[..]))
    ensures points == ChartWindow(results[..])
  {
    SortBy(results, Timestamp);
    points := ChartWindow(results[..]);
  }

  // ---------------------------------------------------------------------------
  // Row labels

  /** getOperationLabel: a fixed label for the six known tags, the tag itself otherwise. */
  function OperationLabel(op: string): (name: string)
    ensures op == "addition" ==> name == "Addition"
    ensures op == "subtraction" ==> name == "Subtraction"
    ensures op == "multiplication" ==> name == "Multiplication"
    ensures op == "division" ==> name == "Division"
    ensures op == "phase-two" || op == "face-two" ==> name == "Phase Two Calculation"
    ensures op !in KnownTags ==> name == op
  {
    match op
    case "addition" => "Addition"
    case "subtraction" => "Subtraction"
    case "multiplication" => "Multiplication"
    case "division" => "Division"
    case "phase-two" => "Phase Two Calculation"
    case "face-two" => "Phase Two Calculation"
    case _ => op
  }

  const KnownTags: set<string> := {"addition", "subtraction", "multiplication", "division", "phase-two", "face-two"}

  /** The four operations get four different labels; the two sums-grid tags share one. */
  lemma OperationLabelsDistinct()
    ensures |{OperationLabel("addition"), OperationLabel("subtraction"),
              OperationLabel("multiplication"), OperationLabel("division")}| == 4
    ensures OperationLabel("phase-two") == OperationLabel("face-two")
    ensures forall op :: op in KnownTags ==> OperationLabel(op) !in KnownTags
  {
  }

  /**
   * The difficulty cell: `5×5` for a record of type `phase-two` (no record
   * has a grid size, so the default 5 is used), otherwise the digit count
   * followed by `-Digit`, with `-` for the count when the record has none.
   */
  function Difficulty(r: SessionResult): (text: string)
    ensures text == "5×5" <==> TypeOf(r) == "phase-two"
    ensures TypeOf(r) != "phase-two" ==> |text| >= 6 && text[|text| - 6..] == "-Digit"
  {
    if TypeOf(r) == "phase-two" then "5×5"
    else (if r.PracticeResult? then ShowInt(r.digits) else "-") + "-Digit"
  }

  /**
   * A practice record shows its digit count, which reads back from the label;
   * a sums-grid record, whose type is `face-two`, shows `--Digit`.
   */
  lemma DifficultyLabels(r: SessionResult)
    ensures r.PracticeResult? && r.kind != "phase-two" && r.digits >= 0 ==>
              var text := Difficulty(r);
              |text| > 6 && text[|text| - 6..] == "-Digit" && ParseDigits(text[..|text| - 6]) == r.digits
    ensures r.FaceTwoResult? ==> Difficulty(r) == "--Digit"
    ensures TypeOf(r) == "phase-two" ==> Difficulty(r) == "5×5"
  {
    if r.PracticeResult? && r.kind != "phase-two" && r.digits >= 0 {
      var text := Difficulty(r);
      var digits := ShowNat(r.digits);
      assert text == digits + "-Digit";
      assert text[..|text| - 6] == digits;
      ParseShow(r.digits);
    }
  }

  /** The colour of the accuracy badge. */
  datatype Badge = Green | Yellow | Red

  /** Green from 80, red below 60, yellow between. */
  function AccuracyBadge(accuracy: int): (b: Badge)
    ensures b == Green <==> accuracy >= 80
    ensures b == Red <==> accuracy < 60
  {
    if accuracy >= 80 then Green else if accuracy >= 60 then Yellow else Red
  }

  /** Where a badge ranks: red below yellow below green. */
  function BadgeRank(b: Badge): nat
  {
    match b
    case Red => 0
    case Yellow => 1
    case Green => 2
  }

  /** The three bands cover every accuracy without overlap, and a higher accuracy never gets a lower badge. */
  lemma AccuracyBands(a: int, b: int)
    ensures AccuracyBadge(a) == Green <==> a >= 80
    ensures AccuracyBadge(a) == Yellow <==> 60 <= a < 80
    ensures AccuracyBadge(a) == Red <==> a < 60
    ensures a <= b ==> BadgeRank(AccuracyBadge(a)) <= BadgeRank(AccuracyBadge(b))
  {
  }

  // ---------------------------------------------------------------------------
  // Durations

  /** formatTime: `Xh Ym` from an hour on (the seconds are not shown), `Ym Zs` from a minute on, else `Zs`. */
  function FormatDuration(seconds: nat): (text: string)
    ensures |text| >= 2
    ensures 'h' in text <==> seconds >= 3600
    ensures text[|text| - 1] == (if seconds >= 3600 then 'm' else 's')
  {
    var hrs, mins, secs := Timer.Hours(seconds), Timer.Minutes(seconds), Timer.Seconds(seconds);
    if hrs > 0 then ShowNat(hrs) + "h " + ShowNat(mins) + "m"
    else if mins > 0 then ShowNat(mins) + "m " + ShowNat(secs) + "s"
    else ShowNat(secs) + "s"
  }

  /** The number of decimal digits at the front of `s`. */
  function DigitRun(s: string): (k: nat)
    ensures k <= |s|
  {
    if s == [] || !IsDigit(s[0]) then 0 else 1 + DigitRun(s[1..])
  }

  lemma {:induction false} DigitRunOfDigits(digits: string, rest: string)
    requires forall i :: 0 <= i < |digits| ==> IsDigit(digits[i])
    requires rest == [] || !IsDigit(rest[0])
    ensures DigitRun(digits + rest) == |digits|
    decreases |digits|
  {
    if digits == [] {
      assert digits + rest == rest;
    } else {
      assert (digits + rest)[1..] == digits[1..] + rest;
      DigitRunOfDigits(digits[1..], rest);
    }
  }

  /** Reads one `<number><unit>` term: its value, its unit letter and what follows it. */
  function ReadTerm(s: string): (int, char, string)
  {
    var k := DigitRun(s);
    if k < |s| then (ParseDigits(s[..k]), s[k], s[k + 1..]) else (ParseDigits(s), ' ', [])
  }

  lemma ReadTermOfShown(n: nat, unit: char, rest: string)
    requires !IsDigit(unit)
    ensures ReadTerm(ShowNat(n) + [unit] + rest) == (n, unit, rest)
  {
    var digits := ShowNat(n);
    var s := digits + [unit] + rest;
    assert s == digits + ([unit] + rest);
    DigitRunOfDigits(digits, [unit] + rest);
    assert s[..|digits|] == digits;
    assert s[|digits| + 1..] == rest;
    ParseShow(n);
  }

  function UnitSeconds(unit: char): int
  {
    if unit == 'h' then 3600 else if unit == 'm' then 60 else if unit == 's' then 1 else 0
  }

  /** Reads a duration text back as seconds: one term, or two separated by a space. */
  function ReadDuration(text: string): int
  {
    var (v1, u1, rest) := ReadTerm(text);
    var first := UnitSeconds(u1) * v1;
    if |rest| > 0 && rest[0] == ' ' then
      var (v2, u2, _) := ReadTerm(rest[1..]);
      first + UnitSeconds(u2) * v2
    else first
  }

  /** A two-term text reads back as the sum of its terms. */
  lemma ReadTwoTerms(a: nat, u1: char, b: nat, u2: char)
    requires !IsDigit(u1) && !IsDigit(u2)
    ensures ReadDuration(ShowNat(a) + [u1] + " " + ShowNat(b) + [u2]) == UnitSeconds(u1) * a + UnitSeconds(u2) * b
  {
    var tail := ShowNat(b) + [u2];
    assert ShowNat(a) + [u1] + " " + ShowNat(b) + [u2] == ShowNat(a) + [u1] + (" " + tail);
    ReadTermOfShown(a, u1, " " + tail);
    assert (" " + tail)[1..] == tail;
    assert tail == ShowNat(b) + [u2] + [];
    ReadTermOfShown(b, u2, []);
  }

  /** A one-term text reads back as its term. */
  lemma ReadOneTerm(a: nat, u: char)
    requires !IsDigit(u)
    ensures ReadDuration(ShowNat(a) + [u]) == UnitSeconds(u) * a
  {
    assert ShowNat(a) + [u] == ShowNat(a) + [u] + [];
    ReadTermOfShown(a, u, []);
  }

  /** The duration text keeps every second below an hour, and from an hour on everything but the seconds. */
  lemma DurationReadsBack(t: nat)
    ensures t < 3600 ==> ReadDuration(FormatDuration(t)) == t
    ensures t >= 3600 ==> ReadDuration(FormatDuration(t)) == t - Timer.Seconds(t)
  {
    Timer.ClockDecomposition(t);
    var h, m, s := Timer.Hours(t), Timer.Minutes(t), Timer.Seconds(t);
    if h > 0 {
      assert FormatDuration(t) == ShowNat(h) + "h" + " " + ShowNat(m) + "m";
      ReadTwoTerms(h, 'h', m, 'm');
    } else if m > 0 {
      assert FormatDuration(t) == ShowNat(m) + "m" + " " + ShowNat(s) + "s";
      ReadTwoTerms(m, 'm', s, 's');
    } else {
      assert FormatDuration(t) == ShowNat(s) + "s";
      ReadOneTerm(s, 's');
    }
  }
}
