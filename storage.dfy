/**
 * The result history kept in the browser's local storage under one key: a
 * list of session records, read back as an empty list when the key is
 * missing or its text cannot be parsed.
 */
module Storage {
  import opened Wrappers
  import opened Numbers

  /** One saved session: a cross-table practice run or a sums-grid run. */
  datatype SessionResult =
    | PracticeResult(id: string, kind: string, digits: int, totalProblems: int,
                     correctAnswers: int, incorrectAnswers: int, accuracy: int,
                     timeSpent: int, timestamp: int)
    | FaceTwoResult(id: string, totalProblems: int, correctAnswers: int,
                    incorrectAnswers: int, accuracy: int, timestamp: int)

  /** The record's `type` field; a sums-grid record always says `face-two`. */
  function TypeOf(r: SessionResult): string
  {
    match r
    case PracticeResult(_, kind, _, _, _, _, _, _, _) => kind
    case FaceTwoResult(_, _, _, _, _, _) => "face-two"
  }

  /** What the storage key holds: nothing (or the empty text), text that does not parse, or a saved list. */
  datatype Stored = Missing | Unreadable | Saved(results: seq<SessionResult>)

  /** getStorageData: the saved list, and an empty one when there is none or it cannot be read. */
  function Read(s: Stored): (results: seq<SessionResult>)
    ensures s.Saved? ==> results == s.results
    ensures !s.Saved? ==> results == []
  {
    match s
    case Saved(rs) => rs
    case _ => []
  }

  // ---------------------------------------------------------------------------
  // Queries on a list of records

  /** `results.filter((r) => r.type === t)`. */
  function Filter(rs: seq<SessionResult>, t: string): (f: seq<SessionResult>)
    ensures |f| <= |rs|
    ensures forall i :: 0 <= i < |f| ==> TypeOf(f[i]) == t
  {
    if rs == [] then []
    else
      var init := Filter(rs[..|rs| - 1], t);
      var last := rs[|rs| - 1];
      assert rs == rs[..|rs| - 1] + [last];
      if TypeOf(last) == t then init + [last] else init
  }

  /** The filter keeps exactly the records of type `t`. */
  lemma {:induction false} FilterMembers(rs: seq<SessionResult>, t: string)
    ensures forall x :: x in Filter(rs, t) <==> x in rs && TypeOf(x) == t
    decreases |rs|
  {
    if rs != [] {
      var init := rs[..|rs| - 1];
      FilterMembers(init, t);
      assert rs == init + [rs[|rs| - 1]];
    }
  }

  /** Filtering keeps the order: the filter of a concatenation is the concatenation of the filters. */
  lemma {:induction false} FilterAppend(a: seq<SessionResult>, b: seq<SessionResult>, t: string)
    ensures Filter(a + b, t) == Filter(a, t) + Filter(b, t)
    decreases |b|
  {
    if b == [] {
      assert a + b == a;
    } else {
      var c := a + b;
      assert c[..|c| - 1] == a + b[..|b| - 1];
      FilterAppend(a, b[..|b| - 1], t);
    }
  }

  /** `results.reduce((sum, r) => sum + r.accuracy, 0)`. */
  function SumAccuracy(rs: seq<SessionResult>): int
  {
    if rs == [] then 0 else SumAccuracy(rs[..|rs| - 1]) + rs[|rs| - 1].accuracy
  }

  /** The rounded mean accuracy of a list, 0 for an empty list. */
  function Average(rs: seq<SessionResult>): int
  {
    if |rs| == 0 then 0 else RoundDiv(SumAccuracy(rs), |rs|)
  }

  lemma {:induction false} SumAccuracyBounds(rs: seq<SessionResult>, lo: int, hi: int)
    requires forall i :: 0 <= i < |rs| ==> lo <= rs[i].accuracy <= hi
    ensures |rs| * lo <= SumAccuracy(rs) <= |rs| * hi
    decreases |rs|
  {
    if rs != [] {
      var init := rs[..|rs| - 1];
      assert forall i :: 0 <= i < |init| ==> init[i] == rs[i];
      SumAccuracyBounds(init, lo, hi);
      assert |rs| * lo == |init| * lo + lo;
      assert |rs| * hi == |init| * hi + hi;
    }
  }

  /** The average lies between the smallest and the largest accuracy averaged. */
  lemma AverageBetween(rs: seq<SessionResult>, lo: int, hi: int)
    requires forall i :: 0 <= i < |rs| ==> lo <= rs[i].accuracy <= hi
    ensures |rs| > 0 ==> lo <= Average(rs) <= hi
  {
    if |rs| > 0 {
      SumAccuracyBounds(rs, lo, hi);
      RoundDivBetween(SumAccuracy(rs), |rs|, lo, hi);
    }
  }

  /** The records getAverageAccuracy averages: `face-two`, another non-empty type, or everything. */
  function AverageSelection(rs: seq<SessionResult>, kind: Option<string>): (sel: seq<SessionResult>)
    ensures kind.Some? && kind.value != "" ==> sel == Filter(rs, kind.value)
    ensures !(kind.Some? && kind.value != "") ==> sel == rs
  {
    if kind == Some("face-two") then Filter(rs, "face-two")
    else if kind.Some? && kind.value != "" then Filter(rs, kind.value)
    else rs
  }

  /** Accuracies that are percentages average to a percentage, whatever the selection. */
  lemma AverageIsPercentage(rs: seq<SessionResult>, kind: Option<string>)
    requires forall i :: 0 <= i < |rs| ==> 0 <= rs[i].accuracy <= 100
    ensures 0 <= Average(AverageSelection(rs, kind)) <= 100
  {
    var sel := AverageSelection(rs, kind);
    if kind.Some? {
      FilterMembers(rs, kind.value);
    }
    assert forall i :: 0 <= i < |sel| ==> sel[i] in rs;
    AverageBetween(sel, 0, 100);
  }

  // ---------------------------------------------------------------------------
  // The store

  /** The local-storage entry and the functions that read and write it. */
  class HistoryStore {
    var stored: Stored

    constructor (initial: Stored)
      ensures stored == initial
    {
      stored := initial;
    }

    /** getResults: everything saved, oldest first. */
    function Results(): (rs: seq<SessionResult>)
      reads this
      ensures stored.Saved? ==> rs == stored.results
      ensures !stored.Saved? ==> rs == []
    {
      Read(stored)
    }

    /**
     * saveResult: appends the record to what reads back and writes the whole
     * list. When the write fails (a full or blocked store) the entry is left as
     * it was.
     */
    method SaveResult(r: SessionResult, writeOk: bool)
      requires r.PracticeResult?
      modifies this
      ensures writeOk ==> stored == Saved(old(Results()) + [r])
      ensures !writeOk ==> stored == old(stored)
    {
      var data := Read(stored);
      data := data + [r];
      if writeOk {
        stored := Saved(data);
      }
    }

    /** saveFaceTwoResult: the same append for a sums-grid record. */
    method SaveFaceTwoResult(r: SessionResult, writeOk: bool)
      requires r.FaceTwoResult?
      modifies this
      ensures writeOk ==> stored == Saved(old(Results()) + [r])
      ensures !writeOk ==> stored == old(stored)
    {
      var data := Read(stored);
      data := data + [r];
      if writeOk {
        stored := Saved(data);
      }
    }

    /** clearHistory: removes the entry, after which everything reads back empty. */
    method ClearHistory(removeOk: bool)
      modifies this
      ensures removeOk ==> stored == Missing && Results() == []
      ensures !removeOk ==> stored == old(stored)
    {
      if removeOk {
        stored := Missing;
      }
    }

    /** getResultsByType: the saved records of one type, in saved order. */
    function ResultsByType(t: string): (f: seq<SessionResult>)
      reads this
      ensures forall x :: x in f <==> x in Results() && TypeOf(x) == t
    {
      FilterMembers(Results(), t);
      Filter(Results(), t)
    }

    /** getFaceTwoResults: the saved sums-grid records, in saved order. */
    function FaceTwoResults(): (f: seq<SessionResult>)
      reads this
      ensures forall x :: x in f <==> x in Results() && TypeOf(x) == "face-two"
    {
      FilterMembers(Results(), "face-two");
      Filter(Results(), "face-two")
    }

    /** getAverageAccuracy: the rounded mean accuracy of the selected records, 0 if none. */
    function AverageAccuracy(kind: Option<string>): (avg: int)
      reads this
      ensures AverageSelection(Results(), kind) == [] ==> avg == 0
      ensures (forall i :: 0 <= i < |Results()| ==> 0 <= Results()[i].accuracy <= 100) ==> 0 <= avg <= 100
      ensures var sel := AverageSelection(Results(), kind);
              sel != [] ==> RoundDiv(SumAccuracy(sel), |sel|) == avg
    {
      var rs := Results();
      if forall i :: 0 <= i < |rs| ==> 0 <= rs[i].accuracy <= 100 then
        AverageIsPercentage(rs, kind);
        Average(AverageSelection(rs, kind))
      else
        Average(AverageSelection(rs, kind))
    }

    /** The average shown lies between the smallest and the largest selected accuracy. */
    lemma AverageAccuracyBetween(kind: Option<string>, lo: int, hi: int)
      requires var sel := AverageSelection(Results(), kind);
               forall i :: 0 <= i < |sel| ==> lo <= sel[i].accuracy <= hi
      ensures AverageSelection(Results(), kind) != [] ==> lo <= AverageAccuracy(kind) <= hi
    {
      AverageBetween(AverageSelection(Results(), kind), lo, hi);
    }
  }

  /** A record survives the save and reads back as the last one, field for field. */
  lemma SavedRecordReadsBack(before: seq<SessionResult>, r: SessionResult, t: string)
    ensures Read(Saved(before + [r]))[|before|] == r
    ensures Filter(Read(Saved(before + [r])), t) == Filter(before, t) + (if TypeOf(r) == t then [r] else [])
  {
    FilterAppend(before, [r], t);
    assert Filter([r], t) == Filter([], t) + (if TypeOf(r) == t then [r] else []) by {
      assert [r][..0] == [];
    }
  }
}
