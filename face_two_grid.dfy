/**
 * The sums-grid component: a grid of numbers with an input after each row
 * (its sum), an input under each of the five columns (its sum) and one for
 * the grand total. It keeps its own answer map and moves the focus with
 * Enter through the inputs in the order they registered.
 */
module FaceTwoGrid {
  import opened Wrappers
  import opened Scoring

  /** Typing into the input of `key`: it gets the parsed entry, every other key keeps its entry. */
  function InputChange(answers: Answers, key: Key, text: string): (r: Answers)
    requires IsNumberText(text)
    ensures Lookup(r, key) == Some(ParseEntry(text))
    ensures forall k :: k != key ==> Lookup(r, k) == Lookup(answers, k)
  {
    EnterAnswer(answers, key, ParseEntry(text))
  }

  /**
   * The keys of the ref map in insertion order: the row-sum inputs of the
   * grid's rows top to bottom, then the five column-sum inputs, then the grand
   * total. Later re-registrations keep a key's place.
   */
  function RegistrationOrder(rows: nat): (order: seq<Key>)
    ensures |order| == rows + 6
    ensures forall i :: 0 <= i < rows ==> order[i] == RowSum(i)
    ensures forall j :: 0 <= j < 5 ==> order[rows + j] == ColSum(j)
    ensures order[rows + 5] == GrandTotal
  {
    seq(rows, i => RowSum(i)) + seq(5, j => ColSum(j)) + [GrandTotal]
  }

  /** No key is registered twice. */
  lemma RegistrationOrderDistinct(rows: nat)
    ensures forall a, b :: 0 <= a < b < rows + 6 ==> RegistrationOrder(rows)[a] != RegistrationOrder(rows)[b]
  {
    var order := RegistrationOrder(rows);
    forall a, b | 0 <= a < b < rows + 6
      ensures order[a] != order[b]
    {
      if b < rows {
        assert order[a] == RowSum(a) && order[b] == RowSum(b);
      } else if a >= rows && b < rows + 5 {
        assert order[a] == ColSum(a - rows) && order[b] == ColSum(b - rows);
      }
    }
  }

  /** `Array.prototype.indexOf`: the first position of `k`, or -1. */
  function IndexOf(s: seq<Key>, k: Key): (i: int)
    ensures -1 <= i < |s|
    ensures i >= 0 ==> s[i] == k && forall p :: 0 <= p < i ==> s[p] != k
    ensures i == -1 ==> k !in s
  {
    if |s| == 0 then -1
    else if s[0] == k then 0
    else
      var rest := IndexOf(s[1..], k);
      if rest == -1 then -1 else rest + 1
  }

  /**
   * handleKeyDown for Enter: the key after `key` in registration order, none
   * after the last one. A key that is not registered has index -1, so the
   * focus goes to the first registered input.
   */
  function NextFocus(order: seq<Key>, key: Key): (next: Option<Key>)
    ensures next.Some? ==> next.value in order
    ensures (forall a, b :: 0 <= a < b < |order| ==> order[a] != order[b]) && |order| > 0 && key == order[|order| - 1]
            ==> next == None
  {
    IndexOfLast(order);
    var i := IndexOf(order, key);
    if i < |order| - 1 then Some(order[i + 1]) else None
  }

  /**
   * Enter walks the row sums top to bottom, then the column sums left to
   * right, then the grand total, and stops there.
   */
  lemma EnterWalksSumsInOrder(rows: nat)
    requires rows >= 1
    ensures forall i :: 0 <= i < rows - 1 ==> NextFocus(RegistrationOrder(rows), RowSum(i)) == Some(RowSum(i + 1))
    ensures NextFocus(RegistrationOrder(rows), RowSum(rows - 1)) == Some(ColSum(0))
    ensures forall j :: 0 <= j < 4 ==> NextFocus(RegistrationOrder(rows), ColSum(j)) == Some(ColSum(j + 1))
    ensures NextFocus(RegistrationOrder(rows), ColSum(4)) == Some(GrandTotal)
    ensures NextFocus(RegistrationOrder(rows), GrandTotal) == None
  {
    var order := RegistrationOrder(rows);
    RegistrationOrderDistinct(rows);
    forall i | 0 <= i < rows - 1
      ensures NextFocus(order, RowSum(i)) == Some(RowSum(i + 1))
    {
      NextFocusOfDistinct(order, i);
      assert order[i] == RowSum(i) && order[i + 1] == RowSum(i + 1);
    }
    NextFocusOfDistinct(order, rows - 1);
    assert order[rows - 1] == RowSum(rows - 1) && order[rows] == ColSum(0);
    forall j | 0 <= j < 4
      ensures NextFocus(order, ColSum(j)) == Some(ColSum(j + 1))
    {
      NextFocusOfDistinct(order, rows + j);
      assert order[rows + j] == ColSum(j) && order[rows + j + 1] == ColSum(j + 1);
    }
    NextFocusOfDistinct(order, rows + 4);
    assert order[rows + 4] == ColSum(4);
    NextFocusOfDistinct(order, rows + 5);
  }

  /** In a registration order without repeats, Enter goes from each input to the next one, and nowhere from the last. */
  lemma NextFocusOfDistinct(order: seq<Key>, p: nat)
    requires p < |order|
    requires forall a, b :: 0 <= a < b < |order| ==> order[a] != order[b]
    ensures p < |order| - 1 ==> NextFocus(order, order[p]) == Some(order[p + 1])
    ensures p == |order| - 1 ==> NextFocus(order, order[p]) == None
  {
    IndexOfDistinct(order, p);
  }

  /** A key that never registered sends the focus to the first registered input. */
  lemma UnregisteredKeyFocusesFirst(order: seq<Key>, key: Key)
    requires key !in order && |order| >= 1
    ensures NextFocus(order, key) == Some(order[0])
  {
  }

  /** In a sequence without repeats, indexOf finds the last element at the last position. */
  lemma IndexOfLast(s: seq<Key>)
    ensures (forall a, b :: 0 <= a < b < |s| ==> s[a] != s[b]) && |s| > 0 ==> IndexOf(s, s[|s| - 1]) == |s| - 1
  {
    if (forall a, b :: 0 <= a < b < |s| ==> s[a] != s[b]) && |s| > 0 {
      IndexOfDistinct(s, |s| - 1);
    }
  }

  /** In a sequence without repeats, indexOf finds each element at its own position. */
  lemma IndexOfDistinct(s: seq<Key>, p: nat)
    requires p < |s|
    requires forall a, b :: 0 <= a < b < |s| ==> s[a] != s[b]
    ensures IndexOf(s, s[p]) == p
  {
    var i := IndexOf(s, s[p]);
    assert s[i] == s[p];
  }
}
