/** ui/widget/stateful.rs: the wrap-around item cursor shared by the list and table widgets. */
module Stateful {
  import opened Wrappers
  import opened Ints

  /** The source converts the selection and the length to `i32`; the model asks that both fit, with room
      for one step forward. */
  predicate Fits(selected: Option<nat>, length: nat) {
    length < I32_LIMIT && (selected.Some? ==> selected.value + 1 < I32_LIMIT)
  }

  /** `select`: one step in `direction` (1 or -1) from the selection over `length` items. No selection
      starts at 0, a step before 0 lands on the last item and a step at or past the end is reduced modulo
      the length; with no items the selection is cleared. */
  function Select(selected: Option<nat>, length: nat, direction: int): (r: Option<nat>)
    requires Fits(selected, length)
    requires direction == 1 || direction == -1
    ensures r.None? <==> length == 0
    ensures r.Some? ==> r.value < length
  {
    if length > 0 then
      var nextIndex := match selected case Some(i) => i + direction case None => 0;
      var index :=
        if nextIndex < 0 then length + nextIndex
        else if nextIndex >= length then nextIndex % length
        else nextIndex;
      Some(index)
    else None
  }

  /** `select_next`. */
  function SelectNext(selected: Option<nat>, length: nat): (r: Option<nat>)
    requires Fits(selected, length)
    ensures r.None? <==> length == 0
    ensures r.Some? ==> r.value < length
  {
    Select(selected, length, 1)
  }

  /** `select_previous`. */
  function SelectPrevious(selected: Option<nat>, length: nat): (r: Option<nat>)
    requires Fits(selected, length)
    ensures r.None? <==> length == 0
    ensures r.Some? ==> r.value < length
  {
    Select(selected, length, -1)
  }

  /** `unselect`. */
  function Unselect(selected: Option<nat>): (r: Option<nat>)
    ensures r.None?
  {
    None
  }

  /** After `unselect` both directions start over at the first item, whatever was selected before. */
  lemma UnselectRestarts(selected: Option<nat>, length: nat)
    requires 0 < length < I32_LIMIT
    ensures SelectNext(Unselect(selected), length) == Some(0)
    ensures SelectPrevious(Unselect(selected), length) == Some(0)
  {
  }

  /** Moving forward from item `i` gives item `i + 1` modulo the length (so the last item wraps to the
      first and a stale index is reduced); from no selection it gives the first item. */
  lemma SelectNextSpec(selected: Option<nat>, length: nat)
    requires Fits(selected, length) && length > 0
    ensures selected.None? ==> SelectNext(selected, length) == Some(0)
    ensures selected.Some? ==> SelectNext(selected, length) == Some((selected.value + 1) % length)
  {
    if selected.Some? && selected.value + 1 < length {
      ModUnique(selected.value + 1, length, 0, selected.value + 1);
    }
  }

  /** Moving back from item `i > 0` gives item `i - 1` modulo the length, from the first item the last,
      and from no selection the first item. */
  lemma SelectPreviousSpec(selected: Option<nat>, length: nat)
    requires Fits(selected, length) && length > 0
    ensures selected.None? ==> SelectPrevious(selected, length) == Some(0)
    ensures selected == Some(0) ==> SelectPrevious(selected, length) == Some(length - 1)
    ensures selected.Some? && selected.value > 0 ==> SelectPrevious(selected, length) == Some((selected.value - 1) % length)
  {
    if selected.Some? && 0 < selected.value <= length {
      ModUnique(selected.value - 1, length, 0, selected.value - 1);
    }
  }

  /** Within range, a step forward then a step back returns to the same item. */
  lemma NextThenPrevious(i: nat, length: nat)
    requires i < length < I32_LIMIT
    ensures SelectPrevious(SelectNext(Some(i), length), length) == Some(i)
  {
    if i + 1 < length {
      assert SelectNext(Some(i), length) == Some(i + 1);
    } else {
      ModUnique(length, length, 1, 0);
      assert SelectNext(Some(i), length) == Some(0);
    }
  }

  /** Within range, a step back then a step forward returns to the same item. */
  lemma PreviousThenNext(i: nat, length: nat)
    requires i < length < I32_LIMIT
    ensures SelectNext(SelectPrevious(Some(i), length), length) == Some(i)
  {
    if i == 0 {
      assert SelectPrevious(Some(i), length) == Some(length - 1);
      ModUnique(length, length, 1, 0);
    } else {
      assert SelectPrevious(Some(i), length) == Some(i - 1);
    }
  }

  /** `length` steps forward from the first item come back to it. */
  function Forward(selected: Option<nat>, length: nat, steps: nat): Option<nat>
    requires Fits(selected, length)
    decreases steps
  {
    if steps == 0 || length == 0 then selected
    else Forward(SelectNext(selected, length), length, steps - 1)
  }

  /** Steps forward that stay inside the list just count up. */
  lemma {:induction false} ForwardWithin(i: nat, length: nat, k: nat)
    requires length < I32_LIMIT && i + k < length
    ensures Forward(Some(i), length, k) == Some(i + k)
    decreases k
  {
    if k > 0 {
      assert SelectNext(Some(i), length) == Some(i + 1);
      ForwardWithin(i + 1, length, k - 1);
    }
  }

  /** Steps forward compose: `a + b` steps are `a` steps followed by `b` steps. */
  lemma {:induction false} ForwardAdd(selected: Option<nat>, length: nat, a: nat, b: nat)
    requires Fits(selected, length)
    ensures Fits(Forward(selected, length, a), length)
    ensures Forward(selected, length, a + b) == Forward(Forward(selected, length, a), length, b)
    decreases a
  {
    if a > 0 && length > 0 {
      ForwardAdd(SelectNext(selected, length), length, a - 1, b);
    }
  }

  /** Stepping forward past the last item continues from the first. */
  lemma ForwardPastEnd(i: nat, length: nat, k: nat)
    requires 0 < length < I32_LIMIT && i < length <= i + k
    ensures Forward(Some(i), length, k) == Forward(Some(0), length, i + k - length)
  {
    var a := length - i;
    ForwardAdd(Some(i), length, a - 1, k - a + 1);
    ForwardWithin(i, length, a - 1);
    ModUnique(length, length, 1, 0);
    assert SelectNext(Some(length - 1), length) == Some(0);
    assert Forward(Some(length - 1), length, k - a + 1) == Forward(Some(0), length, k - a);
  }

  /** `k` steps forward from item `i` land on item `i + k` modulo the length. */
  lemma {:induction false} ForwardShift(i: nat, length: nat, k: nat)
    requires 0 < length < I32_LIMIT && i < length
    ensures Forward(Some(i), length, k) == Some((i + k) % length)
    decreases k
  {
    if i + k < length {
      ForwardWithin(i, length, k);
      ModUnique(i + k, length, 0, i + k);
    } else {
      var n := i + k - length;
      ForwardPastEnd(i, length, k);
      ForwardShift(0, length, n);
      ModShift(n, length);
      assert i + k == n + length;
    }
  }

  /** The cursor is cyclic: `length` steps forward from any item return to it. */
  lemma ForwardCycle(i: nat, length: nat)
    requires i < length < I32_LIMIT
    ensures Forward(Some(i), length, length) == Some(i)
  {
    ForwardShift(i, length, length);
    ModUnique(i + length, length, 1, i);
  }
}
