/** ui/widget/search.rs: the header's text input, a character buffer with an insertion point. */
module Search {
  import opened Ints

  /** `clamp`. */
  function Clamp(x: int, min: int, max: int): (r: int)
    requires min <= max
    ensures min <= r <= max
    ensures min <= x <= max ==> r == x
    ensures x < min ==> r == min
    ensures x > max ==> r == max
  {
    if x < min then min else if x > max then max else x
  }

  /** `SearchData`: the characters typed so far and the insertion point among them. */
  datatype SearchData = SearchData(chars: seq<char>, inputPos: nat)

  /** The insertion point lies within the buffer, as `Vec::insert` and `Vec::remove` need. */
  predicate Valid(s: SearchData) {
    s.inputPos <= |s.chars|
  }

  /** `SearchData::default`. */
  function Default(): (s: SearchData)
    ensures Valid(s) && s.chars == [] && s.inputPos == 0
  {
    SearchData([], 0)
  }

  /** `append_char`: the character goes in at the insertion point, which moves past it. */
  function AppendChar(s: SearchData, c: char): (r: SearchData)
    requires Valid(s)
    ensures Valid(r)
    ensures |r.chars| == |s.chars| + 1 && r.inputPos == s.inputPos + 1
    ensures r.chars[s.inputPos] == c
    ensures r.chars[..s.inputPos] == s.chars[..s.inputPos]
    ensures r.chars[s.inputPos + 1..] == s.chars[s.inputPos..]
  {
    SearchData(s.chars[..s.inputPos] + [c] + s.chars[s.inputPos..], s.inputPos + 1)
  }

  /** `delete_char`: the character before the insertion point is removed and the point moves back onto its
      place; at the start of the buffer, or on an empty one, nothing changes. */
  function DeleteChar(s: SearchData): (r: SearchData)
    requires Valid(s)
    ensures Valid(r)
    ensures s.inputPos == 0 || |s.chars| == 0 ==> r == s
    ensures s.inputPos > 0 && |s.chars| > 0 ==>
              && r.inputPos == s.inputPos - 1
              && |r.chars| == |s.chars| - 1
              && r.chars[..r.inputPos] == s.chars[..r.inputPos]
              && r.chars[r.inputPos..] == s.chars[s.inputPos..]
  {
    if |s.chars| > 0 && s.inputPos >= 1 then
      SearchData(s.chars[..s.inputPos - 1] + s.chars[s.inputPos..], s.inputPos - 1)
    else s
  }

  /** `move_position`: the insertion point moves by `direction`, held within the buffer; an empty buffer
      keeps its point. The sum `input_pos as i32 + direction` is `i32` arithmetic: past `i32::MAX` it wraps
      to a negative value, as in a release build, and the clamp then sends the point to the start. The
      precondition keeps the two `as i32` casts exact. */
  function MovePosition(s: SearchData, direction: int): (r: SearchData)
    requires Valid(s)
    requires |s.chars| < I32_LIMIT && -I32_LIMIT <= direction < I32_LIMIT
    ensures Valid(r)
    ensures r.chars == s.chars
    ensures |s.chars| == 0 ==> r == s
    ensures |s.chars| > 0 && 0 <= s.inputPos + direction <= |s.chars| ==> r.inputPos == s.inputPos + direction
    ensures |s.chars| > 0 && s.inputPos + direction < 0 ==> r.inputPos == 0
    ensures |s.chars| > 0 && |s.chars| < s.inputPos + direction < I32_LIMIT ==> r.inputPos == |s.chars|
    ensures |s.chars| > 0 && s.inputPos + direction >= I32_LIMIT ==> r.inputPos == 0
  {
    if |s.chars| > 0 then
      var nextPos := WrapI32(s.inputPos + direction);
      s.(inputPos := Clamp(nextPos, 0, |s.chars|))
    else s
  }

  /** At the end of a buffer of `i32::MAX` characters, a step right overflows `i32` and the insertion point
      lands at the start of the buffer. */
  lemma MoveWrapsPastI32Max(s: SearchData)
    requires |s.chars| == I32_LIMIT - 1 && s.inputPos == I32_LIMIT - 1
    ensures MovePosition(s, 1).inputPos == 0
  {
  }

  /** While the buffer can still grow by a character within `i32`, the single steps of the Left and Right keys
      never wrap: they move by one and stop at the ends. */
  lemma SingleStepsNeverWrap(s: SearchData, direction: int)
    requires Valid(s) && 0 < |s.chars| && |s.chars| + 1 < I32_LIMIT
    requires direction == -1 || direction == 1
    ensures MovePosition(s, direction).inputPos == Clamp(s.inputPos + direction, 0, |s.chars|)
  {
  }

  /** `query`: the buffer's text. */
  function QueryText(s: SearchData): (q: string)
    ensures |q| == |s.chars|
    ensures forall i :: 0 <= i < |q| ==> q[i] == s.chars[i]
  {
    s.chars
  }

  /** Deleting right after appending restores the buffer and the insertion point. */
  lemma AppendThenDelete(s: SearchData, c: char)
    requires Valid(s)
    ensures DeleteChar(AppendChar(s, c)) == s
  {
    var a := AppendChar(s, c);
    assert a.chars[..s.inputPos] + a.chars[s.inputPos + 1..] == s.chars;
  }

  /** Typing characters one by one at the end of the buffer builds the query text in order. */
  lemma TypingBuildsQuery(s: SearchData, c: char)
    requires Valid(s) && s.inputPos == |s.chars|
    ensures QueryText(AppendChar(s, c)) == QueryText(s) + [c]
    ensures AppendChar(s, c).inputPos == |AppendChar(s, c).chars|
  {
  }

  /** Away from the ends of the buffer, a step left and a step right cancel. */
  lemma MoveLeftRight(s: SearchData)
    requires Valid(s) && |s.chars| < I32_LIMIT
    requires 0 < s.inputPos
    ensures MovePosition(MovePosition(s, -1), 1) == s
  {
  }
}
