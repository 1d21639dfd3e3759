/**
 * Text as QString holds it: a sequence of UTF-16 code units, so that a surrogate pair is two
 * elements and may be split between two chunks.
 */
module Texts {
  import opened Common

  type CodeUnit = c: int | 0 <= c < 0x1_0000
  type Text = seq<CodeUnit>

  /** QChar::isSpace. */
  predicate IsSpace(c: CodeUnit) {
    9 <= c <= 13 || c == 0x20 || c == 0x85 || c == 0xA0 || c == 0x1680 || 0x2000 <= c <= 0x200A
    || c == 0x2028 || c == 0x2029 || c == 0x202F || c == 0x205F || c == 0x3000
  }

  predicate OccursAt(stop: Text, text: Text, p: int) {
    0 <= p && p + |stop| <= |text| && text[p..p + |stop|] == stop
  }

  /** QString::indexOf. */
  function IndexOf(text: Text, stop: Text, from: nat := 0): (r: Option<nat>)
    ensures r.Some? ==> from <= r.value <= |text| && OccursAt(stop, text, r.value)
    ensures r.Some? ==> forall p :: from <= p < r.value ==> !OccursAt(stop, text, p)
    ensures r.None? ==> forall p :: from <= p ==> !OccursAt(stop, text, p)
    decreases |text| + 1 - from
  {
    if from > |text| then None
    else if OccursAt(stop, text, from) then Some(from)
    else IndexOf(text, stop, from + 1)
  }

  function Flatten(chunks: seq<Text>): Text {
    if chunks == [] then [] else chunks[0] + Flatten(chunks[1..])
  }

  lemma FlattenAppend(chunks: seq<Text>, last: Text)
    ensures Flatten(chunks + [last]) == Flatten(chunks) + last
  {
    FlattenSplit(chunks, [last]);
    assert Flatten([last]) == last + Flatten([]);
  }

  lemma {:induction false} FlattenSplit(left: seq<Text>, right: seq<Text>)
    ensures Flatten(left + right) == Flatten(left) + Flatten(right)
  {
    if left == [] {
      assert left + right == right;
    } else {
      assert (left + right)[1..] == left[1..] + right;
      FlattenSplit(left[1..], right);
    }
  }
}
