/**
 * The single-tool-turn yield: generation stops at the end of the first complete tool-call
 * envelope. `accepts` stands for the JSON test on the trimmed payload between the tags: exactly
 * a known tool name and an arguments object.
 */
module ToolTurns {
  import opened Common
  import opened Texts

  /** "<tool_call>" */
  const OPEN: Text := [0x3C, 0x74, 0x6F, 0x6F, 0x6C, 0x5F, 0x63, 0x61, 0x6C, 0x6C, 0x3E]
  /** "</tool_call>" */
  const CLOSE: Text := [0x3C, 0x2F, 0x74, 0x6F, 0x6F, 0x6C, 0x5F, 0x63, 0x61, 0x6C, 0x6C, 0x3E]
  const BRACE: CodeUnit := 0x7B
  const GREATER: CodeUnit := 0x3E

  function TrimLeft(text: Text): Text {
    if text == [] || !IsSpace(text[0]) then text else TrimLeft(text[1..])
  }

  function TrimRight(text: Text): Text {
    if text == [] || !IsSpace(text[|text| - 1]) then text else TrimRight(text[..|text| - 1])
  }

  /** QString::trimmed. */
  function Trimmed(text: Text): Text { TrimRight(TrimLeft(text)) }

  predicate EndsWith(text: Text, tail: Text) { |tail| <= |text| && text[|text| - |tail|..] == tail }

  predicate StartsObject(text: Text) { Trimmed(text) != [] && Trimmed(text)[0] == BRACE }

  /** Where the payload begins, if its opening has been seen. */
  function Begin(prefill: Text, generated: Text): Option<nat> {
    if EndsWith(Trimmed(prefill), OPEN) || StartsObject(generated) then Some(0)
    else match IndexOf(generated, OPEN)
         case None => None
         case Some(tag) => Some(tag + |OPEN|)
  }

  /** A closing tag at `end` completes an envelope. */
  predicate CompleteAt(prefill: Text, generated: Text, accepts: Text -> bool, end: int) {
    && Begin(prefill, generated).Some? && Begin(prefill, generated).value <= end
    && OccursAt(CLOSE, generated, end)
    && accepts(Trimmed(generated[Begin(prefill, generated).value..end]))
  }

  /** `boundary` is the end of the first complete envelope, or there is none. */
  ghost predicate IsBoundary(prefill: Text, generated: Text, accepts: Text -> bool, boundary: Option<nat>) {
    match boundary
    case None => forall end :: !CompleteAt(prefill, generated, accepts, end)
    case Some(b) =>
      && |CLOSE| <= b <= |generated| && CompleteAt(prefill, generated, accepts, b - |CLOSE|)
      && forall end :: end < b - |CLOSE| ==> !CompleteAt(prefill, generated, accepts, end)
  }

  lemma ClosesDoNotOverlap(text: Text, p: int, q: int)
    requires OccursAt(CLOSE, text, p) && OccursAt(CLOSE, text, q) && p < q
    ensures p + |CLOSE| <= q
  {
    assert text[q] == text[q..q + |CLOSE|][0] == 0x3C;
    forall x | p < x < p + |CLOSE| ensures text[x] != 0x3C {
      assert text[x] == text[p..p + |CLOSE|][x - p] == CLOSE[x - p];
    }
  }

  /** After a closing tag that completes nothing, the next candidate lies behind that tag. */
  lemma NextEnvelope(prefill: Text, generated: Text, accepts: Text -> bool, begin: nat, end: nat)
    requires Begin(prefill, generated) == Some(begin) && begin <= end && OccursAt(CLOSE, generated, end)
    requires !accepts(Trimmed(generated[begin..end]))
    requires forall e :: CompleteAt(prefill, generated, accepts, e) ==> end <= e
    ensures forall e :: CompleteAt(prefill, generated, accepts, e) ==> end + |CLOSE| <= e
  {
    forall e | CompleteAt(prefill, generated, accepts, e) ensures end + |CLOSE| <= e {
      if e != end {
        ClosesDoNotOverlap(generated, end, e);
      }
    }
  }

  method CompleteSingleToolTurn(prefill: Text, generated: Text, accepts: Text -> bool) returns (boundary: Option<nat>)
    ensures IsBoundary(prefill, generated, accepts, boundary)
  {
    var begin := 0;
    if !EndsWith(Trimmed(prefill), OPEN) && !StartsObject(generated) {
      var tag := IndexOf(generated, OPEN);
      if tag.None? {
        return None;
      }
      begin := tag.value + |OPEN|;
    }
    boundary := FirstComplete(prefill, generated, accepts, begin);
  }

  /** The loop over closing tags. */
  method FirstComplete(prefill: Text, generated: Text, accepts: Text -> bool, begin: nat)
    returns (boundary: Option<nat>)
    requires Begin(prefill, generated) == Some(begin)
    ensures IsBoundary(prefill, generated, accepts, boundary)
  {
    var end := IndexOf(generated, CLOSE, begin);
    while end.Some?
      invariant end.Some? ==> begin <= end.value && OccursAt(CLOSE, generated, end.value)
      invariant forall e :: CompleteAt(prefill, generated, accepts, e) ==> end.Some? && end.value <= e
      decreases if end.Some? then |generated| + 1 - end.value else 0
    {
      if accepts(Trimmed(generated[begin..end.value])) {
        return Some(end.value + |CLOSE|);
      }
      NextEnvelope(prefill, generated, accepts, begin, end.value);
      end := IndexOf(generated, CLOSE, end.value + |CLOSE|);
    }
    return None;
  }

  // ---- Stability under appended text --------------------------------------------------------

  lemma {:induction false} TrimRightIsPrefix(text: Text)
    ensures TrimRight(text) <= text
    ensures text != [] && !IsSpace(text[0]) ==> TrimRight(text) != []
  {
    if text != [] && IsSpace(text[|text| - 1]) {
      TrimRightIsPrefix(text[..|text| - 1]);
    }
  }

  lemma {:induction false} FirstInkIsStable(text: Text, more: Text)
    requires exists i :: 0 <= i < |text| && !IsSpace(text[i])
    ensures StartsObject(text) <==> StartsObject(text + more)
  {
    if IsSpace(text[0]) {
      assert (text + more)[1..] == text[1..] + more;
      assert exists i :: 0 <= i < |text[1..]| && !IsSpace(text[1..][i]) by {
        var i :| 0 <= i < |text| && !IsSpace(text[i]);
        assert text[1..][i - 1] == text[i];
      }
      FirstInkIsStable(text[1..], more);
    } else {
      TrimRightIsPrefix(text);
      TrimRightIsPrefix(text + more);
    }
  }

  lemma OccursInLonger(stop: Text, text: Text, more: Text, p: int)
    requires p + |stop| <= |text|
    ensures OccursAt(stop, text, p) <==> OccursAt(stop, text + more, p)
  {
    if 0 <= p {
      assert text[p..p + |stop|] == (text + more)[p..p + |stop|];
    }
  }

  /** Once a closing tag has been seen inside the payload, more text does not move its beginning. */
  lemma BeginIsStable(prefill: Text, text: Text, more: Text, end: nat)
    requires OccursAt(CLOSE, text, end)
    requires var b, c := Begin(prefill, text), Begin(prefill, text + more);
             (b.Some? && b.value <= end) || (c.Some? && c.value <= end)
    ensures Begin(prefill, text) == Begin(prefill, text + more)
  {
    assert text[end] == text[end..end + |CLOSE|][0] == 0x3C;
    FirstInkIsStable(text, more);
    if !EndsWith(Trimmed(prefill), OPEN) && !StartsObject(text) {
      forall p | p < end ensures p + |OPEN| <= end ==> (OccursAt(OPEN, text, p) <==> OccursAt(OPEN, text + more, p)) {
        if p + |OPEN| <= end { OccursInLonger(OPEN, text, more, p); }
      }
    }
  }

  lemma CompleteIsStable(prefill: Text, text: Text, more: Text, accepts: Text -> bool, end: int)
    requires end + |CLOSE| <= |text|
    ensures CompleteAt(prefill, text, accepts, end) <==> CompleteAt(prefill, text + more, accepts, end)
  {
    if 0 <= end {
      OccursInLonger(CLOSE, text, more, end);
      var b, c := Begin(prefill, text), Begin(prefill, text + more);
      if OccursAt(CLOSE, text, end) && ((b.Some? && b.value <= end) || (c.Some? && c.value <= end)) {
        BeginIsStable(prefill, text, more, end);
        assert text[c.value..end] == (text + more)[c.value..end];
      }
    }
  }

  /** Appending text never moves a boundary, and can only create one at the end of a '>' it brings. */
  lemma BoundaryIsStable(prefill: Text, text: Text, more: Text, accepts: Text -> bool, early: Option<nat>,
    late: Option<nat>)
    requires IsBoundary(prefill, text, accepts, early) && IsBoundary(prefill, text + more, accepts, late)
    ensures early.Some? ==> late == early
    ensures early.None? && late.Some? ==> |text| < late.value && (text + more)[late.value - 1] == GREATER
  {
    if early.Some? {
      forall end | end <= early.value - |CLOSE|
        ensures CompleteAt(prefill, text, accepts, end) <==> CompleteAt(prefill, text + more, accepts, end)
      {
        CompleteIsStable(prefill, text, more, accepts, end);
      }
    } else if late.Some? {
      var end := late.value - |CLOSE|;
      if late.value <= |text| {
        CompleteIsStable(prefill, text, more, accepts, end);
      }
      assert (text + more)[late.value - 1] == (text + more)[end..end + |CLOSE|][|CLOSE| - 1];
    }
  }

  ghost function Boundary(prefill: Text, text: Text, accepts: Text -> bool): (b: Option<nat>)
    ensures IsBoundary(prefill, text, accepts, b)
  {
    BoundaryExists(prefill, text, accepts, 0);
    var b :| IsBoundary(prefill, text, accepts, b);
    b
  }

  lemma BoundaryExists(prefill: Text, text: Text, accepts: Text -> bool, from: nat)
    requires forall end :: end < from ==> !CompleteAt(prefill, text, accepts, end)
    ensures exists b :: IsBoundary(prefill, text, accepts, b)
    decreases |text| + 1 - from
  {
    if from > |text| {
      assert IsBoundary(prefill, text, accepts, None);
    } else if CompleteAt(prefill, text, accepts, from) {
      assert IsBoundary(prefill, text, accepts, Some(from + |CLOSE|));
    } else {
      BoundaryExists(prefill, text, accepts, from + 1);
    }
  }

  /** The text up to the end of its first complete envelope, or all of it. */
  ghost function Turn(prefill: Text, text: Text, accepts: Text -> bool): Text {
    match Boundary(prefill, text, accepts)
    case None => text
    case Some(b) => text[..b]
  }

  /** The state captured by the generation callback. */
  class TurnGate {
    const prefill: Text
    const accepts: Text -> bool
    var generated: Text
    var delivered: nat
    var yielded: bool

    ghost predicate Valid()
      reads this
    {
      var b := Boundary(prefill, generated, accepts);
      if yielded then b == Some(delivered) else b.None? && delivered == |generated|
    }

    constructor (prefill: Text, accepts: Text -> bool)
      ensures Valid() && generated == [] && !yielded && this.prefill == prefill && this.accepts == accepts
    {
      this.prefill := prefill;
      this.accepts := accepts;
      generated := [];
      delivered := 0;
      yielded := false;
    }

    /** One generated piece: what is passed on, and whether the turn goes on. */
    method Feed(piece: Text) returns (passed: Text)
      requires Valid()
      modifies this
      ensures Valid()
      ensures old(yielded) ==> passed == [] && yielded && generated == old(generated)
      ensures !old(yielded) ==> generated == old(generated) + piece
      ensures Turn(prefill, generated, accepts) == Turn(prefill, old(generated), accepts) + passed
      ensures yielded <==> Boundary(prefill, generated, accepts).Some?
    {
      if yielded {
        return [];
      }
      ghost var before := generated;
      generated := generated + piece;
      var boundary := None;
      if GREATER in piece {
        boundary := CompleteSingleToolTurn(prefill, generated, accepts);
        BoundaryUnique(prefill, generated, accepts, boundary);
      }
      BoundaryIsStable(prefill, before, piece, accepts, None, Boundary(prefill, generated, accepts));
      var end := if boundary.Some? then boundary.value else |generated|;
      passed := generated[delivered..end];
      delivered := end;
      yielded := boundary.Some?;
    }
  }

  lemma BoundaryUnique(prefill: Text, text: Text, accepts: Text -> bool, b: Option<nat>)
    requires IsBoundary(prefill, text, accepts, b)
    ensures Boundary(prefill, text, accepts) == b
  {
  }

  /** The turn of a longer text extends the turn of a shorter one. */
  lemma TurnIsMonotone(prefill: Text, text: Text, more: Text, accepts: Text -> bool)
    ensures Turn(prefill, text, accepts) <= Turn(prefill, text + more, accepts)
    ensures Boundary(prefill, text, accepts).Some? ==>
              Turn(prefill, text + more, accepts) == Turn(prefill, text, accepts)
  {
    BoundaryIsStable(prefill, text, more, accepts, Boundary(prefill, text, accepts),
      Boundary(prefill, text + more, accepts));
  }

  /**
   * The generation loop. For every split of the model's output into pieces, a willing consumer
   * receives exactly the text up to the end of the first complete envelope, and no piece is
   * requested after the one that completes it; one that refuses a text ends the turn there.
   */
  method GenerateTurn(prefill: Text, accepts: Text -> bool, pieces: seq<Text>)
    returns (text: Text, used: nat, refused: bool)
    ensures text <= Turn(prefill, Flatten(pieces), accepts)
    ensures !refused ==> text == Turn(prefill, Flatten(pieces), accepts)
    ensures used <= |pieces| && (refused ==> 0 < used)
    ensures NoneComplete(prefill, accepts, pieces, used)
    ensures !refused && used < |pieces| ==> Boundary(prefill, Flatten(pieces[..used]), accepts).Some?
  {
    var gate := new TurnGate(prefill, accepts);
    text, used, refused := [], 0, false;
    assert pieces[..0] == [];
    while used < |pieces| && !gate.yielded && !refused
      invariant fresh(gate) && gate.Valid() && gate.prefill == prefill && gate.accepts == accepts
      invariant used <= |pieces| && gate.generated == Flatten(pieces[..used]) && (refused ==> 0 < used)
      invariant text == Turn(prefill, gate.generated, accepts)
      invariant NoneComplete(prefill, accepts, pieces, used)
      invariant gate.yielded <==> Boundary(prefill, gate.generated, accepts).Some?
      decreases |pieces| - used
    {
      OneMorePiece(pieces, used);
      var passed := gate.Feed(pieces[used]);
      text := text + passed;
      used := used + 1;
      var unwilling: bool := *;
      refused := passed != [] && unwilling;
    }
    TurnOfPrefix(prefill, accepts, pieces, used);
    assert pieces[..|pieces|] == pieces;
  }

  /** Before each of the first n pieces no envelope was complete. */
  ghost predicate NoneComplete(prefill: Text, accepts: Text -> bool, pieces: seq<Text>, n: nat)
    requires n <= |pieces|
  {
    forall k :: 0 <= k < n ==> Boundary(prefill, Flatten(pieces[..k]), accepts).None?
  }

  lemma OneMorePiece(pieces: seq<Text>, n: nat)
    requires n < |pieces|
    ensures Flatten(pieces[..n + 1]) == Flatten(pieces[..n]) + pieces[n]
  {
    assert pieces[..n + 1] == pieces[..n] + [pieces[n]];
    FlattenAppend(pieces[..n], pieces[n]);
  }

  lemma TurnOfPrefix(prefill: Text, accepts: Text -> bool, pieces: seq<Text>, used: nat)
    requires used <= |pieces|
    ensures var part, all := Flatten(pieces[..used]), Flatten(pieces);
            && Turn(prefill, part, accepts) <= Turn(prefill, all, accepts)
            && (Boundary(prefill, part, accepts).Some? ==> Turn(prefill, all, accepts) == Turn(prefill, part, accepts))
  {
    assert pieces == pieces[..used] + pieces[used..];
    FlattenSplit(pieces[..used], pieces[used..]);
    TurnIsMonotone(prefill, Flatten(pieces[..used]), Flatten(pieces[used..]), accepts);
  }
}
