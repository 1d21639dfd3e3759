/**
 * The streaming stop-string filter: what it shows for any chunking of the generated text, and
 * exactly when the chunking does not matter.
 */
module StopFilters {
  import opened Common
  import opened Texts

  ghost predicate MatchAt(stops: seq<Text>, text: Text, p: int) {
    exists i :: 0 <= i < |stops| && OccursAt(stops[i], text, p)
  }

  ghost predicate NoMatch(stops: seq<Text>, text: Text) {
    forall p :: !MatchAt(stops, text, p)
  }

  ghost predicate NonEmptyStops(stops: seq<Text>) {
    forall i :: 0 <= i < |stops| ==> stops[i] != []
  }

  /** The position of the earliest match of any stop string. */
  ghost function FirstMatch(stops: seq<Text>, text: Text): (r: Option<nat>)
    ensures r.None? ==> NoMatch(stops, text)
    ensures r.Some? ==> MatchAt(stops, text, r.value) && r.value <= |text|
    ensures r.Some? ==> forall p :: p < r.value ==> !MatchAt(stops, text, p)
  {
    FirstMatchFrom(stops, text, 0)
  }

  ghost function FirstMatchFrom(stops: seq<Text>, text: Text, from: nat): (r: Option<nat>)
    requires forall p :: p < from ==> !MatchAt(stops, text, p)
    ensures r.None? ==> NoMatch(stops, text)
    ensures r.Some? ==> MatchAt(stops, text, r.value) && r.value <= |text|
    ensures r.Some? ==> forall p :: p < r.value ==> !MatchAt(stops, text, p)
    decreases |text| + 1 - from
  {
    if from > |text| then None
    else if MatchAt(stops, text, from) then Some(from)
    else FirstMatchFrom(stops, text, from + 1)
  }

  /** The text before the earliest match, or all of it. */
  ghost function Before(stops: seq<Text>, text: Text): Text {
    match FirstMatch(stops, text)
    case None => text
    case Some(m) => text[..m]
  }

  /** The last n units of the text are a proper, nonempty prefix of the stop string. */
  predicate HangsOn(stop: Text, text: Text, n: int) {
    1 <= n <= |text| && n < |stop| && text[|text| - n..] == stop[..n]
  }

  ghost predicate Hangs(stops: seq<Text>, text: Text, n: int) {
    exists i :: 0 <= i < |stops| && HangsOn(stops[i], text, n)
  }

  predicate IsHigh(c: CodeUnit) { 0xD800 <= c <= 0xDBFF }

  predicate IsLow(c: CodeUnit) { 0xDC00 <= c <= 0xDFFF }

  predicate EndsHigh(text: Text) { text != [] && IsHigh(text[|text| - 1]) }

  /** Every high surrogate is followed, and every low surrogate preceded, by its partner. */
  ghost predicate WellFormed(text: Text) {
    && (forall i {:trigger text[i]} :: 0 <= i < |text| && IsHigh(text[i]) ==> i + 1 < |text| && IsLow(text[i + 1]))
    && (forall i {:trigger text[i]} :: 0 <= i < |text| && IsLow(text[i]) ==> 0 < i && IsHigh(text[i - 1]))
  }

  /** What the filter withholds: the longest hanging suffix, or one unit of a split pair. */
  ghost predicate Withholds(stops: seq<Text>, text: Text, held: nat) {
    && held <= |text|
    && (forall n :: Hangs(stops, text, n) ==> n <= held)
    && (EndsHigh(text) ==> 1 <= held)
    && (held == 0 || Hangs(stops, text, held) || (held == 1 && EndsHigh(text)))
  }

  /** What one push hands out and keeps, given the text it worked on. */
  ghost predicate Pushed(stops: seq<Text>, local: Text, piece: Text, pending: Text, stopped: bool) {
    match FirstMatch(stops, local)
    case Some(m) => stopped && pending == [] && piece == local[..m]
    case None => !stopped && piece + pending == local && Withholds(stops, local, |pending|)
  }

  class StopFilter {
    const stops: seq<Text>
    var pending: Text
    var stopped: bool

    constructor (stops: seq<Text>)
      ensures this.stops == stops && pending == [] && !stopped
    {
      this.stops := stops;
      pending := [];
      stopped := false;
    }

    method Push(text: Text) returns (output: Text)
      modifies this
      ensures old(stopped) ==> output == [] && stopped && pending == old(pending)
      ensures !old(stopped) ==>
                Pushed(stops, old(pending) + text, output, pending, stopped)
    {
      if stopped {
        return [];
      }
      pending := pending + text;
      var found: Option<nat> := None;
      for k := 0 to |stops|
        invariant pending == old(pending) + text && !stopped
        invariant found.Some? ==> MatchAt(stops, pending, found.value) && found.value <= |pending|
        invariant forall j, p :: 0 <= j < k && OccursAt(stops[j], pending, p) ==> found.Some? && found.value <= p
      {
        var pos := IndexOf(pending, stops[k]);
        if pos.Some? && (found.None? || pos.value < found.value) {
          found := pos;
        }
      }
      if found.Some? {
        stopped := true;
        output := pending[..found.value];
        pending := [];
        return;
      }
      var held := 0;
      for k := 0 to |stops|
        invariant pending == old(pending) + text && !stopped
        invariant held == 0 || Hangs(stops, pending, held)
        invariant held <= |pending|
        invariant forall j, q :: 0 <= j < k && HangsOn(stops[j], pending, q) ==> q <= held
      {
        var n := 1;
        while n < |stops[k]| && n <= |pending|
          invariant pending == old(pending) + text && !stopped
          invariant 1 <= n
          invariant held == 0 || Hangs(stops, pending, held)
          invariant held <= |pending|
          invariant forall j, q :: 0 <= j < k && HangsOn(stops[j], pending, q) ==> q <= held
          invariant forall q :: q < n && HangsOn(stops[k], pending, q) ==> q <= held
        {
          if HangsOn(stops[k], pending, n) {
            held := if held < n then n else held;
          }
          n := n + 1;
        }
      }
      if EndsHigh(pending) {
        held := if held < 1 then 1 else held;
      }
      output := pending[..|pending| - held];
      pending := pending[|output|..];
    }

    method Finish() returns (output: Text)
      modifies this
      ensures output == old(pending) && pending == [] && stopped == old(stopped)
    {
      output := pending;
      pending := [];
    }
  }

  /** The visible text: the earliest match is sought in the text seen at each chunk boundary. */
  ghost function Visible(stops: seq<Text>, seen: Text, chunks: seq<Text>): Text
    decreases |chunks|
  {
    if chunks == [] then seen
    else
      var next := seen + chunks[0];
      match FirstMatch(stops, next)
      case Some(m) => next[..m]
      case None => Visible(stops, next, chunks[1..])
  }

  /** Everything that can still become a match lies behind the delivered text. */
  ghost predicate KeepsCandidates(stops: seq<Text>, seen: Text, delivered: int) {
    forall n :: Hangs(stops, seen, n) ==> n <= |seen| - delivered
  }

  lemma HangShrinks(stops: seq<Text>, seen: Text, chunk: Text, n: int)
    requires Hangs(stops, seen + chunk, n) && n > |chunk|
    ensures Hangs(stops, seen, n - |chunk|)
  {
    var i :| 0 <= i < |stops| && HangsOn(stops[i], seen + chunk, n);
    var k := n - |chunk|;
    assert seen[|seen| - k..] == (seen + chunk)[|seen + chunk| - n..][..k];
    assert stops[i][..n][..k] == stops[i][..k];
    assert HangsOn(stops[i], seen, k);
  }

  lemma MatchNeedsCandidate(stops: seq<Text>, seen: Text, chunk: Text, delivered: nat, p: int)
    requires delivered <= |seen| && NoMatch(stops, seen) && KeepsCandidates(stops, seen, delivered)
    requires MatchAt(stops, seen + chunk, p)
    ensures delivered <= p
  {
    var i :| 0 <= i < |stops| && OccursAt(stops[i], seen + chunk, p);
    var stop := stops[i];
    if p < |seen| {
      var n := |seen| - p;
      assert |stop| <= n ==> OccursAt(stop, seen, p) by {
        if |stop| <= n {
          assert seen[p..p + |stop|] == (seen + chunk)[p..p + |stop|];
        }
      }
      assert !MatchAt(stops, seen, p);
      assert seen[p..] == (seen + chunk)[p..p + |stop|][..n] == stop[..n];
      assert HangsOn(stop, seen, n) && Hangs(stops, seen, n);
    }
  }

  lemma MatchPersists(stops: seq<Text>, text: Text, more: Text)
    requires !NoMatch(stops, text)
    ensures !NoMatch(stops, text + more)
  {
    var p :| MatchAt(stops, text, p);
    var i :| 0 <= i < |stops| && OccursAt(stops[i], text, p);
    assert (text + more)[p..p + |stops[i]|] == text[p..p + |stops[i]|];
    assert OccursAt(stops[i], text + more, p) && MatchAt(stops, text + more, p);
  }

  lemma MatchShift(stops: seq<Text>, all: Text, delivered: nat, p: int)
    requires delivered <= |all| && delivered <= p
    ensures MatchAt(stops, all, p) <==> MatchAt(stops, all[delivered..], p - delivered)
  {
    forall i | 0 <= i < |stops|
      ensures OccursAt(stops[i], all, p) <==> OccursAt(stops[i], all[delivered..], p - delivered)
    {
      if p + |stops[i]| <= |all| {
        assert all[delivered..][p - delivered..p - delivered + |stops[i]|] == all[p..p + |stops[i]|];
      }
    }
  }

  /** Matching only the withheld text finds the earliest match of the whole text seen. */
  lemma LocalMatchIsGlobal(stops: seq<Text>, seen: Text, chunk: Text, delivered: nat)
    requires delivered <= |seen| && NoMatch(stops, seen) && KeepsCandidates(stops, seen, delivered)
    ensures var local := FirstMatch(stops, seen[delivered..] + chunk);
            var global := FirstMatch(stops, seen + chunk);
            && (local.None? <==> global.None?)
            && (local.Some? ==> global.value == local.value + delivered)
  {
    var all := seen + chunk;
    assert all[delivered..] == seen[delivered..] + chunk;
    MatchesShift(stops, seen, chunk, delivered);
    FirstMatchShifts(stops, all, delivered);
  }

  lemma MatchesShift(stops: seq<Text>, seen: Text, chunk: Text, delivered: nat)
    requires delivered <= |seen| && NoMatch(stops, seen) && KeepsCandidates(stops, seen, delivered)
    ensures var all := seen + chunk;
            && (forall p :: MatchAt(stops, all, p) ==>
              delivered <= p && MatchAt(stops, all[delivered..], p - delivered))
            && (forall q :: MatchAt(stops, all[delivered..], q) ==> MatchAt(stops, all, q + delivered))
  {
    var all := seen + chunk;
    forall p | MatchAt(stops, all, p) ensures delivered <= p && MatchAt(stops, all[delivered..], p - delivered) {
      MatchNeedsCandidate(stops, seen, chunk, delivered, p);
      MatchShift(stops, all, delivered, p);
    }
    forall q | MatchAt(stops, all[delivered..], q) ensures MatchAt(stops, all, q + delivered) {
      MatchShift(stops, all, delivered, q + delivered);
    }
  }

  lemma FirstMatchShifts(stops: seq<Text>, all: Text, delivered: nat)
    requires delivered <= |all|
    requires forall p :: MatchAt(stops, all, p) ==> delivered <= p && MatchAt(stops, all[delivered..], p - delivered)
    requires forall q :: MatchAt(stops, all[delivered..], q) ==> MatchAt(stops, all, q + delivered)
    ensures var local, global := FirstMatch(stops, all[delivered..]), FirstMatch(stops, all);
            (local.None? <==> global.None?) && (local.Some? ==> global.value == local.value + delivered)
  {
    var local, global := FirstMatch(stops, all[delivered..]), FirstMatch(stops, all);
    if local.Some? {
      assert MatchAt(stops, all, local.value + delivered);
    }
    if global.Some? {
      assert MatchAt(stops, all[delivered..], global.value - delivered);
    }
  }

  lemma CandidatesStayHeld(stops: seq<Text>, seen: Text, chunk: Text, delivered: nat, held: nat)
    requires delivered <= |seen| && KeepsCandidates(stops, seen, delivered)
    requires Withholds(stops, seen[delivered..] + chunk, held)
    ensures KeepsCandidates(stops, seen + chunk, |seen + chunk| - held)
  {
    var local := seen[delivered..] + chunk;
    forall n | Hangs(stops, seen + chunk, n) ensures n <= held {
      if n <= |local| {
        var i :| 0 <= i < |stops| && HangsOn(stops[i], seen + chunk, n);
        assert local[|local| - n..] == (seen + chunk)[|seen + chunk| - n..];
        assert HangsOn(stops[i], local, n) && Hangs(stops, local, n);
      } else {
        HangShrinks(stops, seen, chunk, n);
      }
    }
  }

  ghost predicate WellFormedStops(stops: seq<Text>) {
    forall i :: 0 <= i < |stops| ==> WellFormed(stops[i])
  }

  /** The state between two pushes: nothing found yet, and every candidate withheld. */
  ghost predicate Streaming(stops: seq<Text>, seen: Text, delivered: Text, pending: Text) {
    delivered + pending == seen && NoMatch(stops, seen) && KeepsCandidates(stops, seen, |delivered|)
  }

  lemma PushStep(stops: seq<Text>, seen: Text, delivered: Text, pending: Text, chunk: Text,
                 piece: Text, kept: Text, stopped: bool)
    requires Streaming(stops, seen, delivered, pending)
    requires Pushed(stops, pending + chunk, piece, kept, stopped)
    ensures stopped <==> FirstMatch(stops, seen + chunk).Some?
    ensures stopped ==> kept == [] && delivered + piece == (seen + chunk)[..FirstMatch(stops, seen + chunk).value]
    ensures !stopped ==> Streaming(stops, seen + chunk, delivered + piece, kept)
  {
    assert seen[|delivered|..] == pending;
    LocalMatchIsGlobal(stops, seen, chunk, |delivered|);
    assert seen + chunk == delivered + (pending + chunk);
    if !stopped {
      CandidatesStayHeld(stops, seen, chunk, |delivered|, |kept|);
      assert delivered + piece + kept == seen + chunk;
    }
  }

  /** A piece handed out never ends between the two halves of a surrogate pair. */
  lemma PieceKeepsPairs(stops: seq<Text>, front: Text, local: Text, back: Text, piece: Text, kept: Text, stopped: bool)
    requires NonEmptyStops(stops) && WellFormedStops(stops) && WellFormed(front + local + back)
    requires Pushed(stops, local, piece, kept, stopped)
    ensures !EndsHigh(piece)
  {
    var all, from := front + local + back, |front|;
    assert |piece| == |local| ==> !EndsHigh(local);
    if |piece| < |local| {
      assert !IsLow(local[|piece|]) by {
        if stopped {
          var m := |piece|;
          var i :| 0 <= i < |stops| && OccursAt(stops[i], local, m);
          assert local[m] == local[m..m + |stops[i]|][0] == stops[i][0];
        } else if Hangs(stops, local, |kept|) {
          var i :| 0 <= i < |stops| && HangsOn(stops[i], local, |kept|);
          assert local[|piece|] == local[|local| - |kept|..][0] == stops[i][..|kept|][0] == stops[i][0];
        }
      }
      assert all[from + |piece|] == local[|piece|];
    }
    if piece != [] {
      assert all[from + |piece| - 1] == local[|piece| - 1] == piece[|piece| - 1];
    }
  }

  /** After `next` chunks: what was handed out is what the one-shot reading allows so far. */
  ghost predicate Progress(stops: seq<Text>, chunks: seq<Text>, next: nat, delivered: Text, pending: Text,
    stopped: bool) {
    && next <= |chunks|
    && (if stopped then
          pending == [] && !NoMatch(stops, Flatten(chunks)) && delivered == Visible(stops, [], chunks)
        else
          && Streaming(stops, delivered + pending, delivered, pending)
          && Flatten(chunks) == delivered + pending + Flatten(chunks[next..])
          && Visible(stops, delivered + pending, chunks[next..]) == Visible(stops, [], chunks))
  }

  lemma ProgressStep(stops: seq<Text>, chunks: seq<Text>, next: nat, delivered: Text, pending: Text,
                     piece: Text, kept: Text, stopped: bool)
    requires Progress(stops, chunks, next, delivered, pending, false) && next < |chunks|
    requires Pushed(stops, pending + chunks[next], piece, kept, stopped)
    ensures Progress(stops, chunks, next + 1, delivered + piece, kept, stopped)
  {
    var seen, chunk, rest := delivered + pending, chunks[next], chunks[next + 1..];
    PushStep(stops, seen, delivered, pending, chunk, piece, kept, stopped);
    assert chunks[next..][0] == chunk && chunks[next..][1..] == rest;
    assert Flatten(chunks) == seen + chunk + Flatten(rest);
    if stopped {
      MatchPersists(stops, seen + chunk, Flatten(rest));
    } else {
      assert delivered + piece + kept == seen + chunk;
    }
  }

  lemma Regroup(a: Text, b: Text, c: Text, d: Text)
    ensures a + b + (c + d) == a + (b + c) + d
  {
  }

  lemma StepKeepsPairs(stops: seq<Text>, chunks: seq<Text>, next: nat, delivered: Text, pending: Text,
                       piece: Text, kept: Text, stopped: bool)
    requires Progress(stops, chunks, next, delivered, pending, false) && next < |chunks|
    requires Pushed(stops, pending + chunks[next], piece, kept, stopped)
    requires NonEmptyStops(stops) && WellFormedStops(stops) && WellFormed(Flatten(chunks))
    ensures !EndsHigh(piece)
  {
    var local, rest := pending + chunks[next], Flatten(chunks[next + 1..]);
    assert Flatten(chunks[next..]) == chunks[next] + rest by {
      assert chunks[next..][1..] == chunks[next + 1..];
    }
    Regroup(delivered, pending, chunks[next], rest);
    PieceKeepsPairs(stops, delivered, local, rest, piece, kept, stopped);
  }

  lemma ProgressDone(stops: seq<Text>, chunks: seq<Text>, next: nat, delivered: Text, pending: Text, stopped: bool)
    requires Progress(stops, chunks, next, delivered, pending, stopped) && (stopped || next == |chunks|)
    ensures delivered + pending == Visible(stops, [], chunks)
    ensures stopped <==> !NoMatch(stops, Flatten(chunks))
    ensures WellFormed(Flatten(chunks)) ==> !EndsHigh(pending)
  {
    if !stopped {
      assert chunks[next..] == [];
      assert Flatten(chunks) == delivered + pending;
      assert pending != [] ==> Flatten(chunks)[|Flatten(chunks)| - 1] == pending[|pending| - 1];
    }
  }

  ghost predicate NoneEndsHigh(pieces: seq<Text>) {
    forall k :: 0 <= k < |pieces| ==> !EndsHigh(pieces[k])
  }

  /** Where the consumer's loop is, for stop strings that are not empty. */
  ghost predicate Delivering(stops: seq<Text>, chunks: seq<Text>, next: nat, pieces: seq<Text>, pending: Text,
    stopped: bool) {
    NonEmptyStops(stops) ==>
      && Progress(stops, chunks, next, Flatten(pieces), pending, stopped)
      && (WellFormedStops(stops) && WellFormed(Flatten(chunks)) ==> NoneEndsHigh(pieces))
  }

  lemma DeliveringStep(stops: seq<Text>, chunks: seq<Text>, next: nat, pieces: seq<Text>, pending: Text,
                       piece: Text, kept: Text, stopped: bool)
    requires Delivering(stops, chunks, next, pieces, pending, false) && next < |chunks|
    requires Pushed(stops, pending + chunks[next], piece, kept, stopped)
    ensures Delivering(stops, chunks, next + 1, pieces + [piece], kept, stopped)
  {
    if NonEmptyStops(stops) {
      ProgressStep(stops, chunks, next, Flatten(pieces), pending, piece, kept, stopped);
      FlattenAppend(pieces, piece);
      if WellFormedStops(stops) && WellFormed(Flatten(chunks)) {
        StepKeepsPairs(stops, chunks, next, Flatten(pieces), pending, piece, kept, stopped);
      }
    }
  }

  lemma DeliveringDone(stops: seq<Text>, chunks: seq<Text>, next: nat, pieces: seq<Text>, pending: Text, stopped: bool)
    requires Delivering(stops, chunks, next, pieces, pending, stopped) && (stopped || next == |chunks|)
    ensures NonEmptyStops(stops) ==>
              && Flatten(pieces + [pending]) == Visible(stops, [], chunks)
              && (stopped <==> !NoMatch(stops, Flatten(chunks)))
              && (WellFormedStops(stops) && WellFormed(Flatten(chunks)) ==> NoneEndsHigh(pieces + [pending]))
  {
    if NonEmptyStops(stops) {
      ProgressDone(stops, chunks, next, Flatten(pieces), pending, stopped);
      FlattenAppend(pieces, pending);
    }
  }

  /**
   * The consumer's loop: push chunk after chunk, ask for no more once a stop string was found,
   * then flush. `pieces` holds what each step handed out; `ended` is how the generation ends.
   * Cancellation may be seen at any callback, a listener may refuse any nonempty piece, and the
   * text may outgrow its limit; only then, or when the generation fails, is there an error.
   */
  method Deliver(stops: seq<Text>, chunks: seq<Text>, ended: Result<()>, listened: bool, limit: Option<nat>)
    returns (r: Result<bool>, pieces: seq<Text>)
    ensures r.Ok? ==> ended.Ok?
    ensures NonEmptyStops(stops) && r.Ok? ==> Flatten(pieces) == Visible(stops, [], chunks)
    ensures NonEmptyStops(stops) && r.Ok? ==> (r.value <==> !NoMatch(stops, Flatten(chunks)))
    ensures NonEmptyStops(stops) && WellFormedStops(stops) && WellFormed(Flatten(chunks)) ==> NoneEndsHigh(pieces)
    ensures r.Err? ==> r.code == Cancelled || (listened && r.code == ConsumerFailure)
                       || (limit.Some? && r.code == ResourceLimit) || ended == Err(r.code)
  {
    var filter := new StopFilter(stops);
    pieces := [];
    var next := 0;
    while next < |chunks| && !filter.stopped
      invariant fresh(filter) && filter.stops == stops && 0 <= next <= |chunks|
      invariant Delivering(stops, chunks, next, pieces, filter.pending, filter.stopped)
    {
      var interrupted: bool := *;
      if interrupted {
        return Err(Cancelled), pieces;
      }
      ghost var pending := filter.pending;
      var piece := filter.Push(chunks[next]);
      DeliveringStep(stops, chunks, next, pieces, pending, piece, filter.pending, filter.stopped);
      pieces := pieces + [piece];
      next := next + 1;
      var refusal := Refusal(piece, Flatten(pieces), listened, limit);
      if refusal.Err? {
        return Err(refusal.code), pieces;
      }
    }
    if ended.Err? {
      return Err(ended.code), pieces;
    }
    r, pieces := Flush(filter, chunks, next, pieces, listened, limit);
  }

  /** What is left to be shown once the generation has ended. */
  method Flush(filter: StopFilter, ghost chunks: seq<Text>, ghost next: nat, shown: seq<Text>, listened: bool,
    limit: Option<nat>)
    returns (r: Result<bool>, pieces: seq<Text>)
    requires Delivering(filter.stops, chunks, next, shown, filter.pending, filter.stopped)
             && (filter.stopped || next == |chunks|)
    modifies filter
    ensures NonEmptyStops(filter.stops) && r.Ok? ==> Flatten(pieces) == Visible(filter.stops, [], chunks)
    ensures NonEmptyStops(filter.stops) && r.Ok? ==> (r.value <==> !NoMatch(filter.stops, Flatten(chunks)))
    ensures NonEmptyStops(filter.stops) && WellFormedStops(filter.stops) && WellFormed(Flatten(chunks)) ==>
              NoneEndsHigh(pieces)
    ensures r.Err? ==>
              r.code == Cancelled || (listened && r.code == ConsumerFailure) || (limit.Some? && r.code == ResourceLimit)
  {
    var interrupted: bool := *;
    if interrupted {
      return Err(Cancelled), shown;
    }
    DeliveringDone(filter.stops, chunks, next, shown, filter.pending, filter.stopped);
    var rest := filter.Finish();
    pieces := shown + [rest];
    var refusal := Refusal(rest, [], listened, limit);
    interrupted := *;
    if listened && refusal.Ok? && interrupted {
      return Err(Cancelled), pieces;
    }
    return if refusal.Ok? then Ok(filter.stopped) else Err(refusal.code), pieces;
  }

  /** A listener may throw on a nonempty piece; the text so far must keep to its limit. */
  method Refusal(piece: Text, text: Text, listened: bool, limit: Option<nat>) returns (r: Result<()>)
    ensures r.Err? ==>
              (listened && piece != [] && r.code == ConsumerFailure) || (limit.Some? && r.code == ResourceLimit)
    ensures r.Ok? && limit.Some? ==> |text| <= limit.value
  {
    var throws: bool := *;
    if listened && piece != [] && throws {
      return Err(ConsumerFailure);
    }
    if limit.Some? && |text| > limit.value {
      return Err(ResourceLimit);
    }
    return Ok(());
  }

  // ---- What the visible text means ---------------------------------------------------------

  lemma MatchInPrefix(stops: seq<Text>, text: Text, end: nat, p: int)
    requires NonEmptyStops(stops) && end <= |text| && MatchAt(stops, text[..end], p)
    ensures MatchAt(stops, text, p) && p < end
  {
    var i :| 0 <= i < |stops| && OccursAt(stops[i], text[..end], p);
    assert text[p..p + |stops[i]|] == text[..end][p..p + |stops[i]|];
    assert OccursAt(stops[i], text, p);
  }

  lemma CutIsClean(stops: seq<Text>, text: Text)
    requires NonEmptyStops(stops)
    ensures NoMatch(stops, Before(stops, text)) && Before(stops, text) <= text
  {
    var cut := Before(stops, text);
    forall p | MatchAt(stops, cut, p) ensures MatchAt(stops, text, p) && p < |cut| {
      MatchInPrefix(stops, text, |cut|, p);
    }
  }

  /** Whatever the chunking, the visible text is a prefix of the input with no stop string in it. */
  lemma {:induction false} VisibleIsCleanPrefix(stops: seq<Text>, seen: Text, chunks: seq<Text>)
    requires NonEmptyStops(stops) && NoMatch(stops, seen)
    ensures Visible(stops, seen, chunks) <= seen + Flatten(chunks)
    ensures NoMatch(stops, Visible(stops, seen, chunks))
    ensures NoMatch(stops, seen + Flatten(chunks)) ==> Visible(stops, seen, chunks) == seen + Flatten(chunks)
    decreases |chunks|
  {
    if chunks == [] {
      assert seen + Flatten(chunks) == seen;
    } else {
      var next := seen + chunks[0];
      assert seen + Flatten(chunks) == next + Flatten(chunks[1..]);
      if FirstMatch(stops, next).Some? {
        CutIsClean(stops, next);
        MatchPersists(stops, next, Flatten(chunks[1..]));
      } else {
        VisibleIsCleanPrefix(stops, next, chunks[1..]);
      }
    }
  }

  /**
   * No beginning of a stop string contains a stop string unless it starts with one.
   * Stop strings none of which lies strictly inside another always satisfy this.
   */
  ghost predicate Guarded(stops: seq<Text>) {
    forall i, e :: 0 <= i < |stops| && 0 <= e <= |stops[i]| && !NoMatch(stops, stops[i][..e])
                   ==> MatchAt(stops, stops[i][..e], 0)
  }

  ghost predicate StrictlyInside(inner: Text, outer: Text) {
    exists p :: 1 <= p && p + |inner| < |outer| && OccursAt(inner, outer, p)
  }

  lemma NotInsideIsGuarded(stops: seq<Text>)
    requires forall i, j :: 0 <= i < |stops| && 0 <= j < |stops| ==> !StrictlyInside(stops[i], stops[j])
    ensures Guarded(stops)
  {
    forall i, e | 0 <= i < |stops| && 0 <= e <= |stops[i]| && !NoMatch(stops, stops[i][..e])
      ensures MatchAt(stops, stops[i][..e], 0)
    {
      var p :| MatchAt(stops, stops[i][..e], p);
      var j :| 0 <= j < |stops| && OccursAt(stops[j], stops[i][..e], p);
      if e == |stops[i]| {
        assert OccursAt(stops[i], stops[i][..e], 0);
      } else {
        assert stops[i][p..p + |stops[j]|] == stops[i][..e][p..p + |stops[j]|];
        assert OccursAt(stops[j], stops[i], p);
        assert !StrictlyInside(stops[j], stops[i]);
      }
    }
  }

  /** Under the guard, text still to come cannot create a match before one already seen. */
  lemma EarlierMatchWasSeen(stops: seq<Text>, text: Text, more: Text, q: int, m: int)
    requires Guarded(stops) && MatchAt(stops, text, m)
    requires q <= m && MatchAt(stops, text + more, q)
    ensures MatchAt(stops, text, q)
  {
    var i :| 0 <= i < |stops| && OccursAt(stops[i], text + more, q);
    var j :| 0 <= j < |stops| && OccursAt(stops[j], text, m);
    var s, e := stops[i], |text| - q;
    if |s| <= e {
      assert text[q..q + |s|] == (text + more)[q..q + |s|];
      assert OccursAt(s, text, q);
    } else {
      var start := s[..e];
      assert start == (text + more)[q..q + |s|][..e] == text[q..];
      assert start[m - q..m - q + |stops[j]|] == text[m..m + |stops[j]|];
      assert OccursAt(stops[j], start, m - q) && MatchAt(stops, start, m - q);
      assert MatchAt(stops, start, 0);
      var k :| 0 <= k < |stops| && OccursAt(stops[k], start, 0);
      assert text[q..q + |stops[k]|] == start[0..|stops[k]|];
      assert OccursAt(stops[k], text, q);
    }
  }

  lemma {:induction false} GuardedIgnoresChunks(stops: seq<Text>, seen: Text, chunks: seq<Text>)
    requires Guarded(stops) && NoMatch(stops, seen)
    ensures Visible(stops, seen, chunks) == Before(stops, seen + Flatten(chunks))
    decreases |chunks|
  {
    if chunks == [] {
      assert seen + Flatten(chunks) == seen;
    } else {
      var next, rest := seen + chunks[0], Flatten(chunks[1..]);
      assert seen + Flatten(chunks) == next + rest;
      if FirstMatch(stops, next).None? {
        GuardedIgnoresChunks(stops, next, chunks[1..]);
      } else {
        MatchIsFinal(stops, next, rest);
      }
    }
  }

  /** Once guarded stop strings match, no later text moves the earliest match. */
  lemma MatchIsFinal(stops: seq<Text>, text: Text, more: Text)
    requires Guarded(stops) && FirstMatch(stops, text).Some?
    ensures Before(stops, text) == Before(stops, text + more)
  {
    MatchPersists(stops, text, more);
    var m, all := FirstMatch(stops, text).value, FirstMatch(stops, text + more).value;
    assert MatchAt(stops, text + more, m) by {
      var i :| 0 <= i < |stops| && OccursAt(stops[i], text, m);
      assert (text + more)[m..m + |stops[i]|] == text[m..m + |stops[i]|];
      assert OccursAt(stops[i], text + more, m);
    }
    EarlierMatchWasSeen(stops, text, more, all, m);
    assert text[..m] == (text + more)[..m];
  }

  lemma UnguardedSeesChunks(stops: seq<Text>) returns (chunks: seq<Text>)
    requires NonEmptyStops(stops) && !Guarded(stops)
    ensures Visible(stops, [], chunks) != Before(stops, Flatten(chunks))
  {
    var i, e :| 0 <= i < |stops| && 0 <= e <= |stops[i]| && !NoMatch(stops, stops[i][..e])
                && !MatchAt(stops, stops[i][..e], 0);
    var s := stops[i];
    chunks := [s[..e], s[e..]];
    assert chunks[1..] == [s[e..]] && Flatten([s[e..]]) == s[e..];
    assert Flatten(chunks) == s;
    assert [] + s[..e] == s[..e];
    assert OccursAt(s, s, 0) && MatchAt(stops, s, 0);
    assert Before(stops, s) == [];
    assert Visible(stops, [], chunks) == s[..e][..FirstMatch(stops, s[..e]).value];
  }

  /**
   * The exact condition for the filter not to depend on chunking: every chunking of every text
   * shows the text before the earliest match of the unchunked text if and only if the stop
   * strings are guarded.
   */
  lemma ChunkIndependence(stops: seq<Text>)
    requires NonEmptyStops(stops)
    ensures Guarded(stops) <==> forall chunks: seq<Text> :: Visible(stops, [], chunks) == Before(stops, Flatten(chunks))
  {
    if Guarded(stops) {
      assert NoMatch(stops, []);
      forall chunks: seq<Text> ensures Visible(stops, [], chunks) == Before(stops, Flatten(chunks)) {
        GuardedIgnoresChunks(stops, [], chunks);
        assert [] + Flatten(chunks) == Flatten(chunks);
      }
    } else {
      var chunks := UnguardedSeesChunks(stops);
    }
  }

  /** The concrete failure: stops "abc" and "b", text "abc" in one chunk or as "ab" then "c". */
  lemma InnerStopCounterexample()
    ensures var abc: Text, b: Text := [0x61, 0x62, 0x63], [0x62];
            && Visible([abc, b], [], [abc]) == []
            && Visible([abc, b], [], [abc[..2], abc[2..]]) == [0x61]
  {
    var abc: Text, b: Text := [0x61, 0x62, 0x63], [0x62];
    var stops := [abc, b];
    assert OccursAt(stops[0], abc, 0) && MatchAt(stops, abc, 0);
    assert [] + abc == abc && [] + abc[..2] == abc[..2];
    assert OccursAt(stops[1], abc[..2], 1) && MatchAt(stops, abc[..2], 1);
    assert abc[..2][0..1] == [0x61] != b;
    assert !OccursAt(stops[0], abc[..2], 0) && !OccursAt(stops[1], abc[..2], 0);
    assert !MatchAt(stops, abc[..2], 0);
    assert FirstMatch(stops, abc[..2]).value == 1;
    assert abc[..2][..1] == [0x61];
  }
}
