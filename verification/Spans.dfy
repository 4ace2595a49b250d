/** The span pipeline of services/realtime/scripts/segment_silero_ranges.py, in integer samples:
    detect raw speech spans, merge close ones, split long ones and drop short ones. */
module Spans {

  import opened Options

  datatype Span = Span(start: int, end: int)

  datatype Decision = Decision(started: bool, ended: bool)

  function Min(a: int, b: int): int { if a < b then a else b }

  function Max(a: int, b: int): int { if a < b then b else a }

  predicate Covers(spans: seq<Span>, x: int)
  {
    exists i :: 0 <= i < |spans| && spans[i].start <= x < spans[i].end
  }

  ghost predicate StartsSorted(spans: seq<Span>)
  {
    forall i, j :: 0 <= i < j < |spans| ==> spans[i].start <= spans[j].start
  }

  ghost predicate InRange(spans: seq<Span>, frameCount: int)
  {
    forall i :: 0 <= i < |spans| ==> 0 <= spans[i].start < spans[i].end <= frameCount
  }

  // ---- detect ---------------------------------------------------------------------------

  datatype Vad = Vad(frame: nat, pad: nat, silence: nat)

  datatype Detector = Detector(spans: seq<Span>, active: Option<int>)

  /** One decision of the detector, made when `current` samples have been consumed. */
  function Observe(d: Detector, v: Vad, frameCount: int, current: int, x: Decision): Detector
  {
    var active := if x.started && d.active.None? then Some(Max(0, current - v.frame - v.pad)) else d.active;
    if x.ended && active.Some? then
      var end := Min(frameCount, current - v.silence + v.pad);
      Detector(if end > active.value then d.spans + [Span(active.value, end)] else d.spans, None)
    else Detector(d.spans, active)
  }

  function ObserveAll(v: Vad, frameCount: int, xs: seq<Decision>): Detector
  {
    if xs == [] then Detector([], None)
    else Observe(ObserveAll(v, frameCount, xs[..|xs| - 1]), v, frameCount, |xs| * v.frame, xs[|xs| - 1])
  }

  function CloseSpan(d: Detector, frameCount: int): seq<Span>
  {
    if d.active.Some? then d.spans + [Span(d.active.value, frameCount)] else d.spans
  }

  /** A whole number of frames covers the samples; the last one may be padded with silence. */
  predicate FramesCover(v: Vad, frameCount: int, frames: nat)
  {
    v.frame > 0 && frameCount >= 0 && (frames - 1) * v.frame < frameCount <= frames * v.frame
  }

  ghost predicate DetectorOk(d: Detector, v: Vad, frameCount: int, current: int)
  {
    && InRange(d.spans, frameCount)
    && StartsSorted(d.spans)
    && (forall i :: 0 <= i < |d.spans| ==> d.spans[i].start <= Max(0, current - v.frame - v.pad))
    && (d.active.Some? ==>
         && 0 <= d.active.value <= Max(0, current - v.frame - v.pad)
         && forall i :: 0 <= i < |d.spans| ==> d.spans[i].start <= d.active.value)
  }

  lemma ObserveOk(d: Detector, v: Vad, frameCount: int, before: int, x: Decision)
    requires DetectorOk(d, v, frameCount, before) && v.frame > 0
    ensures DetectorOk(Observe(d, v, frameCount, before + v.frame, x), v, frameCount, before + v.frame)
  {
  }

  lemma OneMoreFrame(n: nat, frame: nat)
    ensures (n + 1) * frame == n * frame + frame
  {
  }

  lemma {:induction false} ObserveAllOk(v: Vad, frameCount: int, xs: seq<Decision>)
    requires v.frame > 0
    ensures DetectorOk(ObserveAll(v, frameCount, xs), v, frameCount, |xs| * v.frame)
  {
    if xs != [] {
      var init := xs[..|xs| - 1];
      ObserveAllOk(v, frameCount, init);
      OneMoreFrame(|init|, v.frame);
      var before, x := |init| * v.frame, xs[|xs| - 1];
      assert ObserveAll(v, frameCount, xs) == Observe(ObserveAll(v, frameCount, init), v, frameCount, before + v.frame, x);
      ObserveOk(ObserveAll(v, frameCount, init), v, frameCount, before, x);
    }
  }

  /** Raw spans are non-empty, inside the recording, and ordered by start. */
  lemma RawSpansOk(v: Vad, frameCount: int, xs: seq<Decision>)
    requires FramesCover(v, frameCount, |xs|)
    ensures var raw := CloseSpan(ObserveAll(v, frameCount, xs), frameCount);
      InRange(raw, frameCount) && StartsSorted(raw)
  {
    ObserveAllOk(v, frameCount, xs);
    assert |xs| * v.frame == (|xs| - 1) * v.frame + v.frame;
    if xs == [] {
      assert ObserveAll(v, frameCount, xs).active.None?;
    }
  }

  method DetectRawSpans(v: Vad, frameCount: int, decisions: seq<Decision>) returns (spans: seq<Span>)
    requires FramesCover(v, frameCount, |decisions|)
    ensures spans == CloseSpan(ObserveAll(v, frameCount, decisions), frameCount)
    ensures InRange(spans, frameCount) && StartsSorted(spans)
  {
    spans := [];
    var active: Option<int> := None;
    var currentSample := 0;
    for k := 0 to |decisions|
      invariant currentSample == k * v.frame
      invariant Detector(spans, active) == ObserveAll(v, frameCount, decisions[..k])
    {
      var decision := decisions[k];
      assert decisions[..k + 1][..k] == decisions[..k];
      currentSample := currentSample + v.frame;
      if decision.started && active.None? {
        active := Some(Max(0, currentSample - v.frame - v.pad));
      }
      if decision.ended && active.Some? {
        var end := Min(frameCount, currentSample - v.silence + v.pad);
        if end > active.value {
          spans := spans + [Span(active.value, end)];
        }
        active := None;
      }
    }
    assert decisions[..|decisions|] == decisions;
    RawSpansOk(v, frameCount, decisions);
    if active.Some? {
      spans := spans + [Span(active.value, frameCount)];
    }
  }

  // ---- merge -------------------------------------------------------------------------------

  predicate ValidSpan(s: Span)
  {
    s.start >= 0 && s.end > s.start
  }

  function MergeOne(merged: seq<Span>, s: Span, gap: int): seq<Span>
  {
    if merged != [] && s.start - merged[|merged| - 1].end <= gap then
      var last := merged[|merged| - 1];
      merged[..|merged| - 1] + [Span(last.start, Max(last.end, s.end))]
    else merged + [s]
  }

  function MergeAll(spans: seq<Span>, gap: int): seq<Span>
  {
    if spans == [] then [] else MergeOne(MergeAll(spans[..|spans| - 1], gap), spans[|spans| - 1], gap)
  }

  /** None is the error raised on an invalid span. */
  method MergeSpans(spans: seq<Span>, gap: int) returns (r: Option<seq<Span>>)
    ensures r.None? <==> exists s :: s in spans && (s.start < 0 || s.end <= s.start)
    ensures r.Some? ==> r.value == MergeAll(spans, gap)
  {
    var merged: seq<Span> := [];
    for k := 0 to |spans|
      invariant merged == MergeAll(spans[..k], gap)
      invariant forall j :: 0 <= j < k ==> ValidSpan(spans[j])
    {
      var s := spans[k];
      if s.start < 0 || s.end <= s.start {
        assert s in spans && !ValidSpan(s);
        return None;
      }
      assert spans[..k + 1][..k] == spans[..k];
      if merged != [] && s.start - merged[|merged| - 1].end <= gap {
        var last := merged[|merged| - 1];
        merged := merged[..|merged| - 1] + [Span(last.start, Max(last.end, s.end))];
      } else {
        merged := merged + [s];
      }
    }
    assert spans[..|spans|] == spans;
    return Some(merged);
  }

  /** Ordered, non-empty, and more than `gap` apart. */
  ghost predicate Separated(spans: seq<Span>, gap: int)
  {
    && (forall i :: 0 <= i < |spans| ==> spans[i].start < spans[i].end)
    && forall i :: 0 <= i < |spans| - 1 ==> spans[i + 1].start - spans[i].end > gap
  }

  /** Within reach: the sample lies in a pause of at most `gap` between two raw spans. */
  ghost predicate Bridged(spans: seq<Span>, gap: int, x: int)
  {
    exists i, j :: 0 <= i < |spans| && 0 <= j < |spans|
      && spans[i].end <= x < spans[j].start && spans[j].start - spans[i].end <= gap
  }

  ghost predicate MergeInv(spans: seq<Span>, merged: seq<Span>, gap: int)
  {
    && Separated(merged, gap)
    && (spans == [] <==> merged == [])
    && (merged != [] ==>
         && (forall i :: 0 <= i < |spans| ==> spans[i].end <= merged[|merged| - 1].end)
         && (exists i :: 0 <= i < |spans| && spans[i].end == merged[|merged| - 1].end)
         && (exists i :: 0 <= i < |spans| && spans[i].start == merged[|merged| - 1].start))
  }

  lemma MergeOneSeparated(merged: seq<Span>, s: Span, gap: int)
    requires Separated(merged, gap) && ValidSpan(s)
    ensures Separated(MergeOne(merged, s, gap), gap)
  {
    var after := MergeOne(merged, s, gap);
    forall i | 0 <= i < |after| - 1 ensures after[i + 1].start - after[i].end > gap {
      if i < |merged| - 1 { assert merged[i + 1].start - merged[i].end > gap; }
    }
  }

  lemma MergeOneKeepsInv(init: seq<Span>, merged: seq<Span>, s: Span, gap: int)
    requires MergeInv(init, merged, gap) && ValidSpan(s) && StartsSorted(init + [s]) && gap >= 0
    ensures MergeInv(init + [s], MergeOne(merged, s, gap), gap)
  {
    MergeOneSeparated(merged, s, gap);
    var spans, after := init + [s], MergeOne(merged, s, gap);
    assert spans[|init|] == s;
    if merged != [] {
      var last := merged[|merged| - 1];
      var i :| 0 <= i < |init| && init[i].end == last.end;
      var j :| 0 <= j < |init| && init[j].start == last.start;
      assert spans[i].end == last.end && spans[j].start == last.start;
      forall k | 0 <= k < |spans| ensures spans[k].end <= after[|after| - 1].end {
        if k < |init| { assert spans[k] == init[k]; }
      }
    }
  }

  lemma {:induction false} MergeKeepsInv(spans: seq<Span>, gap: int)
    requires StartsSorted(spans) && gap >= 0 && forall s :: s in spans ==> ValidSpan(s)
    ensures MergeInv(spans, MergeAll(spans, gap), gap)
  {
    if spans != [] {
      var init, s := spans[..|spans| - 1], spans[|spans| - 1];
      assert spans == init + [s];
      assert s in spans && forall t :: t in init ==> t in spans;
      MergeKeepsInv(init, gap);
      MergeOneKeepsInv(init, MergeAll(init, gap), s, gap);
    }
  }

  /** The last merged span covers every sample from its start up to its end. */
  lemma CoversLast(merged: seq<Span>, x: int)
    requires merged != []
    ensures Covers(merged, x) <==>
            Covers(merged[..|merged| - 1], x) || merged[|merged| - 1].start <= x < merged[|merged| - 1].end
  {
    var init := merged[..|merged| - 1];
    if i :| 0 <= i < |init| && init[i].start <= x < init[i].end {
      assert merged[i].start <= x < merged[i].end;
    }
    if i :| 0 <= i < |merged| && merged[i].start <= x < merged[i].end {
      if i < |init| { assert init[i].start <= x < init[i].end; }
    }
  }

  lemma BridgedGrows(spans: seq<Span>, s: Span, gap: int, x: int)
    requires forall i :: 0 <= i < |spans| ==> spans[i].start <= s.start && ValidSpan(spans[i])
    requires ValidSpan(s) && gap >= 0
    ensures Bridged(spans + [s], gap, x) <==>
      Bridged(spans, gap, x) || ShortPause(spans, s, gap, x)
  {
    var all := spans + [s];
    if i, j :| 0 <= i < |all| && 0 <= j < |all| && all[i].end <= x < all[j].start && all[j].start - all[i].end <= gap {
      assert i < |spans|;
      if j < |spans| { assert spans[i].end <= x < spans[j].start; } else { assert spans[i].end <= x < s.start; }
    }
    if i, j :| 0 <= i < |spans| && 0 <= j < |spans| && spans[i].end <= x < spans[j].start && spans[j].start - spans[i].end <= gap {
      assert all[i].end <= x < all[j].start;
    }
    if i :| 0 <= i < |spans| && spans[i].end <= x < s.start && s.start - spans[i].end <= gap {
      assert all[i].end <= x < all[|spans|].start;
    }
  }

  /** The step of `MergeCoverage`: one more span, merged or appended. */
  lemma MergeOneCoverage(init: seq<Span>, merged: seq<Span>, s: Span, gap: int, x: int)
    requires MergeInv(init, merged, gap) && ValidSpan(s) && merged != []
    requires merged[|merged| - 1].start <= s.start
    ensures Covers(MergeOne(merged, s, gap), x) <==>
      Covers(merged, x) || s.start <= x < s.end ||
      (s.start - merged[|merged| - 1].end <= gap && merged[|merged| - 1].end <= x < s.start)
  {
    var after, last := MergeOne(merged, s, gap), merged[|merged| - 1];
    CoversLast(after, x);
    CoversLast(merged, x);
    if s.start - last.end <= gap {
      assert after[..|after| - 1] == merged[..|merged| - 1];
    } else {
      assert after[..|after| - 1] == merged;
    }
  }

  /** Exact coverage: merging keeps every raw sample and adds exactly the short pauses. */
  lemma {:induction false} MergeCoverage(spans: seq<Span>, gap: int, x: int)
    requires StartsSorted(spans) && gap >= 0 && forall s :: s in spans ==> ValidSpan(s)
    ensures Covers(MergeAll(spans, gap), x) <==> Covers(spans, x) || Bridged(spans, gap, x)
  {
    if spans != [] {
      var init, s := spans[..|spans| - 1], spans[|spans| - 1];
      assert spans == init + [s];
      assert s in spans && forall t :: t in init ==> t in spans;
      MergeCoverage(init, gap, x);
      MergeKeepsInv(init, gap);
      CoversLast(spans, x);
      BridgedGrows(init, s, gap, x);
      MergeStepCovers(init, s, gap, x);
    }
  }

  lemma MergeStepCovers(init: seq<Span>, s: Span, gap: int, x: int)
    requires StartsSorted(init + [s]) && ValidSpan(s) && MergeInv(init, MergeAll(init, gap), gap)
    requires Covers(MergeAll(init, gap), x) <==> Covers(init, x) || Bridged(init, gap, x)
    ensures Covers(MergeOne(MergeAll(init, gap), s, gap), x) <==>
      Covers(init, x) || s.start <= x < s.end || Bridged(init, gap, x) || ShortPause(init, s, gap, x)
  {
    var merged := MergeAll(init, gap);
    if merged == [] {
      assert init == [] && MergeOne(merged, s, gap) == [s];
      CoversLast([s], x);
    } else {
      var last := merged[|merged| - 1];
      var j :| 0 <= j < |init| && init[j].start == last.start;
      forall i | 0 <= i < |init| ensures init[i].start <= s.start {
        assert (init + [s])[i].start <= (init + [s])[|init|].start;
      }
      MergeOneCoverage(init, merged, s, gap, x);
      PauseReachesLast(init, merged, s, gap, x);
    }
  }

  ghost predicate ShortPause(init: seq<Span>, s: Span, gap: int, x: int)
  {
    exists i :: 0 <= i < |init| && init[i].end <= x < s.start && s.start - init[i].end <= gap
  }

  /** A pause before `s` is short for some earlier span only if the latest end, or an earlier bridge, spans it. */
  lemma PauseReachesLast(init: seq<Span>, merged: seq<Span>, s: Span, gap: int, x: int)
    requires MergeInv(init, merged, gap) && merged != []
    requires forall i :: 0 <= i < |init| ==> init[i].start <= s.start
    requires Bridged(init, gap, x) ==> Covers(merged, x)
    ensures var last := merged[|merged| - 1];
      ShortPause(init, s, gap, x) ==>
        (s.start - last.end <= gap && last.end <= x < s.start) || Covers(merged, x)
    ensures var last := merged[|merged| - 1];
      s.start - last.end <= gap && last.end <= x < s.start ==> ShortPause(init, s, gap, x)
  {
    var last := merged[|merged| - 1];
    var m :| 0 <= m < |init| && init[m].end == last.end;
    var j :| 0 <= j < |init| && init[j].start == last.start;
    CoversLast(merged, x);
    if i :| 0 <= i < |init| && init[i].end <= x < s.start && s.start - init[i].end <= gap {
      if x < last.start {
        assert init[i].end <= x < init[j].start;
      }
    }
  }

  lemma {:induction false} MergeLeavesSeparated(spans: seq<Span>, gap: int)
    requires Separated(spans, gap)
    ensures MergeAll(spans, gap) == spans
  {
    if spans != [] {
      var init, s := spans[..|spans| - 1], spans[|spans| - 1];
      assert spans == init + [s];
      MergeLeavesSeparated(init, gap);
      if init != [] { assert spans[|init| - 1 + 1].start - spans[|init| - 1].end > gap; }
    }
  }

  /** Merging twice is merging once. */
  lemma MergeIsIdempotent(spans: seq<Span>, gap: int)
    requires StartsSorted(spans) && gap >= 0 && forall s :: s in spans ==> ValidSpan(s)
    ensures MergeAll(MergeAll(spans, gap), gap) == MergeAll(spans, gap)
  {
    MergeKeepsInv(spans, gap);
    MergeLeavesSeparated(MergeAll(spans, gap), gap);
  }

  // ---- split and filter ----------------------------------------------------------------------

  /** Where the loop cuts a remainder longer than `hi`. */
  function Cut(start: int, end: int, lo: int, hi: int): int
  {
    if 0 < end - (start + hi) < lo then end - lo else start + hi
  }

  function SplitSpan(start: int, end: int, lo: int, hi: int): seq<Span>
    requires 1 <= lo <= hi
    decreases end - start
  {
    if end - start > hi && Cut(start, end, lo, hi) - start >= lo then
      [Span(start, Cut(start, end, lo, hi))] + SplitSpan(Cut(start, end, lo, hi), end, lo, hi)
    else if end - start >= lo then [Span(start, end)]
    else []
  }

  function SplitAll(spans: seq<Span>, lo: int, hi: int): seq<Span>
    requires 1 <= lo <= hi
  {
    if spans == [] then []
    else
      SplitAll(spans[..|spans| - 1], lo, hi) +
      SplitSpan(spans[|spans| - 1].start, spans[|spans| - 1].end, lo, hi)
  }

  method SplitAndFilterSpans(spans: seq<Span>, lo: int, hi: int) returns (result: seq<Span>)
    requires 1 <= lo <= hi
    ensures result == SplitAll(spans, lo, hi)
  {
    result := [];
    for k := 0 to |spans|
      invariant result == SplitAll(spans[..k], lo, hi)
    {
      var rawEnd := spans[k].end;
      var start := spans[k].start;
      ghost var done := result;
      while rawEnd - start > hi
        invariant done + SplitSpan(spans[k].start, rawEnd, lo, hi) == result + SplitSpan(start, rawEnd, lo, hi)
        decreases rawEnd - start
      {
        var remainingAfterMax := rawEnd - (start + hi);
        var split := if 0 < remainingAfterMax < lo then rawEnd - lo else start + hi;
        if split - start < lo {
          break;
        }
        assert result + SplitSpan(start, rawEnd, lo, hi)
            == (result + [Span(start, split)]) + SplitSpan(split, rawEnd, lo, hi);
        result := result + [Span(start, split)];
        start := split;
      }
      if rawEnd - start >= lo {
        result := result + [Span(start, rawEnd)];
      }
      assert spans[..k + 1][..k] == spans[..k];
    }
    assert spans[..|spans|] == spans;
  }

  /** Consecutive pieces that tile `[start, end)` exactly. */
  ghost predicate Tiles(pieces: seq<Span>, start: int, end: int)
  {
    && |pieces| >= 1
    && pieces[0].start == start && pieces[|pieces| - 1].end == end
    && (forall i :: 0 <= i < |pieces| - 1 ==> pieces[i].end == pieces[i + 1].start)
  }

  ghost predicate PiecesWithin(pieces: seq<Span>, lo: int, hi: int)
  {
    forall i :: 0 <= i < |pieces| ==> lo <= pieces[i].end - pieces[i].start <= hi
  }

  lemma TilesCons(head: Span, rest: seq<Span>, end: int)
    requires Tiles(rest, head.end, end)
    ensures Tiles([head] + rest, head.start, end)
  {
    var all := [head] + rest;
    forall i | 0 <= i < |all| - 1 ensures all[i].end == all[i + 1].start {
      if i > 0 { assert rest[i - 1].end == rest[i].start; }
    }
  }

  /** A long enough span is tiled by pieces of at least `lo`, at most `max(hi, 2*lo - 1)`. */
  lemma {:induction false} SplitTiles(start: int, end: int, lo: int, hi: int)
    requires 1 <= lo <= hi && end - start >= lo
    ensures Tiles(SplitSpan(start, end, lo, hi), start, end)
    ensures PiecesWithin(SplitSpan(start, end, lo, hi), lo, Max(hi, 2 * lo - 1))
    decreases end - start
  {
    var cut := Cut(start, end, lo, hi);
    if end - start > hi && cut - start >= lo {
      SplitTiles(cut, end, lo, hi);
      TilesCons(Span(start, cut), SplitSpan(cut, end, lo, hi), end);
    }
  }

  lemma ShortSpansVanish(start: int, end: int, lo: int, hi: int)
    requires 1 <= lo <= hi
    ensures SplitSpan(start, end, lo, hi) == [] <==> end - start < lo
  {
    if end - start >= lo {
      SplitTiles(start, end, lo, hi);
    }
  }

  /** The remainder left when whole pieces of `hi` may no longer be cut off. */
  function LastRemainder(length: int, lo: int, hi: int): int
    requires hi >= 1
    decreases length
  {
    if length < lo + hi || length < 0 then length else LastRemainder(length - hi, lo, hi)
  }

  lemma {:induction false} LastRemainderClosedForm(length: int, lo: int, hi: int)
    requires 1 <= lo <= hi && length >= lo
    ensures LastRemainder(length, lo, hi) == lo + (length - lo) % hi
    decreases length
  {
    var n := length - lo;
    if n < hi {
      ModUnique(n, hi, 0, n);
    } else {
      LastRemainderClosedForm(length - hi, lo, hi);
      assert n - hi == hi * ((n - hi) / hi) + (n - hi) % hi;
      ModUnique(n, hi, (n - hi) / hi + 1, (n - hi) % hi);
    }
  }

  lemma ModUnique(n: int, d: int, q: int, r: int)
    requires d >= 1 && n == d * q + r && 0 <= r < d
    ensures n % d == r && n / d == q
  {
    QuotientUnique(d, n / d, n % d, q, r);
  }

  lemma QuotientUnique(d: int, q: int, r: int, q': int, r': int)
    requires d >= 1 && 0 <= r < d && 0 <= r' < d && d * q + r == d * q' + r'
    ensures q == q' && r == r'
  {
    if q > q' {
      MultipleGap(d, q, q');
    } else if q < q' {
      MultipleGap(d, q', q);
    }
  }

  lemma {:induction false} MultipleGap(d: int, a: int, b: int)
    requires d >= 1 && a > b
    ensures d * a >= d * b + d
    decreases a - b
  {
    if a > b + 1 {
      MultipleGap(d, a - 1, b);
    }
    assert d * a == d * (a - 1) + d;
  }

  lemma PiecesWithinCons(head: Span, rest: seq<Span>, lo: int, hi: int)
    ensures PiecesWithin([head] + rest, lo, hi) <==>
            lo <= head.end - head.start <= hi && PiecesWithin(rest, lo, hi)
  {
    var all := [head] + rest;
    assert all[0] == head && forall i :: 0 <= i < |rest| ==> all[i + 1] == rest[i];
  }

  lemma OnePieceWithin(piece: Span, lo: int, hi: int)
    ensures PiecesWithin([piece], lo, hi) <==> lo <= piece.end - piece.start <= hi
  {
    assert [piece][0] == piece;
  }

  /** Exactly when some piece is longer than `hi`: the last remainder cannot be cut in two. */
  lemma {:induction false} OversizeExactly(start: int, end: int, lo: int, hi: int)
    requires 1 <= lo <= hi && end - start >= lo
    ensures PiecesWithin(SplitSpan(start, end, lo, hi), lo, hi) <==>
            !(hi < LastRemainder(end - start, lo, hi) < 2 * lo)
    decreases end - start
  {
    var cut := Cut(start, end, lo, hi);
    if end - start > hi && cut - start >= lo {
      OversizeExactly(cut, end, lo, hi);
      PiecesWithinCons(Span(start, cut), SplitSpan(cut, end, lo, hi), lo, hi);
    } else {
      OnePieceWithin(Span(start, end), lo, hi);
    }
  }

  /** It happens: 15 samples, with pieces of exactly 10 asked for, stay in one piece. */
  lemma OversizeHappens()
    ensures SplitSpan(0, 15, 10, 10) == [Span(0, 15)] && !PiecesWithin(SplitSpan(0, 15, 10, 10), 10, 10)
  {
    OversizeExactly(0, 15, 10, 10);
  }

  /** The number of pieces of at most `hi` that a length needs. */
  function CeilDiv(length: int, hi: int): int
    requires hi >= 1
  {
    (length + hi - 1) / hi
  }

  lemma CeilDivStep(length: int, hi: int)
    requires hi >= 1
    ensures CeilDiv(length, hi) == 1 + CeilDiv(length - hi, hi)
  {
    var n := length + hi - 1;
    ModUnique(n - hi, hi, n / hi - 1, n % hi);
  }

  lemma CeilDivOne(length: int, hi: int)
    requires hi >= 1 && 1 <= length <= hi
    ensures CeilDiv(length, hi) == 1
  {
    ModUnique(length + hi - 1, hi, 1, length - 1);
  }

  /** When `2*lo <= hi + 1` every piece fits and the count is the ceiling of length over `hi`. */
  lemma {:induction false} SplitCount(start: int, end: int, lo: int, hi: int)
    requires 1 <= lo <= hi && 2 * lo <= hi + 1 && end - start >= lo
    ensures PiecesWithin(SplitSpan(start, end, lo, hi), lo, hi)
    ensures |SplitSpan(start, end, lo, hi)| == CeilDiv(end - start, hi)
    decreases end - start
  {
    SplitTiles(start, end, lo, hi);
    var cut := Cut(start, end, lo, hi);
    if end - start > hi {
      SplitCount(cut, end, lo, hi);
      CeilDivStep(end - start, hi);
      if end - start - hi < lo {
        CeilDivOne(end - start - hi, hi);
        CeilDivOne(lo, hi);
      }
    } else {
      CeilDivOne(end - start, hi);
    }
  }

  /** No tiling with pieces of at most `hi` uses fewer pieces. */
  lemma {:induction false} NoTilingIsShorter(pieces: seq<Span>, start: int, end: int, hi: int)
    requires hi >= 1 && Tiles(pieces, start, end)
    requires forall i :: 0 <= i < |pieces| ==> pieces[i].end - pieces[i].start <= hi
    ensures |pieces| >= CeilDiv(end - start, hi)
    decreases |pieces|
  {
    if |pieces| == 1 {
      CeilDivMonotone(end - start, hi, hi);
      CeilDivOne(hi, hi);
    } else {
      var rest := pieces[1..];
      assert pieces[0].end == pieces[1].start;
      assert Tiles(rest, pieces[0].end, end) by {
        forall i | 0 <= i < |rest| - 1 ensures rest[i].end == rest[i + 1].start {
          assert pieces[i + 1].end == pieces[i + 2].start;
        }
      }
      NoTilingIsShorter(rest, pieces[0].end, end, hi);
      CeilDivMonotone(end - start - hi, end - pieces[0].end, hi);
      CeilDivStep(end - start, hi);
    }
  }

  lemma CeilDivMonotone(a: int, b: int, hi: int)
    requires hi >= 1 && a <= b
    ensures CeilDiv(a, hi) <= CeilDiv(b, hi)
  {
    QuotientMonotone(hi, CeilDiv(a, hi), (a + hi - 1) % hi, CeilDiv(b, hi), (b + hi - 1) % hi);
  }

  lemma QuotientMonotone(d: int, q: int, r: int, q': int, r': int)
    requires d >= 1 && 0 <= r < d && 0 <= r' < d && d * q + r <= d * q' + r'
    ensures q <= q'
  {
    if q > q' {
      MultipleGap(d, q, q');
    }
  }

  // ---- the whole pipeline -------------------------------------------------------------------------

  /** Pieces stay inside the recording, ordered and disjoint, and within the length bounds. */
  ghost predicate ClipsOk(clips: seq<Span>, frameCount: int, lo: int, hi: int)
  {
    && InRange(clips, frameCount)
    && PiecesWithin(clips, lo, Max(hi, 2 * lo - 1))
    && forall i, j :: 0 <= i < j < |clips| ==> clips[i].end <= clips[j].start
  }

  lemma {:induction false} TilesOrdered(pieces: seq<Span>, start: int, end: int, lo: int, hi: int)
    requires Tiles(pieces, start, end) && PiecesWithin(pieces, lo, hi) && 1 <= lo
    ensures forall i :: 0 <= i < |pieces| ==> start <= pieces[i].start < pieces[i].end <= end
    ensures forall i, j :: 0 <= i < j < |pieces| ==> pieces[i].end <= pieces[j].start
    decreases |pieces|
  {
    if |pieces| > 1 {
      var rest := pieces[1..];
      assert pieces[0].end == pieces[1].start;
      assert Tiles(rest, pieces[0].end, end) by {
        forall i | 0 <= i < |rest| - 1 ensures rest[i].end == rest[i + 1].start {
          assert pieces[i + 1].end == pieces[i + 2].start;
        }
      }
      TilesOrdered(rest, pieces[0].end, end, lo, hi);
      forall i | 1 <= i < |pieces| ensures pieces[0].end <= pieces[i].start < pieces[i].end <= end {
        assert rest[i - 1] == pieces[i];
      }
      forall i, j | 0 <= i < j < |pieces| ensures pieces[i].end <= pieces[j].start {
        if i > 0 { assert rest[i - 1].end <= rest[j - 1].start; }
      }
    }
  }

  /** What one span contributes lies inside it, in order and within the length bounds. */
  lemma SplitSpanOk(s: Span, frameCount: int, lo: int, hi: int)
    requires 0 <= s.start < s.end <= frameCount && 1 <= lo <= hi
    ensures ClipsOk(SplitSpan(s.start, s.end, lo, hi), frameCount, lo, hi)
    ensures WithinSpan(SplitSpan(s.start, s.end, lo, hi), s.start, s.end)
  {
    if s.end - s.start >= lo {
      SplitTiles(s.start, s.end, lo, hi);
      TilesOrdered(SplitSpan(s.start, s.end, lo, hi), s.start, s.end, lo, Max(hi, 2 * lo - 1));
    }
  }

  ghost predicate WithinSpan(clips: seq<Span>, from: int, to: int)
  {
    forall i :: 0 <= i < |clips| ==> from <= clips[i].start && clips[i].end <= to
  }

  lemma ClipsAppend(before: seq<Span>, now: seq<Span>, frameCount: int, lo: int, hi: int, mid: int, end: int)
    requires ClipsOk(before, frameCount, lo, hi) && ClipsOk(now, frameCount, lo, hi)
    requires WithinSpan(before, 0, mid) && WithinSpan(now, mid, end) && mid <= end
    ensures ClipsOk(before + now, frameCount, lo, hi)
    ensures WithinSpan(before + now, 0, end)
  {
  }

  lemma {:induction false} SplitAllOk(spans: seq<Span>, frameCount: int, gap: int, lo: int, hi: int)
    requires Separated(spans, gap) && gap >= 0 && InRange(spans, frameCount) && 1 <= lo <= hi
    ensures ClipsOk(SplitAll(spans, lo, hi), frameCount, lo, hi)
    ensures WithinSpan(SplitAll(spans, lo, hi), 0, if spans == [] then 0 else spans[|spans| - 1].end)
  {
    if spans != [] {
      var init, s := spans[..|spans| - 1], spans[|spans| - 1];
      SplitAllOk(init, frameCount, gap, lo, hi);
      SplitSpanOk(s, frameCount, lo, hi);
      if init != [] { assert spans[|init| - 1 + 1].start - spans[|init| - 1].end > gap; }
      ClipsAppend(SplitAll(init, lo, hi), SplitSpan(s.start, s.end, lo, hi), frameCount, lo, hi, s.start, s.end);
    }
  }

  lemma {:induction false} MergeStaysInRange(spans: seq<Span>, gap: int, frameCount: int)
    requires InRange(spans, frameCount)
    ensures InRange(MergeAll(spans, gap), frameCount)
  {
    if spans != [] {
      MergeStaysInRange(spans[..|spans| - 1], gap, frameCount);
    }
  }

  /** `segment_audio` without the files: the three stages composed. */
  method Segment(v: Vad, frameCount: int, decisions: seq<Decision>, gap: int, lo: int, hi: int) returns (clips: seq<Span>)
    requires FramesCover(v, frameCount, |decisions|) && gap >= 0 && 1 <= lo <= hi
    ensures ClipsOk(clips, frameCount, lo, hi)
    ensures clips == SplitAll(MergeAll(CloseSpan(ObserveAll(v, frameCount, decisions), frameCount), gap), lo, hi)
  {
    var raw := DetectRawSpans(v, frameCount, decisions);
    var merged := MergeSpans(raw, gap);
    MergeKeepsInv(raw, gap);
    MergeStaysInRange(raw, gap, frameCount);
    clips := SplitAndFilterSpans(merged.value, lo, hi);
    SplitAllOk(merged.value, frameCount, gap, lo, hi);
  }
}
