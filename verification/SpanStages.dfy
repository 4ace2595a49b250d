/** What each stage of the span pipeline keeps, said of the detector's decisions and of samples. */
module SpanStages {
  import opened Options
  import opened Spans

  // ---- detect -----------------------------------------------------------------------------------

  // A stretch of speech: the frame that started it and the frame that ended it.
  datatype Stretch = Stretch(first: nat, last: nat)

  ghost predicate NoneStarts(xs: seq<Decision>, from: int, to: int)
  {
    forall k :: 0 <= k < |xs| && from <= k < to ==> !xs[k].started
  }

  ghost predicate NoneEnds(xs: seq<Decision>, from: int, to: int)
  {
    forall k :: 0 <= k < |xs| && from <= k < to ==> !xs[k].ended
  }

  function After(ss: seq<Stretch>): nat
  {
    if ss == [] then 0 else ss[|ss| - 1].last + 1
  }

  /** The stretch starts with the first start after the stretch before it, and ends with the first end
      from there on, possibly in the same frame. */
  ghost predicate Follows(xs: seq<Decision>, from: nat, s: Stretch)
  {
    && from <= s.first <= s.last < |xs| && xs[s.first].started && xs[s.last].ended
    && NoneStarts(xs, from, s.first) && NoneEnds(xs, s.first, s.last)
  }

  /** The decisions fall into these stretches, the last of them perhaps still open at the end. */
  ghost predicate Stretches(xs: seq<Decision>, ss: seq<Stretch>, open: Option<nat>)
  {
    && (forall i :: 0 <= i < |ss| ==> Follows(xs, After(ss[..i]), ss[i]))
    && if open.None? then NoneStarts(xs, After(ss), |xs|)
       else
         && After(ss) <= open.value < |xs| && xs[open.value].started
         && NoneStarts(xs, After(ss), open.value) && NoneEnds(xs, open.value, |xs|)
  }

  function StartSample(v: Vad, first: nat): int
  {
    if first * v.frame < v.pad then 0 else first * v.frame - v.pad
  }

  function EndSample(v: Vad, frameCount: int, last: nat): int
  {
    var end := (last + 1) * v.frame - v.silence + v.pad;
    if end < frameCount then end else frameCount
  }

  /** The spans of closed stretches: padded at both ends, without the silence that ended them, cut to the
      recording; those that come out empty are dropped. */
  function SpansOf(v: Vad, frameCount: int, ss: seq<Stretch>): seq<Span>
  {
    if ss == [] then []
    else
      var start, end := StartSample(v, ss[|ss| - 1].first), EndSample(v, frameCount, ss[|ss| - 1].last);
      SpansOf(v, frameCount, ss[..|ss| - 1]) + if end > start then [Span(start, end)] else []
  }

  function Snapshot(v: Vad, frameCount: int, ss: seq<Stretch>, open: Option<nat>): Detector
  {
    Detector(SpansOf(v, frameCount, ss), if open.Some? then Some(StartSample(v, open.value)) else None)
  }

  lemma FollowsStays(xs: seq<Decision>, x: Decision, from: nat, s: Stretch)
    requires Follows(xs, from, s)
    ensures Follows(xs + [x], from, s)
  {
  }

  lemma StretchAdded(xs: seq<Decision>, ss: seq<Stretch>, s: Stretch)
    requires forall i :: 0 <= i < |ss| ==> Follows(xs, After(ss[..i]), ss[i])
    requires Follows(xs, After(ss), s)
    ensures forall i :: 0 <= i < |ss| + 1 ==> Follows(xs, After((ss + [s])[..i]), (ss + [s])[i])
  {
    forall i | 0 <= i < |ss| + 1 ensures Follows(xs, After((ss + [s])[..i]), (ss + [s])[i]) {
      if i < |ss| { assert (ss + [s])[..i] == ss[..i]; } else { assert (ss + [s])[..i] == ss; }
    }
  }

  lemma SpanAdded(v: Vad, frameCount: int, ss: seq<Stretch>, s: Stretch)
    ensures var start, end := StartSample(v, s.first), EndSample(v, frameCount, s.last);
      SpansOf(v, frameCount, ss + [s]) == SpansOf(v, frameCount, ss) + if end > start then [Span(start, end)] else []
  {
    assert (ss + [s])[..|ss|] == ss;
  }

  lemma FrameSamples(v: Vad, n: nat)
    ensures (n + 1) * v.frame - v.frame == n * v.frame
  {
  }

  /** The stretch that is open while frame `n` is observed. */
  function OpenAt(n: nat, x: Decision, open: Option<nat>): Option<nat>
  {
    if open.Some? then open else if x.started then Some(n) else None
  }

  lemma StretchesKept(xs: seq<Decision>, x: Decision, ss: seq<Stretch>)
    requires forall i :: 0 <= i < |ss| ==> Follows(xs, After(ss[..i]), ss[i])
    ensures forall i :: 0 <= i < |ss| ==> Follows(xs + [x], After(ss[..i]), ss[i])
    ensures After(ss) <= |xs|
  {
    forall i | 0 <= i < |ss| ensures Follows(xs + [x], After(ss[..i]), ss[i]) {
      FollowsStays(xs, x, After(ss[..i]), ss[i]);
    }
    if ss != [] { assert Follows(xs, After(ss[..|ss| - 1]), ss[|ss| - 1]); }
  }

  lemma StretchGoesOn(xs: seq<Decision>, x: Decision, ss: seq<Stretch>, open: Option<nat>)
    requires Stretches(xs, ss, open) && (OpenAt(|xs|, x, open).None? || !x.ended)
    ensures Stretches(xs + [x], ss, OpenAt(|xs|, x, open))
  {
    StretchesKept(xs, x, ss);
  }

  lemma StretchCloses(xs: seq<Decision>, x: Decision, ss: seq<Stretch>, open: Option<nat>, s: Stretch)
    requires Stretches(xs, ss, open) && x.ended
    requires OpenAt(|xs|, x, open).Some? && s == Stretch(OpenAt(|xs|, x, open).value, |xs|)
    ensures Stretches(xs + [x], ss + [s], None)
  {
    StretchesKept(xs, x, ss);
    assert Follows(xs + [x], After(ss), s);
    StretchAdded(xs + [x], ss, s);
  }

  lemma ObservedSamples(v: Vad, frameCount: int, ss: seq<Stretch>, open: Option<nat>, n: nat, current: int, x: Decision)
    requires current == (n + 1) * v.frame
    ensures var now := OpenAt(n, x, open);
      Observe(Snapshot(v, frameCount, ss, open), v, frameCount, current, x)
      == if now.Some? && x.ended then Snapshot(v, frameCount, ss + [Stretch(now.value, n)], None)
         else Snapshot(v, frameCount, ss, now)
  {
    FrameSamples(v, n);
    var now := OpenAt(n, x, open);
    if now.Some? && x.ended {
      SpanAdded(v, frameCount, ss, Stretch(now.value, n));
    }
  }

  lemma OneMoreDecision(v: Vad, frameCount: int, xs: seq<Decision>, x: Decision, ss: seq<Stretch>, open: Option<nat>, current: int)
      returns (ss': seq<Stretch>, open': Option<nat>)
    requires Stretches(xs, ss, open) && current == (|xs| + 1) * v.frame
    ensures Stretches(xs + [x], ss', open')
    ensures Snapshot(v, frameCount, ss', open') == Observe(Snapshot(v, frameCount, ss, open), v, frameCount, current, x)
  {
    ObservedSamples(v, frameCount, ss, open, |xs|, current, x);
    var now := OpenAt(|xs|, x, open);
    if now.Some? && x.ended {
      StretchCloses(xs, x, ss, open, Stretch(now.value, |xs|));
      ss', open' := ss + [Stretch(now.value, |xs|)], None;
    } else {
      StretchGoesOn(xs, x, ss, open);
      ss', open' := ss, now;
    }
  }

  lemma {:induction false} ObservedExactly(v: Vad, frameCount: int, xs: seq<Decision>) returns (ss: seq<Stretch>, open: Option<nat>)
    ensures Stretches(xs, ss, open) && ObserveAll(v, frameCount, xs) == Snapshot(v, frameCount, ss, open)
  {
    ss, open := [], None;
    if xs != [] {
      var init, x := xs[..|xs| - 1], xs[|xs| - 1];
      ss, open := ObservedExactly(v, frameCount, init);
      ss, open := OneMoreDecision(v, frameCount, init, x, ss, open, |xs| * v.frame);
      assert init + [x] == xs;
    }
  }

  /** Detection, exactly: the raw spans are those of the stretches into which the decisions fall, and a
      stretch still open at the end runs to the end of the recording. */
  lemma DetectionExactly(v: Vad, frameCount: int, xs: seq<Decision>) returns (ss: seq<Stretch>, open: Option<nat>)
    ensures Stretches(xs, ss, open)
    ensures CloseSpan(ObserveAll(v, frameCount, xs), frameCount)
         == SpansOf(v, frameCount, ss) + if open.Some? then [Span(StartSample(v, open.value), frameCount)] else []
  {
    ss, open := ObservedExactly(v, frameCount, xs);
  }

  // ---- split --------------------------------------------------------------------------------------

  /** How a span is cut: every piece but the last is full, or just so much shorter that the last keeps the
      minimum; the last is short enough, or too short to be cut in two. */
  ghost predicate CutAsLate(pieces: seq<Span>, end: int, lo: int, hi: int)
  {
    && (forall i :: 0 <= i < |pieces| - 1 ==>
          && end - pieces[i].start > hi
          && pieces[i].end == if end - pieces[i].start < hi + lo then end - lo else pieces[i].start + hi)
    && (forall i :: i == |pieces| - 1 && i >= 0 ==>
          end - pieces[i].start <= hi || end - pieces[i].start < Min(2 * lo, hi + lo))
  }

  lemma CutFirst(head: Span, rest: seq<Span>, end: int, lo: int, hi: int)
    requires CutAsLate(rest, end, lo, hi) && rest != [] && end - head.start > hi
    requires head.end == if end - head.start < hi + lo then end - lo else head.start + hi
    ensures CutAsLate([head] + rest, end, lo, hi)
  {
    var all := [head] + rest;
    forall i | 0 <= i < |all| - 1
      ensures end - all[i].start > hi && all[i].end == if end - all[i].start < hi + lo then end - lo else all[i].start + hi
    {
      if i > 0 { assert all[i] == rest[i - 1]; }
    }
    assert all[|all| - 1] == rest[|rest| - 1];
  }

  lemma {:induction false} CutsExactly(start: int, end: int, lo: int, hi: int)
    requires 1 <= lo <= hi
    ensures CutAsLate(SplitSpan(start, end, lo, hi), end, lo, hi)
    decreases end - start
  {
    var cut := Cut(start, end, lo, hi);
    if end - start > hi && cut - start >= lo {
      CutsExactly(cut, end, lo, hi);
      SplitTiles(cut, end, lo, hi);
      CutFirst(Span(start, cut), SplitSpan(cut, end, lo, hi), end, lo, hi);
    }
  }

  lemma CoversAppend(a: seq<Span>, b: seq<Span>, x: int)
    ensures Covers(a + b, x) <==> Covers(a, x) || Covers(b, x)
  {
    var all := a + b;
    if i :| 0 <= i < |a| && a[i].start <= x < a[i].end { assert all[i].start <= x < all[i].end; }
    if i :| 0 <= i < |b| && b[i].start <= x < b[i].end { assert all[|a| + i].start <= x < all[|a| + i].end; }
    if i :| 0 <= i < |all| && all[i].start <= x < all[i].end {
      if i >= |a| { assert b[i - |a|].start <= x < b[i - |a|].end; } else { assert a[i].start <= x < a[i].end; }
    }
  }

  lemma {:induction false} TilesCover(pieces: seq<Span>, start: int, end: int, x: int)
    requires Tiles(pieces, start, end) && forall i :: 0 <= i < |pieces| ==> pieces[i].start <= pieces[i].end
    ensures Covers(pieces, x) <==> start <= x < end
    decreases |pieces|
  {
    CoversAppend(pieces[..1], pieces[1..], x);
    assert pieces == pieces[..1] + pieces[1..];
    assert Covers(pieces[..1], x) <==> pieces[0].start <= x < pieces[0].end by {
      if pieces[0].start <= x < pieces[0].end { assert pieces[..1][0].start <= x < pieces[..1][0].end; }
    }
    if |pieces| > 1 {
      var rest := pieces[1..];
      assert pieces[0].end == pieces[1].start;
      assert Tiles(rest, pieces[0].end, end) by {
        forall i | 0 <= i < |rest| - 1 ensures rest[i].end == rest[i + 1].start {
          assert pieces[i + 1].end == pieces[i + 2].start;
        }
      }
      TilesCover(rest, pieces[0].end, end, x);
      StartBeforeEnd(rest, pieces[0].end, end);
    }
  }

  lemma {:induction false} StartBeforeEnd(pieces: seq<Span>, start: int, end: int)
    requires Tiles(pieces, start, end) && forall i :: 0 <= i < |pieces| ==> pieces[i].start <= pieces[i].end
    ensures start <= end
    decreases |pieces|
  {
    if |pieces| > 1 {
      var rest := pieces[1..];
      assert pieces[0].end == pieces[1].start;
      assert Tiles(rest, pieces[0].end, end) by {
        forall i | 0 <= i < |rest| - 1 ensures rest[i].end == rest[i + 1].start {
          assert pieces[i + 1].end == pieces[i + 2].start;
        }
      }
      StartBeforeEnd(rest, pieces[0].end, end);
    }
  }

  /** The sample lies in a span of at least the minimum length. */
  ghost predicate InLongSpan(spans: seq<Span>, lo: int, x: int)
  {
    exists i :: 0 <= i < |spans| && spans[i].start <= x < spans[i].end && spans[i].end - spans[i].start >= lo
  }

  lemma SplitCovers(start: int, end: int, lo: int, hi: int, x: int)
    requires 1 <= lo <= hi
    ensures Covers(SplitSpan(start, end, lo, hi), x) <==> start <= x < end && end - start >= lo
  {
    if end - start >= lo {
      SplitTiles(start, end, lo, hi);
      TilesCover(SplitSpan(start, end, lo, hi), start, end, x);
    } else {
      ShortSpansVanish(start, end, lo, hi);
    }
  }

  lemma LongSpanAppend(init: seq<Span>, s: Span, lo: int, x: int)
    ensures InLongSpan(init + [s], lo, x) <==> InLongSpan(init, lo, x) || (s.start <= x < s.end && s.end - s.start >= lo)
  {
    var all := init + [s];
    if i :| 0 <= i < |init| && init[i].start <= x < init[i].end && init[i].end - init[i].start >= lo {
      assert all[i].start <= x < all[i].end;
    }
    if s.start <= x < s.end && s.end - s.start >= lo { assert all[|init|].start <= x < all[|init|].end; }
    if i :| 0 <= i < |all| && all[i].start <= x < all[i].end && all[i].end - all[i].start >= lo {
      if i < |init| { assert init[i].start <= x < init[i].end; }
    }
  }

  /** Splitting and filtering keep exactly the samples of the spans that are long enough. */
  lemma {:induction false} SplitCoverage(spans: seq<Span>, lo: int, hi: int, x: int)
    requires 1 <= lo <= hi
    ensures Covers(SplitAll(spans, lo, hi), x) <==> InLongSpan(spans, lo, x)
  {
    if spans != [] {
      var init, s := spans[..|spans| - 1], spans[|spans| - 1];
      assert spans == init + [s];
      SplitCoverage(init, lo, hi, x);
      CoversAppend(SplitAll(init, lo, hi), SplitSpan(s.start, s.end, lo, hi), x);
      SplitCovers(s.start, s.end, lo, hi, x);
      LongSpanAppend(init, s, lo, x);
    }
  }
}
