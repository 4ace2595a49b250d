/** services/realtime/src/echoweave/chunking.py: token deltas in, speakable phrases out. */
module Chunker {

  import opened Options

  /** `str.isspace` for one character, which is also what `strip` removes. */
  predicate IsSpace(c: char)
  {
    || '\U{0009}' <= c <= '\U{000d}' || '\U{001c}' <= c <= '\U{0020}' || c == '\U{0085}' || c == '\U{00a0}'
    || c == '\U{1680}' || '\U{2000}' <= c <= '\U{200a}' || c == '\U{2028}' || c == '\U{2029}'
    || c == '\U{202f}' || c == '\U{205f}' || c == '\U{3000}'
  }

  predicate IsStrong(c: char)
  {
    c in {'\U{3002}', '\U{ff01}', '\U{ff1f}', '!', '?', '\U{ff1b}', ';', '\n'}
  }

  predicate IsSoft(c: char)
  {
    c in {'\U{ff0c}', ',', '\U{ff1a}', ':'}
  }

  predicate IsBreak(c: char)
  {
    IsSoft(c) || IsSpace(c)
  }

  // ---- strip ---------------------------------------------------------------------------

  function StripLeft(s: string): (r: string)
    ensures r == [] || !IsSpace(r[0])
    ensures |r| <= |s|
  {
    if s != [] && IsSpace(s[0]) then StripLeft(s[1..]) else s
  }

  function StripRight(s: string): (r: string)
    ensures r == [] || !IsSpace(r[|r| - 1])
    ensures |r| <= |s| && r == s[..|r|]
  {
    if s != [] && IsSpace(s[|s| - 1]) then StripRight(s[..|s| - 1]) else s
  }

  function Strip(s: string): (r: string)
    ensures |r| <= |s|
    ensures r != [] ==> !IsSpace(r[0]) && !IsSpace(r[|r| - 1])
  {
    StripRight(StripLeft(s))
  }

  function Without(s: string, drop: char -> bool): string
  {
    if s == [] then [] else (if drop(s[0]) then [] else [s[0]]) + Without(s[1..], drop)
  }

  lemma {:induction false} WithoutAppend(a: string, b: string, drop: char -> bool)
    ensures Without(a + b, drop) == Without(a, drop) + Without(b, drop)
  {
    if a == [] {
      assert a + b == b;
    } else {
      assert (a + b)[0] == a[0] && (a + b)[1..] == a[1..] + b;
      WithoutAppend(a[1..], b, drop);
    }
  }

  /** The characters of a text that are not whitespace, in order. */
  function Ink(s: string): string
  {
    Without(s, IsSpace)
  }

  lemma InkAppend(a: string, b: string)
    ensures Ink(a + b) == Ink(a) + Ink(b)
  {
    WithoutAppend(a, b, IsSpace);
  }

  lemma {:induction false} InkOfStripLeft(s: string)
    ensures Ink(StripLeft(s)) == Ink(s)
  {
    if s != [] && IsSpace(s[0]) {
      InkOfStripLeft(s[1..]);
    }
  }

  lemma {:induction false} InkOfStripRight(s: string)
    ensures Ink(StripRight(s)) == Ink(s)
  {
    if s != [] && IsSpace(s[|s| - 1]) {
      InkOfStripRight(s[..|s| - 1]);
      assert s == s[..|s| - 1] + [s[|s| - 1]];
      InkAppend(s[..|s| - 1], [s[|s| - 1]]);
      assert [s[|s| - 1]][1..] == [];
      assert Without([], IsSpace) == [];
    }
  }

  lemma InkOfStrip(s: string)
    ensures Ink(Strip(s)) == Ink(s)
  {
    InkOfStripLeft(s);
    InkOfStripRight(StripLeft(s));
  }

  // ---- the split rule ---------------------------------------------------------------------

  /** A sentence end that closes a phrase of at least `lo` characters within the first `hi`. */
  predicate StrongAt(b: string, i: int, lo: nat, hi: nat)
  {
    1 <= i <= |b| && lo <= i <= hi && IsStrong(b[i - 1])
  }

  predicate BreakAt(b: string, i: int, hi: nat)
  {
    1 <= i <= |b| && i <= hi && IsBreak(b[i - 1])
  }

  /** The rule: earliest sentence end; once `hi` characters wait, the latest soft break, or `hi`. */
  ghost predicate IsSplit(b: string, lo: nat, hi: nat, r: Option<nat>)
  {
    if exists i :: StrongAt(b, i, lo, hi) then
      r.Some? && StrongAt(b, r.value, lo, hi) && forall i :: StrongAt(b, i, lo, hi) ==> r.value <= i
    else if |b| < hi then
      r.None?
    else if exists i :: BreakAt(b, i, hi) then
      r.Some? && BreakAt(b, r.value, hi) && forall i :: BreakAt(b, i, hi) ==> i <= r.value
    else
      r == Some(hi)
  }

  function FirstStrong(b: string, from: nat, lo: nat, hi: nat): (r: Option<nat>)
    requires from >= 1
    ensures r.Some? ==> from <= r.value && StrongAt(b, r.value, lo, hi)
    ensures forall i :: from <= i && StrongAt(b, i, lo, hi) ==> r.Some? && r.value <= i
    decreases |b| + 1 - from
  {
    if from > |b| then None
    else if StrongAt(b, from, lo, hi) then Some(from)
    else FirstStrong(b, from + 1, lo, hi)
  }

  function LastBreak(b: string, upto: nat, hi: nat): (r: Option<nat>)
    ensures r.Some? ==> r.value <= upto && BreakAt(b, r.value, hi)
    ensures forall i :: i <= upto && BreakAt(b, i, hi) ==> r.Some? && i <= r.value
  {
    if upto == 0 then None
    else if BreakAt(b, upto, hi) then Some(upto)
    else LastBreak(b, upto - 1, hi)
  }

  function FindSplit(b: string, lo: nat, hi: nat): (r: Option<nat>)
    requires 1 <= lo <= hi
    ensures r.Some? ==> 1 <= r.value <= |b| && r.value <= hi
    ensures r.None? ==> |b| < hi
  {
    var strong := FirstStrong(b, 1, lo, hi);
    if strong.Some? then strong
    else if |b| < hi then None
    else
      var soft := LastBreak(b, hi, hi);
      if soft.Some? then soft else Some(hi)
  }

  /** The rule determines the split. */
  lemma {:induction false} SplitIsUnique(b: string, lo: nat, hi: nat, r: Option<nat>)
    requires 1 <= lo <= hi
    ensures IsSplit(b, lo, hi, r) <==> r == FindSplit(b, lo, hi)
  {
    var s := FindSplit(b, lo, hi);
    if i :| StrongAt(b, i, lo, hi) {
      assert FirstStrong(b, 1, lo, hi) == s;
    } else if |b| >= hi {
      if i :| BreakAt(b, i, hi) {
        assert i <= hi;
        assert LastBreak(b, hi, hi) == s;
      }
    }
  }

  /** The key to streaming: text that arrives later never moves a split already found. */
  lemma SplitIsStable(b: string, more: string, lo: nat, hi: nat)
    requires 1 <= lo <= hi && FindSplit(b, lo, hi).Some?
    ensures FindSplit(b + more, lo, hi) == FindSplit(b, lo, hi)
  {
    var r := FindSplit(b, lo, hi);
    SplitIsUnique(b, lo, hi, r);
    assert forall i :: i <= |b| ==> (StrongAt(b + more, i, lo, hi) <==> StrongAt(b, i, lo, hi));
    assert forall i :: i <= |b| ==> (BreakAt(b + more, i, hi) <==> BreakAt(b, i, hi));
    if i :| StrongAt(b, i, lo, hi) {
      assert StrongAt(b + more, i, lo, hi);
    } else {
      assert forall i :: StrongAt(b + more, i, lo, hi) ==> i <= hi;
      if j :| BreakAt(b, j, hi) { assert BreakAt(b + more, j, hi); }
    }
    assert IsSplit(b + more, lo, hi, r);
    SplitIsUnique(b + more, lo, hi, r);
  }

  // ---- whole-text tokenization ---------------------------------------------------------------

  datatype Chunks = Chunks(phrases: seq<string>, residue: string) {
    /** What comes out of the residue follows the phrases. */
    function Then(rest: Chunks): Chunks
    {
      Chunks(phrases + rest.phrases, rest.residue)
    }
  }

  function Emit(segment: string): seq<string>
  {
    if Strip(segment) == "" then [] else [Strip(segment)]
  }

  function Prepend(segment: string, rest: Chunks): Chunks
  {
    Chunks(Emit(segment) + rest.phrases, rest.residue)
  }

  /** Phrases of a complete text, and what is left waiting. */
  function Tokenize(b: string, lo: nat, hi: nat): Chunks
    requires 1 <= lo <= hi
    decreases |b|
  {
    var split := FindSplit(b, lo, hi);
    if split.None? then Chunks([], b)
    else Prepend(b[..split.value], Tokenize(b[split.value..], lo, hi))
  }

  /** Pushing the deltas one after another, starting from a waiting buffer. */
  function PushAll(buffer: string, deltas: seq<string>, lo: nat, hi: nat): Chunks
    requires 1 <= lo <= hi
    decreases |deltas|
  {
    if deltas == [] then Chunks([], buffer)
    else
      var now := Tokenize(buffer + deltas[0], lo, hi);
      now.Then(PushAll(now.residue, deltas[1..], lo, hi))
  }

  function Flatten(parts: seq<string>): string
  {
    if parts == [] then "" else parts[0] + Flatten(parts[1..])
  }

  lemma PrependThen(segment: string, first: Chunks, second: Chunks)
    ensures Prepend(segment, first.Then(second)) == Prepend(segment, first).Then(second)
    ensures Prepend(segment, first).residue == first.residue
  {
    assert Emit(segment) + (first.phrases + second.phrases) == (Emit(segment) + first.phrases) + second.phrases;
  }

  lemma TokenizeCut(b: string, more: string, lo: nat, hi: nat, cut: nat)
    requires 1 <= lo <= hi && FindSplit(b, lo, hi) == Some(cut)
    ensures Tokenize(b, lo, hi) == Prepend(b[..cut], Tokenize(b[cut..], lo, hi))
    ensures Tokenize(b + more, lo, hi) == Prepend(b[..cut], Tokenize(b[cut..] + more, lo, hi))
  {
    SplitIsStable(b, more, lo, hi);
    assert (b + more)[..cut] == b[..cut];
    assert (b + more)[cut..] == b[cut..] + more;
  }

  lemma NothingCut(b: string, more: string, lo: nat, hi: nat)
    requires 1 <= lo <= hi && FindSplit(b, lo, hi) == None
    ensures Tokenize(b, lo, hi) == Chunks([], b)
    ensures Tokenize(b + more, lo, hi) == Chunks([], b).Then(Tokenize(b + more, lo, hi))
  {
    var whole := Tokenize(b + more, lo, hi);
    assert [] + whole.phrases == whole.phrases;
  }

  /** Tokenizing may stop anywhere and resume from the residue. */
  lemma {:induction false} TokenizeResumes(b: string, more: string, lo: nat, hi: nat)
    requires 1 <= lo <= hi
    ensures var first := Tokenize(b, lo, hi);
      Tokenize(b + more, lo, hi) == first.Then(Tokenize(first.residue + more, lo, hi))
    decreases |b|
  {
    var split := FindSplit(b, lo, hi);
    if split.None? {
      NothingCut(b, more, lo, hi);
    } else {
      var head, tail := b[..split.value], b[split.value..];
      TokenizeCut(b, more, lo, hi, split.value);
      TokenizeResumes(tail, more, lo, hi);
      var first := Tokenize(tail, lo, hi);
      PrependThen(head, first, Tokenize(first.residue + more, lo, hi));
    }
  }

  /** Streaming refinement: any split of a text into deltas gives the phrases of the whole text. */
  lemma {:induction false} StreamingAgreesWithWhole(buffer: string, deltas: seq<string>, lo: nat, hi: nat)
    requires 1 <= lo <= hi && FindSplit(buffer, lo, hi).None?
    ensures PushAll(buffer, deltas, lo, hi) == Tokenize(buffer + Flatten(deltas), lo, hi)
    decreases |deltas|
  {
    if deltas == [] {
      assert buffer + Flatten(deltas) == buffer;
    } else {
      var now := Tokenize(buffer + deltas[0], lo, hi);
      ResidueWaits(buffer + deltas[0], lo, hi);
      StreamingAgreesWithWhole(now.residue, deltas[1..], lo, hi);
      TokenizeResumes(buffer + deltas[0], Flatten(deltas[1..]), lo, hi);
      assert buffer + Flatten(deltas) == buffer + deltas[0] + Flatten(deltas[1..]);
    }
  }

  /** Two ways of cutting the same text into deltas cannot be told apart. */
  lemma DeltaBoundariesDoNotMatter(first: seq<string>, second: seq<string>, lo: nat, hi: nat)
    requires 1 <= lo <= hi && Flatten(first) == Flatten(second)
    ensures PushAll("", first, lo, hi) == PushAll("", second, lo, hi)
  {
    StreamingAgreesWithWhole("", first, lo, hi);
    StreamingAgreesWithWhole("", second, lo, hi);
  }

  lemma {:induction false} ResidueWaits(b: string, lo: nat, hi: nat)
    requires 1 <= lo <= hi
    ensures var r := Tokenize(b, lo, hi).residue; FindSplit(r, lo, hi).None? && |r| < hi
    decreases |b|
  {
    var split := FindSplit(b, lo, hi);
    if split.Some? {
      ResidueWaits(b[split.value..], lo, hi);
    }
  }

  lemma EmitKeepsInk(segment: string, phrases: seq<string>, last: string)
    ensures Ink(Flatten(Emit(segment) + phrases) + last) == Ink(segment) + Ink(Flatten(phrases) + last)
  {
    var p := Strip(segment);
    InkOfStrip(segment);
    if p == "" {
      assert Emit(segment) + phrases == phrases;
    } else {
      var all := [p] + phrases;
      assert all[0] == p && all[1..] == phrases;
      assert Flatten(all) + last == p + (Flatten(phrases) + last);
      InkAppend(p, Flatten(phrases) + last);
    }
  }

  /** The phrases, and the residue as `flush` returns it. */
  function Spoken(c: Chunks): string
  {
    Flatten(c.phrases) + Strip(c.residue)
  }

  lemma PrependKeepsInk(segment: string, rest: Chunks)
    ensures Ink(Spoken(Prepend(segment, rest))) == Ink(segment) + Ink(Spoken(rest))
  {
    EmitKeepsInk(segment, rest.phrases, Strip(rest.residue));
  }

  lemma ResidueKeepsInk(b: string)
    ensures Ink(Spoken(Chunks([], b))) == Ink(b)
  {
    assert Flatten([]) + Strip(b) == Strip(b);
    InkOfStrip(b);
  }

  lemma InkOfParts(b: string, cut: nat)
    requires cut <= |b|
    ensures Ink(b) == Ink(b[..cut]) + Ink(b[cut..])
  {
    assert b == b[..cut] + b[cut..];
    InkAppend(b[..cut], b[cut..]);
  }

  /** Phrases plus the flushed residue keep every non-whitespace character, in order. */
  lemma {:induction false} NothingSpokenIsLost(b: string, lo: nat, hi: nat)
    requires 1 <= lo <= hi
    ensures Ink(Spoken(Tokenize(b, lo, hi))) == Ink(b)
    decreases |b|
  {
    var split := FindSplit(b, lo, hi);
    if split.None? {
      ResidueKeepsInk(b);
    } else {
      NothingSpokenIsLost(b[split.value..], lo, hi);
      PrependKeepsInk(b[..split.value], Tokenize(b[split.value..], lo, hi));
      InkOfParts(b, split.value);
    }
  }

  // ---- the phrases of a text, exactly ---------------------------------------------------------

  ghost predicate Blank(s: string)
  {
    forall i :: 0 <= i < |s| ==> IsSpace(s[i])
  }

  lemma {:induction false} StripLeftExactly(s: string) returns (i: nat)
    ensures i <= |s| && StripLeft(s) == s[i..] && Blank(s[..i])
  {
    i := 0;
    if s != [] && IsSpace(s[0]) {
      var j := StripLeftExactly(s[1..]);
      i := j + 1;
      assert s[1..][j..] == s[i..];
      forall k | 0 <= k < i ensures IsSpace(s[..i][k]) { if k > 0 { assert s[..i][k] == s[1..][..j][k - 1]; } }
    }
  }

  lemma {:induction false} StripRightExactly(s: string)
    ensures Blank(s[|StripRight(s)|..])
  {
    if s != [] && IsSpace(s[|s| - 1]) {
      var init := s[..|s| - 1];
      StripRightExactly(init);
      var n := |StripRight(init)|;
      forall k | 0 <= k < |s| - n ensures IsSpace(s[n..][k]) { if k < |init| - n { assert s[n..][k] == init[n..][k]; } }
    }
  }

  lemma Parts(s: string, i: nat, tail: string, middle: string, right: string)
    requires i <= |s| && tail == s[i..] && tail == middle + right
    ensures s == s[..i] + middle + right
  {
  }

  /** `strip` takes away the whitespace at both ends and nothing else; what it leaves has none at its
      ends by its own contract. */
  lemma StripExactly(s: string) returns (left: string, right: string)
    ensures s == left + Strip(s) + right && Blank(left) && Blank(right)
  {
    var i := StripLeftExactly(s);
    var tail := StripLeft(s);
    StripRightExactly(tail);
    left, right := s[..i], tail[|StripRight(tail)|..];
    assert tail == tail[..|StripRight(tail)|] + right;
    Parts(s, i, tail, Strip(s), right);
  }

  /** The trimmed segments, without the blank ones. */
  function PhrasesOf(segments: seq<string>): seq<string>
  {
    if segments == [] then []
    else (if Strip(segments[0]) == "" then [] else [Strip(segments[0])]) + PhrasesOf(segments[1..])
  }

  /** The text made of the segments and the residue. */
  function TextOf(segments: seq<string>, residue: string): string
  {
    if segments == [] then residue else segments[0] + TextOf(segments[1..], residue)
  }

  /** Each segment is cut off where the rule says, given the text that follows it, and the rule finds no
      further cut in the residue. */
  ghost predicate CutByRule(segments: seq<string>, residue: string, lo: nat, hi: nat)
  {
    if segments == [] then IsSplit(residue, lo, hi, None)
    else IsSplit(TextOf(segments, residue), lo, hi, Some(|segments[0]|)) && CutByRule(segments[1..], residue, lo, hi)
  }

  ghost predicate Tokenizes(b: string, segments: seq<string>, c: Chunks, lo: nat, hi: nat)
  {
    b == TextOf(segments, c.residue) && CutByRule(segments, c.residue, lo, hi) && c.phrases == PhrasesOf(segments)
  }

  lemma TokenizesMore(b: string, cut: nat, rest: seq<string>, c: Chunks, lo: nat, hi: nat) returns (segments: seq<string>)
    requires cut <= |b| && IsSplit(b, lo, hi, Some(cut)) && Tokenizes(b[cut..], rest, c, lo, hi)
    ensures Tokenizes(b, segments, Prepend(b[..cut], c), lo, hi)
  {
    segments := [b[..cut]] + rest;
    assert segments[1..] == rest;
    assert b == b[..cut] + b[cut..];
  }

  /** Tokenizing, exactly: the text is cut by the rule into segments and a residue, and the phrases are
      the segments trimmed, without the blank ones. */
  lemma {:induction false} TokenizationExactly(b: string, lo: nat, hi: nat) returns (segments: seq<string>)
    requires 1 <= lo <= hi
    ensures Tokenizes(b, segments, Tokenize(b, lo, hi), lo, hi)
    decreases |b|
  {
    var split := FindSplit(b, lo, hi);
    SplitIsUnique(b, lo, hi, split);
    segments := [];
    if split.Some? {
      var rest := TokenizationExactly(b[split.value..], lo, hi);
      segments := TokenizesMore(b, split.value, rest, Tokenize(b[split.value..], lo, hi), lo, hi);
    }
  }

  /** The rule, in positions of the text: cut after the first strong mark that closes at least `lo` and at
      most `hi` characters; failing that, once `hi` characters wait, after the last break among the
      first `hi`, or after all of them. */
  lemma SplitInMarks(b: string, lo: nat, hi: nat)
    requires 1 <= lo <= hi
    ensures var r := FindSplit(b, lo, hi);
      if exists p :: lo - 1 <= p < hi && p < |b| && IsStrong(b[p]) then
        && r.Some? && lo <= r.value <= hi && r.value <= |b| && IsStrong(b[r.value - 1])
        && forall p :: lo - 1 <= p < r.value - 1 ==> !IsStrong(b[p])
      else if |b| < hi then r.None?
      else if exists p :: 0 <= p < hi && IsBreak(b[p]) then
        && r.Some? && 1 <= r.value <= hi && IsBreak(b[r.value - 1])
        && forall p :: r.value <= p < hi ==> !IsBreak(b[p])
      else r == Some(hi)
  {
    var r := FindSplit(b, lo, hi);
    SplitIsUnique(b, lo, hi, r);
    if p :| lo - 1 <= p < hi && p < |b| && IsStrong(b[p]) {
      assert StrongAt(b, p + 1, lo, hi);
      forall p | lo - 1 <= p < r.value - 1 ensures !IsStrong(b[p]) { assert !StrongAt(b, p + 1, lo, hi); }
    } else {
      forall i ensures !StrongAt(b, i, lo, hi) { if 1 <= i <= |b| { assert IsStrong(b[i - 1]) ==> i < lo || i > hi; } }
      if |b| >= hi {
        if p :| 0 <= p < hi && IsBreak(b[p]) {
          assert BreakAt(b, p + 1, hi);
          forall p | r.value <= p < hi ensures !IsBreak(b[p]) { assert !BreakAt(b, p + 1, hi); }
        } else {
          forall i ensures !BreakAt(b, i, hi) { if 1 <= i <= hi { assert !IsBreak(b[i - 1]); } }
        }
      }
    }
  }

  /** The marks of the rule. */
  lemma Marks(c: char)
    ensures IsStrong(c) <==> c in "\U{3002}\U{ff01}\U{ff1f}!?\U{ff1b};\n"
    ensures IsBreak(c) <==> c in "\U{ff0c},\U{ff1a}:" || IsSpace(c)
  {
    assert "\U{3002}\U{ff01}\U{ff1f}!?\U{ff1b};\n" == ['\U{3002}', '\U{ff01}', '\U{ff1f}', '!', '?', '\U{ff1b}', ';', '\n'];
    assert "\U{ff0c},\U{ff1a}:" == ['\U{ff0c}', ',', '\U{ff1a}', ':'];
  }

  ghost predicate Fits(p: string, hi: nat)
  {
    1 <= |p| <= hi && !IsSpace(p[0]) && !IsSpace(p[|p| - 1])
  }

  lemma EmitFits(segment: string, hi: nat)
    requires |segment| <= hi
    ensures forall p :: p in Emit(segment) ==> Fits(p, hi)
  {
  }

  /** Every phrase is non-empty, trimmed and at most `hi` characters long. */
  lemma {:induction false} PhrasesFit(b: string, lo: nat, hi: nat)
    requires 1 <= lo <= hi
    ensures forall p :: p in Tokenize(b, lo, hi).phrases ==> Fits(p, hi)
    decreases |b|
  {
    var split := FindSplit(b, lo, hi);
    if split.Some? {
      EmitFits(b[..split.value], hi);
      PhrasesFit(b[split.value..], lo, hi);
    }
  }

  // ---- the class ---------------------------------------------------------------------------------

  class SemanticChunker {
    const minChars: nat
    const maxChars: nat
    var buffer: string

    constructor (minChars: nat, maxChars: nat)
      requires 1 <= minChars <= maxChars
      ensures Valid() && this.minChars == minChars && this.maxChars == maxChars && buffer == ""
    {
      this.minChars, this.maxChars, buffer := minChars, maxChars, "";
    }

    /** `__init__` with its range check: bounds out of order are refused. */
    static method Create(minChars: int, maxChars: int) returns (r: Option<SemanticChunker>)
      ensures r.Some? <==> 1 <= minChars <= maxChars
      ensures r.Some? ==> fresh(r.value) && r.value.Valid() && r.value.buffer == ""
      ensures r.Some? ==> r.value.minChars == minChars && r.value.maxChars == maxChars
    {
      if minChars < 1 || maxChars < minChars {
        return None;
      }
      var c := new SemanticChunker(minChars, maxChars);
      return Some(c);
    }

    /** Between calls nothing in the buffer can be split, so it is shorter than `maxChars`. */
    ghost predicate Valid()
      reads this
    {
      1 <= minChars <= maxChars && FindSplit(buffer, minChars, maxChars).None?
    }

    method FindSplitPoint() returns (r: Option<nat>)
      requires 1 <= minChars <= maxChars
      ensures r == FindSplit(buffer, minChars, maxChars)
    {
      var searchEnd := if |buffer| < maxChars then |buffer| else maxChars;
      if |buffer| >= minChars {
        for index := 1 to searchEnd + 1
          invariant forall i :: i < index ==> !StrongAt(buffer, i, minChars, maxChars)
        {
          if IsStrong(buffer[index - 1]) && index >= minChars {
            assert StrongAt(buffer, index, minChars, maxChars);
            SplitIsUnique(buffer, minChars, maxChars, Some(index));
            return Some(index);
          }
        }
      }
      assert forall i :: !StrongAt(buffer, i, minChars, maxChars);
      if |buffer| >= maxChars {
        var candidates: seq<int> := [];
        for index := 1 to maxChars + 1
          invariant forall i :: i in candidates <==> i < index && BreakAt(buffer, i, maxChars)
          invariant forall i :: i in candidates ==> i <= candidates[|candidates| - 1]
        {
          if IsSoft(buffer[index - 1]) || IsSpace(buffer[index - 1]) {
            candidates := candidates + [index];
          }
        }
        assert candidates != [] ==> BreakAt(buffer, candidates[|candidates| - 1], maxChars);
        var last: nat := if candidates != [] then candidates[|candidates| - 1] else maxChars;
        r := Some(last);
        if candidates == [] {
          forall i ensures !BreakAt(buffer, i, maxChars) {
            assert i !in candidates;
          }
        } else {
          forall i | BreakAt(buffer, i, maxChars) ensures i <= r.value {
            assert i in candidates;
          }
        }
        SplitIsUnique(buffer, minChars, maxChars, r);
        return;
      }
      return None;
    }

    /** One turn of the loop, in terms of the whole-text tokenizer. */
    static lemma ChunkEmitted(b: string, lo: nat, hi: nat, ready: seq<string>)
      requires 1 <= lo <= hi && FindSplit(b, lo, hi).Some?
      ensures var at := FindSplit(b, lo, hi).value;
        Then(ready, Tokenize(b, lo, hi)) == Then(ready + Emit(b[..at]), Tokenize(b[at..], lo, hi))
    {
      var at := FindSplit(b, lo, hi).value;
      assert ready + (Emit(b[..at]) + Tokenize(b[at..], lo, hi).phrases)
          == (ready + Emit(b[..at])) + Tokenize(b[at..], lo, hi).phrases;
    }

    static function Then(ready: seq<string>, rest: Chunks): Chunks
    {
      Chunks(ready + rest.phrases, rest.residue)
    }

    /** Emits what the whole-text tokenizer would emit from the buffer extended by the delta. */
    method Push(delta: string) returns (ready: seq<string>)
      requires Valid()
      modifies this
      ensures Valid()
      ensures Chunks(ready, buffer) == Tokenize(old(buffer) + delta, minChars, maxChars)
    {
      if delta == "" {
        assert old(buffer) + delta == old(buffer);
        return [];
      }
      buffer := buffer + delta;
      ready := [];
      ghost var whole := Tokenize(buffer, minChars, maxChars);
      while buffer != ""
        invariant whole == Then(ready, Tokenize(buffer, minChars, maxChars))
        decreases |buffer|
      {
        var splitAt := FindSplitPoint();
        if splitAt.None? {
          break;
        }
        ChunkEmitted(buffer, minChars, maxChars, ready);
        var segment := buffer[..splitAt.value];
        var phrase := Strip(segment);
        ghost var before := ready;
        buffer := buffer[splitAt.value..];
        if phrase != "" {
          ready := ready + [phrase];
        }
        assert ready == before + Emit(segment);
      }
      assert Tokenize(buffer, minChars, maxChars) == Chunks([], buffer);
      assert ready + [] == ready;
    }

    method Flush() returns (phrase: string)
      requires Valid()
      modifies this
      ensures Valid() && buffer == "" && phrase == Strip(old(buffer)) && |phrase| < maxChars
    {
      phrase := Strip(buffer);
      buffer := "";
    }
  }
}
