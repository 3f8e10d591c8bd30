/** The excerpt shown around a reference site (src/project_index.rs). */
module ReferenceExcerpt {
  import opened Utf8
  import opened ChunkSpans
  import IndexRun

  /** White space, or one of `,` `)` `}` `;`, told by its UTF-8 encoding. */
  type CharClass = Bytes -> bool

  const MAX_PROJECT_MAP_REFERENCE_EXCERPT_BYTES := 640
  const MAX_PROJECT_MAP_MENTION_EXCERPT_BYTES := 240

  datatype Outcome =
    | NoRange                   // the recorded range is not one of the text
    | SplitsCharacter           // slicing the text inside a character: the call does not return
    | Excerpt(start: nat, end: nat, truncated: bool, startLine: nat, endLine: nat)

  predicate Site(t: Bytes, start: nat, end: nat) {
    start < end <= |t| && Boundary(t, start) && Boundary(t, end)
  }

  // ----- Lines

  predicate StartsLine(t: Bytes, i: nat) {
    i == 0 || (i <= |t| && t[i - 1] == NEWLINE)
  }

  predicate EndsLine(t: Bytes, i: nat) {
    i == |t| || (0 < i < |t| && t[i - 1] == NEWLINE)
  }

  /** Just after the newline before `i`. */
  function LineStart(t: Bytes, i: nat): (r: nat)
    requires i <= |t|
    ensures r <= i && StartsLine(t, r)
    ensures forall k :: r <= k < i ==> t[k] != NEWLINE
  {
    LastNewline(t, 0, i) + 1
  }

  /** Just after the newline at or after `i`. */
  function LineEnd(t: Bytes, i: nat): (r: nat)
    requires i <= |t|
    ensures i <= r <= |t| && EndsLine(t, r) && (i < |t| ==> i < r)
    ensures forall k :: i <= k < r - 1 ==> t[k] != NEWLINE
    decreases |t| - i
  {
    if i == |t| then i else if t[i] == NEWLINE then i + 1 else LineEnd(t, i + 1)
  }

  function PreviousLine(t: Bytes, start: nat): (r: nat)
    requires start <= |t|
    ensures r <= start && StartsLine(t, r) && (0 < start ==> r < start)
  {
    if start == 0 then 0 else LineStart(t, start - 1)
  }

  /** Lines of text, none cut. */
  predicate WholeLines(t: Bytes, start: nat, end: nat) {
    start <= end <= |t| && StartsLine(t, start) && EndsLine(t, end)
  }

  lemma LinesAreBoundaries(t: Bytes, start: nat, end: nat)
    requires Bounded(t) && WholeLines(t, start, end)
    ensures Boundary(t, start) && Boundary(t, end)
  {
    assert !Orphan(t, start - 1) && !Orphan(t, end - 1);
  }

  /** Neither neighbouring line would still fit. */
  predicate FullOfLines(t: Bytes, start: nat, end: nat, maxBytes: nat)
    requires start <= end <= |t|
  {
    && (0 < start ==> end - PreviousLine(t, start) > maxBytes)
    && (end < |t| ==> LineEnd(t, end) - start > maxBytes)
  }

  method ExpandLines(t: Bytes, from: nat, to: nat, maxBytes: nat) returns (start: nat, end: nat)
    requires WholeLines(t, from, to) && to - from <= maxBytes
    ensures WholeLines(t, start, end) && start <= from && to <= end
    ensures end - start <= maxBytes && FullOfLines(t, start, end, maxBytes)
  {
    start, end := from, to;
    while true
      invariant WholeLines(t, start, end) && start <= from && to <= end && end - start <= maxBytes
      decreases start + |t| - end
    {
      var changed := false;
      ghost var before := start;
      var previous := PreviousLine(t, start);
      if previous < start && end - previous <= maxBytes {
        start := previous;
        changed := true;
      }
      var next := LineEnd(t, end);
      if next > end && next - start <= maxBytes {
        end := next;
        changed := true;
      }
      if !changed {
        return;
      }
    }
  }

  // ----- Windows

  function Max(a: int, b: int): int {
    if a >= b then a else b
  }

  function Min(a: int, b: int): int {
    if a <= b then a else b
  }

  /** Where a window on lines that are too long begins, before it is cut to whole characters. */
  function WindowStart(from: nat, to: nat, refStart: nat, refEnd: nat, maxBytes: nat): (r: nat)
    requires from <= refStart <= refEnd <= to && refEnd - refStart < maxBytes < to - from
    ensures from <= r <= refStart && refEnd <= r + maxBytes <= to
  {
    var centred := refStart - (maxBytes - (refEnd - refStart)) / 2;
    if centred < from then from else if centred + maxBytes > to then to - maxBytes else centred
  }

  /** It has as much before the reference as after it, or begins or ends with the lines. */
  lemma WindowIsCentred(from: nat, to: nat, refStart: nat, refEnd: nat, maxBytes: nat)
    requires from <= refStart <= refEnd <= to && refEnd - refStart < maxBytes < to - from
    ensures var start := WindowStart(from, to, refStart, refEnd, maxBytes);
            var (before, after) := (refStart - start, start + maxBytes - refEnd);
            start == from || start + maxBytes == to || before == after || before + 1 == after
  {
  }

  /** The whole characters of that window. */
  predicate Centred(t: Bytes, from: nat, to: nat, refStart: nat, refEnd: nat, maxBytes: nat, start: nat, end: nat) {
    && from <= refStart <= refEnd <= to <= |t| && refEnd - refStart < maxBytes < to - from
    && var first := WindowStart(from, to, refStart, refEnd, maxBytes);
    && start == Ceil(t, first) && end == Floor(t, first + maxBytes)
  }

  /** A window on lines that are too long, around a reference that is not. */
  method Around(t: Bytes, from: nat, to: nat, refStart: nat, refEnd: nat, maxBytes: nat) returns (start: nat, end: nat)
    requires Site(t, refStart, refEnd) && from <= refStart && refEnd <= to <= |t|
    requires refEnd - refStart < maxBytes < to - from
    ensures from <= start <= refStart && refEnd <= end <= to && end - start <= maxBytes
    ensures Boundary(t, start) && Boundary(t, end)
    ensures Centred(t, from, to, refStart, refEnd, maxBytes, start, end)
  {
    var context := maxBytes - (refEnd - refStart);
    start := Max(Max(refStart - context / 2, 0), from);
    end := Min(start + maxBytes, to);
    start := Max(Max(end - maxBytes, 0), from);
    while start < refStart && !Boundary(t, start)
      invariant from <= start <= refStart && end - start <= maxBytes
      invariant Ceil(t, start) == Ceil(t, WindowStart(from, to, refStart, refEnd, maxBytes))
    {
      start := start + 1;
    }
    while end > refEnd && !Boundary(t, end)
      invariant refEnd <= end <= to && end - start <= maxBytes
      invariant Floor(t, end) == Floor(t, WindowStart(from, to, refStart, refEnd, maxBytes) + maxBytes)
    {
      end := end - 1;
    }
  }

  /** A character a long reference may be cut after begins here. */
  predicate BreakAt(breaks: CharClass, t: Bytes, k: nat)
    requires k < |t|
  {
    Boundary(t, k) && breaks(t[k..Ceil(t, k + 1)])
  }

  /** `text[lo..hi].rfind(..)`: where the last such character begins, or -1. */
  function LastBreak(breaks: CharClass, t: Bytes, lo: nat, hi: nat): (r: int)
    requires lo <= hi <= |t|
    ensures r == -1 || (lo <= r < hi && BreakAt(breaks, t, r))
    ensures forall k :: lo <= k < hi && r < k ==> !BreakAt(breaks, t, k)
    decreases hi
  {
    if lo == hi then -1
    else if BreakAt(breaks, t, hi - 1) then hi - 1
    else LastBreak(breaks, t, lo, hi - 1)
  }

  /** The first byte of a window on a reference that is itself too long after which it may be cut. */
  function Middle(t: Bytes, start: nat, maxBytes: nat): (r: nat)
    requires start + maxBytes <= |t|
    ensures start + maxBytes / 2 <= r
  {
    Ceil(t, start + maxBytes / 2)
  }

  /** Where the cut falls: just after the first byte of the last break, or at the very end. */
  predicate CutsCleanly(breaks: CharClass, t: Bytes, start: nat, maxBytes: nat)
    requires start + maxBytes <= |t|
  {
    && Boundary(t, start + maxBytes)
    && (Middle(t, start, maxBytes) <= start + maxBytes ==>
          Boundary(t, LastBreak(breaks, t, Middle(t, start, maxBytes), start + maxBytes) + 1)
          || LastBreak(breaks, t, Middle(t, start, maxBytes), start + maxBytes) == -1)
  }

  method FindMiddle(t: Bytes, start: nat, end: nat, maxBytes: nat) returns (floor: nat)
    requires end == start + maxBytes <= |t|
    ensures start + maxBytes / 2 <= floor <= end
    ensures Boundary(t, end) ==> floor == Middle(t, start, maxBytes)
  {
    floor := start + maxBytes / 2;
    while floor < end && !Boundary(t, floor)
      invariant start + maxBytes / 2 <= floor <= end
      invariant Ceil(t, start + maxBytes / 2) == Ceil(t, floor)
    {
      floor := floor + 1;
    }
  }

  /** The cut is just after the last break of the second half, or at the limit if there is none. */
  ghost predicate CutAfterBreak(breaks: CharClass, t: Bytes, start: nat, maxBytes: nat, end: nat)
    requires start + maxBytes <= |t|
  {
    && (forall k :: start + maxBytes / 2 <= k < start + maxBytes && end <= k ==> !BreakAt(breaks, t, k))
    && (end == start + maxBytes || (start + maxBytes / 2 < end <= |t| && BreakAt(breaks, t, end - 1)))
  }

  lemma LastBreakCuts(breaks: CharClass, t: Bytes, start: nat, maxBytes: nat, end: nat)
    requires start + maxBytes <= |t| && Middle(t, start, maxBytes) <= start + maxBytes
    requires var found := LastBreak(breaks, t, Middle(t, start, maxBytes), start + maxBytes);
             end == if found == -1 then start + maxBytes else found + 1
    ensures CutAfterBreak(breaks, t, start, maxBytes, end)
  {
  }

  /** A window on the beginning of a reference that is too long itself. */
  method Inside(breaks: CharClass, t: Bytes, refStart: nat, refEnd: nat, maxBytes: nat) returns (ok: bool, end: nat)
    requires Site(t, refStart, refEnd) && refEnd - refStart >= maxBytes
    ensures ok <==> CutsCleanly(breaks, t, refStart, maxBytes)
    ensures ok ==> refStart + maxBytes / 2 <= end <= refStart + maxBytes && Boundary(t, end)
    ensures ok ==> CutAfterBreak(breaks, t, refStart, maxBytes, end)
  {
    end := refStart + maxBytes;
    var floor := FindMiddle(t, refStart, end, maxBytes);
    if !Boundary(t, end) {
      return false, end;
    }
    end := CutAt(breaks, t, refStart, floor, end);
    LastBreakCuts(breaks, t, refStart, maxBytes, end);
    ok := Boundary(t, end);
  }

  method CutAt(breaks: CharClass, t: Bytes, refStart: nat, floor: nat, end: nat) returns (cut: nat)
    requires refStart <= floor <= end <= |t|
    ensures floor <= cut <= end
    ensures cut == if LastBreak(breaks, t, floor, end) == -1 then end else LastBreak(breaks, t, floor, end) + 1
  {
    cut := end;
    var found := LastBreak(breaks, t, floor, end);
    if found != -1 {
      var candidate := found + 1;
      if candidate > refStart {
        cut := candidate;
      } else {
        assert false; // the window's second half begins at or after the reference
      }
    }
  }

  /** A window on lines that are too long. */
  method Window(breaks: CharClass, t: Bytes, from: nat, to: nat, refStart: nat, refEnd: nat, maxBytes: nat)
    returns (ok: bool, start: nat, end: nat)
    requires Bounded(t) && Site(t, refStart, refEnd) && from <= refStart && refEnd <= to <= |t| && to - from > maxBytes
    ensures ok <==> (refEnd - refStart >= maxBytes ==> CutsCleanly(breaks, t, refStart, maxBytes))
    ensures refEnd - refStart < maxBytes ==>
              && start <= refStart && refEnd <= end && maxBytes - 6 <= end - start <= maxBytes && Site(t, start, end)
              && Centred(t, from, to, refStart, refEnd, maxBytes, start, end)
    ensures ok && refEnd - refStart >= maxBytes ==>
              && start == refStart && start + maxBytes / 2 <= end <= refStart + maxBytes && Boundary(t, end)
              && CutAfterBreak(breaks, t, refStart, maxBytes, end)
  {
    if refEnd - refStart >= maxBytes {
      start := refStart;
      ok, end := Inside(breaks, t, refStart, refEnd, maxBytes);
    } else {
      ok := true;
      start, end := Around(t, from, to, refStart, refEnd, maxBytes);
      ghost var first := WindowStart(from, to, refStart, refEnd, maxBytes);
      CeilIsNear(t, first);
      FloorIsNear(t, first + maxBytes);
    }
  }

  /** `verified_reference_excerpt` on text whose digest matches. */
  method Reference(breaks: CharClass, t: Bytes, refStart: nat, refEnd: nat, maxBytes: nat, adjacentLines: bool)
    returns (r: Outcome)
    requires Bounded(t)
    ensures r.NoRange? <==> !Site(t, refStart, refEnd)
    // A reference shorter than the limit is shown whole, within the limit and in whole characters, ...
    ensures r.Excerpt? && refEnd - refStart < maxBytes ==>
              r.start <= refStart && refEnd <= r.end && r.end - r.start <= maxBytes && Site(t, r.start, r.end)
    ensures r.Excerpt? && !r.truncated && !adjacentLines ==> r.start == LineStart(t, refStart) && r.end == LineEnd(t, refEnd)
    // ... a window around it but for at most six bytes if it has to be cut, ...
    ensures r.Excerpt? && r.truncated && refEnd - refStart < maxBytes ==> r.end - r.start >= maxBytes - 6
    ensures r.Excerpt? && r.truncated && refEnd - refStart < maxBytes ==>
              Centred(t, LineStart(t, refStart), LineEnd(t, refEnd), refStart, refEnd, maxBytes, r.start, r.end)
    // ... as whole lines whenever its own lines fit, ...
    ensures r.Excerpt? && !r.truncated ==>
              r.start <= refStart && refEnd <= r.end && r.end - r.start <= maxBytes && WholeLines(t, r.start, r.end)
    ensures r.Excerpt? ==> (r.truncated <==> LineEnd(t, refEnd) - LineStart(t, refStart) > maxBytes)
    ensures r.Excerpt? && !r.truncated && adjacentLines ==> FullOfLines(t, r.start, r.end, maxBytes)
    // ... and a longer one by its beginning. The call fails exactly when that cut falls inside a character.
    ensures r.Excerpt? && r.truncated && refEnd - refStart >= maxBytes ==>
              && r.start == refStart && r.start + maxBytes / 2 <= r.end <= refStart + maxBytes && Boundary(t, r.end)
              && CutAfterBreak(breaks, t, refStart, maxBytes, r.end)
    ensures r.SplitsCharacter? <==>
              && Site(t, refStart, refEnd)
              && LineEnd(t, refEnd) - LineStart(t, refStart) > maxBytes
              && refEnd - refStart >= maxBytes
              && !CutsCleanly(breaks, t, refStart, maxBytes)
    ensures r.Excerpt? ==> && r.start <= r.end <= |t|
                           && r.startLine == 1 + IndexRun.Newlines(t[..r.start])
                           && r.endLine == r.startLine + IndexRun.Newlines(t[r.start..r.end])
  {
    if !Site(t, refStart, refEnd) {
      return NoRange;
    }
    var lineStart, lineEnd := LineStart(t, refStart), LineEnd(t, refEnd);
    var start: nat, end: nat, truncated := lineStart, lineEnd, false;
    if adjacentLines && lineEnd - lineStart <= maxBytes {
      start, end := ExpandLines(t, lineStart, lineEnd, maxBytes);
    }
    LinesAreBoundaries(t, start, end);
    if end - start > maxBytes {
      truncated := true;
      var ok;
      ok, start, end := Window(breaks, t, lineStart, lineEnd, refStart, refEnd, maxBytes);
      if !ok {
        return SplitsCharacter;
      }
    }
    var startLine := 1 + IndexRun.Newlines(t[..start]);
    return Excerpt(start, end, truncated, startLine, startLine + IndexRun.Newlines(t[start..end]));
  }

  // ----- The failing family is real

  /** An `a`, and then so many times an `e` with an acute accent. */
  function Accented(n: nat): (t: Bytes)
    ensures |t| == 1 + 2 * n && t[0] == 0x61
    ensures forall i :: 1 <= i < |t| ==> t[i] == if i % 2 == 1 then 0xC3 else 0xA9
  {
    [0x61] + Accents(n)
  }

  function Accents(n: nat): (t: Bytes)
    ensures |t| == 2 * n
    ensures forall i :: 0 <= i < |t| ==> t[i] == if i % 2 == 0 then 0xC3 else 0xA9
  {
    if n == 0 then [] else [0xC3, 0xA9] + Accents(n - 1)
  }

  lemma {:induction false} AccentsAreText(n: nat)
    ensures Valid(Accents(n))
  {
    if n > 0 {
      AccentsAreText(n - 1);
      assert Accents(n)[2..] == Accents(n - 1);
      ValidFromFirst(Accents(n), 2);
    }
  }

  lemma AccentedIsText(n: nat)
    ensures Valid(Accented(n))
  {
    AccentsAreText(n);
    assert Accented(n)[1..] == Accents(n);
    ValidFromFirst(Accented(n), 1);
  }

  /** At both limits the excerpt is asked for with, a reference can be so long that the limit falls
      inside one of its characters. */
  lemma SplitHappens(breaks: CharClass, maxBytes: nat)
    requires maxBytes == MAX_PROJECT_MAP_REFERENCE_EXCERPT_BYTES || maxBytes == MAX_PROJECT_MAP_MENTION_EXCERPT_BYTES
    ensures var t := Accented(maxBytes / 2);
            && Valid(t) && Site(t, 0, |t|)
            && LineEnd(t, |t|) - LineStart(t, 0) > maxBytes && |t| >= maxBytes
            && !CutsCleanly(breaks, t, 0, maxBytes)
  {
    AccentedIsText(maxBytes / 2);
  }
}
