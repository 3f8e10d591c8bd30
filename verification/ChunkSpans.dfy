/** The overlapping chunks a file is cut into (src/project_index.rs). */
module ChunkSpans {
  import opened Utf8

  const CHUNK_BYTES := 2048
  const CHUNK_OVERLAP_BYTES := 128

  datatype Span = Span(start: nat, end: nat)

  /** `text[lo..hi].rfind('\n')` as an absolute position, or -1. */
  function LastNewline(t: Bytes, lo: nat, hi: nat): (r: int)
    requires lo <= hi <= |t|
    ensures r == -1 || (lo <= r < hi && t[r] == NEWLINE)
    ensures forall k :: lo <= k < hi && r < k ==> t[k] != NEWLINE
    decreases hi
  {
    if lo == hi then -1
    else if t[hi - 1] == NEWLINE then hi - 1
    else LastNewline(t, lo, hi - 1)
  }

  /** Where the chunk that begins at `start` ends. */
  function ChunkEnd(t: Bytes, start: nat): (end: nat)
    requires start < |t|
    ensures end <= |t|
  {
    var limit := if start + CHUNK_BYTES <= |t| then start + CHUNK_BYTES else |t|;
    var end := Floor(t, limit);
    if end < |t| && start <= end then
      var newline := LastNewline(t, start, end);
      if newline - start + 1 >= CHUNK_BYTES / 2 then newline + 1 else end
    else end
  }

  /** Where the chunk after the one that ends at `end` begins. */
  function NextStart(t: Bytes, end: nat): (start: nat)
    requires end <= |t|
    ensures start <= end
  {
    var next := if end >= CHUNK_OVERLAP_BYTES then end - CHUNK_OVERLAP_BYTES else 0;
    if Ceil(t, next) <= end then Ceil(t, next) else end
  }

  lemma EndIsFar(t: Bytes, start: nat)
    requires Bounded(t) && start < |t| && Boundary(t, start)
    ensures Boundary(t, ChunkEnd(t, start))
    ensures start < ChunkEnd(t, start) <= start + 2048
    ensures ChunkEnd(t, start) == |t| <==> |t| <= start + 2048
    ensures ChunkEnd(t, start) < |t| ==> start + 1024 <= ChunkEnd(t, start)
  {
    var limit := if start + CHUNK_BYTES <= |t| then start + CHUNK_BYTES else |t|;
    FloorIsNear(t, limit);
    var end := Floor(t, limit);
    if limit == |t| {
      assert Boundary(t, limit);
    } else if LastNewline(t, start, end) - start + 1 >= CHUNK_BYTES / 2 {
      assert !Orphan(t, LastNewline(t, start, end));
    }
  }

  /** A newline in the second half of a full chunk. */
  predicate Breaks(t: Bytes, start: nat, k: nat)
    requires start + 2048 < |t|
  {
    start + 1023 <= k < Floor(t, start + 2048) && t[k] == NEWLINE
  }

  /** The last chunk takes all that fits; any other stops after the last newline of its second half, if
      there is one, and else as far as whole characters go. */
  ghost predicate Best(t: Bytes, start: nat, end: nat) {
    if start + 2048 >= |t| then end == |t|
    else
      && start + 1024 <= end <= Floor(t, start + 2048)
      && (forall k: nat :: Breaks(t, start, k) ==> k < end)
      && if exists k: nat :: Breaks(t, start, k) then Breaks(t, start, end - 1) else end == Floor(t, start + 2048)
  }

  lemma EndIsBest(t: Bytes, start: nat)
    requires Bounded(t) && start < |t| && Boundary(t, start)
    ensures Best(t, start, ChunkEnd(t, start))
  {
    EndIsFar(t, start);
    if start + 2048 < |t| {
      FloorIsNear(t, start + 2048);
      var newline := LastNewline(t, start, Floor(t, start + 2048));
      if newline - start + 1 >= 1024 {
        assert Breaks(t, start, newline);
      }
    }
  }

  lemma NextIsNear(t: Bytes, end: nat)
    requires Bounded(t) && CHUNK_OVERLAP_BYTES <= end <= |t| && Boundary(t, end)
    ensures Boundary(t, NextStart(t, end))
    ensures 125 <= end - NextStart(t, end) <= 128
    ensures forall k :: end - 128 <= k < NextStart(t, end) ==> !Boundary(t, k)
  {
    CeilIsNear(t, end - CHUNK_OVERLAP_BYTES);
  }

  /** The spans from `start` on, without the loop's two safety fallbacks. */
  ghost function SpansFrom(t: Bytes, start: nat): (spans: seq<Span>)
    requires Bounded(t) && start < |t| && Boundary(t, start)
    decreases |t| - start
  {
    EndIsFar(t, start);
    var end := ChunkEnd(t, start);
    if end == |t| then [Span(start, end)]
    else
      NextIsNear(t, end);
      [Span(start, end)] + SpansFrom(t, NextStart(t, end))
  }

  ghost function Spans(t: Bytes): seq<Span>
    requires Bounded(t)
  {
    if t == [] then [] else SpansFrom(t, 0)
  }

  /** What the index relies on about the chunks of `t` from byte `from` on. */
  ghost predicate Tiles(t: Bytes, spans: seq<Span>, from: nat) {
    && |spans| > 0
    && spans[0].start == from
    && spans[|spans| - 1].end == |t|
    && (forall i :: 0 <= i < |spans| ==> Cut(t, spans[i]))
    && (forall i :: 0 <= i < |spans| - 1 ==> Overlap(spans[i], spans[i + 1]))
  }

  /** A nonempty stretch of whole characters no longer than a chunk. */
  predicate Cut(t: Bytes, s: Span) {
    s.start < s.end <= |t| && s.end - s.start <= CHUNK_BYTES && Boundary(t, s.start) && Boundary(t, s.end)
  }

  /** Both ends advance, and the later chunk repeats 125 to 128 bytes. */
  predicate Overlap(a: Span, b: Span) {
    && a.start < b.start
    && a.end < b.end
    && CHUNK_OVERLAP_BYTES - 3 <= a.end - b.start <= CHUNK_OVERLAP_BYTES
  }

  lemma {:induction false} SpansTile(t: Bytes, from: nat)
    requires Bounded(t) && from < |t| && Boundary(t, from)
    ensures Tiles(t, SpansFrom(t, from), from)
    decreases |t| - from
  {
    EndIsFar(t, from);
    var end := ChunkEnd(t, from);
    if end < |t| {
      NextIsNear(t, end);
      var next := NextStart(t, end);
      var rest := SpansFrom(t, next);
      SpansTile(t, next);
      NextEndAdvances(t, from);
      assert SpansFrom(t, from) == [Span(from, end)] + rest;
      assert Overlap(Span(from, end), rest[0]);
    }
  }

  /** Every chunk ends where it is best. */
  lemma {:induction false} SpansAreBest(t: Bytes, from: nat)
    requires Bounded(t) && from < |t| && Boundary(t, from)
    ensures forall s :: s in SpansFrom(t, from) ==> Best(t, s.start, s.end)
    decreases |t| - from
  {
    EndIsFar(t, from);
    EndIsBest(t, from);
    if ChunkEnd(t, from) < |t| {
      NextIsNear(t, ChunkEnd(t, from));
      SpansAreBest(t, NextStart(t, ChunkEnd(t, from)));
    }
  }

  lemma SpansFit(b: Bytes)
    requires Bounded(b)
    ensures forall s :: s in Spans(b) ==> s.start <= s.end <= |b|
  {
    if b != [] {
      SpansTile(b, 0);
      forall s | s in Spans(b) ensures Cut(b, s) {
        var i :| 0 <= i < |Spans(b)| && Spans(b)[i] == s;
      }
    }
  }

  lemma NextEndAdvances(t: Bytes, from: nat)
    requires Bounded(t) && from < |t| && Boundary(t, from) && ChunkEnd(t, from) < |t|
    requires Boundary(t, NextStart(t, ChunkEnd(t, from)))
    ensures ChunkEnd(t, from) < ChunkEnd(t, NextStart(t, ChunkEnd(t, from)))
  {
    EndIsFar(t, from);
    NextIsNear(t, ChunkEnd(t, from));
    EndIsFar(t, NextStart(t, ChunkEnd(t, from)));
  }

  /** One turn of the loop below: where its chunk ends, found by walking back to a boundary. */
  method FindEnd(t: Bytes, start: nat) returns (end: nat)
    requires Bounded(t) && start < |t| && Boundary(t, start)
    ensures end == ChunkEnd(t, start)
  {
    EndIsFar(t, start);
    var limit := if start + CHUNK_BYTES <= |t| then start + CHUNK_BYTES else |t|;
    FloorIsNear(t, limit);
    end := limit;
    while end > start && !Boundary(t, end)
      invariant start <= end <= limit
      invariant Floor(t, limit) == Floor(t, end)
    {
      end := end - 1;
    }
    if end < |t| {
      var newline := LastNewline(t, start, end);
      if newline != -1 && newline - start + 1 >= CHUNK_BYTES / 2 {
        end := newline + 1;
      }
    }
  }

  /** ... and where the next one starts, found by walking forward. */
  method FindNext(t: Bytes, start: nat, end: nat) returns (next: nat)
    requires Bounded(t) && start < |t| && Boundary(t, start) && end == ChunkEnd(t, start) < |t|
    ensures next == NextStart(t, end)
  {
    EndIsFar(t, start);
    NextIsNear(t, end);
    var saturated := if end >= CHUNK_OVERLAP_BYTES then end - CHUNK_OVERLAP_BYTES else 0;
    next := saturated;
    while next < end && !Boundary(t, next)
      invariant saturated <= next <= end
      invariant Ceil(t, saturated) == Ceil(t, next)
    {
      next := next + 1;
    }
    assert next == NextStart(t, end);
    if next < start + 1 {
      assert false; // the fallback to `start + 1` is dead
    }
    if next < |t| && !Boundary(t, next) {
      assert false; // so is the walk forward from it
    }
  }

  /** One chunk moves from the spans to come to those found. */
  lemma OneMoreSpan(t: Bytes, found: seq<Span>, start: nat)
    requires Bounded(t) && start < |t| && Boundary(t, start)
    ensures var end := ChunkEnd(t, start);
            && (end == |t| ==> found + SpansFrom(t, start) == found + [Span(start, end)])
            && (end < |t| ==>
                  start < NextStart(t, end) && Boundary(t, NextStart(t, end))
                  && found + SpansFrom(t, start) == found + [Span(start, end)] + SpansFrom(t, NextStart(t, end)))
  {
    EndIsFar(t, start);
    var end := ChunkEnd(t, start);
    if end < |t| {
      NextIsNear(t, end);
      var rest := SpansFrom(t, NextStart(t, end));
      assert SpansFrom(t, start) == [Span(start, end)] + rest;
      assert found + ([Span(start, end)] + rest) == found + [Span(start, end)] + rest;
    }
  }

  /** `chunk_spans`, with its loop, its moving ends and both fallbacks: the fallbacks never act. */
  method Chunk(t: Bytes) returns (spans: seq<Span>)
    requires Bounded(t)
    ensures spans == Spans(t)
  {
    spans := [];
    var start := 0;
    if t != [] {
      assert spans + SpansFrom(t, 0) == Spans(t);
    }
    while start < |t|
      invariant start <= |t| && Boundary(t, start)
      invariant start == |t| ==> t == [] && spans == []
      invariant start < |t| ==> spans + SpansFrom(t, start) == Spans(t)
    {
      EndIsFar(t, start);
      OneMoreSpan(t, spans, start);
      var end := FindEnd(t, start);
      if end <= start {
        assert false; // the early exit is dead
      }
      spans := spans + [Span(start, end)];
      if end == |t| {
        return;
      }
      NextIsNear(t, end);
      start := FindNext(t, start, end);
    }
  }
}
