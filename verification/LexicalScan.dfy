/** The scan of a file's chunks for whole occurrences of an identifier (src/project_index.rs). */
module LexicalScan {
  import opened Utf8
  import opened ChunkSpans

  const MAX_PROJECT_MAP_MENTION_CANDIDATES := 512

  /** Tells identifier characters (alphanumeric or `_`) by their UTF-8 encoding. */
  type CharClass = Bytes -> bool

  /** One row of `chunks_fts`. */
  datatype Row = Row(path: Path, span: Span)

  predicate Occurs(t: Bytes, name: Bytes, p: nat) {
    p + |name| <= |t| && t[p..p + |name|] == name
  }

  function CharBefore(t: Bytes, p: nat): Bytes
    requires 0 < p <= |t|
  {
    t[Floor(t, p - 1)..p]
  }

  function CharAfter(t: Bytes, p: nat): Bytes
    requires p < |t|
  {
    t[p..Ceil(t, p + 1)]
  }

  /** `exact_identifier_occurrence`: no identifier character touches the occurrence. */
  predicate Exact(ident: CharClass, t: Bytes, p: nat, length: nat) {
    && p + length <= |t|
    && !(p > 0 && ident(CharBefore(t, p)))
    && !(p + length < |t| && ident(CharAfter(t, p + length)))
  }

  /** From `p` to `q` there is one character. */
  predicate OneCharacter(t: Bytes, p: nat, q: nat) {
    p < q <= |t| && Boundary(t, p) && Boundary(t, q) && forall k :: p < k < q ==> !Boundary(t, k)
  }

  /** That is, neither the character that ends where it begins nor the one that begins where it ends. */
  lemma ExactIsAlone(ident: CharClass, t: Bytes, p: nat, length: nat)
    requires p + length <= |t| && Boundary(t, p) && Boundary(t, p + length)
    ensures Exact(ident, t, p, length) <==>
            && (forall k: nat :: OneCharacter(t, k, p) ==> !ident(t[k..p]))
            && var end := p + length; forall k: nat :: OneCharacter(t, end, k) ==> !ident(t[end..k])
  {
    if p > 0 {
      assert OneCharacter(t, Floor(t, p - 1), p);
    }
    if p + length < |t| {
      assert OneCharacter(t, p + length, Ceil(t, p + length + 1));
    }
  }

  /** A nonempty name made of whole identifier characters. */
  ghost predicate Identifier(ident: CharClass, name: Bytes) {
    && name != []
    && !Continuation(name[0])
    && forall q :: 0 < q <= |name| && Boundary(name, q) ==> ident(CharBefore(name, q))
  }

  /** A position the scan is there to find. */
  ghost predicate Wanted(ident: CharClass, t: Bytes, name: Bytes, p: nat) {
    Occurs(t, name, p) && Exact(ident, t, p, |name|)
  }

  /** `str::match_indices`: leftmost matches that do not overlap. */
  function MatchIndices(t: Bytes, name: Bytes, from: nat): (r: seq<nat>)
    requires name != []
    decreases |t| - from
  {
    if from + |name| > |t| then []
    else if Occurs(t, name, from) then [from] + MatchIndices(t, name, from + |name|)
    else MatchIndices(t, name, from + 1)
  }

  lemma {:induction false} MatchesOccur(t: Bytes, name: Bytes, from: nat, p: nat)
    requires name != [] && p in MatchIndices(t, name, from)
    ensures Occurs(t, name, p)
    decreases |t| - from
  {
    if Occurs(t, name, from) {
      if p != from {
        MatchesOccur(t, name, from + |name|, p);
      }
    } else {
      MatchesOccur(t, name, from + 1, p);
    }
  }

  /** Greedy matching reports every occurrence that no earlier one overlaps. */
  lemma {:induction false} MatchesFind(t: Bytes, name: Bytes, from: nat, p: nat)
    requires name != [] && from <= p && Occurs(t, name, p)
    requires forall q: nat | q < p < q + |name| :: !Occurs(t, name, q)
    ensures p in MatchIndices(t, name, from)
    decreases |t| - from
  {
    if from == p {
    } else if Occurs(t, name, from) {
      MatchesFind(t, name, from + |name|, p);
    } else {
      MatchesFind(t, name, from + 1, p);
    }
  }

  /** Every occurrence is reported, or overlapped from the left by one that is. */
  lemma {:induction false} MatchesCover(t: Bytes, name: Bytes, from: nat, p: nat) returns (q: nat)
    requires name != [] && from <= p && Occurs(t, name, p)
    ensures q in MatchIndices(t, name, from) && q <= p < q + |name|
    decreases |t| - from
  {
    if Occurs(t, name, from) {
      if p < from + |name| {
        q := from;
      } else {
        q := MatchesCover(t, name, from + |name|, p);
      }
    } else {
      q := MatchesCover(t, name, from + 1, p);
    }
  }

  predicate Apart(r: seq<nat>, length: nat) {
    forall i, j :: 0 <= i < j < |r| ==> r[i] + length <= r[j]
  }

  /** Those that are reported do not overlap. */
  lemma {:induction false} MatchesAreApart(t: Bytes, name: Bytes, from: nat)
    requires name != []
    ensures var r := MatchIndices(t, name, from);
            (forall i :: 0 <= i < |r| ==> from <= r[i]) && Apart(r, |name|)
    decreases |t| - from
  {
    if from + |name| <= |t| {
      if Occurs(t, name, from) {
        var rest := MatchIndices(t, name, from + |name|);
        MatchesAreApart(t, name, from + |name|);
        var r := [from] + rest;
        assert MatchIndices(t, name, from) == r;
        forall i, j | 0 <= i < j < |r| ensures r[i] + |name| <= r[j] {
          assert r[j] == rest[j - 1] && (i > 0 ==> r[i] == rest[i - 1]);
        }
        forall i | 0 <= i < |r| ensures from <= r[i] {
          assert i > 0 ==> r[i] == rest[i - 1];
        }
      } else {
        MatchesAreApart(t, name, from + 1);
        assert MatchIndices(t, name, from) == MatchIndices(t, name, from + 1);
      }
    }
  }

  /** A piece of text that begins at a boundary has the boundaries of the whole ... */
  lemma SliceFloor(t: Bytes, lo: nat, hi: nat, i: nat)
    requires lo + i < hi <= |t| && Boundary(t, lo)
    ensures lo + Floor(t[lo..hi], i) == Floor(t, lo + i)
  {
  }

  lemma SliceCeil(t: Bytes, lo: nat, hi: nat, i: nat)
    requires lo + i <= hi <= |t| && 0 < i && Boundary(t, hi)
    ensures lo + Ceil(t[lo..hi], i) == Ceil(t, lo + i)
  {
    var c := t[lo..hi];
    forall k: nat | 0 < k <= hi - lo ensures Boundary(c, k) <==> Boundary(t, lo + k) {
      assert k < hi - lo ==> c[k] == t[lo + k];
    }
    var f, g := Ceil(c, i), Ceil(t, lo + i);
    assert Boundary(t, lo + f);
    assert Boundary(c, g - lo);
  }

  lemma SliceOfSlice(t: Bytes, lo: nat, hi: nat, i: nat, j: nat)
    requires lo <= hi <= |t| && i <= j <= hi - lo
    ensures t[lo..hi][i..j] == t[lo + i..lo + j]
  {
    forall k | 0 <= k < j - i ensures t[lo..hi][i..j][k] == t[lo + i..lo + j][k] { }
  }

  /** ... so the character before a position is the same in both. */
  lemma SliceBefore(t: Bytes, lo: nat, hi: nat, p: nat)
    requires lo < p <= hi <= |t| && Boundary(t, lo)
    ensures CharBefore(t[lo..hi], p - lo) == CharBefore(t, p)
  {
    SliceFloor(t, lo, hi, p - lo - 1);
    var f := Floor(t[lo..hi], p - lo - 1);
    assert lo + f == Floor(t, p - 1);
    SliceOfSlice(t, lo, hi, f, p - lo);
  }

  lemma SliceAfter(t: Bytes, lo: nat, hi: nat, p: nat)
    requires lo <= p < hi <= |t| && Boundary(t, hi)
    ensures CharAfter(t[lo..hi], p - lo) == CharAfter(t, p)
  {
    SliceCeil(t, lo, hi, p - lo + 1);
    var f := Ceil(t[lo..hi], p - lo + 1);
    assert lo + f == Ceil(t, p + 1) && f <= |t[lo..hi]|;
    SliceOfSlice(t, lo, hi, p - lo, f);
  }

  /** What the chunk says of an occurrence is what the file says, unless a chunk edge hides a neighbour. */
  lemma ExactInChunk(ident: CharClass, t: Bytes, s: Span, p: nat, length: nat)
    requires Cut(t, s) && s.start <= p && p + length <= s.end
    ensures Exact(ident, t, p, length) ==> Exact(ident, t[s.start..s.end], p - s.start, length)
    ensures Exact(ident, t[s.start..s.end], p - s.start, length) && p != s.start && p + length != s.end
            ==> Exact(ident, t, p, length)
  {
    if p > s.start {
      SliceBefore(t, s.start, s.end, p);
    }
    if p + length < s.end {
      SliceAfter(t, s.start, s.end, p + length);
    }
  }

  lemma OccursInChunk(t: Bytes, name: Bytes, s: Span, p: nat)
    requires s.start <= p && p + |name| <= s.end <= |t|
    ensures Occurs(t, name, p) <==> Occurs(t[s.start..s.end], name, p - s.start)
  {
    if Occurs(t, name, p) || p - s.start + |name| <= s.end - s.start {
      SliceOfSlice(t, s.start, s.end, p - s.start, p - s.start + |name|);
    }
  }

  /** Inside an occurrence of an identifier, an identifier character stands before every boundary. */
  lemma OverlapPutsIdentifierBefore(ident: CharClass, t: Bytes, name: Bytes, q: nat, p: nat)
    requires Identifier(ident, name)
    requires Occurs(t, name, q) && Occurs(t, name, p) && q < p < q + |name|
    ensures ident(CharBefore(t, p))
  {
    assert t[q] == t[q..q + |name|][0] && t[p] == t[p..p + |name|][0];
    assert Boundary(t, q) && Boundary(name, p - q) by { assert name[p - q] == t[p]; }
    SliceBefore(t, q, q + |name|, p);
  }

  /** So nothing overlaps an exact occurrence from the left. */
  lemma NothingOverlapsExact(ident: CharClass, t: Bytes, name: Bytes, q: nat, p: nat)
    requires Identifier(ident, name)
    requires Wanted(ident, t, name, p) && q < p < q + |name|
    ensures !Occurs(t, name, q)
  {
    if Occurs(t, name, q) {
      OverlapPutsIdentifierBefore(ident, t, name, q, p);
    }
  }

  lemma WantedIsMatched(ident: CharClass, t: Bytes, name: Bytes, p: nat)
    requires Identifier(ident, name) && Wanted(ident, t, name, p)
    ensures p in MatchIndices(t, name, 0)
  {
    forall q: nat | q < p < q + |name| ensures !Occurs(t, name, q) {
      NothingOverlapsExact(ident, t, name, q, p);
    }
    MatchesFind(t, name, 0, p);
  }

  /** A stretch of at most 126 bytes lies wholly inside one of the chunks. */
  lemma {:induction false} InSomeChunk(t: Bytes, spans: seq<Span>, from: nat, a: nat, b: nat)
    requires Tiles(t, spans, from)
    requires from <= a < b <= |t| && b - a <= CHUNK_OVERLAP_BYTES - 2
    ensures exists s :: s in spans && s.start <= a && b <= s.end
    decreases |spans|
  {
    if b <= spans[0].end {
      assert spans[0] in spans;
    } else {
      assert |spans| > 1;
      assert Overlap(spans[0], spans[1]);
      var rest := spans[1..];
      forall i | 0 <= i < |rest| - 1 ensures Overlap(rest[i], rest[i + 1]) {
        assert Overlap(spans[i + 1], spans[i + 2]);
      }
      InSomeChunk(t, rest, rest[0].start, a, b);
    }
  }

  /** A recorded position is an occurrence, and fails to be exact only where a chunk edge hid its neighbour. */
  ghost predicate SoundAt(ident: CharClass, t: Bytes, path: Path, rows: seq<Row>, name: Bytes, p: nat) {
    && Occurs(t, name, p)
    && (Exact(ident, t, p, |name|) || exists r :: r in rows && r.path == path && AtEdge(r.span, name, p))
  }

  predicate AtEdge(s: Span, name: Bytes, p: nat) {
    s.start == p || s.end == p + |name|
  }

  /** Every exact occurrence in the file has been recorded. */
  ghost predicate FileDone(ident: CharClass, t: Bytes, path: Path, name: Bytes,
                           covered: (Path, nat) -> bool, occurrences: set<(Path, nat)>)
  {
    forall p: nat | Wanted(ident, t, name, p) && !covered(path, p) :: (path, p) in occurrences
  }

  /** What one row contributes: the matches that pass the exactness test and no anchor or edge covers. */
  ghost function RowFinds(ident: CharClass, t: Bytes, row: Row, name: Bytes, covered: (Path, nat) -> bool): set<(Path, nat)>
    requires name != [] && row.span.start <= row.span.end <= |t|
  {
    var content := t[row.span.start..row.span.end];
    set offset | offset in MatchIndices(content, name, 0)
      && Exact(ident, content, offset, |name|) && !covered(row.path, row.span.start + offset)
      :: (row.path, row.span.start + offset)
  }

  lemma RowFindsAreSound(ident: CharClass, t: Bytes, row: Row, rows: seq<Row>, name: Bytes,
                         covered: (Path, nat) -> bool, o: (Path, nat))
    requires name != [] && Cut(t, row.span) && row in rows
    requires o in RowFinds(ident, t, row, name, covered)
    ensures o.0 == row.path && !covered(o.0, o.1) && SoundAt(ident, t, row.path, rows, name, o.1)
  {
    var content := t[row.span.start..row.span.end];
    var offset := o.1 - row.span.start;
    MatchesOccur(content, name, 0, offset);
    OccursInChunk(t, name, row.span, o.1);
    ExactInChunk(ident, t, row.span, o.1, |name|);
    assert AtEdge(row.span, name, o.1) || Exact(ident, t, o.1, |name|);
  }

  lemma RowFindsAll(ident: CharClass, t: Bytes, row: Row, name: Bytes, covered: (Path, nat) -> bool, p: nat)
    requires Identifier(ident, name) && Cut(t, row.span)
    requires row.span.start <= p && p + |name| <= row.span.end && Wanted(ident, t, name, p) && !covered(row.path, p)
    ensures (row.path, p) in RowFinds(ident, t, row, name, covered)
  {
    OccursInChunk(t, name, row.span, p);
    ExactInChunk(ident, t, row.span, p, |name|);
    WantedIsMatched(ident, t[row.span.start..row.span.end], name, p - row.span.start);
  }

  /** The search of one chunk: the inner loop of the scan. */
  method ScanRow(ident: CharClass, t: Bytes, row: Row, name: Bytes, covered: (Path, nat) -> bool)
    returns (found: set<(Path, nat)>)
    requires name != [] && row.span.start <= row.span.end <= |t|
    ensures found == RowFinds(ident, t, row, name, covered)
  {
    var content := t[row.span.start..row.span.end];
    var offsets := MatchIndices(content, name, 0);
    found := {};
    for i := 0 to |offsets|
      invariant found == set offset | offset in offsets[..i]
                    && Exact(ident, content, offset, |name|) && !covered(row.path, row.span.start + offset)
                  :: (row.path, row.span.start + offset)
    {
      assert offsets[..i + 1] == offsets[..i] + [offsets[i]];
      if !Exact(ident, content, offsets[i], |name|) {
        continue;
      }
      if !covered(row.path, row.span.start + offsets[i]) {
        found := found + {(row.path, row.span.start + offsets[i])};
      }
    }
    assert offsets[..|offsets|] == offsets;
  }

  lemma RowsCoverFile(ident: CharClass, t: Bytes, path: Path, rows: seq<Row>, name: Bytes,
                      covered: (Path, nat) -> bool, occurrences: set<(Path, nat)>)
    requires Bounded(t) && Identifier(ident, name) && |name| <= CHUNK_OVERLAP_BYTES - 2
    requires forall s | s in Spans(t) :: Cut(t, s) && RowFinds(ident, t, Row(path, s), name, covered) <= occurrences
    ensures FileDone(ident, t, path, name, covered, occurrences)
  {
    forall p: nat | Wanted(ident, t, name, p) && !covered(path, p) ensures (path, p) in occurrences {
      SpansTile(t, 0);
      InSomeChunk(t, Spans(t), 0, p, p + |name|);
      var s :| s in Spans(t) && s.start <= p && p + |name| <= s.end;
      RowFindsAll(ident, t, Row(path, s), name, covered, p);
    }
  }

  ghost predicate GoodRow(files: map<Path, Bytes>, row: Row) {
    row.path in files && Bounded(files[row.path]) && Cut(files[row.path], row.span)
  }

  /** What a list of rows contributes. */
  ghost function AllFinds(ident: CharClass, files: map<Path, Bytes>, rows: seq<Row>, name: Bytes,
                          covered: (Path, nat) -> bool): set<(Path, nat)>
    requires name != [] && forall r :: r in rows ==> GoodRow(files, r)
  {
    if rows == [] then {}
    else
      var row := rows[|rows| - 1];
      assert row in rows && GoodRow(files, row);
      AllFinds(ident, files, rows[..|rows| - 1], name, covered) + RowFinds(ident, files[row.path], row, name, covered)
  }

  lemma {:induction false} AllFindsFrom(ident: CharClass, files: map<Path, Bytes>, rows: seq<Row>, name: Bytes,
                                        covered: (Path, nat) -> bool, o: (Path, nat))
    requires name != [] && forall r :: r in rows ==> GoodRow(files, r)
    ensures o in AllFinds(ident, files, rows, name, covered) <==>
              exists r :: r in rows && o in RowFinds(ident, files[r.path], r, name, covered)
  {
    if rows != [] {
      var shorter, last := rows[..|rows| - 1], rows[|rows| - 1];
      assert rows == shorter + [last];
      AllFindsFrom(ident, files, shorter, name, covered, o);
    }
  }

  /** Every file all of whose chunks are among `rows`. */
  ghost predicate FilesDone(ident: CharClass, files: map<Path, Bytes>, rows: seq<Row>, name: Bytes,
                            covered: (Path, nat) -> bool, occurrences: set<(Path, nat)>)
  {
    forall path | path in files && Bounded(files[path]) && (forall s :: s in Spans(files[path]) ==> Row(path, s) in rows)
      :: FileDone(ident, files[path], path, name, covered, occurrences)
  }

  /** A scan reports only occurrences, none of them covered, and inexact ones only at chunk edges. */
  lemma ScanIsSound(ident: CharClass, files: map<Path, Bytes>, rows: seq<Row>, name: Bytes,
                    covered: (Path, nat) -> bool, o: (Path, nat))
    requires name != [] && forall r :: r in rows ==> GoodRow(files, r)
    requires o in AllFinds(ident, files, rows, name, covered)
    ensures !covered(o.0, o.1) && o.0 in files && SoundAt(ident, files[o.0], o.0, rows, name, o.1)
  {
    AllFindsFrom(ident, files, rows, name, covered, o);
    var r :| r in rows && o in RowFinds(ident, files[r.path], r, name, covered);
    assert GoodRow(files, r);
    RowFindsAreSound(ident, files[r.path], r, rows, name, covered, o);
  }

  /** A scan for a name of at most 126 bytes finds every exact occurrence in every file whose
      chunks are all among its rows. */
  lemma ScanIsComplete(ident: CharClass, files: map<Path, Bytes>, rows: seq<Row>, name: Bytes,
                       covered: (Path, nat) -> bool)
    requires Identifier(ident, name) && |name| <= CHUNK_OVERLAP_BYTES - 2
    requires forall r :: r in rows ==> GoodRow(files, r)
    ensures FilesDone(ident, files, rows, name, covered, AllFinds(ident, files, rows, name, covered))
  {
    var occurrences := AllFinds(ident, files, rows, name, covered);
    forall path | path in files && Bounded(files[path]) && (forall s :: s in Spans(files[path]) ==> Row(path, s) in rows)
      ensures FileDone(ident, files[path], path, name, covered, occurrences)
    {
      forall s | s in Spans(files[path])
        ensures Cut(files[path], s) && RowFinds(ident, files[path], Row(path, s), name, covered) <= occurrences
      {
        assert GoodRow(files, Row(path, s));
        forall o | o in RowFinds(ident, files[path], Row(path, s), name, covered) ensures o in occurrences {
          AllFindsFrom(ident, files, rows, name, covered, o);
        }
      }
      RowsCoverFile(ident, files[path], path, rows, name, covered, occurrences);
    }
  }

  /** `verified_lexical_residue` up to its grouping, for one lead name: collect the positions of
      `name` in the first 512 candidate chunks. A position is counted once however many chunks hold it. */
  method Scan(ident: CharClass, files: map<Path, Bytes>, rows: seq<Row>, name: Bytes, covered: (Path, nat) -> bool)
    returns (occurrences: set<(Path, nat)>, truncated: bool)
    requires name != [] && forall r :: r in rows ==> GoodRow(files, r)
    ensures truncated <==> |rows| > 512
    ensures var taken := if truncated then rows[..512] else rows;
            occurrences == AllFinds(ident, files, taken, name, covered)
  {
    occurrences := {};
    truncated := |rows| > MAX_PROJECT_MAP_MENTION_CANDIDATES;
    var taken := if truncated then rows[..MAX_PROJECT_MAP_MENTION_CANDIDATES] else rows;
    for i := 0 to |taken|
      invariant occurrences == AllFinds(ident, files, taken[..i], name, covered)
    {
      var row := taken[i];
      assert GoodRow(files, row);
      assert taken[..i + 1][..i] == taken[..i];
      var found := ScanRow(ident, files[row.path], row, name, covered);
      occurrences := occurrences + found;
    }
    assert taken[..|taken|] == taken;
  }
}
