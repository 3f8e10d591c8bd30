/** One index run over a working tree: when the tables are the projection of a tree, and what the run
    does to them (src/project_index.rs). */
module IndexRun {
  import opened Utf8
  import opened Wrappers
  import opened ChunkSpans
  import opened IndexSelection
  import opened Projection

  /** What a binary stamps on the projection it builds. */
  datatype Constants = Constants(schema: int, policy: string, grammar: string)

  /** The digest and the parser, and the file a symbol key belongs to. */
  datatype Env = Env(hash: Bytes -> string, parse: (Constants, Path, Bytes) -> Parsed, owner: Key -> Path)

  /** Digests are injective, and a file's parse mentions only symbols of that file as its own. */
  ghost predicate Sound(env: Env) {
    && (forall a, b :: env.hash(a) == env.hash(b) ==> a == b)
    && (forall c, p, b :: Owned(env, p, env.parse(c, p, b)))
  }

  ghost predicate Owned(env: Env, p: Path, parsed: Parsed) {
    && (forall s :: s in parsed.symbols ==> env.owner(s.key) == p)
    && (forall r :: r in parsed.references && r.source.Some? ==> env.owner(r.source.value) == p)
  }

  datatype Base = Base(files: map<Path, FileRow>, chunks: set<ChunkRow>, symbols: set<SymbolRow>, references: set<ReferenceRow>)

  datatype Meta = Meta(schema: Option<int>, snapshot: Option<string>, policy: Option<string>, grammar: Option<string>)

  datatype Db = Db(base: Base, edges: set<EdgeRow>, meta: Meta)

  const EMPTY_BASE := Base(map[], {}, {}, {})
  const EMPTY_DB := Db(EMPTY_BASE, {}, Meta(None, None, None, None))

  // ----- The rows of one file

  function Newlines(b: Bytes): nat {
    if b == [] then 0 else Newlines(b[..|b| - 1]) + if b[|b| - 1] == NEWLINE then 1 else 0
  }

  function FileRowOf(env: Env, c: Constants, p: Path, b: Bytes): FileRow {
    var parsed := env.parse(c, p, b);
    FileRow(env.hash(b), |b|, parsed.language, parsed.state)
  }

  function ChunkRowOf(p: Path, b: Bytes, s: Span): ChunkRow
    requires s.start <= s.end <= |b|
  {
    var startLine := 1 + Newlines(b[..s.start]);
    ChunkRow(p, s, startLine, startLine + Newlines(b[s.start..s.end]), b[s.start..s.end])
  }

  ghost function ChunkRows(p: Path, b: Bytes): set<ChunkRow>
    requires Bounded(b)
  {
    set s | s in Spans(b) && s.start <= s.end <= |b| :: ChunkRowOf(p, b, s)
  }

  function SymbolRows(p: Path, parsed: Parsed): set<SymbolRow> {
    set s | s in parsed.symbols :: SymbolRow(p, s)
  }

  function ReferenceRowOf(p: Path, r: ParsedReference): ReferenceRow
    requires r.source.Some?
  {
    ReferenceRow(p, r.source.value, r.targetName, r.kind, r.start, r.end)
  }

  function ReferenceRows(p: Path, parsed: Parsed): set<ReferenceRow> {
    set r | r in parsed.references && r.source.Some? :: ReferenceRowOf(p, r)
  }

  /** The inserts for a file go through: no symbol key twice, no reference without a source. */
  predicate Insertable(parsed: Parsed) {
    && (forall i, j :: 0 <= i < j < |parsed.symbols| ==> parsed.symbols[i].key != parsed.symbols[j].key)
    && (forall r :: r in parsed.references ==> r.source.Some?)
  }

  // ----- What the tables hold about one path, and about a whole tree

  ghost predicate Absent(base: Base, p: Path) {
    && p !in base.files
    && (forall row :: row in base.chunks ==> row.path != p)
    && (forall row :: row in base.symbols ==> row.path != p)
    && (forall row :: row in base.references ==> row.path != p)
  }

  ghost predicate Present(env: Env, c: Constants, base: Base, p: Path, b: Bytes) {
    && Bounded(b)
    && Insertable(env.parse(c, p, b))
    && p in base.files && base.files[p] == FileRowOf(env, c, p, b)
    && (forall row: ChunkRow :: row.path == p ==> (row in base.chunks <==> row in ChunkRows(p, b)))
    && (forall row: SymbolRow :: row.path == p ==> (row in base.symbols <==> row in SymbolRows(p, env.parse(c, p, b))))
    && (forall row: ReferenceRow :: row.path == p ==> (row in base.references <==> row in ReferenceRows(p, env.parse(c, p, b))))
  }

  /** What that comes to, column by column: the file and its symbols, ... */
  lemma WhatIsStored(env: Env, c: Constants, base: Base, p: Path, b: Bytes)
    requires Present(env, c, base, p, b)
    ensures p in base.files && base.files[p] == FileRow(env.hash(b), |b|, env.parse(c, p, b).language, env.parse(c, p, b).state)
    ensures forall row: SymbolRow :: row.path == p ==> (row in base.symbols <==> row.symbol in env.parse(c, p, b).symbols)
  {
  }

  /** ... its chunks, ... */
  lemma ChunksAreStored(env: Env, c: Constants, base: Base, p: Path, b: Bytes)
    requires Present(env, c, base, p, b)
    ensures forall s :: s in Spans(b) ==> s.start <= s.end <= |b| && HasChunk(base, p, b, s)
    ensures forall row :: row in base.chunks && row.path == p ==> row.span in Spans(b)
  {
    SpansFit(b);
    forall s | s in Spans(b) ensures s.start <= s.end <= |b| && HasChunk(base, p, b, s) {
      assert ChunkRowOf(p, b, s) in ChunkRows(p, b);
      LinesOfChunk(p, b, s);
    }
  }

  lemma LinesOfChunk(p: Path, b: Bytes, s: Span)
    requires s.start <= s.end <= |b|
    ensures ChunkRowOf(p, b, s) == ChunkRow(p, s, 1 + Newlines(b[..s.start]), 1 + Newlines(b[..s.end]), b[s.start..s.end])
  {
    NewlinesAdd(b[..s.start], b[s.start..s.end]);
    assert b[..s.end] == b[..s.start] + b[s.start..s.end];
  }

  /** ... and its references. */
  lemma ReferencesAreStored(env: Env, c: Constants, base: Base, p: Path, b: Bytes, row: ReferenceRow)
    requires Present(env, c, base, p, b) && row.path == p
    ensures row in base.references <==>
            ParsedReference(Some(row.source), row.targetName, row.kind, row.start, row.end) in env.parse(c, p, b).references
  {
    var parsed := env.parse(c, p, b);
    var r := ParsedReference(Some(row.source), row.targetName, row.kind, row.start, row.end);
    if r in parsed.references {
      assert row == ReferenceRowOf(p, r);
    }
    if row in base.references {
      var q :| q in parsed.references && q.source.Some? && row == ReferenceRowOf(p, q);
      assert q == r;
    }
  }

  /** A chunk as a search returns it: its lines counted from 1, by the newlines before its start and end. */
  ghost predicate HasChunk(base: Base, p: Path, b: Bytes, s: Span)
    requires s.start <= s.end <= |b|
  {
    ChunkRow(p, s, 1 + Newlines(b[..s.start]), 1 + Newlines(b[..s.end]), b[s.start..s.end]) in base.chunks
  }

  lemma {:induction false} NewlinesAdd(a: Bytes, b: Bytes)
    ensures Newlines(a + b) == Newlines(a) + Newlines(b)
    decreases |b|
  {
    if b == [] {
      assert a + b == a;
    } else {
      assert (a + b)[..|a + b| - 1] == a + b[..|b| - 1];
      NewlinesAdd(a, b[..|b| - 1]);
    }
  }

  function NewlinesAt(b: Bytes): set<int> {
    set i | 0 <= i < |b| && b[i] == 10
  }

  lemma {:induction false} NewlinesCount(b: Bytes)
    ensures Newlines(b) == |NewlinesAt(b)|
  {
    if b != [] {
      var init := b[..|b| - 1];
      NewlinesCount(init);
      assert NewlinesAt(b) == NewlinesAt(init) + if b[|b| - 1] == 10 then {|b| - 1} else {};
    }
  }

  ghost predicate PathAgrees(env: Env, c: Constants, base: Base, tree: map<Path, Bytes>, p: Path) {
    if p in tree then Present(env, c, base, p, tree[p]) else Absent(base, p)
  }

  /** The tables are the projection of exactly this tree. */
  ghost predicate Represents(env: Env, c: Constants, base: Base, tree: map<Path, Bytes>) {
    forall p :: PathAgrees(env, c, base, tree, p)
  }

  /** Both tables say the same about a path. */
  ghost predicate SameAt(a: Base, b: Base, p: Path) {
    && (p in a.files <==> p in b.files) && (p in a.files ==> a.files[p] == b.files[p])
    && (forall row: ChunkRow :: row.path == p ==> (row in a.chunks <==> row in b.chunks))
    && (forall row: SymbolRow :: row.path == p ==> (row in a.symbols <==> row in b.symbols))
    && (forall row: ReferenceRow :: row.path == p ==> (row in a.references <==> row in b.references))
  }

  lemma SameEverywhere(a: Base, b: Base)
    requires forall p :: SameAt(a, b, p)
    ensures a == b
  {
    assert forall p :: p in a.files <==> p in b.files by {
      forall p ensures p in a.files <==> p in b.files { assert SameAt(a, b, p); }
    }
    forall p | p in a.files ensures a.files[p] == b.files[p] { assert SameAt(a, b, p); }
    assert a.files == b.files;
    forall row: ChunkRow ensures row in a.chunks <==> row in b.chunks { assert SameAt(a, b, row.path); }
    forall row: SymbolRow ensures row in a.symbols <==> row in b.symbols { assert SameAt(a, b, row.path); }
    forall row: ReferenceRow ensures row in a.references <==> row in b.references { assert SameAt(a, b, row.path); }
  }

  /** A tree has only one projection. */
  lemma ProjectionIsUnique(env: Env, c: Constants, a: Base, b: Base, tree: map<Path, Bytes>)
    requires Represents(env, c, a, tree) && Represents(env, c, b, tree)
    ensures a == b
  {
    forall p ensures SameAt(a, b, p) {
      assert PathAgrees(env, c, a, tree, p) && PathAgrees(env, c, b, tree, p);
    }
    SameEverywhere(a, b);
  }

  // ----- The statements of one run

  /** `DELETE ... WHERE path = ?` on the tables that hold a file's content. */
  function Clear(base: Base, p: Path): Base {
    Base(base.files,
         (set row | row in base.chunks && row.path != p),
         (set row | row in base.symbols && row.path != p),
         (set row | row in base.references && row.path != p))
  }

  /** Files that are gone. */
  function Remove(base: Base, gone: set<Path>): Base {
    Base(base.files - gone,
         (set row | row in base.chunks && row.path !in gone),
         (set row | row in base.symbols && row.path !in gone),
         (set row | row in base.references && row.path !in gone))
  }

  /** A file that is new or changed. */
  ghost function Replace(env: Env, c: Constants, base: Base, f: File): Base
    requires Bounded(f.bytes)
  {
    var cleared := Clear(base, f.path);
    var parsed := env.parse(c, f.path, f.bytes);
    Base(base.files[f.path := FileRowOf(env, c, f.path, f.bytes).(hash := f.hash)],
         cleared.chunks + ChunkRows(f.path, f.bytes),
         cleared.symbols + SymbolRows(f.path, parsed),
         cleared.references + ReferenceRows(f.path, parsed))
  }

  lemma RemoveIsLocal(base: Base, gone: set<Path>, p: Path)
    ensures p in gone ==> Absent(Remove(base, gone), p)
    ensures p !in gone ==> SameAt(base, Remove(base, gone), p)
  {
  }

  lemma ReplaceIsLocal(env: Env, c: Constants, base: Base, f: File)
    requires Bounded(f.bytes) && Insertable(env.parse(c, f.path, f.bytes)) && f.hash == env.hash(f.bytes)
    ensures Present(env, c, Replace(env, c, base, f), f.path, f.bytes)
    ensures forall q :: q != f.path ==> SameAt(base, Replace(env, c, base, f), q)
  {
  }

  ghost predicate GoodFile(env: Env, f: File) {
    f.hash == env.hash(f.bytes) && Bounded(f.bytes)
  }

  /** `None` when some file's inserts violate a constraint. */
  ghost function ReplaceAll(env: Env, c: Constants, base: Base, files: seq<File>): Option<Base>
    requires forall f :: f in files ==> GoodFile(env, f)
  {
    if files == [] then Some(base)
    else
      var last := files[|files| - 1];
      assert GoodFile(env, last);
      match ReplaceAll(env, c, base, files[..|files| - 1])
      case None => None
      case Some(before) =>
        if Insertable(env.parse(c, last.path, last.bytes)) then Some(Replace(env, c, before, last)) else None
  }

  /** The inserts go through exactly when those of each file do. */
  lemma {:induction false} ReplaceAllSucceeds(env: Env, c: Constants, base: Base, files: seq<File>)
    requires forall f :: f in files ==> GoodFile(env, f)
    ensures ReplaceAll(env, c, base, files).Some? <==> forall f :: f in files ==> Insertable(env.parse(c, f.path, f.bytes))
    decreases |files|
  {
    if files != [] {
      var init, last := files[..|files| - 1], files[|files| - 1];
      assert files == init + [last];
      ReplaceAllSucceeds(env, c, base, init);
    }
  }

  lemma PresentIsLocal(env: Env, c: Constants, a: Base, b: Base, p: Path, bytes: Bytes)
    requires Present(env, c, a, p, bytes) && SameAt(a, b, p)
    ensures Present(env, c, b, p, bytes)
  {
  }

  lemma {:induction false} ReplaceAllIsLocal(env: Env, c: Constants, base: Base, files: seq<File>, p: Path)
    requires DistinctPaths(files) && forall f :: f in files ==> GoodFile(env, f)
    requires ReplaceAll(env, c, base, files).Some?
    ensures var after := ReplaceAll(env, c, base, files).value;
            && (forall f :: f in files && f.path == p ==> Present(env, c, after, p, f.bytes))
            && ((forall f :: f in files ==> f.path != p) ==> SameAt(base, after, p))
    decreases |files|
  {
    if files != [] {
      var init, last := files[..|files| - 1], files[|files| - 1];
      var before := ReplaceAll(env, c, base, init).value;
      ReplaceAllIsLocal(env, c, base, init, p);
      assert GoodFile(env, last);
      ReplaceIsLocal(env, c, before, last);
      forall f | f in files && f.path == p
        ensures Present(env, c, Replace(env, c, before, last), p, f.bytes)
      {
        if f != last {
          assert f in init;
          var i :| 0 <= i < |init| && init[i] == f;
          assert files[i] == f;
          PresentIsLocal(env, c, before, Replace(env, c, before, last), p, f.bytes);
        }
      }
    }
  }

  // ----- One run as a whole

  predicate Unchanged(base: Base, f: File) {
    f.path in base.files && base.files[f.path].hash == f.hash
  }

  function Changed(base: Base, files: seq<File>): seq<File> {
    if files == [] then []
    else
      var last := files[|files| - 1];
      Changed(base, files[..|files| - 1]) + if Unchanged(base, last) then [] else [last]
  }

  function Paths(files: seq<File>): set<Path> {
    set f | f in files :: f.path
  }

  function Gone(base: Base, files: seq<File>): set<Path> {
    base.files.Keys - Paths(files)
  }

  predicate Compatible(c: Constants, meta: Meta) {
    && meta.schema == Some(c.schema)
    && (meta.snapshot.None? || (meta.policy == Some(c.policy) && meta.grammar == Some(c.grammar)))
  }

  function Stamp(c: Constants, meta: Meta): Meta {
    meta.(schema := Some(c.schema), policy := Some(c.policy), grammar := Some(c.grammar))
  }

  /** `open_database`: an incompatible projection is dropped, never read. */
  function OpenResult(c: Constants, db: Db): Db {
    if Compatible(c, db.meta) then db.(meta := Stamp(c, db.meta)) else EMPTY_DB.(meta := Stamp(c, EMPTY_DB.meta))
  }

  predicate OverChangeBudget(base: Base, files: seq<File>, limits: Limits) {
    base.files != map[] && TotalBytes(Changed(base, files)) > limits.maxChangedBytes
  }

  ghost function ApplyFiles(env: Env, c: Constants, base: Base, files: seq<File>): Option<Base>
    requires forall f :: f in files ==> GoodFile(env, f)
  {
    ChangedAreSome(base, files);
    ReplaceAll(env, c, Remove(base, Gone(base, files)), Changed(base, files))
  }

  lemma {:induction false} ChangedAreSome(base: Base, files: seq<File>)
    ensures forall f :: f in Changed(base, files) <==> f in files && (f.path !in base.files || base.files[f.path].hash != f.hash)
    ensures DistinctPaths(files) ==> DistinctPaths(Changed(base, files))
    decreases |files|
  {
    if files != [] {
      var init, last := files[..|files| - 1], files[|files| - 1];
      ChangedAreSome(base, init);
      assert files == init + [last];
      if DistinctPaths(files) {
        LastIsDistinct(files);
      }
    }
  }

  /** What `index` leaves in the database, and whether it succeeds. */
  ghost function IndexResult(env: Env, c: Constants, input: Input, db: Db): (Db, bool) {
    match Select(env.hash, input)
    case None => (db, false)
    case Some(scan) =>
      var ready := OpenResult(c, db);
      SelectedAreGood(env, input);
      if OverChangeBudget(ready.base, scan.files, input.limits) then (ready, false)
      else match ApplyFiles(env, c, ready.base, scan.files)
        case None => (ready, false)
        case Some(base) =>
          (Db(base, Rebuild(base.symbols, base.references), Stamp(c, ready.meta).(snapshot := Some(input.snapshot))), true)
  }

  lemma {:induction false} ScannedAreGood(env: Env, input: Input, n: nat)
    requires n <= |input.candidates| && ScanUpTo(env.hash, input, n).Some?
    ensures forall f :: f in ScanUpTo(env.hash, input, n).value.files ==> GoodFile(env, f)
  {
    if n > 0 {
      ScannedAreGood(env, input, n - 1);
      var p := input.candidates[n - 1];
      if Judge(input, p) == Selected {
        ValidIsBounded(input.tree[p]);
      }
    }
  }

  lemma SelectedAreGood(env: Env, input: Input)
    requires Select(env.hash, input).Some?
    ensures forall f :: f in Select(env.hash, input).value.files ==> GoodFile(env, f)
  {
    ScannedAreGood(env, input, |input.candidates|);
  }

  // ----- Incremental equals from scratch, one run

  function TreeOf(files: seq<File>): map<Path, Bytes> {
    if files == [] then map[]
    else TreeOf(files[..|files| - 1])[files[|files| - 1].path := files[|files| - 1].bytes]
  }

  lemma LastIsDistinct(files: seq<File>)
    requires DistinctPaths(files) && files != []
    ensures DistinctPaths(files[..|files| - 1])
    ensures forall f :: f in files[..|files| - 1] ==> f.path != files[|files| - 1].path
  {
  }

  lemma {:induction false} TreeAt(files: seq<File>, f: File)
    requires DistinctPaths(files) && f in files
    ensures f.path in TreeOf(files) && TreeOf(files)[f.path] == f.bytes
    decreases |files|
  {
    var init, last := files[..|files| - 1], files[|files| - 1];
    LastIsDistinct(files);
    if f != last {
      assert files == init + [last];
      TreeAt(init, f);
    }
  }

  lemma {:induction false} FileOf(files: seq<File>, p: Path) returns (f: File)
    requires p in TreeOf(files)
    ensures f in files && f.path == p
    decreases |files|
  {
    f := files[|files| - 1];
    if f.path != p {
      f := FileOf(files[..|files| - 1], p);
    }
  }

  /** A file whose digest has not changed keeps the rows it had, and they are still right. */
  lemma UnchangedStaysPresent(env: Env, c: Constants, base: Base, old_: map<Path, Bytes>, f: File)
    requires Sound(env) && GoodFile(env, f) && PathAgrees(env, c, base, old_, f.path) && Unchanged(base, f)
    ensures Present(env, c, base, f.path, f.bytes)
  {
  }

  /** Whatever tree the tables were the projection of, a run makes them the projection of the new one. */
  lemma ApplyRepresents(env: Env, c: Constants, base: Base, old_: map<Path, Bytes>, files: seq<File>)
    requires Sound(env) && Represents(env, c, base, old_)
    requires DistinctPaths(files) && forall f :: f in files ==> GoodFile(env, f)
    requires ApplyFiles(env, c, base, files).Some?
    ensures Represents(env, c, ApplyFiles(env, c, base, files).value, TreeOf(files))
  {
    var gone, changed := Gone(base, files), Changed(base, files);
    var removed := Remove(base, gone);
    var after := ApplyFiles(env, c, base, files).value;
    ChangedAreSome(base, files);
    forall p ensures PathAgrees(env, c, after, TreeOf(files), p) {
      assert PathAgrees(env, c, base, old_, p);
      RemoveIsLocal(base, gone, p);
      ReplaceAllIsLocal(env, c, removed, changed, p);
      if p in TreeOf(files) {
        var f := FileOf(files, p);
        TreeAt(files, f);
        if Unchanged(base, f) {
          OnlyOneFile(files, f);
          UnchangedStaysPresent(env, c, base, old_, f);
          PresentIsLocal(env, c, base, removed, p, f.bytes);
          PresentIsLocal(env, c, removed, after, p, f.bytes);
        }
      } else {
        NotListed(files, p);
        AbsentAfter(base, removed, after, gone, p);
      }
    }
  }

  lemma NotListed(files: seq<File>, p: Path)
    requires DistinctPaths(files) && p !in TreeOf(files)
    ensures forall f :: f in files ==> f.path != p
  {
  }

  lemma OnlyOneFile(files: seq<File>, f: File)
    requires DistinctPaths(files) && f in files
    ensures forall g :: g in files && g.path == f.path ==> g == f
  {
  }

  lemma AbsentAfter(base: Base, removed: Base, after: Base, gone: set<Path>, p: Path)
    requires removed == Remove(base, gone) && SameAt(removed, after, p)
    requires p in gone || Absent(base, p)
    ensures Absent(after, p)
  {
  }
}
