/** The index database and its `index` operation, statement by statement (src/project_index.rs). */
module IndexDatabase {
  import opened Utf8
  import opened Wrappers
  import opened ChunkSpans
  import opened Projection
  import opened IndexSelection
  import opened IndexRun

  ghost predicate OwnSymbols(env: Env, symbols: set<SymbolRow>) {
    PrimaryKeys(symbols) && forall row :: row in symbols ==> env.owner(row.symbol.key) == row.path
  }

  ghost predicate OwnReferences(env: Env, references: set<ReferenceRow>) {
    forall row :: row in references ==> env.owner(row.source) == row.path
  }

  class ProjectDatabase {
    var files: map<Path, FileRow>
    var chunks: set<ChunkRow>
    var symbols: set<SymbolRow>
    var references: set<ReferenceRow>
    var edges: set<EdgeRow>
    var meta: Meta

    ghost function Tables(): Base
      reads this
    {
      Base(files, chunks, symbols, references)
    }

    ghost function Contents(): Db
      reads this
    {
      Db(Tables(), edges, meta)
    }

    /** The symbol table's primary key holds, and keys belong to the files they are stored for. */
    ghost predicate Keyed(env: Env)
      reads this
    {
      OwnSymbols(env, symbols) && OwnReferences(env, references)
    }

    constructor ()
      ensures Contents() == EMPTY_DB
      ensures forall env :: Keyed(env)
    {
      files, chunks, symbols, references, edges := map[], {}, {}, {}, {};
      meta := EMPTY_DB.meta;
    }

    /** `open_database`. */
    method Open(c: Constants)
      modifies this
      ensures Contents() == OpenResult(c, old(Contents()))
      // A projection of the same schema is kept, unless one that was finished is of another policy or
      // grammar; then nothing of it is.
      ensures if old(meta.schema) == Some(c.schema)
                 && (old(meta.snapshot) == None || (old(meta.policy) == Some(c.policy) && old(meta.grammar) == Some(c.grammar)))
              then Tables() == old(Tables()) && edges == old(edges) && meta.snapshot == old(meta.snapshot)
              else Tables() == Base(map[], {}, {}, {}) && edges == {} && meta.snapshot == None
      ensures meta.schema == Some(c.schema) && meta.policy == Some(c.policy) && meta.grammar == Some(c.grammar)
      ensures forall env :: old(Keyed(env)) ==> Keyed(env)
    {
      if !Compatible(c, meta) {
        files, chunks, symbols, references, edges := map[], {}, {}, {}, {};
        meta := EMPTY_DB.meta;
      }
      meta := Stamp(c, meta);
    }

    method InsertChunks(p: Path, b: Bytes)
      requires Bounded(b)
      modifies this`chunks
      ensures chunks == old(chunks) + ChunkRows(p, b)
    {
      var spans := Chunk(b);
      SpansFit(b);
      ghost var before := chunks;
      for i := 0 to |spans|
        invariant chunks == before + set s | s in spans[..i] && s.start <= s.end <= |b| :: ChunkRowOf(p, b, s)
      {
        assert spans[i] in spans;
        assert spans[..i + 1] == spans[..i] + [spans[i]];
        chunks := chunks + {ChunkRowOf(p, b, spans[i])};
      }
      assert spans[..|spans|] == spans;
    }

    /** Fails on the first key that is already there. */
    method InsertSymbols(env: Env, p: Path, list: seq<ParsedSymbol>) returns (ok: bool)
      requires OwnSymbols(env, symbols)
      requires forall row :: row in symbols ==> row.path != p
      requires forall s :: s in list ==> env.owner(s.key) == p
      modifies this`symbols
      ensures ok <==> forall i, j :: 0 <= i < j < |list| ==> list[i].key != list[j].key
      ensures ok ==> symbols == old(symbols) + (set s | s in list :: SymbolRow(p, s)) && OwnSymbols(env, symbols)
    {
      ghost var before := symbols;
      for n := 0 to |list|
        invariant Inserted(p, list, n, before, symbols) && OwnSymbols(env, symbols)
      {
        assert list[n] in list;
        if exists row :: row in symbols && row.symbol.key == list[n].key {
          KeyTaken(env, p, list, n, before, symbols);
          return false;
        }
        InsertedMore(env, p, list, n, before, symbols);
        symbols := symbols + {SymbolRow(p, list[n])};
      }
      assert list[..|list|] == list;
      return true;
    }

    /** Fails on the first reference without a source. */
    method InsertReferences(env: Env, p: Path, list: seq<ParsedReference>) returns (ok: bool)
      requires OwnReferences(env, references)
      requires forall r :: r in list && r.source.Some? ==> env.owner(r.source.value) == p
      modifies this`references
      ensures ok <==> forall r :: r in list ==> r.source.Some?
      ensures ok ==> references == old(references) + (set r | r in list && r.source.Some? :: ReferenceRowOf(p, r))
                     && OwnReferences(env, references)
    {
      ghost var before := references;
      for n := 0 to |list|
        invariant references == before + set r | r in list[..n] && r.source.Some? :: ReferenceRowOf(p, r)
        invariant forall i :: 0 <= i < n ==> list[i].source.Some?
        invariant OwnReferences(env, references)
      {
        assert list[n] in list;
        assert list[..n + 1] == list[..n] + [list[n]];
        if list[n].source.None? {
          return false;
        }
        references := references + {ReferenceRowOf(p, list[n])};
      }
      assert list[..|list|] == list;
      return true;
    }

    /** The statements for one new or changed file. */
    method ReplaceFile(env: Env, c: Constants, f: File) returns (ok: bool)
      requires Sound(env) && GoodFile(env, f) && Keyed(env)
      modifies this`files, this`chunks, this`symbols, this`references
      ensures ok <==> Insertable(env.parse(c, f.path, f.bytes))
      ensures ok ==> Tables() == Replace(env, c, old(Tables()), f) && Keyed(env)
    {
      var parsed := env.parse(c, f.path, f.bytes);
      assert Owned(env, f.path, parsed);
      chunks := set row | row in chunks && row.path != f.path;
      references := set row | row in references && row.path != f.path;
      symbols := set row | row in symbols && row.path != f.path;
      files := files[f.path := FileRow(f.hash, |f.bytes|, parsed.language, parsed.state)];
      InsertChunks(f.path, f.bytes);
      ok := InsertSymbols(env, f.path, parsed.symbols);
      if ok {
        ok := InsertReferences(env, f.path, parsed.references);
      }
    }

    method DeletePath(env: Env, p: Path)
      requires Keyed(env)
      modifies this`files, this`chunks, this`symbols, this`references
      ensures Tables() == Remove(old(Tables()), {p}) && Keyed(env)
    {
      chunks := set row | row in chunks && row.path != p;
      references := set row | row in references && row.path != p;
      symbols := set row | row in symbols && row.path != p;
      files := files - {p};
    }

    method DeleteGone(env: Env, gone: set<Path>)
      requires Keyed(env)
      modifies this`files, this`chunks, this`symbols, this`references
      ensures Tables() == Remove(old(Tables()), gone) && Keyed(env)
    {
      ghost var before := Tables();
      var todo := gone;
      ghost var done := {};
      RemoveNothing(before);
      while todo != {}
        invariant done + todo == gone
        invariant Tables() == Remove(before, done) && Keyed(env)
        decreases |todo|
      {
        var p :| p in todo;
        DeletePath(env, p);
        RemoveMore(before, done, p);
        todo := todo - {p};
        done := done + {p};
      }
      assert done == gone;
    }

    /** The inserts of all new and changed files. */
    method ReplaceChanged(env: Env, c: Constants, changed: seq<File>) returns (ok: bool)
      requires Sound(env) && Keyed(env) && forall f :: f in changed ==> GoodFile(env, f)
      modifies this`files, this`chunks, this`symbols, this`references
      ensures ok <==> ReplaceAll(env, c, old(Tables()), changed).Some?
      ensures ok ==> ReplaceAll(env, c, old(Tables()), changed) == Some(Tables()) && Keyed(env)
    {
      ghost var before := Tables();
      for i := 0 to |changed|
        invariant Keyed(env)
        invariant ReplaceAll(env, c, before, changed[..i]) == Some(Tables())
      {
        assert changed[i] in changed;
        assert changed[..i + 1][..i] == changed[..i];
        ok := ReplaceFile(env, c, changed[i]);
        if !ok {
          ReplaceAllSucceeds(env, c, before, changed);
          return false;
        }
      }
      assert changed[..|changed|] == changed;
      return true;
    }

    /** The transaction of a run that is within its budgets: all of it, or none. */
    method Transact(env: Env, c: Constants, list: seq<File>, snapshot: string) returns (ok: bool)
      requires Sound(env) && Keyed(env) && forall f :: f in list ==> GoodFile(env, f)
      modifies this
      ensures Keyed(env)
      ensures match ApplyFiles(env, c, old(Tables()), list)
              case None => !ok && Contents() == old(Contents())
              case Some(base) =>
                ok && Contents() == Db(base, Rebuild(base.symbols, base.references), old(meta).(snapshot := Some(snapshot)))
    {
      var savedFiles, savedChunks, savedSymbols, savedReferences := files, chunks, symbols, references;
      var changed := Changed(Base(files, chunks, symbols, references), list);
      ChangedAreSome(Tables(), list);
      DeleteGone(env, files.Keys - Paths(list));
      ok := ReplaceChanged(env, c, changed);
      if !ok {
        files, chunks, symbols, references := savedFiles, savedChunks, savedSymbols, savedReferences;
        return;
      }
      edges := RebuildEdges(symbols, references);
      meta := meta.(snapshot := Some(snapshot));
    }

    /** `index`, from the selection of files to the commit. */
    method Index(env: Env, c: Constants, input: Input) returns (ok: bool)
      requires Sound(env) && Keyed(env)
      modifies this
      ensures Keyed(env)
      ensures (Contents(), ok) == IndexResult(env, c, input, old(Contents()))
    {
      var selected := SelectFiles(env.hash, input);
      if selected.None? {
        return false;
      }
      SelectedAreGood(env, input);
      Open(c);
      var changed := Changed(Base(files, chunks, symbols, references), selected.value.files);
      if files != map[] && TotalBytes(changed) > input.limits.maxChangedBytes {
        return false;
      }
      ok := Transact(env, c, selected.value.files, input.snapshot);
    }
  }

  lemma RemoveNothing(base: Base)
    ensures Remove(base, {}) == base
  {
  }

  lemma RemoveMore(base: Base, done: set<Path>, p: Path)
    ensures Remove(Remove(base, done), {p}) == Remove(base, done + {p})
  {
  }

  /** The first `n` symbols are in, and their keys are distinct. */
  ghost predicate Inserted(p: Path, list: seq<ParsedSymbol>, n: nat, before: set<SymbolRow>, now: set<SymbolRow>)
    requires n <= |list|
  {
    && now == before + (set s | s in list[..n] :: SymbolRow(p, s))
    && forall i, j :: 0 <= i < j < n ==> list[i].key != list[j].key
  }

  lemma InsertedMore(env: Env, p: Path, list: seq<ParsedSymbol>, n: nat, before: set<SymbolRow>, now: set<SymbolRow>)
    requires n < |list| && Inserted(p, list, n, before, now) && OwnSymbols(env, now) && env.owner(list[n].key) == p
    requires forall row :: row in now ==> row.symbol.key != list[n].key
    ensures Inserted(p, list, n + 1, before, now + {SymbolRow(p, list[n])})
    ensures OwnSymbols(env, now + {SymbolRow(p, list[n])})
  {
    assert list[..n + 1] == list[..n] + [list[n]];
    forall i | 0 <= i < n ensures list[i].key != list[n].key {
      assert list[..n][i] == list[i] && SymbolRow(p, list[i]) in now;
    }
  }

  /** A taken key was taken by an earlier symbol of the same file. */
  lemma KeyTaken(env: Env, p: Path, list: seq<ParsedSymbol>, n: nat, before: set<SymbolRow>, now: set<SymbolRow>)
    requires n < |list| && (forall s :: s in list ==> env.owner(s.key) == p)
    requires OwnSymbols(env, before) && forall row :: row in before ==> row.path != p
    requires Inserted(p, list, n, before, now)
    requires exists row :: row in now && row.symbol.key == list[n].key
    ensures exists i :: 0 <= i < n && list[i].key == list[n].key
  {
  }
}
