/** Every history of index runs and opens, by binaries of any version, over any sequence of working
    trees (src/project_index.rs). */
module IndexHistory {
  import opened Utf8
  import opened Wrappers
  import opened Sequences
  import opened Projection
  import opened IndexSelection
  import opened IndexRun

  datatype Event =
    | Open(c: Constants)                  // status, search, map: anything that only opens the database
    | Index(c: Constants, input: Input)

  /** The tree last indexed, and by which binary, since the tables were last dropped. */
  datatype Indexed = Indexed(c: Constants, tree: map<Path, Bytes>)

  datatype World = World(db: Db, indexed: Option<Indexed>)

  const BEGINNING := World(EMPTY_DB, None)

  function Opened(c: Constants, w: World): World {
    World(OpenResult(c, w.db), if Compatible(c, w.db.meta) then w.indexed else None)
  }

  ghost function Step(env: Env, w: World, e: Event): World {
    match e
    case Open(c) => Opened(c, w)
    case Index(c, input) =>
      var (db, ok) := IndexResult(env, c, input, w.db);
      if ok then World(db, Some(Indexed(c, TreeOf(Select(env.hash, input).value.files))))
      else if Select(env.hash, input).None? then w
      else Opened(c, w)
  }

  ghost function Run(env: Env, h: seq<Event>): World {
    if h == [] then BEGINNING else Step(env, Run(env, h[..|h| - 1]), h[|h| - 1])
  }

  /** The listed paths come sorted and deduplicated. */
  predicate WellFormed(e: Event) {
    e.Index? ==> NoDups(e.input.candidates)
  }

  /** The tables are exactly the projection of the tree last indexed, under the constants in the metadata. */
  ghost predicate Inv(env: Env, w: World) {
    match w.indexed
    case None => w.db.meta.snapshot.None? && w.db.base == EMPTY_BASE && w.db.edges == {}
    case Some(i) =>
      && w.db.meta.snapshot.Some?
      && w.db.meta == Stamp(i.c, w.db.meta)
      && Represents(env, i.c, w.db.base, i.tree)
      && w.db.edges == Rebuild(w.db.base.symbols, w.db.base.references)
  }

  lemma OpenKeepsInv(env: Env, c: Constants, w: World)
    requires Inv(env, w)
    ensures Inv(env, Opened(c, w))
    ensures Opened(c, w).indexed.Some? ==> Opened(c, w).indexed.value.c == c
  {
  }

  lemma EmptyRepresents(env: Env, c: Constants)
    ensures Represents(env, c, EMPTY_BASE, map[])
  {
  }

  /** An open database holds the projection, under the opener's constants, of some tree: the one
      last indexed, or the empty one. */
  lemma OpenRepresents(env: Env, c: Constants, w: World) returns (tree: map<Path, Bytes>)
    requires Inv(env, w)
    ensures Represents(env, c, OpenResult(c, w.db).base, tree)
    ensures tree == map[] || (w.indexed.Some? && w.indexed.value.c == c && tree == w.indexed.value.tree)
  {
    OpenKeepsInv(env, c, w);
    EmptyRepresents(env, c);
    tree := if Opened(c, w).indexed.Some? then Opened(c, w).indexed.value.tree else map[];
  }

  lemma SelectedFiles(env: Env, input: Input)
    requires NoDups(input.candidates) && Select(env.hash, input).Some?
    ensures DistinctPaths(Select(env.hash, input).value.files)
    ensures forall f :: f in Select(env.hash, input).value.files ==> GoodFile(env, f)
  {
    SelectionIsExact(env.hash, input, |input.candidates|);
    SelectedAreGood(env, input);
  }

  lemma IndexKeepsInv(env: Env, c: Constants, input: Input, w: World)
    requires Sound(env) && Inv(env, w) && NoDups(input.candidates)
    ensures Inv(env, Step(env, w, Index(c, input)))
  {
    OpenKeepsInv(env, c, w);
    if IndexResult(env, c, input, w.db).1 {
      SelectedFiles(env, input);
      var tree := OpenRepresents(env, c, w);
      ApplyRepresents(env, c, OpenResult(c, w.db).base, tree, Select(env.hash, input).value.files);
    }
  }

  /** After every history the tables are the projection of the last tree indexed. */
  lemma {:induction false} TablesAreProjections(env: Env, h: seq<Event>)
    requires Sound(env) && forall e :: e in h ==> WellFormed(e)
    ensures Inv(env, Run(env, h))
  {
    if h != [] {
      var last := h[|h| - 1];
      TablesAreProjections(env, h[..|h| - 1]);
      assert WellFormed(last);
      match last
      case Open(c) => OpenKeepsInv(env, c, Run(env, h[..|h| - 1]));
      case Index(c, input) => IndexKeepsInv(env, c, input, Run(env, h[..|h| - 1]));
    }
  }

  // ----- Incremental equals from scratch, every history

  /** The inserts of a run go through exactly when those of every selected file would: files that
      were skipped as unchanged are known to be insertable. */
  lemma ApplySucceeds(env: Env, c: Constants, base: Base, old_: map<Path, Bytes>, files: seq<File>)
    requires Sound(env) && Represents(env, c, base, old_)
    requires forall f :: f in files ==> GoodFile(env, f)
    ensures ApplyFiles(env, c, base, files).Some? <==> forall f :: f in files ==> Insertable(env.parse(c, f.path, f.bytes))
  {
    ChangedAreSome(base, files);
    ReplaceAllSucceeds(env, c, Remove(base, Gone(base, files)), Changed(base, files));
    forall f | f in files && Unchanged(base, f) ensures Insertable(env.parse(c, f.path, f.bytes)) {
      assert PathAgrees(env, c, base, old_, f.path);
      UnchangedStaysPresent(env, c, base, old_, f);
    }
  }

  /** Applying the same files gives the same tables from any two starting points. */
  lemma ApplyIsConfluent(env: Env, c: Constants, a: Base, ta: map<Path, Bytes>, b: Base, tb: map<Path, Bytes>, files: seq<File>)
    requires Sound(env) && Represents(env, c, a, ta) && Represents(env, c, b, tb)
    requires DistinctPaths(files) && forall f :: f in files ==> GoodFile(env, f)
    ensures ApplyFiles(env, c, a, files) == ApplyFiles(env, c, b, files)
  {
    ApplySucceeds(env, c, a, ta, files);
    ApplySucceeds(env, c, b, tb, files);
    if ApplyFiles(env, c, a, files).Some? {
      ApplyRepresents(env, c, a, ta, files);
      ApplyRepresents(env, c, b, tb, files);
      ProjectionIsUnique(env, c, ApplyFiles(env, c, a, files).value, ApplyFiles(env, c, b, files).value, TreeOf(files));
    }
  }

  /** The tables are not empty, and the files that are new or have another digest exceed the limit. */
  ghost predicate ChangesTooMuch(base: Base, files: seq<File>, limits: Limits) {
    base.files != map[] && TotalBytes(Changed(base, files)) > limits.maxChangedBytes
  }

  /** After any history, an incremental run that succeeds leaves exactly the database of a clean
      rebuild of the same tree, edges included; and it is refused exactly when the clean rebuild
      is, or when the limit on changed bytes (which a clean rebuild does not have) is exceeded. */
  lemma IncrementalEqualsClean(env: Env, h: seq<Event>, c: Constants, input: Input)
    requires Sound(env) && (forall e :: e in h ==> WellFormed(e)) && NoDups(input.candidates)
    ensures var run, clean := IndexResult(env, c, input, Run(env, h).db), IndexResult(env, c, input, EMPTY_DB);
            && (run.1 ==> clean == run)
            && (run.1 <==> clean.1 && !ChangesTooMuch(OpenResult(c, Run(env, h).db).base, Select(env.hash, input).value.files, input.limits))
  {
    TablesAreProjections(env, h);
    if Select(env.hash, input).Some? {
      SelectedFiles(env, input);
      var tree := OpenRepresents(env, c, Run(env, h));
      EmptyRepresents(env, c);
      ApplyIsConfluent(env, c, OpenResult(c, Run(env, h).db).base, tree, EMPTY_BASE, map[], Select(env.hash, input).value.files);
    }
  }

  /** A run refused by a budget leaves the previous projection exactly as it was, rows and edges. */
  lemma RefusedRunKeepsProjection(env: Env, c: Constants, input: Input, db: Db)
    requires match Select(env.hash, input)
             case None => true
             case Some(scan) => ChangesTooMuch(OpenResult(c, db).base, scan.files, input.limits)
    ensures var (after, ok) := IndexResult(env, c, input, db);
            !ok && after.base == db.base && after.edges == db.edges && after.meta.snapshot == db.meta.snapshot
  {
  }

  /** Whoever opens the database, every row they can see was produced under their own constants:
      the tables are their projection of a tree that was indexed, or empty. */
  lemma VisibleRowsAreTheOpeners(env: Env, h: seq<Event>, c: Constants)
    requires Sound(env) && forall e :: e in h ==> WellFormed(e)
    ensures var w := Opened(c, Run(env, h));
            match w.indexed
            case None => w.db.base == EMPTY_BASE && w.db.edges == {}
            case Some(i) => i.c == c && Represents(env, c, w.db.base, i.tree)
  {
    TablesAreProjections(env, h);
    OpenKeepsInv(env, c, Run(env, h));
  }

  /** A run that succeeds has indexed exactly the eligible candidates, each with its present digest, and
      stamped the snapshot. */
  lemma RunIndexesTree(env: Env, h: seq<Event>, c: Constants, input: Input)
    requires Sound(env) && (forall e :: e in h ==> WellFormed(e)) && NoDups(input.candidates)
    requires IndexResult(env, c, input, Run(env, h).db).1
    ensures var db := IndexResult(env, c, input, Run(env, h).db).0;
            && db.meta.snapshot == Some(input.snapshot)
            && (forall p :: p in db.base.files <==> p in input.candidates && Eligible(input, p))
            && (forall p :: p in db.base.files ==> Present(env, c, db.base, p, input.tree[p]))
            && db.edges == Rebuild(db.base.symbols, db.base.references)
  {
    TablesAreProjections(env, h);
    IndexKeepsInv(env, c, input, Run(env, h));
    var w := Step(env, Run(env, h), Index(c, input));
    var files := Select(env.hash, input).value.files;
    SelectionIsExact(env.hash, input, |input.candidates|);
    assert input.candidates[..|input.candidates|] == input.candidates;
    forall p ensures p in w.db.base.files <==> p in input.candidates && Eligible(input, p)
             ensures p in w.db.base.files ==> Present(env, c, w.db.base, p, input.tree[p])
    {
      assert PathAgrees(env, c, w.db.base, TreeOf(files), p);
      if p in TreeOf(files) {
        var f := FileOf(files, p);
        TreeAt(files, f);
        assert Chosen(env.hash, input, |input.candidates|, f);
      } else if p in input.candidates && Eligible(input, p) {
        var f := File(p, env.hash(input.tree[p]), input.tree[p]);
        assert Chosen(env.hash, input, |input.candidates|, f);
        TreeAt(files, f);
      }
    }
  }

  // ----- What an open keeps

  /** The projection is this binary's own. */
  ghost predicate Own(c: Constants, w: World) {
    && w.db.meta.schema == Some(c.schema) && w.db.meta.policy == Some(c.policy) && w.db.meta.grammar == Some(c.grammar)
    && w.db.meta.snapshot.Some?
  }

  /** Opening by the same binary changes nothing. */
  lemma OwnIsKept(c: Constants, w: World)
    requires Own(c, w)
    ensures Opened(c, w) == w
  {
  }

  /** What a run that succeeds has left is what its own binary sees when it opens the database next,
      and what a refused run of that binary leaves. */
  lemma IndexedIsOwn(env: Env, w: World, c: Constants, input: Input)
    ensures IndexResult(env, c, input, w.db).1 ==> Own(c, Step(env, w, Index(c, input)))
    ensures Own(c, w) && !IndexResult(env, c, input, w.db).1 ==> Step(env, w, Index(c, input)) == w
  {
    if Own(c, w) {
      OwnIsKept(c, w);
    }
  }

  predicate By(c: Constants, e: Event) {
    e.c == c
  }

  /** Once a run has succeeded the projection is there, for good, as long as only that binary opens
      or indexes: after any number of opens and runs, refused or not, it sees the rows, edges and
      snapshot of its last run that succeeded. */
  lemma {:induction false} IndexedStaysVisible(env: Env, h: seq<Event>, c: Constants, input: Input, later: seq<Event>)
    requires IndexResult(env, c, input, Run(env, h).db).1 && forall e :: e in later ==> By(c, e)
    ensures var w := Run(env, h + [Index(c, input)] + later);
            Own(c, w) && Opened(c, w) == w
    ensures (forall e :: e in later ==> e.Open?) ==>
              Run(env, h + [Index(c, input)] + later).db == IndexResult(env, c, input, Run(env, h).db).0
  {
    var first := h + [Index(c, input)];
    if later == [] {
      assert first + later == first && first[..|first| - 1] == h && first[|first| - 1] == Index(c, input);
      IndexedIsOwn(env, Run(env, h), c, input);
    } else {
      var init, last := later[..|later| - 1], later[|later| - 1];
      IndexedStaysVisible(env, h, c, input, init);
      RunMore(env, first + init, last);
      assert first + init + [last] == first + later && By(c, last);
      OwnStep(env, c, Run(env, first + init), last);
    }
    OwnIsKept(c, Run(env, first + later));
  }

  lemma RunMore(env: Env, h: seq<Event>, e: Event)
    ensures Run(env, h + [e]) == Step(env, Run(env, h), e)
  {
    assert (h + [e])[..|h + [e]| - 1] == h;
  }

  lemma OwnStep(env: Env, c: Constants, w: World, e: Event)
    requires Own(c, w) && By(c, e)
    ensures Own(c, Step(env, w, e)) && (e.Open? ==> Step(env, w, e) == w)
  {
    if e.Index? {
      IndexedIsOwn(env, w, c, e.input);
    } else {
      OwnIsKept(c, w);
    }
  }
}
