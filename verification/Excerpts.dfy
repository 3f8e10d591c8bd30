/** `search` and `get`: excerpts of the index, and the citations that lead back to them
    (src/project_index.rs). */
module Excerpts {
  import opened Utf8
  import opened Wrappers
  import opened Sequences
  import opened ChunkSpans
  import opened Projection
  import opened IndexSelection
  import opened IndexRun
  import opened IndexHistory
  import Citation

  const MAX_PROJECT_SEARCH_RESULTS := 50
  const MAX_QUERY_BYTES := 8 * 1024
  const MAX_QUERY_WORDS := 32
  const MAX_PROJECT_GET_BYTES := 16 * 1024

  /** The active project as `get` sees it: its regular files, and the path rules. */
  datatype Reader = Reader(project: string, tree: map<Path, Bytes>, safe: Path -> bool, excluded: Path -> bool)

  datatype Hit = Hit(path: Path, span: Span, startLine: nat, endLine: nat, excerpt: Bytes, citation: string)

  datatype SearchError = BadQuery | BadLimit | NotReady | BadWords | NoFileRow

  /** What `search` looks at in a query: whether it is blank, its length in bytes, and its distinct words. */
  datatype Query = Query(blank: bool, length: nat, words: set<string>)

  datatype GetError =
    | BadMaxBytes
    | BadCitation(error: Citation.CitationError)
    | NotAllowedHere
    | NotAFile
    | Stale
    | NotUtf8
    | BadRange

  datatype Excerpt = Excerpt(citation: string, path: Path, hash: string, start: nat, end: nat, content: Bytes, truncated: bool)

  // ----- Search

  predicate Addressable(n: nat) {
    n < Citation.USIZE_LIMIT
  }

  function HitOf(project: string, hash: string, row: ChunkRow): Hit
    requires Addressable(row.span.start) && Addressable(row.span.end)
  {
    Hit(row.path, row.span, row.startLine, row.endLine, row.content,
        Citation.Print(Citation.Citation(project, row.path, hash, row.span.start, row.span.end)))
  }

  /** The rows `search` asks for: one more than it returns. */
  function Taken(matching: seq<ChunkRow>, limit: nat): seq<ChunkRow> {
    if |matching| <= limit + 1 then matching else matching[..limit + 1]
  }

  predicate GoodQuery(q: Query) {
    !q.blank && q.length <= MAX_QUERY_BYTES
  }

  /** What `fts_expression` accepts. */
  predicate GoodWords(words: set<string>) {
    1 <= |words| <= MAX_QUERY_WORDS
  }

  /** `search` on an open database, from the rows that match, in their order of rank. */
  method Search(project: string, db: Db, query: Query, matching: seq<ChunkRow>, limit: nat)
    returns (r: Result<seq<Hit>, SearchError>, truncated: bool)
    requires forall row :: row in matching ==> row in db.base.chunks && Addressable(row.span.start) && Addressable(row.span.end)
    ensures query.blank || query.length > 8192 ==> r == Err(BadQuery)
    ensures r == Err(BadQuery) ==> query.blank || query.length > 8192
    ensures r == Err(BadLimit) ==> limit == 0 || limit > 50
    ensures r == Err(NotReady) ==> db.meta.snapshot.None?
    ensures r == Err(BadWords) ==> query.words == {} || |query.words| > 32
    ensures r == Err(NoFileRow) ==> exists i :: 0 <= i <= limit && i < |matching| && matching[i].path !in db.base.files
    ensures r.Ok? ==> 1 <= limit <= 50 && db.meta.snapshot.Some? && 1 <= |query.words| <= 32
    ensures r.Ok? ==> forall i :: 0 <= i <= limit && i < |matching| ==> matching[i].path in db.base.files
    ensures r.Ok? ==>
              && |r.value| == (if |matching| <= limit then |matching| else limit)
              && (forall i :: 0 <= i < |r.value| ==>
                    matching[i].path in db.base.files
                    && r.value[i] == HitOf(project, db.base.files[matching[i].path].hash, matching[i]))
              && (truncated <==> |matching| > limit)
  {
    truncated := false;
    if !GoodQuery(query) {
      return Err(BadQuery), false;
    }
    if limit == 0 || limit > MAX_PROJECT_SEARCH_RESULTS {
      return Err(BadLimit), false;
    }
    if db.meta.snapshot.None? {
      return Err(NotReady), false;
    }
    if !GoodWords(query.words) {
      return Err(BadWords), false;
    }
    var rows := Taken(matching, limit);
    var hits := [];
    for i := 0 to |rows|
      invariant |hits| == i
      invariant forall k :: 0 <= k < i ==>
                  rows[k].path in db.base.files && hits[k] == HitOf(project, db.base.files[rows[k].path].hash, rows[k])
    {
      assert rows[i] == matching[i] && matching[i] in matching;
      if rows[i].path !in db.base.files {
        return Err(NoFileRow), false;
      }
      hits := hits + [HitOf(project, db.base.files[rows[i].path].hash, rows[i])];
    }
    truncated := |hits| > limit;
    return Ok(if |hits| > limit then hits[..limit] else hits), truncated;
  }

  // ----- Get

  function Min(a: nat, b: nat): nat {
    if a <= b then a else b
  }

  predicate InRange(text: Bytes, x: Citation.Citation) {
    x.start < x.end <= |text| && Boundary(text, x.start) && Boundary(text, x.end)
  }

  /** As many of the cited bytes as fit, in whole characters. */
  function CutTo(text: Bytes, x: Citation.Citation, maxBytes: nat): (end: nat)
    requires InRange(text, x)
    ensures x.start <= end <= x.end && end <= x.start + maxBytes
    ensures x.end <= x.start + maxBytes ==> end == x.end
  {
    Floor(text, Min(x.end, x.start + maxBytes))
  }

  function Return(text: Bytes, x: Citation.Citation, end: nat): Excerpt
    requires x.start <= end <= x.end && end <= |text|
  {
    Excerpt(Citation.Print(x.(end := end)), x.path, x.hash, x.start, end, text[x.start..end], end < x.end)
  }

  /** What `get` answers for a citation that parses. */
  function Answer(hash: Bytes -> string, reader: Reader, x: Citation.Citation, maxBytes: nat): Result<Excerpt, GetError> {
    if x.project != reader.project || !reader.safe(x.path) || reader.excluded(x.path) then Err(NotAllowedHere)
    else if x.path !in reader.tree then Err(NotAFile)
    else
      var text := reader.tree[x.path];
      if hash(text) != x.hash then Err(Stale)
      else if !Valid(text) then Err(NotUtf8)
      else if !InRange(text, x) then Err(BadRange)
      else Ok(Return(text, x, CutTo(text, x, maxBytes)))
  }

  function GetResult(hash: Bytes -> string, reader: Reader, citation: string, maxBytes: nat): Result<Excerpt, GetError> {
    if maxBytes == 0 || maxBytes > MAX_PROJECT_GET_BYTES then Err(BadMaxBytes)
    else match Citation.Parse(citation)
      case Err(e) => Err(BadCitation(e))
      case Ok(x) => Answer(hash, reader, x, maxBytes)
  }

  method FindEnd(text: Bytes, x: Citation.Citation, maxBytes: nat) returns (end: nat)
    requires InRange(text, x)
    ensures end == CutTo(text, x, maxBytes)
  {
    var limit := Min(x.end, x.start + maxBytes);
    end := limit;
    while end > x.start && !Boundary(text, end)
      invariant x.start <= end <= limit
      invariant Floor(text, limit) == Floor(text, end)
    {
      end := end - 1;
    }
  }

  /** `get`. */
  method Get(hash: Bytes -> string, reader: Reader, citation: string, maxBytes: nat) returns (r: Result<Excerpt, GetError>)
    ensures r == GetResult(hash, reader, citation, maxBytes)
  {
    if maxBytes == 0 || maxBytes > MAX_PROJECT_GET_BYTES {
      return Err(BadMaxBytes);
    }
    var parsed := Citation.Parse(citation);
    if parsed.Err? {
      return Err(BadCitation(parsed.error));
    }
    var x := parsed.value;
    if x.project != reader.project || !reader.safe(x.path) || reader.excluded(x.path) {
      return Err(NotAllowedHere);
    }
    if x.path !in reader.tree {
      return Err(NotAFile);
    }
    var text := reader.tree[x.path];
    if hash(text) != x.hash {
      return Err(Stale);
    }
    if !Valid(text) {
      return Err(NotUtf8);
    }
    if !InRange(text, x) {
      return Err(BadRange);
    }
    var end := FindEnd(text, x, maxBytes);
    return Ok(Return(text, x, end));
  }

  /** When `get` succeeds, and what it returns: the cited bytes, or as many of them as fit, in whole
      characters, with a citation of their own. */
  lemma GetIsExact(hash: Bytes -> string, reader: Reader, citation: string, maxBytes: nat)
    ensures var r := GetResult(hash, reader, citation, maxBytes);
            && (r.Ok? <==> 0 < maxBytes <= 16384 && Citation.Parse(citation).Ok?
                           && MayRead(hash, reader, Citation.Parse(citation).value))
            && (r.Ok? ==> ReturnsCited(reader, Citation.Parse(citation).value, maxBytes, r.value))
  {
  }

  predicate MayRead(hash: Bytes -> string, reader: Reader, x: Citation.Citation) {
    && x.project == reader.project && reader.safe(x.path) && !reader.excluded(x.path) && x.path in reader.tree
    && var text := reader.tree[x.path];
    && hash(text) == x.hash && Valid(text) && x.start < x.end <= |text| && Boundary(text, x.start) && Boundary(text, x.end)
  }

  predicate ReturnsCited(reader: Reader, x: Citation.Citation, maxBytes: nat, r: Excerpt)
    requires x.path in reader.tree && x.start < x.end <= |reader.tree[x.path]|
  {
    var text := reader.tree[x.path];
    && r.path == x.path && r.hash == x.hash && r.start == x.start && x.start <= r.end <= x.end && r.end - x.start <= maxBytes
    && Boundary(text, r.end) && (forall k | r.end < k <= x.end && k <= x.start + maxBytes :: !Boundary(text, k))
    && r.content == text[x.start..r.end] && (r.truncated <==> r.end < x.end)
    && r.citation == Citation.Print(x.(end := r.end))
  }

  /** A hit shows its chunk, under the digest of its file. */
  lemma HitShows(project: string, hash: string, row: ChunkRow)
    requires Addressable(row.span.start) && Addressable(row.span.end) && Valid(row.path)
    requires '/' !in project && '@' !in hash && '#' !in hash
    ensures var hit := HitOf(project, hash, row);
            && hit.path == row.path && hit.span == row.span && hit.startLine == row.startLine && hit.endLine == row.endLine
            && hit.excerpt == row.content
            && Citation.Parse(hit.citation) == Ok(Citation.Citation(project, row.path, hash, row.span.start, row.span.end))
  {
    Citation.ParseOfPrint(Citation.Citation(project, row.path, hash, row.span.start, row.span.end));
  }

  // ----- What was indexed is text

  ghost predicate Readable(tree: map<Path, Bytes>) {
    forall p :: p in tree ==> Valid(p) && Text(tree[p]) && Addressable(|tree[p]|)
  }

  /** Paths are UTF-8 and files fit in memory. */
  ghost predicate Feasible(e: Event) {
    e.Index? ==> && (forall p :: p in e.input.candidates ==> Valid(p))
                 && (forall p :: p in e.input.tree ==> Addressable(|e.input.tree[p]|))
  }

  lemma SelectedAreReadable(hash: Bytes -> string, input: Input)
    requires NoDups(input.candidates) && Feasible(Index(Constants(0, "", ""), input)) && Select(hash, input).Some?
    ensures Readable(TreeOf(Select(hash, input).value.files))
  {
    var files := Select(hash, input).value.files;
    SelectionIsExact(hash, input, |input.candidates|);
    forall p | p in TreeOf(files) ensures Valid(p) && Text(TreeOf(files)[p]) && Addressable(|TreeOf(files)[p]|) {
      var f := FileOf(files, p);
      TreeAt(files, f);
      assert Chosen(hash, input, |input.candidates|, f);
    }
  }

  lemma {:induction false} IndexedIsReadable(env: Env, h: seq<Event>)
    requires forall e :: e in h ==> WellFormed(e) && Feasible(e)
    ensures Run(env, h).indexed.Some? ==> Readable(Run(env, h).indexed.value.tree)
  {
    if h != [] {
      var last := h[|h| - 1];
      IndexedIsReadable(env, h[..|h| - 1]);
      assert WellFormed(last) && Feasible(last);
      if last.Index? && Select(env.hash, last.input).Some? {
        SelectedAreReadable(env.hash, last.input);
      }
    }
  }

  /** Once a run has succeeded, a search by the same binary is never refused as not ready, nor does a
      matching row lack its file. */
  lemma IndexedIsSearchable(env: Env, h: seq<Event>, c: Constants, input: Input, later: seq<Event>)
    requires Sound(env) && NoDups(input.candidates) && forall e :: e in h + later ==> WellFormed(e)
    requires IndexResult(env, c, input, Run(env, h).db).1 && forall e :: e in later ==> By(c, e)
    ensures var db := Opened(c, Run(env, h + [Index(c, input)] + later)).db;
            db.meta.snapshot.Some? && forall row :: row in db.base.chunks ==> row.path in db.base.files
  {
    var all := h + [Index(c, input)] + later;
    IndexedStaysVisible(env, h, c, input, later);
    TablesAreProjections(env, all);
    var w := Run(env, all);
    forall row | row in w.db.base.chunks ensures row.path in w.db.base.files {
      assert PathAgrees(env, w.indexed.value.c, w.db.base, w.indexed.value.tree, row.path);
    }
  }

  // ----- Citations lead back to what they were given for

  /** Digests are hexadecimal. */
  ghost predicate PrintableDigests(env: Env) {
    forall b :: '@' !in env.hash(b) && '#' !in env.hash(b)
  }

  lemma ChunkIsCut(p: Path, b: Bytes, row: ChunkRow)
    requires Bounded(b) && row in ChunkRows(p, b)
    ensures Cut(b, row.span) && row == ChunkRowOf(p, b, row.span)
  {
    if b != [] {
      SpansTile(b, 0);
    }
  }

  /** A hit for a chunk of the text `b`, as an index of any time gave it. */
  ghost predicate HitFor(env: Env, project: string, p: Path, b: Bytes, hit: Hit) {
    && Bounded(b) && Addressable(|b|)
    && exists row :: row in ChunkRows(p, b) && Cut(b, row.span) && hit == HitOf(project, env.hash(b), row)
  }

  /** What the cited bytes are, and when `get` returns them. */
  lemma GetOfHit(env: Env, project: string, p: Path, b: Bytes, hit: Hit, reader: Reader, maxBytes: nat)
    requires Sound(env) && PrintableDigests(env) && '/' !in project && Valid(p) && Text(b)
    requires HitFor(env, project, p, b, hit)
    ensures var r := GetResult(env.hash, reader, hit.citation, maxBytes);
            && (r.Ok? <==> && 0 < maxBytes <= MAX_PROJECT_GET_BYTES
                           && reader.project == project && reader.safe(p) && !reader.excluded(p)
                           && p in reader.tree && reader.tree[p] == b)
            && (r.Ok? ==> && r.value.content <= hit.excerpt && |r.value.content| <= maxBytes
                          && r.value.path == hit.path && r.value.start == hit.span.start
                          && (r.value.truncated <==> r.value.content != hit.excerpt)
                          && (|hit.excerpt| <= maxBytes ==> r.value.content == hit.excerpt))
  {
    var row :| row in ChunkRows(p, b) && Cut(b, row.span) && hit == HitOf(project, env.hash(b), row);
    ChunkIsCut(p, b, row);
    var x := Citation.Citation(project, p, env.hash(b), row.span.start, row.span.end);
    Citation.ParseOfPrint(x);
    AnswerOf(env, b, x, reader, maxBytes);
  }

  lemma AnswerOf(env: Env, b: Bytes, x: Citation.Citation, reader: Reader, maxBytes: nat)
    requires Sound(env) && Text(b) && InRange(b, x) && x.hash == env.hash(b)
    ensures var r := Answer(env.hash, reader, x, maxBytes);
            && (r.Ok? <==> && reader.project == x.project && reader.safe(x.path) && !reader.excluded(x.path)
                           && x.path in reader.tree && reader.tree[x.path] == b)
            && (r.Ok? ==> && r.value.content <= b[x.start..x.end] && |r.value.content| <= maxBytes
                          && r.value.path == x.path && r.value.start == x.start
                          && (r.value.truncated <==> r.value.content != b[x.start..x.end])
                          && (x.end - x.start <= maxBytes ==> r.value.content == b[x.start..x.end]))
  {
  }

  /** After any history of edits, runs and opens by binaries of any version, take any chunk of the
      open database as a search hit. `get` on its citation, at any later time and on any working
      tree, succeeds exactly when the file still holds the bytes that were indexed (and the request is
      allowed), and then returns a prefix of exactly the excerpt the search returned. */
  lemma CitationsAreHonest(env: Env, h: seq<Event>, c: Constants, project: string, row: ChunkRow, reader: Reader, maxBytes: nat)
    requires Sound(env) && PrintableDigests(env) && '/' !in project
    requires forall e :: e in h ==> WellFormed(e) && Feasible(e)
    requires row in Opened(c, Run(env, h)).db.base.chunks
    ensures var w := Opened(c, Run(env, h));
            && w.indexed.Some? && row.path in w.indexed.value.tree && row.path in w.db.base.files
            && Addressable(row.span.start) && Addressable(row.span.end)
            && var hit := HitOf(project, w.db.base.files[row.path].hash, row);
            var r := GetResult(env.hash, reader, hit.citation, maxBytes);
            && (r.Ok? <==> && 0 < maxBytes <= MAX_PROJECT_GET_BYTES
                           && reader.project == project && reader.safe(row.path) && !reader.excluded(row.path)
                           && row.path in reader.tree && reader.tree[row.path] == w.indexed.value.tree[row.path])
            && (r.Ok? ==> && r.value.content <= hit.excerpt && |r.value.content| <= maxBytes
                          && (r.value.truncated <==> r.value.content != hit.excerpt)
                          && (|hit.excerpt| <= maxBytes ==> r.value.content == hit.excerpt))
  {
    var w := Opened(c, Run(env, h));
    VisibleRowsAreTheOpeners(env, h, c);
    IndexedIsReadable(env, h);
    HitOfRow(env, c, project, w.db.base, w.indexed.value.tree, row);
    GetOfHit(env, project, row.path, w.indexed.value.tree[row.path],
             HitOf(project, w.db.base.files[row.path].hash, row), reader, maxBytes);
  }

  lemma HitOfRow(env: Env, c: Constants, project: string, base: Base, tree: map<Path, Bytes>, row: ChunkRow)
    requires Represents(env, c, base, tree) && Readable(tree) && row in base.chunks
    ensures row.path in tree && row.path in base.files && Addressable(row.span.start) && Addressable(row.span.end)
    ensures HitFor(env, project, row.path, tree[row.path], HitOf(project, base.files[row.path].hash, row))
  {
    assert PathAgrees(env, c, base, tree, row.path);
    ChunkIsCut(row.path, tree[row.path], row);
  }

  /** The citation `get` returns stands for exactly the bytes it returned: on the same file, asking
      again with as large a budget gives the same content, unless there is no content to cite. */
  lemma GetAgain(hash: Bytes -> string, reader: Reader, citation: string, maxBytes: nat, again: nat)
    requires '/' !in reader.project && maxBytes <= again <= MAX_PROJECT_GET_BYTES
    requires GetResult(hash, reader, citation, maxBytes).Ok?
    ensures var first := GetResult(hash, reader, citation, maxBytes).value;
            GetResult(hash, reader, first.citation, again)
            == if first.content == [] then Err(BadRange) else Ok(first.(truncated := false))
  {
    var x := Citation.Parse(citation).value;
    var text := reader.tree[x.path];
    var y := x.(end := CutTo(text, x, maxBytes));
    Citation.ParsedIsPrintable(citation);
    Citation.ParseOfPrint(y);
    AnswerAgain(hash, reader, x, maxBytes, again);
  }

  lemma AnswerAgain(hash: Bytes -> string, reader: Reader, x: Citation.Citation, maxBytes: nat, again: nat)
    requires maxBytes <= again && Answer(hash, reader, x, maxBytes).Ok?
    ensures var first := Answer(hash, reader, x, maxBytes).value;
            first.end <= x.end && first.citation == Citation.Print(x.(end := first.end)) &&
            Answer(hash, reader, x.(end := first.end), again)
            == if first.content == [] then Err(BadRange) else Ok(first.(truncated := false))
  {
  }
}
