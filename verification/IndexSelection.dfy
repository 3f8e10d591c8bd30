/** Which files of the working tree an index run takes in (src/project_index.rs). */
module IndexSelection {
  import opened Utf8
  import opened Wrappers
  import opened Sequences

  datatype File = File(path: Path, hash: string, bytes: Bytes)

  datatype Limits = Limits(maxFiles: nat, maxFileBytes: nat, maxTotalBytes: nat, maxChangedBytes: nat)

  /** What a run reads: the listed paths, the regular files among them, the path rules and the limits. */
  datatype Input = Input(candidates: seq<Path>, tree: map<Path, Bytes>, excluded: Path -> bool, allowed: Path -> bool,
                         limits: Limits, snapshot: string)

  datatype Verdict = Excluded | NotAllowed | Oversize | NotText | Selected

  datatype Coverage = Coverage(excluded: nat, notAllowed: nat, oversize: nat, notText: nat)

  datatype Scan = Scan(files: seq<File>, bytes: nat, coverage: Coverage)

  predicate Text(b: Bytes) {
    0 !in b && Valid(b)
  }

  function Judge(input: Input, p: Path): (v: Verdict)
    ensures v == NotText || v == Selected ==> p in input.tree
  {
    if input.excluded(p) then Excluded
    else if !input.allowed(p) || p !in input.tree then NotAllowed
    else if |input.tree[p]| > input.limits.maxFileBytes then Oversize
    else if !Text(input.tree[p]) then NotText
    else Selected
  }

  function Count(k: Coverage, v: Verdict): Coverage {
    match v
    case Excluded => k.(excluded := k.excluded + 1)
    case NotAllowed => k.(notAllowed := k.notAllowed + 1)
    case Oversize => k.(oversize := k.oversize + 1)
    case NotText => k.(notText := k.notText + 1)
    case Selected => k
  }

  /** One turn of the loop; `None` when the byte budget is exceeded. A file that turns out not to be
      text counts against the budget while it is looked at. */
  function ScanOne(hash: Bytes -> string, input: Input, scan: Scan, p: Path): Option<Scan> {
    var v := Judge(input, p);
    if v != NotText && v != Selected then Some(scan.(coverage := Count(scan.coverage, v)))
    else
      var b := input.tree[p];
      if scan.bytes + |b| > input.limits.maxTotalBytes then None
      else if v == NotText then Some(scan.(coverage := Count(scan.coverage, v)))
      else Some(Scan(scan.files + [File(p, hash(b), b)], scan.bytes + |b|, scan.coverage))
  }

  function ScanUpTo(hash: Bytes -> string, input: Input, n: nat): Option<Scan>
    requires n <= |input.candidates|
  {
    if n == 0 then Some(Scan([], 0, Coverage(0, 0, 0, 0)))
    else match ScanUpTo(hash, input, n - 1)
      case None => None
      case Some(scan) => ScanOne(hash, input, scan, input.candidates[n - 1])
  }

  function Select(hash: Bytes -> string, input: Input): Option<Scan> {
    if |input.candidates| > input.limits.maxFiles then None else ScanUpTo(hash, input, |input.candidates|)
  }

  lemma {:induction false} StaysNone(hash: Bytes -> string, input: Input, n: nat)
    requires n <= |input.candidates| && ScanUpTo(hash, input, n) == None
    ensures ScanUpTo(hash, input, |input.candidates|) == None
    decreases |input.candidates| - n
  {
    if n < |input.candidates| {
      StaysNone(hash, input, n + 1);
    }
  }

  method SelectFiles(hash: Bytes -> string, input: Input) returns (r: Option<Scan>)
    ensures r == Select(hash, input)
  {
    if |input.candidates| > input.limits.maxFiles {
      return None;
    }
    var files: seq<File>, bytes: nat, coverage := [], 0, Coverage(0, 0, 0, 0);
    for i := 0 to |input.candidates|
      invariant ScanUpTo(hash, input, i) == Some(Scan(files, bytes, coverage))
    {
      var p := input.candidates[i];
      var v := Judge(input, p);
      if v == Excluded || v == NotAllowed || v == Oversize {
        coverage := Count(coverage, v);
        continue;
      }
      var b := input.tree[p];
      bytes := bytes + |b|;
      if bytes > input.limits.maxTotalBytes {
        StaysNone(hash, input, i + 1);
        return None;
      }
      if !Text(b) {
        coverage := Count(coverage, NotText);
        bytes := bytes - |b|;
        continue;
      }
      files := files + [File(p, hash(b), b)];
    }
    return Some(Scan(files, bytes, coverage));
  }

  // ----- What the choice amounts to

  predicate DistinctPaths(files: seq<File>) {
    forall i, j :: 0 <= i < j < |files| ==> files[i].path != files[j].path
  }

  function TotalBytes(files: seq<File>): nat {
    if files == [] then 0 else TotalBytes(files[..|files| - 1]) + |files[|files| - 1].bytes|
  }

  /** A regular file that no rule excludes and that is small enough to be read. */
  predicate Readable(input: Input, p: Path) {
    !input.excluded(p) && input.allowed(p) && p in input.tree && |input.tree[p]| <= input.limits.maxFileBytes
  }

  /** It is text: no zero byte, and UTF-8. */
  predicate Eligible(input: Input, p: Path) {
    Readable(input, p) && 0 !in input.tree[p] && Valid(input.tree[p])
  }

  ghost predicate Chosen(hash: Bytes -> string, input: Input, n: nat, f: File)
    requires n <= |input.candidates|
  {
    && f.path in input.candidates[..n] && Eligible(input, f.path)
    && f.hash == hash(f.bytes) && f.bytes == input.tree[f.path]
  }

  // The candidates each counter is about.

  predicate IsExcluded(input: Input, p: Path) {
    input.excluded(p)
  }

  predicate IsNotAllowed(input: Input, p: Path) {
    !input.excluded(p) && (!input.allowed(p) || p !in input.tree)
  }

  predicate IsOversize(input: Input, p: Path) {
    !input.excluded(p) && input.allowed(p) && p in input.tree && |input.tree[p]| > input.limits.maxFileBytes
  }

  predicate IsNotText(input: Input, p: Path) {
    Readable(input, p) && (0 in input.tree[p] || !Valid(input.tree[p]))
  }

  function Many(paths: seq<Path>, p: Path -> bool): nat {
    |Filter(paths, p)|
  }

  lemma ManyMore(paths: seq<Path>, i: nat, p: Path -> bool)
    requires i < |paths|
    ensures Many(paths[..i + 1], p) == Many(paths[..i], p) + if p(paths[i]) then 1 else 0
  {
    FilterNext(paths, i, p);
  }

  ghost predicate Counted(input: Input, n: nat, k: Coverage)
    requires n <= |input.candidates|
  {
    && k.excluded == Many(input.candidates[..n], p => IsExcluded(input, p))
    && k.notAllowed == Many(input.candidates[..n], p => IsNotAllowed(input, p))
    && k.oversize == Many(input.candidates[..n], p => IsOversize(input, p))
    && k.notText == Many(input.candidates[..n], p => IsNotText(input, p))
  }

  lemma CountedMore(input: Input, n: nat, k: Coverage)
    requires n < |input.candidates| && Counted(input, n, k)
    ensures Counted(input, n + 1, CountedWith(input, input.candidates[n], k))
  {
    ManyMore(input.candidates, n, p => IsExcluded(input, p));
    ManyMore(input.candidates, n, p => IsNotAllowed(input, p));
    ManyMore(input.candidates, n, p => IsOversize(input, p));
    ManyMore(input.candidates, n, p => IsNotText(input, p));
  }

  function CountedWith(input: Input, p: Path, k: Coverage): Coverage {
    Coverage(k.excluded + (if IsExcluded(input, p) then 1 else 0), k.notAllowed + (if IsNotAllowed(input, p) then 1 else 0),
             k.oversize + (if IsOversize(input, p) then 1 else 0), k.notText + (if IsNotText(input, p) then 1 else 0))
  }

  /** Every skipped candidate is counted once, for its own reason. */
  lemma {:induction false} CoverageIsExact(hash: Bytes -> string, input: Input, n: nat)
    requires n <= |input.candidates| && ScanUpTo(hash, input, n).Some?
    ensures Counted(input, n, ScanUpTo(hash, input, n).value.coverage)
    ensures var scan := ScanUpTo(hash, input, n).value; var k := scan.coverage;
            |scan.files| + k.excluded + k.notAllowed + k.oversize + k.notText == n
  {
    if n > 0 {
      CoverageIsExact(hash, input, n - 1);
      ScanOneAdds(hash, input, ScanUpTo(hash, input, n - 1).value, input.candidates[n - 1]);
      CountedMore(input, n - 1, ScanUpTo(hash, input, n - 1).value.coverage);
    }
  }

  /** One turn of the loop adds the candidate or counts it. */
  lemma ScanOneAdds(hash: Bytes -> string, input: Input, scan: Scan, p: Path)
    requires ScanOne(hash, input, scan, p).Some?
    ensures var now := ScanOne(hash, input, scan, p).value;
            && now.files == scan.files + (if Eligible(input, p) then [File(p, hash(input.tree[p]), input.tree[p])] else [])
            && now.bytes == scan.bytes + (if Eligible(input, p) then |input.tree[p]| else 0)
            && (Eligible(input, p) ==> now.bytes <= input.limits.maxTotalBytes)
            && now.coverage == CountedWith(input, p, scan.coverage)
  {
  }

  /** Adding a candidate to a selection of those before it. */
  lemma ChosenMore(hash: Bytes -> string, input: Input, n: nat, before: seq<File>, after: seq<File>)
    requires 0 < n <= |input.candidates| && NoDups(input.candidates)
    requires forall f :: f in before <==> Chosen(hash, input, n - 1, f)
    requires after == before + if !Eligible(input, input.candidates[n - 1]) then []
                               else [File(input.candidates[n - 1], hash(input.tree[input.candidates[n - 1]]), input.tree[input.candidates[n - 1]])]
    ensures forall f :: f in after <==> Chosen(hash, input, n, f)
    ensures DistinctPaths(before) ==> DistinctPaths(after)
  {
    var p := input.candidates[n - 1];
    assert input.candidates[..n] == input.candidates[..n - 1] + [p];
    assert p !in input.candidates[..n - 1];
    forall f ensures f in after <==> Chosen(hash, input, n, f) {
      assert f in before <==> Chosen(hash, input, n - 1, f);
    }
    forall f | f in before ensures f.path != p {
      assert Chosen(hash, input, n - 1, f);
    }
  }

  /** A selection that succeeds holds exactly the candidates that pass every rule, each once and with
      its bytes; they fit the byte budget. */
  lemma {:induction false} SelectionIsExact(hash: Bytes -> string, input: Input, n: nat)
    requires n <= |input.candidates| && NoDups(input.candidates) && ScanUpTo(hash, input, n).Some?
    ensures var scan := ScanUpTo(hash, input, n).value;
            && (forall f :: f in scan.files <==> Chosen(hash, input, n, f))
            && DistinctPaths(scan.files)
            && scan.bytes == TotalBytes(scan.files)
            && (scan.files != [] ==> scan.bytes <= input.limits.maxTotalBytes)
  {
    if n > 0 {
      SelectionIsExact(hash, input, n - 1);
      var before, after := ScanUpTo(hash, input, n - 1).value, ScanUpTo(hash, input, n).value;
      ScanOneAdds(hash, input, before, input.candidates[n - 1]);
      ChosenMore(hash, input, n, before.files, after.files);
      assert after.files != before.files ==> after.files[..|after.files| - 1] == before.files;
    }
  }

  // ----- When there is no selection

  /** The bytes of the eligible ones among the first `n` candidates. */
  function EligibleBytes(input: Input, n: nat): nat
    requires n <= |input.candidates|
  {
    if n == 0 then 0
    else EligibleBytes(input, n - 1) + if Eligible(input, input.candidates[n - 1]) then |input.tree[input.candidates[n - 1]]| else 0
  }

  /** The budget is spent at some candidate, with all text before it and the candidate itself, text or not. */
  ghost predicate Exceeds(input: Input, n: nat)
    requires n < |input.candidates|
  {
    && Readable(input, input.candidates[n])
    && EligibleBytes(input, n) + |input.tree[input.candidates[n]]| > input.limits.maxTotalBytes
  }

  lemma {:induction false} ScanFails(hash: Bytes -> string, input: Input, n: nat)
    requires n <= |input.candidates|
    ensures ScanUpTo(hash, input, n) == None <==> exists i :: 0 <= i < n && Exceeds(input, i)
    ensures ScanUpTo(hash, input, n).Some? ==> ScanUpTo(hash, input, n).value.bytes == EligibleBytes(input, n)
  {
    if n > 0 {
      ScanFails(hash, input, n - 1);
      if ScanUpTo(hash, input, n).Some? {
        ScanOneAdds(hash, input, ScanUpTo(hash, input, n - 1).value, input.candidates[n - 1]);
      } else if ScanUpTo(hash, input, n - 1).Some? {
        assert Exceeds(input, n - 1);
      }
    }
  }

  /** Files are selected unless there are too many candidates or too many bytes. */
  lemma SelectionFails(hash: Bytes -> string, input: Input)
    ensures Select(hash, input) == None <==>
            |input.candidates| > input.limits.maxFiles || exists i :: 0 <= i < |input.candidates| && Exceeds(input, i)
  {
    ScanFails(hash, input, |input.candidates|);
  }
}
