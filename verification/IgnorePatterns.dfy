/** `.memoreeignore` patterns (src/project_index.rs, `ignored_by_memoree`). */
module IgnorePatterns {
  import opened Wrappers

  predicate OccursAt(s: string, part: string, i: nat) {
    i + |part| <= |s| && s[i..i + |part|] == part
  }

  /** `s[from..].find(part)`, as an index into `s`. */
  function Find(s: string, part: string, from: nat): (r: Option<nat>)
    requires from <= |s|
    ensures r.Some? ==> from <= r.value && OccursAt(s, part, r.value)
    ensures forall i :: from <= i && (r.Some? ==> i < r.value) ==> !OccursAt(s, part, i)
    decreases |s| - from
  {
    if OccursAt(s, part, from) then Some(from)
    else if from == |s| then None
    else Find(s, part, from + 1)
  }

  /** `at` places the parts in order from `from` on, none overlapping the one before. */
  ghost predicate Placed(s: string, parts: seq<string>, from: nat, at: seq<nat>)
    decreases |parts|
  {
    if parts == [] then at == []
    else
      && at != []
      && from <= at[0]
      && OccursAt(s, parts[0], at[0])
      && Placed(s, parts[1..], at[0] + |parts[0]|, at[1..])
  }

  ghost predicate Placeable(s: string, parts: seq<string>, from: nat) {
    exists at :: Placed(s, parts, from, at)
  }

  lemma EarlierIsEasier(s: string, parts: seq<string>, from: nat, earlier: nat, at: seq<nat>)
    requires earlier <= from && Placed(s, parts, from, at)
    ensures Placed(s, parts, earlier, at)
  {
  }

  /** Taking the leftmost place for the first part never costs a later part its place. */
  lemma GreedyStep(s: string, parts: seq<string>, from: nat)
    requires parts != [] && from <= |s|
    ensures var first := Find(s, parts[0], from);
            Placeable(s, parts, from) <==> first.Some? && Placeable(s, parts[1..], first.value + |parts[0]|)
  {
    var first := Find(s, parts[0], from);
    if Placeable(s, parts, from) {
      var at :| Placed(s, parts, from, at);
      EarlierIsEasier(s, parts[1..], at[0] + |parts[0]|, first.value + |parts[0]|, at[1..]);
    }
    if first.Some? && Placeable(s, parts[1..], first.value + |parts[0]|) {
      var rest :| Placed(s, parts[1..], first.value + |parts[0]|, rest);
      var at := [first.value] + rest;
      assert at[1..] == rest;
      assert Placed(s, parts, from, at);
    }
  }

  /** The leftmost search over the parts of a starred pattern: `remainder` is `path[offset..]`. */
  method MatchParts(path: string, parts: seq<string>) returns (matched: bool)
    ensures matched <==> Placeable(path, parts, 0)
  {
    var offset: nat := 0;
    for i := 0 to |parts|
      invariant offset <= |path|
      invariant Placeable(path, parts, 0) <==> Placeable(path, parts[i..], offset)
    {
      GreedyStep(path, parts[i..], offset);
      assert parts[i..][1..] == parts[i + 1..];
      var index := Find(path, parts[i], offset);
      if index.None? {
        return false;
      }
      offset := index.value + |parts[i]|;
    }
    assert Placed(path, [], offset, []);
    return true;
  }

  /** `str::split` on one character. */
  function Split(s: string, c: char): (parts: seq<string>)
    ensures parts != []
  {
    if s == [] then [""]
    else
      var rest := Split(s[1..], c);
      if s[0] == c then [""] + rest else [[s[0]] + rest[0]] + rest[1..]
  }

  function Nonempty(parts: seq<string>): (r: seq<string>)
    ensures forall part :: part in r <==> part in parts && part != ""
  {
    if parts == [] then []
    else if parts[0] == "" then Nonempty(parts[1..])
    else [parts[0]] + Nonempty(parts[1..])
  }

  function TrimEnd(s: string, c: char): (r: string)
    ensures r <= s && (r == "" || r[|r| - 1] != c)
    ensures forall i :: |r| <= i < |s| ==> s[i] == c
  {
    if s != [] && s[|s| - 1] == c then TrimEnd(s[..|s| - 1], c) else s
  }

  predicate EndsWith(s: string, suffix: string) {
    |suffix| <= |s| && s[|s| - |suffix|..] == suffix
  }

  /** What one pattern excludes. */
  ghost predicate Excludes(pattern: string, path: string) {
    var p := TrimEnd(pattern, '/');
    if "*." <= p then EndsWith(path, "." + p[2..])
    else if '*' in p then Placeable(path, Nonempty(Split(p, '*')), 0)
    else path == p || p + "/" <= path || p in Split(path, '/')
  }

  method Ignored(path: string, patterns: seq<string>) returns (ignored: bool)
    ensures ignored <==> exists i :: 0 <= i < |patterns| && Excludes(patterns[i], path)
  {
    for i := 0 to |patterns|
      invariant forall j :: 0 <= j < i ==> !Excludes(patterns[j], path)
    {
      var p := TrimEnd(patterns[i], '/');
      var excluded;
      if "*." <= p {
        excluded := EndsWith(path, "." + p[2..]);
      } else if '*' in p {
        excluded := MatchParts(path, Nonempty(Split(p, '*')));
      } else {
        excluded := path == p || p + "/" <= path || p in Split(path, '/');
      }
      if excluded {
        return true;
      }
    }
    return false;
  }

  // ----- Patterns

  /** Empty parts can be placed anywhere, so leaving them out changes nothing. */
  lemma {:induction false} EmptyPartsDoNotMatter(path: string, parts: seq<string>, from: nat)
    requires from <= |path|
    ensures Placeable(path, Nonempty(parts), from) <==> Placeable(path, parts, from)
    decreases parts
  {
    if parts != [] {
      if parts[0] == "" {
        EmptyPartsDoNotMatter(path, parts[1..], from);
        GreedyStep(path, parts, from);
        assert OccursAt(path, "", from) && Find(path, "", from) == Some(from);
      } else {
        GreedyStep(path, parts, from);
        GreedyStep(path, Nonempty(parts), from);
        var first := Find(path, parts[0], from);
        if first.Some? {
          EmptyPartsDoNotMatter(path, parts[1..], first.value + |parts[0]|);
        }
        assert Nonempty(parts)[1..] == Nonempty(parts[1..]);
      }
    } else {
      assert Placed(path, [], from, []);
    }
  }

  /** `*.ext` excludes the paths that end in `.ext`. */
  lemma SuffixPattern(ext: string, path: string)
    requires ext == "" || ext[|ext| - 1] != '/'
    ensures Excludes("*." + ext, path) <==> exists base :: path == base + ("." + ext)
  {
    var pattern := "*." + ext;
    assert TrimEnd(pattern, '/') == pattern && pattern[2..] == ext;
    if Excludes(pattern, path) {
      assert path == path[..|path| - |ext| - 1] + ("." + ext);
    }
    if base :| path == base + ("." + ext) {
      assert path[|base|..] == "." + ext;
    }
  }

  // ----- The parts are the pattern's literal text: nothing else constrains a starred pattern.

  function Join(parts: seq<string>, c: char): string {
    if parts == [] then "" else if |parts| == 1 then parts[0] else parts[0] + [c] + Join(parts[1..], c)
  }

  lemma JoinMore(head: string, parts: seq<string>, c: char)
    requires parts != []
    ensures Join([head] + parts, c) == head + [c] + Join(parts, c)
  {
  }

  lemma JoinLonger(x: char, parts: seq<string>, c: char)
    requires parts != []
    ensures Join([[x] + parts[0]] + parts[1..], c) == [x] + Join(parts, c)
  {
  }

  /** Splitting loses nothing ... */
  lemma {:induction false} SplitThenJoin(s: string, c: char)
    ensures Join(Split(s, c), c) == s
  {
    if s != [] {
      SplitThenJoin(s[1..], c);
      assert s == [s[0]] + s[1..];
      if s[0] == c {
        JoinMore("", Split(s[1..], c), c);
      } else {
        JoinLonger(s[0], Split(s[1..], c), c);
      }
    }
  }

  /** ... and leaves no separator behind. */
  lemma {:induction false} SplitSeparates(s: string, c: char)
    ensures forall part :: part in Split(s, c) ==> c !in part
  {
    if s != [] {
      SplitSeparates(s[1..], c);
      assert Split(s[1..], c)[0] in Split(s[1..], c);
    }
  }
}
