/** Project citations: `memoree-project://PROJECT/ENCODED_PATH@HASH#START-END` (src/project_index.rs). */
module Citation {
  import opened Utf8
  import opened Wrappers
  import Base64Url

  const SCHEME := "memoree-project://"
  const USIZE_LIMIT: int := 0x1_0000_0000_0000_0000

  type usize = x: int | 0 <= x < USIZE_LIMIT

  datatype Citation = Citation(project: string, path: Bytes, hash: string, start: usize, end: usize)

  datatype CitationError =
    | InvalidScheme
    | InvalidProject
    | MissingRange
    | MissingHash
    | InvalidPath
    | PathNotUtf8
    | InvalidRange
    | InvalidStart
    | InvalidEnd

  // ----- Decimal numerals

  function Digit(d: nat): (c: char)
    requires d < 10
  {
    '0' + d as char
  }

  predicate IsDigit(c: char) {
    '0' <= c <= '9'
  }

  function Decimal(n: nat): (s: string)
    ensures s != [] && forall c :: c in s ==> IsDigit(c)
  {
    if n < 10 then [Digit(n)] else Decimal(n / 10) + [Digit(n % 10)]
  }

  function DigitsValue(s: string): nat
    requires forall c :: c in s ==> IsDigit(c)
  {
    if s == [] then 0
    else
      var last := s[|s| - 1];
      assert last in s && IsDigit(last);
      DigitsValue(s[..|s| - 1]) * 10 + (last as int - '0' as int)
  }

  /** `str::parse::<usize>`: an optional plus sign, then digits that do not overflow. */
  function ParseUsize(s: string): Option<usize> {
    var digits := if s != [] && s[0] == '+' then s[1..] else s;
    if digits == [] || exists c :: c in digits && !IsDigit(c) then None
    else if DigitsValue(digits) < USIZE_LIMIT then Some(DigitsValue(digits))
    else None
  }

  lemma {:induction false} ParseDecimal(n: nat)
    ensures DigitsValue(Decimal(n)) == n
  {
    if n >= 10 {
      ParseDecimal(n / 10);
      var s := Decimal(n);
      assert s[..|s| - 1] == Decimal(n / 10);
    }
  }

  // ----- Splitting

  /** `split_once`. */
  function SplitFirst(s: string, c: char): (r: Option<(string, string)>)
    ensures r.None? <==> c !in s
    ensures r.Some? ==> s == r.value.0 + [c] + r.value.1 && c !in r.value.0
  {
    if s == [] then None
    else if s[0] == c then Some(("", s[1..]))
    else match SplitFirst(s[1..], c)
      case None => None
      case Some(p) => Some(([s[0]] + p.0, p.1))
  }

  /** `rsplit_once`. */
  function SplitLast(s: string, c: char): (r: Option<(string, string)>)
    ensures r.None? <==> c !in s
    ensures r.Some? ==> s == r.value.0 + [c] + r.value.1 && c !in r.value.1
  {
    if s == [] then None
    else
      var last := |s| - 1;
      if s[last] == c then Some((s[..last], ""))
      else match SplitLast(s[..last], c)
        case None => None
        case Some(p) => Some((p.0, p.1 + [s[last]]))
  }

  lemma {:induction false} SplitFirstAt(a: string, c: char, b: string)
    requires c !in a
    ensures SplitFirst(a + [c] + b, c) == Some((a, b))
    decreases |a|
  {
    var s := a + [c] + b;
    if a == [] {
      assert s[1..] == b;
    } else {
      assert s[1..] == a[1..] + [c] + b;
      SplitFirstAt(a[1..], c, b);
      assert a == [a[0]] + a[1..];
    }
  }

  lemma {:induction false} SplitLastAt(a: string, c: char, b: string)
    requires c !in b
    ensures SplitLast(a + [c] + b, c) == Some((a, b))
    decreases |b|
  {
    var s := a + [c] + b;
    if b == [] {
      assert s[..|s| - 1] == a;
    } else {
      var b' := b[..|b| - 1];
      assert s[..|s| - 1] == a + [c] + b';
      SplitLastAt(a, c, b');
      assert b == b' + [b[|b| - 1]];
    }
  }

  // ----- Printing and parsing

  /** `project_citation`. */
  function Print(x: Citation): string {
    SCHEME + (x.project + ['/'] + ((Base64Url.Encode(x.path) + ['@'] + x.hash) + ['#'] + Range(x.start, x.end)))
  }

  function Range(start: nat, end: nat): string {
    Decimal(start) + ['-'] + Decimal(end)
  }

  /** The part of `parse_project_citation` after the range: the encoded path and the hash. */
  function ParsePathAndHash(s: string): Result<(Bytes, string), CitationError> {
    match SplitLast(s, '@')
    case None => Err(MissingHash)
    case Some(p) =>
      match Base64Url.Decode(p.0)
      case None => Err(InvalidPath)
      case Some(path) => if Valid(path) then Ok((path, p.1)) else Err(PathNotUtf8)
  }

  function ParseRange(s: string): Result<(usize, usize), CitationError> {
    match SplitFirst(s, '-')
    case None => Err(InvalidRange)
    case Some(p) =>
      match ParseUsize(p.0)
      case None => Err(InvalidStart)
      case Some(start) =>
        match ParseUsize(p.1)
        case None => Err(InvalidEnd)
        case Some(end) => Ok((start, end))
  }

  /** `parse_project_citation`. */
  function Parse(s: string): Result<Citation, CitationError> {
    if !(SCHEME <= s) then Err(InvalidScheme)
    else match SplitFirst(s[|SCHEME|..], '/')
      case None => Err(InvalidProject)
      case Some(p) =>
        match SplitFirst(p.1, '#')
        case None => Err(MissingRange)
        case Some(q) =>
          match ParsePathAndHash(q.0)
          case Err(e) => Err(e)
          case Ok(ph) =>
            match ParseRange(q.1)
            case Err(e) => Err(e)
            case Ok(r) => Ok(Citation(p.0, ph.0, ph.1, r.0, r.1))
  }

  /** What the printed form can carry. */
  predicate Printable(x: Citation) {
    '/' !in x.project && '@' !in x.hash && '#' !in x.hash
  }

  lemma ParseRangeOfRange(start: usize, end: usize)
    ensures ParseRange(Range(start, end)) == Ok((start, end))
  {
    SplitFirstAt(Decimal(start), '-', Decimal(end));
    ParseDecimal(start);
    ParseDecimal(end);
    assert Decimal(start)[0] in Decimal(start) && Decimal(end)[0] in Decimal(end);
  }

  lemma ParsePathAndHashOf(path: Bytes, hash: string)
    requires Valid(path) && '@' !in hash
    ensures ParsePathAndHash(Base64Url.Encode(path) + ['@'] + hash) == Ok((path, hash))
  {
    Base64Url.DecodeEncode(path);
    SplitLastAt(Base64Url.Encode(path), '@', hash);
  }

  lemma ParseParts(project: string, ph: string, range: string)
    requires '/' !in project && '#' !in ph
    ensures var s := SCHEME + (project + ['/'] + (ph + ['#'] + range));
            && SCHEME <= s
            && SplitFirst(s[|SCHEME|..], '/') == Some((project, ph + ['#'] + range))
            && SplitFirst(ph + ['#'] + range, '#') == Some((ph, range))
  {
    var rest := project + ['/'] + (ph + ['#'] + range);
    assert (SCHEME + rest)[|SCHEME|..] == rest;
    SplitFirstAt(project, '/', ph + ['#'] + range);
    SplitFirstAt(ph, '#', range);
  }

  lemma ParseOfPrint(x: Citation)
    requires Printable(x) && Valid(x.path)
    ensures Parse(Print(x)) == Ok(x)
  {
    var encoded := Base64Url.Encode(x.path);
    assert '#' !in encoded by { Base64Url.EncodeUsesAlphabet(x.path); }
    ParseParts(x.project, encoded + ['@'] + x.hash, Range(x.start, x.end));
    ParsePathAndHashOf(x.path, x.hash);
    ParseRangeOfRange(x.start, x.end);
  }

  /** Parsing accepts only what printing can carry, ... */
  lemma ParsedIsPrintable(s: string)
    requires Parse(s).Ok?
    ensures Printable(Parse(s).value) && Valid(Parse(s).value.path)
  {
    var p := SplitFirst(s[|SCHEME|..], '/').value;
    var q := SplitFirst(p.1, '#').value;
    var ph := SplitLast(q.0, '@').value;
    assert forall c :: c in ph.1 ==> c in q.0;
  }

  /** ... so printing then parsing gives a citation back exactly when its project has no `/` and
      its hash neither `@` nor `#`, whatever its path and range, ... */
  lemma RoundTrip(x: Citation)
    requires Valid(x.path)
    ensures Parse(Print(x)) == Ok(x) <==> Printable(x)
  {
    if Printable(x) {
      ParseOfPrint(x);
    } else if Parse(Print(x)) == Ok(x) {
      ParsedIsPrintable(Print(x));
    }
  }

  /** ... and a citation that was parsed once survives being printed again. */
  lemma Reprint(s: string)
    requires Parse(s).Ok?
    ensures Parse(Print(Parse(s).value)) == Parse(s)
  {
    ParsedIsPrintable(s);
    ParseOfPrint(Parse(s).value);
  }

  /** Distinct printable citations print differently. */
  lemma PrintIsInjective(x: Citation, y: Citation)
    requires Printable(x) && Valid(x.path) && Printable(y) && Valid(y.path)
    requires Print(x) == Print(y)
    ensures x == y
  {
    ParseOfPrint(x);
    ParseOfPrint(y);
  }
}
