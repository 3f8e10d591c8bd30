/** Bytes of UTF-8 text and the character boundaries Rust's `str` cuts at. */
module Utf8 {
  type byte = x: int | 0 <= x < 256
  type Bytes = seq<byte>

  /** A repository-relative path, by its UTF-8 bytes. */
  type Path = Bytes

  const NEWLINE: byte := 10

  predicate Continuation(b: byte) {
    0x80 <= b < 0xC0
  }

  /** `str::is_char_boundary`. */
  predicate Boundary(t: Bytes, i: int) {
    i == 0 || i == |t| || (0 < i < |t| && !Continuation(t[i]))
  }

  /** Length of the well-formed scalar encoding `t` begins with (Table 3-7 of the
      Unicode Standard), or 0 when there is none. */
  function Width(t: Bytes): (w: nat)
    ensures w <= 4 && w <= |t|
    ensures forall k :: 1 <= k < w ==> Continuation(t[k])
    ensures w > 0 ==> !Continuation(t[0])
  {
    if |t| == 0 then 0
    else if t[0] < 0x80 then 1
    else if |t| >= 2 && 0xC2 <= t[0] <= 0xDF && Continuation(t[1]) then 2
    else if |t| >= 3 && 0xE0 <= t[0] <= 0xEF && Continuation(t[1]) && Continuation(t[2])
            && (t[0] == 0xE0 ==> 0xA0 <= t[1]) && (t[0] == 0xED ==> t[1] < 0xA0) then 3
    else if |t| >= 4 && 0xF0 <= t[0] <= 0xF4 && Continuation(t[1]) && Continuation(t[2]) && Continuation(t[3])
            && (t[0] == 0xF0 ==> 0x90 <= t[1]) && (t[0] == 0xF4 ==> t[1] < 0x90) then 4
    else 0
  }

  predicate Valid(t: Bytes) {
    t == [] || (Width(t) > 0 && Valid(t[Width(t)..]))
  }

  /** Four continuation bytes in a row ... */
  predicate FourInARow(t: Bytes, i: int) {
    0 <= i && i + 3 < |t| && Continuation(t[i]) && Continuation(t[i + 1]) && Continuation(t[i + 2]) && Continuation(t[i + 3])
  }

  /** ... or one after an ASCII byte. */
  predicate Orphan(t: Bytes, i: int) {
    0 <= i && i + 1 < |t| && t[i] < 0x80 && Continuation(t[i + 1])
  }

  /** All that cutting text into chunks needs to know about UTF-8. */
  ghost predicate Bounded(t: Bytes) {
    && (forall i :: !FourInARow(t, i))
    && (forall i :: !Orphan(t, i))
  }

  /** A character is at most four bytes long and an ASCII byte is one. */
  lemma {:induction false} ValidIsBounded(t: Bytes)
    requires Valid(t)
    ensures Bounded(t)
    decreases |t|
  {
    if t != [] {
      var w := Width(t);
      var rest := t[w..];
      ValidIsBounded(rest);
      assert rest != [] ==> Width(rest) > 0;
      assert rest != [] ==> rest[0] == t[w];
      forall i: int ensures !FourInARow(t, i) {
        var j: int := i - w;
        assert !FourInARow(rest, j);
      }
      forall i: int ensures !Orphan(t, i) {
        var j: int := i - w;
        assert !Orphan(rest, j);
      }
    }
  }

  /** The largest boundary at or below `i`: `while !is_char_boundary(i) { i -= 1 }`. */
  function Floor(t: Bytes, i: nat): (r: nat)
    requires i <= |t|
    ensures r <= i && Boundary(t, r)
    ensures forall k :: r < k <= i ==> !Boundary(t, k)
  {
    if Boundary(t, i) then i else Floor(t, i - 1)
  }

  /** The smallest boundary at or above `i`: `while !is_char_boundary(i) { i += 1 }`. */
  function Ceil(t: Bytes, i: nat): (r: nat)
    requires i <= |t|
    ensures i <= r <= |t| && Boundary(t, r)
    ensures forall k :: i <= k < r ==> !Boundary(t, k)
    decreases |t| - i
  {
    if Boundary(t, i) then i else Ceil(t, i + 1)
  }

  lemma FloorIsNear(t: Bytes, i: nat)
    requires Bounded(t) && i <= |t|
    ensures i <= Floor(t, i) + 3
  {
    assert !FourInARow(t, i - 3);
    assert i < 3 || Boundary(t, i) || Boundary(t, i - 1) || Boundary(t, i - 2) || Boundary(t, i - 3);
  }

  lemma CeilIsNear(t: Bytes, i: nat)
    requires Bounded(t) && i <= |t|
    ensures Ceil(t, i) <= i + 3
  {
    assert !FourInARow(t, i);
    assert i + 3 > |t| || Boundary(t, i) || Boundary(t, i + 1) || Boundary(t, i + 2) || Boundary(t, i + 3);
  }

  lemma WidthOfPrefix(t: Bytes, i: nat)
    requires 0 < Width(t) <= i <= |t|
    ensures Width(t[..i]) == Width(t)
  {
  }

  lemma BoundaryPastFirst(t: Bytes, i: nat)
    requires 0 < Width(t) && 0 < i <= |t| && Boundary(t, i)
    ensures Width(t) <= i && Boundary(t[Width(t)..], i - Width(t))
  {
  }

  lemma ValidFromFirst(t: Bytes, w: nat)
    requires 0 < w <= |t| && Width(t) == w && Valid(t[w..])
    ensures Valid(t)
  {
  }

  /** Cutting at a boundary leaves valid text on both sides. */
  lemma {:induction false} CutIsValid(t: Bytes, i: nat)
    requires Valid(t) && i <= |t| && Boundary(t, i)
    ensures Valid(t[..i]) && Valid(t[i..])
    decreases |t|
  {
    if i == 0 {
      assert t[..i] == [] && t[i..] == t;
    } else {
      var w := Width(t);
      BoundaryPastFirst(t, i);
      CutIsValid(t[w..], i - w);
      WidthOfPrefix(t, i);
      assert t[..i][w..] == t[w..][..i - w];
      ValidFromFirst(t[..i], w);
      assert t[i..] == t[w..][i - w..];
    }
  }
}
