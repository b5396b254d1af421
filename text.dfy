/** String helpers that stand for the Python built-ins the council code relies on:
    substring search (`in`, `str.split`), `str.join` and `str.strip`. */
module Text {
  import opened Wrappers

  /** The characters for which Python's `str.isspace()` holds. They are what `\s` matches in a
      `str` pattern and what `str.strip()` with no argument removes. */
  predicate IsWhitespace(c: char)
  {
    || '\t' <= c <= '\r'
    || '\U{001C}' <= c <= ' '
    || c == '\U{0085}' || c == '\U{00A0}' || c == '\U{1680}'
    || '\U{2000}' <= c <= '\U{200A}'
    || c == '\U{2028}' || c == '\U{2029}' || c == '\U{202F}' || c == '\U{205F}' || c == '\U{3000}'
  }

  /** `t` occurs in `s` starting at index `i`. */
  predicate OccursAt(s: string, t: string, i: nat)
  {
    i + |t| <= |s| && s[i..i + |t|] == t
  }

  /** The leftmost occurrence of `t` in `s` at or after index `i` (what `str.find` computes). */
  function FindFrom(s: string, t: string, i: nat): (r: Option<nat>)
    requires i <= |s|
    ensures r.None? ==> forall j :: i <= j ==> !OccursAt(s, t, j)
    ensures r.Some? ==> i <= r.value <= |s| && OccursAt(s, t, r.value)
    ensures r.Some? ==> forall j :: i <= j < r.value ==> !OccursAt(s, t, j)
    decreases |s| - i
  {
    if OccursAt(s, t, i) then Some(i)
    else if i == |s| then None
    else FindFrom(s, t, i + 1)
  }

  /** `sep.join(parts)`. */
  function Join(sep: string, parts: seq<string>): string
  {
    if |parts| == 0 then ""
    else if |parts| == 1 then parts[0]
    else parts[0] + sep + Join(sep, parts[1..])
  }

  /** Where the `k`-th part begins in the joined string: the lengths of the parts before it,
      each followed by one separator. */
  function PartOffset(sep: string, parts: seq<string>, k: nat): nat
    requires k <= |parts|
  {
    if k == 0 then 0 else PartOffset(sep, parts, k - 1) + |parts[k - 1]| + |sep|
  }

  lemma {:induction false} PartOffsetShift(sep: string, parts: seq<string>, k: nat)
    requires 1 <= k <= |parts|
    ensures PartOffset(sep, parts, k) == |parts[0]| + |sep| + PartOffset(sep, parts[1..], k - 1)
  {
    if k > 1 {
      PartOffsetShift(sep, parts, k - 1);
      assert parts[1..][k - 2] == parts[k - 1];
    }
  }

  /** Slicing past a prefix. */
  lemma SliceAfter(a: string, b: string, i: nat, j: nat)
    requires i <= j <= |b|
    ensures (a + b)[|a| + i..|a| + j] == b[i..j]
  {
    assert forall k :: 0 <= k < j - i ==> (a + b)[|a| + i..|a| + j][k] == b[i..j][k];
  }

  /** The parts of a join of at least two parts: the first, a separator, the join of the rest. */
  lemma JoinCons(sep: string, parts: seq<string>)
    requires |parts| >= 2
    ensures Join(sep, parts) == parts[0] + (sep + Join(sep, parts[1..]))
  {
  }

  /** The `k`-th part stands in the joined string at its offset. */
  lemma {:induction false} JoinPartAt(sep: string, parts: seq<string>, k: nat)
    requires k < |parts|
    ensures PartOffset(sep, parts, k) + |parts[k]| <= |Join(sep, parts)|
    ensures Join(sep, parts)[PartOffset(sep, parts, k)..PartOffset(sep, parts, k) + |parts[k]|] == parts[k]
  {
    if |parts| > 1 {
      JoinCons(sep, parts);
      var rest := Join(sep, parts[1..]);
      if k == 0 {
        assert (parts[0] + (sep + rest))[..|parts[0]|] == parts[0];
      } else {
        JoinPartAt(sep, parts[1..], k - 1);
        PartOffsetShift(sep, parts, k);
        assert parts[1..][k - 1] == parts[k];
        var o := PartOffset(sep, parts[1..], k - 1);
        SliceAfter(sep, rest, o, o + |parts[k]|);
        SliceAfter(parts[0], sep + rest, |sep| + o, |sep| + o + |parts[k]|);
      }
    }
  }

  /** One separator follows every part but the last, and the next part begins after it. */
  lemma {:induction false} JoinSeparatorAfter(sep: string, parts: seq<string>, k: nat)
    requires k + 1 < |parts|
    ensures PartOffset(sep, parts, k + 1) <= |Join(sep, parts)|
    ensures Join(sep, parts)[PartOffset(sep, parts, k) + |parts[k]|..PartOffset(sep, parts, k + 1)] == sep
  {
    JoinCons(sep, parts);
    var rest := Join(sep, parts[1..]);
    var p0 := parts[0];
    if k == 0 {
      assert PartOffset(sep, parts, 1) == |p0| + |sep|;
      SliceAfter(p0, sep + rest, 0, |sep|);
      assert (sep + rest)[0..|sep|] == sep;
    } else {
      JoinSeparatorAfter(sep, parts[1..], k - 1);
      PartOffsetShift(sep, parts, k);
      PartOffsetShift(sep, parts, k + 1);
      assert parts[1..][k - 1] == parts[k];
      var o := PartOffset(sep, parts[1..], k - 1) + |parts[k]|;
      var o' := PartOffset(sep, parts[1..], k);
      assert rest[o..o'] == sep;
      SliceAfter(sep, rest, o, o');
      SliceAfter(p0, sep + rest, |sep| + o, |sep| + o');
    }
  }

  /** Nothing follows the last part. */
  lemma {:induction false} JoinEndsWithLast(sep: string, parts: seq<string>)
    requires |parts| > 0
    ensures PartOffset(sep, parts, |parts| - 1) + |parts[|parts| - 1]| == |Join(sep, parts)|
  {
    if |parts| > 1 {
      JoinCons(sep, parts);
      JoinEndsWithLast(sep, parts[1..]);
      PartOffsetShift(sep, parts, |parts| - 1);
      assert parts[1..][|parts| - 2] == parts[|parts| - 1];
    }
  }

  /** How many leading characters of `s` are that `drop` holds of. */
  function LeadingIn(s: string, drop: char -> bool, i: nat): (j: nat)
    requires i <= |s|
    requires forall k :: 0 <= k < i ==> drop(s[k])
    ensures i <= j <= |s|
    ensures forall k :: 0 <= k < j ==> drop(s[k])
    ensures j == |s| || !drop(s[j])
    decreases |s| - i
  {
    if i < |s| && drop(s[i]) then LeadingIn(s, drop, i + 1) else i
  }

  /** Where the run of trailing characters of `s` that are that `drop` holds of begins, not looking before `lo`. */
  function TrailingFrom(s: string, drop: char -> bool, lo: nat, j: nat): (r: nat)
    requires lo <= j <= |s|
    requires forall k :: j <= k < |s| ==> drop(s[k])
    ensures lo <= r <= j
    ensures forall k :: r <= k < |s| ==> drop(s[k])
    ensures r == lo || !drop(s[r - 1])
    decreases j
  {
    if lo < j && drop(s[j - 1]) then TrailingFrom(s, drop, lo, j - 1) else j
  }

  /** `s.strip(chars)`: `s` without the leading and trailing characters `drop` holds of. */
  function Strip(s: string, drop: char -> bool): (r: string)
    ensures r == [] || (!drop(r[0]) && !drop(r[|r| - 1]))
    ensures exists i, j ::
      && 0 <= i <= j <= |s| && r == s[i..j]
      && (forall k :: 0 <= k < i ==> drop(s[k]))
      && (forall k :: j <= k < |s| ==> drop(s[k]))
  {
    var i := LeadingIn(s, drop, 0);
    var j := TrailingFrom(s, drop, i, |s|);
    assert 0 <= i <= j <= |s| && s[i..j] == s[i..j];
    s[i..j]
  }

  /** A piece cut from a piece of `s`, each cut dropping only characters that `first` or
      `second` holds of, is a piece of `s` whose ends were cut in the same way. */
  lemma PieceOfPiece(s: string, i1: nat, j1: nat, i2: nat, j2: nat, first: char -> bool, second: char -> bool)
    requires i1 <= j1 <= |s| && i2 <= j2 <= j1 - i1
    requires forall k :: 0 <= k < i1 ==> first(s[k])
    requires forall k :: j1 <= k < |s| ==> first(s[k])
    requires forall k :: 0 <= k < i2 ==> second(s[i1..j1][k])
    requires forall k :: j2 <= k < j1 - i1 ==> second(s[i1..j1][k])
    ensures s[i1..j1][i2..j2] == s[i1 + i2..i1 + j2]
    ensures forall k :: 0 <= k < i1 + i2 ==> first(s[k]) || second(s[k])
    ensures forall k :: i1 + j2 <= k < |s| ==> first(s[k]) || second(s[k])
  {
    var once := s[i1..j1];
    assert forall k :: 0 <= k < j2 - i2 ==> once[i2..j2][k] == s[i1 + i2 + k];
    forall k | 0 <= k < i1 + i2 ensures first(s[k]) || second(s[k]) {
      if k >= i1 {
        assert s[k] == once[k - i1];
      }
    }
    forall k | i1 + j2 <= k < |s| ensures first(s[k]) || second(s[k]) {
      if k < j1 {
        assert s[k] == once[k - i1];
      }
    }
  }

  /** Stripping twice leaves a piece of `s`, with only characters that one of the two
      strips drops cut from either end. */
  lemma StripTwice(s: string, first: char -> bool, second: char -> bool)
    ensures exists i, j ::
      && 0 <= i <= j <= |s| && Strip(Strip(s, first), second) == s[i..j]
      && (forall k :: 0 <= k < i ==> first(s[k]) || second(s[k]))
      && (forall k :: j <= k < |s| ==> first(s[k]) || second(s[k]))
  {
    var i1 := LeadingIn(s, first, 0);
    var j1 := TrailingFrom(s, first, i1, |s|);
    var once := s[i1..j1];
    var i2 := LeadingIn(once, second, 0);
    var j2 := TrailingFrom(once, second, i2, |once|);
    PieceOfPiece(s, i1, j1, i2, j2, first, second);
  }
}
