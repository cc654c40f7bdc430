/** The subset of Go's `strings` package that the checksum tool relies on:
    `Index`, `Split`, `Join` and an ASCII `ToUpper`. */
module GoStrings {
  import opened Wrappers

  /** `sep` occurs in `s` starting at position `k`. */
  predicate OccursAt(s: string, sep: string, k: int) {
    0 <= k && k + |sep| <= |s| && s[k..k + |sep|] == sep
  }

  /** `sep` occurs nowhere in `s`. */
  predicate Free(s: string, sep: string) {
    forall k :: 0 <= k <= |s| ==> !OccursAt(s, sep, k)
  }

  /** The first position at or after `i` where `sep` occurs in `s`. */
  function IndexFrom(s: string, sep: string, i: nat): (r: Option<nat>)
    requires i <= |s|
    ensures r.Some? ==> i <= r.value && OccursAt(s, sep, r.value)
    ensures r.Some? ==> forall k :: i <= k < r.value ==> !OccursAt(s, sep, k)
    ensures r.None? ==> forall k :: i <= k ==> !OccursAt(s, sep, k)
    decreases |s| - i
  {
    if OccursAt(s, sep, i) then Some(i)
    else if |s| <= i + |sep| then None
    else IndexFrom(s, sep, i + 1)
  }

  /** Go's `strings.Index`: the first occurrence of `sep` in `s`, if any. */
  function Index(s: string, sep: string): (r: Option<nat>)
    ensures r.None? <==> Free(s, sep)
    ensures r.Some? ==> OccursAt(s, sep, r.value)
    ensures r.Some? ==> forall k :: 0 <= k < r.value ==> !OccursAt(s, sep, k)
  {
    IndexFrom(s, sep, 0)
  }

  /** A prefix of `s` that ends before the first occurrence of `sep` holds no occurrence. */
  lemma PrefixBeforeFirstIsFree(s: string, sep: string, m: nat)
    requires m <= |s|
    requires forall k :: 0 <= k < m ==> !OccursAt(s, sep, k)
    requires |sep| > 0
    ensures Free(s[..m], sep)
  {
    forall k | OccursAt(s[..m], sep, k)
      ensures false
    {
      assert s[..m][k..k + |sep|] == s[k..k + |sep|];
      assert OccursAt(s, sep, k);
    }
  }

  /** Go's `strings.Split` for a non-empty separator: cut `s` at every
      occurrence of `sep`, scanning left to right. */
  function Split(s: string, sep: string): (r: seq<string>)
    requires |sep| > 0
    ensures |r| >= 1
    decreases |s|
  {
    match Index(s, sep)
    case None => [s]
    case Some(m) => [s[..m]] + Split(s[m + |sep|..], sep)
  }

  /** `Split` cuts exactly at the separators: it yields one piece precisely when
      `sep` does not occur, and no piece contains `sep`. */
  lemma {:induction false} SplitPiecesFree(s: string, sep: string)
    requires |sep| > 0
    ensures |Split(s, sep)| == 1 <==> Free(s, sep)
    ensures forall j :: 0 <= j < |Split(s, sep)| ==> Free(Split(s, sep)[j], sep)
    decreases |s|
  {
    match Index(s, sep)
    case None =>
    case Some(m) =>
      var rest := s[m + |sep|..];
      PrefixBeforeFirstIsFree(s, sep, m);
      SplitPiecesFree(rest, sep);
      var parts := Split(s, sep);
      assert parts == [s[..m]] + Split(rest, sep);
      forall j | 0 <= j < |parts|
        ensures Free(parts[j], sep)
      {
        if j > 0 {
          assert parts[j] == Split(rest, sep)[j - 1];
        }
      }
  }

  /** Go's `strings.Join`: the parts with `sep` between consecutive ones. */
  function Join(parts: seq<string>, sep: string): string
  {
    if |parts| == 0 then ""
    else if |parts| == 1 then parts[0]
    else parts[0] + sep + Join(parts[1..], sep)
  }

  /** Splitting and re-joining with the same separator gives back the input. */
  lemma {:induction false} JoinSplit(s: string, sep: string)
    requires |sep| > 0
    ensures Join(Split(s, sep), sep) == s
    decreases |s|
  {
    match Index(s, sep)
    case None =>
    case Some(m) =>
      var rest := s[m + |sep|..];
      var parts := Split(s, sep);
      assert parts == [s[..m]] + Split(rest, sep);
      assert parts[1..] == Split(rest, sep);
      JoinSplit(rest, sep);
      assert Join(parts, sep) == s[..m] + sep + rest;
      assert s[m..m + |sep|] == sep;
      assert s == s[..m] + s[m..m + |sep|] + rest;
  }

  /** Upper-cases one ASCII letter; every other character is unchanged. */
  function UpperChar(c: char): char
  {
    if 'a' <= c <= 'z' then (c as int - 32) as char else c
  }

  /** ASCII restriction of Go's `strings.ToUpper`. */
  function ToUpper(s: string): (r: string)
    ensures |r| == |s|
    ensures forall i :: 0 <= i < |s| ==> r[i] == UpperChar(s[i])
  {
    if |s| == 0 then "" else [UpperChar(s[0])] + ToUpper(s[1..])
  }

  /** The result of `ToUpper` holds no lower-case ASCII letter, so upper-casing twice changes nothing. */
  lemma ToUpperIdempotent(s: string)
    ensures forall i :: 0 <= i < |s| ==> !('a' <= ToUpper(s)[i] <= 'z')
    ensures ToUpper(ToUpper(s)) == ToUpper(s)
  {
    var u := ToUpper(s);
    forall i | 0 <= i < |s|
      ensures !('a' <= u[i] <= 'z') && UpperChar(u[i]) == u[i]
    {
      assert u[i] == UpperChar(s[i]);
    }
    assert ToUpper(u) == u;
  }
}
