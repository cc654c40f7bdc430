/** The two-column sum-file line: `<digest>  <path>`, as written by the tree
    walker and read back by the verifier. */
module SumFormat {
  import opened Wrappers
  import opened GoStrings

  /** The column separator: two spaces. */
  const Sep: string := "  "

  /** `calcsum(path, algo)` for the algorithm chosen at startup: the lowercase
      hex digest of the file, or "" when the file cannot be opened. */
  type Calcsum = string -> string

  /** One parsed line: the expected digest and the path it refers to. */
  datatype Record = Record(expected: string, path: string)

  /** The text contains no space character (true of any hex digest, and of ""). */
  predicate NoSpace(d: string) {
    forall i :: 0 <= i < |d| ==> d[i] != ' '
  }

  /** The line the tree walker prints for one non-directory entry. */
  function FormatLine(digest: string, path: string): string
  {
    digest + Sep + path
  }

  /** The lines the tree walker prints for `files`, in walk order. */
  function Generate(calcsum: Calcsum, files: seq<string>): seq<string>
  {
    seq(|files|, i requires 0 <= i < |files| => FormatLine(calcsum(files[i]), files[i]))
  }

  /** The first piece of a split is the text before the first separator, and
      joining the other pieces gives back the text after it. */
  lemma SplitFirstCut(s: string, sep: string)
    requires |sep| > 0
    ensures Index(s, sep).None? ==> Split(s, sep) == [s]
    ensures Index(s, sep).Some? ==>
      var m := Index(s, sep).value;
      && Split(s, sep)[0] == s[..m]
      && Join(Split(s, sep)[1..], sep) == s[m + |sep|..]
  {
    match Index(s, sep)
    case None =>
    case Some(m) =>
      var rest := s[m + |sep|..];
      assert Split(s, sep) == [s[..m]] + Split(rest, sep);
      assert Split(s, sep)[1..] == Split(rest, sep);
      JoinSplit(rest, sep);
  }

  /** The verifier's reading of one line: split at every separator, take the
      first piece as the expected digest and re-join the rest as the path. */
  function ParseLine(line: string): Record
  {
    var parts := Split(line, Sep);
    Record(parts[0], Join(parts[1..], Sep))
  }

  /** A line without a separator is all expected digest with an empty path;
      otherwise the line is the expected digest, the separator and the path,
      cut at the first separator. */
  lemma ParseLineCuts(line: string)
    ensures Free(line, Sep) ==> ParseLine(line) == Record(line, "")
    ensures !Free(line, Sep) ==> line == ParseLine(line).expected + Sep + ParseLine(line).path
    ensures forall k :: 0 <= k < |ParseLine(line).expected| ==> !OccursAt(line, Sep, k)
  {
    SplitFirstCut(line, Sep);
  }

  /** In a generated line whose digest has no space, the first separator
      starts right after the digest. */
  lemma FirstSepAfterDigest(digest: string, path: string)
    requires NoSpace(digest)
    ensures OccursAt(FormatLine(digest, path), Sep, |digest|)
    ensures forall k :: 0 <= k < |digest| ==> !OccursAt(FormatLine(digest, path), Sep, k)
  {
    var line := FormatLine(digest, path);
    assert line[|digest|..|digest| + 2] == Sep;
    forall k | 0 <= k < |digest|
      ensures !OccursAt(line, Sep, k)
    {
      assert line[k] == digest[k];
    }
  }

  /** Reading back a generated line recovers its digest and its path, whatever
      the path contains (double spaces included), provided the digest holds no space. */
  lemma ParseFormat(digest: string, path: string)
    requires NoSpace(digest)
    ensures ParseLine(FormatLine(digest, path)) == Record(digest, path)
  {
    var line := FormatLine(digest, path);
    var r := ParseLine(line);
    ParseLineCuts(line);
    FirstSepAfterDigest(digest, path);
    assert !Free(line, Sep);
    assert line == r.expected + Sep + r.path;
    assert OccursAt(line, Sep, |r.expected|) by {
      assert line[|r.expected|..|r.expected| + 2] == Sep;
    }
    assert |r.expected| == |digest|;
    assert r.expected == line[..|digest|] == digest;
    assert r.path == line[|digest| + 2..] == path;
  }

  /** Every line of generated output reads back as the file it was made for. */
  lemma ParseGenerated(calcsum: Calcsum, files: seq<string>, i: int)
    requires 0 <= i < |files|
    requires NoSpace(calcsum(files[i]))
    ensures ParseLine(Generate(calcsum, files)[i]) == Record(calcsum(files[i]), files[i])
  {
    ParseFormat(calcsum(files[i]), files[i]);
  }
}
