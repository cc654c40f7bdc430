/** Start-up validation of the `-d` algorithm flag. */
module Algorithm {
  import opened Wrappers
  import opened GoStrings

  /** The seven supported hash algorithms. */
  datatype Algorithm = BLAKE2 | MD5 | SHA1 | SHA224 | SHA256 | SHA384 | SHA512

  /** The upper-case name under which an algorithm is selected. */
  function Name(a: Algorithm): string
  {
    match a
    case BLAKE2 => "BLAKE2"
    case MD5 => "MD5"
    case SHA1 => "SHA1"
    case SHA224 => "SHA224"
    case SHA256 => "SHA256"
    case SHA384 => "SHA384"
    case SHA512 => "SHA512"
  }

  /** The accepted names, in the order the program lists them. */
  const Supported: seq<string> := ["BLAKE2", "MD5", "SHA1", "SHA224", "SHA256", "SHA384", "SHA512"]

  /** The value of `-d` when the flag is not given. */
  const DefaultFlag: string := "SHA256"

  /** The message printed, before a clean exit, for an unsupported name. */
  const InvalidMessage: string := "invalid hash algorithm"

  /** The program's generic `contains`: scans `s` from the front and stops at the first element equal to `e`. */
  function Contains<K(==)>(s: seq<K>, e: K): (r: bool)
    ensures r <==> exists i :: 0 <= i < |s| && s[i] == e
  {
    if |s| == 0 then false
    else if s[0] == e then true
    else
      var r := Contains(s[1..], e);
      assert r ==> exists i :: 0 <= i < |s| && s[i] == e by {
        if r {
          var j :| 0 <= j < |s[1..]| && s[1..][j] == e;
          assert s[j + 1] == e;
        }
      }
      r
  }

  /** The algorithm an upper-case name selects, if it is one of the seven. */
  function Lookup(upper: string): (r: Option<Algorithm>)
    ensures r.Some? ==> Name(r.value) == upper
    ensures r.None? ==> forall a :: Name(a) != upper
  {
    if upper == "BLAKE2" then Some(BLAKE2)
    else if upper == "MD5" then Some(MD5)
    else if upper == "SHA1" then Some(SHA1)
    else if upper == "SHA224" then Some(SHA224)
    else if upper == "SHA256" then Some(SHA256)
    else if upper == "SHA384" then Some(SHA384)
    else if upper == "SHA512" then Some(SHA512)
    else None
  }

  /** The names of the algorithms are exactly the supported list. */
  lemma SupportedAreNames()
    ensures forall a :: Name(a) in Supported
    ensures forall n :: n in Supported ==> Lookup(n).Some?
  {
  }

  /** The flag is upper-cased and accepted exactly when the result is in the
      supported list; the selected algorithm carries that name, and a rejected
      flag yields the invalid-algorithm message. */
  function Validate(flag: string): (r: Result<Algorithm, string>)
    ensures r.Success? <==> ToUpper(flag) in Supported
    ensures r.Success? ==> Name(r.value) == ToUpper(flag)
    ensures r.Failure? ==> r.error == InvalidMessage
  {
    var upper := ToUpper(flag);
    if !Contains(Supported, upper) then Failure(InvalidMessage)
    else
      match Lookup(upper)
      case Some(a) => Success(a)
      case None => Failure(InvalidMessage)
  }

  /** Acceptance depends only on the upper-cased flag: names differing only in
      the case of ASCII letters are treated alike. */
  lemma {:induction false} ValidateIgnoresCase(a: string, b: string)
    requires |a| == |b|
    requires forall i :: 0 <= i < |a| ==> UpperChar(a[i]) == UpperChar(b[i])
    ensures Validate(a) == Validate(b)
  {
    assert ToUpper(a) == ToUpper(b);
  }

  /** Every algorithm is accepted under its own name. */
  lemma ValidateAcceptsEveryName(a: Algorithm)
    ensures Validate(Name(a)) == Success(a)
  {
    var n := Name(a);
    NameIsUpper(a);
    UpperFixed(n);
    assert n in Supported;
    var r := Validate(n);
    NameInjective(r.value, a);
  }

  /** No algorithm name contains a lower-case letter. */
  lemma NameIsUpper(a: Algorithm)
    ensures forall i :: 0 <= i < |Name(a)| ==> !('a' <= Name(a)[i] <= 'z')
  {
    match a
    case BLAKE2 =>
    case MD5 =>
    case SHA1 =>
    case SHA224 =>
    case SHA256 =>
    case SHA384 =>
    case SHA512 =>
  }

  /** A text with no lower-case ASCII letter is its own upper-casing. */
  lemma UpperFixed(s: string)
    requires forall i :: 0 <= i < |s| ==> !('a' <= s[i] <= 'z')
    ensures ToUpper(s) == s
  {
  }

  /** Distinct algorithms have distinct names. */
  lemma NameInjective(a: Algorithm, b: Algorithm)
    requires Name(a) == Name(b)
    ensures a == b
  {
  }

  /** The default flag, and its lower-case spelling, select SHA-256. */
  lemma ValidateDefault()
    ensures Validate(DefaultFlag) == Success(SHA256)
    ensures Validate("sha256") == Success(SHA256)
  {
    ValidateAcceptsEveryName(SHA256);
    var lower := "sha256";
    assert forall i :: 0 <= i < |lower| ==> UpperChar(lower[i]) == DefaultFlag[i];
    ValidateIgnoresCase(lower, DefaultFlag);
  }

  /** A name outside the seven is refused with the invalid-algorithm message. */
  lemma ValidateRejectsUnknown()
    ensures Validate("FOO") == Failure(InvalidMessage)
    ensures Validate("") == Failure(InvalidMessage)
  {
    UpperFixed("FOO");
  }
}
