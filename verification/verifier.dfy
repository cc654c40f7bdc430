/** The sum-file verifier (`-c`): reads a previously generated sum file line
    by line, recomputes each listed file's digest and reports OK / FAILED per
    line, followed by up to two summary warnings. */
module Verifier {
  import opened Wrappers
  import opened GoStrings
  import opened SumFormat

  /** The `--quiet` and `--ignore-missing` flags. */
  datatype Params = Params(quiet: bool, ignoreMissing: bool)

  /** One line of the verifier's standard output; `Text` gives its wording. */
  datatype Output =
    | Ok(path: string)
    | Failed(path: string)
    | FailedOpen(path: string)
    | UnreadWarning(count: nat)
    | MismatchWarning(count: nat)
    | SumFileError

  /** The verifier's state while it folds over the lines: what it has printed
      and its two counters. */
  datatype Tally = Tally(log: seq<Output>, failCount: nat, failRead: nat)

  /** The state before the first line. */
  const Start: Tally := Tally([], 0, 0)

  /** Decimal rendering of a count, as `fmt.Println` prints an `int`: a
      non-empty string of digits without a leading zero. */
  function Decimal(n: nat): (r: string)
    ensures |r| > 0 && IsDigits(r)
    ensures r[0] == '0' ==> n == 0
  {
    if n < 10 then ["0123456789"[n]] else Decimal(n / 10) + ["0123456789"[n % 10]]
  }

  predicate IsDigits(s: string)
  {
    forall i :: 0 <= i < |s| ==> '0' <= s[i] <= '9'
  }

  /** The value of a string of decimal digits, most significant first. */
  function DecimalValue(s: string): nat
    requires IsDigits(s)
  {
    if |s| == 0 then 0
    else 10 * DecimalValue(s[..|s| - 1]) + (s[|s| - 1] as int - '0' as int)
  }

  /** Reading back the rendered count gives the count: the warning lines
      report the counters exactly. */
  lemma {:induction false} DecimalRoundTrip(n: nat)
    ensures DecimalValue(Decimal(n)) == n
  {
    var d := Decimal(n);
    if n >= 10 {
      DecimalRoundTrip(n / 10);
      assert d[..|d| - 1] == Decimal(n / 10);
    }
  }

  /** The text of one output line, without its newline. */
  function Text(o: Output): string
  {
    match o
    case Ok(path) => path + ": OK"
    case Failed(path) => path + ": FAILED"
    case FailedOpen(path) => path + ": FAILED open or read"
    case UnreadWarning(n) => "gensum: WARNING: " + Decimal(n) + " listed file could not be read"
    case MismatchWarning(n) => "gensum: WARNING: " + Decimal(n) + " computed checksums did NOT match"
    case SumFileError => "error opening sum file"
  }

  /** The last character of a printed line tells its kind apart, except that
      a `FAILED open or read` line and the could-not-be-read warning both end
      in `read`; their seventh character from the end differs. */
  lemma TextEnding(o: Output)
    ensures var t := Text(o);
      && |t| >= 4
      && (t[|t| - 1] == 'K' <==> o.Ok?)
      && (t[|t| - 1] == 'D' <==> o.Failed?)
      && (t[|t| - 1] == 'h' <==> o.MismatchWarning?)
      && (t[|t| - 1] == 'e' <==> o.SumFileError?)
      && (t[|t| - 1] == 'd' <==> o.FailedOpen? || o.UnreadWarning?)
      && (t[|t| - 1] == 'd' ==> |t| >= 7 && (t[|t| - 7] == 'o' <==> o.FailedOpen?))
  {
  }

  /** Distinct events print distinct lines: the printed text determines the
      event, its path and its count. */
  lemma TextInjective(a: Output, b: Output)
    ensures Text(a) == Text(b) ==> a == b
  {
    if Text(a) == Text(b) {
      var t := Text(a);
      TextEnding(a);
      TextEnding(b);
      match a
      case Ok(p) =>
        assert p == t[..|t| - 4] == b.path;
      case Failed(p) =>
        assert p == t[..|t| - 8] == b.path;
      case FailedOpen(p) =>
        assert p == t[..|t| - 21] == b.path;
      case UnreadWarning(n) =>
        assert Decimal(n) == t[17..|t| - 30] == Decimal(b.count);
        DecimalRoundTrip(n);
        DecimalRoundTrip(b.count);
      case MismatchWarning(n) =>
        assert Decimal(n) == t[17..|t| - 33] == Decimal(b.count);
        DecimalRoundTrip(n);
        DecimalRoundTrip(b.count);
      case SumFileError =>
    }
  }


  /** Every line of the sum file, parsed. */
  function Records(lines: seq<string>): (recs: seq<Record>)
    ensures |recs| == |lines|
  {
    seq(|lines|, i requires 0 <= i < |lines| => ParseLine(lines[i]))
  }

  /** The body of the scan loop for one parsed line: recompute the digest of
      its path, print according to the flags and update the counters. An
      empty recomputed digest means the file could not be opened. */
  function Step(p: Params, calcsum: Calcsum, t: Tally, rec: Record): (r: Tally)
    ensures |t.log| <= |r.log| <= |t.log| + 1
    ensures r.failCount == t.failCount <==> rec.expected == calcsum(rec.path)
    ensures r.failCount <= t.failCount + 1
    ensures t.failRead <= r.failRead && r.failRead - t.failRead <= r.failCount - t.failCount
  {
    var hash := calcsum(rec.path);
    if rec.expected == hash then
      Tally(t.log + (if p.quiet then [] else [Ok(rec.path)]), t.failCount, t.failRead)
    else if hash == "" then
      Tally(t.log + (if p.ignoreMissing then [] else [FailedOpen(rec.path)]), t.failCount + 1, t.failRead + 1)
    else
      Tally(t.log + [Failed(rec.path)], t.failCount + 1, t.failRead)
  }

  /** The scan loop over the remaining lines. Each line prints at most one
      output line, adds at most one failure, and adds an unreadable file only
      together with a failure. */
  function Scan(p: Params, calcsum: Calcsum, t: Tally, recs: seq<Record>): (r: Tally)
    ensures t.failCount <= r.failCount <= t.failCount + |recs|
    ensures t.failRead <= r.failRead
    ensures r.failRead - t.failRead <= r.failCount - t.failCount
    ensures |t.log| <= |r.log| <= |t.log| + |recs|
    decreases |recs|
  {
    if |recs| == 0 then t
    else Scan(p, calcsum, Step(p, calcsum, t, recs[0]), recs[1..])
  }

  /** The summary warnings printed after the last line: at most two, and
      only warnings. */
  function Warnings(p: Params, failRead: nat, failCount: nat): (r: seq<Output>)
    ensures |r| <= 2
    ensures forall x :: x in r ==> x.UnreadWarning? || x.MismatchWarning?
  {
    (if failRead > 0 && !p.ignoreMissing then [UnreadWarning(failRead)] else [])
    + (if failCount > 0 then [MismatchWarning(failCount)] else [])
  }

  /** Verification of the lines of an opened sum file: the scan from the
      start state followed by the warnings. */
  function Verify(p: Params, calcsum: Calcsum, lines: seq<string>): (r: Tally)
    ensures r.failRead <= r.failCount <= |lines|
    ensures |r.log| <= |lines| + 2
  {
    var s := Scan(p, calcsum, Start, Records(lines));
    Tally(s.log + Warnings(p, s.failRead, s.failCount), s.failCount, s.failRead)
  }

  /** `compareSums`: a sum file that cannot be opened yields only the error
      line; otherwise its lines are verified. */
  function CompareSums(p: Params, calcsum: Calcsum, sumFile: Option<seq<string>>): seq<Output>
  {
    match sumFile
    case None => [SumFileError]
    case Some(lines) => Verify(p, calcsum, lines).log
  }

  // ---------------------------------------------------------------------
  // Reference description: each record's outcome and what it prints.
  // ---------------------------------------------------------------------

  /** The classification of one record. */
  datatype Outcome = Match | Mismatch | Unreadable

  /** The outcome of a record, given the recomputed digest of its path. The
      comparison comes first, so an empty expected digest matches an
      unreadable file. */
  function OutcomeOf(calcsum: Calcsum, rec: Record): Outcome
  {
    var computed := calcsum(rec.path);
    if rec.expected == computed then Match
    else if computed == "" then Unreadable
    else Mismatch
  }

  /** The outcomes of all records, in order. */
  function Outcomes(calcsum: Calcsum, recs: seq<Record>): (os: seq<Outcome>)
    ensures |os| == |recs|
  {
    seq(|recs|, i requires 0 <= i < |recs| => OutcomeOf(calcsum, recs[i]))
  }

  /** How many records have outcome `o`. */
  function Count(calcsum: Calcsum, recs: seq<Record>, o: Outcome): nat
  {
    multiset(Outcomes(calcsum, recs))[o]
  }

  /** What one record prints: `quiet` silences only a match, `ignoreMissing`
      silences only an unreadable file, and a mismatch is always reported. */
  function Report(p: Params, o: Outcome, path: string): (r: seq<Output>)
    ensures |r| <= 1
    ensures r == [] <==> (o == Match && p.quiet) || (o == Unreadable && p.ignoreMissing)
    ensures forall x :: x in r ==> (x.Ok? || x.Failed? || x.FailedOpen?) && x.path == path
    ensures forall x :: x in r ==> (x.Ok? <==> o == Match)
    ensures forall x :: x in r ==> (x.Failed? <==> o == Mismatch)
    ensures forall x :: x in r ==> (x.FailedOpen? <==> o == Unreadable)
  {
    match o
    case Match => if p.quiet then [] else [Ok(path)]
    case Unreadable => if p.ignoreMissing then [] else [FailedOpen(path)]
    case Mismatch => [Failed(path)]
  }

  /** The per-record output of all records, in order. */
  function Reports(p: Params, calcsum: Calcsum, recs: seq<Record>): seq<Output>
    decreases |recs|
  {
    if |recs| == 0 then []
    else Report(p, OutcomeOf(calcsum, recs[0]), recs[0].path) + Reports(p, calcsum, recs[1..])
  }

  /** Every record matches its recomputed digest. */
  predicate AllMatch(calcsum: Calcsum, recs: seq<Record>) {
    forall i :: 0 <= i < |recs| ==> OutcomeOf(calcsum, recs[i]) == Match
  }

  /** The events of `log` that satisfy `keep`, in order. */
  function Filter(log: seq<Output>, keep: Output -> bool): seq<Output>
  {
    if |log| == 0 then []
    else (if keep(log[0]) then [log[0]] else []) + Filter(log[1..], keep)
  }

  /** Keeps every event except `<path>: OK` lines. */
  function NotOk(x: Output): bool { !x.Ok? }

  /** Keeps every event except the unreadable-file line and warning. */
  function NotMissingReport(x: Output): bool { !x.FailedOpen? && !x.UnreadWarning? }

  /** Filtering keeps exactly the events that satisfy `keep`. */
  lemma {:induction false} FilterKeeps(log: seq<Output>, keep: Output -> bool, x: Output)
    ensures x in Filter(log, keep) <==> x in log && keep(x)
    decreases |log|
  {
    if |log| > 0 {
      FilterKeeps(log[1..], keep, x);
      assert log == [log[0]] + log[1..];
    }
  }

  lemma {:induction false} FilterAppend(a: seq<Output>, b: seq<Output>, keep: Output -> bool)
    ensures Filter(a + b, keep) == Filter(a, keep) + Filter(b, keep)
    decreases |a|
  {
    if |a| == 0 {
      assert a + b == b;
    } else {
      var head := if keep(a[0]) then [a[0]] else [];
      calc {
        Filter(a + b, keep);
      == { assert (a + b)[0] == a[0]; assert (a + b)[1..] == a[1..] + b; }
        head + Filter(a[1..] + b, keep);
      == { FilterAppend(a[1..], b, keep); }
        head + (Filter(a[1..], keep) + Filter(b, keep));
      ==
        (head + Filter(a[1..], keep)) + Filter(b, keep);
      }
    }
  }

  // ---------------------------------------------------------------------
  // The loop against the reference description.
  // ---------------------------------------------------------------------

  /** One iteration of the loop prints the record's report and counts its outcome. */
  lemma StepIsReport(p: Params, calcsum: Calcsum, t: Tally, rec: Record)
    ensures var o := OutcomeOf(calcsum, rec);
      var s := Step(p, calcsum, t, rec);
      && s.log == t.log + Report(p, o, rec.path)
      && s.failCount == t.failCount + (if o == Match then 0 else 1)
      && s.failRead == t.failRead + (if o == Unreadable then 1 else 0)
  {
  }

  /** The loop prints the records' reports in order. */
  lemma {:induction false} ScanLog(p: Params, calcsum: Calcsum, t: Tally, recs: seq<Record>)
    ensures Scan(p, calcsum, t, recs).log == t.log + Reports(p, calcsum, recs)
    decreases |recs|
  {
    if |recs| == 0 {
      assert t.log + [] == t.log;
    } else {
      var s := Step(p, calcsum, t, recs[0]);
      var rep := Report(p, OutcomeOf(calcsum, recs[0]), recs[0].path);
      var rest := Reports(p, calcsum, recs[1..]);
      assert s.log == t.log + rep by {
        StepIsReport(p, calcsum, t, recs[0]);
      }
      ScanLog(p, calcsum, s, recs[1..]);
      calc {
        Scan(p, calcsum, t, recs).log;
        Scan(p, calcsum, s, recs[1..]).log;
        s.log + rest;
        (t.log + rep) + rest;
        { assert (t.log + rep) + rest == t.log + (rep + rest); }
        t.log + (rep + rest);
        t.log + Reports(p, calcsum, recs);
      }
    }
  }

  /** The loop counts every record that does not match as a failure and
      every unreadable one as a read failure. */
  lemma {:induction false} ScanCounts(p: Params, calcsum: Calcsum, t: Tally, recs: seq<Record>)
    ensures Scan(p, calcsum, t, recs).failCount
         == t.failCount + Count(calcsum, recs, Mismatch) + Count(calcsum, recs, Unreadable)
    ensures Scan(p, calcsum, t, recs).failRead == t.failRead + Count(calcsum, recs, Unreadable)
    decreases |recs|
  {
    if |recs| == 0 {
      assert Outcomes(calcsum, recs) == [];
    } else {
      var s := Step(p, calcsum, t, recs[0]);
      StepIsReport(p, calcsum, t, recs[0]);
      ScanCounts(p, calcsum, s, recs[1..]);
      var os := Outcomes(calcsum, recs);
      assert os == [os[0]] + Outcomes(calcsum, recs[1..]);
      assert multiset(os) == multiset{os[0]} + multiset(Outcomes(calcsum, recs[1..]));
    }
  }

  /** `failCount` is the number of lines whose expected digest differs from
      the recomputed one, `failRead` the number of those whose file could not
      be read, and the output is the per-record reports then the warnings. */
  lemma VerifyMeaning(p: Params, calcsum: Calcsum, lines: seq<string>)
    ensures Verify(p, calcsum, lines).failCount
         == Count(calcsum, Records(lines), Mismatch) + Count(calcsum, Records(lines), Unreadable)
    ensures Verify(p, calcsum, lines).failRead == Count(calcsum, Records(lines), Unreadable)
    ensures Verify(p, calcsum, lines).log == Reports(p, calcsum, Records(lines))
      + Warnings(p, Verify(p, calcsum, lines).failRead, Verify(p, calcsum, lines).failCount)
  {
    var recs := Records(lines);
    ScanLog(p, calcsum, Start, recs);
    ScanCounts(p, calcsum, Start, recs);
    assert [] + Reports(p, calcsum, recs) == Reports(p, calcsum, recs);
  }

  /** Every printed record line comes from some record's report, and every record's report is printed. */
  lemma {:induction false} ReportsProvenance(p: Params, calcsum: Calcsum, recs: seq<Record>, x: Output)
    ensures x in Reports(p, calcsum, recs) <==>
      exists i :: 0 <= i < |recs| && x in Report(p, OutcomeOf(calcsum, recs[i]), recs[i].path)
    decreases |recs|
  {
    if |recs| > 0 {
      ReportsProvenance(p, calcsum, recs[1..], x);
      if x in Reports(p, calcsum, recs[1..]) {
        var j :| 0 <= j < |recs[1..]| && x in Report(p, OutcomeOf(calcsum, recs[1..][j]), recs[1..][j].path);
        assert recs[1..][j] == recs[j + 1];
      }
      if exists i :: 0 <= i < |recs| && x in Report(p, OutcomeOf(calcsum, recs[i]), recs[i].path) {
        var i :| 0 <= i < |recs| && x in Report(p, OutcomeOf(calcsum, recs[i]), recs[i].path);
        if i > 0 {
          assert recs[i] == recs[1..][i - 1];
        }
      }
    }
  }

  // ---------------------------------------------------------------------
  // What the flags change and what they do not.
  // ---------------------------------------------------------------------

  lemma {:induction false} ReportsQuiet(m: bool, calcsum: Calcsum, recs: seq<Record>)
    ensures Reports(Params(true, m), calcsum, recs) == Filter(Reports(Params(false, m), calcsum, recs), NotOk)
    decreases |recs|
  {
    if |recs| > 0 {
      var rep := Report(Params(false, m), OutcomeOf(calcsum, recs[0]), recs[0].path);
      ReportsQuiet(m, calcsum, recs[1..]);
      FilterAppend(rep, Reports(Params(false, m), calcsum, recs[1..]), NotOk);
    }
  }

  lemma WarningsSurviveQuiet(p: Params, u: nat, f: nat)
    ensures Filter(Warnings(p, u, f), NotOk) == Warnings(p, u, f)
  {
    var first: seq<Output> := if u > 0 && !p.ignoreMissing then [UnreadWarning(u)] else [];
    var last: seq<Output> := if f > 0 then [MismatchWarning(f)] else [];
    FilterAppend(first, last, NotOk);
    assert Filter(first, NotOk) == first;
    assert Filter(last, NotOk) == last;
  }

  /** `quiet` removes exactly the `<path>: OK` lines from the output and
      leaves both counters unchanged. */
  lemma QuietOnlyDropsOk(m: bool, calcsum: Calcsum, lines: seq<string>)
    ensures Verify(Params(true, m), calcsum, lines).log
         == Filter(Verify(Params(false, m), calcsum, lines).log, NotOk)
    ensures Verify(Params(true, m), calcsum, lines).failCount == Verify(Params(false, m), calcsum, lines).failCount
    ensures Verify(Params(true, m), calcsum, lines).failRead == Verify(Params(false, m), calcsum, lines).failRead
  {
    var loud, quiet := Params(false, m), Params(true, m);
    var recs := Records(lines);
    VerifyMeaning(loud, calcsum, lines);
    VerifyMeaning(quiet, calcsum, lines);
    ReportsQuiet(m, calcsum, recs);
    var r := Verify(loud, calcsum, lines);
    FilterAppend(Reports(loud, calcsum, recs), Warnings(loud, r.failRead, r.failCount), NotOk);
    WarningsSurviveQuiet(loud, r.failRead, r.failCount);
    assert Warnings(quiet, r.failRead, r.failCount) == Warnings(loud, r.failRead, r.failCount);
  }

  lemma {:induction false} ReportsIgnoreMissing(q: bool, calcsum: Calcsum, recs: seq<Record>)
    ensures Reports(Params(q, true), calcsum, recs)
         == Filter(Reports(Params(q, false), calcsum, recs), NotMissingReport)
    decreases |recs|
  {
    if |recs| > 0 {
      var rep := Report(Params(q, false), OutcomeOf(calcsum, recs[0]), recs[0].path);
      ReportsIgnoreMissing(q, calcsum, recs[1..]);
      FilterAppend(rep, Reports(Params(q, false), calcsum, recs[1..]), NotMissingReport);
    }
  }

  lemma WarningsUnderIgnoreMissing(q: bool, u: nat, f: nat)
    ensures Filter(Warnings(Params(q, false), u, f), NotMissingReport) == Warnings(Params(q, true), u, f)
  {
    var first: seq<Output> := if u > 0 then [UnreadWarning(u)] else [];
    var last: seq<Output> := if f > 0 then [MismatchWarning(f)] else [];
    FilterAppend(first, last, NotMissingReport);
    assert Filter(first, NotMissingReport) == [];
    assert Filter(last, NotMissingReport) == last;
  }

  /** Under `quiet` an event is printed exactly when it is printed without
      `quiet` and is not an OK line. */
  lemma QuietMembership(m: bool, calcsum: Calcsum, lines: seq<string>, x: Output)
    ensures x in Verify(Params(true, m), calcsum, lines).log
        <==> x in Verify(Params(false, m), calcsum, lines).log && !x.Ok?
  {
    QuietOnlyDropsOk(m, calcsum, lines);
    FilterKeeps(Verify(Params(false, m), calcsum, lines).log, NotOk, x);
  }

  /** `ignoreMissing` removes exactly the `FAILED open or read` lines and the
      could-not-be-read warning; both counters are unchanged, so an unreadable
      file still makes the did-NOT-match warning appear. */
  lemma IgnoreMissingOnlyDropsUnreadable(q: bool, calcsum: Calcsum, lines: seq<string>)
    ensures Verify(Params(q, true), calcsum, lines).log
         == Filter(Verify(Params(q, false), calcsum, lines).log, NotMissingReport)
    ensures Verify(Params(q, true), calcsum, lines).failCount == Verify(Params(q, false), calcsum, lines).failCount
    ensures Verify(Params(q, true), calcsum, lines).failRead == Verify(Params(q, false), calcsum, lines).failRead
    ensures Verify(Params(q, true), calcsum, lines).failRead > 0 ==>
      MismatchWarning(Verify(Params(q, true), calcsum, lines).failCount) in Verify(Params(q, true), calcsum, lines).log
  {
    var strict, lax := Params(q, false), Params(q, true);
    var recs := Records(lines);
    VerifyMeaning(strict, calcsum, lines);
    VerifyMeaning(lax, calcsum, lines);
    ReportsIgnoreMissing(q, calcsum, recs);
    var r := Verify(strict, calcsum, lines);
    FilterAppend(Reports(strict, calcsum, recs), Warnings(strict, r.failRead, r.failCount), NotMissingReport);
    WarningsUnderIgnoreMissing(q, r.failRead, r.failCount);
  }

  /** Under `ignoreMissing` an event is printed exactly when it is printed
      without it and is neither an unreadable-file line nor the
      could-not-be-read warning. */
  lemma IgnoreMissingMembership(q: bool, calcsum: Calcsum, lines: seq<string>, x: Output)
    ensures x in Verify(Params(q, true), calcsum, lines).log
        <==> x in Verify(Params(q, false), calcsum, lines).log && !x.FailedOpen? && !x.UnreadWarning?
  {
    IgnoreMissingOnlyDropsUnreadable(q, calcsum, lines);
    FilterKeeps(Verify(Params(q, false), calcsum, lines).log, NotMissingReport, x);
  }

  // ---------------------------------------------------------------------
  // What is printed, line by line.
  // ---------------------------------------------------------------------

  /** Whatever the flags, `<path>: FAILED` is printed exactly when some line
      for that path has a readable file whose digest differs; `<path>: OK`
      exactly when some line for it matches and `quiet` is off; and
      `<path>: FAILED open or read` exactly when some line for it is
      unreadable and `ignoreMissing` is off. */
  lemma PrintedLines(p: Params, calcsum: Calcsum, lines: seq<string>, path: string)
    ensures Failed(path) in Verify(p, calcsum, lines).log <==>
      exists i :: 0 <= i < |lines| && OutcomeOf(calcsum, Records(lines)[i]) == Mismatch && Records(lines)[i].path == path
    ensures Ok(path) in Verify(p, calcsum, lines).log <==>
      !p.quiet && exists i :: 0 <= i < |lines| && OutcomeOf(calcsum, Records(lines)[i]) == Match && Records(lines)[i].path == path
    ensures FailedOpen(path) in Verify(p, calcsum, lines).log <==>
      !p.ignoreMissing && exists i :: 0 <= i < |lines| && OutcomeOf(calcsum, Records(lines)[i]) == Unreadable && Records(lines)[i].path == path
  {
    var recs := Records(lines);
    RecordEventPrinted(p, calcsum, lines, Failed(path));
    RecordEventPrinted(p, calcsum, lines, Ok(path));
    RecordEventPrinted(p, calcsum, lines, FailedOpen(path));
  }

  /** A per-record event is printed exactly when some record's report holds it. */
  lemma RecordEventPrinted(p: Params, calcsum: Calcsum, lines: seq<string>, x: Output)
    requires x.Ok? || x.Failed? || x.FailedOpen?
    ensures x in Verify(p, calcsum, lines).log <==>
      exists i :: 0 <= i < |lines| && x in Report(p, OutcomeOf(calcsum, Records(lines)[i]), Records(lines)[i].path)
  {
    VerifyMeaning(p, calcsum, lines);
    ReportsProvenance(p, calcsum, Records(lines), x);
  }

  lemma CountPositive(calcsum: Calcsum, recs: seq<Record>, o: Outcome)
    ensures Count(calcsum, recs, o) > 0 <==> exists i :: 0 <= i < |recs| && OutcomeOf(calcsum, recs[i]) == o
  {
    var os := Outcomes(calcsum, recs);
    if Count(calcsum, recs, o) > 0 {
      assert o in os;
      var i :| 0 <= i < |os| && os[i] == o;
      assert OutcomeOf(calcsum, recs[i]) == o;
    }
    if exists i :: 0 <= i < |recs| && OutcomeOf(calcsum, recs[i]) == o {
      var i :| 0 <= i < |recs| && OutcomeOf(calcsum, recs[i]) == o;
      assert os[i] == o;
    }
  }

  /** The did-NOT-match warning appears exactly when some line fails, and the
      could-not-be-read warning exactly when some file is unreadable and
      `ignoreMissing` is off. */
  lemma WarningsIffFailure(p: Params, calcsum: Calcsum, lines: seq<string>)
    ensures MismatchWarning(Verify(p, calcsum, lines).failCount) in Verify(p, calcsum, lines).log
        <==> !AllMatch(calcsum, Records(lines))
    ensures UnreadWarning(Verify(p, calcsum, lines).failRead) in Verify(p, calcsum, lines).log
        <==> !p.ignoreMissing && exists i :: 0 <= i < |lines| && OutcomeOf(calcsum, Records(lines)[i]) == Unreadable
    ensures AllMatch(calcsum, Records(lines)) <==> Verify(p, calcsum, lines).failCount == 0
  {
    var recs := Records(lines);
    var r := Verify(p, calcsum, lines);
    VerifyMeaning(p, calcsum, lines);
    CountPositive(calcsum, recs, Mismatch);
    CountPositive(calcsum, recs, Unreadable);
    ReportsProvenance(p, calcsum, recs, MismatchWarning(r.failCount));
    ReportsProvenance(p, calcsum, recs, UnreadWarning(r.failRead));
  }

  /** Every printed line is an OK line exactly when all lines match, and then
      the output is the records' reports with no warning after them. */
  lemma AllMatchOnlyOk(p: Params, calcsum: Calcsum, lines: seq<string>)
    ensures AllMatch(calcsum, Records(lines)) <==> forall x :: x in Verify(p, calcsum, lines).log ==> x.Ok?
    ensures AllMatch(calcsum, Records(lines)) ==> Verify(p, calcsum, lines).log == Reports(p, calcsum, Records(lines))
  {
    var recs := Records(lines);
    var r := Verify(p, calcsum, lines);
    WarningsIffFailure(p, calcsum, lines);
    VerifyMeaning(p, calcsum, lines);
    if AllMatch(calcsum, recs) {
      forall x | x in r.log
        ensures x.Ok?
      {
        ReportsProvenance(p, calcsum, recs, x);
      }
    } else {
      assert MismatchWarning(r.failCount) in r.log;
    }
  }

  // ---------------------------------------------------------------------
  // Particular inputs.
  // ---------------------------------------------------------------------

  /** A line with an empty expected digest whose file cannot be opened counts
      as OK: the empty recomputed digest equals the empty expected one. */
  lemma EmptyExpectedUnreadableIsOk(p: Params, calcsum: Calcsum, path: string)
    requires calcsum(path) == ""
    ensures OutcomeOf(calcsum, ParseLine(FormatLine("", path))) == Match
    ensures Verify(p, calcsum, [FormatLine("", path)]) == Tally(if p.quiet then [] else [Ok(path)], 0, 0)
  {
    ParseFormat("", path);
    var recs := [Record("", path)];
    assert Records([FormatLine("", path)]) == recs;
    assert recs[1..] == [];
    assert Scan(p, calcsum, Start, recs) == Step(p, calcsum, Start, recs[0]);
  }

  /** An empty line is read as the path "" with expected digest "", and since
      "" cannot be opened it counts as OK. */
  lemma EmptyLineIsOk(p: Params, calcsum: Calcsum)
    requires calcsum("") == ""
    ensures Verify(p, calcsum, [""]) == Tally(if p.quiet then [] else [Ok("")], 0, 0)
  {
    var recs := [Record("", "")];
    assert ParseLine("") == recs[0];
    assert Records([""]) == recs;
    assert recs[1..] == [];
    assert Scan(p, calcsum, Start, recs) == Step(p, calcsum, Start, recs[0]);
  }

  lemma {:induction false} AllMatchReports(p: Params, calcsum: Calcsum, recs: seq<Record>)
    requires AllMatch(calcsum, recs)
    ensures p.quiet ==> Reports(p, calcsum, recs) == []
    ensures !p.quiet ==> |Reports(p, calcsum, recs)| == |recs|
    ensures !p.quiet ==> forall i :: 0 <= i < |recs| ==> Reports(p, calcsum, recs)[i] == Ok(recs[i].path)
    decreases |recs|
  {
    if |recs| > 0 {
      assert OutcomeOf(calcsum, recs[0]) == Match;
      assert AllMatch(calcsum, recs[1..]) by {
        forall i | 0 <= i < |recs[1..]|
          ensures OutcomeOf(calcsum, recs[1..][i]) == Match
        {
          assert recs[1..][i] == recs[i + 1];
        }
      }
      AllMatchReports(p, calcsum, recs[1..]);
      var rest := Reports(p, calcsum, recs[1..]);
      if !p.quiet {
        var all := Reports(p, calcsum, recs);
        assert all == [Ok(recs[0].path)] + rest;
        forall i | 0 <= i < |recs|
          ensures all[i] == Ok(recs[i].path)
        {
          if i > 0 {
            assert all[i] == rest[i - 1];
            assert recs[i] == recs[1..][i - 1];
          }
        }
      }
    }
  }

  /** Generating sum lines for a list of files and verifying them right away,
      with the same digest function, prints one OK line per file (none under
      `quiet`) and no warning: the round trip of the two modes. */
  lemma GenerateThenVerify(p: Params, calcsum: Calcsum, files: seq<string>)
    requires forall f :: f in files ==> NoSpace(calcsum(f))
    ensures Verify(p, calcsum, Generate(calcsum, files)).failCount == 0
    ensures Verify(p, calcsum, Generate(calcsum, files)).failRead == 0
    ensures p.quiet ==> Verify(p, calcsum, Generate(calcsum, files)).log == []
    ensures !p.quiet ==> |Verify(p, calcsum, Generate(calcsum, files)).log| == |files|
    ensures !p.quiet ==> forall i :: 0 <= i < |files| ==> Verify(p, calcsum, Generate(calcsum, files)).log[i] == Ok(files[i])
  {
    var lines := Generate(calcsum, files);
    var recs := Records(lines);
    forall i | 0 <= i < |recs|
      ensures recs[i] == Record(calcsum(files[i]), files[i])
    {
      ParseGenerated(calcsum, files, i);
    }
    assert AllMatch(calcsum, recs);
    WarningsIffFailure(p, calcsum, lines);
    AllMatchOnlyOk(p, calcsum, lines);
    AllMatchReports(p, calcsum, recs);
    VerifyMeaning(p, calcsum, lines);
  }

  /** The sum-file error line is printed exactly when the sum file cannot be
      opened, and then nothing else is. */
  lemma SumFileErrorIffUnopened(p: Params, calcsum: Calcsum, sumFile: Option<seq<string>>)
    ensures SumFileError in CompareSums(p, calcsum, sumFile) <==> sumFile.None?
    ensures sumFile.None? ==> CompareSums(p, calcsum, sumFile) == [SumFileError]
  {
    if sumFile.Some? {
      VerifyMeaning(p, calcsum, sumFile.value);
      ReportsProvenance(p, calcsum, Records(sumFile.value), SumFileError);
    }
  }

  lemma CountSingle(calcsum: Calcsum, recs: seq<Record>, k: int, o: Outcome)
    requires 0 <= k < |recs|
    requires OutcomeOf(calcsum, recs[k]) == o
    requires forall i :: 0 <= i < |recs| && i != k ==> OutcomeOf(calcsum, recs[i]) != o
    ensures Count(calcsum, recs, o) == 1
  {
    var os := Outcomes(calcsum, recs);
    assert os == os[..k] + [os[k]] + os[k + 1..];
    assert o !in os[..k];
    var rest := os[k + 1..];
    assert o !in rest by {
      forall j | 0 <= j < |rest|
        ensures rest[j] != o
      {
        assert rest[j] == os[k + 1 + j];
      }
    }
  }

  /** The reports hold no more FAILED lines for one path than there are
      mismatched records. */
  lemma {:induction false} FailedAtMostMismatches(p: Params, calcsum: Calcsum, recs: seq<Record>, q: string)
    ensures multiset(Reports(p, calcsum, recs))[Failed(q)] <= Count(calcsum, recs, Mismatch)
    decreases |recs|
  {
    if |recs| > 0 {
      var tail := recs[1..];
      FailedAtMostMismatches(p, calcsum, tail, q);
      var o := OutcomeOf(calcsum, recs[0]);
      var h := Report(p, o, recs[0].path);
      assert Outcomes(calcsum, recs) == [o] + Outcomes(calcsum, tail);
      assert multiset(Reports(p, calcsum, recs)) == multiset(h) + multiset(Reports(p, calcsum, tail));
      if o != Mismatch {
        assert Failed(q) !in h;
      }
    }
  }

  /** The whole output holds no more FAILED lines for one path than there are
      mismatched lines: the warnings add none. */
  lemma FailedLinesAtMostMismatches(p: Params, calcsum: Calcsum, lines: seq<string>, q: string)
    ensures multiset(Verify(p, calcsum, lines).log)[Failed(q)] <= Count(calcsum, Records(lines), Mismatch)
  {
    var r := Verify(p, calcsum, lines);
    VerifyMeaning(p, calcsum, lines);
    FailedAtMostMismatches(p, calcsum, Records(lines), q);
    var w := Warnings(p, r.failRead, r.failCount);
    assert Failed(q) !in w;
    assert multiset(r.log) == multiset(Reports(p, calcsum, Records(lines))) + multiset(w);
  }

  /** Generated output where one readable file's digest is replaced by a
      different space-free value fails on exactly that line: one failure, no
      read failure, exactly one FAILED line, for that file and for no other, a
      did-NOT-match warning with count 1, whatever the flags; unless `quiet`
      is set every other file prints OK. */
  lemma TamperedLine(p: Params, calcsum: Calcsum, files: seq<string>, k: int, forged: string)
    requires forall f :: f in files ==> NoSpace(calcsum(f))
    requires 0 <= k < |files|
    requires NoSpace(forged) && forged != calcsum(files[k]) && calcsum(files[k]) != ""
    ensures var r := Verify(p, calcsum, Generate(calcsum, files)[k := FormatLine(forged, files[k])]);
      && r.failCount == 1
      && r.failRead == 0
      && Failed(files[k]) in r.log
      && MismatchWarning(1) in r.log
    ensures var r := Verify(p, calcsum, Generate(calcsum, files)[k := FormatLine(forged, files[k])]);
      forall q :: Failed(q) in r.log ==> q == files[k]
    ensures var r := Verify(p, calcsum, Generate(calcsum, files)[k := FormatLine(forged, files[k])]);
      !p.quiet ==> forall i :: 0 <= i < |files| && i != k ==> Ok(files[i]) in r.log
    ensures var r := Verify(p, calcsum, Generate(calcsum, files)[k := FormatLine(forged, files[k])]);
      multiset(r.log)[Failed(files[k])] == 1
  {
    var lines := Generate(calcsum, files)[k := FormatLine(forged, files[k])];
    var r := Verify(p, calcsum, lines);
    TamperedOutcomes(calcsum, files, k, forged);
    SingleMismatch(p, calcsum, lines, k);
    forall i | 0 <= i < |files| && i != k
      ensures !p.quiet ==> Ok(files[i]) in r.log
    {
      PrintedLines(p, calcsum, lines, files[i]);
    }
  }

  /** When exactly one line mismatches and every other line matches, the
      output has one failure, no read failure, exactly one FAILED line, for
      that line's path and no other, and the did-NOT-match warning with
      count 1. */
  lemma SingleMismatch(p: Params, calcsum: Calcsum, lines: seq<string>, k: int)
    requires 0 <= k < |lines|
    requires OutcomeOf(calcsum, Records(lines)[k]) == Mismatch
    requires forall i :: 0 <= i < |lines| && i != k ==> OutcomeOf(calcsum, Records(lines)[i]) == Match
    ensures var r := Verify(p, calcsum, lines);
      && r.failCount == 1
      && r.failRead == 0
      && MismatchWarning(1) in r.log
      && multiset(r.log)[Failed(Records(lines)[k].path)] == 1
      && forall q :: Failed(q) in r.log ==> q == Records(lines)[k].path
  {
    var recs := Records(lines);
    var path := recs[k].path;
    var r := Verify(p, calcsum, lines);
    assert Count(calcsum, recs, Mismatch) == 1 by {
      CountSingle(calcsum, recs, k, Mismatch);
    }
    assert Count(calcsum, recs, Unreadable) == 0 by {
      CountPositive(calcsum, recs, Unreadable);
    }
    assert r.failCount == 1 && r.failRead == 0 by {
      VerifyMeaning(p, calcsum, lines);
    }
    assert Failed(path) in r.log by {
      PrintedLines(p, calcsum, lines, path);
    }
    assert MismatchWarning(1) in r.log by {
      WarningsIffFailure(p, calcsum, lines);
    }
    assert multiset(r.log)[Failed(path)] == 1 by {
      FailedLinesAtMostMismatches(p, calcsum, lines, path);
    }
    forall q | Failed(q) in r.log
      ensures q == path
    {
      PrintedLines(p, calcsum, lines, q);
    }
  }

  /** In the tampered output only line `k` mismatches; every other line is
      its file's own generated line and matches. */
  lemma TamperedOutcomes(calcsum: Calcsum, files: seq<string>, k: int, forged: string)
    requires forall f :: f in files ==> NoSpace(calcsum(f))
    requires 0 <= k < |files|
    requires NoSpace(forged) && forged != calcsum(files[k]) && calcsum(files[k]) != ""
    ensures var recs := Records(Generate(calcsum, files)[k := FormatLine(forged, files[k])]);
      && recs[k] == Record(forged, files[k])
      && OutcomeOf(calcsum, recs[k]) == Mismatch
      && forall i :: 0 <= i < |recs| && i != k ==>
           recs[i] == Record(calcsum(files[i]), files[i]) && OutcomeOf(calcsum, recs[i]) == Match
  {
    var recs := Records(Generate(calcsum, files)[k := FormatLine(forged, files[k])]);
    forall i | 0 <= i < |recs| && i != k
      ensures recs[i] == Record(calcsum(files[i]), files[i])
    {
      ParseGenerated(calcsum, files, i);
    }
    ParseFormat(forged, files[k]);
  }
}
