# gensum sum-file verifier — Dafny model

`gensum` is a checksum utility. It walks directory trees and prints one
`<hex-digest>  <path>` line per non-directory entry. With `-c <sumfile>` it reads such
a file back, recomputes every listed digest and prints `<path>: OK`,
`<path>: FAILED` or `<path>: FAILED open or read` per line. It ends with up to two
summary warnings, each printed only when its count is above zero. The `-d` flag picks one of seven hash algorithms, matched
case-insensitively.

This project models the logic of `main.go`:

- `gostrings.dfy` (module `GoStrings`): the parts of Go's `strings` package the
  program depends on. These are `Index`, `Split` and `Join` for a non-empty
  separator, and an ASCII `ToUpper`.
- `sumformat.dfy` (module `SumFormat`): the sum-file line. It covers the line
  the tree walker prints (`FormatLine`, `Generate`) and the verifier's reading
  of a line (`ParseLine`). That reading splits at every two-space separator,
  keeps the first piece as the expected digest and re-joins the other pieces as
  the path. The module also holds the parse/format round trip.
- `algorithm.dfy` (module `Algorithm`): the generic `contains` and the start-up
  validation of `-d`.
- `verifier.dfy` (module `Verifier`): `compareSums` as a fold. `Step` and `Scan`
  run over the sum file's parsed lines (`Records`). They build a `Tally` of
  printed output events, `failCount` and `failRead`. The program parses each
  line inside its loop; parsing is pure, so parsing all lines first gives the
  same result. `Warnings` adds the did-NOT-match warning when
  failCount > 0, and the could-not-be-read warning when failRead > 0 and
  ignore-missing is off. The
  module also gives an independent reference description, against which the
  loop is proved: each line's `Outcome` (`Match`, `Mismatch`, `Unreadable`)
  and what each outcome prints (`Report`).
- `wrappers.dfy` (module `Wrappers`): `Option` and `Result`.

The digest computation `calcsum(path, algo)` is a function parameter
(`Calcsum = string -> string`). It keeps the program's own sentinel: `""`
means the file could not be opened. The verifier compares digests before it
tests for `""`. As a result, a line with an empty expected digest whose file
cannot be opened counts as OK (`EmptyExpectedUnreadableIsOk`). An empty line
behaves the same way: it reads as path `""` with expected digest `""`
(`EmptyLineIsOk`). The model keeps both behaviours as the code has them.

Three details of `main.go` that are easy to misread:

- The loop compares the digests first and checks for an unreadable file second
  (main.go:97-110). So "unreadable" is only decided for lines whose expected
  digest is not empty.
- The loop processes every line the scanner yields, empty ones included.
- Splitting at every separator and re-joining makes a path that contains
  double spaces read back intact. `ParseFormat` proves this for any digest
  that contains no space.

## Model

| member | source | states |
|---|---|---|
| GoStrings.Index | main.go:93 | Finds the first occurrence of the separator. The result is absent exactly when the separator occurs nowhere; otherwise it is an occurrence and nothing occurs before it. |
| GoStrings.Split | main.go:93 | The result always has at least one piece. |
| GoStrings.Join | main.go:94 | Concatenates the pieces with the separator between them. Its meaning is carried by `JoinSplit`: it inverts `Split`. |
| GoStrings.SplitPiecesFree | main.go:93 | Split returns a single piece exactly when the separator does not occur, and no piece contains the separator. |
| GoStrings.JoinSplit | main.go:93-94 | Joining the pieces of a split with the same separator gives back the original text. |
| GoStrings.ToUpper | main.go:48 | Upper-casing keeps the length and maps every character through the ASCII letter mapping. |
| GoStrings.ToUpperIdempotent | main.go:48 | An upper-cased name contains no lower-case letter, and upper-casing it again changes nothing. |
| SumFormat.SplitFirstCut | main.go:93-94 | The first piece is the text before the first separator, or the whole line if there is none. The re-joined remaining pieces are exactly the text after the first separator. |
| SumFormat.ParseLine | main.go:93-94 | Reads one line as expected digest and path. Its meaning is carried by `ParseLineCuts`. |
| SumFormat.ParseLineCuts | main.go:92-94 | With no separator, the line is the expected digest and the path is empty. With a separator, the line equals expected + two spaces + path. No separator starts inside the expected digest. |
| SumFormat.FormatLine | main.go:132 | The `digest  path` line of one entry. `ParseFormat` proves that `ParseLine` inverts it. |
| SumFormat.Generate | main.go:126-133 | One `FormatLine` per walked entry, in walk order. `ParseGenerated` proves that each reads back as its entry's digest and path. |
| SumFormat.ParseFormat | main.go:132 | Parsing a generated `digest  path` line gives back exactly that digest and path when the digest contains no space. This holds even when the path contains double spaces. |
| SumFormat.ParseGenerated | main.go:126-133 | Every line the walker prints for a file reads back as that file's digest and path. |
| Algorithm.Contains | main.go:70-77 | contains is true exactly when some element of the slice equals the searched value. |
| Algorithm.Lookup | main.go:147-160 | Maps an upper-case name to the algorithm of that name. It fails exactly when no algorithm has that name. |
| Algorithm.SupportedAreNames | main.go:51 | Every algorithm's name is in the accepted list, and every listed name selects an algorithm. |
| Algorithm.Validate | main.go:48-54 | A flag is accepted exactly when its upper-cased form is one of the seven listed names. The selected algorithm carries that name. A rejected flag yields "invalid hash algorithm". |
| Algorithm.ValidateIgnoresCase | main.go:48 | Two flags that differ only in ASCII letter case are accepted or rejected alike. |
| Algorithm.ValidateAcceptsEveryName | main.go:51 | Each of the seven names is accepted and selects its own algorithm. |
| Algorithm.ValidateDefault | main.go:32 | The default flag `SHA256` and the spelling `sha256` are both accepted as SHA-256. |
| Algorithm.ValidateRejectsUnknown | main.go:51-53 | `FOO` and the empty flag are rejected with the invalid-algorithm message. |
| Verifier.Scan | main.go:91-116 | Each line adds at most one output line and at most one failure. A read failure is only counted together with a failure. |
| Verifier.Step | main.go:92-115 | One loop iteration adds at most one output line. It adds a failure exactly when the expected digest differs from the recomputed one, and a read failure only together with a failure. `StepIsReport` states its full effect. |
| Verifier.Verify | main.go:87-122 | failRead <= failCount <= number of lines, and at most two lines are printed beyond one per line. |
| Verifier.Warnings | main.go:117-122 | At most two lines, all of them warnings. `WarningsIffFailure` states when each one appears. |
| Verifier.CompareSums | main.go:79-85 | `compareSums`. `SumFileErrorIffUnopened` states its output when the sum file cannot be opened. Otherwise its output is `Verify`'s. |
| Verifier.Report | main.go:97-113 | A record prints nothing exactly when it matches under quiet or is unreadable under ignore-missing. Otherwise it prints one line for its own path: OK for a match, FAILED for a mismatch, FAILED open or read for an unreadable file. |
| Verifier.OutcomeOf | main.go:97-107 | Classifies a line as match, mismatch or unreadable, comparing first. `VerifyMeaning` and `StepIsReport` tie it to the loop's counters and output. |
| Verifier.StepIsReport | main.go:92-115 | One loop iteration appends the record's report. It adds one failure for any non-matching outcome and one read failure for an unreadable one. |
| Verifier.ScanLog | main.go:91-116 | The loop's output is the records' reports, in the order of the lines. |
| Verifier.ScanCounts | main.go:97-115 | The loop adds the number of mismatched plus unreadable lines to failCount, and the number of unreadable lines to failRead. |
| Verifier.VerifyMeaning | main.go:87-122 | failCount is the number of lines whose expected digest differs from the recomputed one, and failRead is the number of those whose file is unreadable. The output is the reports followed by the warnings. |
| Verifier.ReportsProvenance | main.go:97-113 | An event is among the printed record lines exactly when some line's report contains it. |
| Verifier.QuietOnlyDropsOk | main.go:98-100 | Under quiet, the output is the non-quiet output with exactly the `OK` lines removed. Both counters are unchanged. |
| Verifier.QuietMembership | main.go:98-100 | Under quiet, an event is printed exactly when it is printed without quiet and is not an `OK` line. |
| Verifier.IgnoreMissingOnlyDropsUnreadable | main.go:107-121 | Under ignore-missing, the output is the strict output with exactly the `FAILED open or read` lines and the could-not-be-read warning removed. Counters are unchanged. An unreadable file still produces the did-NOT-match warning. |
| Verifier.IgnoreMissingMembership | main.go:103-119 | Under ignore-missing, an event is printed exactly when it is printed without the flag and is neither a `FAILED open or read` line nor the could-not-be-read warning. |
| Verifier.PrintedLines | main.go:97-113 | For any flags: `FAILED` is printed for a path exactly when some line for it mismatches with a readable file. `OK` is printed exactly when some line for it matches and quiet is off. `FAILED open or read` is printed exactly when some line for it is unreadable and ignore-missing is off. |
| Verifier.WarningsIffFailure | main.go:117-122 | The did-NOT-match warning appears exactly when some line fails. The could-not-be-read warning appears exactly when some file is unreadable and ignore-missing is off. failCount is zero exactly when every line matches. |
| Verifier.Decimal | main.go:118 | A count is printed as a non-empty string of decimal digits, with no leading zero unless the count is 0. |
| Verifier.DecimalRoundTrip | main.go:118-121 | Reading the printed digits back as a decimal number gives the count, so the warning lines report failRead and failCount exactly. |
| Verifier.Text | main.go:99-121 | The wording of each output line. `TextInjective` proves that distinct events print distinct lines. |
| Verifier.TextInjective | main.go:99-121 | Two events that print the same line are the same event, with the same path or count. The printed text therefore determines what was reported. |
| Verifier.AllMatchOnlyOk | main.go:97-122 | Every printed line is an OK line exactly when all lines match. In that case the output is the per-record OK lines with no warning after them. |
| Verifier.EmptyExpectedUnreadableIsOk | main.go:95-97 | A line `  path` whose file cannot be opened counts as OK, with no failure and no warning. |
| Verifier.EmptyLineIsOk | main.go:92-97 | An empty line is read as path "" with an empty expected digest and counts as OK. |
| Verifier.GenerateThenVerify | main.go:132 | Verifying the lines `Generate` gives, one per file, with the same digest function prints one OK per file in order (none under quiet). Both counters are zero and no warning is printed. |
| Verifier.SumFileErrorIffUnopened | main.go:80-84 | The sum-file error line is printed exactly when the sum file cannot be opened, and then it is the only output. |
| Verifier.TamperedLine | main.go:97-121 | Generated output where one readable file's digest is replaced by a different space-free value (possibly empty) has failCount 1 and failRead 0. Under any flags it prints exactly one FAILED line, for that file and for no other path, and the did-NOT-match warning with count 1. Without quiet, every other file still prints OK. |
| Verifier.SingleMismatch | main.go:97-121 | When exactly one line mismatches and all others match, failCount is 1 and failRead is 0. Exactly one FAILED line is printed, for that line's path and no other, and the did-NOT-match warning carries count 1. |

## Left out

- Hashing itself (MD5, SHA-1, SHA-224/256/384/512, BLAKE2b-512, `io.Copy`, hex encoding, main.go:145-174) is a parameter of the model (`Calcsum`); digest lengths are not modelled.
- The `default: md5.New()` fallback of `calcsum` (main.go:166-167): validation admits only the seven names (`SupportedAreNames`), so it is unreachable.
- A read error in the middle of hashing calls `log.Fatal` and ends the whole program, in both modes (main.go:170-172). The oracle models only the open failure (`""`).
- The BLAKE2 constructor error exit (main.go:161-165) is library behaviour.
- File opening for the sum file and the listed files: the sum file is given as `Option<seq<string>>` (None when it cannot be opened) and the open result of each listed file is folded into `Calcsum`.
- `bufio.Scanner` line splitting (main.go:90-92): the lines are given. Its removal of a trailing carriage return and its 64 KiB token limit are not modelled. At that limit, scanning stops silently and the warnings are printed for the lines read so far.
- Directory traversal (`filepath.WalkDir`, main.go:125-136): its order, its `IsDir` filtering and its error return, which `main` ignores, are library behaviour. `Generate` takes the visited non-directory entries (regular files, symlinks, devices and so on) as a given list.
- Flag parsing and the dispatch in `main` (main.go:29-47, 55-68), including exit statuses: 0 after an invalid `-d` (main.go:53), after `compareSums` (main.go:58) and at the end of `main`; 2 from `flag.Parse` on an unknown flag (main.go:46); 1 from `log.Fatal` on a read error (main.go:171) and from the BLAKE2 constructor error (main.go:164).
- Verifier.GenerateThenVerify: `Generate` yields one line per entry, but the program prints `digest  path\n` and the verifier's `bufio.Scanner` splits that text again (main.go:90-92, 132). A path containing `\n` comes back as two lines, and a path ending in `\r` loses that character, so for such paths the real round trip fails where the model's succeeds.
- Verifier.TamperedLine: the same scanner re-splitting applies, so the program behaves as the lemma states only when no path contains `\n` or ends in `\r`.
- Output is modelled as abstract events (`Output`). `Text` gives the line each event prints, and `TextInjective` shows that no two events share a line. No actual printing or newline handling is modelled.
- GoStrings.ToUpper: only ASCII letters are upper-cased. Go's full Unicode mapping also turns some non-ASCII letters into ASCII ones (U+017F becomes `S`), so a flag such as `ſha256` is accepted by the program but not by the model.
- GoStrings.Split: requires a non-empty separator. Go's split of a string by `""` into single characters is not modelled, because the program only splits on two spaces.
