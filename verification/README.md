# Ferric benchmark and evidence checkers: a Dafny model

Ferric's repository decides, outside its engine, whether measurements and evidence may be
believed.  This project models that deciding code and proves what it is relied on for:

- **D10 gate arithmetic** (`Numbers`, `Medians`, `Gates`, `Aggregate`, `Observations`, `Verdict`): raw timing
  rows become floor rates, medians as reduced fractions, per-case gates in parts per million and an
  exact weighted geometric aggregate under a bit budget.
- **Publication protocol** (`Disk`, `ExactBundle`): the stage, verify, rename, re-verify protocol, on a
  file system that anybody may change between any two system calls.
- **Host-timing validator** (`Json`, `Transcript`, `TranscriptRecords`, `TimingPartition`, `TimingReport`): the transcript state machine
  against a declarative language, and the partition of batch wall time.
- **Rust/Verus scanner** (`Lexer`, `Lexemes`, `VerusBlocks`, `ScanLocality`): two separately written scanners, the
  block extractor, and why scanning the extracted blocks alone is sound.
- **D10 collector** (`Subprocess`, `Collector`): the non-blocking subprocess loop for every
  interleaving, and the agreement of collector and validator on identities and order.
- **Evidence index** (`Strings`, `EvidenceIndex`, `EvidenceContents`, `EvidenceExample`) and **device binding**
  (`DeviceBinding`, `CommandLines`): exact cover
  over several passes, and uniquely decodable digest preimages with an option parser.
- **Canaries** (`Canaries`) and **BF16 narrowing** (`NumericalReplay`).

Code that works step by step is a method with a loop, or a class with fields, proved against a
specification function or a declarative predicate.  The theorems are about those specifications, for
all inputs; `Verdict`, `Lexemes`, `TranscriptRecords`, `TimingReport`, `EvidenceContents` and
`CommandLines` say what the specifications mean without them: over the reals, over the text, and with
every field and kind written out.  `dafny verify dfyconfig.toml` checks the whole project.

## What the model found

Each of these is stated and proved; the code is modelled as it is.

- A regression printed as exactly the maximum can still fail its gate, because the printed number is
  rounded down.  At equality the gate holds exactly when the division leaves no remainder
  (`Gates.RegressionGateMatchesPpm`, `Gates.RegressionGateFailsAtPrintedMaximum`).
- `verify_directory` pairs expected entries with staged files and stops at the shorter list, so what
  publication establishes covers the whole roster if and only if every roster name was written through
  the bundle (`ExactBundle.RosterCoveredIffAllWritten`).
- Dropping a bundle looks a name up and then unlinks it: two steps.  The binding removed is certain to be
  its own if and only if the directory still has the version it had at the look-up
  (`ExactBundle.DropRemovesOwnIff`); otherwise it can be somebody else's
  (`ExactBundle.RacingDropCanRemoveForeign`).
- An accepted evidence index stays acceptable as a pre-receipt candidate after its receipt is dropped if
  and only if the receipt carried the canonical id (`EvidenceIndex.DroppingTheReceipt`).  The obligation
  pass of the full mode does not ask for that id (`EvidenceExample.OtherReceiptIdIsAccepted`).
- Sample identifiers are injective because the rosters are dot-free, not because the parts are safe
  identifiers: safe identifiers may hold dots, and then two samples can share an identifier
  (`Collector.SafePartsAreNotEnough`).
- Outside its finite domain, `narrow` turns some NaNs into infinities or into a zero of the other
  sign; `NumericalReplay.NarrowOfNonFinite` says exactly which stay NaNs.  Its caller passes finite values.
- The look-up of `--crate-name` reads the whole command line, past `--` and inside option values.  So
  arguments after `--` matter exactly when one of them spells the crate name
  (`DeviceBinding.NothingAfterDashes`, `DeviceBinding.CrateNameCountsAfterDashes`), and a split option can
  differ from its joined spelling (`DeviceBinding.SpellingDoesNotMatter`,
  `DeviceBinding.SplitValueCanNameTheCrate`).
- An empty `-C` value has no joined spelling (`DeviceBinding.EmptyCodegenHasNoJoinedSpelling`).

## Model

| member | source | states |
|---|---|---|
| `Observations.FasterFerricNeverHurts` | benches/m1/d10_observations.rs:499-640 | Monotone end to end: lower any Ferric elapsed times and change nothing else; the new rows are accepted if and only if every new rate is still recordable, and then no median falls and no regression, vendor or aggregate gate, nor the overall verdict, turns from pass to fail. |
| `Observations.ReportNeverRefusesAggregate` | benches/m1/d10_observations.rs:764-768 | A report is produced if and only if the roster is complete and each case validates on its own: the aggregate never refuses validated cases, whatever the rows and thresholds. |
| `Observations.CollectRates` | benches/m1/d10_observations.rs:1102-1124 | The rate loop returns, in order, the floor rate of every row, or the fault of the first row that is zero, overflows u128 or leaves the u64 range. |
| `Observations.RatesPointwise` | benches/m1/d10_observations.rs:1102-1124 | Rates are accepted if and only if every row is on its own, and the i-th rate is the i-th row's. |
| `Observations.ComputeMedian` | benches/m1/d10_observations.rs:1052-1128 | The rates of exactly 30 rows, sorted in place, give the specified median. |
| `Observations.ValidateCase` | benches/m1/d10_observations.rs:763-887 | Weight cap, three medians, regression and vendor numbers and gates, as specified; errors in source order. |
| `Observations.ValidateObservations` | benches/m1/d10_observations.rs:596-630 | The case loop, the aggregate over applicable cases and the overall verdict, as specified. |
| `Verdict.VerdictIsTrue` | benches/m1/d10_observations.rs:596-640 | The published verdict over the input rows and the reals: it says yes if and only if every case loses at most the admitted share of the reference speed and reaches the admitted share of an applicable vendor, and the product of (Ferric / vendor)^weight over the cases with a vendor reaches (minimum / 10^6)^(their total weight). |
| `Verdict.ReportIsTrue` | benches/m1/d10_observations.rs:860-889 | Every metric is about its own case: its medians, its weight, both printed numbers rounded down, both gates; the aggregate is that product as one fraction with the total weight as degree. |
| `Verdict.ReportsAreForRatedRosters` | benches/m1/d10_observations.rs:596-622 | Exactly the rosters of seven cases, weights up to 8192, with thirty rated rows for each applicable implementation get a report. |
| `Verdict.RateIsUnitsPerSecond` | benches/m1/d10_observations.rs:1102-1120 | A row is accepted exactly when its work units per second, rounded down, are a positive u64 and its work fits u128; that is its rate. |
| `Medians.GcdLoop` | benches/m1/d10_observations.rs:1701-1708 | The loop computes the function that `GcdIsGreatest` characterises. |
| `Medians.GcdIsGreatest` | benches/m1/d10_observations.rs:1701-1708 | The result divides both numbers and is divided by every common divisor. |
| `Medians.NewRational` | benches/m1/d10_observations.rs:150-156 | Construction reduces by the greatest common divisor. |
| `Medians.ReduceIsLowestTerms` | benches/m1/d10_observations.rs:150-156 | Same value, positive denominator, and no common divisor but 1. |
| `Medians.MedianInPlace` | benches/m1/d10_observations.rs:1572-1577 | The array ends up sorted and the result is the specified median of what it held. |
| `Medians.MedianIsCanonical` | benches/m1/d10_observations.rs:1572-1577 | The median depends only on the multiset; it is the mean of the two middle values of any sorted arrangement, in lowest terms, with denominator 1 or 2. |
| `Medians.MedianBounds` | benches/m1/d10_observations.rs:1572-1577 | Positive values up to a limit give a positive median with numerator at most twice the limit. |
| `Medians.SortKeepsDominance` | benches/m1/d10_observations.rs:1573-1573 | Raising values pointwise raises every order statistic. |
| `Medians.MedianMonotone` | benches/m1/d10_observations.rs:1572-1577 | Raising values pointwise never lowers the median. |
| `Gates.RatioGateMatchesPpm` | benches/m1/d10_observations.rs:1579-1604 | The vendor gate holds if and only if the printed ratio reaches the minimum. |
| `Gates.RegressionGateMatchesPpm` | benches/m1/d10_observations.rs:1587-1611 | The regression gate implies the printed value is within the maximum; a printed value below the maximum implies the gate; at equality, the exact condition. |
| `Gates.RegressionGateFailsAtPrintedMaximum` | benches/m1/d10_observations.rs:1587-1611 | A concrete pair of medians whose printed regression equals the maximum and whose gate fails. |
| `Gates.SlowerPpmSum` | benches/m1/d10_observations.rs:1579-1595 | When Ferric is slower, the printed ratio and regression add up to 10^6 or 10^6 - 1. |
| `Gates.RatioGateMonotone` | benches/m1/d10_observations.rs:1597-1604 | A passing ratio gate keeps passing when the numerator rises. |
| `Gates.RegressionGateMonotone` | benches/m1/d10_observations.rs:1606-1611 | A passing regression gate keeps passing when Ferric's median rises. |
| `Verdict.RatioGateIsReal` | benches/m1/d10_observations.rs:1597-1604 | The ratio gate holds if and only if the real ratio reaches the minimum. |
| `Verdict.RegressionGateIsReal` | benches/m1/d10_observations.rs:1606-1611 | The regression gate holds if and only if the real slowdown is within the maximum. |
| `Verdict.RegressionPpmIsReal` | benches/m1/d10_observations.rs:1587-1595 | The printed regression is the real slowdown rounded down, zero when there is none. |
| `Aggregate.PowChecked` | benches/m1/d10_observations.rs:1664-1684 | Returns base^exponent, or refuses exactly when the checked bit product exceeds the budget; the products stored along the way are exactly those of square-and-multiply, and each is within the checked bit product. |
| `Aggregate.SumWeights` | benches/m1/d10_observations.rs:1624-1628 | The weight sum, or the overflow refusal exactly when it leaves u64. |
| `Aggregate.MultiplyTerms` | benches/m1/d10_observations.rs:1629-1650 | Numerator and denominator of the product of ratio^weight, or the budget refusal, exactly when a power or a running product does not fit. |
| `Aggregate.WeightedAggregate` | benches/m1/d10_observations.rs:1613-1662 | The whole aggregate with all its refusals, as specified. |
| `Aggregate.WeightCapIsSufficient` | benches/m1/d10_observations.rs:39-40 | For up to seven validated cases and any u64 threshold, no weight overflow and no budget refusal is reachable in any power or running product: the 8192 cap suffices. |
| `Aggregate.GateIsExact` | benches/m1/d10_observations.rs:1651-1652 | The integer comparison holds if and only if, over the reals, the product of ratio^weight reaches (minimum/10^6)^total. |
| `Aggregate.AllPassForcesPass` | benches/m1/d10_observations.rs:1613-1662 | All cases at or above m force the aggregate to pass at m. |
| `Aggregate.AllFailForcesFail` | benches/m1/d10_observations.rs:1613-1662 | All cases below m, with positive total weight, force it to fail at m. |
| `Aggregate.GateMonotone` | benches/m1/d10_observations.rs:1613-1662 | Raising Ferric medians never turns a passing aggregate into a failing one. |
| `Disk.ApplyEvolves` | benches/m1/d10_observations.rs:2090-2099 | The publisher's own creations, writes, renames and unlinks obey the rules assumed of everyone: versions grow, names and links agree. |
| `Disk.Frozen` | benches/m1/d10_observations.rs:1874-1886 | Equal snapshots at two moments freeze the inode at every moment between. |
| `ExactBundle.Create` | benches/m1/d10_observations.rs:1910-1989 | Makes at most one directory, the empty one under the first candidate that was not seen taken, after the output name was seen absent; the bundle it returns adopted what stood there after seeing it named, with exact mode and owner, and empty, under a controlled parent; undisturbed, it succeeds exactly when the parent is controlled, the output name is free, a candidate is free and the kernel gave the new directory its mode and owner. |
| `ExactBundle.MakeStaging` | benches/m1/d10_observations.rs:1938-1988 | The nonce loop makes one empty directory under the first candidate name not seen taken, or changes nothing; without a refusal it gives up only when all 1024 candidates were seen taken. |
| `ExactBundle.AdoptStaging` | benches/m1/d10_observations.rs:1952-1979 | In this order: the staging name led to the directory, it had exact mode and owner, it was empty, and the parent was controlled; both snapshots are the ones seen then; undisturbed, it succeeds exactly when all of this holds. |
| `ExactBundle.Bundle.Write` | benches/m1/d10_observations.rs:1991-2050 | On success one new roster name is appended, on the inode made here, which was seen with exact metadata and exactly these bytes; on any path the only changes are to the file it created under that name; undisturbed, it fails only for an unexpected or taken name or wrong metadata; without a refusal, a file made and not staged loses its name again. |
| `ExactBundle.Bundle.Fill` | benches/m1/d10_observations.rs:2011-2047 | A file is staged only when its inode is the one created here and at one recorded moment had the snapshot, with exact metadata, and the written bytes; undisturbed, it is staged exactly when the new file has the right metadata. |
| `ExactBundle.Bundle.VerifyHeld` | benches/m1/d10_observations.rs:2226-2248 | Success means the held inode has the expected bytes at the final look, under the recorded snapshot; undisturbed, it succeeds exactly when that is so. |
| `ExactBundle.Bundle.VerifyDirectory` | benches/m1/d10_observations.rs:2171-2211 | Success means there was one moment at which the directory had exactly the roster's names and every paired file was bound, by inode and bytes, all at once; undisturbed, it succeeds exactly when the directory has the roster and every paired file is unchanged under its name. |
| `ExactBundle.FileWasThere` | benches/m1/d10_observations.rs:2183-2208 | A file whose snapshot matched before and after a moment, and that is in place afterwards, was in place at that moment. |
| `ExactBundle.BindingWasThere` | benches/m1/d10_observations.rs:2114-2133 | Equal parent snapshots around a look-up carry the looked-up binding to every moment between. |
| `ExactBundle.Bundle.RebindDirectory` | benches/m1/d10_observations.rs:2146-2156 | Success means the name led to the held directory at one recorded moment and the held directory then had the expected snapshot at two looks, the last one now; undisturbed, exactly then. |
| `ExactBundle.Bundle.RebindPublished` | benches/m1/d10_observations.rs:2158-2169 | Success means the output name led to the held directory at one recorded moment after the rename, and the held directory then had the expected identity metadata at two looks; undisturbed, exactly then. |
| `ExactBundle.Bundle.ValidateParent` | benches/m1/d10_observations.rs:2136-2145 | Success means the parent is at that moment exactly as in the snapshot, which is owner-controlled; undisturbed, exactly then. |
| `ExactBundle.Bundle.Settle` | benches/m1/d10_observations.rs:2066-2089 | Before the rename: the staging name led to the held directory, of exact mode and owner, at a recorded moment, the directory was complete at a later one, and the parent is unchanged; undisturbed, exactly then. |
| `ExactBundle.Bundle.Confirm` | benches/m1/d10_observations.rs:2101-2133 | After the rename: at one moment the output name led to the held, complete directory with the expected bytes; undisturbed, it succeeds exactly when the published state verifies. |
| `ExactBundle.Bundle.PublishExact` | benches/m1/d10_observations.rs:2052-2134 | Under arbitrary outside changes: the only own change is one rename onto a name free at that instant, made after the staged directory was complete; success means that at one later moment the output name was the held directory with exactly the roster's names, each staged inode under its name with the expected bytes; a failure before the rename changes nothing; undisturbed, it succeeds if and only if the bundle is ready: expected names, verified staged directory under its name, parent as recorded, output name free. |
| `ExactBundle.Bundle.OutputIsNeverReplaced` | benches/m1/d10_observations.rs:2090-2099 | Of all changes a bundle made since its creation (staging directory, files, rename, removals), none takes away or rebinds an output name that existed when it was made. |
| `ExactBundle.Bundle.UnlinkIfSame` | benches/m1/d10_observations.rs:2385-2403 | Unlinks only a staging name that at an earlier moment of the same call was bound to the given inode, and changes nothing else; unless a call was refused, there was a moment during it at which the name did not lead to the file. |
| `ExactBundle.Bundle.Drop` | benches/m1/d10_observations.rs:2213-2224 | A disarmed bundle does nothing; every unlink of an armed one follows a look-up that found the name of a staged file bound to its inode, and removes that very binding if the directory kept its version since; unless a call was refused, every staged file was seen without its name at some moment since. |
| `ExactBundle.RosterCoveredIffAllWritten` | benches/m1/d10_observations.rs:2183-2183 | In well-formed file systems, what verification establishes covers every roster name if and only if every roster name was written through the bundle. |
| `ExactBundle.DropRemovesOwnIff` | benches/m1/d10_observations.rs:2218-2221 | Whatever happens outside between look-up and unlink, the unlink is certain to remove the binding that was looked up if and only if the directory still has the version it had then; every other binding stays in any case. |
| `ExactBundle.RacingDropCanRemoveForeign` | benches/m1/d10_observations.rs:2218-2221 | Two states show that otherwise the unlink can remove somebody else's binding. |
| `Transcript.FollowIsWorkload` | tools/summarize_packed_host_timing.py:55-131 | The slot automaton accepts exactly the declared language: ready, queued, admission, batches 1-7, then token k and batch k+8 with equal completion times for k = 0..127, then request, stopped, with one `draining` anywhere between ready and stopped, and all field checks. |
| `Transcript.OnBatch` | tools/summarize_packed_host_timing.py:78-90 | The branch moves the machine exactly as the next slot of the language demands, or rejects. |
| `Transcript.OnQueued` | tools/summarize_packed_host_timing.py:91-100 | The same for `queued`. |
| `Transcript.OnAdmission` | tools/summarize_packed_host_timing.py:101-111 | The same for `admission`. |
| `Transcript.OnToken` | tools/summarize_packed_host_timing.py:112-121 | The same for `token`, with the pending-token protocol. |
| `Transcript.OnRequest` | tools/summarize_packed_host_timing.py:122-130 | The same for `request`: the collected tokens, timestamps and batches are the whole request. |
| `Transcript.OnControl` | tools/summarize_packed_host_timing.py:63-77 | The same for ready, draining and stopped, and everything else is rejected. |
| `Transcript.ValidateEvents` | tools/summarize_packed_host_timing.py:59-131 | The loop over an arbitrary event list accepts if and only if the list is in the language. |
| `Transcript.ValidateWorkload` | tools/summarize_packed_host_timing.py:55-131 | Acceptance is equivalent to: setup and close records exact, and the events between them in the language. |
| `TranscriptRecords.WorkloadsAreRuns` | tools/summarize_packed_host_timing.py:55-131 | The accepted event lists, with every field spelled out: they are exactly the lists for which some request, 128 prompt tokens, 128 tokens and 128 ordered times exist such that each of the 268 events holds the fields of its record; so the request repeats the tokens and times of the token events, element by element. |
| `TranscriptRecords.EveryRunIsAccepted` | tools/summarize_packed_host_timing.py:55-131 | Whatever the request, prompt, tokens and ordered times, and wherever the drain stands, the transcript that spells them out is accepted. |
| `TimingPartition.ValidateRows` | tools/summarize_packed_host_timing.py:175-195 | Accepts exactly the rows that are well formed and have pairwise different keys. |
| `TimingPartition.CoveringIsInjective` | tools/summarize_packed_host_timing.py:217-226 | Rows with different scopes, each covered by a row at least as long, sum to no more than the covering rows: the covering is one to one. |
| `TimingPartition.AnalyzeBatch` | tools/summarize_packed_host_timing.py:198-238 | A batch is accepted exactly when all its checks hold, and its split is the specified one. |
| `TimingPartition.PartitionIsExact` | tools/summarize_packed_host_timing.py:227-238 | In every accepted batch the five parts are non-negative and sum to the batch wall time. |
| `TimingPartition.Analyze` | tools/summarize_packed_host_timing.py:134-245 | The whole analysis is produced exactly when rows, all 135 batches and both sums are acceptable. |
| `TimingPartition.SummariesConserve` | tools/summarize_packed_host_timing.py:239-242 | Prefill and decode summaries are exact splits themselves and together equal the sum over all batches. |
| `TimingReport.ReportIsTrue` | tools/summarize_packed_host_timing.py:196-242 | Every part of every batch, and of the prefill and decode totals, is the elapsed time of the rows it is named after, summed straight over the rows by batch, category and label; wall time is that of the one batch span. |
| `TimingReport.CountersAreScheduled` | tools/summarize_packed_host_timing.py:210-216 | Group and packet counters of an accepted batch, summed straight over the rows, are 72 and 612 up to batch 8 and 11 and the decode packets after; all round trips carry 613, 616 or the decode packets. |
| `TimingReport.BatchIsCovered` | tools/summarize_packed_host_timing.py:217-226 | Every worker interval and packing span of an accepted batch has an ordered round trip of its phase, rank and count; other round trips dispatch packets only as plain dispatches of prefill batches. |
| `TimingReport.RowsAreSound` | tools/summarize_packed_host_timing.py:173-195 | Every accepted row is within its bounds: no failures, maximum and elapsed consistent, spans without transport counters, worker rows with 1 to 64 packets a group. |
| `TimingReport.OrdinaryRowsAreAccepted` | tools/summarize_packed_host_timing.py:134-245 | The five rows that an undisturbed batch leaves, for any times of 135 batches, are accepted. |
| `TimingPartition.PacketsAreConserved` | tools/summarize_packed_host_timing.py:168-170 | Transport dispatches over batches 1-135 sum to 4907 + 127 times the decode packets, ordered groups sum to 1973, and no row belongs to another batch. |
| `TimingPartition.TranscriptPacketsAreConserved` | tools/summarize_packed_host_timing.py:81-87 | The packet counts reported in an accepted transcript sum to the same closed total. |
| `Lexer.ScanRawString` | proofs/check-source.py:36-54 | The raw-string loop finds the specified end, none, or the unterminated error. |
| `Lexer.ScanQuoted` | proofs/check-source.py:57-66 | The quoted-literal loop finds the specified end or the error, escapes included. |
| `Lexer.StepAdvances` | proofs/check-source.py:69-160 | Every scanner step strictly advances and never passes the end. |
| `Lexer.CodeOnly` | proofs/check-source.py:69-111 | The first scanner returns exactly the specified code characters, or the same error. |
| `Lexer.LexicalMask` | proofs/check-source.py:114-160 | The second scanner, overwriting cells in place, returns exactly the specified mask, or the same error. |
| `Lexer.ScannersAgree` | proofs/check-source.py:69-160 | Both fail on the same sources with the same error; the mask keeps length and newlines, changes only to blanks, and its inked characters are those the first scanner returns. |
| `Lexemes.LiteralEndsAtFirstBareQuote` | proofs/check-source.py:57-66 | A quoted literal ends right after its first quote preceded by an even run of backslashes, and is unterminated exactly when there is none. |
| `Lexemes.CommentEndsWhenNestingCloses` | proofs/check-source.py:73-91 | A block comment ends where the nesting of its non-overlapping marks first returns to zero, and is unterminated exactly when it never does. |
| `Lexemes.RawStringEndsAtTerminator` | proofs/check-source.py:36-54 | A raw string is `r` or `br`, hashes and a quote, and ends after the first quote with as many hashes; nothing else is one. |
| `Lexemes.StepIsLexeme` | proofs/check-source.py:69-111 | A scanner step keeps a character exactly when no comment or literal opens there, otherwise skips exactly to its end, and fails exactly when it has none. |
| `Lexemes.ScansAreLexings` | proofs/check-source.py:69-160 | A source scans exactly when it can be cut into code characters, comments and literals; then the first scanner returns the code characters and the second blanks everything else but newlines. |
| `VerusBlocks.FindClose` | proofs/check-source.py:167-178 | The brace loop finds the end of the shortest balanced range, and none only if no range from the opening brace is balanced. |
| `VerusBlocks.CutBlocks` | proofs/check-source.py:164-178 | The blocks are the source slices of those ranges, or the unterminated error. |
| `VerusBlocks.ExtractBlocks` | proofs/check-source.py:163-181 | The newline-joined blocks of all matches, or the specified error, also when there is no block. |
| `VerusBlocks.MatchesAreOccurrences` | proofs/check-source.py:166-166 | The blocks start from every match of the expression in the mask, and only from those, in order. |
| `VerusBlocks.JoinSeparates` | proofs/check-source.py:181-181 | Blocks are joined by one newline each. |
| `ScanLocality.BlockScanIsLocal` | proofs/check-source.py:163-204 | Scanning only the extracted blocks is local: the first scanner on the joined blocks returns the join of the code characters that a whole-file scan keeps in those ranges, and each block is the shortest balanced range. |
| `Subprocess.WriteNonblocking` | benches/m1/d10_collect.rs:1471-1495 | For any partial writes and interruptions, what was delivered is a prefix of the request, and all of it once the slot is empty; it fails only when a call does, and stays open only when a write would block. |
| `Subprocess.DrainNonblocking` | benches/m1/d10_collect.rs:1497-1525 | What is captured is what was read, within the cap, and the end is reported exactly when the stream ended; it fails only when a call does or too much comes, and stops before the end only when a read would block. |
| `Subprocess.TerminateSubprocess` | benches/m1/d10_collect.rs:1534-1543 | Group killed, leader killed, leader reaped, in that order. |
| `Subprocess.Communicate` | benches/m1/d10_collect.rs:1370-1436 | Finished means everything delivered and both streams at their end, otherwise the child has been terminated and reaped; the group was killed either way; no pass touches the child at or after the deadline, and there are at most as many pauses as ticks until then; it gives up only at the deadline, when a call fails or when too much comes. |
| `Subprocess.RunSubprocess` | benches/m1/d10_collect.rs:1307-1462 | Every path after the spawn kills the group and reaps the leader once and last, and no pass starts at or after the deadline; a result means the whole request was delivered, the output is all that was read up to its end, within the cap and canonical, standard error was empty and the status zero; a result is withheld only for such a reason or because of what the child returned. |
| `Subprocess.ReapIsLast` | benches/m1/d10_collect.rs:1534-1543 | In such a log the only reap is the last event, so nothing is signalled after it. |
| `Collector.SampleIdIsInjective` | benches/m1/d10_collect.rs:1596-1598 | Identifiers of dot-free parts are injective in case, implementation, phase and any sequence number. |
| `Collector.SafePartsAreNotEnough` | benches/m1/d10_collect.rs:1694-1704 | With safe but dotted parts, different samples share an identifier. |
| `Collector.ParsePlan` | benches/m1/d10_collect.rs:440-518 | A plan is parsed exactly when every manifest case is admitted: roster case, admitted member, pinned resources, inspector command, and implementations as the policy pins them. |
| `Collector.ParseImplementations` | benches/m1/d10_collect.rs:601-740 | Exactly the slots the policy calls for: name, configuration digest, command with protocol and bounded arguments, and binary digest. |
| `Collector.PreflightOrderBindings` | benches/m1/d10_collect.rs:771-820 | Passes exactly when both order digests of every case match the announced projections. |
| `Collector.CollectObservations` | benches/m1/d10_collect.rs:850-972 | Succeeds exactly when every resource inspection and every planned sample succeeds, and then returns the specified rows, with their identity fields, in order. |
| `Collector.InsertSampleIds` | benches/m1/d10_observations.rs:1058-1101 | Accepts exactly sequence-numbered, safe identifiers that are new to the global set and to each other, and adds them. |
| `Collector.ValidateImplementation` | benches/m1/d10_observations.rs:944-1101 | A row is accepted exactly when its identity fields are the pinned ones, its member and samples meet the declarative condition, and its identifiers are new. |
| `Collector.ValidateRows` | benches/m1/d10_observations.rs:798-859 | A case is accepted exactly when its rows are, they share one member, their identifiers are new, and both order digests match. |
| `Collector.ValidateCollected` | benches/m1/d10_observations.rs:596-622 | All cases are accepted exactly when each is in order and no identifier occurs twice anywhere. |
| `Collector.ProjectionsAgree` | benches/m1/d10_observations.rs:1524-1557 | The projections recomputed from collected rows are the ones preflight digested. |
| `Collector.PlannedProvenance` | benches/m1/d10_observations.rs:984-1032 | The identity fields the collector writes (binary, configuration, environment, command, protocol, roster, budget, bindings) are the ones the validator demands. |
| `Collector.CollectedIdsAreDistinct` | benches/m1/d10_observations.rs:1559-1570 | No identifier the collector writes repeats, over all cases, implementations and phases. |
| `Collector.CollectedRowsAreAccepted` | benches/m1/d10_collect.rs:771-962 | Rows collected under a parsed plan are accepted if and only if preflight passed: identity, uniqueness, sequence, member and order checks never reject them afterwards. |
| `Collector.AcceptedRowsAreComplete` | benches/m1/d10_observations.rs:798-859 | Accepted rows are the seven cases of three implementations, ten warmups and thirty recorded samples each where applicable, numbered from zero, with one shared member and the pinned identity fields. |
| `Collector.CollectedSamplesAreNamed` | benches/m1/d10_collect.rs:1596-1604 | The collector names sample k of a phase case.implementation.phase.kk, and runs only commands with the pinned binary, an admitted protocol and at most 128 bounded ASCII arguments. |
| `EvidenceIndex.ValidateArtifacts` | proofs/check-m1-evidence-index.py:458-499 | The table by id, exactly when every artifact is valid and the roster canonical. |
| `EvidenceIndex.ValidateSources` | proofs/check-m1-evidence-index.py:502-572 | Accepts exactly the two sources with their closure artifacts and marks those used. |
| `EvidenceIndex.ValidateTcb` | proofs/check-m1-evidence-index.py:575-613 | Accepts exactly the three TCB entries with their reports, each used once. |
| `EvidenceIndex.CollectBindings` | proofs/check-m1-evidence-index.py:890-963 | The loop accepts exactly when every record is valid and ids, artifacts and triplets do not repeat; its groups are the bindings by obligation. |
| `EvidenceIndex.ValidateBindings` | proofs/check-m1-evidence-index.py:868-978 | The same, with canonical order and profile-kind and path closure for every obligation. |
| `EvidenceIndex.GroupIsAlreadySorted` | proofs/check-m1-evidence-index.py:977-977 | Each group is in order before it is sorted, so the sort changes nothing. |
| `EvidenceIndex.ValidateObligations` | proofs/check-m1-evidence-index.py:993-1134 | Accepts exactly when every obligation record matches its specification, rosters equal the groups, and receipts are consistent. |
| `EvidenceIndex.ValidateIndex` | proofs/check-m1-evidence-index.py:1302-1401 | The structural passes accept exactly the declaratively acceptable indexes, in both modes. |
| `EvidenceContents.ObligationsSayWhatTheyMust` | proofs/check-m1-evidence-index.py:1008-1129 | Every obligation of an accepted index stands at its place, names exactly the bindings of its key, and lists exactly its theorem and mutation, validator, or rationale artifacts, in order, or its dependencies and receipt. |
| `EvidenceContents.BindingsAreCalledFor` | proofs/check-m1-evidence-index.py:890-951 | Every binding is evidence that its obligation calls for, by profile, kind, class, path, source and statement, backed by an artifact of the kind that goes with it. |
| `EvidenceContents.NothingCalledForIsMissing` | proofs/check-m1-evidence-index.py:964-976 | Every profile and kind that an obligation calls for, and every path, has a binding. |
| `EvidenceContents.SourcesAndTcbAreBacked` | proofs/check-m1-evidence-index.py:502-613 | The two sources and three TCB entries are the named ones, each backed by an artifact of its kind with the recorded identity. |
| `EvidenceIndex.EachBindingHasOneObligation` | proofs/check-m1-evidence-index.py:1055-1064 | In an accepted index each binding is named by exactly one obligation, the one whose key it carries. |
| `EvidenceIndex.EachArtifactHasOneRole` | proofs/check-m1-evidence-index.py:1351-1401 | Artifacts split exactly into closures, TCB reports, binding evidence and receipts, pairwise disjoint; bindings and TCB entries map one to one to artifacts. |
| `EvidenceIndex.RosterEqualityIsCover` | proofs/check-m1-evidence-index.py:1055-1064 | Roster equality alone already implies the later no-reuse and all-referenced checks. |
| `EvidenceIndex.DroppingTheReceipt` | proofs/check-m1-evidence-index.py:1351-1401 | Dropping the receipt from an accepted index leaves a candidate that the pre-receipt structural stages accept if and only if the receipt had the canonical id. |
| `EvidenceExample.OtherReceiptIdIsAccepted` | proofs/check-m1-evidence-index.py:1072-1081 | A concrete index with receipt id `g` that the full mode accepts and whose candidate without the receipt the pre-receipt mode refuses. |
| `Strings.SortedSetIsCanonical` | proofs/check-device-binding.py:157-160 | `sorted(set(...))` of two lists is equal if and only if they have the same elements: order and repetition do not matter, membership does. |
| `Strings.SortedSorts` | proofs/check-m1-evidence-index.py:981-990 | `sorted` returns the same strings, none before an earlier one. |
| `DeviceBinding.LittleRoundTrip` | proofs/check-device-binding.py:49-52 | Little-endian length bytes decode to the number. |
| `DeviceBinding.TakeFieldInverts` | proofs/check-device-binding.py:49-52 | A length-prefixed field followed by anything parses back to the field and the rest. |
| `DeviceBinding.DecodeInverts` | proofs/check-device-binding.py:67-69 | Any list of fields is recovered from its bytes. |
| `DeviceBinding.DeriveBinding` | proofs/check-device-binding.py:55-64 | The digest object is fed exactly the specified preimage, or an error for an empty item or an oversized field. |
| `DeviceBinding.BindingIsDecodable` | proofs/check-device-binding.py:55-64 | Equal binding preimages mean equal crate names and metadata lists. |
| `DeviceBinding.BodyDecodes` | proofs/check-device-binding.py:55-64 | Read back, the preimage gives the crate name, the number of metadata values and the values. |
| `DeviceBinding.ParseArguments` | proofs/check-device-binding.py:89-146 | The index loop over argv records what the specification parser records, or its error. |
| `DeviceBinding.ParseAppend` | proofs/check-device-binding.py:120-146 | Complete options parse independently of what follows them. |
| `DeviceBinding.SpellingDoesNotMatter` | proofs/check-device-binding.py:82-146 | For the whole function: if either spelling is accepted, split and joined agree if and only if the value does not itself spell `--crate-name` and the option does not directly follow a bare `--crate-name`. |
| `DeviceBinding.SpellingRecordsTheSame` | proofs/check-device-binding.py:108-146 | Split and joined spellings record the same options anywhere on the command line. |
| `DeviceBinding.SplitValueCanNameTheCrate` | proofs/check-device-binding.py:195-207 | `--cfg` with the value `--crate-name` names the crate when split and does not when joined: one is accepted, the other refused. |
| `DeviceBinding.EmptyCodegenHasNoJoinedSpelling` | proofs/check-device-binding.py:132-143 | An empty `-C` value is lost in the joined spelling, which takes the next argument instead. |
| `DeviceBinding.NothingAfterDashes` | proofs/check-device-binding.py:82-124 | For the whole function: arguments appended after `--` to an accepted command line change nothing if and only if none of them spells `--crate-name`. |
| `DeviceBinding.NothingRecordedAfterDashes` | proofs/check-device-binding.py:121-124 | The option loop records nothing after `--`. |
| `DeviceBinding.CrateNameCountsAfterDashes` | proofs/check-device-binding.py:195-207 | Any accepted command line is refused once `--crate-name=z` follows its `--`. |
| `DeviceBinding.DerivePortable` | proofs/check-device-binding.py:72-163 | The portable preimage, or the first error, as specified. |
| `DeviceBinding.PortableIsDecodable` | proofs/check-device-binding.py:72-163 | Portable preimages are equal if and only if package identity, cfg set, crate-type set and ordered option list are. |
| `CommandLines.ParsesWhatIsGiven` | proofs/check-device-binding.py:89-146 | A command line written option by option, in any mix of spellings, records exactly its cfg values, crate types, editions, targets and the sixteen portable codegen options, in order. |
| `CommandLines.HashedFieldsAreGiven` | proofs/check-device-binding.py:148-163 | What is hashed for it, field by field: package name and version, manifest digest, crate name, sorted cfg set, sorted crate-type set, other options in order. |
| `CommandLines.AcceptedCommandLines` | proofs/check-device-binding.py:72-87 | A command line is accepted exactly when it names the expected crate once, package and version are non-empty, the manifest digest is 64 hexadecimal digits and every option has its value. |
| `Canaries.ParseCanaryLayout` | benches/m1/adversarial.rs:1566-1612 | Accepts exactly 1 to 1024 regions that are each well formed and pairwise apart in place and name, although the loop only compares neighbours; the result mirrors the document. |
| `Canaries.ParsedLayoutsAreDisjoint` | benches/m1/adversarial.rs:1597-1602 | Every accepted layout is sorted and disjoint. |
| `Canaries.CompareCanaries` | benches/m1/adversarial.rs:1696-1730 | The loop returns the specified count or the first fault, for any regions. |
| `Canaries.CountIsExact` | benches/m1/adversarial.rs:1696-1730 | For disjoint regions: success if and only if every region is in range with an intact baseline; the count is the number of distinct guard positions whose byte changed, at most the snapshot length; the overflow error is unreachable. |
| `Canaries.OnlyGuardsMatter` | benches/m1/adversarial.rs:1696-1730 | Bytes outside the regions never change the outcome, for any regions. |
| `NumericalReplay.NarrowRoundsTiesToEven` | tools/replay_tp_numerical_capture.py:107-109 | For every finite binary32 pattern the result is roundTiesToEven as in section 4.3.1 of IEEE 754-2019: nearest among all finite BF16 values, even on a tie, infinity from the overflow threshold on, sign kept. |
| `NumericalReplay.RoundingIsUnique` | tools/replay_tp_numerical_capture.py:107-109 | No other 16 bits meet that rule. |
| `NumericalReplay.NarrowUndoesWiden` | tools/replay_tp_numerical_capture.py:95-109 | Widening and narrowing returns every 16-bit pattern; `bf16` accepts exactly the finite ones and keeps their value. |
| `NumericalReplay.NarrowOfNonFinite` | tools/replay_tp_numerical_capture.py:107-109 | Infinities stay; a NaN within half a BF16 step of the lowest NaN code becomes an infinity of its sign, one within half a step of the highest a zero of the other sign, and exactly the others stay NaNs of their sign. |
| `NumericalReplay.EveryCellIsCompared` | tools/replay_tp_numerical_capture.py:123-126 | Success if and only if every element of the actual buffer is the transposed element of the original. |

## Left out

- The engine crates (scheduler, paged KV, speculation) and everything that calls them, such as `run_exhaustion`.
- JSON text, canonical encoding and SHA-256: documents are typed values, digests are arbitrary functions, and what is proved about digests is proved about their preimages.
- Long lists of exact-string checks (authority, format, document headers) and the telemetry and resource checks of the D10 validator: each is settled by reading one branch.
- Collector.ValidateImplementation: does not model the telemetry, timing and subprocess fields of single samples, which are exact-string and range checks; `Observations` carries the measured numbers of the same rows, so only which of two faults is reported first could differ from the interleaved source loop.
- Collector.ParsePlan: does not model the manifest header, toolchain and environment variables; an executable is opened or not.
- Collector.CollectObservations: a resource inspection or a sample succeeds or fails as a whole, and the case-level resource and profile fields it copies are not represented.
- `TimingPartition` takes aggregate rows as typed records: the check of their JSON keys and types is not modelled; integer bounds are.
- Python floats in `Json` are reals: numbers that overflow to infinity while parsing are not modelled.
- Outside changes in `Disk` are arbitrary, except that every change to an inode or to the names bound to it gets a new change time an inode held open is not reused, and a file stays a file; the source relies on this when it compares snapshots.
- `write_all` is one write, and device numbers, symbolic links and the `openat2` resolution flags are not represented.
- `fsync`, hooks and input revalidation only take time and may fail.
- A directory listing is one atomic step in `Disk`, while the source reads entries in a loop: the one moment at which a directory was complete is the moment of that listing.
- Liveness of publication and of the subprocess loop is stated for runs in which no call is refused and, for publication, nobody else changes anything: the kernel may fail any call. The number of interrupted system calls in one run is finite, and the clock advances between passes only.
- Spawning details, environments and held executables in the collector: a spawn succeeds or fails.
- Medians.SortUnstable: only the effect of the library sort is modelled, by an insertion sort.
- Character classes (`isalpha`, `\w`, `\s`) are arbitrary predicates, with `\s` excluding `!`, `{` and `v`; UTF-8 is an arbitrary injective encoding.
- The regular expressions for forbidden identifiers and attributes in `scan`, git, source closures, path resolutions, foundation reachability and the trusted producers of the evidence index.
- EvidenceIndex.EachArtifactHasOneRole: assumes that the requirements manifest gives `tcb-report` no obligation class, which proofs/check-m1-requirements.py enforces before the index is read.
- `NumericalReplay` starts from the binary32 pattern: the rounding from Python's double by `struct.pack` and the accumulation in `sampled_dot` are not modelled.
- `serde_json` number parsing and `usize` narrower than 64 bits in `Canaries`.
