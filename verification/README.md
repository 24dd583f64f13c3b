# dnseval in Dafny

dnseval is a small Node.js script (`index.js`) that benchmarks public DNS
resolvers. It reads a table of providers from `providers.csv`, where each row
holds a name, a `;`-separated IPv4 column and a `;`-separated IPv6 column.
For every address of every provider, every hostname of a fixed list is looked
up `SAMPLES_PER_HOST` (200) times with `dns.lookup`, the address passed in the
lookup's options. Node's `dns.lookup` has no option naming a server: it
resolves through the operating system's `getaddrinfo`, so the address is
ignored and every provider is in fact timed against the system resolver. Each (address, hostname) pair whose
lookups did not all fail contributes one average. A provider's averages are
reduced to a median, a minimum, a maximum and a sample count, or to "N/A"
when there are none. While it runs, the script redraws a progress bar after
every pair. At the end it sorts the provider rows by median, with the "N/A"
rows pushed towards the end, and prints them.

This project models that core as pure functions over exact arithmetic, plus
methods that follow the script's loops and its hand-threaded `currentTest`
counter. The methods are proved to compute what the functions define. The
modules follow the script:

- `Text`: trimming, splitting and joining strings.
- `Providers`: reading the table and its rows.
- `Sampler`: address family, trials and the per-pair average.
- `Stats`: sum, mean, minimum, maximum, the ascending sort and the median.
- `Progress`: `createProgressBar`.
- `Evaluator`: `testIPAddress` and `testDNSProvider`.
- `Ranking`: the final sort.
- `Scan`: `main`.
- `Options` and `Seqs` are small shared helpers.

The DNS lookup and the clock are replaced by an oracle parameter of type
`Lookup -> Option<real>`. A `Lookup` names the hostname, the resolver
address the script passes (which the real lookup ignores), the family, and the lookup's place in the scan. The oracle answers
`Some(ms)` for a lookup that resolved after `ms` milliseconds and `None` for
one that was rejected.

Three behaviours of the code are modelled exactly as written:

- **The progress counter is per provider.** The counter handed to
  `createProgressBar` is `(currentProvider - 1) * totalTests + currentTest`
  out of `totalProviders * totalTests`. Here `totalTests` is the current
  provider's own pair count. So the counter is not a count of all pairs
  tested. Its total changes from one provider to the next whenever their pair
  counts differ. The counter itself skips values when the next provider has
  more pairs (`Scan.UnequalCountsExample`) and drops back when it has fewer
  (`Scan.FallingCounterExample`).
  It is still drawable at every redraw, and the share it shows still rises
  strictly throughout the scan (`Scan.ScanProgress`).
- **A row with fewer than three fields crashes the scan.** Calling `split` on
  the missing column throws a TypeError. That rejects `main` before the final
  table is printed, after the earlier providers' redraws have been shown.
- **The final comparator is inconsistent.** It answers 1 whenever its first
  row is "N/A", including when both rows are and when a row is compared with
  itself. It is therefore not a consistent comparator in the sense of
  ECMA-262's definition of `Array.prototype.sort`, and once an "N/A"
  row is present the language leaves the whole resulting order
  implementation-defined. The model sorts by insertion with this comparator
  and promises nothing about the order among "N/A" rows.

## Model

| member | source | states |
|---|---|---|
| Text.Trim | index.js:164-164 | `trim()` returns the input with its leading and trailing whitespace runs removed; the result neither starts nor ends with whitespace |
| Text.TrimRecovers | index.js:164-164 | trimming whitespace around a body that has none at its ends gives the body back |
| Text.Split | index.js:164-165 | `split(sep)` gives at least one piece and no piece contains the separator |
| Text.JoinSplit | index.js:164-165 | joining the pieces of a split with the separator rebuilds the string |
| Text.SplitJoin | index.js:164-165 | splitting a join of separator-free pieces gives the pieces back |
| Text.NonEmpty | index.js:98-99 | `filter(Boolean)` on strings keeps no empty piece, at most as many pieces as it is given, and every non-empty piece that occurs |
| Text.NonEmptyConcat | index.js:98-99 | filtering a list laid end to end filters each part in turn, so the kept pieces stay in input order, each as often as it occurs |
| Text.NonEmptySingle | index.js:98-99 | a single piece is kept exactly when it is not empty |
| Text.SplitAround | index.js:98-99 | splitting at a separator gives the pieces before it followed by the pieces after it |
| Text.ConcatSplit | index.js:98-99 | the pieces of a split hold every character of the string except the separators |
| Providers.SplitAddresses | index.js:98-99 | an address column becomes non-empty `;`-free pieces of the column, holding all of its characters but the semicolons; a column with no `;` is one address, or none when it is empty |
| Providers.SplitAddressesAround | index.js:98-99 | the addresses of two columns joined by `;` are those of the first followed by those of the second, which with the single-column case fixes the result's order and multiplicity |
| Providers.SplitAddressesExample | index.js:98-99 | the column "aa;;a" gives ["aa", "a"]: the empty piece is dropped and the order kept |
| Providers.SplitAddressesRoundTrip | index.js:98-99 | a list of well-formed addresses written with `;` and read back is unchanged, the empty list included |
| Providers.ParseProvider | index.js:97-99 | a row with three or more fields yields a provider named by its first field; a shorter row fails with the TypeError of calling `split` on `undefined` |
| Providers.ParseFormatRow | index.js:97-99 | a provider written as a comma-separated row is read back unchanged when no field holds a comma |
| Providers.Rows | index.js:164-165 | the data lines are the trimmed file split on newlines without its first line, and none holds a newline |
| Providers.RowFields | index.js:165-165 | one field list per data line, with at least one field; the fields of line i are comma-free and joined with commas give back line i |
| Providers.RowsRoundTrip | index.js:163-165 | a header line and data lines, with any whitespace around them, yield exactly the data lines |
| Providers.TableRoundTrip | index.js:163-165 | a table written from representable providers under a header, with any whitespace around it, has one row per provider, and row i parses back as provider i |
| Sampler.FamilyOf | index.js:56-61 | the lookup family is 6 exactly when the address contains a colon, and 4 exactly when it contains none |
| Sampler.FamilyExamples | index.js:56-61 | `2606:4700:4700::1111` is looked up as IPv6 and `8.8.8.8` as IPv4 |
| Sampler.TimingsMembers | index.js:59-63 | the timings are empty exactly when every trial failed, hold the time of every success, and hold only times of successes |
| Sampler.TimingsConcat | index.js:59-63 | the timings of consecutive runs of trials are those of each run, in order |
| Sampler.AverageBounds | index.js:59-66 | the average exists exactly when some trial succeeded, and lies between the fastest and the slowest success |
| Sampler.AverageIgnoresFailure | index.js:40-62 | a failed trial, whose time is -1, changes nothing in the average |
| Sampler.AverageOrderIndependent | index.js:64-65 | the average depends only on the multiset of successful times |
| Sampler.AverageExample | index.js:59-66 | two successes of 10 ms and 20 ms and one failure average to 15 ms |
| Stats.Min | index.js:156-156 | `Math.min` over a non-empty list is an element at most every element |
| Stats.Max | index.js:157-157 | `Math.max` over a non-empty list is an element at least every element |
| Stats.SumPermutation | index.js:65-65 | the sum does not depend on the order of the values |
| Stats.MeanBounds | index.js:65-65 | the mean lies between the minimum and the maximum |
| Stats.MinMaxPermutation | index.js:146-157 | reordering the list, as the in-place sort does, leaves its minimum and maximum unchanged |
| Stats.SortAscending | index.js:146-146 | `sort((a, b) => a - b)` yields an ascending permutation of its input |
| Stats.SortedUnique | index.js:146-146 | two ascending permutations of the same values are equal, so the sorted list is determined by the values |
| Stats.Median | index.js:147-151 | the median of a sorted list is at least its lower half and at most its upper half, and lies between its ends |
| Stats.MedianExamples | index.js:147-151 | an odd list gives its middle element; an even list gives the mean of the two middle elements |
| Stats.SortedExtremes | index.js:146-157 | the minimum and maximum of a sorted list are its first and last elements |
| Progress.RoundHalfUp | index.js:11-11 | `Math.round` gives the integer within half of its argument, halves going up |
| Progress.FilledCount | index.js:11-11 | the filled length is at most the width, within half a glyph of `current / total * width`, 0 at the start and the full width at the end |
| Progress.FilledIsNearest | index.js:11-11 | the filled length is `current / total * width` rounded, halves going up |
| Progress.FilledMonotone | index.js:11-11 | a larger count never fills fewer glyphs of the same bar |
| Progress.Percentage | index.js:15-15 | the printed percentage is within 0.05 of `current / total * 100` |
| Progress.ToFixedClose | index.js:155-157 | a number printed with `toFixed(d)` is within half a unit in the last place |
| Progress.ToFixedMonotone | index.js:185-185 | printing with a fixed number of decimals never reverses an order |
| Progress.CreateProgressBar | index.js:10-17 | filled and empty glyphs add up to the width, the filled length is the rounded share, the bar is empty at 0 and full at the total, and the percentage is within 0.05 of the share |
| Progress.Render | index.js:13-17 | the bar text is the filled glyphs followed by the empty glyphs |
| Progress.BarExample | index.js:10-17 | 50 of 200 on a 40-wide bar fills 10 glyphs, leaves 30 empty and reads 25.0 % |
| Evaluator.Summarize | index.js:134-159 | no averages give "N/A" everywhere and 0 samples; otherwise every column is a number and the sample count is the number of averages |
| Evaluator.SummaryBounds | index.js:146-157 | the reported minimum and maximum are averages bounding every average, and the median lies between them |
| Evaluator.SummaryMedian | index.js:146-157 | the minimum and maximum are the ends of the ascending list and the median splits it in halves |
| Evaluator.SummarizeOrderIndependent | index.js:134-158 | the summary depends only on the multiset of averages, not on the order they were collected in |
| Evaluator.PairsBetweenLength | index.js:100-101 | a run of addresses tested against the host list yields addresses times hosts pairs |
| Evaluator.PairAt | index.js:105-132 | the pairs go address by address, each address against every host in order |
| Evaluator.PairsBetweenMembers | index.js:105-132 | every pair is an address of the run against a host of the list |
| Evaluator.ResultsConcat | index.js:134-134 | the averages of the IPv4 pairs come before those of the IPv6 pairs |
| Evaluator.NoSuccessesIffAllFail | index.js:64-67 | no average is collected exactly when every pair failed |
| Evaluator.SuccessesCount | index.js:64-67 | the number of averages is the number of pairs with at least one success |
| Evaluator.ProviderPairCount | index.js:100-101 | a provider tests exactly `totalTests` = (IPv4 + IPv6 addresses) times hosts pairs |
| Evaluator.EvaluateProvider | index.js:91-159 | the summary carries the provider's name, at most `totalTests` samples, and "N/A" exactly when it has no sample |
| Evaluator.NoSamplesIffAllPairsFail | index.js:134-144 | a provider reports 0 samples exactly when every one of its pairs failed |
| Evaluator.SamplesCountSuccessfulPairs | index.js:134-158 | the sample count is the number of pairs that produced an average |
| Evaluator.PairFails | index.js:59-64 | a pair whose 200 lookups all fail contributes nothing |
| Evaluator.AllFailuresGiveNA | index.js:136-144 | when every lookup fails the provider is reported as "N/A" with 0 samples |
| Evaluator.LookupFamilyFollowsAddress | index.js:56-61 | every lookup goes to one of the provider's addresses for one of the hosts, with family 6 exactly when that address contains a colon |
| Evaluator.BarOf | index.js:71-74 | a drawable redraw fills the bar's width, is empty at count 0 and full when the count reaches the total |
| Evaluator.UpdatesConcat | index.js:69-116 | the redraws of consecutive runs of pairs keep counting on from where the previous run stopped |
| Evaluator.SampleHost | index.js:59-63 | the sampling loop makes the pair's 200 lookups in order and keeps the times of the successes |
| Evaluator.TestPair | index.js:58-67 | one pair yields the average of its successful lookups, or nothing |
| Evaluator.TestIPAddress | index.js:46-89 | one address yields the averages of its pairs in host order, one redraw per host counting on from the caller's `currentTest`, and a counter advanced by the number of hosts |
| Evaluator.TestColumn | index.js:104-132 | a column's addresses yield the averages, lookups and redraws of their pairs in order, the caller's counter advancing by the number of hosts after each address |
| Evaluator.TestDNSProvider | index.js:91-160 | a row with a missing column fails before any lookup; otherwise the summary, lookups and redraws are those of the provider's pairs, IPv4 first, counting from 1 to `totalTests` |
| Ranking.Compare | index.js:182-186 | the comparator is positive when the first row is "N/A", negative when only the second is, and otherwise orders the medians as printed with four decimals |
| Ranking.CompareNotAntisymmetric | index.js:183-183 | two "N/A" rows each compare as greater than the other |
| Ranking.CompareAntisymmetricOnNumbers | index.js:185-185 | two numeric rows compare in opposite ways when swapped |
| Ranking.Rank | index.js:182-186 | the ranked table is a permutation of the summaries |
| Ranking.RankRanked | index.js:182-186 | after ranking, every numeric row comes before every "N/A" row and the numeric medians are non-decreasing |
| Ranking.RankKeys | index.js:182-186 | ranking keeps the multiset of numeric medians |
| Ranking.RankMatchesAscendingSort | index.js:182-186 | the medians of the ranked table, read in order, are the ascending sort of the medians |
| Ranking.InsertAtEnd | index.js:183-183 | an "N/A" row placed by the comparator goes after every row already placed |
| Ranking.RankExample | index.js:182-186 | rows with medians 5, N/A, 2, N/A rank as 2, 5, then the two "N/A" rows |
| Scan.FirstMalformed | index.js:168-176 | the scan stops at the first row missing a column: all earlier rows are complete |
| Scan.Summaries | index.js:168-176 | one summary per complete row, in table order, each carrying its row's name |
| Scan.Report | index.js:162-187 | the printed table exists exactly when every row is complete, and is then a ranked permutation of the providers' summaries, one per row |
| Scan.RunScan | index.js:162-187 | `main` returns that table or the first row's TypeError, having made the redraws of every provider tested before the failure |
| Scan.ProviderCounts | index.js:69-74 | during provider `c` of `P`, with `T` its own pair count, redraw `k` (from 0) shows `(c - 1) * T + k + 1` out of `P * T`, and each redraw is drawable |
| Scan.ProviderProgress | index.js:69-74 | during provider `c` of `P` every redraw is drawable and its share rises, staying above `(c - 1) / P` and at most `c / P` |
| Scan.ScanProgress | index.js:69-74 | over the scan every redraw is drawable and the share shown rises strictly from each redraw to the next, although each provider scales the counter by its own pair count |
| Scan.EqualCountsCountPairs | index.js:69-74 | when all providers have the same pair count, the counter shown is the number of pairs tested so far out of the whole table's pairs |
| Scan.ScanEndsFull | index.js:69-74 | a complete scan ends on a full bar exactly when the last provider has a pair to test |
| Scan.UnequalCountsExample | index.js:69-74 | with one host and providers of one and two addresses the counter reads 1 of 2, 3 of 4, 4 of 4 |
| Scan.FallingCounterExample | index.js:69-74 | with one host and providers of three and one addresses the counter reads 1, 2, 3 of 6 and then 2 of 2 |

## Left out

- The DNS lookup, `performance.now()` and the network are replaced by the oracle parameter; the `hints` and `all` options of `dns.lookup` are not modelled.
- The resolver address: the oracle receives the provider's address in each `Lookup`, but Node's `dns.lookup` ignores the `address` option the script passes and always asks the system resolver. No contract depends on the oracle using the address, so the model neither assumes nor rules out that the address matters.
- `async`/`await` is left out; the scan is modelled as running sequentially, which is what awaiting every lookup in turn amounts to.
- Reading `providers.csv` from disk is left out; the model starts from its contents.
- `console.clear`, `console.log`, `console.table`, the colours and the cursor escape sequences are left out. A redraw is modelled by the counter, the total and the pair it names.
- Floating point is left out: times, sums, means and medians are exact reals.
- Progress.ToFixed: models `toFixed` as rounding halves up, which differs from the JavaScript rendering of negative values and of binary ties. The string rendering is not modelled. Summary columns hold the exact numbers, and only the ranking key is rounded to four decimals.
- Providers.ParseProvider: the error text `MissingColumn` is V8's wording of the TypeError; the script mixes an ES `import` with `require`, so it may run under an engine that words the message differently, and only the fact that the row throws is promised.
- Evaluator.Summarize: the `samples` column is the number 0 for "N/A" rows but a string for the others. The model keeps a number in both cases.
- Evaluator.TestIPAddress: the `{ ip, avgTime }` objects are reduced to `avgTime`, the only field the script later reads.
- Ranking.Rank: the engine's sort algorithm is not modelled. Because the comparator answers 1 when a row is compared with itself or with another "N/A" row, it is not consistent, and ECMA-262 then leaves the whole order of `results.sort` implementation-defined, not only the order among "N/A" rows. The model is one insertion sort driven by the same comparator. `Ranking.RankRanked` (numeric rows first, non-decreasing medians) and the permutation property are proved for this insertion sort, not for every engine's sort. The order it happens to leave among "N/A" rows is not promised.
- `Text.Split` splits on `\n` only, so a file with `\r\n` line endings keeps the `\r` at the end of every line but the last, as the script does.
- The contents of the built-in host list are not modelled. The host list is a parameter of every operation.
