/** The provider evaluator (index.js:46-160): every address of a provider, IPv4
    column first, is sampled against every hostname; each (address, hostname)
    pair yields at most one average, the averages are reduced to a summary, and
    a progress update is produced after every pair. The functions give the
    result of an evaluation; the two methods follow the script's loops and its
    hand-threaded `currentTest` counter, and are proved to compute the same. */
module Evaluator {
  import opened Options
  import opened Arith
  import opened Stats
  import opened Sampler
  import opened Progress
  import opened Providers
  import opened Seqs

  /** A summary column: a number of milliseconds, or "N/A". */
  datatype Stat = NA | Ms(value: real)

  /** One row of the final table. The numbers are kept exact; the script prints
      them with `toFixed(4)`. */
  datatype Summary = Summary(name: string, median: Stat, min: Stat, max: Stat, samples: nat)

  /** The reduction of a provider's averages (index.js:134-159): all "N/A" with 0
      samples when there are none; otherwise the median of the ascending list,
      its least and greatest element, and the count. */
  function Summarize(name: string, averages: seq<real>): (s: Summary)
    ensures s.name == name && s.samples == |averages|
    ensures s.median.NA? <==> |averages| == 0
    ensures s.min.NA? <==> |averages| == 0
    ensures s.max.NA? <==> |averages| == 0
  {
    if |averages| == 0 then Summary(name, NA, NA, NA, 0)
    else
      var sorted := SortAscending(averages);
      assert |sorted| == |multiset(sorted)| == |averages|;
      Summary(name, Ms(Median(sorted)), Ms(Min(sorted)), Ms(Max(sorted)), |averages|)
  }

  /** The reported extremes are averages that bound every average, and the
      median lies between them. */
  lemma SummaryBounds(name: string, averages: seq<real>)
    requires |averages| > 0
    ensures var s := Summarize(name, averages);
      && s.min.value <= s.median.value <= s.max.value
      && s.min.value in averages && s.max.value in averages
      && forall i :: 0 <= i < |averages| ==> s.min.value <= averages[i] <= s.max.value
  {
    var sorted := SortAscending(averages);
    assert |sorted| == |multiset(sorted)| == |averages|;
    assert forall i :: 0 <= i < |averages| ==> averages[i] in multiset(sorted);
    assert forall x :: x in sorted ==> x in multiset(averages);
  }

  /** The median is taken over the ascending list and the extremes are its ends:
      at least half of the averages lie at or below the median and at least half
      at or above it. */
  lemma SummaryMedian(name: string, averages: seq<real>)
    requires |averages| > 0
    ensures var s := Summarize(name, averages);
      var sorted := SortAscending(averages);
      && s.min.value == sorted[0] && s.max.value == sorted[|sorted| - 1]
      && (forall i :: 0 <= i < |sorted| - |sorted| / 2 ==> sorted[i] <= s.median.value)
      && (forall i :: |sorted| / 2 <= i < |sorted| ==> s.median.value <= sorted[i])
  {
    var sorted := SortAscending(averages);
    assert |sorted| == |multiset(sorted)| == |averages|;
    SortedExtremes(sorted);
  }

  /** The order in which the averages were collected does not matter. */
  lemma SummarizeOrderIndependent(name: string, a: seq<real>, b: seq<real>)
    requires multiset(a) == multiset(b)
    ensures Summarize(name, a) == Summarize(name, b)
  {
    assert |a| == |multiset(a)| == |multiset(b)| == |b|;
    if |a| > 0 {
      SortedUnique(SortAscending(a), SortAscending(b));
    }
  }

  /** One (address, hostname) pair of a provider: address number `address` of
      the provider's address list, IPv4 column first, against hostname number
      `hostIndex` of the host list. */
  datatype Pair = Pair(address: nat, ip: string, hostIndex: nat, host: string)

  /** The pairs of one address, one per hostname, in host-list order (the
      inner loop of `testIPAddress`, index.js:58). */
  function AddressPairs(address: nat, ip: string, hosts: seq<string>): (ps: seq<Pair>)
    ensures |ps| == |hosts|
  {
    seq(|hosts|, k requires 0 <= k < |hosts| => Pair(address, ip, k, hosts[k]))
  }

  /** The pairs of the addresses numbered `lo` up to (not including) `hi`,
      address by address. */
  function PairsBetween(addrs: seq<string>, lo: nat, hi: nat, hosts: seq<string>): seq<Pair>
    requires lo <= hi <= |addrs|
    decreases hi
  {
    if hi == lo then []
    else PairsBetween(addrs, lo, hi - 1, hosts) + AddressPairs(hi - 1, addrs[hi - 1], hosts)
  }

  /** Every pair a provider tests, in the order the script tests them. */
  function ProviderPairs(p: Provider, hosts: seq<string>): seq<Pair> {
    PairsBetween(Addresses(p), 0, |Addresses(p)|, hosts)
  }

  /** Testing the addresses before `mid` and then those from `mid` on tests the
      same pairs, in the same order, as testing them all. */
  lemma {:induction false} PairsBetweenSplit(addrs: seq<string>, lo: nat, mid: nat, hi: nat, hosts: seq<string>)
    requires lo <= mid <= hi <= |addrs|
    ensures PairsBetween(addrs, lo, hi, hosts) == PairsBetween(addrs, lo, mid, hosts) + PairsBetween(addrs, mid, hi, hosts)
    decreases hi
  {
    if hi == mid {
      assert PairsBetween(addrs, mid, hi, hosts) == [];
    } else {
      PairsBetweenSplit(addrs, lo, mid, hi - 1, hosts);
      AppendAssoc(PairsBetween(addrs, lo, mid, hosts), PairsBetween(addrs, mid, hi - 1, hosts),
                  AddressPairs(hi - 1, addrs[hi - 1], hosts));
    }
  }

  /** Every address is tried against every hostname. */
  lemma {:induction false} PairsBetweenLength(addrs: seq<string>, lo: nat, hi: nat, hosts: seq<string>)
    requires lo <= hi <= |addrs|
    ensures |PairsBetween(addrs, lo, hi, hosts)| == (hi - lo) * |hosts|
    decreases hi
  {
    if hi > lo {
      PairsBetweenLength(addrs, lo, hi - 1, hosts);
      assert (hi - lo) * |hosts| == (hi - 1 - lo) * |hosts| + |hosts|;
    }
  }

  /** Pair number `(j - lo) * |hosts| + k` is address `j` against hostname `k`:
      addresses in the outer loop, hostnames in the inner one. */
  lemma {:induction false} PairAt(addrs: seq<string>, lo: nat, hi: nat, hosts: seq<string>, j: nat, k: nat)
    requires lo <= j < hi <= |addrs| && k < |hosts|
    ensures (j - lo) * |hosts| + k < |PairsBetween(addrs, lo, hi, hosts)|
    ensures PairsBetween(addrs, lo, hi, hosts)[(j - lo) * |hosts| + k] == Pair(j, addrs[j], k, hosts[k])
    decreases hi
  {
    var h := |hosts|;
    var front := PairsBetween(addrs, lo, hi - 1, hosts);
    var last := AddressPairs(hi - 1, addrs[hi - 1], hosts);
    PairsBetweenLength(addrs, lo, hi - 1, hosts);
    var i := (j - lo) * h + k;
    if j < hi - 1 {
      IntMulMonotone(j - lo + 1, hi - 1 - lo, h);
      assert i < (j - lo + 1) * h;
      PairAt(addrs, lo, hi - 1, hosts, j, k);
      assert (front + last)[i] == front[i];
    } else {
      assert (front + last)[i] == last[k];
    }
  }

  /** Conversely, every pair tested is one of the addresses in range against
      one of the hostnames. */
  lemma {:induction false} PairsBetweenMembers(addrs: seq<string>, lo: nat, hi: nat, hosts: seq<string>)
    requires lo <= hi <= |addrs|
    ensures forall p :: p in PairsBetween(addrs, lo, hi, hosts) ==>
      lo <= p.address < hi && p.ip == addrs[p.address] && p.hostIndex < |hosts| && p.host == hosts[p.hostIndex]
    decreases hi
  {
    if hi > lo {
      PairsBetweenMembers(addrs, lo, hi - 1, hosts);
    }
  }

  /** The `SAMPLES_PER_HOST` lookups of one pair, in order. The family comes
      from the address string (index.js:56, 61). */
  function PairLookups(provider: nat, pair: Pair): (ls: seq<Lookup>)
    ensures |ls| == SamplesPerHost
  {
    seq(SamplesPerHost, i requires 0 <= i < SamplesPerHost =>
      Lookup(pair.host, pair.ip, FamilyOf(pair.ip), provider, pair.address, pair.hostIndex, i))
  }

  /** The trial results the oracle gives for a run of lookups. */
  function Trials(oracle: Oracle, lookups: seq<Lookup>): (trials: seq<TrialResult>)
    ensures |trials| == |lookups|
  {
    seq(|lookups|, i requires 0 <= i < |lookups| => ResolveAndTime(oracle(lookups[i])))
  }

  /** What one pair contributes: an average or nothing. */
  function PairAverage(oracle: Oracle, provider: nat, pair: Pair): Option<real> {
    Average(Trials(oracle, PairLookups(provider, pair)))
  }

  /** The outcome of every pair, in order. */
  function Outcomes(oracle: Oracle, provider: nat, ps: seq<Pair>): (o: seq<Option<real>>)
    ensures |o| == |ps|
  {
    seq(|ps|, i requires 0 <= i < |ps| => PairAverage(oracle, provider, ps[i]))
  }

  /** The outcomes of two runs of pairs are those of each run, laid end to end. */
  lemma OutcomesConcat(oracle: Oracle, provider: nat, a: seq<Pair>, b: seq<Pair>)
    ensures Outcomes(oracle, provider, a + b) == Outcomes(oracle, provider, a) + Outcomes(oracle, provider, b)
  {
    var o, oa, ob := Outcomes(oracle, provider, a + b), Outcomes(oracle, provider, a), Outcomes(oracle, provider, b);
    assert forall i :: 0 <= i < |o| ==> o[i] == (oa + ob)[i];
  }

  /** Every lookup of the pairs, in the order the script issues them. */
  function Lookups(provider: nat, ps: seq<Pair>): seq<Lookup>
    decreases |ps|
  {
    if |ps| == 0 then []
    else
      var n := |ps| - 1;
      Lookups(provider, ps[..n]) + PairLookups(provider, ps[n])
  }

  /** Testing one more pair issues that pair's lookups after the others. */
  lemma LookupsStep(provider: nat, ps: seq<Pair>, k: nat)
    requires k < |ps|
    ensures Lookups(provider, ps[..k + 1]) == Lookups(provider, ps[..k]) + PairLookups(provider, ps[k])
  {
    assert ps[..k + 1][..k] == ps[..k];
  }

  lemma {:induction false} LookupsConcat(provider: nat, a: seq<Pair>, b: seq<Pair>)
    ensures Lookups(provider, a + b) == Lookups(provider, a) + Lookups(provider, b)
    decreases |b|
  {
    if |b| == 0 {
      assert a + b == a;
    } else {
      var n := |b| - 1;
      assert (a + b)[..|a + b| - 1] == a + b[..n];
      LookupsConcat(provider, a, b[..n]);
      AppendAssoc(Lookups(provider, a), Lookups(provider, b[..n]), PairLookups(provider, b[n]));
    }
  }

  /** Every lookup issued for the pairs belongs to one of them: its server and
      hostname are the pair's, its family is the one the server address calls
      for, and it is one of the `SAMPLES_PER_HOST` samples. */
  lemma {:induction false} LookupsMembers(provider: nat, ps: seq<Pair>)
    ensures forall l :: l in Lookups(provider, ps) ==>
      exists i :: 0 <= i < |ps| && l.server == ps[i].ip && l.host == ps[i].host
        && l.address == ps[i].address && l.hostIndex == ps[i].hostIndex
        && l.family == FamilyOf(l.server) && l.provider == provider && l.sample < SamplesPerHost
    decreases |ps|
  {
    if |ps| > 0 {
      var n := |ps| - 1;
      LookupsMembers(provider, ps[..n]);
      forall l | l in Lookups(provider, ps)
        ensures exists i :: (0 <= i < |ps| && l.server == ps[i].ip && l.host == ps[i].host
          && l.address == ps[i].address && l.hostIndex == ps[i].hostIndex
          && l.family == FamilyOf(l.server) && l.provider == provider && l.sample < SamplesPerHost)
      {
        if l in Lookups(provider, ps[..n]) {
          var i :| 0 <= i < n && l.server == ps[..n][i].ip && l.host == ps[..n][i].host
            && l.address == ps[..n][i].address && l.hostIndex == ps[..n][i].hostIndex
            && l.family == FamilyOf(l.server) && l.provider == provider && l.sample < SamplesPerHost;
          assert ps[..n][i] == ps[i];
        } else {
          assert l in PairLookups(provider, ps[n]);
        }
      }
    }
  }

  /** `results.push(...)` when there is an average, nothing otherwise. */
  function Push(results: seq<real>, outcome: Option<real>): (r: seq<real>)
    ensures outcome.Some? ==> r == results + [outcome.value]
    ensures outcome.None? ==> r == results
  {
    match outcome
    case Some(v) => results + [v]
    case None => results
  }

  /** The emitted averages, in order: the pairs with an average. */
  function Successes(outcomes: seq<Option<real>>): (r: seq<real>)
    ensures |r| <= |outcomes|
    decreases |outcomes|
  {
    if |outcomes| == 0 then []
    else
      var n := |outcomes| - 1;
      Push(Successes(outcomes[..n]), outcomes[n])
  }

  /** One more outcome pushes its average, if any. */
  lemma SuccessesStep(outcomes: seq<Option<real>>, k: nat)
    requires k < |outcomes|
    ensures Successes(outcomes[..k + 1]) == Push(Successes(outcomes[..k]), outcomes[k])
  {
    assert outcomes[..k + 1][..k] == outcomes[..k];
  }

  /** No average is emitted exactly when every pair failed. */
  lemma {:induction false} NoSuccessesIffAllFail(outcomes: seq<Option<real>>)
    ensures |Successes(outcomes)| == 0 <==> forall i :: 0 <= i < |outcomes| ==> outcomes[i].None?
    decreases |outcomes|
  {
    if |outcomes| > 0 {
      var n := |outcomes| - 1;
      NoSuccessesIffAllFail(outcomes[..n]);
      assert forall i :: 0 <= i < n ==> outcomes[..n][i] == outcomes[i];
    }
  }

  /** The averages of two runs of outcomes are those of each run, laid end to end. */
  lemma {:induction false} SuccessesConcat(a: seq<Option<real>>, b: seq<Option<real>>)
    ensures Successes(a + b) == Successes(a) + Successes(b)
    decreases |b|
  {
    if |b| == 0 {
      assert a + b == a;
    } else {
      var n := |b| - 1;
      assert (a + b)[..|a + b| - 1] == a + b[..n];
      SuccessesConcat(a, b[..n]);
    }
  }

  /** The number of emitted averages is the number of pairs with at least one success. */
  lemma {:induction false} SuccessesCount(outcomes: seq<Option<real>>)
    ensures |Successes(outcomes)| == |set i | 0 <= i < |outcomes| && outcomes[i].Some?|
    decreases |outcomes|
  {
    if |outcomes| > 0 {
      var n := |outcomes| - 1;
      SuccessesCount(outcomes[..n]);
      var before := set i | 0 <= i < n && outcomes[..n][i].Some?;
      var after := set i | 0 <= i < |outcomes| && outcomes[i].Some?;
      if outcomes[n].Some? {
        assert after == before + {n};
      } else {
        assert after == before;
      }
    }
  }

  /** The averages a run of pairs emits. */
  function Results(oracle: Oracle, provider: nat, ps: seq<Pair>): seq<real> {
    Successes(Outcomes(oracle, provider, ps))
  }

  /** The averages of two runs of pairs are those of each run, laid end to end
      (`ipv4Results.push(...results)`, index.js:115, and the final spread,
      index.js:134). */
  lemma ResultsConcat(oracle: Oracle, provider: nat, a: seq<Pair>, b: seq<Pair>)
    ensures Results(oracle, provider, a + b) == Results(oracle, provider, a) + Results(oracle, provider, b)
  {
    OutcomesConcat(oracle, provider, a, b);
    SuccessesConcat(Outcomes(oracle, provider, a), Outcomes(oracle, provider, b));
  }

  /** The number of (address, hostname) pairs of a provider: `totalTests` (index.js:100-101). */
  function PairCount(p: Provider, hosts: seq<string>): nat {
    IntMulMonotone(0, |p.ipv4Addresses| + |p.ipv6Addresses|, |hosts|);
    (|p.ipv4Addresses| + |p.ipv6Addresses|) * |hosts|
  }

  /** A provider tests exactly `totalTests` pairs. */
  lemma ProviderPairCount(p: Provider, hosts: seq<string>)
    ensures |ProviderPairs(p, hosts)| == PairCount(p, hosts)
  {
    PairsBetweenLength(Addresses(p), 0, |Addresses(p)|, hosts);
  }

  /** The summary of one provider (index.js:134-159). */
  function EvaluateProvider(oracle: Oracle, provider: nat, p: Provider, hosts: seq<string>): (s: Summary)
    ensures s.name == p.name
    ensures s.samples <= PairCount(p, hosts)
    ensures s.samples == 0 <==> s.median.NA?
  {
    ProviderPairCount(p, hosts);
    Summarize(p.name, Results(oracle, provider, ProviderPairs(p, hosts)))
  }

  /** A provider reports no samples exactly when none of its pairs had a successful lookup. */
  lemma NoSamplesIffAllPairsFail(oracle: Oracle, provider: nat, p: Provider, hosts: seq<string>)
    ensures EvaluateProvider(oracle, provider, p, hosts).samples == 0
        <==> forall pair :: pair in ProviderPairs(p, hosts) ==> PairAverage(oracle, provider, pair).None?
  {
    var ps := ProviderPairs(p, hosts);
    var o := Outcomes(oracle, provider, ps);
    NoSuccessesIffAllFail(o);
    if forall i :: 0 <= i < |o| ==> o[i].None? {
      forall pair | pair in ps
        ensures PairAverage(oracle, provider, pair).None?
      {
        var i :| 0 <= i < |ps| && ps[i] == pair;
        assert o[i].None?;
      }
    } else {
      var i :| 0 <= i < |o| && o[i].Some?;
      assert ps[i] in ps;
    }
  }

  /** `samples` counts exactly the pairs with at least one successful lookup. */
  lemma SamplesCountSuccessfulPairs(oracle: Oracle, provider: nat, p: Provider, hosts: seq<string>)
    ensures var ps := ProviderPairs(p, hosts);
      EvaluateProvider(oracle, provider, p, hosts).samples
        == |set i | 0 <= i < |ps| && PairAverage(oracle, provider, ps[i]).Some?|
  {
    var ps := ProviderPairs(p, hosts);
    var o := Outcomes(oracle, provider, ps);
    SuccessesCount(o);
    assert (set i | 0 <= i < |o| && o[i].Some?) == (set i | 0 <= i < |ps| && PairAverage(oracle, provider, ps[i]).Some?);
  }

  /** A pair whose every lookup fails has no average. */
  lemma PairFails(oracle: Oracle, provider: nat, pair: Pair)
    requires forall i :: 0 <= i < SamplesPerHost ==> oracle(PairLookups(provider, pair)[i]).None?
    ensures PairAverage(oracle, provider, pair).None?
  {
    var trials := Trials(oracle, PairLookups(provider, pair));
    assert forall i :: 0 <= i < |trials| ==> !trials[i].success;
    AverageBounds(trials);
  }

  /** A provider whose every lookup fails gets an "N/A" row with 0 samples. */
  lemma AllFailuresGiveNA(oracle: Oracle, provider: nat, p: Provider, hosts: seq<string>)
    requires forall l :: oracle(l).None?
    ensures var s := EvaluateProvider(oracle, provider, p, hosts);
      s.median.NA? && s.min.NA? && s.max.NA? && s.samples == 0
  {
    forall pair | pair in ProviderPairs(p, hosts)
      ensures PairAverage(oracle, provider, pair).None?
    {
      PairFails(oracle, provider, pair);
    }
    NoSamplesIffAllPairsFail(oracle, provider, p, hosts);
  }

  /** Every lookup a provider issues uses the family of its own server address,
      whichever column the address was listed in: 6 exactly when it holds a colon. */
  lemma LookupFamilyFollowsAddress(provider: nat, p: Provider, hosts: seq<string>)
    ensures forall l :: l in Lookups(provider, ProviderPairs(p, hosts)) ==>
      l.server in Addresses(p) && l.host in hosts && l.family == FamilyOf(l.server)
      && (FamilyNumber(l.family) == 6 <==> ':' in l.server)
  {
    var ps := ProviderPairs(p, hosts);
    LookupsMembers(provider, ps);
    PairsBetweenMembers(Addresses(p), 0, |Addresses(p)|, hosts);
    forall l | l in Lookups(provider, ps)
      ensures l.server in Addresses(p) && l.host in hosts
    {
      var i :| 0 <= i < |ps| && l.server == ps[i].ip && l.host == ps[i].host
        && l.address == ps[i].address && l.hostIndex == ps[i].hostIndex
        && l.family == FamilyOf(l.server) && l.provider == provider && l.sample < SamplesPerHost;
      assert ps[i] in ps;
    }
  }

  /** What `testIPAddress` is told about the provider it samples for: the
      provider's own pair count `totalTests`, its 1-based number, the number
      of providers, and its name. */
  datatype Stage = Stage(totalTests: nat, currentProvider: nat, totalProviders: nat, provider: string)

  /** One redraw of the progress display (index.js:69-87): the stage, the
      incremented `currentTest`, and the pair named beside the bar. */
  datatype Update = Update(stage: Stage, currentTest: nat, ip: string, host: string)

  /** The count handed to `createProgressBar` (index.js:71-72). */
  function Shown(u: Update): int {
    (u.stage.currentProvider - 1) * u.stage.totalTests + u.currentTest
  }

  /** The total handed to `createProgressBar` (index.js:73). */
  function OutOf(u: Update): int {
    u.stage.totalProviders * u.stage.totalTests
  }

  /** `createProgressBar` can draw the update: the total is positive and the
      count lies within it, otherwise a repeat count would be negative and
      `String.prototype.repeat` would throw. */
  predicate ValidUpdate(u: Update) {
    0 <= Shown(u) && 0 < OutOf(u) && Shown(u) <= OutOf(u)
  }

  /** The bar drawn for an update. */
  function BarOf(u: Update): (b: Bar)
    requires ValidUpdate(u)
    ensures b.filled + b.empty == BarWidth
    ensures Shown(u) == OutOf(u) ==> b.empty == 0
    ensures Shown(u) == 0 ==> b.filled == 0
  {
    CreateProgressBar(Shown(u), OutOf(u), BarWidth)
  }

  /** The redraws of a run of pairs when `base` pairs of the provider were done
      before them: one per pair, counting on from `base`. */
  function Updates(stage: Stage, base: nat, ps: seq<Pair>): (us: seq<Update>)
    ensures |us| == |ps|
  {
    seq(|ps|, i requires 0 <= i < |ps| => Update(stage, base + i + 1, ps[i].ip, ps[i].host))
  }

  /** The redraws of two runs of pairs are those of each run, the second
      counting on from where the first stopped. */
  lemma UpdatesConcat(stage: Stage, base: nat, a: seq<Pair>, b: seq<Pair>)
    ensures Updates(stage, base, a + b) == Updates(stage, base, a) + Updates(stage, base + |a|, b)
  {
    var u, ua, ub := Updates(stage, base, a + b), Updates(stage, base, a), Updates(stage, base + |a|, b);
    assert forall i :: 0 <= i < |u| ==> u[i] == (ua + ub)[i];
  }

  /** The sampling loop for one pair (index.js:59-62): the successful times of
      the pair's `SAMPLES_PER_HOST` lookups, in order. */
  method SampleHost(oracle: Oracle, pair: Pair, family: Family, provider: nat)
    returns (timings: seq<real>, lookups: seq<Lookup>)
    requires family == FamilyOf(pair.ip)
    ensures lookups == PairLookups(provider, pair)
    ensures timings == Timings(Trials(oracle, lookups))
  {
    ghost var all := PairLookups(provider, pair);
    ghost var trials := Trials(oracle, all);
    timings, lookups := [], [];
    for i := 0 to SamplesPerHost
      invariant timings == Timings(trials[..i])
      invariant lookups == all[..i]
    {
      var lookup := Lookup(pair.host, pair.ip, family, provider, pair.address, pair.hostIndex, i);
      var result := ResolveAndTime(oracle(lookup));
      TimingsStep(trials, i);
      TakeStep(all, i);
      lookups := lookups + [lookup];
      if result.success {
        timings := timings + [result.time];
      }
    }
    assert trials[..SamplesPerHost] == trials;
    assert all[..SamplesPerHost] == all;
  }

  /** One iteration of the hostname loop of `testIPAddress` (index.js:58-67): the
      pair's lookups and the average pushed to `results`, if any. */
  method TestPair(oracle: Oracle, pair: Pair, family: Family, provider: nat)
    returns (average: Option<real>, lookups: seq<Lookup>)
    requires family == FamilyOf(pair.ip)
    ensures lookups == PairLookups(provider, pair)
    ensures average == PairAverage(oracle, provider, pair)
  {
    var timings;
    timings, lookups := SampleHost(oracle, pair, family, provider);
    if |timings| > 0 {
      var avgTime := Sum(timings) / |timings| as real;
      average := Some(avgTime);
    } else {
      average := None;
    }
  }

  /** After hostname `k` of an address, the address's results, lookups and
      redraws are those of one more pair. */
  lemma AddressStep(oracle: Oracle, provider: nat, stage: Stage, base: nat, ps: seq<Pair>, k: nat,
                    results: seq<real>, lookups: seq<Lookup>, updates: seq<Update>,
                    average: Option<real>, pairLookups: seq<Lookup>)
    requires k < |ps|
    requires results == Successes(Outcomes(oracle, provider, ps)[..k])
    requires lookups == Lookups(provider, ps[..k])
    requires updates == Updates(stage, base, ps)[..k]
    requires average == PairAverage(oracle, provider, ps[k])
    requires pairLookups == PairLookups(provider, ps[k])
    ensures Push(results, average) == Successes(Outcomes(oracle, provider, ps)[..k + 1])
    ensures lookups + pairLookups == Lookups(provider, ps[..k + 1])
    ensures updates + [Update(stage, base + k + 1, ps[k].ip, ps[k].host)] == Updates(stage, base, ps)[..k + 1]
  {
    SuccessesStep(Outcomes(oracle, provider, ps), k);
    LookupsStep(provider, ps, k);
    TakeStep(Updates(stage, base, ps), k);
  }

  /** `testIPAddress` (index.js:46-89) for the provider's address number
      `address` (a position used only to tag the lookups). `currentTest` is the
      caller's counter, passed by value; the local copy is returned as `counter`
      so that the caller can be shown to keep step with it. */
  method TestIPAddress(oracle: Oracle, ip: string, address: nat, websites: seq<string>, totalTests: nat, currentTest: nat,
                       currentProvider: nat, totalProviders: nat, providerName: string)
    returns (results: seq<real>, updates: seq<Update>, lookups: seq<Lookup>, counter: nat)
    ensures var ps := AddressPairs(address, ip, websites);
      && results == Results(oracle, currentProvider, ps)
      && lookups == Lookups(currentProvider, ps)
      && updates == Updates(Stage(totalTests, currentProvider, totalProviders, providerName), currentTest, ps)
    ensures counter == currentTest + |websites|
  {
    var stage := Stage(totalTests, currentProvider, totalProviders, providerName);
    ghost var ps := AddressPairs(address, ip, websites);
    results, updates, lookups := [], [], [];
    var family := FamilyOf(ip);
    counter := currentTest;
    for k := 0 to |websites|
      invariant counter == currentTest + k
      invariant results == Successes(Outcomes(oracle, currentProvider, ps)[..k])
      invariant lookups == Lookups(currentProvider, ps[..k])
      invariant updates == Updates(stage, currentTest, ps)[..k]
    {
      var website := websites[k];
      var pair := Pair(address, ip, k, website);
      assert pair == ps[k];
      var average, pairLookups := TestPair(oracle, pair, family, currentProvider);
      AddressStep(oracle, currentProvider, stage, currentTest, ps, k, results, lookups, updates, average, pairLookups);
      lookups := lookups + pairLookups;
      results := Push(results, average);

      counter := counter + 1;

      updates := updates + [Update(stage, counter, ip, website)];
    }
    assert Outcomes(oracle, currentProvider, ps)[..|websites|] == Outcomes(oracle, currentProvider, ps);
    assert ps[..|websites|] == ps;
    assert Updates(stage, currentTest, ps)[..|websites|] == Updates(stage, currentTest, ps);
  }

  /** After address `j` of a column, the column's results, lookups and redraws
      are those of one more address. */
  lemma ColumnStep(oracle: Oracle, provider: nat, stage: Stage, base: nat, addrs: seq<string>, lo: nat, j: nat,
                   hosts: seq<string>, done: seq<Pair>, results: seq<real>, lookups: seq<Lookup>, updates: seq<Update>,
                   ipResults: seq<real>, ipLookups: seq<Lookup>, ipUpdates: seq<Update>)
    requires lo <= j < |addrs|
    requires done == PairsBetween(addrs, lo, j, hosts)
    requires results == Results(oracle, provider, done)
    requires lookups == Lookups(provider, done)
    requires updates == Updates(stage, base, done)
    requires ipResults == Results(oracle, provider, AddressPairs(j, addrs[j], hosts))
    requires ipLookups == Lookups(provider, AddressPairs(j, addrs[j], hosts))
    requires ipUpdates == Updates(stage, base + |done|, AddressPairs(j, addrs[j], hosts))
    ensures var next := done + AddressPairs(j, addrs[j], hosts);
      && next == PairsBetween(addrs, lo, j + 1, hosts)
      && results + ipResults == Results(oracle, provider, next)
      && lookups + ipLookups == Lookups(provider, next)
      && updates + ipUpdates == Updates(stage, base, next)
  {
    var more := AddressPairs(j, addrs[j], hosts);
    ResultsConcat(oracle, provider, done, more);
    LookupsConcat(provider, done, more);
    UpdatesConcat(stage, base, done, more);
  }

  /** One of the two address loops of `testDNSProvider` (index.js:105-117 for
      the IPv4 column, 120-132 for the IPv6 column): the provider's addresses
      numbered `lo` up to `hi` (one column of the list) are tested in turn,
      and the counter advances by `websites.length` after each. */
  method TestColumn(oracle: Oracle, addrs: seq<string>, lo: nat, hi: nat, websites: seq<string>, totalTests: nat,
                    currentTest: nat, currentProvider: nat, totalProviders: nat, name: string)
    returns (results: seq<real>, updates: seq<Update>, lookups: seq<Lookup>, counter: nat)
    requires lo <= hi <= |addrs|
    ensures var ps := PairsBetween(addrs, lo, hi, websites);
      && results == Results(oracle, currentProvider, ps)
      && lookups == Lookups(currentProvider, ps)
      && updates == Updates(Stage(totalTests, currentProvider, totalProviders, name), currentTest, ps)
      && counter == currentTest + |ps|
  {
    ghost var stage := Stage(totalTests, currentProvider, totalProviders, name);
    ghost var done: seq<Pair> := [];
    results, updates, lookups := [], [], [];
    counter := currentTest;
    for j := lo to hi
      invariant done == PairsBetween(addrs, lo, j, websites)
      invariant results == Results(oracle, currentProvider, done)
      invariant lookups == Lookups(currentProvider, done)
      invariant updates == Updates(stage, currentTest, done)
      invariant counter == currentTest + |done|
    {
      var ip := addrs[j];
      var ipResults, ipUpdates, ipLookups, _ := TestIPAddress(oracle, ip, j, websites, totalTests, counter,
                                                              currentProvider, totalProviders, name);
      ColumnStep(oracle, currentProvider, stage, currentTest, addrs, lo, j, websites, done,
                 results, lookups, updates, ipResults, ipLookups, ipUpdates);
      results := results + ipResults;
      updates := updates + ipUpdates;
      lookups := lookups + ipLookups;
      counter := counter + |websites|;
      done := done + AddressPairs(j, ip, websites);
    }
  }

  /** The IPv4 column followed by the IPv6 column gives the results, lookups
      and redraws of the whole address list. */
  lemma ColumnsJoin(oracle: Oracle, provider: nat, stage: Stage, addrs: seq<string>, mid: nat, hosts: seq<string>,
                    results4: seq<real>, lookups4: seq<Lookup>, updates4: seq<Update>,
                    results6: seq<real>, lookups6: seq<Lookup>, updates6: seq<Update>)
    requires mid <= |addrs|
    requires results4 == Results(oracle, provider, PairsBetween(addrs, 0, mid, hosts))
    requires lookups4 == Lookups(provider, PairsBetween(addrs, 0, mid, hosts))
    requires updates4 == Updates(stage, 0, PairsBetween(addrs, 0, mid, hosts))
    requires results6 == Results(oracle, provider, PairsBetween(addrs, mid, |addrs|, hosts))
    requires lookups6 == Lookups(provider, PairsBetween(addrs, mid, |addrs|, hosts))
    requires updates6 == Updates(stage, |PairsBetween(addrs, 0, mid, hosts)|, PairsBetween(addrs, mid, |addrs|, hosts))
    ensures var ps := PairsBetween(addrs, 0, |addrs|, hosts);
      && results4 + results6 == Results(oracle, provider, ps)
      && lookups4 + lookups6 == Lookups(provider, ps)
      && updates4 + updates6 == Updates(stage, 0, ps)
  {
    PairsBetweenSplit(addrs, 0, mid, |addrs|, hosts);
    PairsJoin(oracle, provider, stage, PairsBetween(addrs, 0, mid, hosts), PairsBetween(addrs, mid, |addrs|, hosts),
              PairsBetween(addrs, 0, |addrs|, hosts), results4, lookups4, updates4, results6, lookups6, updates6);
  }

  /** Two consecutive runs of pairs give the results, lookups and redraws of the
      whole run, the redraws of the second continuing the count of the first. */
  lemma PairsJoin(oracle: Oracle, provider: nat, stage: Stage, v4: seq<Pair>, v6: seq<Pair>, ps: seq<Pair>,
                  results4: seq<real>, lookups4: seq<Lookup>, updates4: seq<Update>,
                  results6: seq<real>, lookups6: seq<Lookup>, updates6: seq<Update>)
    requires ps == v4 + v6
    requires results4 == Results(oracle, provider, v4) && results6 == Results(oracle, provider, v6)
    requires lookups4 == Lookups(provider, v4) && lookups6 == Lookups(provider, v6)
    requires updates4 == Updates(stage, 0, v4) && updates6 == Updates(stage, |v4|, v6)
    ensures results4 + results6 == Results(oracle, provider, ps)
    ensures lookups4 + lookups6 == Lookups(provider, ps)
    ensures updates4 + updates6 == Updates(stage, 0, ps)
  {
    ResultsJoin(oracle, provider, v4, v6, ps, results4, results6);
    LookupsJoin(provider, v4, v6, ps, lookups4, lookups6);
    UpdatesJoin(stage, v4, v6, ps, updates4, updates6);
  }

  lemma ResultsJoin(oracle: Oracle, provider: nat, v4: seq<Pair>, v6: seq<Pair>, ps: seq<Pair>,
                    results4: seq<real>, results6: seq<real>)
    requires ps == v4 + v6
    requires results4 == Results(oracle, provider, v4) && results6 == Results(oracle, provider, v6)
    ensures results4 + results6 == Results(oracle, provider, ps)
  {
    ResultsConcat(oracle, provider, v4, v6);
  }

  lemma LookupsJoin(provider: nat, v4: seq<Pair>, v6: seq<Pair>, ps: seq<Pair>, lookups4: seq<Lookup>, lookups6: seq<Lookup>)
    requires ps == v4 + v6
    requires lookups4 == Lookups(provider, v4) && lookups6 == Lookups(provider, v6)
    ensures lookups4 + lookups6 == Lookups(provider, ps)
  {
    LookupsConcat(provider, v4, v6);
  }

  lemma UpdatesJoin(stage: Stage, v4: seq<Pair>, v6: seq<Pair>, ps: seq<Pair>, updates4: seq<Update>, updates6: seq<Update>)
    requires ps == v4 + v6
    requires updates4 == Updates(stage, 0, v4) && updates6 == Updates(stage, |v4|, v6)
    ensures updates4 + updates6 == Updates(stage, 0, ps)
  {
    UpdatesConcat(stage, 0, v4, v6);
  }

  /** `testDNSProvider` (index.js:91-160): a row with a missing column throws
      before any lookup; otherwise every IPv4 address and then every IPv6
      address is tested, the caller adding `websites.length` to its counter
      after each, and the collected averages are summarized. */
  method TestDNSProvider(oracle: Oracle, fields: seq<string>, websites: seq<string>, currentProvider: nat, totalProviders: nat)
    returns (summary: Result<Summary>, updates: seq<Update>, lookups: seq<Lookup>)
    ensures summary.Err? <==> |fields| < 3
    ensures summary.Err? ==> summary.message == MissingColumn && updates == [] && lookups == []
    ensures summary.Ok? ==>
      var p := ParseProvider(fields).value;
      var ps := ProviderPairs(p, websites);
      && summary.value == EvaluateProvider(oracle, currentProvider, p, websites)
      && lookups == Lookups(currentProvider, ps)
      && updates == Updates(Stage(PairCount(p, websites), currentProvider, totalProviders, p.name), 0, ps)
  {
    var parsed := ParseProvider(fields);
    if parsed.Err? {
      return Err(parsed.message), [], [];
    }
    var provider := parsed.value;
    var ipv4Addresses, ipv6Addresses := provider.ipv4Addresses, provider.ipv6Addresses;
    var addrs := ipv4Addresses + ipv6Addresses;
    var totalTests := PairCount(provider, websites);
    ghost var stage := Stage(totalTests, currentProvider, totalProviders, provider.name);

    var ipv4Results, ipv4Updates, ipv4Lookups, currentTest :=
      TestColumn(oracle, addrs, 0, |ipv4Addresses|, websites, totalTests, 0, currentProvider, totalProviders, provider.name);
    var ipv6Results, ipv6Updates, ipv6Lookups, _ :=
      TestColumn(oracle, addrs, |ipv4Addresses|, |addrs|, websites, totalTests, currentTest,
                 currentProvider, totalProviders, provider.name);

    ColumnsJoin(oracle, currentProvider, stage, addrs, |ipv4Addresses|, websites,
                ipv4Results, ipv4Lookups, ipv4Updates, ipv6Results, ipv6Lookups, ipv6Updates);

    updates := ipv4Updates + ipv6Updates;
    lookups := ipv4Lookups + ipv6Lookups;
    var allResults := ipv4Results + ipv6Results;
    summary := Ok(Summarize(provider.name, allResults));
  }
}
