/** One (address, hostname) pair: the address family chosen for the resolver
    address, the `SAMPLES_PER_HOST` timed lookups, and their reduction to one
    average that ignores failed lookups (index.js:20-67). The network lookup and
    the clock are replaced by an oracle that says, for each lookup, whether it
    resolved and how long it took. */
module Sampler {
  import opened Options
  import opened Stats

  /** `SAMPLES_PER_HOST`: lookups per (address, hostname) pair. */
  const SamplesPerHost: nat := 200

  datatype Family = IPv4 | IPv6

  /** The `family` option handed to the lookup. */
  function FamilyNumber(f: Family): int {
    match f
    case IPv4 => 4
    case IPv6 => 6
  }

  /** `ip.includes(":") ? 6 : 4`: decided by the address string alone. */
  function FamilyOf(ip: string): (f: Family)
    ensures FamilyNumber(f) == 6 <==> exists k :: 0 <= k < |ip| && ip[k] == ':'
    ensures FamilyNumber(f) == 4 <==> forall k :: 0 <= k < |ip| ==> ip[k] != ':'
  {
    if ':' in ip then IPv6 else IPv4
  }

  /** The classification examples: a colon means IPv6. */
  lemma FamilyExamples()
    ensures FamilyOf("2606:4700:4700::1111") == IPv6
    ensures FamilyOf("8.8.8.8") == IPv4
  {
    assert "2606:4700:4700::1111"[4] == ':';
  }

  /** One call of `resolveAndTime(host, server, family)`, tagged with its place in the
      scan (1-based provider number, position of the server among the provider's
      addresses, position of the hostname in the host list, sample number) so that
      repeated lookups of the same name may be answered differently. */
  datatype Lookup = Lookup(host: string, server: string, family: Family, provider: nat, address: nat, hostIndex: nat, sample: nat)

  /** What the network and the clock would report: `Some(ms)` when the lookup
      resolved after `ms` milliseconds, `None` when it was rejected. */
  type Oracle = Lookup -> Option<real>

  /** `{ success, time }` as returned by `resolveAndTime`. */
  datatype TrialResult = TrialResult(success: bool, time: real)

  /** The time recorded for a failed lookup. */
  const FailedTime: real := -1.0

  /** The body of `resolveAndTime` once the lookup's outcome is known. */
  function ResolveAndTime(outcome: Option<real>): TrialResult {
    match outcome
    case Some(elapsed) => TrialResult(true, elapsed)
    case None => TrialResult(false, FailedTime)
  }

  /** The `timings` array: the times of the successful trials, in order. */
  function Timings(trials: seq<TrialResult>): (ts: seq<real>)
    ensures |ts| <= |trials|
    decreases |trials|
  {
    if |trials| == 0 then []
    else
      var n := |trials| - 1;
      var front := Timings(trials[..n]);
      if trials[n].success then front + [trials[n].time] else front
  }

  /** The timings are exactly the times of the successful trials: there are none
      when every trial failed, every success contributes its time, and every time
      comes from a success. */
  lemma {:induction false} TimingsMembers(trials: seq<TrialResult>)
    ensures var ts := Timings(trials);
      && (|ts| == 0 <==> forall i :: 0 <= i < |trials| ==> !trials[i].success)
      && (forall i :: 0 <= i < |trials| && trials[i].success ==> trials[i].time in ts)
      && (forall t :: t in ts ==> exists i :: 0 <= i < |trials| && trials[i].success && trials[i].time == t)
    decreases |trials|
  {
    if |trials| > 0 {
      var n := |trials| - 1;
      TimingsMembers(trials[..n]);
      assert forall i :: 0 <= i < n ==> trials[..n][i] == trials[i];
    }
  }

  /** One more trial adds its time exactly when it succeeded. */
  lemma TimingsStep(trials: seq<TrialResult>, i: nat)
    requires i < |trials|
    ensures Timings(trials[..i + 1]) == if trials[i].success then Timings(trials[..i]) + [trials[i].time] else Timings(trials[..i])
  {
    assert trials[..i + 1][..i] == trials[..i];
  }

  /** The times of two runs of trials laid end to end are those of each run. */
  lemma {:induction false} TimingsConcat(a: seq<TrialResult>, b: seq<TrialResult>)
    ensures Timings(a + b) == Timings(a) + Timings(b)
    decreases |b|
  {
    if |b| == 0 {
      assert a + b == a;
    } else {
      var n := |b| - 1;
      assert (a + b)[..|a + b| - 1] == a + b[..n];
      TimingsConcat(a, b[..n]);
    }
  }

  /** The average emitted for a pair: nothing when every trial failed, otherwise
      the arithmetic mean of the successful times. */
  function Average(trials: seq<TrialResult>): (avg: Option<real>)
    ensures avg.Some? ==> |Timings(trials)| > 0 && avg.value == Mean(Timings(trials))
  {
    var ts := Timings(trials);
    if |ts| == 0 then None else Some(Sum(ts) / |ts| as real)
  }

  /** An average exists exactly when some trial succeeded, and it lies between
      the fastest and the slowest successful trial. */
  lemma AverageBounds(trials: seq<TrialResult>)
    ensures var avg := Average(trials);
      && (avg.Some? <==> exists i :: 0 <= i < |trials| && trials[i].success)
      && (avg.Some? ==> exists i :: 0 <= i < |trials| && trials[i].success && trials[i].time <= avg.value)
      && (avg.Some? ==> exists i :: 0 <= i < |trials| && trials[i].success && avg.value <= trials[i].time)
  {
    var ts := Timings(trials);
    TimingsMembers(trials);
    if |ts| > 0 {
      MeanBounds(ts);
    }
  }

  /** Inserting a failed trial anywhere leaves the average unchanged: its time of -1
      never enters the sum. */
  lemma AverageIgnoresFailure(a: seq<TrialResult>, f: TrialResult, b: seq<TrialResult>)
    requires !f.success
    ensures Average(a + [f] + b) == Average(a + b)
  {
    TimingsConcat(a + [f], b);
    TimingsConcat(a, [f]);
    TimingsConcat(a, b);
    assert Timings([f]) == [] by {
      assert [f][..0] == [];
    }
  }

  /** The average depends only on which times succeeded, not on their order. */
  lemma AverageOrderIndependent(t1: seq<TrialResult>, t2: seq<TrialResult>)
    requires multiset(Timings(t1)) == multiset(Timings(t2))
    ensures Average(t1) == Average(t2)
  {
    var a, b := Timings(t1), Timings(t2);
    assert |a| == |multiset(a)| == |multiset(b)| == |b|;
    SumPermutation(a, b);
  }

  /** Two successes of 10 ms and 20 ms and one failure average to 15 ms. */
  lemma AverageExample()
    ensures Average([TrialResult(true, 10.0), TrialResult(true, 20.0), ResolveAndTime(None)]) == Some(15.0)
  {
    var trials := [TrialResult(true, 10.0), TrialResult(true, 20.0), ResolveAndTime(None)];
    assert trials[..2][..1] == [TrialResult(true, 10.0)];
    assert trials[..2][..1][..0] == [];
    assert Timings(trials) == [10.0, 20.0];
    assert [10.0, 20.0][..1][..0] == [];
    assert Sum([10.0, 20.0]) == 30.0;
  }
}
