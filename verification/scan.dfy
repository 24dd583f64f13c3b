/** `main` (index.js:162-189): the table is read, each row is evaluated in turn
    as provider `i + 1` of `providers.length`, and the summaries are ranked.
    A row with a missing column makes `testDNSProvider` throw; the rejection
    leaves `main` before anything is ranked, after the redraws of the earlier
    providers have been shown. */
module Scan {
  import opened Options
  import opened Arith
  import opened Sampler
  import opened Providers
  import opened Evaluator
  import opened Ranking

  /** The first `k` rows all have their three columns. */
  predicate RowsComplete(table: seq<seq<string>>, k: nat) {
    k <= |table| && forall i :: 0 <= i < k ==> |table[i]| >= 3
  }

  /** The index of the first row whose parse throws, or the row count when none does. */
  function FirstMalformed(table: seq<seq<string>>): (k: nat)
    ensures RowsComplete(table, k)
    ensures k < |table| ==> |table[k]| < 3
  {
    FirstMalformedFrom(table, 0)
  }

  function FirstMalformedFrom(table: seq<seq<string>>, i: nat): (k: nat)
    requires RowsComplete(table, i)
    ensures i <= k && RowsComplete(table, k)
    ensures k < |table| ==> |table[k]| < 3
    decreases |table| - i
  {
    if i == |table| || |table[i]| < 3 then i else FirstMalformedFrom(table, i + 1)
  }

  /** Complete rows up to `k`, followed by a malformed row or the end, locate the
      first malformed row. */
  lemma FirstMalformedAt(table: seq<seq<string>>, k: nat)
    requires RowsComplete(table, k)
    requires k < |table| ==> |table[k]| < 3
    ensures FirstMalformed(table) == k
  {
  }

  /** A row that is complete up to `k` cannot hold the first malformed row
      before `k`. */
  lemma CompleteBeforeMalformed(table: seq<seq<string>>, k: nat)
    requires RowsComplete(table, k)
    ensures k <= FirstMalformed(table)
  {
  }

  /** The providers of the first `k` rows, as `ParseProvider` reads them. */
  function Parsed(table: seq<seq<string>>, k: nat): (ps: seq<Provider>)
    requires RowsComplete(table, k)
    ensures |ps| == k
    ensures forall i :: 0 <= i < k ==> ParseProvider(table[i]) == Ok(ps[i])
  {
    seq(k, i requires 0 <= i < k => ParseProvider(table[i]).value)
  }

  /** The redraws made while provider `c` of `total` is tested. */
  function ProviderUpdates(p: Provider, hosts: seq<string>, c: nat, total: nat): (us: seq<Update>)
    ensures |us| == PairCount(p, hosts)
  {
    ProviderPairCount(p, hosts);
    Updates(Stage(PairCount(p, hosts), c, total, p.name), 0, ProviderPairs(p, hosts))
  }

  /** The redraws made while the first `k` providers of a table of `total`
      rows are tested, in order. */
  function ScanUpdates(ps: seq<Provider>, hosts: seq<string>, total: nat, k: nat): seq<Update>
    requires k <= |ps|
    decreases k
  {
    if k == 0 then []
    else ScanUpdates(ps, hosts, total, k - 1) + ProviderUpdates(ps[k - 1], hosts, k, total)
  }

  /** The summaries of the first `k` providers in table order. */
  function Summaries(oracle: Oracle, ps: seq<Provider>, hosts: seq<string>, k: nat): (s: seq<Summary>)
    requires k <= |ps|
    ensures |s| == k
    ensures forall i :: 0 <= i < k ==> s[i].name == ps[i].name
  {
    seq(k, i requires 0 <= i < k => EvaluateProvider(oracle, i + 1, ps[i], hosts))
  }

  /** The table `main` prints: the ranked summaries of every row, or the error
      of the first row with a missing column. */
  function Report(oracle: Oracle, csv: string, hosts: seq<string>): (r: Result<seq<Summary>>)
    ensures r.Ok? <==> RowsComplete(RowFields(csv), |RowFields(csv)|)
    ensures r.Err? ==> r.message == MissingColumn
    ensures r.Ok? ==>
      var table := RowFields(csv);
      var all := Summaries(oracle, Parsed(table, |table|), hosts, |table|);
      && multiset(r.value) == multiset(all)
      && |r.value| == |table|
      && Ranked(r.value)
  {
    var table := RowFields(csv);
    if RowsComplete(table, |table|) then
      var all := Summaries(oracle, Parsed(table, |table|), hosts, |table|);
      RankRanked(all);
      assert |multiset(Rank(all))| == |multiset(all)|;
      Ok(Rank(all))
    else Err(MissingColumn)
  }

  lemma SummariesStep(oracle: Oracle, ps: seq<Provider>, hosts: seq<string>, i: nat, results: seq<Summary>, next: Summary)
    requires i < |ps|
    requires results == Summaries(oracle, ps, hosts, i)
    requires next == EvaluateProvider(oracle, i + 1, ps[i], hosts)
    ensures results + [next] == Summaries(oracle, ps, hosts, i + 1)
  {
    var all := Summaries(oracle, ps, hosts, i + 1);
    var joined := results + [next];
    forall j | 0 <= j < i + 1
      ensures joined[j] == all[j]
    {
      if j < i {
        assert joined[j] == results[j];
      }
    }
  }

  lemma UpdatesStep(ps: seq<Provider>, hosts: seq<string>, total: nat, i: nat, updates: seq<Update>, shown: seq<Update>)
    requires i < |ps|
    requires updates == ScanUpdates(ps, hosts, total, i)
    requires shown == Updates(Stage(PairCount(ps[i], hosts), i + 1, total, ps[i].name), 0, ProviderPairs(ps[i], hosts))
    ensures updates + shown == ScanUpdates(ps, hosts, total, i + 1)
  {
  }

  lemma ReportComplete(oracle: Oracle, csv: string, hosts: seq<string>, table: seq<seq<string>>, ps: seq<Provider>, results: seq<Summary>)
    requires table == RowFields(csv) && RowsComplete(table, |table|)
    requires ps == Parsed(table, |table|) && results == Summaries(oracle, ps, hosts, |table|)
    ensures Report(oracle, csv, hosts) == Ok(Rank(results))
  {
  }

  lemma ReportMalformed(oracle: Oracle, csv: string, hosts: seq<string>, table: seq<seq<string>>, i: nat)
    requires table == RowFields(csv) && i < |table| && |table[i]| < 3
    ensures Report(oracle, csv, hosts) == Err(MissingColumn)
  {
  }

  /** `main`: every row is handed to `testDNSProvider` as provider `i + 1` of
      the row count; the first failing row ends the scan with its error, and
      otherwise the summaries are ranked. */
  method RunScan(oracle: Oracle, csv: string, hosts: seq<string>) returns (report: Result<seq<Summary>>, updates: seq<Update>)
    ensures report == Report(oracle, csv, hosts)
    ensures var table := RowFields(csv);
      var m := FirstMalformed(table);
      updates == ScanUpdates(Parsed(table, m), hosts, |table|, m)
  {
    var providers := RowFields(csv);
    ghost var m := FirstMalformed(providers);
    ghost var ps := Parsed(providers, m);
    var results: seq<Summary> := [];
    updates := [];
    for i := 0 to |providers|
      invariant RowsComplete(providers, i) && i <= m
      invariant results == Summaries(oracle, ps, hosts, i)
      invariant updates == ScanUpdates(ps, hosts, |providers|, i)
    {
      var result, shown, _ := TestDNSProvider(oracle, providers[i], hosts, i + 1, |providers|);
      if result.Err? {
        FirstMalformedAt(providers, i);
        ReportMalformed(oracle, csv, hosts, providers, i);
        return Err(result.message), updates;
      }
      CompleteBeforeMalformed(providers, i + 1);
      SummariesStep(oracle, ps, hosts, i, results, result.value);
      UpdatesStep(ps, hosts, |providers|, i, updates, shown);
      results := results + [result.value];
      updates := updates + shown;
    }
    FirstMalformedAt(providers, |providers|);
    ReportComplete(oracle, csv, hosts, providers, ps, results);
    report := Ok(Rank(results));
  }

  /** The share of the scan the bar shows for a redraw. */
  function Ratio(u: Update): real
    requires ValidUpdate(u)
  {
    Shown(u) as real / OutOf(u) as real
  }

  function Ratios(us: seq<Update>): (rs: seq<real>)
    requires forall i :: 0 <= i < |us| ==> ValidUpdate(us[i])
    ensures |rs| == |us|
  {
    seq(|us|, i requires 0 <= i < |us| => Ratio(us[i]))
  }

  predicate Increasing(rs: seq<real>) {
    forall i, j :: 0 <= i < j < |rs| ==> rs[i] < rs[j]
  }

  lemma RatiosConcat(a: seq<Update>, b: seq<Update>)
    requires forall i :: 0 <= i < |a| ==> ValidUpdate(a[i])
    requires forall i :: 0 <= i < |b| ==> ValidUpdate(b[i])
    ensures forall i :: 0 <= i < |a + b| ==> ValidUpdate((a + b)[i])
    ensures Ratios(a + b) == Ratios(a) + Ratios(b)
  {
    assert forall i :: 0 <= i < |a + b| ==> ValidUpdate((a + b)[i]) by {
      forall i | 0 <= i < |a + b|
        ensures ValidUpdate((a + b)[i])
      {
        if i >= |a| {
          assert (a + b)[i] == b[i - |a|];
        }
      }
    }
  }

  /** Two increasing runs, the first lying wholly below the second, make an
      increasing run. */
  lemma IncreasingConcat(a: seq<real>, b: seq<real>, mid: real)
    requires Increasing(a) && Increasing(b)
    requires forall i :: 0 <= i < |a| ==> a[i] <= mid
    requires forall j :: 0 <= j < |b| ==> mid < b[j]
    ensures Increasing(a + b)
  {
    var r := a + b;
    forall i, j | 0 <= i < j < |r|
      ensures r[i] < r[j]
    {
      if j < |a| {
        assert r[i] == a[i] && r[j] == a[j];
      } else if i >= |a| {
        assert r[i] == b[i - |a|] && r[j] == b[j - |a|];
      } else {
        assert r[i] == a[i] && r[j] == b[j - |a|];
      }
    }
  }

  /** Scaling numerator and denominator by the same positive count leaves a
      fraction unchanged. */
  lemma ScaleFraction(a: int, b: int, k: int)
    requires b > 0 && k > 0
    ensures (a * k) as real / (b * k) as real == a as real / b as real
  {
    CastMul(a, k);
    CastMul(b, k);
    var q := a as real / b as real;
    assert q * (b as real * k as real) == a as real * k as real;
  }

  lemma DivStrict(a: real, b: real, k: real)
    requires a < b && k > 0.0
    ensures a / k < b / k
  {
    assert b / k - a / k == (b - a) / k;
  }

  /** The redraws of provider `c` of `total`, with `t` pairs, show counts from
      `(c - 1) * t + 1` up to `c * t` out of `total * t`. */
  lemma ProviderCounts(p: Provider, hosts: seq<string>, c: nat, total: nat)
    requires 1 <= c <= total
    ensures var us := ProviderUpdates(p, hosts, c, total);
      var t := PairCount(p, hosts);
      forall i :: 0 <= i < |us| ==>
        && Shown(us[i]) == (c - 1) * t + i + 1
        && OutOf(us[i]) == total * t
        && ValidUpdate(us[i])
  {
    var us := ProviderUpdates(p, hosts, c, total);
    var t := PairCount(p, hosts);
    if t > 0 {
      IntMulMonotone(0, c - 1, t);
      IntMulMonotone(c, total, t);
      IntMulAtLeast(total, t);
      assert (c - 1) * t + t == c * t;
      forall i | 0 <= i < |us|
        ensures Shown(us[i]) == (c - 1) * t + i + 1 && OutOf(us[i]) == total * t && ValidUpdate(us[i])
      {
        assert us[i].currentTest == i + 1 && us[i].stage.totalTests == t;
      }
    }
  }

  /** The share shown while provider `c` of `total` is tested rises with every
      redraw and stays above `(c - 1) / total` and at most `c / total`. */
  lemma ProviderProgress(p: Provider, hosts: seq<string>, c: nat, total: nat)
    requires 1 <= c <= total
    ensures var us := ProviderUpdates(p, hosts, c, total);
      && (forall i :: 0 <= i < |us| ==> ValidUpdate(us[i]))
      && Increasing(Ratios(us))
      && forall i :: 0 <= i < |us| ==>
           (c - 1) as real / total as real < Ratios(us)[i] <= c as real / total as real
  {
    ProviderCounts(p, hosts, c, total);
    RunProgress(ProviderUpdates(p, hosts, c, total), c, total, PairCount(p, hosts));
  }

  /** A run of `t` redraws counting on from `(c - 1) * t` out of `total * t`. */
  lemma RunProgress(us: seq<Update>, c: nat, total: nat, t: nat)
    requires 1 <= c <= total && |us| == t
    requires forall i :: 0 <= i < |us| ==>
      Shown(us[i]) == (c - 1) * t + i + 1 && OutOf(us[i]) == total * t && ValidUpdate(us[i])
    ensures Increasing(Ratios(us))
    ensures forall i :: 0 <= i < |us| ==>
      (c - 1) as real / total as real < Ratios(us)[i] <= c as real / total as real
  {
    if t > 0 {
      var o := (total * t) as real;
      IntMulAtLeast(total, t);
      ScaleFraction(c - 1, total, t);
      ScaleFraction(c, total, t);
      var rs := Ratios(us);
      forall i | 0 <= i < |us|
        ensures (c - 1) as real / total as real < rs[i] <= c as real / total as real
      {
        var s := (c - 1) * t + i + 1;
        assert rs[i] == s as real / o;
        assert (c - 1) * t + t == c * t;
        DivStrict(((c - 1) * t) as real, s as real, o);
        DivMonotone(s as real, (c * t) as real, o);
      }
      forall i, j | 0 <= i < j < |rs|
        ensures rs[i] < rs[j]
      {
        assert rs[i] == Shown(us[i]) as real / o && rs[j] == Shown(us[j]) as real / o;
        DivStrict(Shown(us[i]) as real, Shown(us[j]) as real, o);
      }
    }
  }

  /** Over the first `k` providers of a table of `total` rows, every redraw can
      be drawn, the share shown rises strictly from each redraw to the next,
      and it never passes `k / total`, although each provider scales its
      counter by its own pair count. */
  lemma {:induction false} ScanProgress(ps: seq<Provider>, hosts: seq<string>, total: nat, k: nat)
    requires k <= |ps| && k <= total
    ensures var us := ScanUpdates(ps, hosts, total, k);
      && (forall i :: 0 <= i < |us| ==> ValidUpdate(us[i]))
      && Increasing(Ratios(us))
      && forall i :: 0 <= i < |us| ==> 0 < total && Ratios(us)[i] <= k as real / total as real
    decreases k
  {
    if k > 0 {
      var front := ScanUpdates(ps, hosts, total, k - 1);
      var last := ProviderUpdates(ps[k - 1], hosts, k, total);
      ScanProgress(ps, hosts, total, k - 1);
      ProviderProgress(ps[k - 1], hosts, k, total);
      DivMonotone((k - 1) as real, k as real, total as real);
      ProgressJoin(front, last, (k - 1) as real / total as real, k as real / total as real);
    }
  }

  /** Two increasing runs of shares, the first at most `mid` and the second
      above it and at most `top`, make one increasing run at most `top`. */
  lemma ProgressJoin(front: seq<Update>, last: seq<Update>, mid: real, top: real)
    requires mid <= top
    requires forall i :: 0 <= i < |front| ==> ValidUpdate(front[i])
    requires forall i :: 0 <= i < |last| ==> ValidUpdate(last[i])
    requires Increasing(Ratios(front)) && Increasing(Ratios(last))
    requires forall i :: 0 <= i < |front| ==> Ratios(front)[i] <= mid
    requires forall i :: 0 <= i < |last| ==> mid < Ratios(last)[i] <= top
    ensures var us := front + last;
      && (forall i :: 0 <= i < |us| ==> ValidUpdate(us[i]))
      && Increasing(Ratios(us))
      && forall i :: 0 <= i < |us| ==> Ratios(us)[i] <= top
  {
    RatiosConcat(front, last);
    IncreasingConcat(Ratios(front), Ratios(last), mid);
    var us := front + last;
    forall i | 0 <= i < |us|
      ensures Ratios(us)[i] <= top
    {
      if i < |front| {
        assert Ratios(us)[i] == Ratios(front)[i];
      } else {
        assert Ratios(us)[i] == Ratios(last)[i - |front|];
      }
    }
  }

  /** When each of the first `k` providers has the same `t` pairs, the counter
      shown is exactly the number of pairs tested so far, out of `total * t`. */
  lemma {:induction false} EqualCountsCountPairs(ps: seq<Provider>, hosts: seq<string>, total: nat, k: nat, t: nat)
    requires k <= |ps| && k <= total
    requires forall i :: 0 <= i < k ==> PairCount(ps[i], hosts) == t
    ensures var us := ScanUpdates(ps, hosts, total, k);
      && |us| == k * t
      && forall i :: 0 <= i < |us| ==> Shown(us[i]) == i + 1 && OutOf(us[i]) == total * t
    decreases k
  {
    if k > 0 {
      var front := ScanUpdates(ps, hosts, total, k - 1);
      var last := ProviderUpdates(ps[k - 1], hosts, k, total);
      EqualCountsCountPairs(ps, hosts, total, k - 1, t);
      ProviderCounts(ps[k - 1], hosts, k, total);
      assert ScanUpdates(ps, hosts, total, k) == front + last;
      CountsStep(front, last, k, t, total);
    }
  }

  lemma CountsStep(front: seq<Update>, last: seq<Update>, k: nat, t: nat, total: nat)
    requires k >= 1
    requires |front| == (k - 1) * t
    requires forall i :: 0 <= i < |front| ==> Shown(front[i]) == i + 1 && OutOf(front[i]) == total * t
    requires |last| == t
    requires forall i :: 0 <= i < |last| ==> Shown(last[i]) == (k - 1) * t + i + 1 && OutOf(last[i]) == total * t
    ensures |front + last| == k * t
    ensures forall i :: 0 <= i < |front + last| ==> Shown((front + last)[i]) == i + 1 && OutOf((front + last)[i]) == total * t
  {
    assert (k - 1) * t + t == k * t;
    CountsJoin(front, last, (k - 1) * t, total * t);
  }

  /** Redraws counting `1..n` followed by redraws counting on from `n + 1`
      count from 1 throughout. */
  lemma CountsJoin(front: seq<Update>, last: seq<Update>, n: nat, total: int)
    requires |front| == n && forall i :: 0 <= i < |front| ==> Shown(front[i]) == i + 1 && OutOf(front[i]) == total
    requires forall i :: 0 <= i < |last| ==> Shown(last[i]) == n + i + 1 && OutOf(last[i]) == total
    ensures forall i :: 0 <= i < |front + last| ==> Shown((front + last)[i]) == i + 1 && OutOf((front + last)[i]) == total
  {
    var us := front + last;
    forall i | 0 <= i < |us|
      ensures Shown(us[i]) == i + 1 && OutOf(us[i]) == total
    {
      if i >= |front| {
        assert us[i] == last[i - |front|];
      } else {
        assert us[i] == front[i];
      }
    }
  }

  /** A complete scan ends on a full bar exactly when the last provider has a
      pair to test; when it has none the bar stops at its predecessors' share. */
  lemma ScanEndsFull(ps: seq<Provider>, hosts: seq<string>)
    requires |ScanUpdates(ps, hosts, |ps|, |ps|)| > 0
    ensures |ps| > 0
    ensures var us := ScanUpdates(ps, hosts, |ps|, |ps|);
      ValidUpdate(us[|us| - 1])
      && (Shown(us[|us| - 1]) == OutOf(us[|us| - 1]) <==> PairCount(ps[|ps| - 1], hosts) > 0)
  {
    var n := |ps|;
    var us := ScanUpdates(ps, hosts, n, n);
    assert n != 0;
    var front := ScanUpdates(ps, hosts, n, n - 1);
    var p := ps[n - 1];
    var last := ProviderUpdates(p, hosts, n, n);
    assert us == front + last;
    if PairCount(p, hosts) > 0 {
      LastProviderFull(p, hosts, n, last);
      EndsFullJoin(us, front, last, true);
    } else {
      PredecessorsShort(ps, hosts, n - 1, front);
      EndsFullJoin(us, front, last, false);
    }
  }

  lemma EndsFullJoin(us: seq<Update>, front: seq<Update>, last: seq<Update>, full: bool)
    requires us == front + last
    requires full ==> |last| > 0 && ValidUpdate(last[|last| - 1]) && Shown(last[|last| - 1]) == OutOf(last[|last| - 1])
    requires !full ==> |last| == 0 && |front| > 0 && ValidUpdate(front[|front| - 1]) && Shown(front[|front| - 1]) < OutOf(front[|front| - 1])
    ensures |us| > 0 && ValidUpdate(us[|us| - 1]) && (Shown(us[|us| - 1]) == OutOf(us[|us| - 1]) <==> full)
  {
    if full {
      LastOfJoin(front, last);
    } else {
      assert front + last == front;
    }
  }

  /** The last redraw of the last provider, when it has pairs, shows a full count. */
  lemma LastProviderFull(p: Provider, hosts: seq<string>, n: nat, us: seq<Update>)
    requires 1 <= n && PairCount(p, hosts) > 0
    requires us == ProviderUpdates(p, hosts, n, n)
    ensures |us| > 0 && ValidUpdate(us[|us| - 1]) && Shown(us[|us| - 1]) == OutOf(us[|us| - 1])
  {
    var t := PairCount(p, hosts);
    ProviderCounts(p, hosts, n, n);
    assert (n - 1) * t + t == n * t;
  }

  lemma LastOfJoin(front: seq<Update>, last: seq<Update>)
    requires |last| > 0
    ensures (front + last)[|front + last| - 1] == last[|last| - 1]
  {
  }

  /** The last redraw before the last provider is tested shows less than the total. */
  lemma PredecessorsShort(ps: seq<Provider>, hosts: seq<string>, k: nat, us: seq<Update>)
    requires k + 1 == |ps|
    requires us == ScanUpdates(ps, hosts, |ps|, k) && |us| > 0
    ensures ValidUpdate(us[|us| - 1]) && Shown(us[|us| - 1]) < OutOf(us[|us| - 1])
  {
    ScanProgress(ps, hosts, |ps|, k);
    BelowLast(us, k + 1);
  }

  /** A redraw whose share is at most `(n - 1) / n` shows less than its total. */
  lemma BelowLast(us: seq<Update>, n: nat)
    requires |us| > 0 && n >= 1
    requires forall i :: 0 <= i < |us| ==> ValidUpdate(us[i])
    requires forall i :: 0 <= i < |us| ==> 0 < n && Ratios(us)[i] <= (n - 1) as real / n as real
    ensures ValidUpdate(us[|us| - 1]) && Shown(us[|us| - 1]) < OutOf(us[|us| - 1])
  {
    var u := us[|us| - 1];
    var r := Ratio(u);
    assert Ratios(us)[|us| - 1] == r;
    DivStrict((n - 1) as real, n as real, n as real);
    assert n as real / n as real == 1.0;
    var o := OutOf(u) as real;
    var c := Shown(u) as real;
    assert r == c / o;
    DivCancel(c, o);
    MulStrict(r, 1.0, o);
    assert c < o;
  }

  /** With one host, a first provider with one address and a second with two,
      the counter reads 1 of 2, then 3 of 4 and 4 of 4: it skips a value and its
      total changes between providers, unlike a count of the three pairs. */
  lemma UnequalCountsExample()
    ensures var hosts := ["example.com"];
      var first := Provider("one", ["1.1.1.1"], []);
      var second := Provider("two", ["8.8.8.8"], ["2001:4860:4860::8888"]);
      var us := ProviderUpdates(first, hosts, 1, 2) + ProviderUpdates(second, hosts, 2, 2);
      && |us| == 3
      && Shown(us[0]) == 1 && OutOf(us[0]) == 2
      && Shown(us[1]) == 3 && OutOf(us[1]) == 4
      && Shown(us[2]) == 4 && OutOf(us[2]) == 4
  {
    var hosts := ["example.com"];
    var first := Provider("one", ["1.1.1.1"], []);
    var second := Provider("two", ["8.8.8.8"], ["2001:4860:4860::8888"]);
    var a := ProviderUpdates(first, hosts, 1, 2);
    var b := ProviderUpdates(second, hosts, 2, 2);
    ProviderCounts(first, hosts, 1, 2);
    ProviderCounts(second, hosts, 2, 2);
    assert PairCount(first, hosts) == 1 && PairCount(second, hosts) == 2;
    assert (a + b)[1] == b[0] && (a + b)[2] == b[1];
  }

  /** When the next provider has fewer pairs the counter drops back: with one
      hostname, three pairs for the first of two providers and one for the
      second, the redraws read 1/6, 2/6, 3/6 and then 2/2. */
  lemma FallingCounterExample()
    ensures var hosts := ["example.com"];
      var first := Provider("one", ["1.1.1.1", "8.8.8.8", "9.9.9.9"], []);
      var second := Provider("two", ["1.0.0.1"], []);
      var us := ProviderUpdates(first, hosts, 1, 2) + ProviderUpdates(second, hosts, 2, 2);
      && |us| == 4
      && Shown(us[0]) == 1 && OutOf(us[0]) == 6
      && Shown(us[1]) == 2 && OutOf(us[1]) == 6
      && Shown(us[2]) == 3 && OutOf(us[2]) == 6
      && Shown(us[3]) == 2 && OutOf(us[3]) == 2
  {
    var hosts := ["example.com"];
    var first := Provider("one", ["1.1.1.1", "8.8.8.8", "9.9.9.9"], []);
    var second := Provider("two", ["1.0.0.1"], []);
    var a := ProviderUpdates(first, hosts, 1, 2);
    var b := ProviderUpdates(second, hosts, 2, 2);
    ProviderCounts(first, hosts, 1, 2);
    ProviderCounts(second, hosts, 2, 2);
    assert PairCount(first, hosts) == 3 && PairCount(second, hosts) == 1;
    assert (a + b)[3] == b[0];
  }
}
