/** Sliding-window throughput (crates/kodama/src/capture/throughput.rs).

The tracker keeps cumulative byte counts of the last window only. It is proved
against the whole history of what was recorded. Times are nanoseconds. */
module Throughput {
  import opened Seqs

  /** One call of `record`. */
  datatype Entry = Entry(timeNs: nat, bytes: nat)

  /** One retained sample: when, and all bytes recorded up to and including it. */
  datatype Sample = Sample(timeNs: nat, total: nat)

  function Sum(history: seq<Entry>): nat {
    if history == [] then 0 else Sum(history[..|history| - 1]) + history[|history| - 1].bytes
  }

  predicate Monotone(history: seq<Entry>) {
    forall i, j | 0 <= i < j < |history| :: history[i].timeNs <= history[j].timeNs
  }

  /** Position of the oldest entry within the window of the newest. */
  function Oldest(history: seq<Entry>, window: nat): nat
    requires history != []
  {
    OldestFrom(history, window, 0)
  }

  function OldestFrom(history: seq<Entry>, window: nat, i: nat): (k: nat)
    requires i < |history|
    ensures i <= k < |history|
    decreases |history| - i
  {
    if history[|history| - 1].timeNs - history[i].timeNs <= window || i == |history| - 1 then i
    else OldestFrom(history, window, i + 1)
  }

  /** The retained entries are exactly those within the window of the newest. */
  lemma {:induction false} OldestIsExact(history: seq<Entry>, window: nat, from: nat)
    requires Monotone(history) && from < |history|
    requires forall i | 0 <= i < from :: history[|history| - 1].timeNs - history[i].timeNs > window
    ensures var k := OldestFrom(history, window, from);
            forall i | 0 <= i < |history| :: k <= i <==> history[|history| - 1].timeNs - history[i].timeNs <= window
    decreases |history| - from
  {
    if !(history[|history| - 1].timeNs - history[from].timeNs <= window || from == |history| - 1) {
      OldestIsExact(history, window, from + 1);
    }
  }

  /** The sample each entry gave rise to. */
  function Samples(history: seq<Entry>): (s: seq<Sample>)
    ensures |s| == |history|
  {
    if history == [] then []
    else Samples(history[..|history| - 1]) + [Sample(history[|history| - 1].timeNs, Sum(history))]
  }

  function Retained(history: seq<Entry>, window: nat): seq<Sample> {
    if history == [] then [] else Samples(history)[Oldest(history, window)..]
  }

  lemma {:induction false} SampleAt(history: seq<Entry>, i: nat)
    requires i < |history|
    ensures Samples(history)[i] == Sample(history[i].timeNs, Sum(history[..i + 1]))
    decreases |history|
  {
    var init := history[..|history| - 1];
    if i < |init| {
      SampleAt(init, i);
      assert init[..i + 1] == history[..i + 1];
    } else {
      assert history[..i + 1] == history;
    }
  }

  lemma Unfold(history: seq<Entry>)
    requires history != []
    ensures var init, e := history[..|history| - 1], history[|history| - 1];
            && Sum(history) == Sum(init) + e.bytes
            && Samples(history) == Samples(init) + [Sample(e.timeNs, Sum(init) + e.bytes)]
  {
  }

  lemma HistorySnoc(history: seq<Entry>, e: Entry)
    ensures Sum(history + [e]) == Sum(history) + e.bytes
    ensures Samples(history + [e]) == Samples(history) + [Sample(e.timeNs, Sum(history) + e.bytes)]
  {
    hide Samples, Sum;
    SnocParts(history, e);
    Unfold(history + [e]);
  }

  lemma {:induction false} SumSplits(history: seq<Entry>, k: nat)
    requires k <= |history|
    ensures Sum(history) == Sum(history[..k]) + Sum(history[k..])
    decreases |history|
  {
    if k == |history| {
      assert history[..k] == history && history[k..] == [];
    } else {
      var init := history[..|history| - 1];
      SumSplits(init, k);
      assert init[..k] == history[..k];
      assert init[k..] == history[k..][..|history| - k - 1];
    }
  }

  /** The rate: bytes recorded after the oldest retained entry, times eight, over the
  time since then; zero while there are fewer than two samples or less than 100 ms. */
  function RateOf(history: seq<Entry>, window: nat): real {
    if history == [] then 0.0
    else
      var k := Oldest(history, window);
      var elapsed := history[|history| - 1].timeNs - history[k].timeNs;
      if k == |history| - 1 || elapsed < 100_000_000 then 0.0
      else (Sum(history[k + 1..]) as real * 8.0) / (elapsed as real / 1_000_000_000.0)
  }

  /** The same number of bytes over and over, one gap apart. */
  function Steady(begin: nat, gap: nat, bytes: nat, n: nat): (history: seq<Entry>)
    ensures |history| == n
  {
    seq(n, i requires 0 <= i < n => Entry(begin + i * gap, bytes))
  }

  lemma SteadyMonotone(begin: nat, gap: nat, bytes: nat, n: nat)
    ensures Monotone(Steady(begin, gap, bytes, n))
  {
    forall i, j | 0 <= i < j < n
      ensures i * gap <= j * gap
    {
      Apart(i, j, gap);
    }
  }

  lemma Apart(i: nat, j: nat, gap: nat)
    requires i <= j
    ensures j * gap - i * gap == (j - i) * gap >= 0
  {
    assert (j - i) * gap == j * gap - i * gap;
  }

  lemma {:induction false} SteadySum(history: seq<Entry>, bytes: nat)
    requires forall i | 0 <= i < |history| :: history[i].bytes == bytes
    ensures Sum(history) == |history| * bytes
    decreases |history|
  {
    if history != [] {
      SteadySum(history[..|history| - 1], bytes);
      assert |history| * bytes == (|history| - 1) * bytes + bytes;
    }
  }

  /** How many gaps the retained samples of a steady history span. */
  lemma SteadySpan(begin: nat, gap: nat, bytes: nat, n: nat, window: nat)
    requires gap > 0 && n > 0
    ensures var m: int := n - 1 - Oldest(Steady(begin, gap, bytes, n), window);
            && m * gap <= window && (m == n - 1 || window < (m + 1) * gap)
  {
    var history := Steady(begin, gap, bytes, n);
    var k := Oldest(history, window);
    SteadyMonotone(begin, gap, bytes, n);
    OldestIsExact(history, window, 0);
    Apart(k, n - 1, gap);
    assert history[n - 1].timeNs - history[k].timeNs == (n - 1 - k) * gap;
    if k > 0 {
      Apart(k - 1, n - 1, gap);
      assert history[n - 1].timeNs - history[k - 1].timeNs == (n - k) * gap;
    }
  }

  /** Bits per second: a sender that writes the same number of bytes every gap is measured at
  eight times that per gap, as soon as the gaps in the window, as many as fit, span a tenth of a
  second. */
  lemma SteadyRate(begin: nat, gap: nat, bytes: nat, n: nat, window: nat)
    requires gap > 0 && n > 0
    ensures var m: int := n - 1 - Oldest(Steady(begin, gap, bytes, n), window);
            RateOf(Steady(begin, gap, bytes, n), window)
            == if m * gap >= 100_000_000 then (bytes * 8 * 1_000_000_000) as real / gap as real else 0.0
    ensures var m: int := n - 1 - Oldest(Steady(begin, gap, bytes, n), window);
            m * gap <= window && (m == n - 1 || window < (m + 1) * gap)
  {
    hide Sum, OldestFrom;
    SteadySpan(begin, gap, bytes, n, window);
    var history := Steady(begin, gap, bytes, n);
    var k := Oldest(history, window);
    var m := n - 1 - k;
    Apart(k, n - 1, gap);
    assert history[n - 1].timeNs - history[k].timeNs == m * gap;
    SteadySum(history[k + 1..], bytes);
    if m * gap >= 100_000_000 {
      SameRate(m, gap, bytes);
    }
  }

  lemma SameRate(m: nat, gap: nat, bytes: nat)
    requires m * gap > 0
    ensures ((m * bytes) as real * 8.0) / ((m * gap) as real / 1_000_000_000.0)
         == (bytes * 8 * 1_000_000_000) as real / gap as real
  {
    var (x, g, b) := (m as real, gap as real, bytes as real);
    assert (m * bytes) as real == x * b && (m * gap) as real == x * g;
    assert (bytes * 8 * 1_000_000_000) as real == b * 8.0 * 1_000_000_000.0;
    Cancel(x, g, b);
  }

  lemma Cancel(x: real, g: real, b: real)
    requires x > 0.0 && g > 0.0
    ensures (x * b * 8.0) / (x * g / 1_000_000_000.0) == b * 8.0 * 1_000_000_000.0 / g
  {
    var r := b * 8.0 * 1_000_000_000.0 / g;
    var d := x * g / 1_000_000_000.0;
    assert r * g == b * 8.0 * 1_000_000_000.0;
    assert r * d == x * (r * g) / 1_000_000_000.0;
    assert r * d == x * b * 8.0;
    assert d > 0.0;
  }

  /** The window moves on: what the newest entry pushes out stays out. */
  lemma {:induction false} OldestMoves(history: seq<Entry>, e: Entry, window: nat, from: nat)
    requires history != [] && Monotone(history + [e]) && from <= Oldest(history, window)
    ensures OldestFrom(history + [e], window, from) == OldestFrom(history + [e], window, Oldest(history, window))
    decreases Oldest(history, window) - from
  {
    var all := history + [e];
    assert Monotone(history) by {
      assert forall i | 0 <= i < |history| :: history[i] == all[i];
    }
    if from < Oldest(history, window) {
      OldestIsExact(history, window, 0);
      assert all[|history|] == e && all[from] == history[from] && all[|history| - 1] == history[|history| - 1];
      assert !(history[|history| - 1].timeNs - history[from].timeNs <= window);
      OldestMoves(history, e, window, from + 1);
    }
  }

  class ThroughputTracker {
    var samples: seq<Sample>
    const window: nat
    var totalBytes: nat
    /** Everything recorded so far. */
    ghost var history: seq<Entry>

    ghost predicate Valid()
      reads this
    {
      && Monotone(history)
      && totalBytes == Sum(history)
      && samples == Retained(history, window)
    }

    constructor (window: nat)
      ensures Valid() && history == [] && this.window == window
    {
      this.window := window;
      samples, totalBytes, history := [], 0, [];
    }

    method Record(bytes: nat, now: nat)
      requires Valid()
      requires history != [] ==> history[|history| - 1].timeNs <= now
      modifies this
      ensures Valid() && history == old(history) + [Entry(now, bytes)]
    {
      hide Samples, Sum, OldestFrom;
      ghost var k := if history == [] then 0 else Oldest(history, window);
      HistorySnoc(history, Entry(now, bytes));
      DropSnoc(Samples(history), Sample(now, Sum(history) + bytes), k);
      if history != [] {
        OldestMoves(history, Entry(now, bytes), window, 0);
      }
      totalBytes := totalBytes + bytes;
      samples := samples + [Sample(now, totalBytes)];
      if history == [] {
        NoSamples();
      }
      history := history + [Entry(now, bytes)];
      Prune(now, k);
    }

    static lemma NoSamples()
      ensures Samples([]) == [] && Sum([]) == 0
    {
    }

    /** prune: drop samples from the front until one is within the window. */
    method Prune(now: nat, ghost from: nat)
      requires history != [] && Monotone(history) && history[|history| - 1].timeNs == now
      requires from < |history| && samples == Samples(history)[from..]
      requires OldestFrom(history, window, from) == Oldest(history, window)
      modifies this`samples
      ensures samples == Retained(history, window)
    {
      hide Samples, Sum;
      ghost var k := from;
      SampleAt(history, k);
      while samples != [] && now - samples[0].timeNs > window
        invariant 0 <= k < |history| && samples == Samples(history)[k..]
        invariant samples[0].timeNs == history[k].timeNs
        invariant OldestFrom(history, window, k) == Oldest(history, window)
        decreases |samples|
      {
        samples := samples[1..];
        k := k + 1;
        SampleAt(history, k);
      }
    }

    /** bits_per_second. */
    method BitsPerSecond() returns (bps: real)
      requires Valid()
      ensures bps == RateOf(history, window)
    {
      hide Sum, Samples, OldestFrom;
      if |samples| < 2 {
        FewSamples(history, window);
        return 0.0;
      }
      var oldest, newest := samples[0], samples[|samples| - 1];
      RateParts(history, window);
      var elapsed := newest.timeNs - oldest.timeNs;
      if elapsed / 1_000_000 < 100 {
        return 0.0;
      }
      var bytesDelta := newest.total - oldest.total;
      bps := (bytesDelta as real * 8.0) / (elapsed as real / 1_000_000_000.0);
    }
  }

  lemma FewSamples(history: seq<Entry>, window: nat)
    requires |Retained(history, window)| < 2
    ensures history != [] ==> Oldest(history, window) == |history| - 1
  {
    hide Sum, OldestFrom;
    if history != [] {
      SampleAt(history, 0);
    }
  }

  /** The two samples that a rate is computed from. */
  lemma RateParts(history: seq<Entry>, window: nat)
    requires |Retained(history, window)| >= 2
    ensures history != []
    ensures var s, k := Retained(history, window), Oldest(history, window);
            && k < |history| - 1
            && s[0].timeNs == history[k].timeNs && s[|s| - 1].timeNs == history[|history| - 1].timeNs
            && s[|s| - 1].total - s[0].total == Sum(history[k + 1..])
  {
    hide Sum, OldestFrom;
    var k := Oldest(history, window);
    SampleAt(history, k);
    SampleAt(history, |history| - 1);
    assert history[..|history|] == history;
    SumSplits(history, k + 1);
  }

  /** The cumulative difference of two retained samples is the bytes recorded after
  the first up to the second: it never underflows. */
  lemma DifferenceIsRecorded(history: seq<Entry>, window: nat, i: nat, j: nat)
    requires history != [] && i <= j < |Retained(history, window)|
    ensures var s, k := Retained(history, window), Oldest(history, window);
            k + j < |history| && s[j].total - s[i].total == Sum(history[k + i + 1..k + j + 1])
  {
    hide Samples, Sum, OldestFrom;
    var k := Oldest(history, window);
    SampleAt(history, k + i);
    SampleAt(history, k + j);
    var upto := history[..k + j + 1];
    SumSplits(upto, k + i + 1);
    assert upto[..k + i + 1] == history[..k + i + 1];
    assert upto[k + i + 1..] == history[k + i + 1..k + j + 1];
  }

  /** What is retained, and what a nonzero rate spans. */
  lemma RetainedIsWindow(history: seq<Entry>, window: nat)
    requires Monotone(history) && history != []
    ensures var k := Oldest(history, window);
            var newest := history[|history| - 1].timeNs;
            && |Retained(history, window)| == |history| - k
            && (forall i | 0 <= i < |history| :: k <= i <==> newest - history[i].timeNs <= window)
            && 0 <= newest - history[k].timeNs <= window
  {
    OldestIsExact(history, window, 0);
  }
}
