/** history_api::get_market_history and get_fill_order_history: forward
    range scans over the market-history indices for a canonical asset pair.

    Asset ids arrive already resolved from their symbols. The bucket index
    is ordered by (base, quote, seconds, open) and the fill index by (base,
    quote, sequence); each is given as a sequence sorted by that key. */
module MarketHistory {
  import opened Common
  import opened Ledger

  /** get_market_history returns at most this many buckets. */
  const MaxBuckets: nat := 200

  /** The smallest int64, the sequence of the fill scan's search key. */
  const Int64Min: int := -0x8000_0000_0000_0000

  /** The pair in index order: the smaller id is the base. */
  function CanonicalPair(a: nat, b: nat): (p: (nat, nat))
    ensures p.0 <= p.1
    ensures (p.0 == a && p.1 == b) || (p.0 == b && p.1 == a)
  {
    if a > b then (b, a) else (a, b)
  }

  // ---------------------------------------------------------------- buckets

  predicate BucketKeyLess(x: BucketKey, y: BucketKey)
  {
    x.base < y.base ||
    (x.base == y.base &&
      (x.quote < y.quote ||
        (x.quote == y.quote &&
          (x.seconds < y.seconds || (x.seconds == y.seconds && x.open < y.open)))))
  }

  predicate SortedBuckets(idx: seq<Bucket>)
  {
    forall i, j :: 0 <= i < j < |idx| ==> BucketKeyLess(idx[i].key, idx[j].key)
  }

  /** The bucket belongs to the series (pair, width) a query asks for. */
  predicate InSeries(bk: Bucket, base: nat, quote: nat, seconds: nat)
  {
    bk.key.base == base && bk.key.quote == quote && bk.key.seconds == seconds
  }

  /** lower_bound(base, quote, seconds, start) of the bucket index. */
  function BucketLowerBound(idx: seq<Bucket>, k: BucketKey): (n: nat)
    requires SortedBuckets(idx)
    ensures n <= |idx|
    ensures forall i :: 0 <= i < n ==> BucketKeyLess(idx[i].key, k)
    ensures forall i :: n <= i < |idx| ==> !BucketKeyLess(idx[i].key, k)
  {
    assert Partitioned(idx, (bk: Bucket) => BucketKeyLess(bk.key, k));
    PartitionPoint(idx, (bk: Bucket) => BucketKeyLess(bk.key, k))
  }

  /** The scan from position i: stop at the end of the index, at a bucket
      opening after `end`, after `room` buckets, or (returning at once) at
      the first bucket of another series. */
  function BucketRun(idx: seq<Bucket>, i: nat, base: nat, quote: nat, seconds: nat, end: nat, room: nat): (r: seq<Bucket>)
    requires i <= |idx|
    ensures |r| <= room
    decreases |idx| - i
  {
    if i == |idx| || idx[i].key.open > end || room == 0 then []
    else if !InSeries(idx[i], base, quote, seconds) then []
    else [idx[i]] + BucketRun(idx, i + 1, base, quote, seconds, end, room - 1)
  }

  /** Every bucket of the scan belongs to the series and opens no later
      than `end`. */
  lemma {:induction false} BucketRunInSeries(idx: seq<Bucket>, i: nat, base: nat, quote: nat, seconds: nat, end: nat, room: nat)
    requires i <= |idx|
    ensures forall bk <- BucketRun(idx, i, base, quote, seconds, end, room) ::
              InSeries(bk, base, quote, seconds) && bk.key.open <= end
    decreases |idx| - i
  {
    if i == |idx| || idx[i].key.open > end || room == 0 || !InSeries(idx[i], base, quote, seconds) {
    } else {
      BucketRunInSeries(idx, i + 1, base, quote, seconds, end, room - 1);
    }
  }

  /** The scan returns consecutive buckets of the index, from position i. */
  lemma {:induction false} BucketRunIsContiguous(idx: seq<Bucket>, i: nat, base: nat, quote: nat, seconds: nat, end: nat, room: nat)
    requires i <= |idx|
    ensures var r := BucketRun(idx, i, base, quote, seconds, end, room);
      i + |r| <= |idx| && forall k :: 0 <= k < |r| ==> r[k] == idx[i + k]
    decreases |idx| - i
  {
    if i == |idx| || idx[i].key.open > end || room == 0 || !InSeries(idx[i], base, quote, seconds) {
    } else {
      BucketRunIsContiguous(idx, i + 1, base, quote, seconds, end, room - 1);
    }
  }

  /** Where the scan of get_market_history begins. */
  function MarketScanStart(idx: seq<Bucket>, a: nat, b: nat, seconds: nat, start: nat): nat
    requires SortedBuckets(idx)
  {
    var (base, quote) := CanonicalPair(a, b);
    BucketLowerBound(idx, BucketKey(base, quote, seconds, start))
  }

  /** What get_market_history returns. */
  function MarketHistory(idx: seq<Bucket>, a: nat, b: nat, seconds: nat, start: nat, end: nat): seq<Bucket>
    requires SortedBuckets(idx)
  {
    var (base, quote) := CanonicalPair(a, b);
    BucketRun(idx, MarketScanStart(idx, a, b, seconds, start), base, quote, seconds, end, MaxBuckets)
  }

  /** Reference definition: the buckets of the series opening in
      [start, end], in index order. */
  function SeriesWindow(idx: seq<Bucket>, base: nat, quote: nat, seconds: nat, start: nat, end: nat): seq<Bucket>
    decreases |idx|
  {
    if idx == [] then []
    else if InSeries(idx[0], base, quote, seconds) && start <= idx[0].key.open <= end then
      [idx[0]] + SeriesWindow(idx[1..], base, quote, seconds, start, end)
    else
      SeriesWindow(idx[1..], base, quote, seconds, start, end)
  }

  /** get_market_history over resolved asset ids. */
  method GetMarketHistory(idx: seq<Bucket>, a: nat, b: nat, seconds: nat, start: nat, end: nat) returns (result: seq<Bucket>)
    requires SortedBuckets(idx)
    ensures result == MarketHistory(idx, a, b, seconds, start, end)
  {
    var base, quote := a, b;
    if base > quote {
      base, quote := quote, base;
    }
    var itr := BucketLowerBound(idx, BucketKey(base, quote, seconds, start));
    result := ScanBuckets(idx, itr, base, quote, seconds, end);
  }

  /** The loop of get_market_history, from the lower bound on. */
  method ScanBuckets(idx: seq<Bucket>, lo: nat, base: nat, quote: nat, seconds: nat, end: nat) returns (result: seq<Bucket>)
    requires lo <= |idx|
    ensures result == BucketRun(idx, lo, base, quote, seconds, end, MaxBuckets)
  {
    var itr := lo;
    result := [];
    while itr != |idx| && idx[itr].key.open <= end && |result| < MaxBuckets
      invariant lo <= itr <= |idx| && |result| <= MaxBuckets
      invariant result + BucketRun(idx, itr, base, quote, seconds, end, MaxBuckets - |result|)
                == BucketRun(idx, lo, base, quote, seconds, end, MaxBuckets)
    {
      if !InSeries(idx[itr], base, quote, seconds) {
        BucketRunStops(idx, itr, base, quote, seconds, end, MaxBuckets - |result|);
        return;
      }
      BucketRunAdvance(idx, lo, itr, base, quote, seconds, end, result);
      result := result + [idx[itr]];
      itr := itr + 1;
    }
    BucketRunStops(idx, itr, base, quote, seconds, end, MaxBuckets - |result|);
  }

  /** The bucket scan ends at the end of the index, at a bucket opening
      after `end`, with no room left, or at a bucket of another series. */
  lemma BucketRunStops(idx: seq<Bucket>, i: nat, base: nat, quote: nat, seconds: nat, end: nat, room: nat)
    requires i <= |idx|
    requires i == |idx| || idx[i].key.open > end || room == 0 || !InSeries(idx[i], base, quote, seconds)
    ensures BucketRun(idx, i, base, quote, seconds, end, room) == []
  {
  }

  /** One iteration of the bucket scan keeps "collected so far, followed by
      the scan of the rest, is the whole scan". */
  lemma BucketRunAdvance(idx: seq<Bucket>, lo: nat, itr: nat, base: nat, quote: nat, seconds: nat, end: nat,
                         result: seq<Bucket>)
    requires lo <= itr < |idx| && |result| < MaxBuckets
    requires idx[itr].key.open <= end && InSeries(idx[itr], base, quote, seconds)
    requires result + BucketRun(idx, itr, base, quote, seconds, end, MaxBuckets - |result|)
             == BucketRun(idx, lo, base, quote, seconds, end, MaxBuckets)
    ensures (result + [idx[itr]]) + BucketRun(idx, itr + 1, base, quote, seconds, end, MaxBuckets - |result| - 1)
            == BucketRun(idx, lo, base, quote, seconds, end, MaxBuckets)
  {
    BucketRunCons(idx, itr, base, quote, seconds, end, MaxBuckets - |result|);
    AppendAssoc(result, idx[itr], BucketRun(idx, itr + 1, base, quote, seconds, end, MaxBuckets - |result| - 1));
  }

  /** A bucket of the series within `end`, with room left, is kept and the
      scan goes on. */
  lemma BucketRunCons(idx: seq<Bucket>, i: nat, base: nat, quote: nat, seconds: nat, end: nat, room: nat)
    requires i < |idx| && room > 0
    requires idx[i].key.open <= end && InSeries(idx[i], base, quote, seconds)
    ensures BucketRun(idx, i, base, quote, seconds, end, room)
            == [idx[i]] + BucketRun(idx, i + 1, base, quote, seconds, end, room - 1)
  {
  }

  /** Asking for (a, b) or (b, a) gives the same buckets. */
  lemma MarketHistorySymmetric(idx: seq<Bucket>, a: nat, b: nat, seconds: nat, start: nat, end: nat)
    requires SortedBuckets(idx)
    ensures MarketHistory(idx, a, b, seconds, start, end) == MarketHistory(idx, b, a, seconds, start, end)
  {
  }

  /** Every returned bucket belongs to the canonical pair's series of the
      requested width and opens within [start, end]; the buckets are a
      contiguous run of the index, in ascending key order, at most 200. */
  lemma MarketHistoryBuckets(idx: seq<Bucket>, a: nat, b: nat, seconds: nat, start: nat, end: nat)
    requires SortedBuckets(idx)
    ensures var r := MarketHistory(idx, a, b, seconds, start, end);
            var (base, quote) := CanonicalPair(a, b);
      && |r| <= MaxBuckets
      && (forall bk <- r :: InSeries(bk, base, quote, seconds) && start <= bk.key.open <= end)
      && MarketScanStart(idx, a, b, seconds, start) + |r| <= |idx|
      && (forall k :: 0 <= k < |r| ==> r[k] == idx[MarketScanStart(idx, a, b, seconds, start) + k])
      && (forall i, j :: 0 <= i < j < |r| ==> BucketKeyLess(r[i].key, r[j].key))
  {
    var (base, quote) := CanonicalPair(a, b);
    var lo := MarketScanStart(idx, a, b, seconds, start);
    var r := MarketHistory(idx, a, b, seconds, start, end);
    BucketRunIsContiguous(idx, lo, base, quote, seconds, end, MaxBuckets);
    BucketRunInSeries(idx, lo, base, quote, seconds, end, MaxBuckets);
    forall bk <- r
      ensures start <= bk.key.open
    {
      var k :| 0 <= k < |r| && r[k] == bk;
      assert !BucketKeyLess(idx[lo + k].key, BucketKey(base, quote, seconds, start));
    }
    forall i, j | 0 <= i < j < |r|
      ensures BucketKeyLess(r[i].key, r[j].key)
    {
      assert r[i] == idx[lo + i] && r[j] == idx[lo + j];
    }
  }

  /** Below the lower bound no bucket of the series opens at or after start. */
  lemma {:induction false} SeriesWindowSkipsBelow(idx: seq<Bucket>, lo: nat, base: nat, quote: nat, seconds: nat, start: nat, end: nat)
    requires lo <= |idx|
    requires forall i :: 0 <= i < lo ==> BucketKeyLess(idx[i].key, BucketKey(base, quote, seconds, start))
    ensures SeriesWindow(idx, base, quote, seconds, start, end) == SeriesWindow(idx[lo..], base, quote, seconds, start, end)
    decreases lo
  {
    if lo > 0 {
      SeriesWindowSkipsBelow(idx[1..], lo - 1, base, quote, seconds, start, end);
      assert idx[1..][lo - 1..] == idx[lo..];
    }
  }

  /** Past a bucket that lies beyond the series' window nothing of the
      window follows. */
  lemma {:induction false} SeriesWindowEmptyAbove(idx: seq<Bucket>, base: nat, quote: nat, seconds: nat, start: nat, end: nat)
    requires SortedBuckets(idx)
    requires idx != [] && BucketKeyLess(BucketKey(base, quote, seconds, end), idx[0].key)
    ensures SeriesWindow(idx, base, quote, seconds, start, end) == []
    decreases |idx|
  {
    if |idx| > 1 {
      assert BucketKeyLess(idx[0].key, idx[1].key);
      SeriesWindowEmptyAbove(idx[1..], base, quote, seconds, start, end);
    }
  }

  /** From the lower bound on, the scan yields the window's buckets until
      its room runs out. */
  lemma {:induction false} BucketRunIsWindow(idx: seq<Bucket>, i: nat, base: nat, quote: nat, seconds: nat, start: nat, end: nat, room: nat)
    requires SortedBuckets(idx)
    requires i <= |idx|
    requires forall j :: i <= j < |idx| ==> !BucketKeyLess(idx[j].key, BucketKey(base, quote, seconds, start))
    ensures BucketRun(idx, i, base, quote, seconds, end, room) == Take(SeriesWindow(idx[i..], base, quote, seconds, start, end), room)
    decreases |idx| - i
  {
    if i == |idx| || room == 0 {
    } else if idx[i].key.open > end || !InSeries(idx[i], base, quote, seconds) {
      assert !BucketKeyLess(idx[i].key, BucketKey(base, quote, seconds, start));
      SortedBucketsSuffix(idx, i);
      SeriesWindowEmptyAbove(idx[i..], base, quote, seconds, start, end);
    } else {
      assert !BucketKeyLess(idx[i].key, BucketKey(base, quote, seconds, start));
      BucketRunIsWindow(idx, i + 1, base, quote, seconds, start, end, room - 1);
      BucketWindowCons(idx, i, base, quote, seconds, start, end, room);
    }
  }

  /** A bucket of the window at position i is both the scan's and the
      window's first element. */
  lemma BucketWindowCons(idx: seq<Bucket>, i: nat, base: nat, quote: nat, seconds: nat, start: nat, end: nat, room: nat)
    requires i < |idx| && room > 0
    requires InSeries(idx[i], base, quote, seconds) && start <= idx[i].key.open <= end
    requires BucketRun(idx, i + 1, base, quote, seconds, end, room - 1)
             == Take(SeriesWindow(idx[i + 1..], base, quote, seconds, start, end), room - 1)
    ensures BucketRun(idx, i, base, quote, seconds, end, room)
            == Take(SeriesWindow(idx[i..], base, quote, seconds, start, end), room)
  {
    BucketRunCons(idx, i, base, quote, seconds, end, room);
    var tail := SeriesWindow(idx[i + 1..], base, quote, seconds, start, end);
    assert idx[i..][1..] == idx[i + 1..];
    assert SeriesWindow(idx[i..], base, quote, seconds, start, end) == [idx[i]] + tail;
    TakeCons(idx[i], tail, room - 1);
  }

  /** A suffix of a sorted bucket index is sorted. */
  lemma SortedBucketsSuffix(idx: seq<Bucket>, i: nat)
    requires SortedBuckets(idx) && i <= |idx|
    ensures SortedBuckets(idx[i..])
  {
    forall x, y | 0 <= x < y < |idx| - i
      ensures BucketKeyLess(idx[i..][x].key, idx[i..][y].key)
    {
      assert idx[i..][x] == idx[i + x] && idx[i..][y] == idx[i + y];
    }
  }

  /** get_market_history returns exactly the first 200 buckets of the
      canonical pair's series opening in [start, end]: nothing in the window
      is skipped. */
  lemma MarketHistoryIsWindow(idx: seq<Bucket>, a: nat, b: nat, seconds: nat, start: nat, end: nat)
    requires SortedBuckets(idx)
    ensures var (base, quote) := CanonicalPair(a, b);
      MarketHistory(idx, a, b, seconds, start, end) == Take(SeriesWindow(idx, base, quote, seconds, start, end), MaxBuckets)
  {
    var (base, quote) := CanonicalPair(a, b);
    var lo := BucketLowerBound(idx, BucketKey(base, quote, seconds, start));
    SeriesWindowSkipsBelow(idx, lo, base, quote, seconds, start, end);
    BucketRunIsWindow(idx, lo, base, quote, seconds, start, end, MaxBuckets);
  }

  /** The worked example: buckets of pair (1, 2), width 60, opening at 100,
      160 and 220; the window [150, 300] yields those opening at 160 and 220. */
  lemma BucketWindowExample()
    ensures var idx := [Bucket(BucketKey(1, 2, 60, 100), 0, 0), Bucket(BucketKey(1, 2, 60, 160), 0, 0),
                        Bucket(BucketKey(1, 2, 60, 220), 0, 0)];
            SortedBuckets(idx) &&
            MarketHistory(idx, 1, 2, 60, 150, 300) == idx[1..]
  {
    var idx := [Bucket(BucketKey(1, 2, 60, 100), 0, 0), Bucket(BucketKey(1, 2, 60, 160), 0, 0),
                Bucket(BucketKey(1, 2, 60, 220), 0, 0)];
    var lo := BucketLowerBound(idx, BucketKey(1, 2, 60, 150));
    assert lo == 1;
    assert BucketRun(idx, 3, 1, 2, 60, 300, 198) == [];
  }

  // ------------------------------------------------------------------ fills

  predicate FillKeyLess(x: FillKey, y: FillKey)
  {
    x.base < y.base ||
    (x.base == y.base && (x.quote < y.quote || (x.quote == y.quote && x.sequence < y.sequence)))
  }

  /** Ordered by key, with int64 sequences. */
  predicate SortedFills(idx: seq<Fill>)
  {
    (forall i, j :: 0 <= i < j < |idx| ==> FillKeyLess(idx[i].key, idx[j].key)) &&
    (forall i :: 0 <= i < |idx| ==> idx[i].key.sequence >= Int64Min)
  }

  predicate OfPair(f: Fill, base: nat, quote: nat)
  {
    f.key.base == base && f.key.quote == quote
  }

  /** lower_bound(base, quote, INT64_MIN) of the fill index. */
  function FillLowerBound(idx: seq<Fill>, base: nat, quote: nat): (n: nat)
    requires SortedFills(idx)
    ensures n <= |idx|
    ensures forall i :: 0 <= i < n ==> FillKeyLess(idx[i].key, FillKey(base, quote, Int64Min))
    ensures forall i :: n <= i < |idx| ==> !FillKeyLess(idx[i].key, FillKey(base, quote, Int64Min))
  {
    assert Partitioned(idx, (f: Fill) => FillKeyLess(f.key, FillKey(base, quote, Int64Min)));
    PartitionPoint(idx, (f: Fill) => FillKeyLess(f.key, FillKey(base, quote, Int64Min)))
  }

  /** The scan from position i: stop at the end, after `room` fills, or at
      the first fill of another pair. */
  function FillRun(idx: seq<Fill>, i: nat, base: nat, quote: nat, room: nat): (r: seq<Fill>)
    requires i <= |idx|
    ensures |r| <= room
    decreases |idx| - i
  {
    if i == |idx| || room == 0 || !OfPair(idx[i], base, quote) then []
    else [idx[i]] + FillRun(idx, i + 1, base, quote, room - 1)
  }

  /** Every fill of the scan belongs to the pair. */
  lemma {:induction false} FillRunOfPair(idx: seq<Fill>, i: nat, base: nat, quote: nat, room: nat)
    requires i <= |idx|
    ensures forall f <- FillRun(idx, i, base, quote, room) :: OfPair(f, base, quote)
    decreases |idx| - i
  {
    if i == |idx| || room == 0 || !OfPair(idx[i], base, quote) {
    } else {
      FillRunOfPair(idx, i + 1, base, quote, room - 1);
    }
  }

  /** The scan returns consecutive fills of the index, from position i. */
  lemma {:induction false} FillRunIsContiguous(idx: seq<Fill>, i: nat, base: nat, quote: nat, room: nat)
    requires i <= |idx|
    ensures var r := FillRun(idx, i, base, quote, room);
      i + |r| <= |idx| && forall k :: 0 <= k < |r| ==> r[k] == idx[i + k]
    decreases |idx| - i
  {
    if i == |idx| || room == 0 || !OfPair(idx[i], base, quote) {
    } else {
      FillRunIsContiguous(idx, i + 1, base, quote, room - 1);
    }
  }

  /** What get_fill_order_history returns. */
  function FillHistory(idx: seq<Fill>, a: nat, b: nat, limit: nat): seq<Fill>
    requires SortedFills(idx)
  {
    var (base, quote) := CanonicalPair(a, b);
    FillRun(idx, FillLowerBound(idx, base, quote), base, quote, limit)
  }

  /** Reference definition: the fills of the pair, in index order. */
  function PairFills(idx: seq<Fill>, base: nat, quote: nat): seq<Fill>
    decreases |idx|
  {
    if idx == [] then []
    else if OfPair(idx[0], base, quote) then [idx[0]] + PairFills(idx[1..], base, quote)
    else PairFills(idx[1..], base, quote)
  }

  /** get_fill_order_history over resolved asset ids. */
  method GetFillOrderHistory(idx: seq<Fill>, a: nat, b: nat, limit: nat) returns (result: seq<Fill>)
    requires SortedFills(idx)
    ensures result == FillHistory(idx, a, b, limit)
  {
    var base, quote := a, b;
    if base > quote {
      base, quote := quote, base;
    }
    var itr := FillLowerBound(idx, base, quote);
    result := ScanFills(idx, itr, base, quote, limit);
  }

  /** The loop of get_fill_order_history, from the lower bound on. */
  method ScanFills(idx: seq<Fill>, lo: nat, base: nat, quote: nat, limit: nat) returns (result: seq<Fill>)
    requires lo <= |idx|
    ensures result == FillRun(idx, lo, base, quote, limit)
  {
    var count := 0;
    var itr := lo;
    result := [];
    while itr != |idx| && count < limit
      invariant lo <= itr <= |idx| && count == |result| <= limit
      invariant result + FillRun(idx, itr, base, quote, limit - count) == FillRun(idx, lo, base, quote, limit)
    {
      if !OfPair(idx[itr], base, quote) {
        break;
      }
      FillRunAdvance(idx, lo, itr, base, quote, limit, result);
      result := result + [idx[itr]];
      itr := itr + 1;
      count := count + 1;
    }
    FillRunStops(idx, itr, base, quote, limit - count);
  }

  /** The fill scan ends at the end of the index, with no room left, or at
      a fill of another pair. */
  lemma FillRunStops(idx: seq<Fill>, i: nat, base: nat, quote: nat, room: nat)
    requires i <= |idx| && (i == |idx| || room == 0 || !OfPair(idx[i], base, quote))
    ensures FillRun(idx, i, base, quote, room) == []
  {
  }

  /** One iteration of the fill scan keeps "collected so far, followed by
      the scan of the rest, is the whole scan". */
  lemma FillRunAdvance(idx: seq<Fill>, lo: nat, itr: nat, base: nat, quote: nat, limit: nat, result: seq<Fill>)
    requires lo <= itr < |idx| && |result| < limit && OfPair(idx[itr], base, quote)
    requires result + FillRun(idx, itr, base, quote, limit - |result|) == FillRun(idx, lo, base, quote, limit)
    ensures (result + [idx[itr]]) + FillRun(idx, itr + 1, base, quote, limit - |result| - 1)
            == FillRun(idx, lo, base, quote, limit)
  {
    FillRunCons(idx, itr, base, quote, limit - |result|);
    AppendAssoc(result, idx[itr], FillRun(idx, itr + 1, base, quote, limit - |result| - 1));
  }

  /** A fill of the pair, with room left, is kept and the scan goes on. */
  lemma FillRunCons(idx: seq<Fill>, i: nat, base: nat, quote: nat, room: nat)
    requires i < |idx| && room > 0 && OfPair(idx[i], base, quote)
    ensures FillRun(idx, i, base, quote, room) == [idx[i]] + FillRun(idx, i + 1, base, quote, room - 1)
  {
  }

  /** Asking for (a, b) or (b, a) gives the same fills. */
  lemma FillHistorySymmetric(idx: seq<Fill>, a: nat, b: nat, limit: nat)
    requires SortedFills(idx)
    ensures FillHistory(idx, a, b, limit) == FillHistory(idx, b, a, limit)
  {
  }

  /** Below the lower bound there is no fill of the pair. */
  lemma {:induction false} PairFillsSkipsBelow(idx: seq<Fill>, lo: nat, base: nat, quote: nat)
    requires SortedFills(idx)
    requires lo <= |idx|
    requires forall i :: 0 <= i < lo ==> FillKeyLess(idx[i].key, FillKey(base, quote, Int64Min))
    ensures PairFills(idx, base, quote) == PairFills(idx[lo..], base, quote)
    decreases lo
  {
    if lo > 0 {
      assert idx[0].key.sequence >= Int64Min;
      PairFillsSkipsBelow(idx[1..], lo - 1, base, quote);
      assert idx[1..][lo - 1..] == idx[lo..];
    }
  }

  /** Past a fill of a greater pair no fill of the pair follows. */
  lemma {:induction false} PairFillsEmptyAbove(idx: seq<Fill>, base: nat, quote: nat)
    requires SortedFills(idx)
    requires idx != [] && !OfPair(idx[0], base, quote)
    requires !FillKeyLess(idx[0].key, FillKey(base, quote, Int64Min))
    ensures PairFills(idx, base, quote) == []
    decreases |idx|
  {
    if |idx| > 1 {
      assert FillKeyLess(idx[0].key, idx[1].key);
      PairFillsEmptyAbove(idx[1..], base, quote);
    }
  }

  lemma {:induction false} FillRunIsPairFills(idx: seq<Fill>, i: nat, base: nat, quote: nat, room: nat)
    requires SortedFills(idx)
    requires i <= |idx|
    requires forall j :: i <= j < |idx| ==> !FillKeyLess(idx[j].key, FillKey(base, quote, Int64Min))
    ensures FillRun(idx, i, base, quote, room) == Take(PairFills(idx[i..], base, quote), room)
    decreases |idx| - i
  {
    if i == |idx| || room == 0 {
    } else if !OfPair(idx[i], base, quote) {
      SortedFillsSuffix(idx, i);
      PairFillsEmptyAbove(idx[i..], base, quote);
    } else {
      FillRunIsPairFills(idx, i + 1, base, quote, room - 1);
      FillPairCons(idx, i, base, quote, room);
    }
  }

  /** A fill of the pair at position i is both the scan's and the pair's
      first element. */
  lemma FillPairCons(idx: seq<Fill>, i: nat, base: nat, quote: nat, room: nat)
    requires i < |idx| && room > 0 && OfPair(idx[i], base, quote)
    requires FillRun(idx, i + 1, base, quote, room - 1) == Take(PairFills(idx[i + 1..], base, quote), room - 1)
    ensures FillRun(idx, i, base, quote, room) == Take(PairFills(idx[i..], base, quote), room)
  {
    FillRunCons(idx, i, base, quote, room);
    var tail := PairFills(idx[i + 1..], base, quote);
    assert idx[i..][1..] == idx[i + 1..];
    assert PairFills(idx[i..], base, quote) == [idx[i]] + tail;
    TakeCons(idx[i], tail, room - 1);
  }

  /** A suffix of a sorted fill index is sorted. */
  lemma SortedFillsSuffix(idx: seq<Fill>, i: nat)
    requires SortedFills(idx) && i <= |idx|
    ensures SortedFills(idx[i..])
  {
    forall x, y | 0 <= x < y < |idx| - i
      ensures FillKeyLess(idx[i..][x].key, idx[i..][y].key)
    {
      assert idx[i..][x] == idx[i + x] && idx[i..][y] == idx[i + y];
    }
  }

  /** get_fill_order_history returns the first min(limit, n) fills of the
      canonical pair, n being how many the index holds, in index order; in
      particular limit 0 yields nothing. */
  lemma FillHistoryIsFirstFills(idx: seq<Fill>, a: nat, b: nat, limit: nat)
    requires SortedFills(idx)
    ensures var (base, quote) := CanonicalPair(a, b);
      FillHistory(idx, a, b, limit) == Take(PairFills(idx, base, quote), limit)
  {
    var (base, quote) := CanonicalPair(a, b);
    var lo := FillLowerBound(idx, base, quote);
    PairFillsSkipsBelow(idx, lo, base, quote);
    FillRunIsPairFills(idx, lo, base, quote, limit);
  }

  /** Every returned fill has the canonical pair, the fills are in ascending
      key order, and there are at most `limit` of them. */
  lemma FillHistoryEntries(idx: seq<Fill>, a: nat, b: nat, limit: nat)
    requires SortedFills(idx)
    ensures var r := FillHistory(idx, a, b, limit);
            var (base, quote) := CanonicalPair(a, b);
      && |r| <= limit
      && (forall f <- r :: OfPair(f, base, quote))
      && (forall i, j :: 0 <= i < j < |r| ==> FillKeyLess(r[i].key, r[j].key))
  {
    var (base, quote) := CanonicalPair(a, b);
    var lo := FillLowerBound(idx, base, quote);
    var r := FillHistory(idx, a, b, limit);
    FillRunIsContiguous(idx, lo, base, quote, limit);
    FillRunOfPair(idx, lo, base, quote, limit);
    forall i, j | 0 <= i < j < |r|
      ensures FillKeyLess(r[i].key, r[j].key)
    {
      assert r[i] == idx[lo + i] && r[j] == idx[lo + j];
    }
  }
}
