/** history_api::get_relative_account_history: a backward scan of the
    per-account sequence index.

    The by_seq index orders history entries by (account, sequence), the
    by_type_seq index by (account, operation type, sequence); both are given
    as sequences sorted by their key. `typed` selects the second ordering. */
module RelativeHistory {
  import opened Common
  import opened Ledger

  /** The key of e is below the search key (account, opType, sequence); the
      operation type takes part only in the by_type_seq ordering. */
  predicate KeyBefore(typed: bool, e: HistoryEntry, account: nat, opType: nat, sequence: nat)
  {
    e.account < account ||
    (e.account == account &&
      if typed then e.opType < opType || (e.opType == opType && e.sequence < sequence)
      else e.sequence < sequence)
  }

  /** The index is strictly ordered by its key (the key is unique). */
  predicate Sorted(idx: seq<HistoryEntry>, typed: bool)
  {
    forall i, j :: 0 <= i < j < |idx| ==> KeyBefore(typed, idx[i], idx[j].account, idx[j].opType, idx[j].sequence)
  }

  /** The entries a query for (account, opType) may return. */
  predicate InGroup(typed: bool, e: HistoryEntry, account: nat, opType: nat)
  {
    e.account == account && (typed ==> e.opType == opType)
  }

  lemma SortedIsPartitioned(idx: seq<HistoryEntry>, typed: bool, account: nat, opType: nat, sequence: nat)
    requires Sorted(idx, typed)
    ensures Partitioned(idx, e => KeyBefore(typed, e, account, opType, sequence))
  {
  }

  /** lower_bound(account, opType, stop): the first entry whose key is not
      below the key with sequence `stop`. */
  function LowerBound(idx: seq<HistoryEntry>, typed: bool, account: nat, opType: nat, stop: nat): (n: nat)
    requires Sorted(idx, typed)
    ensures n <= |idx|
  {
    SortedIsPartitioned(idx, typed, account, opType, stop);
    PartitionPoint(idx, e => KeyBefore(typed, e, account, opType, stop))
  }

  /** upper_bound(account, opType, start): the first entry whose key is above
      the key with sequence `start`; sequences are integers, so "at most
      start" is "below start + 1". */
  function UpperBound(idx: seq<HistoryEntry>, typed: bool, account: nat, opType: nat, start: nat): (n: nat)
    requires Sorted(idx, typed)
    ensures n <= |idx|
  {
    SortedIsPartitioned(idx, typed, account, opType, start + 1);
    PartitionPoint(idx, e => KeyBefore(typed, e, account, opType, start + 1))
  }

  /** Between the two bounds lie exactly the entries of the group whose
      sequence lies in [stop, start]. */
  lemma BoundsEncloseWindow(idx: seq<HistoryEntry>, typed: bool, account: nat, opType: nat, stop: nat, start: nat)
    requires Sorted(idx, typed)
    ensures forall j :: 0 <= j < |idx| ==>
      ((LowerBound(idx, typed, account, opType, stop) <= j < UpperBound(idx, typed, account, opType, start))
        <==> (InGroup(typed, idx[j], account, opType) && stop <= idx[j].sequence <= start))
  {
  }

  /** With stop <= start the lower bound does not pass the upper bound. */
  lemma BoundsOrdered(idx: seq<HistoryEntry>, typed: bool, account: nat, opType: nat, stop: nat, start: nat)
    requires Sorted(idx, typed)
    requires stop <= start
    ensures LowerBound(idx, typed, account, opType, stop) <= UpperBound(idx, typed, account, opType, start)
  {
    var lo := LowerBound(idx, typed, account, opType, stop);
    if lo > 0 {
      // the last entry below `stop` is also at most `start`
      assert KeyBefore(typed, idx[lo - 1], account, opType, start + 1);
    }
  }

  /** A `start` of 0 means the account's total_ops; any other value is
      clamped to total_ops. */
  function NormalizeStart(totalOps: nat, start: nat): (s: nat)
    ensures s <= totalOps
    ensures start == 0 ==> s == totalOps
    ensures start != 0 ==> s <= start && (s == start || s == totalOps)
  {
    if start == 0 then totalOps else Min(totalOps, start)
  }

  /** The scan runs only when the normalised window is not inverted, reaches
      above the pruned part of the history, and at least one entry is asked
      for. */
  predicate WindowOpen(stats: AccountStatistics, stop: nat, limit: nat, start: nat)
  {
    var s := NormalizeStart(stats.totalOps, start);
    s >= stop && s > stats.removedOps && limit > 0
  }

  /** Some entry of the group has its sequence in [stop, start]. */
  predicate HasEntryIn(idx: seq<HistoryEntry>, typed: bool, account: nat, opType: nat, stop: nat, start: nat)
  {
    exists k :: 0 <= k < |idx| && InGroup(typed, idx[k], account, opType) && stop <= idx[k].sequence <= start
  }

  function Pair(e: HistoryEntry): (nat, Operation)
  {
    (e.sequence, e.operation)
  }

  /** Stepping back from position hi toward lo, collecting at most `limit`
      (sequence, operation) pairs. */
  function StepBack(idx: seq<HistoryEntry>, lo: nat, hi: nat, limit: nat): (r: seq<(nat, Operation)>)
    requires lo <= hi <= |idx|
    ensures |r| == Min(limit, hi - lo)
    ensures forall k :: 0 <= k < |r| ==> r[k] == Pair(idx[hi - 1 - k])
    decreases hi
  {
    if hi == lo || limit == 0 then []
    else [Pair(idx[hi - 1])] + StepBack(idx, lo, hi - 1, limit - 1)
  }

  /** What the query returns, for the index its type filter selects. */
  function RelativeHistory(stats: AccountStatistics, idx: seq<HistoryEntry>, typed: bool, account: nat, opType: nat,
                           stop: nat, limit: nat, start: nat): seq<(nat, Operation)>
    requires Sorted(idx, typed)
  {
    if !WindowOpen(stats, stop, limit, start) then []
    else
      var s := NormalizeStart(stats.totalOps, start);
      BoundsOrdered(idx, typed, account, opType, stop, s);
      StepBack(idx, LowerBound(idx, typed, account, opType, stop), UpperBound(idx, typed, account, opType, s), limit)
  }

  /** get_relative_account_history. Without a type filter the source steps
      back once before comparing against the lower bound, so it needs the
      window to hold an entry whenever the scan runs. */
  method GetRelativeAccountHistory(stats: AccountStatistics, bySeq: seq<HistoryEntry>, byTypeSeq: seq<HistoryEntry>,
                                   account: nat, opType: Option<nat>, stop: nat, limit: nat, start: nat)
    returns (r: Result<seq<(nat, Operation)>, ApiError>)
    requires Sorted(bySeq, false) && Sorted(byTypeSeq, true)
    requires opType.None? && WindowOpen(stats, stop, limit, start) ==>
               HasEntryIn(bySeq, false, account, 0, stop, NormalizeStart(stats.totalOps, start))
    ensures limit > MaxHistoryLimit <==> r.Err?
    ensures r.Err? ==> r.error == LimitAboveMaximum
    ensures r.Ok? && opType.None? ==> r.value == RelativeHistory(stats, bySeq, false, account, 0, stop, limit, start)
    ensures r.Ok? && opType.Some? ==> r.value == RelativeHistory(stats, byTypeSeq, true, account, opType.value, stop, limit, start)
  {
    if limit > MaxHistoryLimit {
      return Err(LimitAboveMaximum);
    }
    var s := if start == 0 then stats.totalOps else Min(stats.totalOps, start);
    var result: seq<(nat, Operation)> := [];
    if s >= stop && s > stats.removedOps && limit > 0 {
      var typed := opType.Some?;
      var idx := if typed then byTypeSeq else bySeq;
      var t := if typed then opType.value else 0;
      var itr := UpperBound(idx, typed, account, t, s);
      var itrStop := LowerBound(idx, typed, account, t, stop);
      BoundsOrdered(idx, typed, account, t, stop, s);
      if !typed {
        BoundsEncloseWindow(idx, typed, account, t, stop, s);
        assert itrStop < itr;
      }
      if itr != itrStop {
        result := ScanBack(idx, itrStop, itr, limit);
      }
    }
    return Ok(result);
  }

  /** The do-while of both branches: step the iterator back from hi and
      collect its entry, until it meets lo or `limit` pairs are collected. */
  method ScanBack(idx: seq<HistoryEntry>, lo: nat, hi: nat, limit: nat) returns (result: seq<(nat, Operation)>)
    requires lo < hi <= |idx| && limit > 0
    ensures result == StepBack(idx, lo, hi, limit)
  {
    var itr := hi - 1;
    result := [Pair(idx[itr])];
    while itr != lo && |result| < limit
      invariant lo <= itr < hi
      invariant |result| == hi - itr <= limit
      invariant forall k :: 0 <= k < |result| ==> result[k] == Pair(idx[hi - 1 - k])
    {
      itr := itr - 1;
      result := result + [Pair(idx[itr])];
    }
  }

  /** Every pair comes from an entry of the group inside [stop, start'],
      where start' is the normalised start. */
  lemma RelativeHistoryWindow(stats: AccountStatistics, idx: seq<HistoryEntry>, typed: bool, account: nat, opType: nat,
                              stop: nat, limit: nat, start: nat)
    requires Sorted(idx, typed)
    ensures var r := RelativeHistory(stats, idx, typed, account, opType, stop, limit, start);
      forall k :: 0 <= k < |r| ==>
        exists e :: e in idx && InGroup(typed, e, account, opType)
                 && stop <= e.sequence <= NormalizeStart(stats.totalOps, start) && r[k] == Pair(e)
  {
    var r := RelativeHistory(stats, idx, typed, account, opType, stop, limit, start);
    if WindowOpen(stats, stop, limit, start) {
      var s := NormalizeStart(stats.totalOps, start);
      var lo := LowerBound(idx, typed, account, opType, stop);
      var hi := UpperBound(idx, typed, account, opType, s);
      BoundsOrdered(idx, typed, account, opType, stop, s);
      BoundsEncloseWindow(idx, typed, account, opType, stop, s);
      forall k | 0 <= k < |r|
        ensures exists e :: e in idx && InGroup(typed, e, account, opType)
                         && stop <= e.sequence <= s && r[k] == Pair(e)
      {
        assert lo <= hi - 1 - k < hi;
        assert r[k] == Pair(idx[hi - 1 - k]);
      }
    }
  }

  /** There are at most `limit` pairs, newest first: their sequence numbers
      strictly decrease. */
  lemma RelativeHistoryNewestFirst(stats: AccountStatistics, idx: seq<HistoryEntry>, typed: bool, account: nat, opType: nat,
                                   stop: nat, limit: nat, start: nat)
    requires Sorted(idx, typed)
    ensures var r := RelativeHistory(stats, idx, typed, account, opType, stop, limit, start);
      && |r| <= limit
      && (forall k, l :: 0 <= k < l < |r| ==> r[k].0 > r[l].0)
  {
    var r := RelativeHistory(stats, idx, typed, account, opType, stop, limit, start);
    if WindowOpen(stats, stop, limit, start) {
      var s := NormalizeStart(stats.totalOps, start);
      var lo := LowerBound(idx, typed, account, opType, stop);
      var hi := UpperBound(idx, typed, account, opType, s);
      BoundsOrdered(idx, typed, account, opType, stop, s);
      BoundsEncloseWindow(idx, typed, account, opType, stop, s);
      forall k, l | 0 <= k < l < |r|
        ensures r[k].0 > r[l].0
      {
        assert lo <= hi - 1 - l < hi - 1 - k < hi;
        assert KeyBefore(typed, idx[hi - 1 - l], idx[hi - 1 - k].account, idx[hi - 1 - k].opType, idx[hi - 1 - k].sequence);
      }
    }
  }

  /** The scan starts from the top of the window and misses nothing: every
      entry of the group in [stop, start'] is returned, unless `limit` pairs
      were returned, and then each entry left out is older than all of them. */
  lemma RelativeHistoryComplete(stats: AccountStatistics, idx: seq<HistoryEntry>, typed: bool, account: nat, opType: nat,
                                stop: nat, limit: nat, start: nat, e: HistoryEntry)
    requires Sorted(idx, typed)
    requires WindowOpen(stats, stop, limit, start)
    requires e in idx && InGroup(typed, e, account, opType)
    requires stop <= e.sequence <= NormalizeStart(stats.totalOps, start)
    ensures var r := RelativeHistory(stats, idx, typed, account, opType, stop, limit, start);
      Pair(e) in r || (|r| == limit && forall k :: 0 <= k < |r| ==> e.sequence < r[k].0)
  {
    var r := RelativeHistory(stats, idx, typed, account, opType, stop, limit, start);
    var s := NormalizeStart(stats.totalOps, start);
    var lo := LowerBound(idx, typed, account, opType, stop);
    var hi := UpperBound(idx, typed, account, opType, s);
    BoundsOrdered(idx, typed, account, opType, stop, s);
    BoundsEncloseWindow(idx, typed, account, opType, stop, s);
    var j :| 0 <= j < |idx| && idx[j] == e;
    assert lo <= j < hi;
    if hi - 1 - j < |r| {
      assert r[hi - 1 - j] == Pair(e);
    } else {
      assert |r| == limit;
      forall k | 0 <= k < |r|
        ensures e.sequence < r[k].0
      {
        assert j < hi - 1 - k;
        assert KeyBefore(typed, idx[j], idx[hi - 1 - k].account, idx[hi - 1 - k].opType, idx[hi - 1 - k].sequence);
      }
    }
  }

  /** A closed window (inverted after normalisation, entirely pruned, or
      limit 0) gives the empty result. */
  lemma RelativeHistoryClosed(stats: AccountStatistics, idx: seq<HistoryEntry>, typed: bool, account: nat, opType: nat,
                              stop: nat, limit: nat, start: nat)
    requires Sorted(idx, typed)
    requires NormalizeStart(stats.totalOps, start) < stop || NormalizeStart(stats.totalOps, start) <= stats.removedOps || limit == 0
    ensures RelativeHistory(stats, idx, typed, account, opType, stop, limit, start) == []
  {
  }

  /** When the account's retained entries are all present in the index
      (every sequence above removed_ops up to total_ops), an open window
      always holds an entry, so the untyped scan's requirement is met. */
  lemma RetainedHistoryFillsWindow(stats: AccountStatistics, idx: seq<HistoryEntry>, account: nat, stop: nat, limit: nat, start: nat)
    requires forall sq :: stats.removedOps < sq <= stats.totalOps ==> HasSequence(idx, account, sq)
    requires WindowOpen(stats, stop, limit, start)
    ensures HasEntryIn(idx, false, account, 0, stop, NormalizeStart(stats.totalOps, start))
  {
    var s := NormalizeStart(stats.totalOps, start);
    assert HasSequence(idx, account, s);
    var k :| 0 <= k < |idx| && idx[k].account == account && idx[k].sequence == s;
    assert InGroup(false, idx[k], account, 0);
  }

  /** The index holds the account's entry with sequence number sq. */
  predicate HasSequence(idx: seq<HistoryEntry>, account: nat, sq: nat)
  {
    exists k :: 0 <= k < |idx| && idx[k].account == account && idx[k].sequence == sq
  }
}
