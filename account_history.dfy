/** history_api::get_account_history and get_account_history_operations:
    a walk down an account's history chain, newest node first.

    The chain is given as the sequence of operations its nodes point at, in
    the order the `next` links visit them; the empty sequence stands for an
    account whose most_recent_op is the null id. */
module AccountHistory {
  import opened Common
  import opened Ledger

  /** Nodes are linked from newer to older operations, so their ids strictly
      decrease along the chain. */
  predicate NewestFirst(chain: seq<Operation>)
  {
    forall i, j :: 0 <= i < j < |chain| ==> chain[i].id > chain[j].id
  }

  /** An id of 0 (the default operation_history_id_type) means "from the
      head of the chain". */
  function EffectiveStart(chain: seq<Operation>, start: nat): nat
  {
    if start == 0 && chain != [] then chain[0].id else start
  }

  /** The optional type filter: None keeps every operation. */
  predicate Wanted(op: Operation, which: Option<int>)
  {
    which.None? || op.which == which.value
  }

  /** What the walk collects: follow the chain while the id is above `stop`
      and fewer than `limit` entries were collected, keeping the operations
      with id at most `start` that pass the type filter. */
  function Walk(chain: seq<Operation>, stop: nat, start: nat, limit: nat, which: Option<int>): (r: seq<Operation>)
    ensures |r| <= limit
    decreases |chain|
  {
    if chain == [] || chain[0].id <= stop || limit == 0 then []
    else if chain[0].id <= start && Wanted(chain[0], which) then
      [chain[0]] + Walk(chain[1..], stop, start, limit - 1, which)
    else
      Walk(chain[1..], stop, start, limit, which)
  }

  /** Reference definition: all operations of the chain inside the id window
      (stop, start] that pass the type filter, in chain order. */
  function Selected(chain: seq<Operation>, stop: nat, start: nat, which: Option<int>): seq<Operation>
    decreases |chain|
  {
    if chain == [] then []
    else if stop < chain[0].id <= start && Wanted(chain[0], which) then
      [chain[0]] + Selected(chain[1..], stop, start, which)
    else
      Selected(chain[1..], stop, start, which)
  }

  /** get_account_history: fails when limit > 100; otherwise the walk with
      `start` defaulted to the head's id. */
  method GetAccountHistory(chain: seq<Operation>, stop: nat, limit: nat, start: nat)
    returns (r: Result<seq<Operation>, ApiError>)
    ensures limit > MaxHistoryLimit <==> r.Err?
    ensures r.Err? ==> r.error == LimitAboveMaximum
    ensures limit <= MaxHistoryLimit && chain == [] ==> r == Ok([])
    ensures r.Ok? ==> r.value == Walk(chain, stop, EffectiveStart(chain, start), limit, None)
  {
    if limit > MaxHistoryLimit {
      return Err(LimitAboveMaximum);
    }
    if chain == [] {
      return Ok([]);
    }
    var upper := if start == 0 then chain[0].id else start;
    var result := WalkChain(chain, stop, upper, limit);
    return Ok(result);
  }

  /** The loop of get_account_history: follow the chain from its head. */
  method WalkChain(chain: seq<Operation>, stop: nat, upper: nat, limit: nat) returns (result: seq<Operation>)
    ensures result == Walk(chain, stop, upper, limit, None)
  {
    result := [];
    var i := 0;
    while i < |chain| && chain[i].id > stop && |result| < limit
      invariant 0 <= i <= |chain|
      invariant |result| <= limit
      invariant result + Walk(chain[i..], stop, upper, limit - |result|, None)
                == Walk(chain, stop, upper, limit, None)
    {
      WalkAdvance(chain, i, stop, upper, limit, None, result);
      if chain[i].id <= upper {
        result := result + [chain[i]];
      }
      i := i + 1;
    }
    WalkStops(chain, i, stop, upper, limit - |result|, None);
  }

  /** get_account_history_operations: the same walk, keeping only the
      operations whose type index equals `operationType`; entries of other
      types are walked past without counting toward `limit`. */
  method GetAccountHistoryOperations(chain: seq<Operation>, operationType: int, start: nat, stop: nat, limit: nat)
    returns (r: Result<seq<Operation>, ApiError>)
    ensures limit > MaxHistoryLimit <==> r.Err?
    ensures r.Err? ==> r.error == LimitAboveMaximum
    ensures limit <= MaxHistoryLimit && chain == [] ==> r == Ok([])
    ensures r.Ok? ==> r.value == Walk(chain, stop, EffectiveStart(chain, start), limit, Some(operationType))
  {
    if limit > MaxHistoryLimit {
      return Err(LimitAboveMaximum);
    }
    if chain == [] {
      return Ok([]);
    }
    var upper := if start == 0 then chain[0].id else start;
    var result := WalkChainTyped(chain, operationType, stop, upper, limit);
    return Ok(result);
  }

  /** The loop of get_account_history_operations: follow the chain from its
      head, collecting only operations of the requested type. */
  method WalkChainTyped(chain: seq<Operation>, operationType: int, stop: nat, upper: nat, limit: nat)
    returns (result: seq<Operation>)
    ensures result == Walk(chain, stop, upper, limit, Some(operationType))
  {
    result := [];
    var i := 0;
    while i < |chain| && chain[i].id > stop && |result| < limit
      invariant 0 <= i <= |chain|
      invariant |result| <= limit
      invariant result + Walk(chain[i..], stop, upper, limit - |result|, Some(operationType))
                == Walk(chain, stop, upper, limit, Some(operationType))
    {
      WalkAdvance(chain, i, stop, upper, limit, Some(operationType), result);
      if chain[i].id <= upper {
        if chain[i].which == operationType {
          result := result + [chain[i]];
        }
      }
      i := i + 1;
    }
    WalkStops(chain, i, stop, upper, limit - |result|, Some(operationType));
  }

  /** One step of the walk at position `i` of the chain. */
  lemma WalkStep(chain: seq<Operation>, i: nat, stop: nat, start: nat, limit: nat, which: Option<int>)
    requires i < |chain| && chain[i].id > stop && limit > 0
    ensures Walk(chain[i..], stop, start, limit, which)
            == if chain[i].id <= start && Wanted(chain[i], which)
               then [chain[i]] + Walk(chain[i + 1..], stop, start, limit - 1, which)
               else Walk(chain[i + 1..], stop, start, limit, which)
  {
    assert chain[i..][1..] == chain[i + 1..];
  }

  /** One iteration of the walk loop keeps "collected so far, followed by
      the walk of the rest of the chain, is the whole walk". */
  lemma WalkAdvance(chain: seq<Operation>, i: nat, stop: nat, start: nat, limit: nat, which: Option<int>,
                    result: seq<Operation>)
    requires i < |chain| && chain[i].id > stop && |result| < limit
    requires result + Walk(chain[i..], stop, start, limit - |result|, which) == Walk(chain, stop, start, limit, which)
    ensures chain[i].id <= start && Wanted(chain[i], which) ==>
              (result + [chain[i]]) + Walk(chain[i + 1..], stop, start, limit - |result| - 1, which)
              == Walk(chain, stop, start, limit, which)
    ensures !(chain[i].id <= start && Wanted(chain[i], which)) ==>
              result + Walk(chain[i + 1..], stop, start, limit - |result|, which)
              == Walk(chain, stop, start, limit, which)
  {
    var room := limit - |result|;
    WalkStep(chain, i, stop, start, room, which);
    if chain[i].id <= start && Wanted(chain[i], which) {
      var rest := Walk(chain[i + 1..], stop, start, room - 1, which);
      assert (result + [chain[i]]) + rest == result + ([chain[i]] + rest);
    }
  }

  /** The walk ends at the end of the chain, at an id at or below `stop`,
      or with no room left. */
  lemma WalkStops(chain: seq<Operation>, i: nat, stop: nat, start: nat, limit: nat, which: Option<int>)
    requires i <= |chain| && (i == |chain| || chain[i].id <= stop || limit == 0)
    ensures Walk(chain[i..], stop, start, limit, which) == []
  {
  }

  /** Once the chain reaches an id at or below `stop`, nothing further down
      the chain lies in the window. */
  lemma {:induction false} NothingSelectedBelowStop(chain: seq<Operation>, stop: nat, start: nat, which: Option<int>)
    requires NewestFirst(chain)
    requires chain != [] && chain[0].id <= stop
    ensures Selected(chain, stop, start, which) == []
    decreases |chain|
  {
    if |chain| > 1 {
      NothingSelectedBelowStop(chain[1..], stop, start, which);
    }
  }

  /** On a well-formed chain the walk returns exactly the first `limit`
      operations of the window (stop, start] that pass the type filter:
      its early exit at `stop` loses nothing. */
  lemma {:induction false} WalkIsFirstSelected(chain: seq<Operation>, stop: nat, start: nat, limit: nat, which: Option<int>)
    requires NewestFirst(chain)
    ensures Walk(chain, stop, start, limit, which) == Take(Selected(chain, stop, start, which), limit)
    decreases |chain|
  {
    if chain == [] || limit == 0 {
    } else if chain[0].id <= stop {
      NothingSelectedBelowStop(chain, stop, start, which);
    } else {
      WalkIsFirstSelected(chain[1..], stop, start, if chain[0].id <= start && Wanted(chain[0], which) then limit - 1 else limit, which);
    }
  }

  /** The walk returns entries in chain order: a subsequence of the chain. */
  lemma {:induction false} WalkIsSubsequence(chain: seq<Operation>, stop: nat, start: nat, limit: nat, which: Option<int>)
    ensures IsSubsequence(Walk(chain, stop, start, limit, which), chain)
    decreases |chain|
  {
    var r := Walk(chain, stop, start, limit, which);
    if chain == [] || chain[0].id <= stop || limit == 0 {
    } else if chain[0].id <= start && Wanted(chain[0], which) {
      WalkIsSubsequence(chain[1..], stop, start, limit - 1, which);
      assert r[1..] == Walk(chain[1..], stop, start, limit - 1, which);
    } else {
      WalkIsSubsequence(chain[1..], stop, start, limit, which);
    }
  }

  /** Every entry of the walk lies in the id window (stop, start] and passes
      the type filter. */
  lemma {:induction false} WalkInWindow(chain: seq<Operation>, stop: nat, start: nat, limit: nat, which: Option<int>)
    ensures forall op <- Walk(chain, stop, start, limit, which) :: stop < op.id <= start && Wanted(op, which)
    decreases |chain|
  {
    if chain == [] || chain[0].id <= stop || limit == 0 {
    } else if chain[0].id <= start && Wanted(chain[0], which) {
      WalkInWindow(chain[1..], stop, start, limit - 1, which);
    } else {
      WalkInWindow(chain[1..], stop, start, limit, which);
    }
  }

  /** Every entry of the walk is an operation of the chain. */
  lemma {:induction false} WalkFromChain(chain: seq<Operation>, stop: nat, start: nat, limit: nat, which: Option<int>)
    ensures forall op <- Walk(chain, stop, start, limit, which) :: op in chain
    decreases |chain|
  {
    if chain == [] || chain[0].id <= stop || limit == 0 {
    } else if chain[0].id <= start && Wanted(chain[0], which) {
      WalkFromChain(chain[1..], stop, start, limit - 1, which);
    } else {
      WalkFromChain(chain[1..], stop, start, limit, which);
    }
  }

  /** On a well-formed chain the walk's ids strictly decrease. */
  lemma {:induction false} WalkNewestFirst(chain: seq<Operation>, stop: nat, start: nat, limit: nat, which: Option<int>)
    requires NewestFirst(chain)
    ensures NewestFirst(Walk(chain, stop, start, limit, which))
    decreases |chain|
  {
    if chain == [] || chain[0].id <= stop || limit == 0 {
    } else {
      var rest := chain[1..];
      var lim := if chain[0].id <= start && Wanted(chain[0], which) then limit - 1 else limit;
      WalkNewestFirst(rest, stop, start, lim, which);
      WalkFromChain(rest, stop, start, lim, which);
      var tail := Walk(rest, stop, start, lim, which);
      forall op | op in tail
        ensures op.id < chain[0].id
      {
        var k :| 0 <= k < |rest| && rest[k] == op;
        assert chain[k + 1] == op;
      }
    }
  }

  /** The worked example: a chain 40, 30, 20, 10 queried with stop = 15,
      limit = 10 and the default start yields 40, 30, 20. */
  lemma HeadDefaultExample()
    ensures var chain := [Operation(40, 0), Operation(30, 0), Operation(20, 0), Operation(10, 0)];
            Walk(chain, 15, EffectiveStart(chain, 0), 10, None)
              == [Operation(40, 0), Operation(30, 0), Operation(20, 0)]
  {
    var chain := [Operation(40, 0), Operation(30, 0), Operation(20, 0), Operation(10, 0)];
    assert chain[1..] == [Operation(30, 0), Operation(20, 0), Operation(10, 0)];
    assert chain[1..][1..] == [Operation(20, 0), Operation(10, 0)];
    assert chain[1..][1..][1..] == [Operation(10, 0)];
  }
}
