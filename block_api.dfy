/** block_api::get_blocks: fetch every block number from `from` to `to`
    inclusive. The block log lookup, fetch_block_by_number, is a parameter. */
module BlockApi {
  import opened Common
  import opened Ledger

  newtype uint32 = x: int | 0 <= x < 0x1_0000_0000

  const UInt32Max: uint32 := 0xFFFF_FFFF

  /** The loop counter's increment: uint32 arithmetic wraps past UInt32Max. */
  function Increment(n: uint32): uint32
  {
    if n == UInt32Max then 0 else n + 1
  }

  /** The counter after `steps` increments from `from`. */
  function CounterAfter(from: uint32, steps: nat): uint32
  {
    ((from as int + steps) % 0x1_0000_0000) as uint32
  }

  /** The state (block_num, res) of get_blocks' loop after n iterations of
      its body, whatever the guard: push the fetched block, then increment
      the uint32 counter. */
  function Iterations(fetch: uint32 -> Option<SignedBlock>, from: uint32, n: nat): (uint32, seq<Option<SignedBlock>>)
    decreases n
  {
    if n == 0 then (from, [])
    else
      var (blockNum, res) := Iterations(fetch, from, n - 1);
      (Increment(blockNum), res + [fetch(blockNum)])
  }

  /** get_blocks as written, with its uint32 counter. With to == UInt32Max
      its loop never ends (see NeverExitsAtMax), so the model requires
      to < UInt32Max, where the counter cannot wrap; the loop then stops
      after to - from + 1 iterations. */
  method GetBlocks(fetch: uint32 -> Option<SignedBlock>, from: uint32, to: uint32)
    returns (r: Result<seq<Option<SignedBlock>>, ApiError>)
    requires to < UInt32Max
    ensures r.Err? <==> to < from
    ensures r.Err? ==> r.error == InvertedBlockRange
    ensures r.Ok? ==> |r.value| == to as int - from as int + 1
    ensures r.Ok? ==> forall i :: 0 <= i < |r.value| ==> r.value[i] == fetch((from as int + i) as uint32)
    ensures r.Ok? ==> r.value == Iterations(fetch, from, to as int - from as int + 1).1
  {
    if to < from {
      return Err(InvertedBlockRange);
    }
    var res: seq<Option<SignedBlock>> := [];
    var blockNum := from;
    while blockNum <= to
      invariant from <= blockNum <= to + 1
      invariant |res| == blockNum as int - from as int
      invariant forall i :: 0 <= i < |res| ==> res[i] == fetch((from as int + i) as uint32)
      invariant (blockNum, res) == Iterations(fetch, from, blockNum as int - from as int)
      decreases (to as int) - (blockNum as int)
    {
      res := res + [fetch(blockNum)];
      blockNum := Increment(blockNum);
    }
    return Ok(res);
  }

  /** The as-written loop at to == UInt32Max: after any number n of
      iterations the counter has wrapped to (from + n) mod 2^32, the guard
      `block_num <= to` still holds, and res already holds n blocks, so no
      iteration is the last one. */
  lemma {:induction false} NeverExitsAtMax(fetch: uint32 -> Option<SignedBlock>, from: uint32, n: nat)
    ensures var (blockNum, res) := Iterations(fetch, from, n);
      && blockNum == CounterAfter(from, n)
      && blockNum <= UInt32Max
      && |res| == n
    ensures Increment(UInt32Max) == 0
    decreases n
  {
    if n > 0 {
      NeverExitsAtMax(fetch, from, n - 1);
      CounterStep(from, n - 1);
    }
  }

  /** One more increment of the wrapping counter. */
  lemma CounterStep(from: uint32, steps: nat)
    ensures CounterAfter(from, steps + 1) == Increment(CounterAfter(from, steps))
  {
    var c := (from as int + steps) % 0x1_0000_0000;
    if c == 0xFFFF_FFFF {
      assert (from as int + steps + 1) % 0x1_0000_0000 == 0;
    } else {
      assert (from as int + steps + 1) % 0x1_0000_0000 == c + 1;
    }
  }

  /** get_blocks with a counter wide enough to step past UInt32Max: every
      uint32 range is fetched, UInt32Max included. */
  method GetBlocksWide(fetch: uint32 -> Option<SignedBlock>, from: uint32, to: uint32)
    returns (r: Result<seq<Option<SignedBlock>>, ApiError>)
    ensures r.Err? <==> to < from
    ensures r.Err? ==> r.error == InvertedBlockRange
    ensures r.Ok? ==> |r.value| == to as int - from as int + 1
    ensures r.Ok? ==> forall i :: 0 <= i < |r.value| ==> r.value[i] == fetch((from as int + i) as uint32)
  {
    if to < from {
      return Err(InvertedBlockRange);
    }
    var res: seq<Option<SignedBlock>> := [];
    var blockNum: int := from as int;
    while blockNum <= to as int
      invariant from as int <= blockNum <= to as int + 1
      invariant |res| == blockNum - from as int
      invariant forall i :: 0 <= i < |res| ==> res[i] == fetch((from as int + i) as uint32)
    {
      res := res + [fetch(blockNum as uint32)];
      blockNum := blockNum + 1;
    }
    return Ok(res);
  }
}
