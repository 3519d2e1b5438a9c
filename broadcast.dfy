/** network_broadcast_api's confirmation registry: callbacks registered by
    transaction id, and the confirmations produced when a block is applied.

    Submitting to the ledger and to peers is left to collaborators outside
    this model; handing a confirmation to `fc::async` is modelled as
    returning it, paired with the callback it is handed to. */
module NetworkBroadcast {
  import opened Ledger

  /** A registered confirmation_callback, identified by a handle. */
  datatype Callback = Callback(handle: nat)

  /** transaction_confirmation: id, block number, position in the block, and
      the transaction itself. */
  datatype Confirmation = Confirmation(id: nat, blockNum: nat, trxNum: nat, trx: Transaction)

  /** A confirmation scheduled for delivery to a callback. */
  datatype Delivery = Delivery(callback: Callback, confirmation: Confirmation)

  /** The confirmations for the transactions of `txs` from position `from`
      on, in block order: one for each transaction whose id is registered. */
  function Confirmations(txs: seq<Transaction>, callbacks: map<nat, Callback>, blockNum: nat, from: nat): (ds: seq<Delivery>)
    requires from <= |txs|
    ensures forall d <- ds ::
      && from <= d.confirmation.trxNum < |txs|
      && d.confirmation.trx == txs[d.confirmation.trxNum]
      && d.confirmation.id == d.confirmation.trx.id
      && d.confirmation.blockNum == blockNum
      && d.confirmation.id in callbacks
      && d.callback == callbacks[d.confirmation.id]
    ensures forall i, j :: 0 <= i < j < |ds| ==> ds[i].confirmation.trxNum < ds[j].confirmation.trxNum
    decreases |txs| - from
  {
    if from == |txs| then []
    else
      var rest := Confirmations(txs, callbacks, blockNum, from + 1);
      var trx := txs[from];
      if trx.id in callbacks then
        [Delivery(callbacks[trx.id], Confirmation(trx.id, blockNum, from, trx))] + rest
      else rest
  }

  class NetworkBroadcastApi {
    /** _callbacks: the registered callback of each transaction id. */
    var callbacks: map<nat, Callback>

    constructor ()
      ensures callbacks == map[]
    {
      callbacks := map[];
    }

    /** The registration step of broadcast_transaction_with_callback: the
        callback is stored under the transaction's id, replacing any earlier
        registration for the same id. */
    method BroadcastTransactionWithCallback(cb: Callback, trx: Transaction)
      modifies this
      ensures callbacks == old(callbacks)[trx.id := cb]
    {
      callbacks := callbacks[trx.id := cb];
    }

    /** on_applied_block: a confirmation for each transaction of the block
        whose id is registered, in block order. The registry is only read:
        an entry stays registered after its confirmation is produced. */
    method OnAppliedBlock(b: SignedBlock) returns (deliveries: seq<Delivery>)
      ensures deliveries == Confirmations(b.transactions, callbacks, b.blockNum, 0)
    {
      deliveries := [];
      if |callbacks| > 0 {
        var trxNum := 0;
        while trxNum < |b.transactions|
          invariant 0 <= trxNum <= |b.transactions|
          invariant deliveries + Confirmations(b.transactions, callbacks, b.blockNum, trxNum)
                    == Confirmations(b.transactions, callbacks, b.blockNum, 0)
        {
          var trx := b.transactions[trxNum];
          var id := trx.id;
          if id in callbacks {
            var callback := callbacks[id];
            deliveries := deliveries + [Delivery(callback, Confirmation(id, b.blockNum, trxNum, trx))];
          }
          trxNum := trxNum + 1;
        }
      } else {
        EmptyRegistryConfirmsNothing(b.transactions, b.blockNum, 0);
      }
    }
  }

  /** With nothing registered no confirmation is produced. */
  lemma {:induction false} EmptyRegistryConfirmsNothing(txs: seq<Transaction>, blockNum: nat, from: nat)
    requires from <= |txs|
    ensures Confirmations(txs, map[], blockNum, from) == []
    decreases |txs| - from
  {
    if from < |txs| {
      EmptyRegistryConfirmsNothing(txs, blockNum, from + 1);
    }
  }

  /** Every transaction of the block at position `from` or later whose id
      is registered gets a confirmation carrying its position. */
  lemma {:induction false} ConfirmationsComplete(txs: seq<Transaction>, callbacks: map<nat, Callback>, blockNum: nat, from: nat, k: nat)
    requires from <= k < |txs| && txs[k].id in callbacks
    ensures exists d <- Confirmations(txs, callbacks, blockNum, from) ::
              d == Delivery(callbacks[txs[k].id], Confirmation(txs[k].id, blockNum, k, txs[k]))
    decreases k - from
  {
    var ds := Confirmations(txs, callbacks, blockNum, from);
    if k == from {
      assert ds[0] == Delivery(callbacks[txs[k].id], Confirmation(txs[k].id, blockNum, k, txs[k]));
    } else {
      ConfirmationsComplete(txs, callbacks, blockNum, from + 1, k);
      var rest := Confirmations(txs, callbacks, blockNum, from + 1);
      var d :| d in rest && d == Delivery(callbacks[txs[k].id], Confirmation(txs[k].id, blockNum, k, txs[k]));
      assert d in ds;
    }
  }

  /** The number of confirmations is the number of block transactions, from
      position `from` on, whose id is registered. */
  function CountRegistered(txs: seq<Transaction>, callbacks: map<nat, Callback>, from: nat): nat
    requires from <= |txs|
    decreases |txs| - from
  {
    if from == |txs| then 0
    else (if txs[from].id in callbacks then 1 else 0) + CountRegistered(txs, callbacks, from + 1)
  }

  lemma {:induction false} ConfirmationsCount(txs: seq<Transaction>, callbacks: map<nat, Callback>, blockNum: nat, from: nat)
    requires from <= |txs|
    ensures |Confirmations(txs, callbacks, blockNum, from)| == CountRegistered(txs, callbacks, from)
    decreases |txs| - from
  {
    if from < |txs| {
      ConfirmationsCount(txs, callbacks, blockNum, from + 1);
    }
  }

  /** Registering two callbacks for the same transaction keeps only the
      second: when the transaction is confirmed, exactly one confirmation is
      produced, for the second callback. */
  method RegisterTwiceConfirmOnce(first: Callback, second: Callback, trx: Transaction, blockNum: nat)
    returns (deliveries: seq<Delivery>)
    ensures deliveries == [Delivery(second, Confirmation(trx.id, blockNum, 0, trx))]
  {
    var api := new NetworkBroadcastApi();
    api.BroadcastTransactionWithCallback(first, trx);
    api.BroadcastTransactionWithCallback(second, trx);
    deliveries := api.OnAppliedBlock(SignedBlock(blockNum, [trx]));
    assert Confirmations([trx], api.callbacks, blockNum, 1) == [];
  }

  /** Producing a confirmation does not consume the registration: applying
      a block with the same transaction again confirms it again. */
  method RegistrationOutlivesConfirmation(cb: Callback, trx: Transaction, firstBlock: nat, secondBlock: nat)
    returns (first: seq<Delivery>, second: seq<Delivery>)
    ensures first == [Delivery(cb, Confirmation(trx.id, firstBlock, 0, trx))]
    ensures second == [Delivery(cb, Confirmation(trx.id, secondBlock, 0, trx))]
  {
    var api := new NetworkBroadcastApi();
    api.BroadcastTransactionWithCallback(cb, trx);
    first := api.OnAppliedBlock(SignedBlock(firstBlock, [trx]));
    second := api.OnAppliedBlock(SignedBlock(secondBlock, [trx]));
    assert Confirmations([trx], api.callbacks, firstBlock, 1) == [];
    assert Confirmations([trx], api.callbacks, secondBlock, 1) == [];
  }
}
