/** The ledger objects the API reads. The ledger store creates them and the
    API never changes them; only the fields the API looks at are kept. */
module Ledger {

  /** An operation_history_object: the instance number of its id, and the
      position of its operation in the operation variant (op.which()). */
  datatype Operation = Operation(id: nat, which: nat)

  /** An account_transaction_history_object as the sequence indices see it:
      the account, the per-account sequence number (1-based), the operation
      type it is filed under, and the operation it refers to. */
  datatype HistoryEntry = HistoryEntry(account: nat, sequence: nat, opType: nat, operation: Operation)

  /** The counters of an account's statistics object that bound relative
      queries: operations ever recorded, and operations pruned from the
      oldest end of the account's history. */
  datatype AccountStatistics = AccountStatistics(totalOps: nat, removedOps: nat)

  /** Market history buckets are keyed by asset pair, bucket width in
      seconds and opening time (seconds since the epoch). */
  datatype BucketKey = BucketKey(base: nat, quote: nat, seconds: nat, open: nat)

  /** A bucket_object; its aggregates are carried along unread. */
  datatype Bucket = Bucket(key: BucketKey, baseVolume: int, quoteVolume: int)

  /** Fill history is keyed by asset pair and an int64 sequence. */
  datatype FillKey = FillKey(base: nat, quote: nat, sequence: int)

  /** An order_history_object; the fill details are carried along unread. */
  datatype Fill = Fill(key: FillKey, pays: int, receives: int)

  /** A transaction with its id (the digest trx.id(), computed outside). */
  datatype Transaction = Transaction(id: nat, payload: seq<nat>)

  datatype SignedBlock = SignedBlock(blockNum: nat, transactions: seq<Transaction>)
}
