/** The protocol rules of the custom vote operations: validate() and
    calculate_fee() of custom_vote_create_operation and
    custom_vote_cast_operation.

    The helpers these rules call but do not define (the common fee check,
    the account uid check, the serialised size of a field and the data fee
    schedule) are supplied as the fields of `Helpers`, so nothing about them
    is assumed. */
module CustomVote {

  /** An asset amount: the operation's fee. */
  datatype Asset = Asset(amount: int, assetId: nat)

  /** custom_vote_create_operation, with the fields its rules read. */
  datatype CreateOperation = CreateOperation(
    fee: Asset,
    createAccount: nat,
    description: string,
    options: seq<string>,
    minimumSelectedItems: nat,
    maximumSelectedItems: nat,
    requiredAssetAmount: int)

  /** custom_vote_cast_operation: the fields its rules read, and the ballot,
      which they do not. */
  datatype CastOperation = CastOperation(fee: Asset, voter: nat, ballot: seq<nat>)

  /** The operation's fee_parameters_type. */
  datatype FeeParameters = FeeParameters(fee: int, pricePerKbyte: nat)

  /** The helpers the rules delegate to. */
  datatype Helpers = Helpers(
    validOpFee: Asset -> bool,                 // validate_op_fee passes
    validAccountUid: nat -> bool,              // validate_account_uid passes
    packSizeOfString: string -> nat,           // fc::raw::pack_size of a string
    packSizeOfStrings: seq<string> -> nat,     // fc::raw::pack_size of a vector of strings
    dataFee: (nat, nat) -> int)                // calculate_data_fee(bytes, price per kbyte)

  /** The assertion of validate() that failed first. */
  datatype VoteError =
    | InvalidFee
    | InvalidAccountUid
    | OptionsSizeOutOfRange
    | MinimumAboveMaximum
    | MinimumIsZero
    | MaximumNotBelowOptionsSize
    | RequiredAmountNotPositive

  datatype Outcome = Pass | Fail(error: VoteError)

  /** custom_vote_create_operation::validate: the assertions in source
      order; the first that fails is reported. */
  function ValidateCreate(op: CreateOperation, h: Helpers): (r: Outcome)
    ensures r.Pass? <==>
      && h.validOpFee(op.fee)
      && h.validAccountUid(op.createAccount)
      && 1 < |op.options| < 256
      && op.minimumSelectedItems <= op.maximumSelectedItems
      && op.minimumSelectedItems > 0
      && op.maximumSelectedItems < |op.options|
      && op.requiredAssetAmount > 0
  {
    if !h.validOpFee(op.fee) then Fail(InvalidFee)
    else if !h.validAccountUid(op.createAccount) then Fail(InvalidAccountUid)
    else if !(|op.options| > 1 && |op.options| < 256) then Fail(OptionsSizeOutOfRange)
    else if !(op.minimumSelectedItems <= op.maximumSelectedItems) then Fail(MinimumAboveMaximum)
    else if !(op.minimumSelectedItems > 0) then Fail(MinimumIsZero)
    else if !(op.maximumSelectedItems < |op.options|) then Fail(MaximumNotBelowOptionsSize)
    else if !(op.requiredAssetAmount > 0) then Fail(RequiredAmountNotPositive)
    else Pass
  }

  /** An accepted create operation satisfies 0 < min <= max < |options| <= 255
      and asks for a positive amount of the vote asset. */
  lemma AcceptedCreateBounds(op: CreateOperation, h: Helpers)
    requires ValidateCreate(op, h).Pass?
    ensures 0 < op.minimumSelectedItems <= op.maximumSelectedItems < |op.options| <= 255
    ensures op.requiredAssetAmount > 0
  {
  }

  /** Each rejection names an assertion the operation violates, and every
      assertion checked before it holds. */
  lemma RejectionIsFirstViolation(op: CreateOperation, h: Helpers)
    requires ValidateCreate(op, h).Fail?
    ensures var e := ValidateCreate(op, h).error;
      var feeOk := h.validOpFee(op.fee);
      var uidOk := h.validAccountUid(op.createAccount);
      var sizeOk := 1 < |op.options| < 256;
      var min, max := op.minimumSelectedItems, op.maximumSelectedItems;
      && (e == InvalidFee <==> !feeOk)
      && (e == InvalidAccountUid ==> feeOk && !uidOk)
      && (e == OptionsSizeOutOfRange ==> feeOk && uidOk && !sizeOk)
      && (e == MinimumAboveMaximum ==> feeOk && uidOk && sizeOk && min > max)
      && (e == MinimumIsZero ==> feeOk && uidOk && sizeOk && min <= max && min == 0)
      && (e == MaximumNotBelowOptionsSize ==>
            feeOk && uidOk && sizeOk && min <= max && min > 0 && max >= |op.options|)
      && (e == RequiredAmountNotPositive ==>
            feeOk && uidOk && sizeOk && min <= max && min > 0 && max < |op.options| && op.requiredAssetAmount <= 0)
  {
  }

  /** custom_vote_create_operation::calculate_fee: the base fee plus the data
      fee for the serialised description and options. */
  function CreateFee(op: CreateOperation, k: FeeParameters, h: Helpers): (fee: int)
    ensures fee - k.fee == h.dataFee(h.packSizeOfString(op.description) + h.packSizeOfStrings(op.options), k.pricePerKbyte)
  {
    var dataSize := h.packSizeOfString(op.description) + h.packSizeOfStrings(op.options);
    k.fee + h.dataFee(dataSize, k.pricePerKbyte)
  }

  /** The create fee depends on the operation only through its description
      and options. */
  lemma CreateFeeOfData(op1: CreateOperation, op2: CreateOperation, k: FeeParameters, h: Helpers)
    requires op1.description == op2.description && op1.options == op2.options
    ensures CreateFee(op1, k, h) == CreateFee(op2, k, h)
  {
  }

  /** The create fee is never below the base fee while the data fee schedule
      charges nothing negative. */
  lemma CreateFeeAtLeastBase(op: CreateOperation, k: FeeParameters, h: Helpers)
    requires forall bytes: nat, price: nat :: h.dataFee(bytes, price) >= 0
    ensures CreateFee(op, k, h) >= k.fee
  {
  }

  /** With a data fee schedule that does not fall as the byte count grows,
      an operation whose description and options pack to more bytes pays at
      least as much. */
  lemma CreateFeeMonotone(op1: CreateOperation, op2: CreateOperation, k: FeeParameters, h: Helpers)
    requires forall b1: nat, b2: nat :: b1 <= b2 ==> h.dataFee(b1, k.pricePerKbyte) <= h.dataFee(b2, k.pricePerKbyte)
    requires h.packSizeOfString(op1.description) + h.packSizeOfStrings(op1.options)
             <= h.packSizeOfString(op2.description) + h.packSizeOfStrings(op2.options)
    ensures CreateFee(op1, k, h) <= CreateFee(op2, k, h)
  {
  }

  /** custom_vote_cast_operation::validate: only the fee and the voter's uid
      are checked. */
  function ValidateCast(op: CastOperation, h: Helpers): (r: Outcome)
    ensures r.Pass? <==> h.validOpFee(op.fee) && h.validAccountUid(op.voter)
    ensures r.Fail? ==> (r.error == InvalidFee <==> !h.validOpFee(op.fee))
    ensures r.Fail? ==> r.error in {InvalidFee, InvalidAccountUid}
  {
    if !h.validOpFee(op.fee) then Fail(InvalidFee)
    else if !h.validAccountUid(op.voter) then Fail(InvalidAccountUid)
    else Pass
  }

  /** custom_vote_cast_operation::calculate_fee: the base fee alone. */
  function CastFee(op: CastOperation, k: FeeParameters): (fee: int)
    ensures fee == k.fee
  {
    k.fee
  }

  /** The cast fee does not depend on what is cast. */
  lemma CastFeeIgnoresContents(op1: CastOperation, op2: CastOperation, k: FeeParameters)
    ensures CastFee(op1, k) == CastFee(op2, k) == k.fee
  {
  }
}
