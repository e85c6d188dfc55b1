/** The capacity arithmetic `transfer` does once funding is gathered: the fee
    ceiling, the insufficient-funds check, folding a change too small for a
    cell into the fee, and the outputs handed to the transaction builder. */
module Balancing {
  import opened Types
  import opened Cells

  /** "Transaction fee can not be more than 1.0 CKB", "Capacity(mature) not
      enough", and the same fee message when folding the change into the
      fee would exceed the ceiling. */
  datatype BalanceError = FeeTooHigh | NotEnough(fromCapacity: nat) | FoldedFeeTooHigh

  /** The capacity the transaction burns: the fee, plus the change when the
      change is too small to form a cell of its own and so is left out. */
  function Burned(txFee: nat, rest: nat): nat
  {
    if rest < MIN_SECP_CELL_CAPACITY then txFee + rest else txFee
  }

  /** The change (`rest_capacity`) left once `toCapacity` and `txFee` are
      paid out of `fromCapacity`, or why the payment is refused. It succeeds
      exactly when the gathered capacity covers payment and fee and the
      capacity the transaction really burns stays within one CKB. */
  function Balance(fromCapacity: nat, toCapacity: U64, txFee: U64): (r: Result<nat, BalanceError>)
    requires toCapacity + txFee <= U64_MAX
    ensures r.Ok? <==> toCapacity + txFee <= fromCapacity
                       && Burned(txFee, fromCapacity - toCapacity - txFee) <= ONE_CKB
    ensures r.Ok? ==> fromCapacity == toCapacity + txFee + r.value
    ensures r == Err(FeeTooHigh) <==> txFee > ONE_CKB
    ensures r == Err(NotEnough(fromCapacity)) <==> txFee <= ONE_CKB && toCapacity + txFee > fromCapacity
    ensures r == Err(FoldedFeeTooHigh) <==>
              && txFee <= ONE_CKB && toCapacity + txFee <= fromCapacity
              && fromCapacity - toCapacity - txFee < MIN_SECP_CELL_CAPACITY
              && txFee + (fromCapacity - toCapacity - txFee) > ONE_CKB
  {
    if txFee > ONE_CKB then Err(FeeTooHigh)
    else if toCapacity + txFee > fromCapacity then Err(NotEnough(fromCapacity))
    else
      var rest := fromCapacity - toCapacity - txFee;
      if rest < MIN_SECP_CELL_CAPACITY && txFee + rest > ONE_CKB then Err(FoldedFeeTooHigh)
      else Ok(rest)
  }

  /** A transaction output: capacity, lock and data. */
  datatype Output = Output(capacity: nat, lock: Payload, data: seq<Byte>)

  function OutputCapacity(outputs: seq<Output>): nat
  {
    if outputs == [] then 0 else outputs[0].capacity + OutputCapacity(outputs[1..])
  }

  /** The payment output, then a change output to `change` carrying `rest`
      only when `rest` can form a cell. */
  function Outputs(to: Payload, toCapacity: nat, toData: seq<Byte>, change: Payload, rest: nat): seq<Output>
  {
    [Output(toCapacity, to, toData)]
    + if rest >= MIN_SECP_CELL_CAPACITY then [Output(rest, change, [])] else []
  }

  /** The outputs of a balanced payment account for every shannon gathered:
      the inputs pay the outputs and the burned capacity, which is at most
      one CKB; the payment always goes out, and a change output exists, with
      exactly the change, iff the change is at least the minimum cell. */
  lemma OutputsBalance(fromCapacity: nat, toCapacity: U64, txFee: U64, to: Payload, toData: seq<Byte>,
                       change: Payload)
    requires toCapacity + txFee <= U64_MAX
    requires Balance(fromCapacity, toCapacity, txFee).Ok?
    ensures var rest := Balance(fromCapacity, toCapacity, txFee).value;
      var outputs := Outputs(to, toCapacity, toData, change, rest);
      && fromCapacity == OutputCapacity(outputs) + Burned(txFee, rest)
      && fromCapacity - OutputCapacity(outputs) <= ONE_CKB
      && outputs[0] == Output(toCapacity, to, toData)
      && (|outputs| == 2 <==> rest >= MIN_SECP_CELL_CAPACITY)
      && (|outputs| == 2 ==> outputs[1] == Output(rest, change, []))
      && |outputs| <= 2
  {
    var rest := Balance(fromCapacity, toCapacity, txFee).value;
    var outputs := Outputs(to, toCapacity, toData, change, rest);
    assert OutputCapacity(outputs) == toCapacity + if rest >= MIN_SECP_CELL_CAPACITY then rest else 0 by {
      var tail := outputs[1..];
      assert tail == if rest >= MIN_SECP_CELL_CAPACITY then [Output(rest, change, [])] else [];
      if rest >= MIN_SECP_CELL_CAPACITY {
        assert tail[1..] == [];
        assert OutputCapacity(tail) == rest + OutputCapacity(tail[1..]);
      }
    }
  }
}
