/**
 Pending deposit and withdrawal requests. The two account types have the same fields and the same
 rules; they differ only in when their owner may still cancel.
 */
module Requests {
  import opened Words
  import opened Tables

  /** A request: tokens (deposit) or shares (withdrawal) held in escrow since `epoch`. */
  datatype Request = Request(amount: u64, epoch: u64, createdTs: i64) {

    predicate Resolvable(navEpoch: u64) {
      navEpoch > epoch
    }

    predicate WithdrawalCancellable(navEpoch: u64) {
      navEpoch <= epoch
    }

    /** A deposit stays cancellable while the NAV is zero, when it cannot resolve. */
    predicate DepositCancellable(navEpoch: u64, navPerShare: u64) {
      navPerShare == 0 || navEpoch <= epoch
    }
  }

  datatype Side = DepositSide | WithdrawalSide

  function NewRequest(epoch: u64, createdTs: i64): Request {
    Request(0, epoch, createdTs)
  }

  /** What is added in a later epoch would be priced by a different post, so it is refused. */
  function AddTo(r: Request, amount: u64, epoch: u64): Result<Request> {
    if r.epoch != epoch then Err(PendingRequestNotResolved) else
    if r.amount + amount > U64_MAX then Err(MathOverflow) else
    Ok(r.(amount := r.amount + amount))
  }

  /** A request account as an instruction holds it: loaded, changed in place, written back on success. */
  class RequestAccount {
    var amount: u64
    var epoch: u64
    var createdTs: i64

    function Data(): Request
      reads this
    {
      Request(amount, epoch, createdTs)
    }

    constructor (data: Request)
      ensures Data() == data
    {
      amount, epoch, createdTs := data.amount, data.epoch, data.createdTs;
    }

    method Add(more: u64, currentEpoch: u64) returns (r: Result<()>)
      modifies this
      ensures match AddTo(old(Data()), more, currentEpoch)
        case Ok(data) => r == Ok(()) && Data() == data
        case Err(e) => r == Err(e)
    {
      var _ :- Validate(epoch == currentEpoch, PendingRequestNotResolved);
      amount :- AddU64(amount, more);
      r := Ok(());
    }
  }

  type RequestTable = map<Key, Request>

  /** The escrowed amount of each request. */
  function Amounts(requests: RequestTable): Table {
    map k | k in requests :: requests[k].amount
  }

  /** The escrowed amounts of the requests that the NAV of `navEpoch` settles. */
  function Matured(requests: RequestTable, navEpoch: u64): Table {
    map k | k in requests && requests[k].Resolvable(navEpoch) :: requests[k].amount
  }

  lemma PutAmount(requests: RequestTable, k: Key, r: Request)
    ensures Total(Amounts(requests[k := r])) == Total(Amounts(requests)) - Balance(Amounts(requests), k) + r.amount
    ensures Balance(Amounts(requests), k) <= Total(Amounts(requests))
  {
    assert Amounts(requests[k := r]) == Amounts(requests)[k := r.amount];
    TotalSet(Amounts(requests), k, r.amount);
  }

  lemma RemoveAmount(requests: RequestTable, k: Key)
    requires k in requests
    ensures Total(Amounts(requests - {k})) == Total(Amounts(requests)) - requests[k].amount
    ensures requests[k].amount <= Total(Amounts(requests))
  {
    assert Amounts(requests - {k}) == Amounts(requests) - {k};
    TotalRemove(Amounts(requests), k);
  }
}
