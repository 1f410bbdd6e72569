/** internal/transfer/model/transfer.go: the domain request and its total. */
module Transfers {
  import opened Int64

  datatype CreditTransfer = CreditTransfer(
    amount: int64, currency: string,
    counterpartyName: string, counterpartyBic: string, counterpartyIban: string, description: string)

  datatype Request = Request(bic: string, iban: string, transfers: seq<CreditTransfer>, key: string)

  /** The exact sum of the amounts, as a mathematical integer. */
  function Sum(ts: seq<CreditTransfer>): int {
    if ts == [] then 0 else Sum(ts[..|ts| - 1]) + ts[|ts| - 1].amount
  }

  /** The total the service computes: the exact sum, wrapped. */
  function Total(req: Request): (t: int64)
    ensures t == Sum(req.transfers) <==> Fits(Sum(req.transfers))
  {
    Wrap(Sum(req.transfers))
  }

  method TotalCents(req: Request) returns (total: int64)
    ensures total == Total(req)
  {
    total := 0;
    for i := 0 to |req.transfers|
      invariant total == Wrap(Sum(req.transfers[..i]))
    {
      assert req.transfers[..i + 1][..i] == req.transfers[..i];
      WrapSum(Sum(req.transfers[..i]), req.transfers[i].amount);
      total := Wrap(total + req.transfers[i].amount);
    }
    assert req.transfers[..|req.transfers|] == req.transfers;
  }

  /** "Overflow aside, the result is always > 0": positive amounts have a positive total unless
      their exact sum leaves the int64 range. */
  lemma {:induction false} PositiveSum(ts: seq<CreditTransfer>)
    requires forall t :: t in ts ==> t.amount > 0
    ensures Sum(ts) >= |ts|
  {
    if ts != [] {
      PositiveSum(ts[..|ts| - 1]);
    }
  }
}
