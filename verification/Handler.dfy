/** internal/transfer/server: from the amount strings of a request to the cents that move. */
module Handler {
  import opened Int64
  import opened Results
  import opened Money
  import opened Transfers

  datatype TransferDto = TransferDto(
    amount: string, currency: string,
    counterpartyName: string, counterpartyBic: string, counterpartyIban: string, description: string)

  datatype RequestDto = RequestDto(bic: string, iban: string, creditTransfers: seq<TransferDto>)

  /** The validator's "amount" tag. */
  method ValidateAmount(s: string) returns (valid: bool)
    ensures valid <==> Parsed(s).Ok?
  {
    var r := ParseAmountCents(s);
    valid := r.Ok?;
  }

  predicate AllValid(dto: RequestDto) {
    forall i :: 0 <= i < |dto.creditTransfers| ==> Parsed(dto.creditTransfers[i].amount).Ok?
  }

  function ToTransfer(t: TransferDto): CreditTransfer
    requires Parsed(t.amount).Ok?
  {
    CreditTransfer(Parsed(t.amount).value, t.currency, t.counterpartyName, t.counterpartyBic, t.counterpartyIban, t.description)
  }

  function DomainRequest(dto: RequestDto, key: string): (req: Request)
    requires AllValid(dto)
    ensures |req.transfers| == |dto.creditTransfers|
  {
    Request(dto.bic, dto.iban,
            seq(|dto.creditTransfers|, i requires 0 <= i < |dto.creditTransfers| => ToTransfer(dto.creditTransfers[i])),
            key)
  }

  /** The client's key if it sent one, otherwise the hash of the raw body. */
  function KeyFor(headerKey: string, rawBody: string, hashBody: string -> string): string {
    if headerKey != "" then headerKey else hashBody(rawBody)
  }

  predicate FirstInvalid(dto: RequestDto, i: int, error: AmountError) {
    && 0 <= i < |dto.creditTransfers| && Parsed(dto.creditTransfers[i].amount) == Err(error)
    && forall j :: 0 <= j < i ==> Parsed(dto.creditTransfers[j].amount).Ok?
  }

  /** Conversion fails only on an amount that validation refuses, with the first one's error. */
  method ToDomainRequest(dto: RequestDto, headerKey: string, rawBody: string, hashBody: string -> string)
    returns (r: Result<Request, AmountError>)
    ensures r.Ok? <==> AllValid(dto)
    ensures r.Ok? ==> r.value == DomainRequest(dto, KeyFor(headerKey, rawBody, hashBody))
    ensures r.Ok? ==> r.value.bic == dto.bic && r.value.iban == dto.iban
    ensures r.Ok? && headerKey != "" ==> r.value.key == headerKey
    ensures r.Ok? && headerKey == "" ==> r.value.key == hashBody(rawBody)
    ensures r.Ok? ==> AllConverted(dto.creditTransfers, r.value.transfers)
    ensures r.Err? ==> exists i :: FirstInvalid(dto, i, r.error)
  {
    var transfers: seq<CreditTransfer> := [];
    for i := 0 to |dto.creditTransfers|
      invariant AllConverted(dto.creditTransfers[..i], transfers)
    {
      var t := dto.creditTransfers[i];
      var cents := ParseAmountCents(t.amount);
      if cents.Err? {
        FirstRefused(dto, transfers, i, cents.error);
        return Err(cents.error);
      }
      var c := CreditTransfer(
        cents.value, t.currency, t.counterpartyName, t.counterpartyBic, t.counterpartyIban, t.description);
      OneMoreConverted(dto.creditTransfers, transfers, i, c);
      transfers := transfers + [c];
    }
    var key := headerKey;
    if key == "" {
      key := hashBody(rawBody);
    }
    assert dto.creditTransfers[..|dto.creditTransfers|] == dto.creditTransfers;
    var req := Request(dto.bic, dto.iban, transfers, key);
    ConvertedIsDomain(dto, req);
    return Ok(req);
  }

  lemma FirstRefused(dto: RequestDto, transfers: seq<CreditTransfer>, i: nat, error: AmountError)
    requires i < |dto.creditTransfers| && Parsed(dto.creditTransfers[i].amount) == Err(error)
    requires AllConverted(dto.creditTransfers[..i], transfers)
    ensures FirstInvalid(dto, i, error) && !AllValid(dto)
  {
    forall j | 0 <= j < i ensures Parsed(dto.creditTransfers[j].amount).Ok? {
      assert Converted(dto.creditTransfers[..i][j], transfers[j]);
    }
  }

  /** The amount in cents, and every text as the client sent it. */
  predicate Converted(t: TransferDto, c: CreditTransfer) {
    Parsed(t.amount) == Ok(c.amount) && SameText(t, c)
  }

  predicate SameText(t: TransferDto, c: CreditTransfer) {
    && c.currency == t.currency && c.description == t.description
    && c.counterpartyName == t.counterpartyName
    && c.counterpartyBic == t.counterpartyBic && c.counterpartyIban == t.counterpartyIban
  }

  predicate AllConverted(ts: seq<TransferDto>, cs: seq<CreditTransfer>) {
    |cs| == |ts| && forall j :: 0 <= j < |ts| ==> Converted(ts[j], cs[j])
  }

  lemma OneMoreConverted(ts: seq<TransferDto>, cs: seq<CreditTransfer>, i: nat, c: CreditTransfer)
    requires i < |ts| && AllConverted(ts[..i], cs) && Converted(ts[i], c)
    ensures AllConverted(ts[..i + 1], cs + [c])
  {
    forall j | 0 <= j < i + 1 ensures Converted(ts[..i + 1][j], (cs + [c])[j]) {
      if j < i {
        assert Converted(ts[..i][j], cs[j]);
      }
    }
  }

  lemma ConvertedIsDomain(dto: RequestDto, req: Request)
    requires req.bic == dto.bic && req.iban == dto.iban && AllConverted(dto.creditTransfers, req.transfers)
    ensures AllValid(dto) && req == DomainRequest(dto, req.key)
  {
    forall j | 0 <= j < |req.transfers| ensures req.transfers[j] == DomainRequest(dto, req.key).transfers[j] {
      assert Converted(dto.creditTransfers[j], req.transfers[j]);
    }
    assert DomainRequest(dto, req.key).transfers == req.transfers;
  }

  // ----- Exact cents -----

  predicate AllWellFormed(ts: seq<TransferDto>) {
    forall i :: 0 <= i < |ts| ==> WellFormed(ts[i].amount)
  }

  /** The exact decimal sum of the amount strings, in cents. */
  function ExactSum(ts: seq<TransferDto>): nat
    requires AllWellFormed(ts)
  {
    if ts == [] then 0 else ExactSum(ts[..|ts| - 1]) + ExactCents(ts[|ts| - 1].amount)
  }

  lemma AmountExact(t: TransferDto)
    requires Parsed(t.amount).Ok? && WellFormed(t.amount) && ExactCents(t.amount) <= MAX
    ensures Parsed(t.amount).value == ExactCents(t.amount) > 0
  {
    ParserExact(t.amount);
  }

  lemma SumSplits(ts: seq<TransferDto>)
    requires AllWellFormed(ts) && ts != []
    ensures var ts', last := ts[..|ts| - 1], ts[|ts| - 1];
      && ts == ts' + [last] && AllWellFormed(ts') && WellFormed(last.amount)
      && ExactSum(ts) == ExactSum(ts') + ExactCents(last.amount)
  {
  }

  lemma {:induction false} EachWithinSum(ts: seq<TransferDto>, t: TransferDto)
    requires AllWellFormed(ts) && t in ts && WellFormed(t.amount)
    ensures ExactCents(t.amount) <= ExactSum(ts)
  {
    var ts', last := ts[..|ts| - 1], ts[|ts| - 1];
    SumSplits(ts);
    if t != last {
      assert t in ts';
      EachWithinSum(ts', t);
    }
  }

  predicate Carries(t: TransferDto, c: CreditTransfer)
    requires WellFormed(t.amount)
  {
    c.amount == ExactCents(t.amount)
  }

  lemma {:induction false} SumsAgree(ts: seq<TransferDto>, cs: seq<CreditTransfer>)
    requires AllWellFormed(ts) && |cs| == |ts|
    requires forall i :: 0 <= i < |ts| ==> Carries(ts[i], cs[i])
    ensures Sum(cs) == ExactSum(ts)
  {
    if ts != [] {
      var n := |ts| - 1;
      var ts', cs' := ts[..n], cs[..n];
      forall i | 0 <= i < n ensures Carries(ts'[i], cs'[i]) {
        assert Carries(ts[i], cs[i]);
      }
      SumsAgree(ts', cs');
      assert Carries(ts[n], cs[n]);
    }
  }

  /** The total the service works with is the exact decimal sum of a valid request if and only if
      that sum fits int64 cents. */
  lemma TotalIsExact(dto: RequestDto, key: string)
    requires AllValid(dto) && dto.creditTransfers != []
    ensures AllWellFormed(dto.creditTransfers)
    ensures Transfers.Total(DomainRequest(dto, key)) == ExactSum(dto.creditTransfers) <==> ExactSum(dto.creditTransfers) <= MAX
  {
    ExactOnTheWayIn(dto, key);
  }

  /** No cent lost on the way in: if the exact decimal sum of a valid request fits int64 cents, the
      total the service works with is that sum, every amount is exact, and printing a stored amount
      gives back the client's text in canonical form. */
  lemma ExactOnTheWayIn(dto: RequestDto, key: string)
    requires AllValid(dto) && dto.creditTransfers != []
    ensures AllWellFormed(dto.creditTransfers)
    ensures ExactSum(dto.creditTransfers) <= MAX ==>
      var req := DomainRequest(dto, key);
      && Transfers.Total(req) == ExactSum(dto.creditTransfers) > 0
      && forall i :: 0 <= i < |req.transfers| ==>
           && req.transfers[i].amount == ExactCents(dto.creditTransfers[i].amount)
           && Formatted(req.transfers[i].amount) == Canonical(dto.creditTransfers[i].amount)
  {
    var ts, req := dto.creditTransfers, DomainRequest(dto, key);
    if ExactSum(ts) <= MAX {
      forall i | 0 <= i < |ts|
        ensures Carries(ts[i], req.transfers[i]) && req.transfers[i].amount > 0
        ensures Formatted(req.transfers[i].amount) == Canonical(ts[i].amount)
      {
        EachWithinSum(ts, ts[i]);
        AmountExact(ts[i]);
        FormatParsed(ts[i].amount);
      }
      SumsAgree(ts, req.transfers);
      PositiveSum(req.transfers);
    }
  }
}
