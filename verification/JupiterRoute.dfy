/**
 Jupiter route instructions as bytes: which instruction it is, and the arguments at its end. The route plan
 in front of them has any length and is not looked at.
 */
module JupiterRoute {
  import opened Words
  import opened Arithmetic
  import opened VaultModel

  type byte = x: int | 0 <= x < 256

  datatype SwapMode = ExactIn | ExactOut

  datatype SwapVariant = Route | RouteWithTokenLedger | ExactOutRoute | SharedAccountsRoute | SharedAccountsExactOutRoute
  {
    function Mode(): SwapMode {
      if ExactOutRoute? || SharedAccountsExactOutRoute? then ExactOut else ExactIn
    }

    predicate UsesTokenLedger() { RouteWithTokenLedger? }

    function Discriminator(): seq<byte> {
      match this
      case Route => [229, 23, 203, 151, 122, 227, 173, 42]
      case RouteWithTokenLedger => [150, 86, 71, 116, 167, 93, 14, 104]
      case ExactOutRoute => [208, 51, 239, 151, 123, 43, 237, 92]
      case SharedAccountsRoute => [193, 32, 155, 51, 65, 214, 156, 129]
      case SharedAccountsExactOutRoute => [176, 209, 105, 168, 154, 125, 69, 62]
    }
  }

  /** The variants in the order in which the data is matched against them. */
  function FromSwapData(data: seq<byte>): Result<SwapVariant> {
    if ExactOutRoute.Discriminator() <= data then Ok(ExactOutRoute)
    else if Route.Discriminator() <= data then Ok(Route)
    else if RouteWithTokenLedger.Discriminator() <= data then Ok(RouteWithTokenLedger)
    else if SharedAccountsExactOutRoute.Discriminator() <= data then Ok(SharedAccountsExactOutRoute)
    else if SharedAccountsRoute.Discriminator() <= data then Ok(SharedAccountsRoute)
    else Err(InvalidInstructionData)
  }

  /** The order of matching does not matter: the data is of a variant exactly if it starts with its discriminator. */
  lemma VariantIsItsDiscriminator(data: seq<byte>, v: SwapVariant)
    ensures FromSwapData(data) == Ok(v) <==> v.Discriminator() <= data
  {
    assert forall w: SwapVariant :: w.Discriminator() <= data ==> data[0] == w.Discriminator()[0];
  }

  // Little-endian words

  function Power256(n: nat): nat {
    if n == 0 then 1 else 256 * Power256(n - 1)
  }

  function FromLittleEndian(bytes: seq<byte>): (n: nat)
    ensures n < Power256(|bytes|)
  {
    if bytes == [] then 0 else bytes[0] + 256 * FromLittleEndian(bytes[1..])
  }

  function ToLittleEndian(n: nat, width: nat): (bytes: seq<byte>)
    ensures |bytes| == width
  {
    if width == 0 then [] else [n % 256] + ToLittleEndian(n / 256, width - 1)
  }

  lemma {:induction false} WordRoundTrip(n: nat, width: nat)
    requires n < Power256(width)
    ensures FromLittleEndian(ToLittleEndian(n, width)) == n
  {
    if width > 0 {
      WordRoundTrip(n / 256, width - 1);
      assert ToLittleEndian(n, width)[1..] == ToLittleEndian(n / 256, width - 1);
    }
  }

  lemma {:induction false} BytesRoundTrip(bytes: seq<byte>)
    ensures ToLittleEndian(FromLittleEndian(bytes), |bytes|) == bytes
    decreases |bytes|
  {
    if bytes != [] {
      BytesRoundTrip(bytes[1..]);
      LowestByte(bytes[0], FromLittleEndian(bytes[1..]));
    }
  }

  lemma LowestByte(low: byte, rest: nat)
    ensures (low + 256 * rest) % 256 == low && (low + 256 * rest) / 256 == rest
  {
    FloorIs(low + 256 * rest, 256, rest);
  }

  lemma WordSizes()
    ensures Power256(2) == U16_MAX + 1
    ensures Power256(8) == U64_MAX + 1
  {
    assert Power256(4) == 0x1_0000_0000;
    assert Power256(6) == 0x1_0000_0000_0000;
  }

  function ReadU64(bytes: seq<byte>): u64
    requires |bytes| == 8
  {
    assert FromLittleEndian(bytes) <= U64_MAX by { WordSizes(); }
    FromLittleEndian(bytes)
  }

  function ReadU16(bytes: seq<byte>): u16
    requires |bytes| == 2
  {
    assert FromLittleEndian(bytes) <= U16_MAX by { WordSizes(); }
    FromLittleEndian(bytes)
  }

  /** The lower part of a word comes first: whatever follows n bytes weighs 256 to the n. */
  lemma {:induction false} LowestFirst(low: seq<byte>, high: seq<byte>)
    ensures FromLittleEndian(low + high) == FromLittleEndian(low) + Power256(|low|) * FromLittleEndian(high)
    ensures |high| == 1 ==> FromLittleEndian(high) == high[0]
    decreases |low|
  {
    if low == [] {
      assert low + high == high;
    } else {
      LowestFirst(low[1..], high);
      assert (low + high)[1..] == low[1..] + high;
      MulAssoc(256, Power256(|low| - 1), FromLittleEndian(high));
    }
  }

  // The arguments at the end of a route instruction

  const SLIPPAGE_TAIL := 3
  const ARGS_TAIL := 19
  const TOKEN_LEDGER_ARGS_TAIL := 11

  datatype RouteArgs = RouteArgs(amount: u64, quotedAmount: u64, slippageBps: u16)

  function Parse(data: seq<byte>): Result<RouteArgs> {
    if |data| < ARGS_TAIL then Err(InvalidInstructionData) else
    var bpsOffset := |data| - SLIPPAGE_TAIL;
    var quotedOffset := bpsOffset - 8;
    var amountOffset := quotedOffset - 8;
    Ok(RouteArgs(
         ReadU64(data[amountOffset..quotedOffset]),
         ReadU64(data[quotedOffset..bpsOffset]),
         ReadU16(data[bpsOffset..bpsOffset + 2])))
  }

  /** Jupiter reads the input amount from the token ledger, so none is in the data. */
  function ParseWithTokenLedger(data: seq<byte>): Result<RouteArgs> {
    if |data| < TOKEN_LEDGER_ARGS_TAIL then Err(InvalidInstructionData) else
    var bpsOffset := |data| - SLIPPAGE_TAIL;
    var quotedOffset := bpsOffset - 8;
    Ok(RouteArgs(0, ReadU64(data[quotedOffset..bpsOffset]), ReadU16(data[bpsOffset..bpsOffset + 2])))
  }

  /** The end of a route instruction as Jupiter lays it out; the last byte is the platform fee. */
  function Encode(args: RouteArgs, platformFeeBps: byte): seq<byte> {
    ToLittleEndian(args.amount, 8) + EncodeWithTokenLedger(args, platformFeeBps)
  }

  function EncodeWithTokenLedger(args: RouteArgs, platformFeeBps: byte): seq<byte> {
    ToLittleEndian(args.quotedAmount, 8) + ToLittleEndian(args.slippageBps, 2) + [platformFeeBps]
  }

  /** A field with anything in front and behind. */
  lemma {:induction false} FieldAt(front: seq<byte>, field: seq<byte>, rest: seq<byte>)
    ensures (front + field + rest)[|front|..|front| + |field|] == field
  {
  }

  /** Without an input amount in the data, parsing gives back the other two. */
  lemma {:induction false} LedgerParseReadsBack(prefix: seq<byte>, args: RouteArgs, platformFeeBps: byte)
    ensures ParseWithTokenLedger(prefix + EncodeWithTokenLedger(args, platformFeeBps)) == Ok(args.(amount := 0))
  {
    WordSizes();
    WordRoundTrip(args.quotedAmount, 8);
    WordRoundTrip(args.slippageBps, 2);
    var quoted, slippage := ToLittleEndian(args.quotedAmount, 8), ToLittleEndian(args.slippageBps, 2);
    var data := prefix + EncodeWithTokenLedger(args, platformFeeBps);
    FieldAt(prefix, quoted, slippage + [platformFeeBps]);
    FieldAt(prefix + quoted, slippage, [platformFeeBps]);
    assert data == prefix + quoted + (slippage + [platformFeeBps]) == prefix + quoted + slippage + [platformFeeBps];
  }

  /** The amount is the word in front of what the ledger form parses. */
  lemma {:induction false} AmountInFront(front: seq<byte>, amount: u64, rest: seq<byte>)
    requires |rest| == TOKEN_LEDGER_ARGS_TAIL
    ensures var data := front + ToLittleEndian(amount, 8) + rest;
      ParseWithTokenLedger(data).Ok? && Parse(data) == Ok(ParseWithTokenLedger(data).value.(amount := amount))
  {
    WordSizes();
    WordRoundTrip(amount, 8);
    FieldAt(front, ToLittleEndian(amount, 8), rest);
  }

  /** Whatever stands in front, parsing gives back the encoded arguments. */
  lemma {:induction false} ParseReadsBack(prefix: seq<byte>, args: RouteArgs, platformFeeBps: byte)
    ensures Parse(prefix + Encode(args, platformFeeBps)) == Ok(args)
  {
    var amount, rest := ToLittleEndian(args.amount, 8), EncodeWithTokenLedger(args, platformFeeBps);
    AmountInFront(prefix, args.amount, rest);
    LedgerParseReadsBack(prefix + amount, args, platformFeeBps);
    assert prefix + Encode(args, platformFeeBps) == prefix + amount + rest;
  }

  /** Conversely, whatever parses ends in the encoding of what was parsed. */
  lemma ParsedWasEncoded(data: seq<byte>, args: RouteArgs)
    requires Parse(data) == Ok(args)
    ensures |data| >= ARGS_TAIL
    ensures data == data[..|data| - ARGS_TAIL] + Encode(args, data[|data| - 1])
  {
    var n := |data| - ARGS_TAIL;
    BytesRoundTrip(data[n..n + 8]);
    BytesRoundTrip(data[n + 8..n + 16]);
    BytesRoundTrip(data[n + 16..n + 18]);
    TailSplits(data, n);
  }

  lemma {:induction false} TailSplits(data: seq<byte>, n: nat)
    requires |data| == n + ARGS_TAIL
    ensures data == data[..n] + (data[n..n + 8] + (data[n + 8..n + 16] + data[n + 16..n + 18] + [data[n + 18]]))
  {
  }

  // Execution prices

  /** The least that an exact-in route has to bring in under a cap on slippage. */
  function MinAmountOut(quotedOut: u64, maxSlippageBps: u16): Result<u64> {
    match SubU16(MAX_BPS, maxSlippageBps) case Err(e) => Err(e) case Ok(kept) =>
    match Mul(quotedOut, kept) case Err(e) => Err(e) case Ok(product) =>
    match Div(product, MAX_BPS) case Err(e) => Err(e) case Ok(quotient) =>
    ToU64(quotient)
  }

  /** The most that an exact-out route may spend under a cap on slippage. */
  function MaxAmountIn(quotedIn: u64, maxSlippageBps: u16): Result<u64> {
    match Add(MAX_BPS, maxSlippageBps) case Err(e) => Err(e) case Ok(allowed) =>
    match Mul(quotedIn, allowed) case Err(e) => Err(e) case Ok(product) =>
    match Div(product, MAX_BPS) case Err(e) => Err(e) case Ok(quotient) =>
    ToU64(quotient)
  }

  /** With a cap of at most 100% the minimum exists, and is short of the exact share by less than one. */
  lemma MinAmountOutBounds(quotedOut: u64, cap: u16)
    ensures MinAmountOut(quotedOut, cap).Ok? <==> cap <= MAX_BPS
    ensures cap <= MAX_BPS ==>
              var least := MinAmountOut(quotedOut, cap).value;
              least * MAX_BPS <= quotedOut * (MAX_BPS - cap) < least * MAX_BPS + MAX_BPS
  {
    if cap <= MAX_BPS {
      MulMono2(quotedOut, U64_MAX, MAX_BPS - cap, MAX_BPS);
      Floor(quotedOut * (MAX_BPS - cap), MAX_BPS);
    }
  }

  /** The maximum fails only if it does not fit u64. */
  lemma MaxAmountInBounds(quotedIn: u64, cap: u16)
    ensures MaxAmountIn(quotedIn, cap).Ok? <==> quotedIn * (MAX_BPS + cap) < (U64_MAX + 1) * MAX_BPS
    ensures MaxAmountIn(quotedIn, cap).Ok? ==>
              var most := MaxAmountIn(quotedIn, cap).value;
              most * MAX_BPS <= quotedIn * (MAX_BPS + cap) < most * MAX_BPS + MAX_BPS
  {
    MulMono2(quotedIn, U64_MAX, MAX_BPS + cap, MAX_BPS + U16_MAX);
    Floor(quotedIn * (MAX_BPS + cap), MAX_BPS);
  }

  // The checks before the swap

  function CheckAmountAndSlippage(data: seq<byte>, amount: u64, slippageBps: u16, maxSlippageBps: u16): Result<RouteArgs> {
    if |data| < TOKEN_LEDGER_ARGS_TAIL then Err(InvalidInstructionData) else
    match FromSwapData(data) case Err(e) => Err(e) case Ok(variant) =>
    if variant.UsesTokenLedger() && amount == 0 then Err(InvalidInstructionData) else
    match (if variant.UsesTokenLedger() then ParseWithTokenLedger(data) else Parse(data))
    case Err(e) => Err(e)
    case Ok(args) =>
      if !variant.UsesTokenLedger() && amount != args.amount then Err(RequireEqViolated) else
      if slippageBps < args.slippageBps then Err(RequireGteViolated) else
      if args.slippageBps > maxSlippageBps then Err(SlippageExceedsCap) else
      if slippageBps > maxSlippageBps then Err(SlippageExceedsCap) else
      Ok(args)
  }

  /** What the manager signs is what Jupiter runs: a correctly encoded route passes exactly within the cap. */
  lemma EncodedRouteChecks(v: SwapVariant, plan: seq<byte>, args: RouteArgs, fee: byte, amount: u64, slippageBps: u16, cap: u16)
    requires !v.UsesTokenLedger()
    ensures CheckAmountAndSlippage(v.Discriminator() + plan + Encode(args, fee), amount, slippageBps, cap) == Ok(args)
            <==> amount == args.amount && args.slippageBps <= slippageBps <= cap
  {
    var data := v.Discriminator() + plan + Encode(args, fee);
    assert v.Discriminator() <= data;
    VariantIsItsDiscriminator(data, v);
    ParseReadsBack(v.Discriminator() + plan, args, fee);
  }

  lemma EncodedLedgerRouteChecks(plan: seq<byte>, args: RouteArgs, fee: byte, amount: u64, slippageBps: u16, cap: u16)
    ensures CheckAmountAndSlippage(RouteWithTokenLedger.Discriminator() + plan + EncodeWithTokenLedger(args, fee),
                                   amount, slippageBps, cap) == Ok(args.(amount := 0))
            <==> 0 < amount && args.slippageBps <= slippageBps <= cap
  {
    var v := RouteWithTokenLedger;
    var data := v.Discriminator() + plan + EncodeWithTokenLedger(args, fee);
    assert v.Discriminator() <= data;
    VariantIsItsDiscriminator(data, v);
    LedgerParseReadsBack(v.Discriminator() + plan, args, fee);
  }
}
