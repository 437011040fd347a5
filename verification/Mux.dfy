/** The checks that the multiplexer applies to an intercepted htlc before it hands it to the
    invoice registry. Decoding the onion is represented by its result, which depends on the
    htlc only. */
module Mux {
  import opened Types
  import opened Amounts

  datatype RoutingPolicy = RoutingPolicy(cltvDelta: int64, feeBaseMsat: int64, feeRatePpm: int64)

  datatype Mpp = Mpp(totalMsat: uint64, paymentAddr: PaymentAddr)

  datatype Payload = Payload(amountToForward: uint64, outgoingCltv: uint32, mpp: Option<Mpp>)

  datatype FailCode =
    | InvalidOnionHmac | InvalidOnionVersion | InvalidOnionKey
    | FeeInsufficient | IncorrectCltvExpiry
    | OtherFailCode(code: nat)

  /** The outcome of decoding the onion blob and extracting the error encrypter. */
  datatype Onion =
    | Undecodable(code: FailCode)
    | PayloadError
    | NoErrorEncrypter(code: FailCode)
    | Decoded(payload: Payload)

  datatype Htlc = Htlc(
    hash: Hash,
    incomingAmountMsat: uint64,
    outgoingAmountMsat: uint64,
    incomingExpiry: uint32,
    outgoingExpiry: uint32,
    onion: Onion)

  datatype RpcFailure = RpcInvalidOnionHmac | RpcInvalidOnionVersion | RpcInvalidOnionKey | RpcTemporaryChannelFailure

  datatype Verdict =
    | ToRegistry(payload: Payload)
    | FailHtlc(code: RpcFailure)            // a failure that lnd reports
    | FinalIncorrectHtlcAmount              // failures encrypted for the sender
    | FinalExpiryTooSoon
    | StopMux                               // ProcessHtlc returns an error, which ends the process

  function Fail(code: FailCode): Verdict {
    match code
    case InvalidOnionHmac => FailHtlc(RpcInvalidOnionHmac)
    case InvalidOnionVersion => FailHtlc(RpcInvalidOnionVersion)
    case InvalidOnionKey => FailHtlc(RpcInvalidOnionKey)
    case FeeInsufficient => FailHtlc(RpcTemporaryChannelFailure)
    case IncorrectCltvExpiry => FailHtlc(RpcTemporaryChannelFailure)
    case OtherFailCode(_) => StopMux
  }

  /** The fee for the hop over the virtual channel, in unsigned 64 bit arithmetic. */
  function ExpectedFee(p: RoutingPolicy, outgoing: uint64): uint64 {
    ToUint64(ToUint64(p.feeBaseMsat) + ToUint64(ToUint64(p.feeRatePpm) * outgoing) / 1_000_000)
  }

  /** ProcessHtlc, up to the call of the registry. */
  function ProcessHtlc(p: RoutingPolicy, htlc: Htlc): Verdict {
    if htlc.incomingAmountMsat < ToUint64(htlc.outgoingAmountMsat + ExpectedFee(p, htlc.outgoingAmountMsat))
    then Fail(FeeInsufficient)
    else if htlc.incomingExpiry < ToUint32(htlc.outgoingExpiry + ToUint32(p.cltvDelta))
    then Fail(IncorrectCltvExpiry)
    else match htlc.onion
      case Undecodable(code) => Fail(code)
      case PayloadError => StopMux
      case NoErrorEncrypter(code) => Fail(code)
      case Decoded(payload) =>
        if payload.amountToForward != htlc.outgoingAmountMsat then FinalIncorrectHtlcAmount
        else if payload.outgoingCltv != htlc.outgoingExpiry then FinalExpiryTooSoon
        else ToRegistry(payload)
  }

  /** The height that Run has settled on after these reports: the highest one of any node. */
  method TrackHeight(first: int, received: seq<int>) returns (height: int)
    ensures height == first || height in received
    ensures first <= height && forall j :: 0 <= j < |received| ==> received[j] <= height
  {
    height := first;
    var i := 0;
    while i < |received|
      invariant 0 <= i <= |received|
      invariant height == first || height in received[..i]
      invariant first <= height && forall j :: 0 <= j < i ==> received[j] <= height
    {
      if received[i] > height {
        height := received[i];
      }
      i := i + 1;
    }
  }

  /** The fee of a part, rounded down, as the section "HTLC Fees" of BOLT 07 defines it. */
  function FeeOf(p: RoutingPolicy, outgoing: int): int {
    p.feeBaseMsat + (p.feeRatePpm * outgoing) / 1_000_000
  }

  /** The fee of this amount can be computed without overflow. */
  ghost predicate NoFeeOverflow(p: RoutingPolicy, outgoing: uint64) {
    && p.feeBaseMsat >= 0 && p.feeRatePpm >= 0
    && p.feeRatePpm * outgoing < TWO_64
    && outgoing + FeeOf(p, outgoing) < TWO_64
  }

  /** The expiry with the delta can be computed without overflow. */
  ghost predicate NoCltvOverflow(p: RoutingPolicy, outgoingExpiry: uint32) {
    p.cltvDelta >= 0 && outgoingExpiry + p.cltvDelta < TWO_32
  }

  lemma ProductNotNegative(a: int, b: int)
    requires a >= 0 && b >= 0
    ensures a * b >= 0
  {
  }

  /** Absent overflow, the 64 bit fee is the mathematical one. */
  lemma FeeExact(p: RoutingPolicy, outgoing: uint64)
    requires NoFeeOverflow(p, outgoing)
    ensures ExpectedFee(p, outgoing) == FeeOf(p, outgoing) >= 0
  {
    hide ToUint64;
    ProductNotNegative(p.feeRatePpm, outgoing);
    assert ToUint64(p.feeRatePpm) == p.feeRatePpm;
  }

  /** Absent overflow, an htlc that passes pays the amount and the fee and leaves the delta between
      its expiries; and it is forwarded as its sender intended. */
  lemma GatePassedPaysFee(p: RoutingPolicy, htlc: Htlc)
    requires ProcessHtlc(p, htlc).ToRegistry?
    ensures NoFeeOverflow(p, htlc.outgoingAmountMsat) ==>
              htlc.incomingAmountMsat >= htlc.outgoingAmountMsat + FeeOf(p, htlc.outgoingAmountMsat)
    ensures NoCltvOverflow(p, htlc.outgoingExpiry) ==> htlc.incomingExpiry >= htlc.outgoingExpiry + p.cltvDelta
    ensures htlc.onion.Decoded? && ProcessHtlc(p, htlc).payload == htlc.onion.payload
    ensures htlc.onion.payload.amountToForward == htlc.outgoingAmountMsat
    ensures htlc.onion.payload.outgoingCltv == htlc.outgoingExpiry
  {
    if NoFeeOverflow(p, htlc.outgoingAmountMsat) {
      FeeExact(p, htlc.outgoingAmountMsat);
    }
    hide ToUint64, ToUint32, ExpectedFee, FeeOf;
  }

  /** The htlc brings in too little, or leaves too little time. */
  ghost predicate FallsShort(p: RoutingPolicy, htlc: Htlc) {
    || htlc.incomingAmountMsat < htlc.outgoingAmountMsat + FeeOf(p, htlc.outgoingAmountMsat)
    || htlc.incomingExpiry < htlc.outgoingExpiry + p.cltvDelta
  }

  /** The onion failed with this code. */
  predicate OnionFails(onion: Onion, code: FailCode) {
    onion == Undecodable(code) || onion == NoErrorEncrypter(code)
  }

  /** Every verdict of the gate, absent overflow. A shortfall is a temporary channel failure whatever
      the onion; the process ends only for a payload that cannot be read or a code that lnd does not
      know; and the registry sees exactly the htlcs that pay and are forwarded as intended. */
  lemma GateVerdicts(p: RoutingPolicy, htlc: Htlc)
    requires NoFeeOverflow(p, htlc.outgoingAmountMsat) && NoCltvOverflow(p, htlc.outgoingExpiry)
    ensures FallsShort(p, htlc) ==> ProcessHtlc(p, htlc) == FailHtlc(RpcTemporaryChannelFailure)
    ensures !FallsShort(p, htlc) && OnionFails(htlc.onion, InvalidOnionHmac) ==>
              ProcessHtlc(p, htlc) == FailHtlc(RpcInvalidOnionHmac)
    ensures !FallsShort(p, htlc) && OnionFails(htlc.onion, InvalidOnionVersion) ==>
              ProcessHtlc(p, htlc) == FailHtlc(RpcInvalidOnionVersion)
    ensures !FallsShort(p, htlc) && OnionFails(htlc.onion, InvalidOnionKey) ==>
              ProcessHtlc(p, htlc) == FailHtlc(RpcInvalidOnionKey)
    ensures !FallsShort(p, htlc) &&
            (OnionFails(htlc.onion, FeeInsufficient) || OnionFails(htlc.onion, IncorrectCltvExpiry)) ==>
              ProcessHtlc(p, htlc) == FailHtlc(RpcTemporaryChannelFailure)
    ensures ProcessHtlc(p, htlc) == StopMux <==>
              !FallsShort(p, htlc) && (htlc.onion.PayloadError? || exists n :: OnionFails(htlc.onion, OtherFailCode(n)))
    ensures ProcessHtlc(p, htlc) == FinalIncorrectHtlcAmount <==>
              && !FallsShort(p, htlc) && htlc.onion.Decoded?
              && htlc.onion.payload.amountToForward != htlc.outgoingAmountMsat
    ensures ProcessHtlc(p, htlc) == FinalExpiryTooSoon <==>
              && !FallsShort(p, htlc) && htlc.onion.Decoded?
              && htlc.onion.payload.amountToForward == htlc.outgoingAmountMsat
              && htlc.onion.payload.outgoingCltv != htlc.outgoingExpiry
    ensures ProcessHtlc(p, htlc).ToRegistry? <==>
              && !FallsShort(p, htlc) && htlc.onion.Decoded?
              && htlc.onion.payload.amountToForward == htlc.outgoingAmountMsat
              && htlc.onion.payload.outgoingCltv == htlc.outgoingExpiry
  {
    FeeExact(p, htlc.outgoingAmountMsat);
    hide ToUint64, ToUint32, ExpectedFee, FeeOf;
    assert forall n :: OnionFails(htlc.onion, OtherFailCode(n)) ==>
      (htlc.onion.Undecodable? || htlc.onion.NoErrorEncrypter?) && htlc.onion.code == OtherFailCode(n);
    if (htlc.onion.Undecodable? || htlc.onion.NoErrorEncrypter?) && htlc.onion.code.OtherFailCode? {
      assert OnionFails(htlc.onion, OtherFailCode(htlc.onion.code.code));
    }
  }

  /** Even with overflow the process ends only for an onion that lnd cannot be told about. */
  lemma OnlyOnionStopsMux(p: RoutingPolicy, htlc: Htlc)
    requires ProcessHtlc(p, htlc) == StopMux
    ensures htlc.onion.PayloadError? || exists n :: OnionFails(htlc.onion, OtherFailCode(n))
  {
    hide ToUint64, ToUint32, ExpectedFee;
    if !htlc.onion.PayloadError? {
      assert OnionFails(htlc.onion, OtherFailCode(htlc.onion.code.code));
    }
  }

  /** Per-part rounding loses less than one unit per part. */
  lemma FeeSplits(p: RoutingPolicy, a: int, b: int)
    ensures (p.feeRatePpm * a) / 1_000_000 + (p.feeRatePpm * b) / 1_000_000 >= (p.feeRatePpm * (a + b)) / 1_000_000 - 1
  {
    var x, y := p.feeRatePpm * a, p.feeRatePpm * b;
    assert p.feeRatePpm * (a + b) == x + y;
    assert x / 1_000_000 + y / 1_000_000 >= (x + y) / 1_000_000 - 1;
  }

  /** What n parts of a payment must bring in at least. */
  function LeastIncoming(p: RoutingPolicy, amount: int, n: nat): int {
    amount + n * p.feeBaseMsat + (p.feeRatePpm * amount) / 1_000_000 - (n - 1)
  }

  lemma OnePartMore(p: RoutingPolicy, amount: int, rest: int, n: nat)
    ensures amount + FeeOf(p, amount) + LeastIncoming(p, rest, n) >= LeastIncoming(p, amount + rest, n + 1)
  {
    FeeSplits(p, amount, rest);
    assert (n + 1) * p.feeBaseMsat == n * p.feeBaseMsat + p.feeBaseMsat;
  }

  lemma LastPart(m: map<HtlcKey, int>, k: HtlcKey)
    requires k in m
    ensures |m| == |m - {k}| + 1
  {
    assert m.Keys == (m - {k}).Keys + {k};
  }

  /** When every part of a payment pays its own fee, the parts together pay at least the fee of the
      whole, less one unit for every part but the first. */
  lemma {:induction false} PartsPayFee(p: RoutingPolicy, amounts: map<HtlcKey, int>, incoming: map<HtlcKey, int>)
    requires amounts.Keys == incoming.Keys && amounts != map[]
    requires forall k :: k in amounts ==> incoming[k] >= amounts[k] + FeeOf(p, amounts[k])
    ensures Sum(incoming) >= LeastIncoming(p, Sum(amounts), |amounts|)
    decreases |amounts|
  {
    var k :| k in amounts;
    var amounts', incoming' := amounts - {k}, incoming - {k};
    SumRemove(amounts, k);
    SumRemove(incoming, k);
    LastPart(amounts, k);
    if amounts' == map[] {
      assert incoming'.Keys == amounts'.Keys;
      assert incoming' == map[];
      assert LeastIncoming(p, amounts[k], 1) == amounts[k] + FeeOf(p, amounts[k]);
    } else {
      assert incoming'.Keys == amounts'.Keys;
      PartsPayFee(p, amounts', incoming');
      OnePartMore(p, amounts[k], Sum(amounts'), |amounts'|);
    }
  }
}
