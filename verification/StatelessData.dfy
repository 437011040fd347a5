/** The stateless payment address: sixteen random bytes, the expiry and the amount.
    The preimage of an invoice is re-derived from its address. */
module StatelessData {
  import opened Types
  import opened ByteOrder

  datatype StatelessInvoice = StatelessInvoice(amtMsat: int64, expiry: Time, preimage: Preimage)

  datatype EncodeResult = Encoded(addr: PaymentAddr, preimage: Preimage) | RandomSourceFailed

  /** Time.Unix(): whole seconds since the epoch, rounded down. */
  function Unix(t: Time): int {
    t / SECOND
  }

  /** Go stores the seconds of a time as a 64 bit integer. */
  ghost predicate Representable(t: Time) {
    -TWO_63 <= Unix(t) < TWO_63
  }

  function AddressBytes(random: seq<byte>, amtMsat: int64, expiry: Time): (addr: PaymentAddr)
    requires |random| == 16
  {
    random + PutUint64(ToUint64(Unix(expiry))) + PutUint64(ToUint64(amtMsat))
  }

  /** encodeStatelessData: fill the address buffer and derive the preimage. `random` is what
      the random source returns, or None when reading from it fails. */
  method EncodeStatelessData(privKey: seq<byte>, random: Option<seq<byte>>, amtMsat: int64, expiry: Time)
    returns (r: EncodeResult)
    requires random.Some? ==> |random.value| == 16
    ensures random.None? <==> r.RandomSourceFailed?
    ensures r.Encoded? ==> r.addr == AddressBytes(random.value, amtMsat, expiry)
    ensures r.Encoded? ==> r.preimage == DecodeStatelessData(privKey, r.addr).preimage
    ensures r.Encoded? ==> r.addr[..16] == random.value
    ensures r.Encoded? ==> forall i :: 0 <= i < 8 ==>
              && r.addr[16 + i] == ByteOf(ToUint64(Unix(expiry)), i)
              && r.addr[24 + i] == ByteOf(ToUint64(amtMsat), i)
    ensures r.Encoded? ==> DecodeStatelessData(privKey, r.addr).amtMsat == amtMsat
    ensures r.Encoded? && Representable(expiry) ==>
              DecodeStatelessData(privKey, r.addr).expiry == expiry - expiry % SECOND
  {
    var addr := new byte[32](_ => 0);
    if random.None? {
      return RandomSourceFailed;
    }
    WriteBytes(addr, 0, random.value);
    WriteBytes(addr, 16, PutUint64(ToUint64(Unix(expiry))));
    WriteBytes(addr, 24, PutUint64(ToUint64(amtMsat)));
    ghost var want := AddressBytes(random.value, amtMsat, expiry);
    assert addr[..] == addr[0..16] + addr[16..24] + addr[24..32];
    assert addr[..] == want;
    r := Encoded(addr[..], Hmac(privKey, addr[..]));
    if Representable(expiry) {
      StatelessRoundTrip(privKey, random.value, amtMsat, expiry);
    }
    AmountRoundTrip(random.value, amtMsat, expiry);
    AddressLayout(random.value, amtMsat, expiry);
  }

  /** Random bytes first, then the expiry in seconds and the amount, most significant byte first. */
  lemma AddressLayout(random: seq<byte>, amtMsat: int64, expiry: Time)
    requires |random| == 16
    ensures var addr := AddressBytes(random, amtMsat, expiry);
            && addr[..16] == random
            && forall i :: 0 <= i < 8 ==>
                 && addr[16 + i] == ByteOf(ToUint64(Unix(expiry)), i)
                 && addr[24 + i] == ByteOf(ToUint64(amtMsat), i)
  {
    var addr := AddressBytes(random, amtMsat, expiry);
    forall i | 0 <= i < 8
      ensures addr[16 + i] == ByteOf(ToUint64(Unix(expiry)), i)
      ensures addr[24 + i] == ByteOf(ToUint64(amtMsat), i)
    {
      PutUint64Bytes(ToUint64(Unix(expiry)), i);
      PutUint64Bytes(ToUint64(amtMsat), i);
    }
  }

  method WriteBytes(buffer: array<byte>, at: nat, data: seq<byte>)
    requires at + |data| <= buffer.Length
    modifies buffer
    ensures buffer[at..at + |data|] == data
    ensures buffer[..at] == old(buffer[..at])
    ensures buffer[at + |data|..] == old(buffer[at + |data|..])
  {
    var i := 0;
    while i < |data|
      invariant 0 <= i <= |data|
      invariant buffer[at..at + i] == data[..i]
      invariant buffer[..at] == old(buffer[..at])
      invariant buffer[at + |data|..] == old(buffer[at + |data|..])
    {
      buffer[at + i] := data[i];
      i := i + 1;
    }
  }

  /** decodeStatelessData */
  function DecodeStatelessData(privKey: seq<byte>, addr: PaymentAddr): StatelessInvoice {
    StatelessInvoice(
      ToInt64(Uint64(addr[24..32])),
      ToInt64(Uint64(addr[16..24])) * SECOND,
      Hmac(privKey, addr))
  }

  lemma AmountRoundTrip(random: seq<byte>, amtMsat: int64, expiry: Time)
    requires |random| == 16
    ensures ToInt64(Uint64(AddressBytes(random, amtMsat, expiry)[24..32])) == amtMsat
    ensures AddressBytes(random, amtMsat, expiry)[..16] == random
  {
    var addr := AddressBytes(random, amtMsat, expiry);
    assert addr[24..32] == PutUint64(ToUint64(amtMsat));
    Uint64RoundTrip(ToUint64(amtMsat), addr[24..32]);
    TwosComplement(amtMsat);
  }

  lemma TwosComplement(n: int64)
    ensures ToInt64(ToUint64(n)) == n
  {
    if n < 0 {
      assert n % TWO_64 == n + TWO_64;
    }
  }

  /** Decoding an encoded address returns the amount, the expiry truncated to seconds and
      the preimage that was handed out with the address. */
  lemma StatelessRoundTrip(privKey: seq<byte>, random: seq<byte>, amtMsat: int64, expiry: Time)
    requires |random| == 16 && Representable(expiry)
    ensures var addr := AddressBytes(random, amtMsat, expiry);
            DecodeStatelessData(privKey, addr)
            == StatelessInvoice(amtMsat, expiry - expiry % SECOND, Hmac(privKey, addr))
  {
    var addr := AddressBytes(random, amtMsat, expiry);
    AmountRoundTrip(random, amtMsat, expiry);
    assert addr[16..24] == PutUint64(ToUint64(Unix(expiry)));
    Uint64RoundTrip(ToUint64(Unix(expiry)), addr[16..24]);
    TwosComplement(Unix(expiry));
  }

  /** Every address is the encoding of what decoding it returns. */
  lemma AddressRoundTrip(privKey: seq<byte>, addr: PaymentAddr)
    ensures var d := DecodeStatelessData(privKey, addr);
            addr == AddressBytes(addr[..16], d.amtMsat, d.expiry)
  {
    var d := DecodeStatelessData(privKey, addr);
    Uint64RoundTrip(0, addr[16..24]);
    Uint64RoundTrip(0, addr[24..32]);
    assert Unix(d.expiry) == ToInt64(Uint64(addr[16..24]));
    assert ToUint64(ToInt64(Uint64(addr[16..24]))) == Uint64(addr[16..24]);
    assert ToUint64(ToInt64(Uint64(addr[24..32]))) == Uint64(addr[24..32]);
    assert addr == addr[..16] + addr[16..24] + addr[24..32];
  }

  /** Addresses, and with them preimages and payment hashes, are shared only by invoices that
      agree on the random bytes, the amount and the expiry second. */
  lemma AddressesDistinct(privKey: seq<byte>, r1: seq<byte>, a1: int64, e1: Time, r2: seq<byte>, a2: int64, e2: Time)
    requires |r1| == |r2| == 16 && Representable(e1) && Representable(e2)
    ensures Sha256(Hmac(privKey, AddressBytes(r1, a1, e1))) == Sha256(Hmac(privKey, AddressBytes(r2, a2, e2)))
            <==> r1 == r2 && a1 == a2 && Unix(e1) == Unix(e2)
  {
    AmountRoundTrip(r1, a1, e1);
    AmountRoundTrip(r2, a2, e2);
    StatelessRoundTrip(privKey, r1, a1, e1);
    StatelessRoundTrip(privKey, r2, a2, e2);
  }
}
