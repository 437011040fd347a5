/** The values that the components of the multiplexer exchange: machine integers,
    htlc keys, payment hashes and the statuses stored in the database.

    Hash functions are represented by free constructors: two digests are equal
    exactly when the values fed to the digest are equal. */
module Types {
  type byte = b: int | 0 <= b < 256

  const TWO_32: int := 0x1_0000_0000
  const TWO_63: int := 0x8000_0000_0000_0000
  const TWO_64: int := 0x1_0000_0000_0000_0000

  type uint32 = n: int | 0 <= n < 0x1_0000_0000
  type uint64 = n: int | 0 <= n < 0x1_0000_0000_0000_0000
  type int64 = n: int | -0x8000_0000_0000_0000 <= n < 0x8000_0000_0000_0000
  type int32 = n: int | -0x8000_0000 <= n < 0x8000_0000

  /** Conversion to an unsigned 64 bit integer keeps the low 64 bits. */
  function ToUint64(n: int): (r: uint64)
    ensures 0 <= n < TWO_64 ==> r == n
    ensures -TWO_64 <= n < 0 ==> r == n + TWO_64
  {
    n % TWO_64
  }

  /** Conversion to a signed 64 bit integer reads the low 64 bits as two's complement. */
  function ToInt64(n: int): (r: int64)
    ensures -TWO_63 <= n < TWO_63 ==> r == n
    ensures TWO_63 <= n < TWO_64 ==> r == n - TWO_64
  {
    var u := n % TWO_64;
    if u < TWO_63 then u else u - TWO_64
  }

  function ToUint32(n: int): (r: uint32)
    ensures 0 <= n < TWO_32 ==> r == n
  {
    n % TWO_32
  }

  /** Signed 32 bit arithmetic wraps around. */
  function ToInt32(n: int): (r: int32)
    ensures -0x8000_0000 <= n < 0x8000_0000 ==> r == n
  {
    var u := n % TWO_32;
    if u < 0x8000_0000 then u else u - TWO_32
  }

  datatype Option<+T> = None | Some(value: T)

  type PubKey = s: seq<byte> | |s| == 33 witness seq(33, _ => 0)
  type PaymentAddr = s: seq<byte> | |s| == 32 witness seq(32, _ => 0)

  datatype HtlcKey = HtlcKey(node: PubKey, chanID: uint64, htlcID: uint64)

  /** A preimage is the keyed mac of a payment address. */
  datatype Preimage = Hmac(privKey: seq<byte>, message: seq<byte>)

  /** Either the digest of a preimage or a digest of which no preimage is known. */
  datatype Hash = Sha256(preimage: Preimage) | ForeignHash(id: nat)

  /** Invoices and htlcs share the same three states. */
  datatype Status = SettleRequested | Settled | Failed {
    predicate IsFinal() {
      Settled? || Failed?
    }
  }

  function FinalStatus(settled: bool): Status {
    if settled then Settled else Failed
  }

  /** Points in time and durations, in nanoseconds. */
  type Time = int

  const SECOND: int := 1_000_000_000

  /** A non-negative duration; Go counts nanoseconds in 64 bits. */
  type Duration = n: int | 0 <= n < 0x8000_0000_0000_0000

  ghost predicate NoDuplicates<T(!new)>(s: seq<T>) {
    forall i, j :: 0 <= i < j < |s| ==> s[i] != s[j]
  }

  /** A duplicate-free list of exactly the elements of a set. */
  ghost predicate Enumerates<T(!new)>(s: seq<T>, elements: set<T>) {
    NoDuplicates(s) && (forall x :: x in s <==> x in elements)
  }

  /** Some enumeration of a set: Go leaves the iteration order of a map open. */
  ghost function Enumerate<T(!new)>(elements: set<T>): (s: seq<T>)
    ensures Enumerates(s, elements)
  {
    if elements == {} then [] else
      var x :| x in elements;
      [x] + Enumerate(elements - {x})
  }

  /** The iteration order chosen by a run, or any order when the choice is not an enumeration. */
  ghost function Ordered<T(!new)>(order: seq<T>, elements: set<T>): (s: seq<T>)
    ensures Enumerates(s, elements)
    ensures Enumerates(order, elements) ==> s == order
  {
    if Enumerates(order, elements) then order else Enumerate(elements)
  }
}
