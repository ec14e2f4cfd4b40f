/**
 * The address generator of `tests/system/gen_ula.py`: the Modified EUI-64
 * interface identifier of Appendix A of RFC 4291, the Unique Local IPv6
 * Unicast Address layout of section 3.1 of RFC 4193 (prefix fd00::/8, a
 * 40-bit global ID, a 16-bit subnet ID, the 64-bit interface ID), the NTP
 * timestamp fed to the hash, and the `--network` mode that puts the
 * interface ID on a given network.
 *
 * Python integers are unbounded and its `>>`, `&`, `^` and `|` work on
 * two's complement; the model writes each operation as the arithmetic it
 * amounts to on the bit ranges involved, and spells bitwise OR out where the
 * ranges may overlap.
 */
module GenUla {
  import opened Wrappers
  import opened Text

  newtype byte = x: int | 0 <= x < 0x100

  /** `b'\xfd'`: L = 1 under the prefix fc00::/7. */
  const LocalPrefix: byte := 0xFD
  /** Seconds from 1900-01-01 (the NTP epoch) to 1970-01-01. */
  const NtpEpochOffset := 2208988800
  const InterfacePrefixLength := 64
  /** The universal/local bit: 0x02 of the first octet, bit 17 of the 24-bit company ID. */
  const UniversalLocalBit := 0x20000

  const Two32 := 0x1_0000_0000
  const Two48 := 0x1_0000_0000_0000
  const Two64 := 0x1_0000_0000_0000_0000
  const Two128 := Two64 * Two64

  function Pow2(n: nat): (r: nat)
    ensures r >= 1
  {
    if n == 0 then 1 else 2 * Pow2(n - 1)
  }

  lemma {:induction false} Pow2Add(a: nat, b: nat)
    ensures Pow2(a + b) == Pow2(a) * Pow2(b)
    decreases a
  {
    if a > 0 {
      Pow2Add(a - 1, b);
    }
  }

  // ---------------------------------------------------------------------------
  // `int.to_bytes(length, 'big')` and `int.from_bytes(bs, 'big')`
  // ---------------------------------------------------------------------------

  function Pow256(length: nat): (r: nat)
    ensures r >= 1
  {
    if length == 0 then 1 else 256 * Pow256(length - 1)
  }

  /** The value of big-endian bytes. */
  function FromBytes(bs: seq<byte>): (r: nat)
    ensures r < Pow256(|bs|)
  {
    if |bs| == 0 then 0 else FromBytes(bs[..|bs| - 1]) * 256 + bs[|bs| - 1] as int
  }

  /** The low `length` bytes of `n`, most significant first. */
  function Digits(n: nat, length: nat): (r: seq<byte>)
    ensures |r| == length
  {
    if length == 0 then [] else Digits(n / 256, length - 1) + [(n % 256) as byte]
  }

  /** `n.to_bytes(length, 'big')`, raising `OverflowError` for a negative or too large `n`. */
  function ToBytes(n: int, length: nat): (r: Result<seq<byte>, string>)
    ensures r.Ok? <==> 0 <= n < Pow256(length)
    ensures r.Ok? ==> |r.value| == length
  {
    if n < 0 then Err("can't convert negative int to unsigned")
    else if n >= Pow256(length) then Err("int too big to convert")
    else Ok(Digits(n, length))
  }

  lemma {:induction false} DigitsValue(n: nat, length: nat)
    requires n < Pow256(length)
    ensures FromBytes(Digits(n, length)) == n
  {
    if length > 0 {
      DigitsValue(n / 256, length - 1);
      var d := Digits(n, length);
      assert d[..|d| - 1] == Digits(n / 256, length - 1);
    }
  }

  /** Encoding a value that fits, then decoding it, gives the value back. */
  lemma ToBytesRoundTrip(n: int, length: nat)
    requires ToBytes(n, length).Ok?
    ensures FromBytes(ToBytes(n, length).value) == n
  {
    DigitsValue(n, length);
  }

  /** Decoding bytes, then encoding the value in as many bytes, gives the bytes back. */
  lemma {:induction false} FromBytesRoundTrip(bs: seq<byte>)
    ensures ToBytes(FromBytes(bs), |bs|) == Ok(bs)
  {
    if |bs| > 0 {
      var init := bs[..|bs| - 1];
      FromBytesRoundTrip(init);
      var n := FromBytes(bs);
      assert n / 256 == FromBytes(init);
      assert (n % 256) as byte == bs[|bs| - 1];
      assert Digits(n, |bs|) == Digits(FromBytes(init), |init|) + [bs[|bs| - 1]];
      assert init + [bs[|bs| - 1]] == bs;
    }
  }

  /** Division with a remainder in range is unique. */
  lemma DivUnique(n: int, d: int, q: int, r: int)
    requires d > 0 && 0 <= r < d && n == q * d + r
    ensures n / d == q && n % d == r
  {
    var q' := n / d;
    if q' > q {
      MulAtLeast(q' - q, d);
    } else if q' < q {
      MulAtLeast(q - q', d);
    }
  }

  lemma MulAtLeast(x: int, d: int)
    requires x >= 1 && d > 0
    ensures x * d >= d
  {
  }

  // ---------------------------------------------------------------------------
  // The Modified EUI-64
  // ---------------------------------------------------------------------------

  /** `company_id ^ 0x020000`: bit 17 flipped, in two's complement (Dafny's `/` and `%` floor for a positive divisor). */
  function FlipUniversalLocal(companyId: int): (r: int)
    ensures (r / UniversalLocalBit) % 2 != (companyId / UniversalLocalBit) % 2
  {
    if (companyId / UniversalLocalBit) % 2 == 1 then companyId - UniversalLocalBit else companyId + UniversalLocalBit
  }

  /**
   * `eui48_to_meui64`: `company_id = eui48 >> 24` and `mfg_id = eui48 &
   * 0xffffff`; the flipped company ID shifted left by 40 (its low 40 bits
   * zero), `0xfffe000000` (bits 25 to 39) and `mfg_id` (bits 0 to 23) share
   * no bit, so their `|` is their sum.
   */
  function Meui64(eui48: int): (r: int)
    ensures r % 0x100_0000 == eui48 % 0x100_0000
    ensures (r / 0x100_0000) % 0x1_0000 == 0xFFFE
  {
    var f := FlipUniversalLocal(eui48 / 0x100_0000);
    var id := eui48 % 0x100_0000;
    DivUnique(f * 0x100_0000_0000 + 0xFFFE * 0x100_0000 + id, 0x100_0000, f * 0x1_0000 + 0xFFFE, id);
    DivUnique(f * 0x1_0000 + 0xFFFE, 0x1_0000, f, 0xFFFE);
    f * 0x100_0000_0000 + 0xFFFE * 0x100_0000 + id
  }

  /** The EUI-48 a Modified EUI-64 was made from: the top bits flipped back above the low 24. */
  function Eui48Of(meui64: int): int {
    FlipUniversalLocal(meui64 / 0x100_0000_0000) * 0x100_0000 + meui64 % 0x100_0000
  }

  lemma FlipTwice(c: int)
    ensures FlipUniversalLocal(FlipUniversalLocal(c)) == c
  {
    var b := (c / UniversalLocalBit) % 2;
    if b == 1 {
      assert (c - UniversalLocalBit) / UniversalLocalBit == c / UniversalLocalBit - 1;
    } else {
      assert (c + UniversalLocalBit) / UniversalLocalBit == c / UniversalLocalBit + 1;
    }
  }

  /**
   * For a 48-bit EUI-48 the Modified EUI-64 is a 64-bit value whose bits 24
   * to 39 are 0xFFFE, whose low 24 bits are the EUI-48's, and whose top 24
   * bits are the company ID with the universal/local bit flipped.
   */
  lemma Meui64Layout(eui48: int)
    requires 0 <= eui48 < Two48
    ensures var m := Meui64(eui48);
      0 <= m < Two64 &&
      (m / 0x100_0000) % 0x1_0000 == 0xFFFE &&
      m % 0x100_0000 == eui48 % 0x100_0000 &&
      m / 0x100_0000_0000 == FlipUniversalLocal(eui48 / 0x100_0000) &&
      0 <= m / 0x100_0000_0000 < 0x100_0000
  {
    var c := eui48 / 0x100_0000;
    var f := FlipUniversalLocal(c);
    var id := eui48 % 0x100_0000;
    assert 0 <= c < 0x100_0000;
    assert 0 <= f < 0x100_0000;
    var m := Meui64(eui48);
    DivUnique(m, 0x100_0000_0000, f, 0xFFFE * 0x100_0000 + id);
    DivUnique(m, 0x100_0000, f * 0x1_0000 + 0xFFFE, id);
    DivUnique(f * 0x1_0000 + 0xFFFE, 0x1_0000, f, 0xFFFE);
  }

  /** `Eui48Of` undoes `eui48_to_meui64` for every integer. */
  lemma Meui64RoundTrip(eui48: int)
    ensures Eui48Of(Meui64(eui48)) == eui48
  {
    var c := eui48 / 0x100_0000;
    var f := FlipUniversalLocal(c);
    var low := 0xFFFE * 0x100_0000 + eui48 % 0x100_0000;
    assert 0 <= low < 0x100_0000_0000;
    var m := Meui64(eui48);
    assert m / 0x100_0000_0000 == f;
    assert m % 0x100_0000 == eui48 % 0x100_0000 by {
      assert m == (f * 0x1_0000 + 0xFFFE) * 0x100_0000 + eui48 % 0x100_0000;
    }
    FlipTwice(c);
  }

  /** Different EUI-48s give different interface identifiers. */
  lemma Meui64Injective(a: int, b: int)
    requires Meui64(a) == Meui64(b)
    ensures a == b
  {
    Meui64RoundTrip(a);
    Meui64RoundTrip(b);
  }

  // ---------------------------------------------------------------------------
  // The NTP timestamp hashed into the global ID
  // ---------------------------------------------------------------------------

  const NanosPerSecond := 1_000_000_000

  /** `ns_fix32 = (nanoseconds * 2**32) // 1000000000`: the fraction in units of 2^-32 s, rounded down. */
  function Fix32(nanoseconds: int): int {
    nanoseconds * 0x1_0000_0000 / NanosPerSecond
  }

  /**
   * The whole seconds of the timestamp as the 32-bit NTP era-0 count; it
   * fits from 1900-01-01 up to (not including) 2036-02-07 06:28:16 UTC.
   */
  function NtpSeconds(seconds: int): (r: Result<seq<byte>, string>)
    ensures r.Ok? <==> -NtpEpochOffset <= seconds < 2085978496
    ensures r.Ok? ==> |r.value| == 4 && FromBytes(r.value) == seconds + NtpEpochOffset
  {
    var r := ToBytes(seconds + NtpEpochOffset, 4);
    if r.Ok? then ToBytesRoundTrip(seconds + NtpEpochOffset, 4); r else r
  }

  /**
   * The 8 bytes hashed first, as written: `seconds` and `nanoseconds` are
   * the integer part and the rounded nanoseconds of the fractional part
   * that `math.modf` splits the timestamp into.
   */
  function NtpStampAsWritten(seconds: int, nanoseconds: int): (r: Result<seq<byte>, string>)
    ensures r.Ok? ==> |r.value| == 8
  {
    var hi := NtpSeconds(seconds);
    if hi.Err? then Err(hi.error)
    else
      var lo := ToBytes(Fix32(nanoseconds), 4);
      if lo.Err? then Err(lo.error) else Ok(hi.value + lo.value)
  }

  /** The 32-bit fraction fits exactly when the nanoseconds are a proper fraction of a second. */
  lemma FractionFits(nanoseconds: int)
    ensures ToBytes(Fix32(nanoseconds), 4).Ok? <==> 0 <= nanoseconds < NanosPerSecond
  {
    var f := Fix32(nanoseconds);
    assert Pow256(4) == 0x1_0000_0000;
    if nanoseconds < 0 {
      assert nanoseconds * 0x1_0000_0000 < 0;
    } else if nanoseconds >= NanosPerSecond {
      var n := nanoseconds * 0x1_0000_0000;
      assert n >= 0x1_0000_0000 * NanosPerSecond;
      assert f >= 0x1_0000_0000;
    } else {
      assert f < 0x1_0000_0000;
    }
  }

  /**
   * A fraction that rounds up to a whole second (`--time 0.9999999999`
   * gives 1000000000 nanoseconds) overflows the 4-byte field, and so does
   * every negative fraction (`--time -0.5`).
   */
  lemma FractionOverflowAsWritten()
    ensures NtpStampAsWritten(0, NanosPerSecond) == Err("int too big to convert")
    ensures NtpStampAsWritten(0, -500_000_000) == Err("can't convert negative int to unsigned")
  {
    assert Fix32(NanosPerSecond) == 0x1_0000_0000;
    assert Fix32(-500_000_000) == -0x8000_0000;
  }

  /**
   * The timestamp normalised first: the rounded nanoseconds carried into
   * the seconds (floor division, so a negative fraction borrows a second),
   * then packed as NTP seconds and a 32-bit fraction.
   */
  function NtpStamp(seconds: int, nanoseconds: int): (r: Result<seq<byte>, string>)
    ensures var total := seconds * NanosPerSecond + nanoseconds;
      r.Ok? <==> -NtpEpochOffset <= total / NanosPerSecond < 2085978496
    ensures var total := seconds * NanosPerSecond + nanoseconds;
      r.Ok? ==> (|r.value| == 8 &&
                 FromBytes(r.value[..4]) == total / NanosPerSecond + NtpEpochOffset &&
                 FromBytes(r.value[4..]) == Fix32(total % NanosPerSecond))
  {
    var total := seconds * NanosPerSecond + nanoseconds;
    var hi := NtpSeconds(total / NanosPerSecond);
    if hi.Err? then Err(hi.error)
    else
      FractionFits(total % NanosPerSecond);
      var lo := ToBytes(Fix32(total % NanosPerSecond), 4);
      ToBytesRoundTrip(Fix32(total % NanosPerSecond), 4);
      assert (hi.value + lo.value)[..4] == hi.value;
      assert (hi.value + lo.value)[4..] == lo.value;
      Ok(hi.value + lo.value)
  }

  /** Wherever the timestamp as written succeeds, the normalised one hashes the same bytes. */
  lemma NtpStampAgrees(seconds: int, nanoseconds: int)
    requires NtpStampAsWritten(seconds, nanoseconds).Ok?
    ensures NtpStamp(seconds, nanoseconds) == NtpStampAsWritten(seconds, nanoseconds)
  {
    FractionFits(nanoseconds);
    DivUnique(seconds * NanosPerSecond + nanoseconds, NanosPerSecond, seconds, nanoseconds);
  }

  // ---------------------------------------------------------------------------
  // `unique_local_ipv6`
  // ---------------------------------------------------------------------------

  /** The exceptions the generator can raise. */
  datatype Failure =
    | OverflowError(message: string)
    | AddressValueError(message: string)
    | NetmaskValueError(message: string)
    | UsageError(message: string)

  /** An `ipaddress.IPv6Interface`: an address and a prefix length. */
  datatype Interface = Interface(address: nat, prefixlen: nat)

  /** `d[-5:]`: the last five bytes, or all of a shorter digest. */
  function LastFive(d: seq<byte>): (r: seq<byte>)
    ensures |r| == if |d| < 5 then |d| else 5
    ensures d == d[..|d| - |r|] + r
  {
    if |d| <= 5 then d else d[|d| - 5..]
  }

  /** `IPv6Interface((packed, prefixlen))`: 16 bytes in network order, anything else refused. */
  function InterfaceOfBytes(packed: seq<byte>, prefixlen: nat): (r: Result<Interface, Failure>)
    ensures r.Ok? <==> |packed| == 16
    ensures r.Ok? ==> r.value.prefixlen == prefixlen && ToBytes(r.value.address, 16) == Ok(packed)
  {
    if |packed| != 16 then Err(AddressValueError("Expected 16 octets, got " + NatToString(|packed|)))
    else
      FromBytesRoundTrip(packed);
      Ok(Interface(FromBytes(packed), prefixlen))
  }

  /**
   * `unique_local_ipv6(meui64, ts, subnet)`: hash the NTP timestamp and the
   * interface ID with `digest`, then lay out fd, the last five digest bytes
   * (the global ID), the subnet ID and the interface ID as a /64. The
   * `to_bytes` conversions fail in source order: the seconds, the fraction,
   * the interface ID, then the subnet ID. It succeeds exactly when the
   * timestamp is in NTP era 0, the interface ID fits 64 bits, the subnet ID
   * fits 16 bits and the digest is at least five bytes long.
   */
  function UniqueLocal(meui64: int, seconds: int, nanoseconds: int, subnet: int,
                       digest: seq<byte> -> seq<byte>): (r: Result<Interface, Failure>)
    ensures r.Ok? <==>
      NtpStamp(seconds, nanoseconds).Ok? && 0 <= meui64 < Pow256(8) && 0 <= subnet < 0x1_0000 &&
      |GlobalId(meui64, seconds, nanoseconds, digest)| == 5
    ensures NtpStamp(seconds, nanoseconds).Ok? && 0 <= meui64 < Pow256(8) && subnet >= 0x1_0000 ==>
      r == Err(OverflowError("int too big to convert"))
    ensures NtpStamp(seconds, nanoseconds).Ok? && 0 <= meui64 < Pow256(8) && subnet < 0 ==>
      r == Err(OverflowError("can't convert negative int to unsigned"))
  {
    var stamp := NtpStamp(seconds, nanoseconds);
    if stamp.Err? then Err(OverflowError(stamp.error))
    else
      var id := ToBytes(meui64, 8);
      if id.Err? then Err(OverflowError(id.error))
      else
        var d := digest(stamp.value + id.value);
        var sub := ToBytes(subnet, 2);
        if sub.Err? then Err(OverflowError(sub.error))
        else InterfaceOfBytes([LocalPrefix] + LastFive(d) + sub.value + id.value, InterfacePrefixLength)
  }

  /** The global ID: the last five bytes of the digest of the timestamp and the interface ID. */
  function GlobalId(meui64: int, seconds: int, nanoseconds: int, digest: seq<byte> -> seq<byte>): seq<byte>
    requires NtpStamp(seconds, nanoseconds).Ok? && 0 <= meui64 < Pow256(8)
  {
    LastFive(digest(NtpStamp(seconds, nanoseconds).value + ToBytes(meui64, 8).value))
  }

  /**
   * A generated address is fd, then the global ID, then the subnet ID, then
   * the interface ID, under prefix length 64.
   */
  lemma UniqueLocalLayout(meui64: int, seconds: int, nanoseconds: int, subnet: int,
                          digest: seq<byte> -> seq<byte>)
    requires UniqueLocal(meui64, seconds, nanoseconds, subnet, digest).Ok?
    ensures var i := UniqueLocal(meui64, seconds, nanoseconds, subnet, digest).value;
      var packed := ToBytes(i.address, 16);
      i.prefixlen == 64 && packed.Ok? &&
      packed.value[0] == 0xFD &&
      packed.value[1..6] == GlobalId(meui64, seconds, nanoseconds, digest) &&
      FromBytes(packed.value[6..8]) == subnet &&
      FromBytes(packed.value[8..]) == meui64
  {
    var id := ToBytes(meui64, 8).value;
    var sub := ToBytes(subnet, 2).value;
    ToBytesRoundTrip(meui64, 8);
    ToBytesRoundTrip(subnet, 2);
    var g := GlobalId(meui64, seconds, nanoseconds, digest);
    var packed := [LocalPrefix] + g + sub + id;
    assert packed[1..6] == g;
    assert packed[6..8] == sub;
    assert packed[8..] == id;
  }

  /** Two network interfaces with different EUI-48s never get the same address. */
  lemma DistinctInterfacesDistinctAddresses(e1: int, e2: int, seconds: int, nanoseconds: int, subnet: int,
                                            digest: seq<byte> -> seq<byte>)
    requires UniqueLocal(Meui64(e1), seconds, nanoseconds, subnet, digest).Ok?
    requires UniqueLocal(Meui64(e2), seconds, nanoseconds, subnet, digest).Ok?
    requires e1 != e2
    ensures UniqueLocal(Meui64(e1), seconds, nanoseconds, subnet, digest).value.address !=
            UniqueLocal(Meui64(e2), seconds, nanoseconds, subnet, digest).value.address
  {
    UniqueLocalLayout(Meui64(e1), seconds, nanoseconds, subnet, digest);
    UniqueLocalLayout(Meui64(e2), seconds, nanoseconds, subnet, digest);
    Meui64RoundTrip(e1);
    Meui64RoundTrip(e2);
  }

  // ---------------------------------------------------------------------------
  // `--network`: the interface ID on a given network
  // ---------------------------------------------------------------------------

  lemma Pow2Values()
    ensures Pow2(16) == 0x1_0000 && Pow2(32) == Two32 && Pow2(48) == Two48
    ensures Pow2(64) == Two64 && Pow2(128) == Two128 && Pow256(8) == Two64
  {
    assert Pow2(8) == 256;
    Pow2Add(8, 8);
    Pow2Add(16, 16);
    Pow2Add(16, 32);
    Pow2Add(32, 32);
    Pow2Add(64, 64);
  }

  /** An `ipaddress.IPv6Network`: its network address and prefix length. */
  datatype Network = Network(address: nat, prefixlen: nat)

  /** A 128-bit network address whose host bits, below the prefix, are all zero. */
  predicate ValidNetwork(n: Network) {
    n.prefixlen <= 128 && n.address < Two128 && n.address % Pow2(128 - n.prefixlen) == 0
  }

  /** `IPv6Network(x, strict=False)` for an already parsed address: the host bits cleared. */
  function NetworkOf(address: nat, prefixlen: nat): (r: Network)
    requires address < Two128 && prefixlen <= 128
    ensures ValidNetwork(r) && r.prefixlen == prefixlen
    ensures r.address <= address < r.address + Pow2(128 - prefixlen)
  {
    Network(RoundDown(address, Pow2(128 - prefixlen)), prefixlen)
  }

  /** `n` rounded down to a multiple of `d`: the largest one not above `n`. */
  function RoundDown(n: nat, d: nat): (r: nat)
    requires d >= 1
    ensures r % d == 0 && r <= n < r + d
  {
    DivMod(n, d);
    DivUnique(n / d * d, d, n / d, 0);
    n / d * d
  }

  /** Python's `|` on non-negative integers, bit by bit from the lowest. */
  function BitOr(a: nat, b: nat): nat
    decreases a
  {
    if a == 0 then b
    else if b == 0 then a
    else 2 * BitOr(a / 2, b / 2) + (if a % 2 == 1 || b % 2 == 1 then 1 else 0)
  }

  /** When `b` lies entirely below the low `k` bits that `a` leaves clear, `a | b == a + b`. */
  lemma {:induction false} DisjointOr(a: nat, b: nat, k: nat)
    requires a % Pow2(k) == 0 && b < Pow2(k)
    ensures BitOr(a, b) == a + b
    decreases k
  {
    if k > 0 && a != 0 && b != 0 {
      var q := a / Pow2(k);
      DivUnique(a, 2, q * Pow2(k - 1), 0);
      DivUnique(a / 2, Pow2(k - 1), q, 0);
      DisjointOr(a / 2, b / 2, k - 1);
    }
  }

  lemma DisjointOr64(a: nat, b: nat)
    requires a % Two64 == 0 && b < Two64
    ensures BitOr(a, b) == a + b
  {
    Pow2Values();
    DisjointOr(a, b, 64);
  }

  /**
   * The `--network` address as written: the network address ORed with the
   * Modified EUI-64, under the network's own prefix length, and refused by
   * `IPv6Interface` when negative or wider than 128 bits.
   */
  function OnNetworkAsWritten(net: Network, meui64: int): (r: Result<Interface, Failure>)
    requires ValidNetwork(net)
    ensures meui64 < 0 ==> r.Err?
    ensures 0 <= meui64 < Two64 && net.address % Two64 == 0 ==>
      r == Ok(Interface(net.address + meui64, net.prefixlen))
  {
    InterfaceIdFits(net, meui64);
    if meui64 < 0 then Err(AddressValueError("(< 0) is not permitted as an IPv6 address"))
    else
      var address := BitOr(net.address, meui64);
      if address >= Two128 then Err(AddressValueError(NatToString(address) + " (>= 2**128) is not permitted as an IPv6 address"))
      else Ok(Interface(address, net.prefixlen))
  }

  /** A 64-bit interface ID ORed into a network whose low 64 bits are clear is added to it and stays below 2**128. */
  lemma InterfaceIdFits(net: Network, meui64: int)
    requires ValidNetwork(net)
    ensures 0 <= meui64 < Two64 && net.address % Two64 == 0 ==>
      BitOr(net.address, meui64) == net.address + meui64 < Two128
  {
    if 0 <= meui64 < Two64 && net.address % Two64 == 0 {
      DisjointOr64(net.address, meui64);
      var q := net.address / Two64;
      assert net.address == q * Two64;
      if q >= Two64 {
        MulAtLeast(q - Two64 + 1, Two64);
      }
      assert net.address <= Two128 - Two64;
    }
  }

  /** fd00::/96. */
  const FdNetwork := Network(0xFD00_0000_0000_0000 * Two64, 96)

  lemma FdNetworkValid()
    ensures ValidNetwork(FdNetwork) && Pow2(128 - FdNetwork.prefixlen) == Two32
    ensures FdNetwork.address % Two64 == 0 && FdNetwork.address / Two32 == 0xFD00_0000_0000_0000 * Two32
  {
    Pow2Values();
    DivUnique(FdNetwork.address, Two32, 0xFD00_0000_0000_0000 * Two32, 0);
    DivUnique(FdNetwork.address, Two64, 0xFD00_0000_0000_0000, 0);
  }

  /**
   * On fd00::/96, the address made from any EUI-48 leaves the network: the
   * interface ID's bits 32 to 63 land inside the 96-bit prefix.
   */
  lemma LongPrefixLeavesNetwork(eui48: int)
    requires 0 <= eui48 < Two48
    ensures ValidNetwork(FdNetwork)
    ensures var r := OnNetworkAsWritten(FdNetwork, Meui64(eui48));
      r.Ok? && r.value.address / Pow2(128 - FdNetwork.prefixlen) != FdNetwork.address / Pow2(128 - FdNetwork.prefixlen)
  {
    FdNetworkValid();
    Meui64Layout(eui48);
    var a := FdNetwork.address;
    var m := Meui64(eui48);
    DisjointOr64(a, m);
    assert m >= Two32;
    DivMod(m, Two32);
    DivUnique(a + m, Two32, a / Two32 + m / Two32, m % Two32);
  }

  /** Euclidean division, as an equation. */
  lemma DivMod(n: int, d: int)
    requires d > 0
    ensures n == n / d * d + n % d && 0 <= n % d < d
  {
  }

  /**
   * Adding `m` below `l` to a multiple of `k * l` that stays under `h * k * l`
   * keeps the quotient by `k * l`, and leaves `m` as the remainder by `l`.
   */
  lemma AddBelow(q: nat, k: nat, l: nat, h: nat, m: nat)
    requires k >= 1 && l >= 1 && m < l && q < h
    ensures q * (k * l) + m < h * (k * l)
    ensures (q * (k * l) + m) / (k * l) == q && (q * (k * l)) / (k * l) == q
    ensures (q * (k * l) + m) % l == m && (q * (k * l)) % l == 0
  {
    var p := k * l;
    MulAtLeast(k, l);
    DivUnique(q * p + m, p, q, m);
    DivUnique(q * p, p, q, 0);
    assert q * p == (q * k) * l;
    DivUnique(q * p + m, l, q * k, m);
    DivUnique(q * p, l, q * k, 0);
    MulAtLeast(h - q, p);
    assert h * p == q * p + (h - q) * p;
  }

  /** A network address with `host` clear low bits, plus `m` below `l`, where `host == k * l` and the space is `h * host`. */
  lemma AddToNetwork(a: nat, m: nat, host: nat, k: nat, l: nat, h: nat)
    requires k >= 1 && l >= 1 && host == k * l && m < l
    requires a % host == 0 && a < h * host
    ensures a % l == 0 && a + m < h * host
    ensures (a + m) / host == a / host && (a + m) % l == m
  {
    var q := a / host;
    DivMod(a, host);
    assert a == q * host;
    assert q < h by {
      if q >= h {
        MulMono(h, q, host);
      }
    }
    AddBelow(q, k, l, h, m);
  }

  lemma Pow2Split(plen: nat)
    requires plen <= 64
    ensures Pow2(128 - plen) == Pow2(64 - plen) * Two64
    ensures Two128 == Pow2(plen) * Pow2(128 - plen)
  {
    Pow2Values();
    Pow2Add(64 - plen, 64);
    Pow2Add(plen, 128 - plen);
  }

  /** Placing a 64-bit interface ID on a network of prefix length at most 64 keeps the network and the ID. */
  lemma InsideNetwork(net: Network, meui64: nat)
    requires ValidNetwork(net) && net.prefixlen <= 64 && meui64 < Two64
    ensures net.address % Two64 == 0
    ensures net.address + meui64 < Two128
    ensures (net.address + meui64) / Pow2(128 - net.prefixlen) == net.address / Pow2(128 - net.prefixlen)
    ensures (net.address + meui64) % Two64 == meui64
  {
    var plen := net.prefixlen;
    Pow2Split(plen);
    AddToNetwork(net.address, meui64, Pow2(128 - plen), Pow2(64 - plen), Two64, Pow2(plen));
  }

  lemma MulMono(x: nat, y: nat, c: nat)
    requires x <= y
    ensures x * c <= y * c
  {
  }

  /**
   * The `--network` address as the help text promises it: the network's
   * prefix must leave the low 64 bits to the interface ID, and the interface
   * ID must fit them (as `to_bytes(8)` demands of it in the other mode).
   */
  function OnNetwork(net: Network, meui64: int): (r: Result<Interface, Failure>)
    requires ValidNetwork(net)
    ensures r.Ok? <==> net.prefixlen <= InterfacePrefixLength && 0 <= meui64 < Two64
    ensures r.Ok? ==> (r.value.prefixlen == net.prefixlen && r.value.address < Two128 &&
      r.value.address / Pow2(128 - net.prefixlen) == net.address / Pow2(128 - net.prefixlen) &&
      r.value.address % Two64 == meui64)
  {
    if net.prefixlen > InterfacePrefixLength then
      Err(NetmaskValueError("prefix length " + NatToString(net.prefixlen) + " leaves no room for a 64-bit interface ID"))
    else
      var id := ToBytes(meui64, 8);
      Pow2Values();
      if id.Err? then Err(OverflowError(id.error))
      else
        InsideNetwork(net, meui64);
        Ok(Interface(net.address + meui64, net.prefixlen))
  }

  /** Wherever the prefix leaves 64 bits and the ID fits them, the corrected address is the one written. */
  lemma OnNetworkAgrees(net: Network, meui64: int)
    requires ValidNetwork(net) && net.prefixlen <= InterfacePrefixLength && 0 <= meui64 < Two64
    ensures OnNetwork(net, meui64) == OnNetworkAsWritten(net, meui64)
  {
    InsideNetwork(net, meui64);
    DisjointOr64(net.address, meui64);
  }

  // ---------------------------------------------------------------------------
  // `--eui48` and `--subnet`: Python's `int(x, 16)` and `int(x, 0)`
  // ---------------------------------------------------------------------------

  /** The value of a digit character in bases up to 16, or -1. */
  function DigitValue(c: char): (r: int)
    ensures -1 <= r < 16
  {
    if '0' <= c <= '9' then c as int - '0' as int
    else if 'a' <= c <= 'f' then c as int - 'a' as int + 10
    else if 'A' <= c <= 'F' then c as int - 'A' as int + 10
    else -1
  }

  predicate AllDigits(s: string, base: nat) {
    forall i :: 0 <= i < |s| ==> 0 <= DigitValue(s[i]) < base
  }

  /** The value of the digits `s`, most significant first. */
  function Value(s: string, base: nat): nat
    requires AllDigits(s, base)
  {
    if |s| == 0 then 0 else Value(s[..|s| - 1], base) * base + DigitValue(s[|s| - 1])
  }

  /** `s` without its occurrences of `c` (`str.replace(c, "")`). */
  function Remove(s: string, c: char): string {
    if |s| == 0 then "" else Remove(s[..|s| - 1], c) + (if s[|s| - 1] == c then "" else [s[|s| - 1]])
  }

  predicate HasPrefix(s: string, letter: char) {
    |s| >= 2 && s[0] == '0' && (s[1] == letter || s[1] == Upper([letter])[0])
  }

  /** A leading `+` or `-` split off: whether the number is negative, and the rest. */
  function SplitSign(t: string): (bool, string) {
    if |t| > 0 && (t[0] == '+' || t[0] == '-') then (t[0] == '-', t[1..]) else (false, t)
  }

  predicate DigitsOrUnderscores(s: string, base: nat) {
    forall i :: 0 <= i < |s| ==> s[i] == '_' || 0 <= DigitValue(s[i]) < base
  }

  /**
   * Digits of `base` with single underscores between them, as `int()` reads
   * them: no underscore first or last and no two in a row, so at least one digit.
   */
  predicate Grouped(s: string, base: nat) {
    |s| > 0 && s[0] != '_' && s[|s| - 1] != '_' && DigitsOrUnderscores(s, base) &&
    forall i :: 0 <= i < |s| - 1 && s[i] == '_' ==> s[i + 1] != '_'
  }

  lemma {:induction false} RemoveUnderscores(s: string, base: nat)
    requires DigitsOrUnderscores(s, base)
    ensures AllDigits(Remove(s, '_'), base)
  {
    if |s| > 0 {
      RemoveUnderscores(s[..|s| - 1], base);
    }
  }

  /** The value of grouped digits with the underscores dropped, or `None` when they are not grouped. */
  function GroupedValue(s: string, base: nat): (r: Option<nat>)
    ensures r.Some? <==> Grouped(s, base)
  {
    if Grouped(s, base) then
      RemoveUnderscores(s, base);
      Some(Value(Remove(s, '_'), base))
    else None
  }

  /** What follows a base prefix, past the one underscore allowed right after it (`0x_ff`). */
  function AfterPrefix(u: string): string
    requires |u| >= 2
  {
    if |u| > 2 && u[2] == '_' then u[3..] else u[2..]
  }

  /** The unsigned part of `int(s, 16)`: an optional `0x` prefix, then grouped hexadecimal digits. */
  function HexMagnitude(u: string): Option<nat> {
    if HasPrefix(u, 'x') then GroupedValue(AfterPrefix(u), 16) else GroupedValue(u, 16)
  }

  /**
   * The unsigned part of `int(s, 0)`: the base from the prefix (`0x`, `0o`,
   * `0b`), decimal otherwise, where a leading zero is allowed only when the
   * value is zero.
   */
  function AutoMagnitude(u: string): Option<nat> {
    if HasPrefix(u, 'x') then GroupedValue(AfterPrefix(u), 16)
    else if HasPrefix(u, 'o') then GroupedValue(AfterPrefix(u), 8)
    else if HasPrefix(u, 'b') then GroupedValue(AfterPrefix(u), 2)
    else
      var v := GroupedValue(u, 10);
      if v.Some? && u[0] == '0' && v.value != 0 then None else v
  }

  function Signed(negative: bool, m: Option<nat>): Option<int> {
    if m.None? then None
    else
      var v: int := if negative then -(m.value as int) else m.value;
      Some(v)
  }

  /**
   * The text `int()` accepted, with no whitespace left in it: signed only
   * when it starts with `-`.
   */
  predicate ReadAsInt(s: string, r: Option<int>) {
    var t := TrimInt(s);
    r.Some? ==> |t| > 0 && (r.value < 0 ==> t[0] == '-') && NoSpace(t)
  }

  /** `int(s, 16)`: whitespace around, an optional sign, an optional `0x`, then grouped hexadecimal digits. */
  function ParseHex(s: string): (r: Option<int>)
    ensures ReadAsInt(s, r)
  {
    var (negative, u) := SplitSign(TrimInt(s));
    HexNoSpace(u);
    Signed(negative, HexMagnitude(u))
  }

  /** `int(s, 0)`: whitespace around, an optional sign, then the magnitude by its prefix. */
  function ParseAuto(s: string): (r: Option<int>)
    ensures ReadAsInt(s, r)
  {
    var (negative, u) := SplitSign(TrimInt(s));
    AutoNoSpace(u);
    Signed(negative, AutoMagnitude(u))
  }

  predicate NoSpace(s: string) {
    forall k :: 0 <= k < |s| ==> !IntSpace(s[k])
  }

  lemma GroupedNoSpace(s: string, base: nat)
    requires Grouped(s, base)
    ensures NoSpace(s)
  {
    forall k | 0 <= k < |s|
      ensures !IntSpace(s[k])
    {
      assert s[k] == '_' || DigitValue(s[k]) >= 0;
    }
  }

  /** A prefix in front of grouped digits adds no whitespace. */
  lemma PrefixNoSpace(u: string, base: nat)
    requires |u| >= 2 && u[0] == '0' && !IntSpace(u[1]) && Grouped(AfterPrefix(u), base)
    ensures NoSpace(u)
  {
    var a := AfterPrefix(u);
    GroupedNoSpace(a, base);
    forall k | 0 <= k < |u|
      ensures !IntSpace(u[k])
    {
      if k >= |u| - |a| {
        assert u[k] == a[k - (|u| - |a|)];
      }
    }
  }

  lemma HexNoSpace(u: string)
    ensures HexMagnitude(u).Some? ==> |u| > 0 && NoSpace(u)
  {
    if HexMagnitude(u).Some? {
      if HasPrefix(u, 'x') {
        PrefixNoSpace(u, 16);
      } else {
        GroupedNoSpace(u, 16);
      }
    }
  }

  lemma AutoNoSpace(u: string)
    ensures AutoMagnitude(u).Some? ==> |u| > 0 && NoSpace(u)
  {
    if AutoMagnitude(u).Some? {
      if HasPrefix(u, 'x') {
        PrefixNoSpace(u, 16);
      } else if HasPrefix(u, 'o') {
        PrefixNoSpace(u, 8);
      } else if HasPrefix(u, 'b') {
        PrefixNoSpace(u, 2);
      } else {
        GroupedNoSpace(u, 10);
      }
    }
  }

  /** The `--eui48` argument: colon-separated hexadecimal, or an integer literal. */
  function ParseEui48(s: string): (r: Option<int>)
    ensures ReadAsInt(if ':' in s then Remove(s, ':') else s, r)
  {
    if ':' in s then ParseHex(Remove(s, ':')) else ParseAuto(s)
  }

  const HexChars := "0123456789abcdef"

  /** A byte as two lower-case hexadecimal digits. */
  function HexPair(b: byte): (r: string)
    ensures |r| == 2 && DigitValue(r[0]) == b as int / 16 && DigitValue(r[1]) == b as int % 16
  {
    [HexChars[b / 16], HexChars[b % 16]]
  }

  function Hex(bs: seq<byte>): (r: string)
    ensures |r| == 2 * |bs| && AllDigits(r, 16)
  {
    if |bs| == 0 then "" else Hex(bs[..|bs| - 1]) + HexPair(bs[|bs| - 1])
  }

  /** Bytes as `xx:xx:...:xx`. */
  function Colons(bs: seq<byte>): string
    requires |bs| >= 1
  {
    if |bs| == 1 then HexPair(bs[0]) else Colons(bs[..|bs| - 1]) + ":" + HexPair(bs[|bs| - 1])
  }

  /** An EUI-48 in the usual notation, `00:80:2f:12:34:56`. */
  function FormatEui48(eui48: int): string
    requires 0 <= eui48 < Pow256(6)
  {
    Colons(ToBytes(eui48, 6).value)
  }

  lemma {:induction false} RemoveAppend(a: string, b: string, c: char)
    ensures Remove(a + b, c) == Remove(a, c) + Remove(b, c)
    decreases |b|
  {
    if |b| > 0 {
      assert (a + b)[..|a + b| - 1] == a + b[..|b| - 1];
      RemoveAppend(a, b[..|b| - 1], c);
    } else {
      assert a + b == a;
    }
  }

  lemma {:induction false} RemoveAbsent(s: string, c: char)
    requires c !in s
    ensures Remove(s, c) == s
  {
    if |s| > 0 {
      RemoveAbsent(s[..|s| - 1], c);
    }
  }

  lemma RemoveOnly(c: char)
    ensures Remove([c], c) == []
  {
    assert [c][..0] == [];
  }

  lemma RemoveSeparator(x: string, p: string)
    requires ':' !in p
    ensures Remove(x + ":" + p, ':') == Remove(x, ':') + p
  {
    var y := x + [':'];
    RemoveAppend(x, [':'], ':');
    RemoveOnly(':');
    assert Remove(y, ':') == Remove(x, ':') + [];
    assert Remove(y, ':') == Remove(x, ':');
    RemoveAppend(y, p, ':');
    RemoveAbsent(p, ':');
  }

  lemma {:induction false} ColonsRemoved(bs: seq<byte>)
    requires |bs| >= 1
    ensures Remove(Colons(bs), ':') == Hex(bs)
  {
    var p := HexPair(bs[|bs| - 1]);
    assert ':' !in p by { assert DigitValue(':') == -1; }
    if |bs| == 1 {
      RemoveAbsent(p, ':');
      assert bs[..0] == [];
    } else {
      var init := bs[..|bs| - 1];
      ColonsRemoved(init);
      RemoveSeparator(Colons(init), p);
    }
  }

  lemma {:induction false} HexValue(bs: seq<byte>)
    ensures Value(Hex(bs), 16) == FromBytes(bs)
  {
    if |bs| > 0 {
      var init := bs[..|bs| - 1];
      HexValue(init);
      var h := Hex(bs);
      var p := HexPair(bs[|bs| - 1]);
      assert h[..|h| - 1] == Hex(init) + [p[0]];
      assert (Hex(init) + [p[0]])[..|h| - 1 - 1] == Hex(init);
    }
  }

  /** Formatting an EUI-48 and parsing it back as `--eui48` gives the same number. */
  lemma ParseFormatted(eui48: int)
    requires 0 <= eui48 < Pow256(6)
    ensures ParseEui48(FormatEui48(eui48)) == Some(eui48)
  {
    var bs := ToBytes(eui48, 6).value;
    var s := FormatEui48(eui48);
    ToBytesRoundTrip(eui48, 6);
    ColonsRemoved(bs);
    HexValue(bs);
    assert s == Colons(bs[..5]) + ":" + HexPair(bs[5]);
    assert s[|s| - 3] == ':';
    ParseHexDigits(Hex(bs));
  }

  /** Plain hexadecimal digits, with no sign, prefix, underscore or whitespace, read back as their value. */
  lemma ParseHexDigits(h: string)
    requires |h| > 0 && AllDigits(h, 16)
    ensures ParseHex(h) == Some(Value(h, 16))
  {
    PlainDigits(h, 16);
    assert SplitSign(TrimInt(h)) == (false, h);
    assert HexMagnitude(h) == GroupedValue(h, 16);
  }

  /**
   * Plain digits are left as they are by `int()`'s trimming and
   * underscore removal, take no sign or prefix, and are grouped.
   */
  lemma PlainDigits(h: string, base: nat)
    requires |h| > 0 && AllDigits(h, base) && base <= 16
    ensures TrimInt(h) == h && Remove(h, '_') == h && Grouped(h, base)
    ensures h[0] != '+' && h[0] != '-' && !HasPrefix(h, 'x') && !HasPrefix(h, 'o')
    ensures base <= 10 ==> !HasPrefix(h, 'b')
  {
    PlainUntrimmed(h, base);
    PlainUnprefixed(h, base);
    assert '_' !in h;
    RemoveAbsent(h, '_');
  }

  lemma PlainUntrimmed(h: string, base: nat)
    requires |h| > 0 && AllDigits(h, base)
    ensures TrimInt(h) == h && h[0] != '+' && h[0] != '-'
  {
    assert DigitValue(h[0]) >= 0 && DigitValue(h[|h| - 1]) >= 0;
  }

  lemma PlainUnprefixed(h: string, base: nat)
    requires |h| > 0 && AllDigits(h, base)
    ensures !HasPrefix(h, 'x') && !HasPrefix(h, 'o')
    ensures base <= 10 ==> !HasPrefix(h, 'b')
  {
    if |h| >= 2 {
      assert DigitValue(h[1]) >= 0;
      assert Upper("x") == "X" && Upper("o") == "O" && Upper("b") == "B";
    }
  }

  /** A decimal number as Python writes it reads back through `int(x, 0)`. */
  lemma ParseAutoDecimal(n: nat)
    ensures ParseAuto(NatToString(n)) == Some(n)
  {
    var h := NatToString(n);
    AutoDecimal(n);
    DecimalDigits(h);
    PlainDigits(h, 10);
    assert SplitSign(TrimInt(h)) == (false, h);
  }

  /** The magnitude of a decimal number as Python writes it. */
  lemma AutoDecimal(n: nat)
    ensures AutoMagnitude(NatToString(n)) == Some(n)
  {
    var h := NatToString(n);
    DecimalDigits(h);
    PlainDigits(h, 10);
    DecimalIsValue(h);
    NatToStringValue(n);
    NatToStringLead(n);
    assert GroupedValue(h, 10) == Some(Value(h, 10));
    assert Value(h, 10) == n;
    assert !HasPrefix(h, 'x') && !HasPrefix(h, 'o') && !HasPrefix(h, 'b');
  }

  /** With a `-` in front, the number is negated. */
  lemma ParseAutoNegative(n: nat)
    ensures ParseAuto("-" + NatToString(n)) == Some(-(n as int))
  {
    var h := NatToString(n);
    var t := "-" + h;
    assert t == ['-'] + h;
    AutoDecimal(n);
    SignedMagnitude('-', h);
    assert ParseAuto(t) == Signed(true, Some(n));
  }

  /** With a `+` in front, the number is kept. */
  lemma ParseAutoPositive(n: nat)
    ensures ParseAuto("+" + NatToString(n)) == Some(n)
  {
    var h := NatToString(n);
    var t := "+" + h;
    assert t == ['+'] + h;
    AutoDecimal(n);
    SignedMagnitude('+', h);
    assert ParseAuto(t) == Signed(false, Some(n));
  }

  /** A sign in front of plain decimal digits decides the sign of the magnitude. */
  lemma SignedMagnitude(sign: char, h: string)
    requires sign == '-' || sign == '+'
    requires |h| > 0 && forall k :: 0 <= k < |h| ==> IsDigit(h[k])
    ensures ParseAuto([sign] + h) == Signed(sign == '-', AutoMagnitude(h))
  {
    SignSplit(sign, h);
  }

  /** A sign in front of plain decimal digits is split off whole. */
  lemma SignSplit(sign: char, h: string)
    requires sign == '-' || sign == '+'
    requires |h| > 0 && forall k :: 0 <= k < |h| ==> IsDigit(h[k])
    ensures SplitSign(TrimInt([sign] + h)) == (sign == '-', h)
  {
    DecimalDigits(h);
    PlainDigits(h, 10);
    SignedUntrimmed(sign, h);
    assert ([sign] + h)[1..] == h;
  }

  lemma SignedUntrimmed(sign: char, h: string)
    requires sign == '-' || sign == '+'
    requires |h| > 0 && TrimInt(h) == h
    ensures TrimInt([sign] + h) == [sign] + h
  {
    var t := [sign] + h;
    assert t[|t| - 1] == h[|h| - 1];
  }

  /** `int(x, 0)` ignores whitespace around the number. */
  lemma ParseAutoPadded(a: string, t: string, b: string)
    requires forall k :: 0 <= k < |a| ==> IntSpace(a[k])
    requires forall k :: 0 <= k < |b| ==> IntSpace(b[k])
    requires |t| > 0 && !IntSpace(t[0]) && !IntSpace(t[|t| - 1])
    ensures ParseAuto(a + t + b) == ParseAuto(t)
  {
    TrimPadded(a, t, b);
    assert TrimInt(t) == t;
  }

  /** A leading zero is accepted only in front of zero: `int("00", 0)` is 0, `int("07", 0)` raises. */
  lemma ParseAutoLeadingZero(n: nat)
    ensures ParseAuto("0" + NatToString(n)) == if n == 0 then Some(0) else None
  {
    var h := "0" + NatToString(n);
    LeadingZeroGrouped(n);
    assert SplitSign(TrimInt(h)) == (false, h);
    assert AutoMagnitude(h) == if n == 0 then Some(0) else None;
  }

  /** `"0"` followed by the digits of `n` is plain decimal text whose value is `n`. */
  lemma LeadingZeroGrouped(n: nat)
    ensures var h := "0" + NatToString(n);
      TrimInt(h) == h && h[0] == '0' && !HasPrefix(h, 'x') && !HasPrefix(h, 'o') && !HasPrefix(h, 'b')
      && GroupedValue(h, 10) == Some(n)
  {
    var h := "0" + NatToString(n);
    DecimalDigits(NatToString(n));
    assert AllDigits(h, 10);
    PlainDigits(h, 10);
    DecimalIsValue(h);
    assert h[1..] == NatToString(n);
    NatToStringValue(n);
    assert DecimalValue(h) == n by {
      LeadingZeroValue(NatToString(n));
    }
    assert GroupedValue(h, 10) == Some(Value(h, 10));
  }

  lemma {:induction false} LeadingZeroValue(d: string)
    requires forall k :: 0 <= k < |d| ==> IsDigit(d[k])
    ensures DecimalValue("0" + d) == DecimalValue(d)
  {
    if |d| > 0 {
      var init := d[..|d| - 1];
      assert ("0" + d)[..|"0" + d| - 1] == "0" + init;
      LeadingZeroValue(init);
    } else {
      assert DecimalValue("0") == 0;
    }
  }

  /** An underscore between two decimal digits changes nothing: `int("1_000", 0)` is `int("1000", 0)`. */
  lemma ParseAutoUnderscore(a: string, b: string)
    requires |a| > 0 && |b| > 0
    requires forall k :: 0 <= k < |a| ==> IsDigit(a[k])
    requires forall k :: 0 <= k < |b| ==> IsDigit(b[k])
    ensures ParseAuto(a + "_" + b) == ParseAuto(a + b)
  {
    var g := a + "_" + b;
    var p := a + b;
    DecimalDigits(p);
    PlainDigits(p, 10);
    UnderscoreGrouped(a, b);
    assert SplitSign(TrimInt(g)) == (false, g);
    assert SplitSign(TrimInt(p)) == (false, p);
    assert g[0] == p[0];
  }

  /** The digits around one underscore are grouped, have no prefix, and drop the underscore. */
  lemma UnderscoreGrouped(a: string, b: string)
    requires |a| > 0 && |b| > 0
    requires forall k :: 0 <= k < |a| ==> IsDigit(a[k])
    requires forall k :: 0 <= k < |b| ==> IsDigit(b[k])
    ensures var g := a + "_" + b;
      TrimInt(g) == g && g[0] != '+' && g[0] != '-' && Grouped(g, 10) && Remove(g, '_') == a + b &&
      !HasPrefix(g, 'x') && !HasPrefix(g, 'o') && !HasPrefix(g, 'b')
  {
    UnderscoreEnds(a, b);
    UnderscoreSingle(a, b);
    UnderscoreRemoved(a, b);
  }

  lemma UnderscoreEnds(a: string, b: string)
    requires |a| > 0 && |b| > 0
    requires forall k :: 0 <= k < |a| ==> IsDigit(a[k])
    requires forall k :: 0 <= k < |b| ==> IsDigit(b[k])
    ensures var g := a + "_" + b;
      TrimInt(g) == g && g[0] != '+' && g[0] != '-' && g[0] != '_' && g[|g| - 1] != '_' &&
      !HasPrefix(g, 'x') && !HasPrefix(g, 'o') && !HasPrefix(g, 'b')
  {
    var g := a + "_" + b;
    assert g[0] == a[0] && g[|g| - 1] == b[|b| - 1];
    assert g[1] == '_' || IsDigit(g[1]);
  }

  lemma UnderscoreSingle(a: string, b: string)
    requires |a| > 0 && |b| > 0
    requires forall k :: 0 <= k < |a| ==> IsDigit(a[k])
    requires forall k :: 0 <= k < |b| ==> IsDigit(b[k])
    ensures var g := a + "_" + b;
      DigitsOrUnderscores(g, 10) && forall i :: 0 <= i < |g| - 1 && g[i] == '_' ==> g[i + 1] != '_'
  {
    var g := a + "_" + b;
    forall i | 0 <= i < |g|
      ensures g[i] == '_' || 0 <= DigitValue(g[i]) < 10
      ensures g[i] == '_' ==> i == |a|
    {
      if i < |a| {
        assert g[i] == a[i];
      } else if i > |a| {
        assert g[i] == b[i - |a| - 1];
      }
    }
  }

  lemma UnderscoreRemoved(a: string, b: string)
    requires forall k :: 0 <= k < |a| ==> IsDigit(a[k])
    requires forall k :: 0 <= k < |b| ==> IsDigit(b[k])
    ensures Remove(a + "_" + b, '_') == a + b
  {
    assert '_' !in a && '_' !in b;
    RemoveAbsent(a, '_');
    RemoveAbsent(b, '_');
    RemoveAppend(a + "_", b, '_');
    RemoveAppend(a, "_", '_');
    RemoveOnly('_');
    assert Remove(a, '_') + [] == a;
  }

  lemma DecimalDigits(h: string)
    requires forall k :: 0 <= k < |h| ==> IsDigit(h[k])
    ensures AllDigits(h, 10)
  {
  }

  /** The two readings of a decimal digit string agree. */
  lemma {:induction false} DecimalIsValue(h: string)
    requires forall k :: 0 <= k < |h| ==> IsDigit(h[k])
    ensures AllDigits(h, 10) && Value(h, 10) == DecimalValue(h)
  {
    if |h| > 0 {
      DecimalIsValue(h[..|h| - 1]);
    }
  }

  /** Python never writes a leading zero in front of a non-zero number. */
  lemma {:induction false} NatToStringLead(n: nat)
    ensures NatToString(n)[0] == '0' ==> n == 0
  {
    if n >= 10 {
      NatToStringLead(n / 10);
      assert NatToString(n)[0] == NatToString(n / 10)[0];
    }
  }

  // ---------------------------------------------------------------------------
  // The command line
  // ---------------------------------------------------------------------------

  /**
   * The arguments: `--time` (or the clock, when absent) already split into
   * whole seconds and rounded nanoseconds, and `--network` already parsed.
   */
  datatype Args = Args(eui48: string, seconds: int, nanoseconds: int, subnet: Option<string>, network: Option<Network>)

  function Invalid(option: string, value: string): Failure {
    UsageError("argument " + option + ": invalid <lambda> value: '" + value + "'")
  }

  /** The address for an interface ID: on `--network` when given, a unique local address otherwise. */
  function AddressFor(meui64: int, args: Args, subnet: int, digest: seq<byte> -> seq<byte>): (r: Result<Interface, Failure>)
    requires args.network.Some? ==> ValidNetwork(args.network.value)
    ensures r.Ok? && args.network.Some? ==> (
      var net := args.network.value;
      r.value.prefixlen == net.prefixlen &&
      r.value.address / Pow2(128 - net.prefixlen) == net.address / Pow2(128 - net.prefixlen) &&
      r.value.address % Two64 == meui64)
    ensures r.Ok? && args.network.None? ==> (
      var packed := ToBytes(r.value.address, 16);
      r.value.prefixlen == 64 && packed.Ok? && packed.value[0] == LocalPrefix &&
      FromBytes(packed.value[8..]) == meui64)
  {
    if args.network.Some? then OnNetwork(args.network.value, meui64)
    else
      var r := UniqueLocal(meui64, args.seconds, args.nanoseconds, subnet, digest);
      if r.Ok? then UniqueLocalLayout(meui64, args.seconds, args.nanoseconds, subnet, digest); r else r
  }

  /**
   * The script: parse `--eui48` and `--subnet` (default 0), turn the EUI-48
   * into the interface ID, then put it on `--network` when given, or build
   * a unique local address otherwise.
   */
  function Generate(args: Args, digest: seq<byte> -> seq<byte>): (r: Result<Interface, Failure>)
    requires args.network.Some? ==> ValidNetwork(args.network.value)
    ensures ParseEui48(args.eui48).None? ==> r == Err(Invalid("--eui48", args.eui48))
    ensures ParseEui48(args.eui48).Some? && args.subnet.Some? && ParseAuto(args.subnet.value).None? ==>
      r == Err(Invalid("--subnet", args.subnet.value))
    ensures r.Ok? && args.network.Some? ==> (
      var net := args.network.value;
      ParseEui48(args.eui48).Some? && r.value.prefixlen == net.prefixlen &&
      r.value.address / Pow2(128 - net.prefixlen) == net.address / Pow2(128 - net.prefixlen) &&
      r.value.address % Two64 == Meui64(ParseEui48(args.eui48).value))
    ensures r.Ok? && args.network.None? ==> (
      var packed := ToBytes(r.value.address, 16);
      ParseEui48(args.eui48).Some? && r.value.prefixlen == 64 && packed.Ok? && packed.value[0] == LocalPrefix &&
      FromBytes(packed.value[8..]) == Meui64(ParseEui48(args.eui48).value))
  {
    var eui48 := ParseEui48(args.eui48);
    var subnet := if args.subnet.Some? then ParseAuto(args.subnet.value) else Some(0);
    if eui48.None? then Err(Invalid("--eui48", args.eui48))
    else if subnet.None? then Err(Invalid("--subnet", args.subnet.value))
    else AddressFor(Meui64(eui48.value), args, subnet.value, digest)
  }

  /**
   * `--subnet -1` is accepted by `int(x, 0)` and then makes `to_bytes`
   * raise when the unique local address is built.
   */
  lemma NegativeSubnetRaises(args: Args, digest: seq<byte> -> seq<byte>)
    requires args.network.None? && args.subnet.Some?
    requires ParseEui48(args.eui48).Some? && 0 <= Meui64(ParseEui48(args.eui48).value) < Pow256(8)
    requires NtpStamp(args.seconds, args.nanoseconds).Ok?
    requires ParseAuto(args.subnet.value).Some? && ParseAuto(args.subnet.value).value < 0
    ensures Generate(args, digest) == Err(OverflowError("can't convert negative int to unsigned"))
  {
  }
}
