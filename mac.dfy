/** MAC addresses: a value wrapper over an EUI-48 or EUI-64, its
    classification, the well-known constants, the EUI-48 to modified EUI-64
    interface identifier conversion (Appendix A of RFC 4291), and the derived
    byte-wise ordering. */
module Mac {
  import opened MacInternal

  /** An address value of type `T`. */
  datatype Address<+T> = Address(inner: T)

  /** `Address::new`. */
  function New<T>(inner: T): (a: Address<T>)
    ensures Get(a) == inner
  {
    Address(inner)
  }

  /** `Address::get`. */
  function Get<T>(a: Address<T>): T
  {
    a.inner
  }

  /** Wrapping and unwrapping are inverse to each other. */
  lemma NewGetRoundTrip<T>(x: T, a: Address<T>)
    ensures Get(New(x)) == x
    ensures New(Get(a)) == a
  {
  }

  // ----------------------------------------------------- classification

  /** `Address::transmission`. */
  function GetTransmission(a: Address<Eui>): Transmission
  {
    TransmissionOf(a.inner)
  }

  /** `Address::admin`. */
  function GetAdmin(a: Address<Eui>): Admin
  {
    AdminOf(a.inner)
  }

  function IsMulticast(a: Address<Eui>): bool
  {
    GetTransmission(a) == Multicast
  }

  function IsUnicast(a: Address<Eui>): bool
  {
    GetTransmission(a) == Unicast
  }

  function IsUniversal(a: Address<Eui>): bool
  {
    GetAdmin(a) == Universal
  }

  function IsLocal(a: Address<Eui>): bool
  {
    GetAdmin(a) == Local
  }

  /** Every address is exactly one of multicast and unicast, and exactly one
      of universal and local, as the two low bits of the first octet say. */
  lemma ClassifiersComplementary(a: Address<Eui>)
    ensures IsMulticast(a) == !IsUnicast(a)
    ensures IsUniversal(a) == !IsLocal(a)
    ensures IsMulticast(a) <==> a.inner[0] & 0x01 != 0
    ensures IsLocal(a) <==> a.inner[0] & 0x02 != 0
  {
  }

  /** `Address::reverse_bits`, on the address value held in a mutable buffer. */
  method ReverseAddressBits(a: array<bv8>)
    requires a.Length == 6 || a.Length == 8
    modifies a
    ensures a[..] == ReversedBits(old(a[..]))
  {
    ReverseBits(a);
  }

  /** A round of bit reversal undone by a second one, with the buffer kept
      at its width. */
  method ReverseAddressBitsTwice(a: array<bv8>)
    requires a.Length == 6 || a.Length == 8
    modifies a
    ensures a[..] == old(a[..])
  {
    ghost var s := a[..];
    ReverseAddressBits(a);
    ReverseAddressBits(a);
    ReversedBitsInvolution(s);
  }

  // ---------------------------------------------------------- constants

  const ZERO48: Address<Eui48> := Address([0x00, 0x00, 0x00, 0x00, 0x00, 0x00])
  const BROADCAST48: Address<Eui48> := Address([0xFF, 0xFF, 0xFF, 0xFF, 0xFF, 0xFF])
  const ZERO64: Address<Eui64> := Address([0x00, 0x00, 0x00, 0x00, 0x00, 0x00, 0x00, 0x00])
  const BROADCAST64: Address<Eui64> := Address([0xFF, 0xFF, 0xFF, 0xFF, 0xFF, 0xFF, 0xFF, 0xFF])

  /** `Default for Address<Eui48>`: all octets zero. */
  function Default48(): (a: Address<Eui48>)
    ensures forall i :: 0 <= i < 6 ==> a.inner[i] == 0
  {
    ZERO48
  }

  /** `Default for Address<Eui64>`: all octets zero. */
  function Default64(): (a: Address<Eui64>)
    ensures forall i :: 0 <= i < 8 ==> a.inner[i] == 0
  {
    ZERO64
  }

  /** The broadcast addresses are multicast and locally administered; the zero
      addresses (also the defaults) are unicast and universal. */
  lemma ConstantsClassified()
    ensures IsMulticast(BROADCAST48) && IsLocal(BROADCAST48)
    ensures IsMulticast(BROADCAST64) && IsLocal(BROADCAST64)
    ensures IsUnicast(ZERO48) && IsUniversal(ZERO48)
    ensures IsUnicast(ZERO64) && IsUniversal(ZERO64)
    ensures Default48() == ZERO48 && Default64() == ZERO64
  {
  }

  // ---------------------------------------------------------- interface

  /** `Address<Eui48>::to_interface`: the modified EUI-64 interface
      identifier: the universal/local bit is inverted and FF FE is inserted
      between the third and the fourth octet. */
  function ToInterface(a: Address<Eui48>): (r: Address<Eui64>)
    ensures r.inner[..3] == [a.inner[0] ^ 0x02] + a.inner[1..3]
    ensures r.inner[3..5] == [0xFF, 0xFE]
    ensures r.inner[5..] == a.inner[3..]
    ensures GetAdmin(r) != GetAdmin(a)
    ensures GetTransmission(r) == GetTransmission(a)
  {
    var arr := a.inner;
    Address([arr[0] ^ 0x02, arr[1], arr[2], 0xFF, 0xFE, arr[3], arr[4], arr[5]])
  }

  /** Distinct MAC addresses give distinct interface identifiers. */
  lemma ToInterfaceInjective(a: Address<Eui48>, b: Address<Eui48>)
    requires ToInterface(a) == ToInterface(b)
    ensures a == b
  {
    var x := ToInterface(a).inner;
    assert x[0] == a.inner[0] ^ 0x02 == b.inner[0] ^ 0x02;
    assert a.inner[0] == x[0] ^ 0x02 == b.inner[0];
    assert a.inner[1] == x[1] == b.inner[1] && a.inner[2] == x[2] == b.inner[2];
    assert a.inner[3] == x[5] == b.inner[3] && a.inner[4] == x[6] == b.inner[4];
    assert a.inner[5] == x[7] == b.inner[5];
    assert a.inner == b.inner;
  }

  /** The conversion of the broadcast address is the broadcast address with
      the universal/local bit cleared and FF FE in the middle. */
  lemma BroadcastInterface()
    ensures ToInterface(BROADCAST48).inner == [0xFD, 0xFF, 0xFF, 0xFF, 0xFE, 0xFF, 0xFF, 0xFF]
  {
  }

  // ----------------------------------------------------------- ordering

  datatype Ordering = Less | Equal | Greater

  /** The derived ordering of addresses, which is that of their octet arrays:
      lexicographic, octets compared as unsigned values; a proper prefix
      orders first. */
  function Compare(x: seq<bv8>, y: seq<bv8>): Ordering
  {
    if x == [] && y == [] then Equal
    else if x == [] then Less
    else if y == [] then Greater
    else if x[0] < y[0] then Less
    else if x[0] > y[0] then Greater
    else Compare(x[1..], y[1..])
  }

  /** Comparison of two addresses of the same width. */
  function CompareAddress(a: Address<Eui>, b: Address<Eui>): Ordering
  {
    Compare(a.inner, b.inner)
  }

  /** Two strings compare equal exactly when they are equal. */
  lemma {:induction false} CompareEqual(x: seq<bv8>, y: seq<bv8>)
    ensures Compare(x, y) == Equal <==> x == y
  {
    if x != [] && y != [] && x[0] == y[0] {
      CompareEqual(x[1..], y[1..]);
      assert x == [x[0]] + x[1..] && y == [y[0]] + y[1..];
    }
  }

  /** Swapping the operands swaps `Less` and `Greater`. */
  lemma {:induction false} CompareAntisymmetric(x: seq<bv8>, y: seq<bv8>)
    ensures Compare(x, y) == Less <==> Compare(y, x) == Greater
  {
    if x != [] && y != [] && x[0] == y[0] {
      CompareAntisymmetric(x[1..], y[1..]);
    }
  }

  /** `Less` is transitive. */
  lemma {:induction false} CompareTransitive(x: seq<bv8>, y: seq<bv8>, z: seq<bv8>)
    requires Compare(x, y) == Less && Compare(y, z) == Less
    ensures Compare(x, z) == Less
  {
    if x != [] && y != [] && z != [] && x[0] == y[0] && y[0] == z[0] {
      CompareTransitive(x[1..], y[1..], z[1..]);
    }
  }

  /** Two strings of equal length are ordered by their first differing octet. */
  lemma {:induction false} CompareFirstDifference(x: seq<bv8>, y: seq<bv8>, i: nat)
    requires |x| == |y| && i < |x|
    requires x[..i] == y[..i] && x[i] != y[i]
    ensures Compare(x, y) == (if x[i] < y[i] then Less else Greater)
  {
    if i > 0 {
      assert x[0] == x[..i][0] && y[0] == y[..i][0];
      assert x[1..][..i - 1] == x[..i][1..] && y[1..][..i - 1] == y[..i][1..];
      CompareFirstDifference(x[1..], y[1..], i - 1);
    }
  }

  /** An address orders below another exactly when, at their first differing
      octet, its octet is the smaller one. */
  lemma {:induction false} LessHasFirstDifference(x: seq<bv8>, y: seq<bv8>)
    requires |x| == |y|
    requires Compare(x, y) == Less
    ensures exists i :: 0 <= i < |x| && x[..i] == y[..i] && x[i] < y[i]
  {
    if x[0] < y[0] {
      assert x[..0] == y[..0];
    } else {
      LessHasFirstDifference(x[1..], y[1..]);
      var i :| 0 <= i < |x| - 1 && x[1..][..i] == y[1..][..i] && x[1..][i] < y[1..][i];
      PrefixExtend(x, y, i);
      assert x[i + 1] < y[i + 1];
    }
  }

  /** Equal first octets extend a common prefix of the tails by one. */
  lemma PrefixExtend(x: seq<bv8>, y: seq<bv8>, i: nat)
    requires i < |x| - 1 && i < |y| - 1
    requires x[0] == y[0] && x[1..][..i] == y[1..][..i]
    ensures x[..i + 1] == y[..i + 1]
  {
    assert x[..i + 1] == [x[0]] + x[1..][..i];
    assert y[..i + 1] == [y[0]] + y[1..][..i];
  }
}
