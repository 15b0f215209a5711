/** The extended unique identifiers behind a MAC address, EUI-48 (6 octets)
    and EUI-64 (8 octets), and what their first octet says about them: the
    individual/group bit (bit 0x01) and the universal/local bit (bit 0x02). */
module MacInternal {
  /** The kind of transmission an address is for. */
  datatype Transmission = Multicast | Unicast

  /** Who assigned the address: its manufacturer or the network. */
  datatype Admin = Universal | Local

  /** An address value of either width. */
  type Eui = s: seq<bv8> | |s| == 6 || |s| == 8 witness [0, 0, 0, 0, 0, 0]

  /** A 6-octet address value. */
  type Eui48 = s: Eui | |s| == 6 witness [0, 0, 0, 0, 0, 0]

  /** An 8-octet address value. */
  type Eui64 = s: Eui | |s| == 8 witness [0, 0, 0, 0, 0, 0, 0, 0]

  // ----------------------------------------------------- classification

  /** `Eui::transmission`: multicast exactly when the lowest bit of the first
      octet is set. The source's `unreachable!()` arm is proved dead. */
  function TransmissionOf(e: Eui): (t: Transmission)
    ensures t == Multicast <==> e[0] & 0x01 != 0
  {
    var bit := e[0] & 0x01;
    if bit == 0 then Unicast
    else if bit == 1 then Multicast
    else assert false; Unicast
  }

  /** `Eui::admin`: locally administered exactly when bit 0x02 of the first
      octet is set. The source's `unreachable!()` arm is proved dead. */
  function AdminOf(e: Eui): (a: Admin)
    ensures a == Local <==> e[0] & 0x02 != 0
  {
    var bit := (e[0] >> 1) & 0x01;
    if bit == 0 then Universal
    else if bit == 1 then Local
    else assert false; Universal
  }

  /** Both classifications read only the two low bits of the first octet. */
  lemma ClassificationReadsLowBits(e: Eui, f: Eui)
    requires e[0] & 0x03 == f[0] & 0x03
    ensures TransmissionOf(e) == TransmissionOf(f)
    ensures AdminOf(e) == AdminOf(f)
  {
  }

  /** The two classifications are independent: flipping the universal/local
      bit flips the administration and keeps the transmission, and flipping
      the individual/group bit does the converse. */
  lemma ClassificationsIndependent(e: Eui)
    ensures AdminOf(e[0 := e[0] ^ 0x02]) != AdminOf(e)
    ensures TransmissionOf(e[0 := e[0] ^ 0x02]) == TransmissionOf(e)
    ensures TransmissionOf(e[0 := e[0] ^ 0x01]) != TransmissionOf(e)
    ensures AdminOf(e[0 := e[0] ^ 0x01]) == AdminOf(e)
  {
  }

  // ----------------------------------------------------- bit reversal

  /** Bit `i` of `b`, counting from the least significant bit. */
  predicate BitAt(b: bv8, i: nat)
    requires i < 8
  {
    (b >> i) & 1 == 1
  }

  /** `u8::reverse_bits`: bit `i` moves to bit `7 - i`. */
  function ReverseByte(b: bv8): (r: bv8)
  {
    ((b & 0x01) << 7) | ((b & 0x02) << 5) | ((b & 0x04) << 3) | ((b & 0x08) << 1)
    | ((b & 0x10) >> 1) | ((b & 0x20) >> 3) | ((b & 0x40) >> 5) | ((b & 0x80) >> 7)
  }

  /** Reversing a byte mirrors its bits. */
  lemma ReverseByteMirrorsBits(b: bv8, i: nat)
    requires i < 8
    ensures BitAt(ReverseByte(b), i) == BitAt(b, 7 - i)
  {
  }

  /** Reversing a byte twice gives it back. */
  lemma ReverseByteInvolution(b: bv8)
    ensures ReverseByte(ReverseByte(b)) == b
  {
  }

  /** The bit-reversed value of an octet string: the octets in reverse order,
      each of them bit-reversed. */
  function ReversedBits(s: seq<bv8>): (r: seq<bv8>)
    ensures |r| == |s|
  {
    if s == [] then [] else ReversedBits(s[1..]) + [ReverseByte(s[0])]
  }

  /** Octet `i` of the reversed string is the bit-reversed octet `|s| - 1 - i`. */
  lemma {:induction false} ReversedBitsAt(s: seq<bv8>, i: nat)
    requires i < |s|
    ensures ReversedBits(s)[i] == ReverseByte(s[|s| - 1 - i])
  {
    if i < |s| - 1 {
      ReversedBitsAt(s[1..], i);
    }
  }

  /** Any string whose octets are those of the reversed string is it. */
  lemma ReversedBitsExt(s: seq<bv8>, r: seq<bv8>)
    requires |r| == |s|
    requires forall i :: 0 <= i < |s| ==> r[i] == ReverseByte(s[|s| - 1 - i])
    ensures r == ReversedBits(s)
  {
    forall i | 0 <= i < |s|
      ensures r[i] == ReversedBits(s)[i]
    {
      ReversedBitsAt(s, i);
    }
  }

  /** Reversing twice restores the string. */
  lemma ReversedBitsInvolution(s: seq<bv8>)
    ensures ReversedBits(ReversedBits(s)) == s
  {
    var r := ReversedBits(s);
    forall i | 0 <= i < |s|
      ensures ReversedBits(r)[i] == s[i]
    {
      ReversedBitsAt(r, i);
      ReversedBitsAt(s, |s| - 1 - i);
      ReverseByteInvolution(s[i]);
    }
  }

  /** The bits of an octet, most significant first. */
  function OctetBits(b: bv8): (r: seq<bool>)
    ensures |r| == 8
  {
    seq(8, j requires 0 <= j < 8 => BitAt(b, 7 - j))
  }

  /** The bit string of an octet string, octet by octet, most significant bit first. */
  function Bits(s: seq<bv8>): (r: seq<bool>)
    ensures |r| == 8 * |s|
  {
    if s == [] then [] else OctetBits(s[0]) + Bits(s[1..])
  }

  /** A sequence in reverse order. */
  function Rev<T>(s: seq<T>): (r: seq<T>)
    ensures |r| == |s|
  {
    if s == [] then [] else Rev(s[1..]) + [s[0]]
  }

  lemma {:induction false} RevAt<T>(s: seq<T>, i: nat)
    requires i < |s|
    ensures Rev(s)[i] == s[|s| - 1 - i]
  {
    if i < |s| - 1 {
      RevAt(s[1..], i);
    }
  }

  lemma {:induction false} RevConcat<T>(a: seq<T>, b: seq<T>)
    ensures Rev(a + b) == Rev(b) + Rev(a)
  {
    var l, r := Rev(a + b), Rev(b) + Rev(a);
    forall i | 0 <= i < |a| + |b|
      ensures l[i] == r[i]
    {
      RevAt(a + b, i);
      if i < |b| {
        RevAt(b, i);
      } else {
        RevAt(a, i - |b|);
      }
    }
  }

  /** The bits of a reversed octet are its bits in reverse order. */
  lemma OctetBitsReversed(b: bv8)
    ensures OctetBits(ReverseByte(b)) == Rev(OctetBits(b))
  {
    var l, r := OctetBits(ReverseByte(b)), Rev(OctetBits(b));
    forall j | 0 <= j < 8
      ensures l[j] == r[j]
    {
      RevAt(OctetBits(b), j);
      ReverseByteMirrorsBits(b, 7 - j);
    }
  }

  /** Bit reversal reverses the whole 48- or 64-bit string, as transmitting
      an address least significant bit first requires. */
  lemma {:induction false} ReversedBitsReversesBitString(s: seq<bv8>)
    ensures Bits(ReversedBits(s)) == Rev(Bits(s))
  {
    if s != [] {
      ReversedBitsReversesBitString(s[1..]);
      OctetBitsReversed(s[0]);
      BitsConcat(ReversedBits(s[1..]), [ReverseByte(s[0])]);
      RevConcat(OctetBits(s[0]), Bits(s[1..]));
      assert Bits([ReverseByte(s[0])]) == OctetBits(ReverseByte(s[0]));
    }
  }

  lemma {:induction false} BitsConcat(a: seq<bv8>, b: seq<bv8>)
    ensures Bits(a + b) == Bits(a) + Bits(b)
  {
    if a != [] {
      assert (a + b)[1..] == a[1..] + b;
      BitsConcat(a[1..], b);
    } else {
      assert a + b == b;
    }
  }

  /** `Eui::reverse_bits` on a value held in a mutable buffer: the octets are
      reversed in place, then each octet is bit-reversed in place. */
  method ReverseBits(a: array<bv8>)
    requires a.Length == 6 || a.Length == 8
    modifies a
    ensures a[..] == ReversedBits(old(a[..]))
  {
    ghost var s := a[..];
    var n := a.Length;
    // Reverse the order of the octets (internal.rs:27).
    var i := 0;
    while i < n / 2
      invariant 0 <= i <= n / 2
      invariant forall k :: 0 <= k < i ==> a[k] == s[n - 1 - k] && a[n - 1 - k] == s[k]
      invariant forall k :: i <= k < n - i ==> a[k] == s[k]
    {
      a[i], a[n - 1 - i] := a[n - 1 - i], a[i];
      i := i + 1;
    }
    ghost var m := a[..];
    assert forall k :: 0 <= k < n ==> m[k] == s[n - 1 - k];
    // Reverse the bits inside each octet (internal.rs:28).
    var j := 0;
    while j < n
      invariant 0 <= j <= n
      invariant forall k :: 0 <= k < j ==> a[k] == ReverseByte(m[k])
      invariant forall k :: j <= k < n ==> a[k] == m[k]
    {
      a[j] := ReverseByte(a[j]);
      j := j + 1;
    }
    ReversedBitsExt(s, a[..]);
  }
}
