/** Network byte order for 16-bit fields. */
module Bytes {

  /** `u16::from_be_bytes([hi, lo])`. */
  function FromBeBytes(hi: bv8, lo: bv8): bv16
  {
    ((hi as bv16) << 8) | (lo as bv16)
  }

  /** The two octets of `v` in network order (the layout a header field has on the wire). */
  function ToBeBytes(v: bv16): (b: seq<bv8>)
    ensures |b| == 2
  {
    [(v >> 8) as bv8, (v & 0xFF) as bv8]
  }

  /** Decoding two octets and encoding the value again gives the same octets. */
  lemma BeBytesRoundTrip(hi: bv8, lo: bv8)
    ensures ToBeBytes(FromBeBytes(hi, lo)) == [hi, lo]
  {
  }

  /** Encoding a value and decoding its octets gives the same value. */
  lemma BeValueRoundTrip(v: bv16)
    ensures FromBeBytes(ToBeBytes(v)[0], ToBeBytes(v)[1]) == v
  {
  }
}
