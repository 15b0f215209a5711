/** Ethernet frame headers: the 14-byte base header (destination and source
    MAC addresses and a 16-bit type-or-length field), the header maps that
    replace its VLAN extension, and the two interpretations of the
    type-or-length field: a payload length (IEEE 802.3 framing, `Ethernet`)
    or an EtherType (Ethernet II framing, `Ethernet2`). */
module Ethernet {
  import opened Outcomes
  import opened Bytes
  import opened EtherTypes
  import opened MacInternal
  import Payload
  import Vlan
  import Mac

  type MacAddr = Mac.Address<Eui48>

  /** The minimum length of an Ethernet payload. */
  const MIN_PAYLOAD_LEN: nat := 46
  /** The maximum length of an Ethernet frame payload. */
  const MAX_PAYLOAD_LEN: nat := 1500
  /** The maximum length of a jumbo Ethernet frame payload. */
  const MAX_JUMBO_PAYLOAD_LEN: nat := 9000

  /** The length field points past the end of the payload. */
  datatype InvalidLengthError = InvalidLengthError

  /** The input is too small to hold the value read from it. */
  datatype PhysicalError = PhysicalError

  /** A frame whose type-or-length field has not been interpreted yet. */
  datatype EthernetBase<V, P> = EthernetBase(destination: MacAddr, source: MacAddr, vlan: V, typeOrLength: bv16, payload: P)

  /** A frame with a payload length field. */
  datatype Ethernet<V, P> = Ethernet(destination: MacAddr, source: MacAddr, vlan: V, payload: P)

  /** A frame with a payload EtherType field. */
  datatype Ethernet2<V, P> = Ethernet2(destination: MacAddr, source: MacAddr, vlan: V, etype: EtherType, payload: P)

  /** `EthernetBase::length`. */
  function Length<V, P>(b: EthernetBase<V, P>): bv16
  {
    b.typeOrLength
  }

  /** `EthernetBase::ethertype`. */
  function Ethertype<V, P>(b: EthernetBase<V, P>): EtherType
  {
    EtherType(b.typeOrLength)
  }

  /** The two readings of the field are the same 16 bits. */
  lemma LengthAndEthertypeAgree<V, P>(b: EthernetBase<V, P>)
    ensures Ethertype(b).raw == Length(b)
  {
  }

  // -------------------------------------------------------- header maps

  /** `EthernetBase::map_vlan`: `f` produces the new type-or-length field,
      extension and payload from the old ones; the addresses are kept. */
  function MapVlan<V, P, W, Q>(b: EthernetBase<V, P>, f: (bv16, V, P) -> (bv16, W, Q)): (r: EthernetBase<W, Q>)
    ensures r.destination == b.destination && r.source == b.source
    ensures (r.typeOrLength, r.vlan, r.payload) == f(b.typeOrLength, b.vlan, b.payload)
  {
    var (typeOrLength, vlan, payload) := f(b.typeOrLength, b.vlan, b.payload);
    EthernetBase(b.destination, b.source, vlan, typeOrLength, payload)
  }

  /** `EthernetBase::try_map_vlan`: as `map_vlan`, but the error of `f` is
      passed on unchanged. */
  function TryMapVlan<V, P, W, Q, E>(b: EthernetBase<V, P>, f: (bv16, V, P) -> Result<(bv16, W, Q), E>)
    : (r: Result<EthernetBase<W, Q>, E>)
    ensures r.Err? <==> f(b.typeOrLength, b.vlan, b.payload).Err?
    ensures r.Err? ==> r.error == f(b.typeOrLength, b.vlan, b.payload).error
    ensures r.Ok? ==>
              && r.value.destination == b.destination && r.value.source == b.source
              && (r.value.typeOrLength, r.value.vlan, r.value.payload) == f(b.typeOrLength, b.vlan, b.payload).value
  {
    match f(b.typeOrLength, b.vlan, b.payload)
    case Err(e) => Err(e)
    case Ok((typeOrLength, vlan, payload)) => Ok(EthernetBase(b.destination, b.source, vlan, typeOrLength, payload))
  }

  /** `EthernetBase::map_vlan_no_payload`: the payload is kept as well. */
  function MapVlanNoPayload<V, P, W>(b: EthernetBase<V, P>, f: (bv16, V) -> (bv16, W)): (r: EthernetBase<W, P>)
    ensures r.destination == b.destination && r.source == b.source && r.payload == b.payload
    ensures (r.typeOrLength, r.vlan) == f(b.typeOrLength, b.vlan)
  {
    var (typeOrLength, vlan) := f(b.typeOrLength, b.vlan);
    EthernetBase(b.destination, b.source, vlan, typeOrLength, b.payload)
  }

  /** `EthernetBase::try_map_vlan_no_payload`. */
  function TryMapVlanNoPayload<V, P, W, E>(b: EthernetBase<V, P>, f: (bv16, V) -> Result<(bv16, W), E>)
    : (r: Result<EthernetBase<W, P>, E>)
    ensures r.Err? <==> f(b.typeOrLength, b.vlan).Err?
    ensures r.Err? ==> r.error == f(b.typeOrLength, b.vlan).error
    ensures r.Ok? ==>
              && r.value.destination == b.destination && r.value.source == b.source && r.value.payload == b.payload
              && (r.value.typeOrLength, r.value.vlan) == f(b.typeOrLength, b.vlan).value
  {
    match f(b.typeOrLength, b.vlan)
    case Err(e) => Err(e)
    case Ok((typeOrLength, vlan)) => Ok(EthernetBase(b.destination, b.source, vlan, typeOrLength, b.payload))
  }

  /** Mapping with the identity changes nothing, and two maps compose into one. */
  lemma MapVlanLaws<V, P, W, Q, X, R>(b: EthernetBase<V, P>, f: (bv16, V, P) -> (bv16, W, Q), g: (bv16, W, Q) -> (bv16, X, R))
    ensures MapVlan(b, (t: bv16, v: V, p: P) => (t, v, p)) == b
    ensures MapVlan(MapVlan(b, f), g) == MapVlan(b, (t: bv16, v: V, p: P) => g(f(t, v, p).0, f(t, v, p).1, f(t, v, p).2))
  {
  }

  /** The payload-free map is the full map with a function that passes the
      payload through. */
  lemma MapVlanNoPayloadIsMapVlan<V, P, W>(b: EthernetBase<V, P>, f: (bv16, V) -> (bv16, W))
    ensures MapVlanNoPayload(b, f) == MapVlan(b, (t: bv16, v: V, p: P) => (f(t, v).0, f(t, v).1, p))
  {
  }

  /** The fallible maps with a function that always succeeds are the plain maps. */
  lemma TryMapVlanOfTotal<V, P, W, Q, E>(b: EthernetBase<V, P>, f: (bv16, V, P) -> (bv16, W, Q), g: (bv16, V) -> (bv16, W))
    ensures TryMapVlan(b, (t: bv16, v: V, p: P) => Result<(bv16, W, Q), E>.Ok(f(t, v, p))) == Ok(MapVlan(b, f))
    ensures TryMapVlanNoPayload(b, (t: bv16, v: V) => Result<(bv16, W), E>.Ok(g(t, v))) == Ok(MapVlanNoPayload(b, g))
  {
  }

  // ------------------------------------------------------------ parsing

  /** The 14 header bytes a base frame stands for: destination, source, and
      the type-or-length field in big-endian order. */
  function HeaderBytes<V, P>(b: EthernetBase<V, P>): (h: seq<bv8>)
    ensures |h| == 14
  {
    b.destination.inner + b.source.inner + ToBeBytes(b.typeOrLength)
  }

  /** `EthernetBase::consume_unknown`: reads the addresses and the field from
      the first 14 bytes. The payload is `consume(14)`, which, as written,
      is the header bytes themselves. Reading past the end is undefined
      behaviour, hence the precondition. */
  function ConsumeUnknown(bytes: Payload.Unknown): (r: EthernetBase<Vlan.UnknownVlan, Payload.Unknown>)
    requires |bytes.bytes| >= 14
    ensures HeaderBytes(r) == bytes.bytes[..14]
    ensures r.vlan == Vlan.UnknownVlan
    ensures r.payload.bytes == bytes.bytes[..14]
  {
    var d := bytes.bytes;
    var dest := Mac.New<Eui48>(d[0..6]);
    var src := Mac.New<Eui48>(d[6..12]);
    var typeOrLength := FromBeBytes(d[12], d[13]);
    BeBytesRoundTrip(d[12], d[13]);
    assert d[..14] == d[0..6] + d[6..12] + [d[12], d[13]];
    EthernetBase(dest, src, Vlan.UnknownVlan, typeOrLength, Payload.Consume(bytes, 14).value)
  }

  /** `EthernetBase::parse`: an error for fewer than 14 bytes, otherwise the
      header read from the first 14 bytes. */
  function Parse(bytes: Payload.Unknown): (r: Result<EthernetBase<Vlan.UnknownVlan, Payload.Unknown>, PhysicalError>)
    ensures r.Err? <==> |bytes.bytes| < 14
    ensures r.Ok? ==>
              && HeaderBytes(r.value) == bytes.bytes[..14]
              && r.value.vlan == Vlan.UnknownVlan
              && r.value.payload.bytes == bytes.bytes[..14]
  {
    if |bytes.bytes| < 14 then Err(PhysicalError) else Ok(ConsumeUnknown(bytes))
  }

  /** `EthernetBase::parse_unchecked`; the caller guarantees 14 bytes. */
  function ParseUnchecked(bytes: Payload.Unknown): (r: EthernetBase<Vlan.UnknownVlan, Payload.Unknown>)
    requires |bytes.bytes| >= 14
    ensures Parse(bytes) == Ok(r)
  {
    ConsumeUnknown(bytes)
  }

  /** The parse as documented: the payload is what follows the 14-byte
      header, so that header and payload together are the input. */
  function ParseIntended(bytes: Payload.Unknown): (r: Result<EthernetBase<Vlan.UnknownVlan, Payload.Unknown>, PhysicalError>)
    ensures r.Err? <==> |bytes.bytes| < 14
    ensures r.Ok? ==>
              && HeaderBytes(r.value) + r.value.payload.bytes == bytes.bytes
              && r.value.vlan == Vlan.UnknownVlan
  {
    if |bytes.bytes| < 14 then Err(PhysicalError)
    else
      var b := ConsumeUnknown(bytes);
      var rest := Payload.Advance(bytes, 14).value;
      assert bytes.bytes[..14] + rest.bytes == bytes.bytes;
      Ok(b.(payload := rest))
  }

  /** The two parses agree on every header field and differ only in the payload. */
  lemma ParsesAgreeOnHeader(bytes: Payload.Unknown)
    requires |bytes.bytes| >= 14
    ensures Parse(bytes).value.payload == Payload.Unknown(bytes.bytes[..14])
    ensures ParseIntended(bytes).value.payload == Payload.Unknown(bytes.bytes[14..])
    ensures Parse(bytes).value == ParseIntended(bytes).value.(payload := Payload.Unknown(bytes.bytes[..14]))
  {
  }

  /** A frame with a given header and payload is parsed back into that
      header and payload. */
  lemma ParseIntendedRoundTrip(b: EthernetBase<Vlan.UnknownVlan, Payload.Unknown>)
    ensures ParseIntended(Payload.Unknown(HeaderBytes(b) + b.payload.bytes)) == Ok(b)
  {
    var bytes := HeaderBytes(b) + b.payload.bytes;
    var r := ParseIntended(Payload.Unknown(bytes)).value;
    var h := HeaderBytes(r);
    assert h + r.payload.bytes == bytes;
    assert h == bytes[..14] == HeaderBytes(b);
    assert r.payload.bytes == bytes[14..] == b.payload.bytes;
    assert r.destination.inner == h[..6] == b.destination.inner;
    assert r.source.inner == h[6..12] == b.source.inner;
    assert ToBeBytes(r.typeOrLength) == h[12..] == ToBeBytes(b.typeOrLength);
    BeValueRoundTrip(r.typeOrLength);
    BeValueRoundTrip(b.typeOrLength);
    assert r.typeOrLength == b.typeOrLength;
    assert r.destination == b.destination && r.source == b.source;
    assert r.payload == b.payload;
    assert r.vlan == b.vlan;
    assert r == b;
  }

  // ------------------------------------------------------ interpreting

  /** `EthernetBase::unwrap_ethernet`: the field is a payload length; the
      payload splits into that many bytes and the padding after them, with a
      panic when the length is past the end. */
  function UnwrapEthernet<V>(b: EthernetBase<V, Payload.Unknown>)
    : (r: Outcome<Ethernet<V, Payload.Padded<seq<bv8>, Payload.Any>>>)
    ensures r.Panic? <==> b.typeOrLength as int > |b.payload.bytes|
    ensures r.Done? ==>
              && r.value.destination == b.destination && r.value.source == b.source && r.value.vlan == b.vlan
              && |r.value.payload.payload.bytes| == b.typeOrLength as int
              && r.value.payload.payload.bytes + r.value.payload.padding == b.payload.bytes
  {
    match Payload.AsPaddedAny(b.payload, b.typeOrLength as nat)
    case Panic(m) => Panic(m)
    case Done(p) => Done(Ethernet(b.destination, b.source, b.vlan, p))
  }

  /** `EthernetBase::try_unrwap_ethernet` (named so in the source): an error
      instead of the panic, and otherwise the same frame. */
  function TryUnwrapEthernet<V>(b: EthernetBase<V, Payload.Unknown>)
    : (r: Result<Ethernet<V, Payload.Padded<seq<bv8>, Payload.Any>>, InvalidLengthError>)
    ensures r.Err? <==> b.typeOrLength as int > |b.payload.bytes|
    ensures r.Ok? ==> UnwrapEthernet(b) == Done(r.value)
  {
    match Payload.TryAsPaddedAny(b.payload, b.typeOrLength as nat)
    case None => Err(InvalidLengthError)
    case Some(p) =>
      Payload.SplitsAgree(b.payload, b.typeOrLength as nat);
      Ok(Ethernet(b.destination, b.source, b.vlan, p))
  }

  /** `EthernetBase::unwrap_ethernet2`: the field is an EtherType and the
      payload stays as it is. */
  function UnwrapEthernet2<V, P>(b: EthernetBase<V, P>): (r: Ethernet2<V, P>)
    ensures r.destination == b.destination && r.source == b.source && r.vlan == b.vlan
    ensures r.etype == Ethertype(b) && r.payload == b.payload
  {
    Ethernet2(b.destination, b.source, b.vlan, EtherType(b.typeOrLength), b.payload)
  }

  /** Both interpretations read the same frame: the EtherType view keeps the
      whole payload, and the length view, when the length fits, splits that
      same payload into the first `length` bytes and the padding. */
  lemma InterpretationsAgree<V>(b: EthernetBase<V, Payload.Unknown>)
    ensures UnwrapEthernet2(b).etype.raw == Length(b)
    ensures TryUnwrapEthernet(b).Ok? ==>
              var e, e2 := TryUnwrapEthernet(b).value, UnwrapEthernet2(b);
              && e.destination == e2.destination && e.source == e2.source && e.vlan == e2.vlan
              && e.payload.payload.bytes == e2.payload.bytes[..Length(b)]
              && e.payload.padding == e2.payload.bytes[Length(b)..]
  {
  }

  // ----------------------------------------------------------- findings

  /** As written, the payload a parsed frame carries is its own header, so a
      length field above 14 always panics on `unwrap_ethernet`, however long
      the frame is. */
  lemma ParsedLengthFrameLosesPayload(bytes: Payload.Unknown)
    requires |bytes.bytes| >= 14
    ensures var b := Parse(bytes).value;
            UnwrapEthernet(b).Panic? <==> FromBeBytes(bytes.bytes[12], bytes.bytes[13]) as int > 14
  {
  }

  /** With the payload after the header, a length-framed frame unwraps
      exactly when the length fits in what follows the header, and the
      payload is the `length` bytes after the header. */
  lemma IntendedLengthFrame(bytes: Payload.Unknown)
    requires |bytes.bytes| >= 14
    ensures var b := ParseIntended(bytes).value;
            var len := FromBeBytes(bytes.bytes[12], bytes.bytes[13]) as int;
            && (UnwrapEthernet(b).Panic? <==> len > |bytes.bytes| - 14)
            && (UnwrapEthernet(b).Done? ==> UnwrapEthernet(b).value.payload.payload.bytes == bytes.bytes[14..14 + len])
  {
  }
}
