/** VLAN header extensions of an Ethernet frame: the 16-bit tag codec
    (section 9.6 of IEEE 802.1Q: priority code point in the top 3 bits, drop
    eligible indicator in bit 12, VLAN identifier in the low 12 bits), the
    stacked tag, and the unparsed `Any` value with its narrowing casts. */
module Vlan {
  import O = Outcomes
  import Payload
  import opened EtherTypes
  import opened Bytes

  /** No extension header. */
  datatype Empty = Empty

  function EmptySize(e: Empty): nat
  {
    0
  }

  /** Marker: it is not yet known whether the frame carries a VLAN header. */
  datatype UnknownVlan = UnknownVlan

  // ------------------------------------------------------------ priority

  datatype PriorityLevel =
    | Background
    | BestEffort
    | ExcellentEffort
    | CriticalApplications
    | Video
    | Voice
    | InternetworkControl
    | NetworkControl

  /** The discriminant of a priority level (`priority as u16`). */
  function PriorityCode(p: PriorityLevel): (c: bv16)
    ensures c <= 7
  {
    match p
    case Background => 0
    case BestEffort => 1
    case ExcellentEffort => 2
    case CriticalApplications => 3
    case Video => 4
    case Voice => 5
    case InternetworkControl => 6
    case NetworkControl => 7
  }

  /** `Default for PriorityLevel`. */
  function DefaultPriority(): (p: PriorityLevel)
    ensures PriorityCode(p) == 1
  {
    BestEffort
  }

  /** Distinct levels have distinct codes, so a code names one level. */
  lemma PriorityCodeInjective(p: PriorityLevel, q: PriorityLevel)
    ensures PriorityCode(p) == PriorityCode(q) <==> p == q
  {
  }

  // ---------------------------------------------------------- identifier

  /** A VLAN identifier; the checked constructor keeps it within 12 bits. */
  datatype Identifier = Identifier(raw: bv16)

  /** Identifier 0x000: no VLAN identifier is present (Table 9-2 of IEEE 802.1Q). */
  const NONE: Identifier := Identifier(0x000)
  /** Identifier 0xFFF: reserved (Table 9-2 of IEEE 802.1Q). */
  const RESERVED: Identifier := Identifier(0xFFF)

  /** `Identifier::new`: no identifier for a value over 12 bits. */
  function NewIdentifier(v: bv16): (r: O.Option<Identifier>)
    ensures r.None? <==> v > 0xFFF
    ensures r.Some? ==> IdentifierGet(r.value) == v
  {
    if v > 0xFFF then O.None else O.Some(Identifier(v))
  }

  /** `Identifier::new_unchecked`; the caller has checked the 12-bit range. */
  function NewIdentifierUnchecked(v: bv16): (r: Identifier)
    requires v <= 0xFFF
    ensures NewIdentifier(v) == O.Some(r)
  {
    Identifier(v)
  }

  function IdentifierGet(i: Identifier): bv16
  {
    i.raw
  }

  // ----------------------------------------------------------------- tag

  /** A VLAN tag: the raw 16-bit tag control information. */
  datatype Tag = Tag(raw: bv16)

  const PCP_MASK: bv16 := 0xE000
  const PCP_SHIFT: bv16 := 13
  const DEI_MASK: bv16 := 0x1000
  const DEI_SHIFT: bv16 := 12
  const ID_MASK: bv16 := 0x0FFF

  /** A tag occupies 4 bytes: its own 2 bytes and the 2-byte type field after it. */
  function TagSize(t: Tag): nat
  {
    4
  }

  /** `Tag::new`: the identifier ORed with the drop bit and the priority code shifted into place. */
  function NewTag(id: Identifier, priority: PriorityLevel, canDrop: bool): Tag
  {
    var dei: bv16 := if canDrop then 1 else 0;
    Tag(IdentifierGet(id) | (dei << DEI_SHIFT) | (PriorityCode(priority) << PCP_SHIFT))
  }

  /** `Tag::raw`. */
  function RawTag(value: bv16): (t: Tag)
    ensures TagGet(t) == value
  {
    Tag(value)
  }

  /** `Tag::get`. */
  function TagGet(t: Tag): bv16
  {
    t.raw
  }

  /** `Tag::priority`: the level whose code is in the top three bits. The
      source's `unreachable!()` arm is proved dead here. */
  function Priority(t: Tag): (p: PriorityLevel)
    ensures PriorityCode(p) == (t.raw & PCP_MASK) >> PCP_SHIFT
  {
    var c := (t.raw & PCP_MASK) >> PCP_SHIFT;
    if c == 0 then Background
    else if c == 1 then BestEffort
    else if c == 2 then ExcellentEffort
    else if c == 3 then CriticalApplications
    else if c == 4 then Video
    else if c == 5 then Voice
    else if c == 6 then InternetworkControl
    else if c == 7 then NetworkControl
    else assert false; Background
  }

  /** `Tag::drop_eligible`: bit 12. */
  function DropEligible(t: Tag): bool
  {
    t.raw & DEI_MASK != 0
  }

  /** `Tag::identifier`: the low 12 bits, so always a valid identifier. */
  function TagIdentifier(t: Tag): (id: Identifier)
    ensures IdentifierGet(id) <= 0xFFF
    ensures NewIdentifier(IdentifierGet(id)) == O.Some(id)
  {
    Identifier(t.raw & ID_MASK)
  }

  /** Decoding a tag built from an in-range identifier gives back the three fields. */
  lemma NewTagRoundTrip(id: Identifier, priority: PriorityLevel, canDrop: bool)
    requires IdentifierGet(id) <= 0xFFF
    ensures Priority(NewTag(id, priority, canDrop)) == priority
    ensures DropEligible(NewTag(id, priority, canDrop)) == canDrop
    ensures TagIdentifier(NewTag(id, priority, canDrop)) == id
  {
  }

  /** Every raw tag is the tag built from its three decoded fields. */
  lemma TagFieldsRoundTrip(t: Tag)
    ensures NewTag(TagIdentifier(t), Priority(t), DropEligible(t)) == t
  {
  }

  /** An identifier outside 12 bits (possible only through a misused
      `new_unchecked`) is not read back: the tag keeps its low 12 bits as the
      identifier, its bit 12 sets the drop bit and its bits 13 to 15 are ORed
      into the priority code. */
  lemma OversizedIdentifierSpills(v: bv16, priority: PriorityLevel, canDrop: bool)
    requires v > 0xFFF
    ensures var t := NewTag(Identifier(v), priority, canDrop);
            && TagIdentifier(t) == Identifier(v & ID_MASK)
            && TagIdentifier(t) != Identifier(v)
            && DropEligible(t) == (canDrop || v & DEI_MASK != 0)
            && PriorityCode(Priority(t)) == PriorityCode(priority) | (v >> PCP_SHIFT)
  {
  }

  // ------------------------------------------------------------- stacked

  /** A stacked VLAN tag: a tag and the extension that follows it. */
  datatype Stacked<V> = Stacked(tag: Tag, remainder: V)

  /** `Stacked::map_remainder`. */
  function MapRemainder<V, T>(s: Stacked<V>, f: V -> T): (r: Stacked<T>)
    ensures r.tag == s.tag
    ensures r.remainder == f(s.remainder)
  {
    Stacked(s.tag, f(s.remainder))
  }

  /** `Size for Stacked<V>`: the tag plus the remainder's size `remainderSize`. */
  function StackedSize<V>(s: Stacked<V>, remainderSize: V -> nat): nat
  {
    TagSize(s.tag) + remainderSize(s.remainder)
  }

  /** Mapping the remainder with the identity changes nothing, and two maps
      compose into one. */
  lemma MapRemainderLaws<V, T, U>(s: Stacked<V>, f: V -> T, g: T -> U)
    ensures MapRemainder(s, (v: V) => v) == s
    ensures MapRemainder(MapRemainder(s, f), g) == MapRemainder(s, (v: V) => g(f(v)))
  {
  }

  /** After a map the stacked size is still the tag's 4 bytes plus the new remainder's size. */
  lemma MapRemainderSize<V, T>(s: Stacked<V>, f: V -> T, size: T -> nat)
    ensures StackedSize(MapRemainder(s, f), size) == 4 + size(f(s.remainder))
  {
  }

  // ----------------------------------------------------------------- any

  /** The unparsed VLAN region and the EtherType that introduced it. */
  datatype AnyHeader = AnyHeader(first: EtherType, data: Payload.Unknown)

  /** `AnyHeader::first`. */
  function First(h: AnyHeader): EtherType
  {
    h.first
  }

  /** Any unparsed VLAN header value, or none. */
  datatype Any = Some(header: AnyHeader) | None

  /** `Size for Any`: the region plus the 2 bytes of the final type field. */
  function AnySize(a: Any): nat
  {
    match a
    case Some(h) => |h.data.bytes| + 2
    case None => 0
  }

  /** `Any::unwrap_stack`: peels the outer tag off a stacked header. */
  function UnwrapStack(a: Any): (r: O.Outcome<Stacked<Any>>)
    ensures r.Done? <==> a.Some? && a.header.first == QINQ && |a.header.data.bytes| >= 4
    ensures r.Panic? && a.Some? && a.header.first == QINQ ==>
              r.message == "expected at least 4 bytes of stacked VLAN header data"
    ensures r.Done? ==>
              var d := a.header.data.bytes;
              && r.value.tag == Tag(FromBeBytes(d[0], d[1]))
              && r.value.remainder == Some(AnyHeader(EtherType(FromBeBytes(d[2], d[3])), Payload.Unknown(d[4..])))
    ensures r.Done? ==> StackedSize(r.value, AnySize) == AnySize(a)
  {
    match a
    case Some(AnyHeader(first, Unknown(data))) =>
      if first != QINQ then
        O.Panic("expected stacked VLAN header")
      else if |data| < 4 then
        O.Panic("expected at least 4 bytes of stacked VLAN header data")
      else
        var tag := RawTag(FromBeBytes(data[0], data[1]));
        var nextType := EtherType(FromBeBytes(data[2], data[3]));
        var remainder := data[4..];
        O.Done(Stacked(tag, Some(AnyHeader(nextType, Payload.Unknown(remainder)))))
    case None =>
      O.Panic("expected stacked VLAN header")
  }

  /** `Any::unwrap_tag`: a single tag, which must be exactly 2 bytes of region. */
  function UnwrapTag(a: Any): (r: O.Outcome<Tag>)
    ensures r.Done? <==> a.Some? && a.header.first == DOT1Q && |a.header.data.bytes| == 2
    ensures r.Panic? && a.Some? && a.header.first == DOT1Q ==>
              r.message == "expected exactly 2 bytes of VLAN header data"
    ensures r.Done? ==>
              && r.value == Tag(FromBeBytes(a.header.data.bytes[0], a.header.data.bytes[1]))
              && TagSize(r.value) == AnySize(a)
  {
    match a
    case Some(AnyHeader(first, Unknown(data))) =>
      if first != DOT1Q then
        O.Panic("expected VLAN tag")
      else if |data| != 2 then
        O.Panic("expected exactly 2 bytes of VLAN header data")
      else
        O.Done(RawTag(FromBeBytes(data[0], data[1])))
    case None =>
      O.Panic("expected VLAN tag")
  }

  /** `Any::unwrap_empty`: only the absent header narrows to `Empty`. */
  function UnwrapEmpty(a: Any): (r: O.Outcome<Empty>)
    ensures r.Done? <==> a.None?
    ensures r.Done? ==> EmptySize(r.value) == AnySize(a)
  {
    match a
    case Some(_) => O.Panic("unexpected vlan header")
    case None => O.Done(Empty)
  }

  /** The narrowing casts exclude each other: at most one of them accepts a given value. */
  lemma NarrowingCastsExclusive(a: Any)
    ensures !(UnwrapStack(a).Done? && UnwrapTag(a).Done?)
    ensures !(UnwrapStack(a).Done? && UnwrapEmpty(a).Done?)
    ensures !(UnwrapTag(a).Done? && UnwrapEmpty(a).Done?)
  {
  }
}
