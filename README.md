# ips / macress in Dafny

A model of the decoding core of `ips`, a zero-copy reader for Ethernet
frames, and of `macress`, the MAC address library it uses.

- **Payload views** (`Payload`). A borrowed byte slice becomes a sequence
  of `bv8`. `Unknown` is unclassified bytes and `Any` an opaque payload.
  The module covers `consume`, the three padded splits, the conversions
  and the sizes.
- **Ethernet base header** (`Ethernet`). Parsing reads the 14-byte header:
  two EUI-48 addresses and a big-endian type-or-length field. The module
  also covers the four VLAN maps and the two readings of the field: a
  length (`unwrap_ethernet`, `try_unrwap_ethernet`) or an EtherType
  (`unwrap_ethernet2`).
- **VLAN extensions** (`Vlan`, `VlanStack`).
  - The 16-bit tag codec of section 9.6 of IEEE 802.1Q: priority code point
    in bits 13-15, drop eligible indicator in bit 12, 12-bit identifier.
  - The stacked tag, the unparsed `Any` value and its narrowing casts.
  - The stack parser `Any::parse` / `AnyHeader::parse`. It works step by
    step through one shared iterator, so it is modelled as a class
    (`EtherTypeIter`) driven by a method (`ParseAnyHeader`).
- **MAC addresses** (`Mac`, `MacInternal`).
  - Multicast/unicast comes from bit 0x01 of the first octet, and
    universal/local from bit 0x02.
  - In-place bit reversal is a method over an `array<bv8>`.
  - Also: the `ZERO`/`BROADCAST`/`Default` constants, the EUI-48 to
    modified EUI-64 conversion (Appendix A of RFC 4291), and the derived
    byte-wise ordering.

A Rust panic is a value of `Outcomes.Outcome` (`Done(value)` or
`Panic(message)`) carrying the source's message. `Option` and `Result`
are datatypes. An `unsafe` unchecked function gets a `requires` clause
that states the safety condition its documentation gives.

Three places in the source do not do what their documentation and the
types promise; see "Findings". In each case the model keeps the code's
behaviour as written and adds a corrected member, with lemmas that state
what the correction accepts and what it returns:

- `consume` keeps the first `amnt` bytes instead of advancing past them.
- `EthernetBase::parse` therefore carries the header itself as its payload.
- `AnyHeader::parse` panics on every input.

`EtherType::IPV4` is `0x8000` in the source (`ips/src/link/ethernet/mod.rs:199`),
while the IPv4 EtherType is `0x0800`. The model keeps `0x8000`. No
operation of the core reads this constant.

## Model

| member | source | states |
|---|---|---|
| Bytes.BeBytesRoundTrip | ips/src/link/ethernet/mod.rs:128 | decoding two octets big-endian and encoding again gives the octets back |
| Bytes.BeValueRoundTrip | ips/src/link/ethernet/mod.rs:128 | encoding a 16-bit value and decoding it gives the value back |
| Payload.ZeroPadding | ips/src/payload.rs:117-121 | zero padding has value 0 and the requested length |
| Payload.EmptySize | ips/src/payload.rs:11-13 | `Empty` has size 0: the empty payload occupies no bytes |
| Payload.AnySize | ips/src/payload.rs:107-109 | the size of an `Any` is its byte count; `Payload.PaddedSizes` states that a split keeps the total |
| Payload.UnknownSize | ips/src/payload.rs:91-98 | the length of the slice the view dereferences to; `Payload.UnknownFromAny` and `Payload.AnyFromUnknown` state that the conversions keep it |
| Payload.ValuePaddingSize | ips/src/payload.rs:122-126 | the size of `length` copies of the value, given `T::size`; no `Size` for `u8` exists, so no zero padding has a size; the product is unbounded, without the `usize` overflow |
| Payload.UnknownFromAny | ips/src/payload.rs:81-85 | the conversion keeps every byte, and so the size |
| Payload.UnknownFromSlice | ips/src/payload.rs:86-90 | the view holds exactly the slice's bytes |
| Payload.AnyFromUnknown | ips/src/payload.rs:102-106 | the conversion keeps every byte, and so the size |
| Payload.ConversionsRoundTrip | ips/src/payload.rs:81-106 | `Unknown` to `Any` and back, in either order, is the identity |
| Payload.ConsumeUnchecked | ips/src/payload.rs:29-31 | the result is the first `amnt` bytes, a prefix of the buffer |
| Payload.Consume | ips/src/payload.rs:21-27 | panics iff `amnt` exceeds the length; otherwise the length-`amnt` prefix |
| Payload.Advance | ips/src/payload.rs:20-23 | the documented "advance": same panic condition; otherwise the bytes after offset `amnt`, which follow the first `amnt` bytes to make up the buffer |
| Payload.ConsumeThenAdvanceSplits | ips/src/payload.rs:20-31 | what `consume` keeps followed by what advancing keeps is the whole buffer |
| Payload.ConsumeLengthIsNotRemainder | ips/src/payload.rs:21-31 | `consume(n)` on `L` bytes has the `L - n` bytes of an advance only when `L == 2n` |
| Payload.ConsumeKeepsPrefixExample | ips/src/payload.rs:29-31 | `[1, 2]` consumed by 1 is `[1]`; advanced by 1 it is `[2]` |
| Payload.AsPaddedAnyUnchecked | ips/src/payload.rs:72-78 | payload of `length` bytes, and payload followed by padding is the buffer |
| Payload.AsPaddedAny | ips/src/payload.rs:56-62 | panics iff `length > len`; otherwise the same split |
| Payload.TryAsPaddedAny | ips/src/payload.rs:40-46 | none iff `length > len`; otherwise the same split |
| Payload.PaddedSplitUnique | ips/src/payload.rs:72-78 | a split is determined by its length |
| Payload.SplitsAgree | ips/src/payload.rs:40-78 | the checked, fallible and unchecked splits agree and fail on the same inputs |
| Payload.PaddedSizes | ips/src/payload.rs:72-78 | payload size is `length`, and payload plus padding sizes are the buffer size |
| Vlan.PriorityCode | ips/src/link/ethernet/vlan.rs:30-39 | every discriminant is at most 7 |
| Vlan.DefaultPriority | ips/src/link/ethernet/vlan.rs:41-45 | the default level is the one with code 1 (best effort) |
| Vlan.PriorityCodeInjective | ips/src/link/ethernet/vlan.rs:30-39 | equal codes iff equal levels |
| Vlan.NewIdentifier | ips/src/link/ethernet/vlan.rs:121-127 | none iff the value exceeds 0xFFF; otherwise an identifier holding that value |
| Vlan.NewIdentifierUnchecked | ips/src/link/ethernet/vlan.rs:129-131 | within 12 bits it agrees with the checked constructor |
| Vlan.EmptySize | ips/src/link/ethernet/vlan.rs:24-26 | no extension has size 0; `Vlan.UnwrapEmpty` states it matches the size of an empty `Any` |
| Vlan.IdentifierGet | ips/src/link/ethernet/vlan.rs:133-135 | the stored value; `Vlan.NewIdentifier` states it is the value given to `new` |
| Vlan.TagSize | ips/src/link/ethernet/vlan.rs:55-57 | a tag takes 4 bytes; `Vlan.UnwrapTag` states it matches the size of the `Any` it came from |
| Vlan.NewTag | ips/src/link/ethernet/vlan.rs:69-71 | `Vlan.NewTagRoundTrip` states that the fields decode back to the arguments, `Vlan.OversizedIdentifierSpills` what an oversized identifier does |
| Vlan.TagGet | ips/src/link/ethernet/vlan.rs:105-107 | the 16 raw bits; `Vlan.RawTag` states it inverts `raw` |
| Vlan.DropEligible | ips/src/link/ethernet/vlan.rs:95-97 | bit 12; `Vlan.NewTagRoundTrip` and `Vlan.TagFieldsRoundTrip` state it is the drop flag of `new` |
| Vlan.StackedSize | ips/src/link/ethernet/vlan.rs:159-163 | 4 plus the remainder's size; `Vlan.MapRemainderSize` and `Vlan.UnwrapStack` state it |
| Vlan.First | ips/src/link/ethernet/vlan.rs:216-218 | the first header's EtherType; `VlanStack.ResolveTags` chooses the cast by it |
| Vlan.AnySize | ips/src/link/ethernet/vlan.rs:294-301 | region length plus the 2-byte final type field, 0 without a header; `VlanStack.ParseAnyIntended` and `VlanStack.ResolveTags` state what it measures |
| Vlan.RawTag | ips/src/link/ethernet/vlan.rs:74-76 | `get` of the raw tag is the value |
| Vlan.Priority | ips/src/link/ethernet/vlan.rs:80-93 | the level's code is bits 13-15; the `unreachable!` arm is dead |
| Vlan.TagIdentifier | ips/src/link/ethernet/vlan.rs:100-102 | always within 12 bits, so the checked constructor accepts it |
| Vlan.NewTagRoundTrip | ips/src/link/ethernet/vlan.rs:69-102 | for an in-range identifier, priority, drop bit and identifier decode back to the arguments of `new` |
| Vlan.TagFieldsRoundTrip | ips/src/link/ethernet/vlan.rs:69-102 | every tag is `new` of its three decoded fields |
| Vlan.OversizedIdentifierSpills | ips/src/link/ethernet/vlan.rs:69-71 | for every identifier value over 12 bits (only `new_unchecked` makes one), `new` does not read it back: the identifier keeps the low 12 bits, bit 12 sets the drop flag and bits 13-15 are ORed into the priority code |
| Vlan.MapRemainder | ips/src/link/ethernet/vlan.rs:146-150 | the tag is kept and the remainder is `f` of the old one |
| Vlan.MapRemainderLaws | ips/src/link/ethernet/vlan.rs:146-150 | identity and composition laws of `map_remainder` |
| Vlan.MapRemainderSize | ips/src/link/ethernet/vlan.rs:159-163 | a stacked size is 4 plus the mapped remainder's size |
| Vlan.UnwrapStack | ips/src/link/ethernet/vlan.rs:244-266 | succeeds iff a QINQ header with at least 4 bytes (with the source's short-data message); tag from bytes 0-1, remainder typed by bytes 2-3 and holding bytes 4..; the size is kept |
| Vlan.UnwrapTag | ips/src/link/ethernet/vlan.rs:269-280 | succeeds iff a DOT1Q header with exactly 2 bytes (with the source's message); the tag is those bytes; the size is kept |
| Vlan.UnwrapEmpty | ips/src/link/ethernet/vlan.rs:285-301 | succeeds iff there is no header; sizes agree |
| Vlan.NarrowingCastsExclusive | ips/src/link/ethernet/vlan.rs:244-290 | at most one narrowing cast accepts a value |
| VlanStack.EtherTypeValues | ips/src/link/ethernet/vlan.rs:173-178 | `chunks(2).skip(1).step_by(2)` yields `(len + 1) / 4` values |
| VlanStack.EtherTypeValueAt | ips/src/link/ethernet/vlan.rs:173-178 | value `j` is the big-endian EtherType at bytes `4j+2, 4j+3`, or a slice error for a trailing single byte |
| VlanStack.LeadingQinq | ips/src/link/ethernet/vlan.rs:181-185 | the count is the length of the leading run of QINQ values |
| VlanStack.LeadingQinqUnique | ips/src/link/ethernet/vlan.rs:181-185 | that run length is the only count with that property |
| VlanStack.EtherTypeIter.Next | ips/src/link/ethernet/vlan.rs:173-179 | the outer `take_while`: yields the next value only if it is a VLAN EtherType; the first other value is dropped and ends the iteration |
| VlanStack.AsWrittenPanic | ips/src/link/ethernet/vlan.rs:172-214 | the message each stage panics with; `VlanStack.ParseAnyHeader` states the parse always ends in it |
| VlanStack.ParseAnyHeader | ips/src/link/ethernet/vlan.rs:172-214 | as written: panics on every input, and the message is the one the values determine |
| VlanStack.ParseAny | ips/src/link/ethernet/vlan.rs:232-241 | a non-VLAN EtherType returns it, no header and the payload untouched; a VLAN EtherType panics as `AnyHeader::parse` does |
| VlanStack.ParseAnyIntended | ips/src/link/ethernet/vlan.rs:172-241 | as intended: non-VLAN types as in the source; on success the region, the final non-VLAN type field and the rest make up the payload, so the `Any` size plus the rest is the payload size, and the region is `4 * h - 2` bytes of a well-formed stack of `h` headers |
| VlanStack.AcceptStack | ips/src/link/ethernet/vlan.rs:209-213 | for a well-formed stack of `h` headers: a `4 * h - 2`-byte region, then the final type field, then the rest make up the payload |
| VlanStack.SplitAtTypeField | ips/src/link/ethernet/vlan.rs:209-213 | a buffer is the bytes before a type field, the field's big-endian value and the bytes after it |
| VlanStack.StackHeaders | ips/src/link/ethernet/vlan.rs:181-198 | every stack of a chain has the same header count: one for DOT1Q, and for QINQ the QINQ run plus two |
| VlanStack.ClosedRunIsStack | ips/src/link/ethernet/vlan.rs:181-198 | a QINQ run closed by DOT1Q, or a given DOT1Q, is a stack of that count |
| VlanStack.ParseAnyIntendedAccepts | ips/src/link/ethernet/vlan.rs:172-213 | for every VLAN input: accepted iff the chain is a well-formed stack of some `h` headers, and then the region holds `4 * h - 2` bytes |
| VlanStack.ParseAnyIntendedPanics | ips/src/link/ethernet/vlan.rs:187-209 | for every VLAN input: the stack error iff the chain has no stack shape; "ran out of data" iff the stack is not followed by a complete value; the DOT1Q error iff it is followed by a VLAN EtherType |
| VlanStack.IntendedPanicsAreSourcePanics | ips/src/link/ethernet/vlan.rs:187-209 | the intended parse fails only with the source's three messages |
| VlanStack.ResolveTags | ips/src/link/ethernet/vlan.rs:244-301 | resolving an `Any` value with the narrowing casts gives one tag per 4 bytes of its size |
| VlanStack.ResolveRegion | ips/src/link/ethernet/vlan.rs:244-280 | a region of `n` QINQ headers and one DOT1Q header resolves to its `n + 1` tags, in order |
| VlanStack.TypesInRegion | ips/src/link/ethernet/vlan.rs:173-185 | the type fields inside the region of a stack are the leading QINQ run and the DOT1Q after it |
| VlanStack.IntendedRegion | ips/src/link/ethernet/vlan.rs:209-213 | an accepted region is the first `4 * n + 2` bytes of the payload, for a well-formed stack of `n + 1` headers |
| VlanStack.ResolveStacked | ips/src/link/ethernet/vlan.rs:244-266 | resolving a QINQ region takes its first tag, then resolves the rest typed by its first type field |
| VlanStack.ParsedRegionResolves | ips/src/link/ethernet/vlan.rs:172-280 | every region the intended parse accepts resolves through the casts, one tag per VLAN header of the stack, tag `i` read from bytes `4i, 4i+1` |
| VlanStack.SingleTagScenario | ips/src/link/ethernet/vlan.rs:172-214 | DOT1Q with tag 5 and type 0x0800: as intended, one tag with id 5, priority 0, not droppable, and an empty rest; as written, a panic |
| VlanStack.DoubleTagScenario | ips/src/link/ethernet/vlan.rs:172-214 | QINQ tag 10, DOT1Q tag 11, type 0x0800: as intended, a stacked tag 10 over tag 11 and an empty rest; as written, a panic |
| VlanStack.Dot1qBeforeQinqScenario | ips/src/link/ethernet/vlan.rs:187-209 | DOT1Q, QINQ, DOT1Q, type 0x0800: as intended, the DOT1Q error |
| VlanStack.UnterminatedStackScenario | ips/src/link/ethernet/vlan.rs:187-198 | two QINQ headers with no DOT1Q before the data ends: both versions panic with the stack error |
| MacInternal.TransmissionOf | macress/src/internal.rs:12-18 | multicast iff bit 0x01 of octet 0 is set; the `unreachable!` arm is dead |
| MacInternal.AdminOf | macress/src/internal.rs:19-25 | local iff bit 0x02 of octet 0 is set; the `unreachable!` arm is dead |
| MacInternal.ClassificationReadsLowBits | macress/src/internal.rs:12-25 | both classifications depend only on the two low bits of octet 0 |
| MacInternal.ClassificationsIndependent | macress/src/internal.rs:12-25 | flipping one of the two bits flips one classification and keeps the other |
| MacInternal.ReverseByte | macress/src/internal.rs:28 | `u8::reverse_bits`; `MacInternal.ReverseByteMirrorsBits` states it mirrors the bits |
| MacInternal.ReverseByteMirrorsBits | macress/src/internal.rs:28 | `u8::reverse_bits` moves bit `i` to bit `7 - i` |
| MacInternal.ReverseByteInvolution | macress/src/internal.rs:28 | reversing a byte twice gives it back |
| MacInternal.ReversedBits | macress/src/internal.rs:26-29 | the reversed value has the same width |
| MacInternal.ReversedBitsAt | macress/src/internal.rs:26-29 | new octet `i` is the bit-reversed old octet `n - 1 - i` |
| MacInternal.ReversedBitsExt | macress/src/internal.rs:26-29 | any string with those octets is the reversed value |
| MacInternal.ReversedBitsInvolution | macress/src/internal.rs:26-29 | reversing twice restores the value |
| MacInternal.OctetBitsReversed | macress/src/internal.rs:28 | the bits of a reversed octet are its bits in reverse order |
| MacInternal.ReversedBitsReversesBitString | macress/src/internal.rs:26-29 | the whole 48- or 64-bit string is reversed |
| MacInternal.ReverseBits | macress/src/internal.rs:26-29 | in place, the buffer becomes the reversed value of its old contents |
| Mac.New | macress/src/lib.rs:45-47 | `get` of a new address is its inner value |
| Mac.Get | macress/src/lib.rs:50-52 | the inner value; `Mac.NewGetRoundTrip` states it inverts `new` |
| Mac.NewGetRoundTrip | macress/src/lib.rs:43-53 | `new` and `get` are inverse to each other |
| Mac.GetTransmission | macress/src/lib.rs:88-91 | the inner value's transmission; `MacInternal.TransmissionOf` states which bit decides it |
| Mac.GetAdmin | macress/src/lib.rs:93-96 | the inner value's administration; `MacInternal.AdminOf` states which bit decides it |
| Mac.IsMulticast | macress/src/lib.rs:98-100 | `Mac.ClassifiersComplementary` states it is bit 0x01 |
| Mac.IsUnicast | macress/src/lib.rs:102-105 | `Mac.ClassifiersComplementary` states it is the negation of multicast |
| Mac.IsUniversal | macress/src/lib.rs:107-109 | `Mac.ClassifiersComplementary` states it is the negation of local |
| Mac.IsLocal | macress/src/lib.rs:111-113 | `Mac.ClassifiersComplementary` states it is bit 0x02 |
| Mac.ClassifiersComplementary | macress/src/lib.rs:97-113 | multicast iff not unicast, universal iff not local, each read from its bit |
| Mac.ReverseAddressBits | macress/src/lib.rs:116-118 | in place, the address becomes its reversed value |
| Mac.ReverseAddressBitsTwice | macress/src/lib.rs:116-118 | reversing twice restores the buffer |
| Mac.Default48 | macress/src/lib.rs:176-180 | the default EUI-48 address is all zero octets |
| Mac.Default64 | macress/src/lib.rs:182-186 | the default EUI-64 address is all zero octets |
| Mac.ConstantsClassified | macress/src/lib.rs:121-138 | `BROADCAST` is multicast and local, `ZERO` unicast and universal, both widths; the defaults are `ZERO` |
| Mac.ToInterface | macress/src/lib.rs:127-130 | octet layout `a0^0x02, a1, a2, FF, FE, a3, a4, a5`; administration flipped, transmission kept |
| Mac.ToInterfaceInjective | macress/src/lib.rs:127-130 | distinct addresses give distinct interface identifiers |
| Mac.BroadcastInterface | macress/src/lib.rs:125-130 | the broadcast address converts to `FD FF FF FF FE FF FF FF` |
| Mac.Compare | macress/src/lib.rs:40 | the derived lexicographic order; the lemmas below state it is a strict total order decided by the first differing octet |
| Mac.CompareAddress | macress/src/lib.rs:40 | the order of the inner octet arrays |
| Mac.CompareEqual | macress/src/lib.rs:40 | the derived comparison is `Equal` iff the octets are equal |
| Mac.CompareAntisymmetric | macress/src/lib.rs:40 | `x < y` iff `y > x` |
| Mac.CompareTransitive | macress/src/lib.rs:40 | `<` is transitive |
| Mac.CompareFirstDifference | macress/src/lib.rs:40 | equal-width addresses are ordered by their first differing octet |
| Mac.LessHasFirstDifference | macress/src/lib.rs:40 | conversely, `x < y` has a first differing octet where `x` is smaller |
| Ethernet.Length | ips/src/link/ethernet/mod.rs:39-41 | the type-or-length field; `Ethernet.LengthAndEthertypeAgree` states the two readings agree |
| Ethernet.Ethertype | ips/src/link/ethernet/mod.rs:43-45 | the same field read as an EtherType |
| Ethernet.LengthAndEthertypeAgree | ips/src/link/ethernet/mod.rs:39-45 | `length` and `ethertype` read the same 16 bits |
| Ethernet.MapVlan | ips/src/link/ethernet/mod.rs:47-59 | addresses kept; field, extension and payload are `f` of the old ones |
| Ethernet.TryMapVlan | ips/src/link/ethernet/mod.rs:61-73 | error iff `f` errs, with its error; otherwise as `map_vlan` |
| Ethernet.MapVlanNoPayload | ips/src/link/ethernet/mod.rs:75-87 | addresses and payload kept; field and extension are `f` of the old ones |
| Ethernet.TryMapVlanNoPayload | ips/src/link/ethernet/mod.rs:89-101 | error iff `f` errs, with its error; otherwise as `map_vlan_no_payload` |
| Ethernet.MapVlanLaws | ips/src/link/ethernet/mod.rs:47-59 | identity and composition laws of `map_vlan` |
| Ethernet.MapVlanNoPayloadIsMapVlan | ips/src/link/ethernet/mod.rs:47-87 | `map_vlan_no_payload` is `map_vlan` with the payload passed through |
| Ethernet.TryMapVlanOfTotal | ips/src/link/ethernet/mod.rs:47-101 | the fallible maps with an always-`Ok` function are the plain maps |
| Ethernet.HeaderBytes | ips/src/link/ethernet/mod.rs:125-128 | a header stands for 14 bytes |
| Ethernet.ConsumeUnknown | ips/src/link/ethernet/mod.rs:125-137 | the header fields are the first 14 bytes; the extension is unknown; as written the payload is those 14 bytes |
| Ethernet.Parse | ips/src/link/ethernet/mod.rs:106-113 | error iff fewer than 14 bytes; otherwise the header of the first 14 bytes |
| Ethernet.ParseUnchecked | ips/src/link/ethernet/mod.rs:121-123 | with 14 bytes it agrees with `parse` |
| Ethernet.ParseIntended | ips/src/link/ethernet/mod.rs:104-137 | as documented: error iff fewer than 14 bytes; header bytes followed by the payload are the input |
| Ethernet.ParsesAgreeOnHeader | ips/src/link/ethernet/mod.rs:125-137 | both parses read the same header; only the payload differs |
| Ethernet.ParseIntendedRoundTrip | ips/src/link/ethernet/mod.rs:125-137 | a header and payload laid out as bytes parse back to themselves |
| Ethernet.UnwrapEthernet | ips/src/link/ethernet/mod.rs:143-151 | panics iff the length exceeds the payload; otherwise addresses and extension kept, payload split at the length |
| Ethernet.TryUnwrapEthernet | ips/src/link/ethernet/mod.rs:157-165 | error iff the length exceeds the payload; otherwise the same frame as `unwrap_ethernet` |
| Ethernet.UnwrapEthernet2 | ips/src/link/ethernet/mod.rs:169-178 | addresses, extension and payload kept; the EtherType is the field |
| Ethernet.InterpretationsAgree | ips/src/link/ethernet/mod.rs:140-179 | the length view splits exactly the payload the EtherType view keeps |
| Ethernet.ParsedLengthFrameLosesPayload | ips/src/link/ethernet/mod.rs:135 | as written, `unwrap_ethernet` of a parsed frame panics iff its length field exceeds 14, whatever follows the header |
| Ethernet.IntendedLengthFrame | ips/src/link/ethernet/mod.rs:135-149 | with the intended parse, it panics iff the length exceeds the bytes after the header, and the payload is the `length` bytes after the header |

## Left out

- `macress/src/fmt.rs`: hexadecimal text formatting through the foreign `core::fmt` formatter. Without a width, `{:X}` prints the octet 0x01 as `1`, not the `01` its documentation shows.
- `FromStr` for addresses (`macress/src/lib.rs:212-225`): the source has `unimplemented!()` there.
- The serde impls and `AddressVisitor` (`macress/src/lib.rs:140-174`, `macress/src/internal.rs:53-80`): glue to a foreign library.
- `Debug`/`Display` for addresses (`macress/src/lib.rs:188-210`): formatting plumbing.
- `AsRef`/`AsMut`/`Borrow`/`BorrowMut`/`From` for `Address` (`macress/src/lib.rs:55-83`): plain access to the inner value. The model reads `inner` directly. A `&mut` to the octets is the `array<bv8>` that the bit-reversal methods take.
- The `Extension`, `Header` and `Size` traits (`ips/src/link/ethernet/vlan.rs:11-17`, `ips/src/physical.rs`): traits are not modelled. Each `size` is a function per type, and `Header::tag` is the `tag` field.
- `physical::Error` appears only as the `PhysicalError` error value.
- `ips/src/lib.rs` is module wiring and a placeholder test, and is not part of this model.
- `MIN_PAYLOAD_LEN`, `MAX_PAYLOAD_LEN` and `MAX_JUMBO_PAYLOAD_LEN` are declared as constants. No operation of the core reads them.
- Ethernet.MapVlan: does not model an `FnOnce` closure that panics or has effects, because the argument is a total Dafny function.
- Ethernet.TryMapVlan: does not model an `FnOnce` closure that panics or has effects, because the argument is a total Dafny function.
- Ethernet.MapVlanNoPayload: does not model an `FnOnce` closure that panics or has effects, because the argument is a total Dafny function.
- Ethernet.TryMapVlanNoPayload: does not model an `FnOnce` closure that panics or has effects, because the argument is a total Dafny function.
- Vlan.MapRemainder: does not model an `FnOnce` closure that panics or has effects, because the argument is a total Dafny function.
- Lifetimes and borrowing: a borrowed slice is its sequence of bytes, so aliasing between the views is not modelled.
- `usize` lengths are unbounded naturals. The lengths and offsets the core computes from slices (the 14-byte header, `4 * headers - 2`, the splits) stay below the length of a slice in memory, so none of them overflows.
- Payload.ValuePaddingSize: the size is the unbounded product `valueSize * length`. In the source it is a `usize` product of a stored count (payload.rs:124), which panics in a debug build and wraps modulo 2^64 in a release build once it exceeds `usize::MAX`; the model has neither.
- VlanStack.ParseAnyHeader: states which panic the parse ends in, not the tuple it would build, because no input gets past the final stage.

## Findings

| source | as written | input that shows it | evidently intended | confidence | as-written member | corrected member |
|---|---|---|---|---|---|---|
| ips/src/payload.rs:20-31 | `consume(amnt)` returns `get_unchecked(..amnt)`, the first `amnt` bytes | `Unknown([1, 2]).consume(1)` is `[1]` | the documented "advances the buffer": the bytes from offset `amnt` on, `[2]` | high, not executed | Payload.Consume | Payload.Advance |
| ips/src/link/ethernet/mod.rs:135 | `EthernetBase::parse` stores `bytes.consume(14)`, the header itself, as the payload | any frame with a length field above 14, such as a 60-byte frame with length 46: `unwrap_ethernet` panics | the payload is the bytes after the 14-byte header | high, not executed | Ethernet.Parse | Ethernet.ParseIntended |
| ips/src/link/ethernet/vlan.rs:172-214 | the final stage reads the shared iterator behind a `take_while` that yields only VLAN EtherTypes. Its only accepting arm, a non-VLAN value, can never match, so `AnyHeader::parse` panics on every input. The inner `take_while` also swallows the DOT1Q after the QINQ run. The rest would be `payload.consume(read_len)` (line 212), which as written is the region itself (the `Consume` of the first row). With the intended advance it would start at the final type field, which the `Size` of `Any` counts as part of the extension. | DOT1Q followed by `00 05 08 00` panics with "ran out of data" | as the documentation of `Any::parse` (line 231) and the `Size` of `Any` (lines 294-301) describe: the QINQ run, the given header included, ends in one DOT1Q. The next value is the final type, the region is `4 * headers - 2` bytes, and the rest starts after the final type field. So QINQ `00 0A 81 00 00 0B 08 00` gives tags 10 and 11, type 0x0800 and an empty rest. This header count departs from the arithmetic of lines 188-200, which counts the QINQ values after the given header: DOT1Q over the payload `00 01 88 A8 00 02 81 00 00 03 08 00` (DOT1Q, QINQ, DOT1Q, type 0x0800) would be three headers there, and is the DOT1Q error in the corrected member. | high that it always panics; medium for the intended header count, not executed | VlanStack.ParseAnyHeader | VlanStack.ParseAnyIntended |
