/** Byte payload views: raw unclassified bytes (`Unknown`), an opaque
    classified payload (`Any`), and a payload followed by padding (`Padded`).
    A borrowed slice is modelled by the sequence of its bytes. */
module Payload {
  import opened Outcomes

  /** No payload at all. */
  datatype Empty = Empty

  /** Bytes whose start or end has not been determined yet. */
  datatype Unknown = Unknown(bytes: seq<bv8>)

  /** An unparsed payload value. */
  datatype Any = Any(bytes: seq<bv8>)

  /** A payload followed by padding. */
  datatype Padded<P, T> = Padded(payload: T, padding: P)

  /** `length` copies of `value`, to be written out as padding. */
  datatype ValuePadding<T> = ValuePadding(value: T, length: nat)

  // ---------------------------------------------------------------- Size

  function EmptySize(e: Empty): nat
  {
    0
  }

  function AnySize(a: Any): nat
  {
    |a.bytes|
  }

  /** `ValuePadding<T>::size`, where `valueSize` is `T::size`. */
  function ValuePaddingSize<T>(p: ValuePadding<T>, valueSize: T -> nat): nat
  {
    valueSize(p.value) * p.length
  }

  /** `ValuePadding::zero`: `length` zero bytes. */
  function ZeroPadding(length: nat): (p: ValuePadding<bv8>)
    ensures p.value == 0 && p.length == length
  {
    ValuePadding(0, length)
  }

  // -------------------------------------------------------- Conversions

  /** `From<Any> for Unknown`. */
  function UnknownFromAny(a: Any): (u: Unknown)
    ensures u.bytes == a.bytes
    ensures UnknownSize(u) == AnySize(a)
  {
    Unknown(a.bytes)
  }

  /** `From<&[u8]> for Unknown`. */
  function UnknownFromSlice(s: seq<bv8>): (u: Unknown)
    ensures u.bytes == s
  {
    Unknown(s)
  }

  /** `From<Unknown> for Any`. */
  function AnyFromUnknown(u: Unknown): (a: Any)
    ensures a.bytes == u.bytes
    ensures AnySize(a) == UnknownSize(u)
  {
    Any(u.bytes)
  }

  /** The length of the slice an `Unknown` dereferences to. */
  function UnknownSize(u: Unknown): nat
  {
    |u.bytes|
  }

  /** Converting between `Unknown` and `Any` never changes a byte, in either order. */
  lemma ConversionsRoundTrip(u: Unknown, a: Any)
    ensures UnknownFromAny(AnyFromUnknown(u)) == u
    ensures AnyFromUnknown(UnknownFromAny(a)) == a
  {
  }

  // ------------------------------------------------------------ consume

  /** `Unknown::consume_unchecked`: the bytes before offset `amnt`
      (the source slices with `..amnt`). Undefined behaviour past the end,
      hence the precondition. */
  function ConsumeUnchecked(u: Unknown, amnt: nat): (r: Unknown)
    requires amnt <= |u.bytes|
    ensures |r.bytes| == amnt && r.bytes <= u.bytes
  {
    Unknown(u.bytes[..amnt])
  }

  /** `Unknown::consume`: panics past the end of the buffer, otherwise the
      unchecked variant; so it keeps the first `amnt` bytes. */
  function Consume(u: Unknown, amnt: nat): (r: Outcome<Unknown>)
    ensures r.Panic? <==> amnt > |u.bytes|
    ensures r.Done? ==> |r.value.bytes| == amnt && r.value.bytes <= u.bytes
  {
    if amnt > |u.bytes| then
      Panic("attempted to advance past the end of the buffer")
    else
      Done(ConsumeUnchecked(u, amnt))
  }

  /** What `consume` is documented to do: advance the buffer, keeping the bytes
      from offset `amnt` on. Same panic condition. */
  function Advance(u: Unknown, amnt: nat): (r: Outcome<Unknown>)
    ensures r.Panic? <==> amnt > |u.bytes|
    ensures r.Done? ==> |r.value.bytes| == |u.bytes| - amnt && u.bytes[..amnt] + r.value.bytes == u.bytes
  {
    if amnt > |u.bytes| then
      Panic("attempted to advance past the end of the buffer")
    else
      Done(Unknown(u.bytes[amnt..]))
  }

  /** What `consume` keeps and what advancing keeps partition the buffer. */
  lemma ConsumeThenAdvanceSplits(u: Unknown, amnt: nat)
    requires amnt <= |u.bytes|
    ensures Consume(u, amnt).value.bytes + Advance(u, amnt).value.bytes == u.bytes
  {
  }

  /** As written, `consume(n)` on `L` bytes leaves `L - n` bytes only when
      `L == 2 * n`, so the documented "advance" behaviour does not hold. */
  lemma ConsumeLengthIsNotRemainder(u: Unknown, amnt: nat)
    requires amnt <= |u.bytes|
    ensures |Consume(u, amnt).value.bytes| == |u.bytes| - amnt <==> |u.bytes| == 2 * amnt
  {
  }

  /** A concrete input: consuming one byte of `[1, 2]` yields `[1]`, while
      advancing yields `[2]`. */
  lemma ConsumeKeepsPrefixExample()
    ensures Consume(Unknown([1, 2]), 1) == Done(Unknown([1]))
    ensures Advance(Unknown([1, 2]), 1) == Done(Unknown([2]))
  {
    assert [1, 2][..1] == [1 as bv8];
    assert [1, 2][1..] == [2 as bv8];
  }

  // ---------------------------------------------------------- padding

  /** `Unknown::as_padded_any_unchecked`: the first `length` bytes become the
      payload and the rest the padding. */
  function AsPaddedAnyUnchecked(u: Unknown, length: nat): (r: Padded<seq<bv8>, Any>)
    requires length <= |u.bytes|
    ensures |r.payload.bytes| == length
    ensures r.payload.bytes + r.padding == u.bytes
  {
    Padded(Any(u.bytes[..length]), u.bytes[length..])
  }

  /** `Unknown::as_padded_any`, through `split_at`, which panics when
      `length > len`. */
  function AsPaddedAny(u: Unknown, length: nat): (r: Outcome<Padded<seq<bv8>, Any>>)
    ensures r.Panic? <==> length > |u.bytes|
    ensures r.Done? ==> |r.value.payload.bytes| == length && r.value.payload.bytes + r.value.padding == u.bytes
  {
    if length > |u.bytes| then
      Panic("mid > len")
    else
      var bytes, padding := u.bytes[..length], u.bytes[length..];
      Done(Padded(Any(bytes), padding))
  }

  /** `Unknown::try_as_padded_any`: no value when `length` is past the end. */
  function TryAsPaddedAny(u: Unknown, length: nat): (r: Option<Padded<seq<bv8>, Any>>)
    ensures r.None? <==> length > |u.bytes|
    ensures r.Some? ==> |r.value.payload.bytes| == length && r.value.payload.bytes + r.value.padding == u.bytes
  {
    if length > |u.bytes| then
      None
    else
      Some(AsPaddedAnyUnchecked(u, length))
  }

  /** A split is determined by its length: whenever a payload of `length`
      bytes followed by its padding is the buffer, it is the unchecked split. */
  lemma PaddedSplitUnique(u: Unknown, length: nat, p: Padded<seq<bv8>, Any>)
    requires |p.payload.bytes| == length && p.payload.bytes + p.padding == u.bytes
    ensures length <= |u.bytes| && p == AsPaddedAnyUnchecked(u, length)
  {
  }

  /** The three splitting operations agree: the checked and the fallible one
      give exactly the unchecked split wherever it is defined, and fail on the
      same inputs. */
  lemma SplitsAgree(u: Unknown, length: nat)
    ensures TryAsPaddedAny(u, length).None? <==> AsPaddedAny(u, length).Panic?
    ensures length <= |u.bytes| ==>
              && AsPaddedAny(u, length) == Done(AsPaddedAnyUnchecked(u, length))
              && TryAsPaddedAny(u, length) == Some(AsPaddedAnyUnchecked(u, length))
  {
  }

  /** Size law for a padded split: the payload is `length` bytes and payload
      plus padding account for every byte of the buffer. */
  lemma PaddedSizes(u: Unknown, length: nat)
    requires length <= |u.bytes|
    ensures AnySize(AsPaddedAnyUnchecked(u, length).payload) == length
    ensures AnySize(AsPaddedAnyUnchecked(u, length).payload) + |AsPaddedAnyUnchecked(u, length).padding| == UnknownSize(u)
  {
  }
}
