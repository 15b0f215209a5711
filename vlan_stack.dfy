/** The VLAN stack parser (`Any::parse` and `AnyHeader::parse`).

    The source walks one iterator over the candidate EtherTypes of the VLAN
    region: the payload is cut into 2-byte chunks, the first chunk (the first
    header's own tag) is skipped and every other chunk after it is read as a
    big-endian EtherType, so value `j` comes from bytes `4j+2 .. 4j+4`; a
    trailing 1-byte chunk gives an error value. That iterator is wrapped in a
    `take_while` that passes VLAN EtherTypes only and stops for good at the
    first other value. Three consuming stages then share it: an inner
    `take_while(QINQ).count()`, a `next()` that must yield DOT1Q when any
    QINQ value was counted, and a `next()` meant to yield the final
    EtherType or length.

    Because the outer `take_while` never yields a non-VLAN value, the last
    stage can never succeed, and the parse as written panics on every input
    (`ParseAnyHeader`). `ParseAnyIntended` is the parse that the documentation
    of `Any::parse`, the `Size` of `Any` and the narrowing casts on `Any`
    expect. */
module VlanStack {
  import opened Outcomes
  import opened EtherTypes
  import opened Bytes
  import Payload
  import Vlan

  /** `TryFromSliceError`: a chunk was not two bytes long. */
  datatype SliceError = TryFromSliceError

  /** One value of the EtherType iterator. */
  type Chunk = Result<EtherType, SliceError>

  /** The predicate of the outer `take_while`. */
  predicate IsVlanValue(c: Chunk)
  {
    c.Ok? && IsVlanExtension(c.value)
  }

  /** The predicate of the inner `take_while`. */
  predicate IsQinqValue(c: Chunk)
  {
    c.Ok? && c.value == QINQ
  }

  const BAD_STACK := "bad VLAN extension; expected DOT1Q after all QinQ headers"
  const EXTRA_VLAN := "bad VLAN extension; expected ethertype or length after VLAN DOT1Q header"
  const RAN_OUT := "bad ethernet payload; expected ethertype or length after VLAN headers, but ran out of data"

  // ------------------------------------------------- the EtherType values

  /** `chunks(2).skip(1).step_by(2).map(..)` over the payload. */
  function EtherTypeValues(p: seq<bv8>): (e: seq<Chunk>)
    ensures |e| == (|p| + 1) / 4
    decreases |p|
  {
    if |p| <= 2 then []
    else if |p| < 4 then [Err(TryFromSliceError)]
    else [Ok(EtherType(FromBeBytes(p[2], p[3])))] + EtherTypeValues(p[4..])
  }

  /** Value `j` is read from bytes `4j+2 .. 4j+4`, or is an error when only byte `4j+2` is left. */
  lemma {:induction false} EtherTypeValueAt(p: seq<bv8>, j: nat)
    requires j < |EtherTypeValues(p)|
    ensures 4 * j + 2 < |p|
    ensures 4 * j + 4 <= |p| ==> EtherTypeValues(p)[j] == Ok(EtherType(FromBeBytes(p[4 * j + 2], p[4 * j + 3])))
    ensures 4 * j + 4 > |p| ==> EtherTypeValues(p)[j] == Err(TryFromSliceError)
  {
    if j > 0 {
      EtherTypeValueAt(p[4..], j - 1);
    }
  }

  /** How many values at the front are QINQ: what the inner `take_while(..).count()` returns. */
  function LeadingQinq(e: seq<Chunk>): (k: nat)
    ensures k <= |e|
    ensures forall j :: 0 <= j < k ==> IsQinqValue(e[j])
    ensures k < |e| ==> !IsQinqValue(e[k])
  {
    if e == [] || !IsQinqValue(e[0]) then 0 else 1 + LeadingQinq(e[1..])
  }

  /** The count of leading QINQ values is determined by where the first other value sits. */
  lemma LeadingQinqUnique(e: seq<Chunk>, k: nat)
    requires k <= |e|
    requires forall j :: 0 <= j < k ==> IsQinqValue(e[j])
    requires k < |e| ==> !IsQinqValue(e[k])
    ensures LeadingQinq(e) == k
  {
  }

  // ------------------------------------------------------------ iterator

  /** The shared iterator `etypes_iter`: the values, a cursor into them, and
      the flag `take_while` sets when it meets a non-VLAN value. */
  class EtherTypeIter {
    const values: seq<Chunk>
    var pos: nat
    var done: bool

    ghost predicate Valid()
      reads this
    {
      pos <= |values|
    }

    /** No further value will be yielded. */
    ghost predicate Finished()
      reads this
    {
      done || pos == |values|
    }

    constructor (values: seq<Chunk>)
      ensures Valid() && this.values == values && pos == 0 && !done
    {
      this.values := values;
      pos := 0;
      done := false;
    }

    /** `next()` on the `take_while`: a value is read and passed on only while
        it is a VLAN EtherType; the first other value is read, dropped, and
        ends the iteration. */
    method Next() returns (x: Option<Chunk>)
      requires Valid()
      modifies this
      ensures Valid()
      ensures x.Some? ==> IsVlanValue(x.value)
      ensures old(done) || old(pos) == |values| ==> x.None? && pos == old(pos) && done == old(done)
      ensures !old(done) && old(pos) < |values| ==>
                && pos == old(pos) + 1
                && (IsVlanValue(values[old(pos)]) ==> x == Some(values[old(pos)]) && !done)
                && (!IsVlanValue(values[old(pos)]) ==> x.None? && done)
    {
      if done || pos == |values| {
        x := None;
      } else {
        var v := values[pos];
        pos := pos + 1;
        if IsVlanValue(v) {
          x := Some(v);
        } else {
          done := true;
          x := None;
        }
      }
    }
  }

  // ---------------------------------------------------- as written

  /** Which panic the parse as written ends in, read off the values: `k` QINQ
      values are counted; the inner `take_while` swallows the value after them,
      which the outer one passed on only if it was DOT1Q. */
  function AsWrittenPanic(e: seq<Chunk>): string
  {
    var k := LeadingQinq(e);
    var swallowedDot1q := k < |e| && e[k] == Ok(DOT1Q);
    if k != 0 then
      if swallowedDot1q && k + 1 < |e| && e[k + 1] == Ok(DOT1Q) then
        if k + 2 < |e| && IsVlanValue(e[k + 2]) then EXTRA_VLAN else RAN_OUT
      else
        BAD_STACK
    else if swallowedDot1q && 1 < |e| && IsVlanValue(e[1]) then
      EXTRA_VLAN
    else
      RAN_OUT
  }

  /** `AnyHeader::parse` as written: it panics on every input, and the
      message is the one `AsWrittenPanic` names. */
  method ParseAnyHeader(ethertype: EtherType, payload: Payload.Unknown)
    returns (r: Outcome<(bv16, Vlan.AnyHeader, Payload.Unknown)>)
    ensures r.Panic?
    ensures r == Panic(AsWrittenPanic(EtherTypeValues(payload.bytes)))
  {
    var it := new EtherTypeIter(EtherTypeValues(payload.bytes));
    ghost var e := it.values;

    // Count the leading QINQ values; the step that stops the count also
    // consumes the value it rejected (vlan.rs:181-185).
    var qinqHeaders := 0;
    var counting := true;
    while counting
      invariant it.Valid() && it.values == e
      invariant qinqHeaders <= |e|
      invariant forall j :: 0 <= j < qinqHeaders ==> IsQinqValue(e[j])
      invariant counting ==> !it.done && it.pos == qinqHeaders
      invariant !counting ==> qinqHeaders < |e| ==> !IsQinqValue(e[qinqHeaders])
      invariant !counting ==>
                  if qinqHeaders < |e| && e[qinqHeaders] == Ok(DOT1Q)
                  then it.pos == qinqHeaders + 1 && !it.done
                  else it.Finished()
      decreases |e| - it.pos, counting
    {
      var x := it.Next();
      if x.Some? && x.value.Ok? && x.value.value == QINQ {
        qinqHeaders := qinqHeaders + 1;
      } else {
        counting := false;
      }
    }
    LeadingQinqUnique(e, qinqHeaders);

    // After a non-empty QINQ run the next value must be DOT1Q (vlan.rs:187-198).
    var trailingHeaders := 0;
    if qinqHeaders != 0 {
      var y := it.Next();
      if !(y.Some? && y.value == Ok(DOT1Q)) {
        r := Panic(BAD_STACK);
        return;
      }
      trailingHeaders := qinqHeaders + 1;
    }
    var headers := trailingHeaders + 1;

    var z := it.Next();
    match z {
      case Some(Ok(t)) =>
        if t == QINQ || t == DOT1Q {
          r := Panic(EXTRA_VLAN);
        } else {
          // The accepting arm of vlan.rs:207 needs a non-VLAN value, which the
          // iterator filtered to VLAN EtherTypes never yields.
          assert false;
        }
      case _ =>
        r := Panic(RAN_OUT);
    }
  }

  /** `Any::parse` as written: a non-VLAN EtherType passes through untouched;
      a VLAN one goes to `ParseAnyHeader` and therefore panics. */
  method ParseAny(ethertype: EtherType, payload: Payload.Unknown)
    returns (r: Outcome<(bv16, Vlan.Any, Payload.Unknown)>)
    ensures !IsVlanExtension(ethertype) ==> r == Done((ethertype.raw, Vlan.Any.None, payload))
    ensures IsVlanExtension(ethertype) ==> r == Panic(AsWrittenPanic(EtherTypeValues(payload.bytes)))
  {
    if ethertype == DOT1Q || ethertype == QINQ {
      var res := ParseAnyHeader(ethertype, payload);
      match res {
        case Done((last, hdr, pld)) =>
          r := Done((last, Vlan.Any.Some(hdr), pld));
        case Panic(m) =>
          r := Panic(m);
      }
    } else {
      r := Done((ethertype.raw, Vlan.Any.None, payload));
    }
  }

  // ---------------------------------------------------- as intended

  /** The EtherType of VLAN header `i` of a chain: the given one for the
      first header, iterator value `i - 1` for every later one. */
  function ChainType(ethertype: EtherType, e: seq<Chunk>, i: nat): Chunk
    requires i <= |e|
  {
    if i == 0 then Ok(ethertype) else e[i - 1]
  }

  /** A stack of `h` VLAN headers as the stages of `AnyHeader::parse` read
      it: every header but the last is a QINQ header and the last one is a
      DOT1Q header. */
  predicate StackShape(ethertype: EtherType, e: seq<Chunk>, h: nat)
  {
    && 1 <= h && h - 1 <= |e|
    && (forall i :: 0 <= i < h - 1 ==> ChainType(ethertype, e, i) == Ok(QINQ))
    && ChainType(ethertype, e, h - 1) == Ok(DOT1Q)
  }

  /** A stack of `h` VLAN headers followed by the final EtherType or length:
      a two-byte value that is not itself a VLAN EtherType. */
  predicate WellFormedStack(ethertype: EtherType, e: seq<Chunk>, h: nat)
  {
    && StackShape(ethertype, e, h)
    && h - 1 < |e| && e[h - 1].Ok? && !IsVlanExtension(e[h - 1].value)
  }

  /** The only header count a stack can have: one for a DOT1Q header, and
      for a QINQ header the run of QINQ values after it plus two. */
  function StackHeaderCount(ethertype: EtherType, e: seq<Chunk>): nat
  {
    if ethertype == QINQ then LeadingQinq(e) + 2 else 1
  }

  /** The number of headers of a stack is fixed by the chain. */
  lemma StackHeaders(ethertype: EtherType, e: seq<Chunk>, h: nat)
    requires StackShape(ethertype, e, h)
    ensures h == StackHeaderCount(ethertype, e)
  {
    assert ChainType(ethertype, e, 0) == Ok(ethertype);
    if ethertype == QINQ {
      assert h >= 2;
      forall j | 0 <= j < h - 2
        ensures IsQinqValue(e[j])
      {
        assert ChainType(ethertype, e, j + 1) == e[j];
      }
      assert ChainType(ethertype, e, h - 1) == e[h - 2];
      LeadingQinqUnique(e, h - 2);
    }
  }

  /** When the QINQ run is closed by a DOT1Q value (or there is no run), the
      chain has the shape of a stack of that many headers. */
  lemma ClosedRunIsStack(ethertype: EtherType, e: seq<Chunk>)
    requires IsVlanExtension(ethertype)
    requires var q := if ethertype == QINQ then 1 + LeadingQinq(e) else 0;
             q == 0 || (q - 1 < |e| && e[q - 1] == Ok(DOT1Q))
    ensures StackShape(ethertype, e, StackHeaderCount(ethertype, e))
  {
    var q := if ethertype == QINQ then 1 + LeadingQinq(e) else 0;
    forall i | 0 <= i < q
      ensures ChainType(ethertype, e, i) == Ok(QINQ)
    {
      if i > 0 {
        assert IsQinqValue(e[i - 1]);
      }
    }
  }

  /** `Any::parse` as its documentation describes it and as the `Size` of
      `Any` and the narrowing casts `unwrap_stack`, `unwrap_tag` and
      `unwrap_empty` read its result. The header chain is the given EtherType
      followed by values 0, 1, ...: a run of QINQ headers (the given one
      included) must end in exactly one DOT1Q header, and the value after the
      last VLAN header must be the final EtherType or length. The VLAN region,
      `4 * headers - 2` bytes, becomes the `Any` value, and the payload is
      advanced past it and past the final type field. */
  function ParseAnyIntended(ethertype: EtherType, payload: Payload.Unknown)
    : (r: Outcome<(bv16, Vlan.Any, Payload.Unknown)>)
    ensures !IsVlanExtension(ethertype) ==> r == Done((ethertype.raw, Vlan.Any.None, payload))
    ensures IsVlanExtension(ethertype) && r.Done? ==>
              && r.value.1.Some?
              && r.value.1.header.first == ethertype
              && r.value.1.header.data.bytes + ToBeBytes(r.value.0) + r.value.2.bytes == payload.bytes
              && Vlan.AnySize(r.value.1) + |r.value.2.bytes| == |payload.bytes|
              && |r.value.1.header.data.bytes| % 4 == 2
              && !IsVlanExtension(EtherType(r.value.0))
    ensures IsVlanExtension(ethertype) && r.Done? ==>
              WellFormedStack(ethertype, EtherTypeValues(payload.bytes), (|r.value.1.header.data.bytes| + 2) / 4)
  {
    if !IsVlanExtension(ethertype) then
      Done((ethertype.raw, Vlan.Any.None, payload))
    else
      var e := EtherTypeValues(payload.bytes);
      var qinqHeaders := if ethertype == QINQ then 1 + LeadingQinq(e) else 0;
      if qinqHeaders != 0 && !(qinqHeaders - 1 < |e| && e[qinqHeaders - 1] == Ok(DOT1Q)) then
        Panic(BAD_STACK)
      else if qinqHeaders >= |e| || e[qinqHeaders].Err? then
        Panic(RAN_OUT)
      else if IsVlanExtension(e[qinqHeaders].value) then
        Panic(EXTRA_VLAN)
      else
        ClosedRunIsStack(ethertype, e);
        Done(AcceptStack(ethertype, payload, qinqHeaders + 1))
  }

  /** The result for a well-formed stack of `headers` headers: the final
      EtherType or length, the VLAN region of `4 * headers - 2` bytes, and the
      payload advanced past the region and the final type field. */
  function AcceptStack(ethertype: EtherType, payload: Payload.Unknown, headers: nat)
    : (r: (bv16, Vlan.Any, Payload.Unknown))
    requires WellFormedStack(ethertype, EtherTypeValues(payload.bytes), headers)
    ensures && r.1.Some?
            && r.1.header.first == ethertype
            && r.1.header.data.bytes + ToBeBytes(r.0) + r.2.bytes == payload.bytes
            && Vlan.AnySize(r.1) + |r.2.bytes| == |payload.bytes|
            && |r.1.header.data.bytes| == 4 * headers - 2
            && (|r.1.header.data.bytes| + 2) / 4 == headers
            && r.0 == EtherTypeValues(payload.bytes)[headers - 1].value.raw
  {
    var readLen := 4 * headers - 2;
    EtherTypeValueAt(payload.bytes, headers - 1);
    SplitAtTypeField(payload.bytes, readLen);
    var region := Payload.Unknown(payload.bytes[..readLen]);
    var rest := Payload.Advance(payload, readLen + 2).value;
    assert rest.bytes == payload.bytes[readLen + 2..];
    (EtherTypeValues(payload.bytes)[headers - 1].value.raw, Vlan.Any.Some(Vlan.AnyHeader(ethertype, region)), rest)
  }

  /** A buffer is the bytes before offset `k`, the big-endian value at `k`,
      and the bytes after that value. */
  lemma SplitAtTypeField(p: seq<bv8>, k: nat)
    requires k + 2 <= |p|
    ensures p[..k] + ToBeBytes(FromBeBytes(p[k], p[k + 1])) + p[k + 2..] == p
  {
    BeBytesRoundTrip(p[k], p[k + 1]);
    assert p == p[..k] + p[k..k + 2] + p[k + 2..];
  }

  /** Which chains the intended parse accepts, for every VLAN EtherType and
      payload: exactly the well-formed stacks, and the region of an accepted
      stack of `h` headers holds `4 * h - 2` bytes. */
  lemma ParseAnyIntendedAccepts(ethertype: EtherType, payload: Payload.Unknown)
    requires IsVlanExtension(ethertype)
    ensures var e := EtherTypeValues(payload.bytes);
            var r := ParseAnyIntended(ethertype, payload);
            && (r.Done? <==> exists h: nat :: WellFormedStack(ethertype, e, h))
            && (forall h: nat :: WellFormedStack(ethertype, e, h) ==>
                  r.Done? && |r.value.1.header.data.bytes| == 4 * h - 2)
  {
    var e := EtherTypeValues(payload.bytes);
    var q := if ethertype == QINQ then 1 + LeadingQinq(e) else 0;
    forall h: nat | StackShape(ethertype, e, h)
      ensures h == q + 1
    {
      StackHeaders(ethertype, e, h);
    }
    var r := ParseAnyIntended(ethertype, payload);
    if WellFormedStack(ethertype, e, q + 1) {
      EtherTypeValueAt(payload.bytes, q);
      assert r.Done? && r.value.1.header.data.bytes == payload.bytes[..4 * q + 2];
    }
  }

  /** Which of the source's three panics the intended parse raises on a
      rejected chain: `BAD_STACK` when the chain has no stack shape (by
      `StackHeaders`, a stack can only have `StackHeaderCount` headers),
      `RAN_OUT` when the stack is not followed by a complete value,
      `EXTRA_VLAN` when it is followed by another VLAN EtherType. */
  lemma ParseAnyIntendedPanics(ethertype: EtherType, payload: Payload.Unknown)
    requires IsVlanExtension(ethertype)
    ensures var e := EtherTypeValues(payload.bytes);
            var h := StackHeaderCount(ethertype, e);
            var r := ParseAnyIntended(ethertype, payload);
            && (r == Panic(BAD_STACK) <==> !StackShape(ethertype, e, h))
            && (r == Panic(RAN_OUT) <==> StackShape(ethertype, e, h) && (h - 1 == |e| || e[h - 1].Err?))
            && (r == Panic(EXTRA_VLAN) <==>
                  StackShape(ethertype, e, h) && h - 1 < |e| && e[h - 1].Ok? && IsVlanExtension(e[h - 1].value))
  {
    var e := EtherTypeValues(payload.bytes);
    var q := if ethertype == QINQ then 1 + LeadingQinq(e) else 0;
    assert |BAD_STACK| == 57 && |EXTRA_VLAN| == 72 && |RAN_OUT| == 90;
    if q == 0 || (q - 1 < |e| && e[q - 1] == Ok(DOT1Q)) {
      ClosedRunIsStack(ethertype, e);
    }
  }

  /** The intended parse fails only with the source's own three panics. */
  lemma IntendedPanicsAreSourcePanics(ethertype: EtherType, payload: Payload.Unknown)
    ensures ParseAnyIntended(ethertype, payload).Panic? ==>
              ParseAnyIntended(ethertype, payload).message in {BAD_STACK, RAN_OUT, EXTRA_VLAN}
  {
  }

  // ------------------------------------------- resolving the Any value

  /** How a caller resolves an `Any` value with the narrowing casts, choosing
      by `first()`: `unwrap_stack` for QINQ, then the same on the remainder,
      `unwrap_tag` otherwise, `unwrap_empty` for no header. The result is
      the stack as a sequence of tags, outermost first. */
  function ResolveTags(a: Vlan.Any): (r: Outcome<seq<Vlan.Tag>>)
    ensures r.Done? ==> 4 * |r.value| == Vlan.AnySize(a)
    decreases Vlan.AnySize(a)
  {
    match a
    case None =>
      (match Vlan.UnwrapEmpty(a)
       case Done(_) => Done([])
       case Panic(m) => Panic(m))
    case Some(h) =>
      if Vlan.First(h) == QINQ then
        (match Vlan.UnwrapStack(a)
         case Panic(m) => Panic(m)
         case Done(s) =>
           (match ResolveTags(s.remainder)
            case Panic(m) => Panic(m)
            case Done(tags) => Done([s.tag] + tags)))
      else
        (match Vlan.UnwrapTag(a)
         case Panic(m) => Panic(m)
         case Done(t) => Done([t]))
  }

  /** The EtherType in the `i`-th type field of a VLAN region. */
  function TypeAt(d: seq<bv8>, i: nat): EtherType
    requires 0 < i && 4 * i <= |d|
  {
    EtherType(FromBeBytes(d[4 * i - 2], d[4 * i - 1]))
  }

  /** The `i`-th tag of a VLAN region. */
  function TagAt(d: seq<bv8>, i: nat): Vlan.Tag
    requires 4 * i + 2 <= |d|
  {
    Vlan.Tag(FromBeBytes(d[4 * i], d[4 * i + 1]))
  }

  /** Resolving a QINQ region takes its first tag and resolves the rest of
      the region, typed by the region's first type field. */
  lemma ResolveStacked(d: seq<bv8>)
    requires |d| >= 4
    ensures var rest := ResolveTags(Vlan.Any.Some(Vlan.AnyHeader(TypeAt(d, 1), Payload.Unknown(d[4..]))));
            ResolveTags(Vlan.Any.Some(Vlan.AnyHeader(QINQ, Payload.Unknown(d))))
              == if rest.Done? then Done([TagAt(d, 0)] + rest.value) else rest
  {
  }

  /** A region of `n` QINQ headers ending in one DOT1Q header resolves to its
      `n + 1` tags, in order. */
  lemma {:induction false} ResolveRegion(first: EtherType, d: seq<bv8>, n: nat)
    requires |d| == 4 * n + 2
    requires first == (if n == 0 then DOT1Q else QINQ)
    requires forall i :: 0 < i <= n ==> TypeAt(d, i) == (if i < n then QINQ else DOT1Q)
    ensures var r := ResolveTags(Vlan.Any.Some(Vlan.AnyHeader(first, Payload.Unknown(d))));
            && r.Done? && |r.value| == n + 1
            && forall i :: 0 <= i <= n ==> r.value[i] == TagAt(d, i)
    decreases n
  {
    if n > 0 {
      var d' := d[4..];
      forall i | 0 < i <= n - 1
        ensures TypeAt(d', i) == (if i < n - 1 then QINQ else DOT1Q)
      {
        assert TypeAt(d', i) == TypeAt(d, i + 1);
      }
      ResolveRegion(TypeAt(d, 1), d', n - 1);
      ResolveStacked(d);
      var tags := ResolveTags(Vlan.Any.Some(Vlan.AnyHeader(TypeAt(d, 1), Payload.Unknown(d')))).value;
      var r := [TagAt(d, 0)] + tags;
      forall i | 0 <= i <= n
        ensures r[i] == TagAt(d, i)
      {
        if i > 0 {
          assert r[i] == tags[i - 1] == TagAt(d', i - 1);
        }
      }
    }
  }

  /** The type fields inside the region of a stack of `n + 1` headers are
      the types of its headers after the first: QINQ, then the closing DOT1Q. */
  lemma TypesInRegion(ethertype: EtherType, p: seq<bv8>, n: nat, d: seq<bv8>)
    requires 4 * n + 4 <= |p| && d == p[..4 * n + 2]
    requires StackShape(ethertype, EtherTypeValues(p), n + 1)
    ensures forall i :: 0 < i <= n ==> TypeAt(d, i) == (if i < n then QINQ else DOT1Q)
  {
    var e := EtherTypeValues(p);
    forall i | 0 < i <= n
      ensures TypeAt(d, i) == (if i < n then QINQ else DOT1Q)
    {
      EtherTypeValueAt(p, i - 1);
      assert TypeAt(d, i) == e[i - 1].value;
      assert ChainType(ethertype, e, i) == e[i - 1];
    }
  }

  /** The region the intended parse accepts is the first `4 * n + 2` bytes,
      for the `n + 1` headers of a well-formed stack. */
  lemma IntendedRegion(ethertype: EtherType, payload: Payload.Unknown)
    requires IsVlanExtension(ethertype)
    requires ParseAnyIntended(ethertype, payload).Done?
    ensures var p := payload.bytes;
            var n := StackHeaderCount(ethertype, EtherTypeValues(p)) - 1;
            && 4 * n + 4 <= |p|
            && WellFormedStack(ethertype, EtherTypeValues(p), n + 1)
            && ParseAnyIntended(ethertype, payload).value.1
                 == Vlan.Any.Some(Vlan.AnyHeader(ethertype, Payload.Unknown(p[..4 * n + 2])))
  {
    var p := payload.bytes;
    var e := EtherTypeValues(p);
    var n := if ethertype == QINQ then 1 + LeadingQinq(e) else 0;
    EtherTypeValueAt(p, n);
    ClosedRunIsStack(ethertype, e);
  }

  /** Every region the intended parse accepts resolves through the narrowing
      casts, one tag per VLAN header (the QINQ run plus the final DOT1Q), each
      tag read from the first two bytes of its 4-byte header. */
  lemma ParsedRegionResolves(ethertype: EtherType, payload: Payload.Unknown)
    requires IsVlanExtension(ethertype)
    requires ParseAnyIntended(ethertype, payload).Done?
    ensures var a := ParseAnyIntended(ethertype, payload).value.1;
            var tags := ResolveTags(a);
            && tags.Done?
            && |tags.value| == StackHeaderCount(ethertype, EtherTypeValues(payload.bytes))
            && 4 * |tags.value| <= |payload.bytes|
            && forall i :: 0 <= i < |tags.value| ==>
                 tags.value[i] == Vlan.Tag(FromBeBytes(payload.bytes[4 * i], payload.bytes[4 * i + 1]))
  {
    var p := payload.bytes;
    var n := StackHeaderCount(ethertype, EtherTypeValues(p)) - 1;
    IntendedRegion(ethertype, payload);
    var d := p[..4 * n + 2];
    TypesInRegion(ethertype, p, n, d);
    ResolveRegion(ethertype, d, n);
    var tags := ResolveTags(Vlan.Any.Some(Vlan.AnyHeader(ethertype, Payload.Unknown(d)))).value;
    forall i | 0 <= i < |tags|
      ensures tags[i] == Vlan.Tag(FromBeBytes(p[4 * i], p[4 * i + 1]))
    {
      assert tags[i] == TagAt(d, i);
    }
  }

  // ----------------------------------------------------------- scenarios

  /** DOT1Q followed by tag 0x0005 and EtherType 0x0800: as intended, one tag
      with identifier 5, priority 0 and no drop eligibility, a 2-byte region,
      final type 0x0800 and nothing after it; as written, the parse runs out
      of values. */
  lemma SingleTagScenario()
    ensures var p := Payload.Unknown([0x00, 0x05, 0x08, 0x00]);
            var region := Vlan.Any.Some(Vlan.AnyHeader(DOT1Q, Payload.Unknown([0x00, 0x05])));
            && ParseAnyIntended(DOT1Q, p) == Done((0x0800, region, Payload.Unknown([])))
            && Vlan.UnwrapTag(region) == Done(Vlan.Tag(5))
            && Vlan.TagIdentifier(Vlan.Tag(5)) == Vlan.Identifier(5)
            && Vlan.Priority(Vlan.Tag(5)) == Vlan.Background
            && !Vlan.DropEligible(Vlan.Tag(5))
            && AsWrittenPanic(EtherTypeValues(p.bytes)) == RAN_OUT
  {
    var p: seq<bv8> := [0x00, 0x05, 0x08, 0x00];
    assert p[4..] == [];
    assert EtherTypeValues(p) == [Ok(EtherType(0x0800))];
    assert p[..2] == [0x00, 0x05];
  }

  /** QINQ with tag 0x000A, then DOT1Q with tag 0x000B, then EtherType 0x0800:
      as intended, a stacked tag with identifier 10 whose remainder narrows
      to the tag with identifier 11; as written, the parse panics. */
  lemma DoubleTagScenario()
    ensures var p := Payload.Unknown([0x00, 0x0A, 0x81, 0x00, 0x00, 0x0B, 0x08, 0x00]);
            var region := Vlan.Any.Some(Vlan.AnyHeader(QINQ, Payload.Unknown([0x00, 0x0A, 0x81, 0x00, 0x00, 0x0B])));
            && ParseAnyIntended(QINQ, p) == Done((0x0800, region, Payload.Unknown([])))
            && Vlan.UnwrapStack(region).Done?
            && Vlan.MapRemainder(Vlan.UnwrapStack(region).value, Vlan.UnwrapTag) == Vlan.Stacked(Vlan.Tag(10), Done(Vlan.Tag(11)))
            && AsWrittenPanic(EtherTypeValues(p.bytes)) == RAN_OUT
  {
    var p: seq<bv8> := [0x00, 0x0A, 0x81, 0x00, 0x00, 0x0B, 0x08, 0x00];
    assert p[4..][4..] == [];
    assert p[4..] == [0x00, 0x0B, 0x08, 0x00];
    assert EtherTypeValues(p[4..]) == [Ok(EtherType(0x0800))];
    assert EtherTypeValues(p) == [Ok(DOT1Q), Ok(EtherType(0x0800))];
    assert LeadingQinq(EtherTypeValues(p)) == 0;
    assert p[..6] == [0x00, 0x0A, 0x81, 0x00, 0x00, 0x0B];
    assert p[8..] == [];
    var d: seq<bv8> := [0x00, 0x0A, 0x81, 0x00, 0x00, 0x0B];
    assert d[4..] == [0x00, 0x0B];
  }

  /** QINQ followed by another QINQ and no DOT1Q before the data runs out is
      fatal, as intended and as written. */
  lemma UnterminatedStackScenario()
    ensures var p := Payload.Unknown([0x00, 0x0A, 0x88, 0xA8, 0x00, 0x0B]);
            && ParseAnyIntended(QINQ, p) == Panic(BAD_STACK)
            && AsWrittenPanic(EtherTypeValues(p.bytes)) == BAD_STACK
  {
  }

  /** DOT1Q, then QINQ, then DOT1Q, then EtherType 0x0800: the header count
      that `AnyHeader::parse` computes from the QINQ values after the first
      header would take three headers here, but a DOT1Q header is the last
      one of a stack, so the value after it may not be a VLAN EtherType. */
  lemma Dot1qBeforeQinqScenario()
    ensures var p := Payload.Unknown([0x00, 0x01, 0x88, 0xA8, 0x00, 0x02, 0x81, 0x00, 0x00, 0x03, 0x08, 0x00]);
            ParseAnyIntended(DOT1Q, p) == Panic(EXTRA_VLAN)
  {
    var p: seq<bv8> := [0x00, 0x01, 0x88, 0xA8, 0x00, 0x02, 0x81, 0x00, 0x00, 0x03, 0x08, 0x00];
    assert EtherTypeValues(p)[0] == Ok(QINQ) by {
      EtherTypeValueAt(p, 0);
    }
  }
}
