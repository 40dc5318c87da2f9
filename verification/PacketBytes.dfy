/**
 `Packet::to_bytes` and `Packet::from_bytes` (renet/src/packet.rs) as they are: loops that
 move a cursor through a buffer. They are proved against `Wire`. The buffer operations
 stand for those of the `octets` crate.
 */
module PacketBytes {
  import opened Common
  import opened AckRanges
  import opened Wire

  // ---------------------------------------------------------------- writing

  /** The bytes of the last of the ranges, then those of the others. */
  lemma GapsStep(rs: seq<Range>, start: nat)
    requires Normal(rs) && Below(rs, start) && start < VARINT_LIMIT
    ensures rs == [] ==> PutGaps(rs, start) == []
    ensures rs != [] ==>
      var r, init := rs[|rs| - 1], rs[..|rs| - 1];
      && r.end < start && r.start < r.end && Normal(init) && Below(init, r.start)
      && PutGaps(rs, start) == PutVarint(start - r.end - 1) + (PutVarint(r.end - 1 - r.start) + PutGaps(init, r.start))
  {
    hide PutVarint;
  }

  lemma Regroup(a: seq<byte>, b: seq<byte>, c: seq<byte>, d: seq<byte>)
    ensures a + (b + (c + d)) == a + b + c + d
  {
  }

  lemma EntriesStep(es: seq<Entry>)
    requires forall e :: e in es ==> EntryFits(e)
    ensures es == [] ==> PutEntries(es) == []
    ensures es != [] ==>
      && EntryFits(es[0])
      && PutEntries(es) == PutVarint(es[0].id) + (PutBytes(es[0].payload) + PutEntries(es[1..]))
  {
    hide PutVarint, PutBytes;
    if es != [] {
      assert PutEntry(es[0]) + PutEntries(es[1..]) ==
             PutVarint(es[0].id) + (PutBytes(es[0].payload) + PutEntries(es[1..]));
    }
  }

  /** A fixed buffer that is filled from the front. */
  class OctetsMut {
    const buf: array<byte>
    var off: nat

    ghost predicate Valid()
      reads this
    {
      off <= buf.Length
    }

    ghost function Written(): seq<byte>
      requires Valid()
      reads this, buf
    {
      buf[..off]
    }

    /** Whether this many more bytes fit. */
    ghost predicate Fits(n: nat)
      reads this
    {
      off + n <= buf.Length
    }

    constructor (capacity: nat)
      ensures Valid() && fresh(buf) && buf.Length == capacity && Written() == []
    {
      buf := new byte[capacity];
      off := 0;
    }

    method PutBytes(bytes: seq<byte>) returns (ok: bool)
      requires Valid()
      modifies this`off, buf
      ensures Valid() && ok == old(Fits(|bytes|))
      ensures ok ==> Written() == old(Written()) + bytes
    {
      if off + |bytes| > buf.Length {
        return false;
      }
      for i := 0 to |bytes|
        invariant off == old(off)
        invariant buf[..off + i] == old(buf[..off]) + bytes[..i]
      {
        buf[off + i] := bytes[i];
      }
      off := off + |bytes|;
      return true;
    }

    method PutU8(v: byte) returns (ok: bool)
      requires Valid()
      modifies this`off, buf
      ensures Valid() && ok == old(Fits(1))
      ensures ok ==> Written() == old(Written()) + [v]
    {
      ok := PutBytes([v]);
    }

    method PutVarint(v: nat) returns (ok: bool)
      requires Valid() && v < VARINT_LIMIT
      modifies this`off, buf
      ensures Valid() && ok == old(Fits(|Wire.PutVarint(v)|))
      ensures ok ==> Written() == old(Written()) + Wire.PutVarint(v)
    {
      hide Wire.PutVarint;
      ok := PutBytes(Wire.PutVarint(v));
    }

    /** A length and the bytes themselves. */
    method PutMessage(m: Message) returns (ok: bool)
      requires Valid() && |m| < VARINT_LIMIT
      modifies this`off, buf
      ensures Valid() && ok == old(Fits(|Wire.PutBytes(m)|))
      ensures ok ==> Written() == old(Written()) + Wire.PutBytes(m)
    {
      hide Wire.PutVarint;
      ok := PutVarint(|m|);
      if ok {
        ok := PutBytes(m);
      }
    }

    method PutEntries(es: seq<Entry>) returns (ok: bool)
      requires Valid() && forall e :: e in es ==> EntryFits(e)
      modifies this`off, buf
      ensures Valid() && ok == old(Fits(|Wire.PutEntries(es)|))
      ensures ok ==> Written() == old(Written()) + Wire.PutEntries(es)
    {
      hide Wire.PutVarint, Wire.PutBytes, Wire.PutEntries;
      ok := true;
      assert es[|es|..] == [];
      EntriesStep(es[|es|..]);
      for i := 0 to |es|
        invariant Valid() && ok && off <= old(off) + |Wire.PutEntries(es)|
        invariant old(Written()) + Wire.PutEntries(es) == Written() + Wire.PutEntries(es[i..])
      {
        assert es[i..][1..] == es[i + 1..];
        EntriesStep(es[i..]);
        ok := PutVarint(es[i].id);
        if ok {
          ok := PutMessage(es[i].payload);
        }
        if !ok {
          return;
        }
      }
    }

    method PutMessages(ms: seq<Message>) returns (ok: bool)
      requires Valid() && forall m :: m in ms ==> |m| < VARINT_LIMIT
      modifies this`off, buf
      ensures Valid() && ok == old(Fits(|Wire.PutMessages(ms)|))
      ensures ok ==> Written() == old(Written()) + Wire.PutMessages(ms)
    {
      hide Wire.PutVarint, Wire.PutBytes;
      ok := true;
      for i := 0 to |ms|
        invariant Valid() && ok && off <= old(off) + |Wire.PutMessages(ms)|
        invariant old(Written()) + Wire.PutMessages(ms) == Written() + Wire.PutMessages(ms[i..])
      {
        assert ms[i..][1..] == ms[i + 1..];
        assert ms[i] in ms;
        ok := PutMessage(ms[i]);
        if !ok {
          return;
        }
      }
    }

    method PutSlice(s: Slice) returns (ok: bool)
      requires Valid() && SliceFits(s)
      modifies this`off, buf
      ensures Valid() && ok == old(Fits(|Wire.PutSlice(s)|))
      ensures ok ==> Written() == old(Written()) + Wire.PutSlice(s)
    {
      hide Wire.PutVarint, Wire.PutBytes;
      ok := PutVarint(s.messageId);
      if ok {
        ok := PutVarint(s.sliceIndex);
      }
      if ok {
        ok := PutVarint(s.numSlices);
      }
      if ok {
        ok := PutMessage(s.payload);
      }
    }

    /** The ranges below the last one, from the back, each relative to the one written before it. */
    method PutGaps(rs: seq<Range>, start: nat) returns (ok: bool)
      requires Valid() && Normal(rs) && Below(rs, start) && start < VARINT_LIMIT
      modifies this`off, buf
      ensures Valid() && ok == old(Fits(|Wire.PutGaps(rs, start)|))
      ensures ok ==> Written() == old(Written()) + Wire.PutGaps(rs, start)
    {
      hide Wire.PutVarint, Normal, Wire.PutGaps;
      ok := true;
      var previousRangeStart: nat := start;
      var i: nat := |rs|;
      assert rs[..i] == rs;
      while i > 0
        invariant i <= |rs| && Valid() && ok && off <= old(off) + |Wire.PutGaps(rs, start)|
        invariant Normal(rs[..i]) && Below(rs[..i], previousRangeStart) && previousRangeStart < VARINT_LIMIT
        invariant old(Written()) + Wire.PutGaps(rs, start) == Written() + Wire.PutGaps(rs[..i], previousRangeStart)
      {
        i := i - 1;
        var range := rs[i];
        NormalInit(rs[..i + 1]);
        assert rs[..i + 1][..i] == rs[..i];
        GapsStep(rs[..i + 1], previousRangeStart);
        ghost var before := Written();
        ok := PutVarint(previousRangeStart - range.end - 1);
        if ok {
          ok := PutVarint(range.end - 1 - range.start);
        }
        if !ok {
          return;
        }
        Regroup(before, Wire.PutVarint(previousRangeStart - range.end - 1), Wire.PutVarint(range.end - 1 - range.start),
                Wire.PutGaps(rs[..i], range.start));
        previousRangeStart := range.start;
      }
      GapsStep(rs[..0], previousRangeStart);
    }

    method PutRanges(rs: seq<Range>) returns (ok: bool)
      requires Valid() && Normal(rs) && rs != [] && rs[|rs| - 1].end <= VARINT_LIMIT && |rs| < VARINT_LIMIT
      modifies this`off, buf
      ensures Valid() && ok == old(Fits(|Wire.PutRanges(rs)|))
      ensures ok ==> Written() == old(Written()) + Wire.PutRanges(rs)
    {
      hide Wire.PutVarint, Wire.PutGaps, Normal;
      NormalInit(rs);
      var last := rs[|rs| - 1];
      ok := PutVarint(last.end - 1);
      if ok {
        ok := PutVarint(last.end - 1 - last.start);
      }
      if ok {
        ok := PutVarint(|rs| - 1);
      }
      if ok {
        ok := PutGaps(rs[..|rs| - 1], last.start);
      }
    }
  }

  method PutSmallReliable(channelId: byte, es: seq<Entry>, b: OctetsMut) returns (ok: bool)
    requires b.Valid() && forall e :: e in es ==> EntryFits(e)
    modifies b`off, b.buf
    ensures b.Valid() && ok == old(b.Fits(3 + |PutEntries(es)|))
    ensures ok ==> b.Written() == old(b.Written()) + ([channelId] + (PutU16(|es|) + PutEntries(es)))
  {
    hide PutEntries;
    ok := b.PutU8(channelId);
    if ok {
      ok := b.PutBytes(PutU16(|es|));
    }
    if ok {
      ok := b.PutEntries(es);
    }
  }

  method PutSmallUnreliable(channelId: byte, ms: seq<Message>, b: OctetsMut) returns (ok: bool)
    requires b.Valid() && forall m :: m in ms ==> |m| < VARINT_LIMIT
    modifies b`off, b.buf
    ensures b.Valid() && ok == old(b.Fits(3 + |PutMessages(ms)|))
    ensures ok ==> b.Written() == old(b.Written()) + ([channelId] + (PutU16(|ms|) + PutMessages(ms)))
  {
    hide PutMessages;
    ok := b.PutU8(channelId);
    if ok {
      ok := b.PutBytes(PutU16(|ms|));
    }
    if ok {
      ok := b.PutMessages(ms);
    }
  }

  method PutChannelSlice(channelId: byte, slice: Slice, b: OctetsMut) returns (ok: bool)
    requires b.Valid() && SliceFits(slice)
    modifies b`off, b.buf
    ensures b.Valid() && ok == old(b.Fits(1 + |PutSlice(slice)|))
    ensures ok ==> b.Written() == old(b.Written()) + ([channelId] + PutSlice(slice))
  {
    hide PutSlice;
    ok := b.PutU8(channelId);
    if ok {
      ok := b.PutSlice(slice);
    }
  }

  method PutBody(p: Packet, b: OctetsMut) returns (ok: bool)
    requires b.Valid() && Encodable(p)
    modifies b`off, b.buf
    ensures b.Valid() && ok == old(b.Fits(|Wire.PutBody(p)|))
    ensures ok ==> b.Written() == old(b.Written()) + Wire.PutBody(p)
  {
    hide PutEntries, PutMessages, PutSlice, PutRanges, Normal;
    match p {
      case SmallReliable(_, c, es) => ok := PutSmallReliable(c, es, b);
      case SmallUnreliable(_, c, ms) => ok := PutSmallUnreliable(c, ms, b);
      case ReliableSlice(_, c, slice) => ok := PutChannelSlice(c, slice, b);
      case UnreliableSlice(_, c, slice) => ok := PutChannelSlice(c, slice, b);
      case Ack(_, rs) => ok := b.PutRanges(rs);
    }
  }

  /** Writes the packet, or fails exactly if the buffer is too short for it. */
  method ToBytes(p: Packet, b: OctetsMut) returns (r: Result<nat, SerializationError>)
    requires b.Valid() && Encodable(p)
    modifies b`off, b.buf
    ensures b.Valid() && r.Ok? == old(b.Fits(|Encode(p)|))
    ensures r.Ok? ==> r.value == |Encode(p)| && b.Written() == old(b.Written()) + Encode(p)
    ensures r.Err? ==> r.error == BufferTooShort
  {
    hide Encodable, Wire.PutBody, PutVarint;
    assert p.sequence < VARINT_LIMIT by { SequenceFits(p); }
    var before := b.off;
    var ok := b.PutU8(PacketType(p));
    if ok {
      ok := b.PutVarint(p.sequence);
    }
    if ok {
      ok := PutBody(p, b);
    }
    r := if ok then Ok(b.off - before) else Err(BufferTooShort);
  }

  lemma SequenceFits(p: Packet)
    requires Encodable(p)
    ensures p.sequence < VARINT_LIMIT
  {
  }

  // ---------------------------------------------------------------- reading

  class Octets {
    const buf: seq<byte>
    var off: nat

    ghost predicate Valid()
      reads this
    {
      off <= |buf|
    }

    ghost function Rest(): seq<byte>
      requires Valid()
      reads this
    {
      buf[off..]
    }

    constructor (buf: seq<byte>)
      ensures Valid() && Rest() == buf
    {
      this.buf := buf;
      off := 0;
    }

    method GetU8() returns (r: Option<byte>)
      requires Valid()
      modifies this`off
      ensures Valid() && r.Some? == (|old(Rest())| > 0)
      ensures r.Some? ==> r.value == old(Rest())[0] && Rest() == old(Rest())[1..]
    {
      if off >= |buf| {
        return None;
      }
      r := Some(buf[off]);
      off := off + 1;
    }

    method GetU16() returns (r: Option<nat>)
      requires Valid()
      modifies this`off
      ensures Valid() && r.Some? == (|old(Rest())| >= 2)
      ensures r.Some? ==> r.value == (old(Rest())[0] as int) * 256 + old(Rest())[1] && Rest() == old(Rest())[2..]
    {
      if off + 2 > |buf| {
        return None;
      }
      r := Some((buf[off] as int) * 256 + buf[off + 1]);
      off := off + 2;
    }

    method GetVarint() returns (r: Option<nat>)
      requires Valid()
      modifies this`off
      ensures Valid()
      ensures Wire.GetVarint(old(Rest())).None? <==> r.None?
      ensures r.Some? ==> Wire.GetVarint(old(Rest())) == Some(Got(r.value, Rest()))
    {
      var got := Wire.GetVarint(buf[off..]);
      if got.None? {
        return None;
      }
      ghost var len := TagLen(buf[off] / 64);
      assert got.value.rest == buf[off..][len..] == buf[off + len..];
      off := |buf| - |got.value.rest|;
      r := Some(got.value.value);
    }

    /** `get_bytes_with_varint_length`. */
    method GetMessage() returns (r: Option<Message>)
      requires Valid()
      modifies this`off
      ensures Valid()
      ensures GetBytes(old(Rest())).None? <==> r.None?
      ensures r.Some? ==> GetBytes(old(Rest())) == Some(Got(r.value, Rest()))
    {
      hide Wire.GetVarint;
      var len := GetVarint();
      if len.None? || off + len.value > |buf| {
        return None;
      }
      r := Some(buf[off..off + len.value]);
      assert Rest()[..len.value] == r.value && Rest()[len.value..] == buf[off + len.value..];
      off := off + len.value;
    }

    method GetEntries(n: nat) returns (r: Option<seq<Entry>>)
      requires Valid()
      modifies this`off
      ensures Valid()
      ensures Wire.GetEntries(old(Rest()), n).None? <==> r.None?
      ensures r.Some? ==> Wire.GetEntries(old(Rest()), n) == Some(Got(r.value, Rest()))
    {
      hide Wire.GetVarint, GetBytes;
      var es: seq<Entry> := [];
      PrefixedNone(Wire.GetEntries(Rest(), n));
      for i := 0 to n
        invariant Valid()
        invariant Wire.GetEntries(old(Rest()), n) == Prefixed(es, Wire.GetEntries(Rest(), n - i))
      {
        ghost var rest := Rest();
        var id := GetVarint();
        if id.None? {
          return None;
        }
        var payload := GetMessage();
        if payload.None? {
          return None;
        }
        assert GetEntry(rest) == Some(Got(Entry(id.value, payload.value), Rest()));
        PrefixedMore(es, Entry(id.value, payload.value), Wire.GetEntries(Rest(), n - i - 1));
        es := es + [Entry(id.value, payload.value)];
      }
      assert es + [] == es;
      r := Some(es);
    }

    method GetMessages(n: nat) returns (r: Option<seq<Message>>)
      requires Valid()
      modifies this`off
      ensures Valid()
      ensures Wire.GetMessages(old(Rest()), n).None? <==> r.None?
      ensures r.Some? ==> Wire.GetMessages(old(Rest()), n) == Some(Got(r.value, Rest()))
    {
      hide GetBytes;
      var ms: seq<Message> := [];
      PrefixedNone(Wire.GetMessages(Rest(), n));
      for i := 0 to n
        invariant Valid()
        invariant Wire.GetMessages(old(Rest()), n) == Prefixed(ms, Wire.GetMessages(Rest(), n - i))
      {
        var payload := GetMessage();
        if payload.None? {
          return None;
        }
        PrefixedMore(ms, payload.value, Wire.GetMessages(Rest(), n - i - 1));
        ms := ms + [payload.value];
      }
      assert ms + [] == ms;
      r := Some(ms);
    }

    method GetSlice() returns (r: Result<Slice, SerializationError>)
      requires Valid()
      modifies this`off
      ensures Valid() && r == Wire.GetSlice(old(Rest()))
    {
      hide Wire.GetVarint, GetBytes;
      var messageId := GetVarint();
      if messageId.None? {
        return Err(BufferTooShort);
      }
      var sliceIndex := GetVarint();
      if sliceIndex.None? {
        return Err(BufferTooShort);
      }
      var numSlices := GetVarint();
      if numSlices.None? {
        return Err(BufferTooShort);
      }
      if numSlices.value == 0 || numSlices.value > MAX_NUM_SLICES {
        return Err(InvalidNumSlices);
      }
      var payload := GetMessage();
      if payload.None? {
        return Err(BufferTooShort);
      }
      return Ok(Slice(messageId.value, sliceIndex.value, numSlices.value, payload.value));
    }

    /** The ranges below `start`, in the order in which they are read. */
    method GetGaps(n: nat, start: nat) returns (r: Result<seq<Range>, SerializationError>)
      requires Valid()
      modifies this`off
      ensures Valid()
      ensures var spec := Wire.GetGaps(old(Rest()), n, start);
        if r.Ok? then spec == Ok(Got(Reversed(r.value), Rest())) else spec == Err(r.error)
    {
      hide Wire.GetVarint;
      var ackRanges: seq<Range> := [];
      var previousRangeStart: nat := start;
      AboveNone(Wire.GetGaps(Rest(), n, start));
      for i := 0 to n
        invariant Valid()
        invariant Wire.GetGaps(old(Rest()), n, start) ==
                  Above(Wire.GetGaps(Rest(), n - i, previousRangeStart), ackRanges)
      {
        var gap := GetVarint();
        if gap.None? {
          return Err(BufferTooShort);
        }
        if previousRangeStart < 2 + gap.value {
          return Err(InvalidAckRange);
        }
        var rangeEnd := previousRangeStart - gap.value - 2;
        var rangeSize := GetVarint();
        if rangeSize.None? {
          return Err(BufferTooShort);
        }
        if rangeEnd < rangeSize.value {
          return Err(InvalidAckRange);
        }
        var rangeStart := rangeEnd - rangeSize.value;
        AboveMore(Wire.GetGaps(Rest(), n - i - 1, rangeStart), Range(rangeStart, rangeEnd + 1), ackRanges);
        ackRanges := ackRanges + [Range(rangeStart, rangeEnd + 1)];
        previousRangeStart := rangeStart;
      }
      assert [] + Reversed(ackRanges) == Reversed(ackRanges);
      r := Ok(ackRanges);
    }

    method GetRanges() returns (r: Result<seq<Range>, SerializationError>)
      requires Valid()
      modifies this`off
      ensures Valid() && r == Wire.GetRanges(old(Rest()))
    {
      hide Wire.GetVarint, Wire.GetGaps;
      var firstRangeEnd := GetVarint();
      if firstRangeEnd.None? {
        return Err(BufferTooShort);
      }
      var firstRangeSize := GetVarint();
      if firstRangeSize.None? {
        return Err(BufferTooShort);
      }
      var numRemainingRanges := GetVarint();
      if numRemainingRanges.None? {
        return Err(BufferTooShort);
      }
      if firstRangeEnd.value < firstRangeSize.value {
        return Err(InvalidAckRange);
      }
      var firstRangeStart := firstRangeEnd.value - firstRangeSize.value;
      var rest := GetGaps(numRemainingRanges.value, firstRangeStart);
      if rest.Err? {
        return Err(rest.error);
      }
      var ackRanges := [Range(firstRangeStart, firstRangeEnd.value + 1)] + rest.value;
      assert Reversed(ackRanges) == Reversed(rest.value) + [ackRanges[0]];
      return Ok(Reversed(ackRanges));
    }
  }

  /** `Vec::reverse`. */
  function Reversed(rs: seq<Range>): (r: seq<Range>)
    ensures |r| == |rs| && forall i :: 0 <= i < |rs| ==> r[i] == rs[|rs| - 1 - i]
    decreases |rs|
  {
    if rs == [] then [] else Reversed(rs[1..]) + [rs[0]]
  }

  /** What was read before, in front of what is still to be read. */
  ghost function Prefixed<T>(xs: seq<T>, tail: Option<Got<seq<T>>>): Option<Got<seq<T>>> {
    if tail.None? then None else Some(Got(xs + tail.value.value, tail.value.rest))
  }

  lemma PrefixedNone<T>(tail: Option<Got<seq<T>>>)
    ensures Prefixed([], tail) == tail
  {
    if tail.Some? {
      assert [] + tail.value.value == tail.value.value;
    }
  }

  lemma PrefixedMore<T>(xs: seq<T>, x: T, tail: Option<Got<seq<T>>>)
    ensures Prefixed(xs, Prefixed([x], tail)) == Prefixed(xs + [x], tail)
  {
    if tail.Some? {
      assert xs + ([x] + tail.value.value) == xs + [x] + tail.value.value;
    }
  }

  type Gaps = Result<Got<seq<Range>>, SerializationError>

  /** The ranges read before come after those that are still to be read, in reverse. */
  ghost function Above(tail: Gaps, rs: seq<Range>): Gaps {
    if tail.Err? then tail else Ok(Got(tail.value.value + Reversed(rs), tail.value.rest))
  }

  lemma AboveNone(tail: Gaps)
    ensures Above(tail, []) == tail
  {
    if tail.Ok? {
      assert tail.value.value + [] == tail.value.value;
    }
  }

  lemma AboveMore(tail: Gaps, r: Range, rs: seq<Range>)
    ensures tail.Ok? ==> Above(tail, [r]) == Ok(Got(tail.value.value + [r], tail.value.rest))
    ensures Above(Above(tail, [r]), rs) == Above(tail, rs + [r])
  {
    assert Reversed([r]) == [r];
    assert Reversed(rs + [r]) == [r] + Reversed(rs);
    if tail.Ok? {
      assert tail.value.value + [r] + Reversed(rs) == tail.value.value + ([r] + Reversed(rs));
    }
  }

  method GetBody(kind: byte, sequence: nat, b: Octets) returns (r: Result<Packet, SerializationError>)
    requires b.Valid() && kind <= 4
    modifies b`off
    ensures b.Valid() && r == DecodeBody(kind, sequence, old(b.Rest()))
  {
    hide GetEntries, GetMessages, GetSlice, GetRanges;
    if kind == 4 {
      var ranges := b.GetRanges();
      return if ranges.Err? then Err(ranges.error) else Ok(Ack(sequence, ranges.value));
    }
    var channelId := b.GetU8();
    if channelId.None? {
      return Err(BufferTooShort);
    }
    if kind == 2 || kind == 3 {
      var slice := b.GetSlice();
      if slice.Err? {
        return Err(slice.error);
      }
      if kind == 3 {
        return Ok(UnreliableSlice(sequence, channelId.value, slice.value));
      }
      if slice.value.payload == [] {
        return Err(EmptySlice);
      }
      if |slice.value.payload| > SLICE_SIZE {
        return Err(SliceSizeAboveLimit);
      }
      return Ok(ReliableSlice(sequence, channelId.value, slice.value));
    }
    var messagesLen := b.GetU16();
    if messagesLen.None? {
      return Err(BufferTooShort);
    }
    if kind == 0 {
      var es := b.GetEntries(messagesLen.value);
      return if es.None? then Err(BufferTooShort) else Ok(SmallReliable(sequence, channelId.value, es.value));
    }
    var ms := b.GetMessages(messagesLen.value);
    return if ms.None? then Err(BufferTooShort) else Ok(SmallUnreliable(sequence, channelId.value, ms.value));
  }

  method FromBytes(b: Octets) returns (r: Result<Packet, SerializationError>)
    requires b.Valid()
    modifies b`off
    ensures b.Valid() && r == Decode(old(b.Rest()))
  {
    hide DecodeBody, GetVarint;
    var kind := b.GetU8();
    if kind.None? {
      return Err(BufferTooShort);
    }
    if kind.value > 4 {
      return Err(InvalidPacketType);
    }
    var sequence := b.GetVarint();
    if sequence.None? {
      return Err(BufferTooShort);
    }
    r := GetBody(kind.value, sequence.value, b);
  }
}
