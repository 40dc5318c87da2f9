/**
 The wire format of renet packets (renet/src/packet.rs). Variable-length integers are
 those of section 16 of RFC 9000.
 */
module Wire {
  import opened Common
  import opened AckRanges

  /** Variable-length integers are below this bound. */
  const VARINT_LIMIT: nat := 0x4000_0000_0000_0000
  const MAX_NUM_SLICES: nat := 1_000_000

  datatype Entry = Entry(id: nat, payload: Message)

  datatype Slice = Slice(messageId: nat, sliceIndex: nat, numSlices: nat, payload: Message)

  datatype Packet =
    | SmallReliable(sequence: nat, channelId: byte, entries: seq<Entry>)
    | SmallUnreliable(sequence: nat, channelId: byte, messages: seq<Message>)
    | UnreliableSlice(sequence: nat, channelId: byte, slice: Slice)
    | ReliableSlice(sequence: nat, channelId: byte, slice: Slice)
    | Ack(sequence: nat, ackRanges: seq<Range>)

  datatype SerializationError =
    | BufferTooShort
    | InvalidNumSlices
    | SliceSizeAboveLimit
    | EmptySlice
    | InvalidAckRange
    | InvalidPacketType

  /** A parsed value and the bytes after it. */
  datatype Got<T> = Got(value: T, rest: seq<byte>)

  // ---------------------------------------------------------------- integers

  function Pow256(n: nat): (p: nat)
    ensures p > 0
  {
    if n == 0 then 1 else 256 * Pow256(n - 1)
  }

  function BigEndian(v: nat, n: nat): (b: seq<byte>)
    ensures |b| == n
  {
    if n == 0 then [] else BigEndian(v / 256, n - 1) + [v % 256]
  }

  function FromBigEndian(b: seq<byte>): nat {
    if b == [] then 0 else 256 * FromBigEndian(b[..|b| - 1]) + b[|b| - 1]
  }

  lemma {:induction false} BigEndianRoundTrip(v: nat, n: nat)
    requires v < Pow256(n)
    ensures FromBigEndian(BigEndian(v, n)) == v
  {
    if n > 0 {
      BigEndianRoundTrip(v / 256, n - 1);
      assert BigEndian(v, n)[..n - 1] == BigEndian(v / 256, n - 1);
    }
  }

  lemma {:induction false} BigEndianHead(v: nat, n: nat)
    requires 0 < n && v < 64 * Pow256(n - 1)
    ensures BigEndian(v, n)[0] < 64
  {
    if n > 1 {
      BigEndianHead(v / 256, n - 1);
      assert BigEndian(v, n)[0] == BigEndian(v / 256, n - 1)[0];
    }
  }

  lemma {:induction false} FromBigEndianBound(b: seq<byte>)
    requires b != [] && b[0] < 64
    ensures FromBigEndian(b) < 64 * Pow256(|b| - 1)
  {
    if |b| > 1 {
      FromBigEndianBound(b[..|b| - 1]);
    }
  }

  /** The two most significant bits of a variable-length integer. */
  function VarintTag(v: nat): nat {
    if v < 0x40 then 0 else if v < 0x4000 then 1 else if v < 0x4000_0000 then 2 else 3
  }

  function TagLen(tag: nat): nat {
    if tag == 0 then 1 else if tag == 1 then 2 else if tag == 2 then 4 else 8
  }

  function VarintLen(v: nat): nat {
    TagLen(VarintTag(v))
  }

  lemma PowValues()
    ensures Pow256(0) == 1 && Pow256(1) == 0x100 && Pow256(3) == 0x100_0000 && Pow256(7) == 0x100_0000_0000_0000
  {
    assert Pow256(2) == 0x1_0000;
    assert Pow256(4) == 0x1_0000_0000;
    assert Pow256(5) == 0x100_0000_0000;
    assert Pow256(6) == 0x1_0000_0000_0000;
  }

  lemma TagFits(v: nat)
    requires v < VARINT_LIMIT
    ensures v < 64 * Pow256(VarintLen(v) - 1)
  {
    PowValues();
  }

  /** Writes a big-endian integer and puts the tag into its top two bits. */
  function PutVarint(v: nat): (b: seq<byte>)
    requires v < VARINT_LIMIT
    ensures |b| == VarintLen(v)
  {
    var body := BigEndian(v, VarintLen(v));
    TagFits(v);
    BigEndianHead(v, VarintLen(v));
    [body[0] + 64 * VarintTag(v)] + body[1..]
  }

  function GetVarint(b: seq<byte>): (r: Option<Got<nat>>)
    ensures r.Some? ==> r.value.value < VARINT_LIMIT && |r.value.rest| < |b|
  {
    if b == [] then None
    else
      var len := TagLen(b[0] / 64);
      if |b| < len then None
      else
        var body: seq<byte> := [b[0] % 64] + b[1..len];
        FromBigEndianBound(body);
        PowValues();
        Some(Got(FromBigEndian(body), b[len..]))
  }

  /** Reading back a variable-length integer returns it and nothing of what follows. */
  lemma VarintRoundTrip(v: nat, rest: seq<byte>)
    requires v < VARINT_LIMIT
    ensures GetVarint(PutVarint(v) + rest) == Some(Got(v, rest))
  {
    var n := VarintLen(v);
    var body := BigEndian(v, n);
    var b := PutVarint(v) + rest;
    TagFits(v);
    BigEndianHead(v, n);
    assert b[0] / 64 == VarintTag(v);
    assert [b[0] % 64] + b[1..n] == body;
    assert b[n..] == rest;
    BigEndianRoundTrip(v, n);
  }

  function PutU16(v: nat): seq<byte> {
    [v / 256 % 256, v % 256]
  }

  /** A length-prefixed byte string. */
  function PutBytes(m: Message): (b: seq<byte>)
    requires |m| < VARINT_LIMIT
    ensures |b| == VarintLen(|m|) + |m|
  {
    PutVarint(|m|) + m
  }

  function GetBytes(b: seq<byte>): (r: Option<Got<Message>>)
    ensures r.Some? ==> |r.value.rest| < |b|
  {
    var len := GetVarint(b);
    if len.None? || |len.value.rest| < len.value.value then None
    else Some(Got(len.value.rest[..len.value.value], len.value.rest[len.value.value..]))
  }

  lemma BytesRoundTrip(m: Message, rest: seq<byte>)
    requires |m| < VARINT_LIMIT
    ensures GetBytes(PutBytes(m) + rest) == Some(Got(m, rest))
  {
    hide GetVarint, PutVarint;
    assert PutBytes(m) + rest == PutVarint(|m|) + (m + rest);
    VarintRoundTrip(|m|, m + rest);
    assert (m + rest)[..|m|] == m && (m + rest)[|m|..] == rest;
  }

  // ---------------------------------------------------------------- message lists

  predicate EntryFits(e: Entry) {
    e.id < VARINT_LIMIT && |e.payload| < VARINT_LIMIT
  }

  function PutEntry(e: Entry): seq<byte>
    requires EntryFits(e)
  {
    PutVarint(e.id) + PutBytes(e.payload)
  }

  function PutEntries(es: seq<Entry>): seq<byte>
    requires forall e :: e in es ==> EntryFits(e)
  {
    if es == [] then [] else PutEntry(es[0]) + PutEntries(es[1..])
  }

  function GetEntry(b: seq<byte>): Option<Got<Entry>> {
    var id := GetVarint(b);
    if id.None? then None
    else
      var payload := GetBytes(id.value.rest);
      if payload.None? then None
      else Some(Got(Entry(id.value.value, payload.value.value), payload.value.rest))
  }

  function GetEntries(b: seq<byte>, n: nat): Option<Got<seq<Entry>>> {
    if n == 0 then Some(Got([], b))
    else
      var head := GetEntry(b);
      if head.None? then None
      else
        var tail := GetEntries(head.value.rest, n - 1);
        if tail.None? then None else Some(Got([head.value.value] + tail.value.value, tail.value.rest))
  }

  lemma EntryRoundTrip(e: Entry, rest: seq<byte>)
    requires EntryFits(e)
    ensures GetEntry(PutEntry(e) + rest) == Some(Got(e, rest))
  {
    hide GetVarint, PutVarint, GetBytes, PutBytes;
    assert PutEntry(e) + rest == PutVarint(e.id) + (PutBytes(e.payload) + rest);
    VarintRoundTrip(e.id, PutBytes(e.payload) + rest);
    BytesRoundTrip(e.payload, rest);
  }

  lemma Split(a: seq<byte>, b: seq<byte>, rest: seq<byte>)
    ensures a + b + rest == a + (b + rest)
  {
  }

  lemma {:induction false} EntriesRoundTrip(es: seq<Entry>, rest: seq<byte>)
    requires forall e :: e in es ==> EntryFits(e)
    ensures GetEntries(PutEntries(es) + rest, |es|) == Some(Got(es, rest))
  {
    hide GetEntry, PutEntry;
    if es == [] {
      assert PutEntries(es) + rest == rest;
    } else {
      var tail := PutEntries(es[1..]) + rest;
      Split(PutEntry(es[0]), PutEntries(es[1..]), rest);
      EntryRoundTrip(es[0], tail);
      EntriesRoundTrip(es[1..], rest);
      assert [es[0]] + es[1..] == es;
    }
  }

  function PutMessages(ms: seq<Message>): seq<byte>
    requires forall m :: m in ms ==> |m| < VARINT_LIMIT
  {
    if ms == [] then [] else PutBytes(ms[0]) + PutMessages(ms[1..])
  }

  function GetMessages(b: seq<byte>, n: nat): Option<Got<seq<Message>>> {
    if n == 0 then Some(Got([], b))
    else
      var payload := GetBytes(b);
      if payload.None? then None
      else
        var tail := GetMessages(payload.value.rest, n - 1);
        if tail.None? then None else Some(Got([payload.value.value] + tail.value.value, tail.value.rest))
  }

  lemma {:induction false} MessagesRoundTrip(ms: seq<Message>, rest: seq<byte>)
    requires forall m :: m in ms ==> |m| < VARINT_LIMIT
    ensures GetMessages(PutMessages(ms) + rest, |ms|) == Some(Got(ms, rest))
  {
    hide GetVarint, PutVarint, GetBytes, PutBytes;
    if ms == [] {
      assert PutMessages(ms) + rest == rest;
    } else {
      var tail := PutMessages(ms[1..]) + rest;
      Split(PutBytes(ms[0]), PutMessages(ms[1..]), rest);
      BytesRoundTrip(ms[0], tail);
      MessagesRoundTrip(ms[1..], rest);
      assert [ms[0]] + ms[1..] == ms;
    }
  }

  // ---------------------------------------------------------------- slices

  predicate SliceFits(s: Slice) {
    && s.messageId < VARINT_LIMIT && s.sliceIndex < VARINT_LIMIT
    && s.numSlices < VARINT_LIMIT && |s.payload| < VARINT_LIMIT
  }

  function PutSlice(s: Slice): seq<byte>
    requires SliceFits(s)
  {
    PutVarint(s.messageId) + (PutVarint(s.sliceIndex) + (PutVarint(s.numSlices) + PutBytes(s.payload)))
  }

  /** Reads a slice; the number of slices is checked before the payload is read. */
  function GetSlice(b: seq<byte>): Result<Slice, SerializationError> {
    var id := GetVarint(b);
    if id.None? then Err(BufferTooShort)
    else
      var index := GetVarint(id.value.rest);
      if index.None? then Err(BufferTooShort)
      else
        var num := GetVarint(index.value.rest);
        if num.None? then Err(BufferTooShort)
        else if num.value.value == 0 || num.value.value > MAX_NUM_SLICES then Err(InvalidNumSlices)
        else
          var payload := GetBytes(num.value.rest);
          if payload.None? then Err(BufferTooShort)
          else Ok(Slice(id.value.value, index.value.value, num.value.value, payload.value.value))
  }

  lemma SliceRoundTrip(s: Slice, rest: seq<byte>)
    requires SliceFits(s)
    ensures GetSlice(PutSlice(s) + rest) ==
            if s.numSlices == 0 || s.numSlices > MAX_NUM_SLICES then Err(InvalidNumSlices) else Ok(s)
  {
    hide GetVarint, PutVarint, GetBytes, PutBytes;
    var t3 := PutBytes(s.payload) + rest;
    var t2 := PutVarint(s.numSlices) + t3;
    var t1 := PutVarint(s.sliceIndex) + t2;
    assert PutSlice(s) + rest == PutVarint(s.messageId) + t1;
    VarintRoundTrip(s.messageId, t1);
    VarintRoundTrip(s.sliceIndex, t2);
    VarintRoundTrip(s.numSlices, t3);
    BytesRoundTrip(s.payload, rest);
  }

  // ---------------------------------------------------------------- acks

  /** All ranges of `rs` lie below `bound`, with a gap in between. */
  ghost predicate Below(rs: seq<Range>, bound: nat) {
    rs != [] ==> rs[|rs| - 1].end < bound
  }

  /** The ranges of `rs` from the last to the first, each relative to the start of its successor. */
  function PutGaps(rs: seq<Range>, previousStart: nat): seq<byte>
    requires Normal(rs) && Below(rs, previousStart) && previousStart < VARINT_LIMIT
  {
    if rs == [] then []
    else
      var r := rs[|rs| - 1];
      PutVarint(previousStart - r.end - 1) + (PutVarint(r.end - 1 - r.start) + PutGaps(rs[..|rs| - 1], r.start))
  }

  function GetGaps(b: seq<byte>, n: nat, previousStart: nat): Result<Got<seq<Range>>, SerializationError> {
    if n == 0 then Ok(Got([], b))
    else
      var gap := GetVarint(b);
      if gap.None? then Err(BufferTooShort)
      else if previousStart < 2 + gap.value.value then Err(InvalidAckRange)
      else
        var end := previousStart - gap.value.value - 2;
        var size := GetVarint(gap.value.rest);
        if size.None? then Err(BufferTooShort)
        else if end < size.value.value then Err(InvalidAckRange)
        else
          var start := end - size.value.value;
          var lower := GetGaps(size.value.rest, n - 1, start);
          if lower.Err? then lower
          else Ok(Got(lower.value.value + [Range(start, end + 1)], lower.value.rest))
  }

  lemma NormalInit(rs: seq<Range>)
    requires Normal(rs) && rs != []
    ensures var n := |rs| - 1; Normal(rs[..n]) && Below(rs[..n], rs[n].start) && rs[n].start < rs[n].end
  {
  }

  lemma GapsSplit(a: seq<byte>, b: seq<byte>, c: seq<byte>, rest: seq<byte>)
    ensures a + (b + c) + rest == a + (b + (c + rest))
  {
  }

  lemma {:induction false} GapsRoundTrip(rs: seq<Range>, previousStart: nat, rest: seq<byte>)
    requires Normal(rs) && Below(rs, previousStart) && previousStart < VARINT_LIMIT
    ensures GetGaps(PutGaps(rs, previousStart) + rest, |rs|, previousStart) == Ok(Got(rs, rest))
  {
    hide GetVarint, PutVarint, Normal;
    if rs == [] {
      assert PutGaps(rs, previousStart) + rest == rest;
    } else {
      var n := |rs| - 1;
      NormalInit(rs);
      var r := rs[n];
      var tail := PutGaps(rs[..n], r.start) + rest;
      var sized := PutVarint(r.end - 1 - r.start) + tail;
      GapsSplit(PutVarint(previousStart - r.end - 1), PutVarint(r.end - 1 - r.start), PutGaps(rs[..n], r.start), rest);
      VarintRoundTrip(previousStart - r.end - 1, sized);
      VarintRoundTrip(r.end - 1 - r.start, tail);
      GapsRoundTrip(rs[..n], r.start, rest);
      assert rs[..n] + [r] == rs;
    }
  }

  lemma {:induction false} GapsAreNormal(b: seq<byte>, n: nat, previousStart: nat)
    ensures var r := GetGaps(b, n, previousStart);
      r.Ok? ==> Normal(r.value.value) && Below(r.value.value, previousStart)
    decreases n
  {
    hide GetVarint, PutVarint;
    var r := GetGaps(b, n, previousStart);
    if n > 0 && r.Ok? {
      var gap := GetVarint(b).value;
      var size := GetVarint(gap.rest).value;
      GapsAreNormal(size.rest, n - 1, previousStart - gap.value - 2 - size.value);
    }
  }

  function PutRanges(rs: seq<Range>): seq<byte>
    requires Normal(rs) && rs != [] && rs[|rs| - 1].end <= VARINT_LIMIT && |rs| < VARINT_LIMIT
  {
    var last := rs[|rs| - 1];
    PutVarint(last.end - 1) + (PutVarint(last.end - 1 - last.start) +
    (PutVarint(|rs| - 1) + PutGaps(rs[..|rs| - 1], last.start)))
  }

  function GetRanges(b: seq<byte>): Result<seq<Range>, SerializationError> {
    var end := GetVarint(b);
    if end.None? then Err(BufferTooShort)
    else
      var size := GetVarint(end.value.rest);
      if size.None? then Err(BufferTooShort)
      else
        var remaining := GetVarint(size.value.rest);
        if remaining.None? then Err(BufferTooShort)
        else if end.value.value < size.value.value then Err(InvalidAckRange)
        else
          var start := end.value.value - size.value.value;
          var lower := GetGaps(remaining.value.rest, remaining.value.value, start);
          if lower.Err? then Err(lower.error)
          else Ok(lower.value.value + [Range(start, end.value.value + 1)])
  }

  lemma RangesRoundTrip(rs: seq<Range>, rest: seq<byte>)
    requires Normal(rs) && rs != [] && rs[|rs| - 1].end <= VARINT_LIMIT && |rs| < VARINT_LIMIT
    ensures GetRanges(PutRanges(rs) + rest) == Ok(rs)
  {
    hide GetVarint, PutVarint, GetGaps, PutGaps;
    var n := |rs| - 1;
    var last := rs[n];
    var t3 := PutGaps(rs[..n], last.start) + rest;
    var t2 := PutVarint(n) + t3;
    var t1 := PutVarint(last.end - 1 - last.start) + t2;
    assert PutRanges(rs) + rest == PutVarint(last.end - 1) + t1;
    VarintRoundTrip(last.end - 1, t1);
    VarintRoundTrip(last.end - 1 - last.start, t2);
    VarintRoundTrip(n, t3);
    GapsRoundTrip(rs[..n], last.start, rest);
    assert rs[..n] + [last] == rs;
  }

  /** Every list the decoder accepts is non-empty and in normal form, whatever the bytes. */
  lemma RangesAreNormal(b: seq<byte>)
    ensures var r := GetRanges(b);
      r.Ok? ==> r.value != [] && Normal(r.value) && r.value[|r.value| - 1].end <= VARINT_LIMIT
  {
    hide GetVarint, PutVarint, GetGaps;
    var r := GetRanges(b);
    if r.Ok? {
      var end := GetVarint(b).value;
      var size := GetVarint(end.rest).value;
      var remaining := GetVarint(size.rest).value;
      GapsAreNormal(remaining.rest, remaining.value, end.value - size.value);
    }
  }

  // ---------------------------------------------------------------- packets

  /** Every integer of the packet can be written. */
  predicate Encodable(p: Packet) {
    && p.sequence < VARINT_LIMIT
    && match p
       case SmallReliable(_, _, es) => forall e :: e in es ==> EntryFits(e)
       case SmallUnreliable(_, _, ms) => forall m :: m in ms ==> |m| < VARINT_LIMIT
       case ReliableSlice(_, _, s) => SliceFits(s)
       case UnreliableSlice(_, _, s) => SliceFits(s)
       case Ack(_, rs) => Normal(rs) && rs != [] && rs[|rs| - 1].end <= VARINT_LIMIT && |rs| < VARINT_LIMIT
  }

  /** The packet body after the type byte and the sequence. */
  ghost function PutBody(p: Packet): seq<byte>
    requires Encodable(p)
  {
    match p
    case SmallReliable(_, c, es) => [c] + (PutU16(|es|) + PutEntries(es))
    case SmallUnreliable(_, c, ms) => [c] + (PutU16(|ms|) + PutMessages(ms))
    case ReliableSlice(_, c, s) => [c] + PutSlice(s)
    case UnreliableSlice(_, c, s) => [c] + PutSlice(s)
    case Ack(_, rs) => PutRanges(rs)
  }

  function PacketType(p: Packet): byte {
    match p
    case SmallReliable(_, _, _) => 0
    case SmallUnreliable(_, _, _) => 1
    case ReliableSlice(_, _, _) => 2
    case UnreliableSlice(_, _, _) => 3
    case Ack(_, _) => 4
  }

  /** The bytes `Packet::to_bytes` writes when the buffer is long enough. */
  ghost function Encode(p: Packet): seq<byte>
    requires Encodable(p)
  {
    [PacketType(p)] + (PutVarint(p.sequence) + PutBody(p))
  }

  function DecodeBody(kind: byte, sequence: nat, b: seq<byte>): Result<Packet, SerializationError> {
    if kind == 4 then
      var rs := GetRanges(b);
      if rs.Err? then Err(rs.error) else Ok(Ack(sequence, rs.value))
    else if b == [] then Err(BufferTooShort)
    else
      var c, body := b[0], b[1..];
      if kind == 2 then
        var s := GetSlice(body);
        if s.Err? then Err(s.error)
        else if s.value.payload == [] then Err(EmptySlice)
        else if |s.value.payload| > SLICE_SIZE then Err(SliceSizeAboveLimit)
        else Ok(ReliableSlice(sequence, c, s.value))
      else if kind == 3 then
        var s := GetSlice(body);
        if s.Err? then Err(s.error) else Ok(UnreliableSlice(sequence, c, s.value))
      else if |body| < 2 then Err(BufferTooShort)
      else
        var n: nat := (body[0] as int) * 256 + body[1];
        if kind == 0 then
          var es := GetEntries(body[2..], n);
          if es.None? then Err(BufferTooShort) else Ok(SmallReliable(sequence, c, es.value.value))
        else
          var ms := GetMessages(body[2..], n);
          if ms.None? then Err(BufferTooShort) else Ok(SmallUnreliable(sequence, c, ms.value.value))
  }

  /** `Packet::from_bytes`. */
  function Decode(b: seq<byte>): Result<Packet, SerializationError> {
    if b == [] then Err(BufferTooShort)
    else if b[0] > 4 then Err(InvalidPacketType)
    else
      var sequence := GetVarint(b[1..]);
      if sequence.None? then Err(BufferTooShort)
      else DecodeBody(b[0], sequence.value.value, sequence.value.rest)
  }

  /** The decoder's limits on slices, and the count fits its 16-bit field. */
  ghost predicate Decodable(p: Packet) {
    match p
    case SmallReliable(_, _, es) => |es| < 0x1_0000
    case SmallUnreliable(_, _, ms) => |ms| < 0x1_0000
    case ReliableSlice(_, _, s) => 0 < s.numSlices <= MAX_NUM_SLICES && 0 < |s.payload| <= SLICE_SIZE
    case UnreliableSlice(_, _, s) => 0 < s.numSlices <= MAX_NUM_SLICES
    case Ack(_, _) => true
  }

  /** The packet is a slice of a message with more slices than the decoder admits. */
  predicate TooManySlices(p: Packet) {
    (p.ReliableSlice? || p.UnreliableSlice?) && p.slice.numSlices > MAX_NUM_SLICES
  }

  lemma SmallBodyRoundTrip(p: Packet, rest: seq<byte>)
    requires Encodable(p) && Decodable(p) && (p.SmallReliable? || p.SmallUnreliable?)
    ensures DecodeBody(PacketType(p), p.sequence, PutBody(p) + rest) == Ok(p)
  {
    hide GetEntries, PutEntries, GetMessages, PutMessages, GetSlice, GetRanges, GetVarint;
    if p.SmallReliable? {
      EntriesRoundTrip(p.entries, rest);
      CountedBody(p.channelId, |p.entries|, PutEntries(p.entries), rest);
    } else {
      MessagesRoundTrip(p.messages, rest);
      CountedBody(p.channelId, |p.messages|, PutMessages(p.messages), rest);
    }
  }

  /** A channel id, a 16-bit count and a list. */
  lemma CountedBody(c: byte, n: nat, list: seq<byte>, rest: seq<byte>)
    requires n < 0x1_0000
    ensures var b := [c] + (PutU16(n) + list) + rest;
      |b| >= 3 && b[0] == c && b[1..][2..] == list + rest && (b[1..][0] as int) * 256 + b[1..][1] == n
  {
    var b := [c] + (PutU16(n) + list) + rest;
    assert b[1..] == PutU16(n) + (list + rest);
  }

  lemma BodyRoundTrip(p: Packet, rest: seq<byte>)
    requires Encodable(p) && Decodable(p)
    ensures DecodeBody(PacketType(p), p.sequence, PutBody(p) + rest) == Ok(p)
  {
    hide GetSlice, PutSlice, GetRanges, PutRanges, GetEntries, PutEntries, GetMessages, PutMessages;
    if p.SmallReliable? || p.SmallUnreliable? {
      SmallBodyRoundTrip(p, rest);
    } else if p.Ack? {
      RangesRoundTrip(p.ackRanges, rest);
    } else {
      assert (PutBody(p) + rest)[1..] == PutSlice(p.slice) + rest;
      SliceRoundTrip(p.slice, rest);
    }
  }

  /** Decoding returns exactly the packet that was encoded, and ignores what follows it. */
  lemma PacketRoundTrip(p: Packet, rest: seq<byte>)
    requires Encodable(p) && Decodable(p)
    ensures Decode(Encode(p) + rest) == Ok(p)
  {
    hide GetVarint, PutVarint, DecodeBody, PutBody;
    var b := Encode(p) + rest;
    assert b[1..] == PutVarint(p.sequence) + (PutBody(p) + rest);
    VarintRoundTrip(p.sequence, PutBody(p) + rest);
    BodyRoundTrip(p, rest);
  }

  /** A message cut into too many slices is refused by the decoder. */
  lemma TooManySlicesRefused(p: Packet, rest: seq<byte>)
    requires Encodable(p) && (p.ReliableSlice? || p.UnreliableSlice?) && p.slice.numSlices > MAX_NUM_SLICES
    ensures Decode(Encode(p) + rest) == Err(InvalidNumSlices)
  {
    hide GetVarint, PutVarint, GetSlice, PutSlice;
    var b := Encode(p) + rest;
    assert b[1..] == PutVarint(p.sequence) + (PutBody(p) + rest);
    VarintRoundTrip(p.sequence, PutBody(p) + rest);
    assert (PutBody(p) + rest)[1..] == PutSlice(p.slice) + rest;
    SliceRoundTrip(p.slice, rest);
  }

  /** Whatever bytes arrive, an accepted Ack packet carries ranges in normal form. */
  lemma DecodedAckIsNormal(b: seq<byte>)
    ensures Decode(b).Ok? ==> Decode(b).value.sequence < VARINT_LIMIT
    ensures Decode(b).Ok? && Decode(b).value.Ack? ==>
      var rs := Decode(b).value.ackRanges; rs != [] && Normal(rs) && rs[|rs| - 1].end <= VARINT_LIMIT
  {
    hide GetVarint, PutVarint, GetRanges, GetSlice, GetEntries, GetMessages;
    if b != [] && GetVarint(b[1..]).Some? {
      RangesAreNormal(GetVarint(b[1..]).value.rest);
    }
  }

  // ---------------------------------------------------------------- payload

  function EntriesBytes(es: seq<Entry>): nat {
    if es == [] then 0 else EntriesBytes(es[..|es| - 1]) + |es[|es| - 1].payload|
  }

  function QueueBytes(ms: seq<Message>): nat {
    if ms == [] then 0 else QueueBytes(ms[..|ms| - 1]) + |ms[|ms| - 1]|
  }

  lemma QueueBytesAppend(ms: seq<Message>, m: Message)
    ensures QueueBytes(ms + [m]) == QueueBytes(ms) + |m|
  {
    assert (ms + [m])[..|ms|] == ms;
  }

  lemma {:induction false} QueueBytesTail(ms: seq<Message>)
    requires ms != []
    ensures QueueBytes(ms) == |ms[0]| + QueueBytes(ms[1..])
  {
    if |ms| > 1 {
      var n := |ms| - 1;
      QueueBytesTail(ms[..n]);
      assert ms[..n][1..] == ms[1..][..n - 1];
    }
  }

  /** The message bytes a packet carries. */
  function PayloadBytes(p: Packet): nat {
    match p
    case SmallReliable(_, _, es) => EntriesBytes(es)
    case SmallUnreliable(_, _, ms) => QueueBytes(ms)
    case ReliableSlice(_, _, sl) => |sl.payload|
    case UnreliableSlice(_, _, sl) => |sl.payload|
    case Ack(_, _) => 0
  }

  function TotalPayload(ps: seq<Packet>): nat {
    if ps == [] then 0 else TotalPayload(ps[..|ps| - 1]) + PayloadBytes(ps[|ps| - 1])
  }

  ghost predicate Consecutive(ps: seq<Packet>, first: nat) {
    forall i :: 0 <= i < |ps| ==> ps[i].sequence == first + i
  }

  lemma AppendPacket(ps: seq<Packet>, p: Packet)
    ensures TotalPayload(ps + [p]) == TotalPayload(ps) + PayloadBytes(p)
  {
    assert (ps + [p])[..|ps|] == ps;
  }

  lemma {:induction false} TotalPayloadConcat(a: seq<Packet>, b: seq<Packet>)
    ensures TotalPayload(a + b) == TotalPayload(a) + TotalPayload(b)
  {
    if b == [] {
      assert a + b == a;
    } else {
      var n := |b| - 1;
      TotalPayloadConcat(a, b[..n]);
      assert (a + b)[..|a| + n] == a + b[..n];
    }
  }

  lemma ConsecutiveConcat(a: seq<Packet>, b: seq<Packet>, first: nat)
    requires Consecutive(a, first) && Consecutive(b, first + |a|)
    ensures Consecutive(a + b, first)
  {
  }
}
