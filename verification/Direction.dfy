/**
 One direction of a connection: what one endpoint has sent, what the network may carry,
 what the other endpoint has received, and what the first knows about it.
 */
module Direction {
  import opened Common
  import opened AckRanges
  import opened Wire
  import opened Connection
  import RS = ReliableSend
  import SS = SendScheduling
  import RR = ReliableReceive
  import U = Unreliable

  /**
   What happened so far in one direction.
   `sent`, `usent`: messages accepted by `send_message`, by reliable and unreliable channel.
   `sliced`: messages that unreliable channels cut up, by number.
   `delivered`, `out`: ids and messages returned by `receive_message`.
   `processed`: sequences of the packets the receiver has processed.
   */
  datatype History = History(
    sent: map<byte, seq<Message>>,
    usent: map<byte, seq<Message>>,
    sliced: map<byte, seq<Message>>,
    delivered: map<byte, seq<nat>>,
    out: map<byte, seq<Message>>,
    processed: set<nat>)

  /** Every packet generated and every payload handed to the network, in order. */
  datatype Link = Link(log: seq<Packet>, wire: seq<seq<byte>>)

  /** Channel memory limits are machine words. */
  const WORD_LIMIT: nat := 0x1_0000_0000_0000_0000

  // ---------------------------------------------------------------- genuine packets

  ghost predicate GenuineEntry(sent: seq<Message>, e: Entry) {
    e.id < |sent| && e.payload == sent[e.id] && |e.payload| <= SLICE_SIZE
  }

  /** The packet carries nothing but what was sent. */
  ghost predicate Genuine(h: History, p: Packet) {
    match p
    case SmallReliable(_, c, es) =>
      (forall e :: e in es ==> GenuineEntry(At(h.sent, c), e)) && SS.EntriesSize(es) <= SS.MAX_BATCH
    case ReliableSlice(_, c, sl) => RR.GenuineSlice(At(h.sent, c), sl)
    case SmallUnreliable(_, c, ms) => Within(ms, At(h.usent, c)) && U.MessagesSize(ms) <= U.MAX_UBATCH
    case UnreliableSlice(_, c, sl) => RR.GenuineSlice(At(h.sliced, c), sl)
    case Ack(_, rs) => Normal(rs) && rs != [] && rs[|rs| - 1].end <= VARINT_LIMIT
  }

  /** More has been sent in the meantime. */
  ghost predicate Extends(h: History, h': History) {
    forall c: byte ::
      && At(h.sent, c) <= At(h'.sent, c)
      && At(h.usent, c) <= At(h'.usent, c)
      && At(h.sliced, c) <= At(h'.sliced, c)
  }

  lemma WithinPrefix<T>(xs: seq<T>, a: seq<T>, b: seq<T>)
    requires Within(xs, a) && a <= b
    ensures Within(xs, b)
  {
    forall x | x in xs
      ensures x in b
    {
      assert x in a;
      var i :| 0 <= i < |a| && a[i] == x;
      assert b[i] == x;
    }
  }

  lemma GenuineMonotone(h: History, h': History, p: Packet)
    requires Genuine(h, p) && Extends(h, h')
    ensures Genuine(h', p)
  {
    match p {
      case SmallReliable(_, c, es) =>
        assert At(h.sent, c) <= At(h'.sent, c);
      case ReliableSlice(_, c, sl) =>
        assert At(h.sent, c) <= At(h'.sent, c);
      case SmallUnreliable(_, c, ms) =>
        WithinPrefix(ms, At(h.usent, c), At(h'.usent, c));
      case UnreliableSlice(_, c, sl) =>
        assert At(h.sliced, c) <= At(h'.sliced, c);
      case Ack(_, rs) =>
    }
  }

  // ---------------------------------------------------------------- the sender's side

  /** The log is numbered by sequence, and the wire carries the encodings of a prefix of it. */
  ghost predicate LinkOk(link: Link, h: History, n: nat, alive: bool) {
    && |link.log| == n && |link.wire| <= n && (alive ==> |link.wire| == n)
    && Consecutive(link.log, 0)
    && WireOk(link.log, link.wire)
    && LogOk(link.log, h)
  }

  /** The wire carries the encodings of a prefix of the log. */
  ghost predicate WireOk(log: seq<Packet>, wire: seq<seq<byte>>) {
    |wire| <= |log| &&
    forall i :: 0 <= i < |wire| ==> Encodable(log[i]) && wire[i] == Encode(log[i])
  }

  ghost predicate LogOk(log: seq<Packet>, h: History) {
    forall i :: 0 <= i < |log| ==> Genuine(h, log[i])
  }

  /** Tracked packets are packets of the log. */
  ghost predicate TrackOk(sentPackets: map<nat, PacketSent>, log: seq<Packet>) {
    forall s :: s in sentPackets ==> s < |log| && sentPackets[s].info == InfoOf(log[s])
  }

  /** Reliable packets of the log belong to existing channels. */
  ghost predicate ChannelsOk(log: seq<Packet>, channels: set<byte>) {
    forall i :: 0 <= i < |log| ==>
      (log[i].SmallReliable? || log[i].ReliableSlice?) ==> log[i].channelId in channels
  }

  /** Message lengths are machine words. */
  ghost predicate Words(ms: seq<Message>) {
    forall i :: 0 <= i < |ms| ==> |ms[i]| < WORD_LIMIT
  }

  /** The channel holds exactly messages that were sent, under their ids. */
  ghost predicate Holds(s: RS.SendState, c: byte, sent: seq<Message>) {
    && s.channelId == c && RS.WfSend(s) && s.maxMemory < WORD_LIMIT
    && s.nextId == |sent| && Words(sent)
    && (forall id :: id in s.unacked ==> s.unacked[id].message == sent[id])
  }

  ghost predicate SendROk(sendR: map<byte, RS.SendState>, h: History) {
    forall c :: c in sendR ==> Holds(sendR[c], c, At(h.sent, c))
  }

  ghost predicate UHolds(s: U.USend, c: byte, usent: seq<Message>, sliced: seq<Message>) {
    && s.channelId == c && U.WfUSend(s) && s.maxMemory < WORD_LIMIT
    && Within(s.queue, usent) && Within(sliced, usent)
    && s.slicedId == |sliced| && Words(usent)
  }

  ghost predicate SendUOk(sendU: map<byte, U.USend>, h: History) {
    forall c :: c in sendU ==> UHolds(sendU[c], c, At(h.usent, c), At(h.sliced, c))
  }

  // ---------------------------------------------------------------- the receiver's side

  /** What was handed out is what was sent, id by id. */
  ghost predicate OutOk(out: seq<Message>, delivered: seq<nat>, sent: seq<Message>) {
    |out| == |delivered| &&
    forall k :: 0 <= k < |out| ==> delivered[k] < |sent| && out[k] == sent[delivered[k]]
  }

  ghost predicate RecvROk(recvR: map<byte, RR.RecvState>, h: History) {
    forall c :: c in recvR ==>
      && RR.RecvInv(recvR[c], At(h.sent, c), At(h.delivered, c))
      && OutOk(At(h.out, c), At(h.delivered, c), At(h.sent, c))
  }

  ghost predicate RecvUOk(recvR: map<byte, RR.RecvState>, recvU: map<byte, U.URecv>, h: History, now: Time) {
    forall c :: c in recvU ==>
      && U.URecvInv(recvU[c], At(h.usent, c), At(h.sliced, c), now)
      && (c !in recvR ==> Within(At(h.out, c), At(h.usent, c)))
  }

  ghost predicate AcceptedBy(recvR: map<byte, RR.RecvState>, c: byte, id: nat) {
    c in recvR && RR.Accepted(recvR[c], id)
  }

  ghost predicate GotSliceBy(recvR: map<byte, RR.RecvState>, c: byte, id: nat, i: nat) {
    c in recvR && RR.GotSlice(recvR[c], id, i)
  }

  /** Everything reliable in the packet has reached the receiving channel. */
  ghost predicate Absorbed(recvR: map<byte, RR.RecvState>, p: Packet) {
    match p
    case SmallReliable(_, c, es) => forall e :: e in es ==> AcceptedBy(recvR, c, e.id)
    case ReliableSlice(_, c, sl) => GotSliceBy(recvR, c, sl.messageId, sl.sliceIndex)
    case _ => true
  }

  ghost predicate ProcessedOk(link: Link, recvR: map<byte, RR.RecvState>, processed: set<nat>) {
    forall s :: s in processed ==> s < |link.wire| <= |link.log| && Absorbed(recvR, link.log[s])
  }

  /** Acknowledged sequences are processed ones. */
  ghost predicate AcksOk(rs: seq<Range>, processed: set<nat>) {
    forall x :: Covers(rs, x) ==> x in processed
  }

  ghost predicate AckLogOk(log: seq<Packet>, processed: set<nat>) {
    forall i :: 0 <= i < |log| && log[i].Ack? ==> AcksOk(log[i].ackRanges, processed)
  }

  // ---------------------------------------------------------------- the sender's knowledge

  ghost predicate MarkedAcked(u: RS.Unacked, i: nat) {
    u.Sliced? && i < |u.acked| && u.acked[i]
  }

  /** What the sending channel no longer holds has arrived, and so has every slice it marked. */
  ghost predicate Known(s: RS.SendState, recvR: map<byte, RR.RecvState>, c: byte) {
    && (forall id :: 0 <= id < s.nextId && id !in s.unacked ==> AcceptedBy(recvR, c, id))
    && (forall id, i :: id in s.unacked && MarkedAcked(s.unacked[id], i) ==> GotSliceBy(recvR, c, id, i))
  }

  ghost predicate KnowledgeOk(sendR: map<byte, RS.SendState>, recvR: map<byte, RR.RecvState>) {
    forall c :: c in sendR ==> Known(sendR[c], recvR, c)
  }

  // ---------------------------------------------------------------- the invariant of a direction

  ghost predicate SenderOk(x: Endpoint, xy: Link, h: History) {
    && LinkOk(xy, h, x.packetSequence, Alive(x))
    && TrackOk(x.sentPackets, xy.log)
    && ChannelsOk(xy.log, x.sendR.Keys)
    && SendROk(x.sendR, h)
    && SendUOk(x.sendU, h)
  }

  ghost predicate ReceiverOk(y: Endpoint, h: History) {
    && RecvROk(y.recvR, h)
    && RecvUOk(y.recvR, y.recvU, h, y.currentTime)
  }

  ghost predicate PendingOk(y: Endpoint, yx: Link, h: History) {
    && Normal(y.pendingAcks)
    && (y.pendingAcks != [] ==> y.pendingAcks[|y.pendingAcks| - 1].end <= VARINT_LIMIT)
    && (Alive(y) ==> AcksOk(y.pendingAcks, h.processed))
    && AckLogOk(yx.log, h.processed)
  }

  /** Direction from `x` to `y`. */
  ghost predicate DirInv(x: Endpoint, y: Endpoint, xy: Link, yx: Link, h: History) {
    && SenderOk(x, xy, h)
    && ReceiverOk(y, h)
    && ProcessedOk(xy, y.recvR, h.processed)
    && PendingOk(y, yx, h)
    && KnowledgeOk(x.sendR, y.recvR)
  }

  // ---------------------------------------------------------------- growing receivers

  /** No channel forgets anything it has taken in. */
  ghost predicate RecvGrows(a: map<byte, RR.RecvState>, b: map<byte, RR.RecvState>) {
    a.Keys <= b.Keys && forall c :: c in a ==> RR.Grows(a[c], b[c])
  }

  lemma GrowsKnowledge(sendR: map<byte, RS.SendState>, a: map<byte, RR.RecvState>, b: map<byte, RR.RecvState>)
    requires KnowledgeOk(sendR, a) && RecvGrows(a, b)
    ensures KnowledgeOk(sendR, b)
  {
    hide RR.Accepted, RR.GotSlice;
  }

  lemma GrowsAbsorbed(a: map<byte, RR.RecvState>, b: map<byte, RR.RecvState>, p: Packet)
    requires Absorbed(a, p) && RecvGrows(a, b)
    ensures Absorbed(b, p)
  {
    hide RR.Accepted, RR.GotSlice;
  }

  lemma GrowsProcessed(link: Link, a: map<byte, RR.RecvState>, b: map<byte, RR.RecvState>, processed: set<nat>)
    requires ProcessedOk(link, a, processed) && RecvGrows(a, b)
    ensures ProcessedOk(link, b, processed)
  {
    hide Absorbed, RecvGrows;
    forall s | s in processed
      ensures Absorbed(b, link.log[s])
    {
      GrowsAbsorbed(a, b, link.log[s]);
    }
  }

  lemma GrowsOne(a: map<byte, RR.RecvState>, c: byte, r: RR.RecvState)
    requires c in a && RR.Grows(a[c], r)
    ensures RecvGrows(a, a[c := r])
  {
    forall k | k in a
      ensures RR.Grows(a[k], a[c := r][k])
    {
    }
  }
}
