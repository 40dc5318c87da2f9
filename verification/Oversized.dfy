/**
 Messages of more than 1,000,000 slices: `send_message` accepts them, the decoder of the
 peer refuses their slices, so they are never received (renet/src/packet.rs,
 renet/src/remote_connection.rs).
 */
module Oversized {
  import opened Common
  import opened Wire
  import opened Connection
  import opened Direction
  import opened Delivery
  import opened Theorems
  import Slicing
  import Stats
  import RR = ReliableReceive
  import U = Unreliable
  import RS = ReliableSend
  import DR = DirectionReceive
  import DS = DirectionSend
  import DT = DirectionTick

  /** The peer's decoder takes the slices of the message. */
  predicate Sendable(m: Message) {
    Slicing.NumSlices(|m|) <= MAX_NUM_SLICES
  }

  /** The channel has the message, or part of it. */
  ghost predicate Has(r: RR.RecvState, id: nat) {
    RR.Accepted(r, id) || id in r.slices
  }

  /** Everything the channel has is sendable. */
  ghost predicate HasSendable(r: RR.RecvState, sent: seq<Message>) {
    forall id: nat :: Has(r, id) ==> id < |sent| && Sendable(sent[id])
  }

  ghost predicate AllSendable(recvR: map<byte, RR.RecvState>, h: History) {
    forall c :: c in recvR ==> HasSendable(recvR[c], At(h.sent, c))
  }

  // ---------------------------------------------------------------- one channel

  lemma EntryHas(r: RR.RecvState, m: Message, id: nat, k: nat)
    requires Has(RR.ProcessMessage(r, m, id).state, k)
    ensures Has(r, k) || k == id
  {
  }

  lemma {:induction false} EntriesSendable(r: RR.RecvState, sent: seq<Message>, es: seq<Entry>)
    requires HasSendable(r, sent) && forall e :: e in es ==> GenuineEntry(sent, e)
    ensures HasSendable(ProcessEntries(r, es).state, sent)
    decreases |es|
  {
    hide Has, RR.ProcessMessage;
    if es != [] {
      var o := RR.ProcessMessage(r, es[0].payload, es[0].id);
      assert GenuineEntry(sent, es[0]);
      forall k: nat | Has(o.state, k)
        ensures k < |sent| && Sendable(sent[k])
      {
        EntryHas(r, es[0].payload, es[0].id, k);
      }
      if o.error.None? {
        EntriesSendable(o.state, sent, es[1..]);
      }
    }
  }

  lemma FinishHas(r: RR.RecvState, sl: Slice, m: Message, k: nat)
    requires Has(RR.Finish(r, sl, m).state, k)
    ensures Has(r, k) || k == sl.messageId
  {
  }

  lemma SliceHas(r: RR.RecvState, sl: Slice, k: nat)
    requires Has(RR.ProcessSlice(r, sl).state, k)
    ensures Has(r, k) || k == sl.messageId
  {
    hide Slicing.Process, RR.Finish;
    var id := sl.messageId;
    if !(id in r.messages || id < r.oldest) && RR.Reserve(r, sl).Some? {
      var r1 := RR.Reserve(r, sl).value;
      var o := Slicing.Process(r1.slices[id], sl.sliceIndex, sl.payload);
      if o.result.Complete? {
        FinishHas(r1.(slices := r1.slices[id := o.constructor_]), sl, o.result.message, k);
      }
    }
  }

  lemma SliceSendable(r: RR.RecvState, sent: seq<Message>, sl: Slice)
    requires HasSendable(r, sent) && RR.GenuineSlice(sent, sl) && sl.numSlices <= MAX_NUM_SLICES
    ensures HasSendable(RR.ProcessSlice(r, sl).state, sent)
  {
    hide Has, RR.ProcessSlice;
    forall k: nat | Has(RR.ProcessSlice(r, sl).state, k)
      ensures k < |sent| && Sendable(sent[k])
    {
      SliceHas(r, sl, k);
    }
  }

  lemma ReceiveSendable(r: RR.RecvState, sent: seq<Message>, delivered: seq<nat>)
    requires HasSendable(r, sent) && RR.RecvInv(r, sent, delivered)
    ensures RR.NextId(r).Some? ==> |r.messages[RR.NextId(r).value]| <= r.memoryUsage
    ensures HasSendable(RR.Receive(r).state, sent)
  {
    RR.ReceiveInv(r, sent, delivered);
    if RR.NextId(r).Some? {
      forall k: nat | Has(RR.Receive(r).state, k)
        ensures Has(r, k)
      {
        RR.ReceiveAccepted(r, delivered, k);
        hide RR.MemoryExact, RR.Ledger, RR.Faithful, RR.Accepted, RR.CatchUp;
      }
    }
  }

  lemma MoreSent(r: RR.RecvState, sent: seq<Message>, sent': seq<Message>)
    requires HasSendable(r, sent) && sent <= sent'
    ensures HasSendable(r, sent')
  {
    hide Has;
  }

  // ---------------------------------------------------------------- an endpoint

  lemma ReplaceSendable(recvR: map<byte, RR.RecvState>, h: History, c: byte, r: RR.RecvState)
    requires AllSendable(recvR, h) && HasSendable(r, At(h.sent, c))
    ensures AllSendable(recvR[c := r], h)
  {
    hide HasSendable;
  }

  lemma AckOneRecv(e: Endpoint, s: nat)
    requires Stats.WfStats(e.stats)
    ensures AckOne(e, s).recvR == e.recvR
  {
    hide Stats.WfStats, Stats.CountAcked, AckMessages, RS.AckSlice;
  }

  lemma {:induction false} AckAllRecv(e: Endpoint, ss: seq<nat>)
    requires Stats.WfStats(e.stats)
    ensures AckAll(e, ss).recvR == e.recvR
  {
    hide Stats.WfStats, AckOne;
    if ss != [] {
      AckAllRecv(e, ss[..|ss| - 1]);
      AckOneRecv(AckAll(e, ss[..|ss| - 1]), ss[|ss| - 1]);
    }
  }

  lemma HandleSendable(e: Endpoint, h: History, p: Packet)
    requires Stats.WfStats(e.stats) && AllSendable(e.recvR, h) && Genuine(h, p) && !TooManySlices(p)
    ensures AllSendable(Handle(e, p).recvR, h)
  {
    hide HasSendable, ProcessEntries, RR.ProcessSlice, UProcessMessages, U.UProcessSlice, Stats.WfStats, NewAcks, AckAll,
      AllSendable;
    match p {
      case SmallReliable(_, c, es) =>
        if c in e.recvR {
          EntriesSendable(e.recvR[c], At(h.sent, c), es) by { SendableAt(e.recvR, h, c); }
          ReplaceSendable(e.recvR, h, c, ProcessEntries(e.recvR[c], es).state);
        }
      case ReliableSlice(_, c, sl) =>
        if c in e.recvR {
          SliceSendable(e.recvR[c], At(h.sent, c), sl) by { SendableAt(e.recvR, h, c); }
          ReplaceSendable(e.recvR, h, c, RR.ProcessSlice(e.recvR[c], sl).state);
        }
      case Ack(_, rs) => AckAllRecv(e, NewAcks(e.sentPackets, rs));
      case _ =>
    }
  }

  lemma SendableAt(recvR: map<byte, RR.RecvState>, h: History, c: byte)
    requires AllSendable(recvR, h) && c in recvR
    ensures HasSendable(recvR[c], At(h.sent, c))
  {
  }

  lemma ProcessSendable(e: Endpoint, h: History, p: Packet)
    requires Stats.WfStats(e.stats) && AllSendable(e.recvR, h) && Genuine(h, p) && Encodable(p)
    ensures AllSendable(ProcessPacket(e, Encode(p)).recvR, h)
  {
    hide AllSendable, Handle, Genuine, Encodable, Encode, Decode, Stats.WfStats, AckRanges.AddAck;
    DR.GenuineDecodes(h, p);
    if Alive(e) && !TooManySlices(p) {
      HandleSendable(e.(pendingAcks := AckRanges.AddAck(e.pendingAcks, p.sequence)), h, p);
    }
  }

  lemma ReceiveMessageSendable(e: Endpoint, h: History, c: byte)
    requires WfEndpoint(e) && ReceiverOk(e, h) && AllSendable(e.recvR, h) && (c in e.recvR || c in e.recvU)
    ensures AllSendable(ReceiveMessage(e, c).endpoint.recvR, h)
    ensures DR.NoteReceived(h, e, c).sent == h.sent
  {
    hide WfEndpoint, HasSendable, AllSendable, RR.RecvInv, RR.Receive, U.UReceive, OutOk, RecvUOk;
    if Alive(e) && c in e.recvR {
      assert RR.RecvInv(e.recvR[c], At(h.sent, c), At(h.delivered, c));
      SendableAt(e.recvR, h, c);
      ReceiveSendable(e.recvR[c], At(h.sent, c), At(h.delivered, c));
      ReplaceSendable(e.recvR, h, c, RR.Receive(e.recvR[c]).state);
    }
  }

  // ---------------------------------------------------------------- runs

  ghost predicate SystemSendable(s: System) {
    AllSendable(s.y.recvR, s.hxy) && AllSendable(s.x.recvR, s.hyx)
  }

  lemma SameSent(recvR: map<byte, RR.RecvState>, h: History, h': History)
    requires AllSendable(recvR, h) && forall c: byte :: At(h.sent, c) <= At(h'.sent, c)
    ensures AllSendable(recvR, h')
  {
    hide HasSendable;
    forall c | c in recvR
      ensures HasSendable(recvR[c], At(h'.sent, c))
    {
      MoreSent(recvR[c], At(h.sent, c), At(h'.sent, c));
    }
  }

  lemma DeliverSendable(s: System, i: nat)
    requires SysInv(s) && SystemSendable(s) && Enabled(s, DoDeliver(i))
    ensures AllSendable(ProcessPacket(s.x, s.yx.wire[i]).recvR, s.hyx)
  {
    hide AllSendable, ProcessPacket, Genuine, Encodable, Encode, SysInv, WfEndpoint;
    SwapInv(s);
    SenderPart(Swap(s));
    WirePacket(s.y, s.yx, s.hyx, i);
    WfStatsOf(s.x);
    ProcessSendable(s.x, s.hyx, s.yx.log[i]);
  }

  lemma ActSendable(s: System, a: Action)
    requires SysInv(s) && SystemSendable(s) && Enabled(s, a)
    ensures SystemSendable(Act(s, a))
  {
    hide AllSendable, ProcessPacket, SysInv, WfEndpoint, SendMessage, ReceiveMessage, Update, GetPackets, DT.TickLink,
      DS.OnlySent, DR.NoteReceived;
    match a {
      case DoSend(c, m) =>
        SentGrows(s.x, s.hxy, c, m);
        SameSent(s.y.recvR, s.hxy, DS.NoteSent(s.hxy, s.x, c, m));
      case DoReceive(c) =>
        SwapInv(s);
        ReceiverPart(Swap(s));
        ReceiveMessageSendable(s.x, s.hyx, c);
        SameSent(ReceiveMessage(s.x, c).endpoint.recvR, s.hyx, DR.NoteReceived(s.hyx, s.x, c));
      case DoUpdate(d) => UpdateRecv(s.x, d);
      case DoTick =>
        TickRecv(s.x);
        SameSent(s.y.recvR, s.hxy, DT.TickHistory(s.x, s.hxy));
      case DoDeliver(i) =>
        WfStatsOf(s.x);
        DeliverSendable(s, i);
        SameSent(ProcessPacket(s.x, s.yx.wire[i]).recvR, s.hyx, Act(s, a).hyx);
      case _ =>
    }
  }

  lemma SentGrows(x: Endpoint, h: History, c: byte, m: Message)
    requires c in x.sendR || c in x.sendU
    ensures forall k: byte :: At(h.sent, k) <= At(DS.NoteSent(h, x, c, m).sent, k)
    ensures SendMessage(x, c, m).recvR == x.recvR
  {
    hide RS.SendMessage, U.Enqueue;
  }

  lemma UpdateRecv(x: Endpoint, d: Time)
    requires WfEndpoint(x)
    ensures Update(x, d).recvR == x.recvR
  {
    hide WfEndpoint;
  }

  lemma TickRecv(x: Endpoint)
    requires WfEndpoint(x)
    ensures GetPackets(x).endpoint.recvR == x.recvR
  {
    hide WfEndpoint, Gather, AllPackets, SerializeAll, Record, GetPackets, Consecutive;
    if Alive(x) {
      GetPacketsShape(x);
    } else {
      DeadTick(x);
    }
  }

  lemma StepSendable(s: System, s': System)
    requires SysInv(s) && SystemSendable(s) && Step(s, s')
    ensures SystemSendable(s')
  {
    hide SysInv, Act, Enabled, AllSendable;
    SwapInv(s);
    if a :| Enabled(s, a) && s' == Act(s, a) {
      ActSendable(s, a);
    } else {
      var b :| Enabled(Swap(s), b) && s' == Swap(Act(Swap(s), b));
      ActSendable(Swap(s), b);
    }
  }

  lemma InitialSendable(s: System)
    requires Initial(s)
    ensures SystemSendable(s)
  {
    hide OrderOk;
  }

  lemma {:induction false} RunSendable(run: seq<System>)
    requires IsRun(run)
    ensures SystemSendable(Last(run))
  {
    hide Step, SystemSendable, SysInv;
    var n := |run| - 1;
    if n == 0 {
      InitialSendable(run[0]);
    } else {
      hide Initial;
      RunSendable(run[..n]);
      RunInv(run[..n]);
      assert Step(run[n - 1], run[n - 1 + 1]);
      StepSendable(run[n - 1], run[n]);
    }
  }

  /** In no run is a message of more than 1,000,000 slices ever taken in, let alone handed out. */
  lemma OversizedNeverArrives(run: seq<System>, c: byte, id: nat)
    requires IsRun(run) && c in Last(run).y.recvR && id < |At(Last(run).hxy.sent, c)|
    requires !Sendable(At(Last(run).hxy.sent, c)[id])
    ensures !RR.Accepted(Last(run).y.recvR[c], id) && id !in At(Last(run).hxy.delivered, c)
  {
    hide Step, Initial, SysInv, RR.MemoryExact, RR.Faithful, Sendable;
    RunSendable(run);
    SendableAt(Last(run).y.recvR, Last(run).hxy, c);
    assert !Has(Last(run).y.recvR[c], id);
    RunInv(run);
    ReceiverAt(Last(run), c);
  }
}
