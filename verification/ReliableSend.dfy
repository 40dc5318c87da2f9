/**
 The sending half of a reliable channel (`SendChannelReliable` in
 renet/src/channel/reliable.rs) as functions of its state.
 */
module ReliableSend {
  import opened Common
  import opened Slicing
  import opened Wire

  datatype Unacked =
    | Small(message: Message, lastSent: Option<Time>)
    | Sliced(
        message: Message,
        numSlices: nat,
        numAcked: nat,
        nextSlice: nat,
        acked: seq<bool>,
        lastSents: seq<Option<Time>>)

  datatype SendState = SendState(
    channelId: byte,
    unacked: map<nat, Unacked>,
    nextId: nat,
    resendTime: Time,
    maxMemory: nat,
    memoryUsage: nat)

  ghost predicate WfUnacked(u: Unacked) {
    match u
    case Small(m, _) => |m| <= SLICE_SIZE
    case Sliced(m, n, numAcked, next, acked, lastSents) =>
      && |m| > SLICE_SIZE
      && n == NumSlices(|m|) == |acked| == |lastSents|
      && numAcked == CountTrue(acked) < n
      && next <= n
  }

  function New(channelId: byte, resendTime: Time, maxMemory: nat): SendState {
    SendState(channelId, map[], 0, resendTime, maxMemory, 0)
  }

  // ---------------------------------------------------------------- memory

  /** Bytes of the held messages with ids below `n`. */
  ghost function HeldBytes(unacked: map<nat, Unacked>, n: nat): nat {
    if n == 0 then 0
    else HeldBytes(unacked, n - 1) + if n - 1 in unacked then |unacked[n - 1].message| else 0
  }

  /** Every held message is well formed and the memory counter is exact and within its limit. */
  ghost predicate WfSend(s: SendState) {
    && (forall id :: id in s.unacked ==> id < s.nextId && WfUnacked(s.unacked[id]))
    && s.memoryUsage == HeldBytes(s.unacked, s.nextId) <= s.maxMemory
  }

  lemma {:induction false} HeldBytesSame(a: map<nat, Unacked>, b: map<nat, Unacked>, n: nat)
    requires forall id :: 0 <= id < n ==> (id in a <==> id in b)
    requires forall id :: 0 <= id < n && id in a ==> a[id].message == b[id].message
    ensures HeldBytes(a, n) == HeldBytes(b, n)
  {
    if n > 0 {
      HeldBytesSame(a, b, n - 1);
    }
  }

  lemma {:induction false} HeldBytesRemove(a: map<nat, Unacked>, id: nat, n: nat)
    requires id in a && id < n
    ensures HeldBytes(a, n) == HeldBytes(a - {id}, n) + |a[id].message|
  {
    if id == n - 1 {
      HeldBytesSame(a, a - {id}, n - 1);
    } else {
      HeldBytesRemove(a, id, n - 1);
    }
  }

  lemma {:induction false} HeldBytesAtLeast(a: map<nat, Unacked>, id: nat, n: nat)
    requires id in a && id < n
    ensures HeldBytes(a, id) + |a[id].message| <= HeldBytes(a, n)
  {
    if id < n - 1 {
      HeldBytesAtLeast(a, id, n - 1);
    }
  }

  // ---------------------------------------------------------------- send_message

  function NewUnacked(m: Message): Unacked {
    if |m| > SLICE_SIZE then
      var n := NumSlices(|m|);
      Sliced(m, n, 0, 0, seq(n, _ => false), seq(n, _ => None))
    else Small(m, None)
  }

  /** `send_message`; `None` is the memory error. */
  function SendMessage(s: SendState, m: Message): Option<SendState> {
    if s.memoryUsage + |m| > s.maxMemory then None
    else Some(s.(memoryUsage := s.memoryUsage + |m|,
                 unacked := s.unacked[s.nextId := NewUnacked(m)],
                 nextId := s.nextId + 1))
  }

  lemma SendMessageWf(s: SendState, m: Message)
    requires WfSend(s)
    ensures SendMessage(s, m).Some? ==> WfSend(SendMessage(s, m).value)
  {
    var r := SendMessage(s, m);
    if r.Some? {
      HeldBytesSame(s.unacked, r.value.unacked, s.nextId);
      if |m| > SLICE_SIZE {
        CountTrueNone(NewUnacked(m).acked);
      }
    }
  }

  // ---------------------------------------------------------------- acknowledgements

  datatype AckOutcome = Acked(state: SendState) | AckPanic

  /** `process_message_ack`; finding a sliced message is a panic. */
  function AckMessage(s: SendState, id: nat): AckOutcome {
    if id !in s.unacked then Acked(s)
    else if s.unacked[id].Sliced? || s.memoryUsage < |s.unacked[id].message| then AckPanic
    else Acked(s.(unacked := s.unacked - {id}, memoryUsage := s.memoryUsage - |s.unacked[id].message|))
  }

  /** `process_slice_message_ack`; finding a small message or no such slice is a panic. */
  function AckSlice(s: SendState, id: nat, index: nat): AckOutcome {
    if id !in s.unacked then Acked(s)
    else
      var u := s.unacked[id];
      if u.Small? || |u.acked| <= index then AckPanic
      else if u.acked[index] then Acked(s)
      else if u.numAcked + 1 == u.numSlices then
        if s.memoryUsage < |u.message| then AckPanic
        else Acked(s.(unacked := s.unacked - {id}, memoryUsage := s.memoryUsage - |u.message|))
      else
        var u' := u.(acked := u.acked[index := true], numAcked := u.numAcked + 1);
        Acked(s.(unacked := s.unacked[id := u']))
  }

  /** Acknowledging a small message that was sent never panics and gives its memory back. */
  lemma AckMessageWf(s: SendState, id: nat)
    requires WfSend(s) && (id in s.unacked ==> s.unacked[id].Small?)
    ensures AckMessage(s, id).Acked? && WfSend(AckMessage(s, id).state)
    ensures AckMessage(s, id).state.unacked == s.unacked - {id}
  {
    if id in s.unacked {
      HeldBytesRemove(s.unacked, id, s.nextId);
    } else {
      assert s.unacked - {id} == s.unacked;
    }
  }

  /** Some slice of a held message is still unacknowledged once `index` is not the last one. */
  lemma AckSliceWf(s: SendState, id: nat, index: nat)
    requires WfSend(s) && (id in s.unacked ==> s.unacked[id].Sliced? && index < s.unacked[id].numSlices)
    ensures AckSlice(s, id, index).Acked? && WfSend(AckSlice(s, id, index).state)
    ensures id !in AckSlice(s, id, index).state.unacked <==>
      id in s.unacked ==> AllTrue(s.unacked[id].acked[index := true])
    ensures forall other :: other != id ==>
      (other in AckSlice(s, id, index).state.unacked <==> other in s.unacked) &&
      (other in s.unacked ==> AckSlice(s, id, index).state.unacked[other] == s.unacked[other])
    ensures id in AckSlice(s, id, index).state.unacked ==>
      var u' := AckSlice(s, id, index).state.unacked[id];
      u'.Sliced? && u'.acked == s.unacked[id].acked[index := true] && u'.message == s.unacked[id].message
    ensures AckSlice(s, id, index).state.nextId == s.nextId
  {
    if id in s.unacked {
      var u := s.unacked[id];
      HeldBytesRemove(s.unacked, id, s.nextId);
      var acked := u.acked[index := true];
      if u.acked[index] {
        assert acked == u.acked;
        CountTrueAll(u.acked);
      } else {
        CountTrueSet(u.acked, index);
        CountTrueAll(acked);
        var s' := AckSlice(s, id, index).state;
        if id in s'.unacked {
          HeldBytesSame(s.unacked, s'.unacked, s.nextId);
        }
      }
    }
  }
}
