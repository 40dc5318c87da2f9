/** `NetcodeClient` (renetcode/src/client.rs) as the object it is, proved against `NetcodeClient`. */
module ClientObject {
  import opened Common
  import opened NetcodePacket
  import opened Spec = NetcodeClient
  import R = Replay

  class NetcodeClient {
    var state: ClientState
    const clientId: nat
    var connectStartTime: Time
    var lastPacketSendTime: Option<Time>
    var lastPacketReceivedTime: Time
    var currentTime: Time
    var sequence: nat
    var serverAddr: Address
    var serverAddrIndex: nat
    const connectToken: ConnectToken
    var challengeTokenSequence: nat
    var challengeTokenData: ChallengeData
    var maxClients: nat
    var clientIndex: nat
    var replayProtection: R.Window

    ghost function Model(): Client
      reads this
    {
      Client(state, clientId, connectStartTime, lastPacketSendTime, lastPacketReceivedTime, currentTime, sequence,
             serverAddr, serverAddrIndex, connectToken, challengeTokenSequence, challengeTokenData, maxClients,
             clientIndex, replayProtection)
    }

    ghost predicate Valid()
      reads this
    {
      Wf(Model())
    }

    constructor (currentTime: Time, connectToken: ConnectToken)
      requires WfToken(connectToken)
      ensures Valid() && Model() == New(currentTime, connectToken)
    {
      sequence := 0;
      clientId := connectToken.clientId;
      serverAddr := connectToken.serverAddresses[0].value;
      serverAddrIndex := 0;
      challengeTokenSequence := 0;
      state := SendingConnectionRequest;
      connectStartTime := currentTime;
      lastPacketSendTime := None;
      lastPacketReceivedTime := currentTime;
      this.currentTime := currentTime;
      maxClients := 0;
      clientIndex := 0;
      challengeTokenData := ForgedChallenge;
      this.connectToken := connectToken;
      replayProtection := R.New();
    }

    method ProcessPacket(d: Datagram) returns (received: Received)
      requires Valid()
      modifies this
      ensures Valid() && (Model(), received) == Spec.ProcessPacket(old(Model()), d)
    {
      hide R.Seen;
      if d.Request? {
        return Nothing;
      }
      var decoded := Open(d, connectToken.protocolId, connectToken.serverToClientKey, replayProtection);
      if decoded.result == Err(DecodePanic) {
        return ClientPanic;
      }
      replayProtection := decoded.window;
      if decoded.result.Err? {
        return Nothing;
      }
      match decoded.result.value {
        case ConnectionDenied =>
          if state.SendingConnectionRequest? || state.SendingConnectionResponse? {
            state := Disconnected(DeniedByServer);
            lastPacketReceivedTime := currentTime;
          }
        case Challenge(tokenSequence, tokenData) =>
          if state.SendingConnectionRequest? {
            challengeTokenSequence := tokenSequence;
            lastPacketReceivedTime := currentTime;
            lastPacketSendTime := None;
            challengeTokenData := tokenData;
            state := SendingConnectionResponse;
          }
        case KeepAlive(index, max) =>
          if state.Connected? {
            lastPacketReceivedTime := currentTime;
          } else if state.SendingConnectionResponse? {
            lastPacketReceivedTime := currentTime;
            maxClients := max;
            clientIndex := index;
            state := Connected;
          }
        case Payload(bytes) =>
          if state.Connected? {
            lastPacketReceivedTime := currentTime;
            return PayloadReceived(bytes);
          }
        case Disconnect =>
          if state.Connected? {
            state := Disconnected(DisconnectedByServer);
            lastPacketReceivedTime := currentTime;
          }
        case _ =>
      }
      return Nothing;
    }

    /** The attempt is over; the next address is tried, if there is one. */
    method TryNextServer() returns (error: Option<NetcodeError>)
      requires Valid()
      modifies this
      ensures (Model(), error) == Retry(old(Model())) && Valid()
    {
      state := Disconnected(
        if state.SendingConnectionResponse? then ConnectionResponseTimedOut else ConnectionRequestTimedOut);
      serverAddrIndex := serverAddrIndex + 1;
      if serverAddrIndex >= MAX_SERVERS {
        return Some(NoMoreServers);
      }
      match connectToken.serverAddresses[serverAddrIndex] {
        case None => return Some(NoMoreServers);
        case Some(address) =>
          state := SendingConnectionRequest;
          serverAddr := address;
          connectStartTime := currentTime;
          lastPacketSendTime := None;
          lastPacketReceivedTime := currentTime;
          challengeTokenSequence := 0;
          return None;
      }
    }

    method UpdateInternalState(duration: Time) returns (error: Option<NetcodeError>)
      requires Valid()
      modifies this
      ensures Valid() && (Model(), error) == UpdateState(old(Model()), duration)
      ensures serverAddrIndex != old(serverAddrIndex) ==> serverAddrIndex == old(serverAddrIndex) + 1
    {
      currentTime := currentTime + duration;
      var connectionTimedOut :=
        connectToken.timeoutSeconds > 0 && lastPacketReceivedTime + connectToken.timeoutSeconds * NANOS_PER_SECOND < currentTime;
      match state {
        case Disconnected(_) =>
          return Some(AlreadyDisconnected);
        case Connected =>
          if connectionTimedOut {
            state := Disconnected(ConnectionTimedOut);
            return Some(AlreadyDisconnected);
          }
          return None;
        case _ =>
          var expireSeconds := connectToken.expireTimestamp - connectToken.createTimestamp;
          if (currentTime - connectStartTime) / NANOS_PER_SECOND >= expireSeconds {
            state := Disconnected(ConnectTokenExpired);
            return Some(Expired);
          }
          if connectionTimedOut {
            error := TryNextServer();
            return;
          }
          return None;
      }
    }

    method GeneratePacket() returns (packet: Option<Datagram>)
      modifies this`lastPacketSendTime, this`sequence
      ensures (Model(), packet) == Generate(old(Model()))
    {
      if lastPacketSendTime.Some? && currentTime - lastPacketSendTime.value < SEND_RATE {
        return None;
      }
      if !state.Disconnected? {
        lastPacketSendTime := Some(currentTime);
      }
      var d: Datagram;
      match state {
        case SendingConnectionRequest =>
          d := Request(true, connectToken.protocolId, connectToken.expireTimestamp, connectToken.xnonce, connectToken.privateData);
        case SendingConnectionResponse =>
          d := Seal(connectToken.clientToServerKey, connectToken.protocolId, sequence,
                      Response(challengeTokenSequence, challengeTokenData));
        case Connected =>
          d := Seal(connectToken.clientToServerKey, connectToken.protocolId, sequence, KeepAlive(0, 0));
        case Disconnected(_) =>
          return None;
      }
      sequence := sequence + 1;
      return Some(d);
    }

    method Update(duration: Time) returns (packet: Option<Datagram>)
      requires Valid()
      modifies this
      ensures Valid() && (Model(), packet) == Spec.Update(old(Model()), duration)
    {
      hide UpdateState;
      var error := UpdateInternalState(duration);
      if error.Some? {
        return None;
      }
      packet := GeneratePacket();
    }

    method Disconnect() returns (packet: Datagram)
      modifies this`state
      ensures (Model(), packet) == DisconnectClient(old(Model()))
    {
      state := Disconnected(DisconnectedByClient);
      packet := Seal(connectToken.clientToServerKey, connectToken.protocolId, sequence, Body.Disconnect);
    }

    method GeneratePayloadPacket(payload: seq<byte>) returns (r: Result<Datagram, NetcodeError>)
      modifies this`sequence, this`lastPacketSendTime
      ensures (Model(), r) == GeneratePayload(old(Model()), payload)
    {
      if |payload| > MAX_PAYLOAD_BYTES {
        return Err(PayloadAboveLimit);
      }
      if !state.Connected? {
        return Err(ClientNotConnected);
      }
      var packet := Seal(connectToken.clientToServerKey, connectToken.protocolId, sequence, Payload(payload));
      sequence := sequence + 1;
      lastPacketSendTime := Some(currentTime);
      return Ok(packet);
    }
  }
}
