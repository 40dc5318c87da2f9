/**
 Netcode packets (renetcode/src/packet.rs). Authenticated encryption is ideal: a datagram
 opens under a key and protocol id only if it was sealed with them. The header, which is
 not encrypted, is modelled to the byte.
 */
module NetcodePacket {
  import opened Common
  import R = Replay
  import W = Wire

  type Key = nat
  type Address = nat
  type UserData = seq<byte>

  const MAC_BYTES: nat := 16
  const MAX_PACKET_BYTES: nat := 1400
  const MAX_PAYLOAD_BYTES: nat := 1300

  // ---------------------------------------------------------------- contents

  datatype PrivateToken = PrivateToken(
    clientId: nat,
    timeoutSeconds: int,
    serverAddresses: seq<Option<Address>>,
    clientToServerKey: Key,
    serverToClientKey: Key,
    userData: UserData)

  /** The private part of a connect token; a forged one opens under no key. */
  datatype TokenData =
    | SealedToken(key: Key, protocolId: nat, expire: nat, xnonce: nat, token: PrivateToken, mac: nat)
    | ForgedToken(mac: nat)

  datatype ChallengeData = SealedChallenge(key: Key, sequence: nat, clientId: nat, userData: UserData) | ForgedChallenge

  /** What is encrypted. */
  datatype Body =
    | ConnectionDenied
    | Challenge(tokenSequence: nat, tokenData: ChallengeData)
    | Response(tokenSequence: nat, tokenData: ChallengeData)
    | KeepAlive(clientIndex: nat, maxClients: nat)
    | Payload(bytes: seq<byte>)
    | Disconnect
    | Garbled(kind: nat) // sealed by a holder of the key, but too short for its type

  /** What arrives from the network, by what `decode` can tell of it; `Parse` derives it from the bytes. */
  datatype Datagram =
    | Malformed
    | Request(validVersion: bool, protocolId: nat, expire: nat, xnonce: nat, data: TokenData)
    | Sealed(key: Key, protocolId: nat, sequence: nat, body: Body)
    | Forged(protected: bool, sequence: nat) // a header followed by bytes that open under no key
    | Overlong // a header that announces more than the eight bytes a sequence can have
    | Truncated(protected: bool, sequence: nat) // a header followed by less than an authentication tag

  datatype NetcodeError =
    | MalformedPacket
    | UnavailablePrivateKey
    | DuplicatedSequence
    | CryptoError
    | InvalidVersion
    | InvalidProtocolID
    | Expired
    | NotInHostList
    | PayloadAboveLimit
    | ClientNotFound
    | ClientNotConnected
    | NoMoreServers
    | AlreadyDisconnected
    | BufferTooSmall
    | DecodePanic // not an error of the source: `decode` panics

  /** The packet types that are sent encrypted, by their number. */
  function KindOf(b: Body): nat {
    match b
    case ConnectionDenied => 1
    case Challenge(_, _) => 2
    case Response(_, _) => 3
    case KeepAlive(_, _) => 4
    case Payload(_) => 5
    case Disconnect => 6
    case Garbled(kind) => kind
  }

  /** The packet types to which replay protection applies. */
  predicate ProtectedKind(kind: nat) {
    4 <= kind <= 6
  }

  predicate Protected(b: Body) {
    ProtectedKind(KindOf(b))
  }

  // ---------------------------------------------------------------- decode

  datatype Decoded = Decoded(window: R.Window, result: Result<Body, NetcodeError>)

  /** `decode` of a datagram other than a connection request, under a key and with a replay window. */
  function Open(d: Datagram, protocolId: nat, key: Key, w: R.Window): (o: Decoded)
    requires !d.Request? && R.Wf(w)
    ensures R.Wf(o.window)
  {
    match d
    case Malformed => Decoded(w, Err(MalformedPacket))
    case Overlong => Decoded(w, Err(DecodePanic))
    case Truncated(protected, s) =>
      Decoded(w, Err(if protected && R.Seen(w, s) then DuplicatedSequence else DecodePanic))
    case Forged(protected, s) =>
      Decoded(w, Err(if protected && R.Seen(w, s) then DuplicatedSequence else CryptoError))
    case Sealed(k, id, s, b) =>
      if Protected(b) && R.Seen(w, s) then Decoded(w, Err(DuplicatedSequence))
      else if k != key || id != protocolId then Decoded(w, Err(CryptoError))
      else Decoded(if Protected(b) then R.Advance(w, s) else w, if b.Garbled? then Err(MalformedPacket) else Ok(b))
  }

  /** Datagrams whose header and length `decode` can handle. */
  predicate Sound(d: Datagram) {
    !d.Overlong? && !d.Truncated?
  }

  /** `decode` with a key and this window panics. */
  predicate Crashes(d: Datagram, w: R.Window)
    requires R.Wf(w)
  {
    d.Overlong? || (d.Truncated? && !(d.protected && R.Seen(w, d.sequence)))
  }

  lemma PanicsIffCrashes(d: Datagram, protocolId: nat, key: Key, w: R.Window)
    requires !d.Request? && R.Wf(w)
    ensures Open(d, protocolId, key, w).result == Err(DecodePanic) <==> Crashes(d, w)
    ensures Crashes(d, w) ==> Open(d, protocolId, key, w).window == w && !Sound(d)
  {
    hide R.Seen;
  }

  /** Sealed with this key for this protocol. */
  predicate Authentic(d: Datagram, protocolId: nat, key: Key) {
    d.Sealed? && d.key == key && d.protocolId == protocolId
  }

  /** One connection's window, the protected sequences it has let through, in order, and whether decoding has panicked. */
  datatype Guarded = Guarded(window: R.Window, passed: seq<nat>, down: bool)

  ghost function Arrive(g: Guarded, d: Datagram, protocolId: nat, key: Key): (g': Guarded)
    requires R.Wf(g.window)
    ensures R.Wf(g'.window)
  {
    if g.down || d.Request? then g
    else if Crashes(d, g.window) then g.(down := true)
    else
      var passes := Authentic(d, protocolId, key) && Protected(d.body) && !R.Seen(g.window, d.sequence);
      Guarded(Open(d, protocolId, key, g.window).window, if passes then g.passed + [d.sequence] else g.passed, false)
  }

  ghost function Arrivals(ds: seq<Datagram>, protocolId: nat, key: Key): (g: Guarded)
    ensures R.Wf(g.window)
  {
    if ds == [] then Guarded(R.New(), [], false)
    else Arrive(Arrivals(ds[..|ds| - 1], protocolId, key), ds[|ds| - 1], protocolId, key)
  }

  ghost predicate WordSequences(ds: seq<Datagram>) {
    forall i :: 0 <= i < |ds| && ds[i].Sealed? ==> ds[i].sequence < R.WORD
  }

  ghost predicate GuardInv(g: Guarded) {
    && R.Inv(g.window, Elements(g.passed))
    && Distinct(g.passed)
  }

  lemma SeenAgain(w: R.Window, accepted: set<nat>, s: nat)
    requires R.Inv(w, accepted) && s in accepted
    ensures R.Seen(w, s)
  {
    assert s < R.WORD by {
      assert s <= w.mostRecent;
    }
    R.AnswerIsExactIff(w, accepted, s);
  }

  lemma ArriveInv(g: Guarded, d: Datagram, protocolId: nat, key: Key)
    requires GuardInv(g) && (d.Sealed? ==> d.sequence < R.WORD)
    ensures R.Wf(g.window) && GuardInv(Arrive(g, d, protocolId, key))
  {
    hide R.Inv, R.Seen;
    var accepted := Elements(g.passed);
    assert R.Wf(g.window) by { InvIsWf(g.window, accepted); }
    if Arrive(g, d, protocolId, key).passed != g.passed {
      R.AdvanceInv(g.window, accepted, d.sequence);
      if d.sequence in g.passed {
        SeenAgain(g.window, accepted, d.sequence);
      }
      assert Elements(g.passed + [d.sequence]) == accepted + {d.sequence};
    }
  }

  lemma InvIsWf(w: R.Window, accepted: set<nat>)
    requires R.Inv(w, accepted)
    ensures R.Wf(w)
  {
  }

  /** Over any arrivals on a connection, no protected sequence passes twice. */
  lemma {:induction false} NothingPassesTwice(ds: seq<Datagram>, protocolId: nat, key: Key)
    requires WordSequences(ds)
    ensures GuardInv(Arrivals(ds, protocolId, key))
  {
    hide R.Inv, Arrive;
    if ds == [] {
      R.NewInv();
      assert Elements([]) == {};
    } else {
      NothingPassesTwice(ds[..|ds| - 1], protocolId, key);
      ArriveInv(Arrivals(ds[..|ds| - 1], protocolId, key), ds[|ds| - 1], protocolId, key);
    }
  }

  /** Whatever does not open under the connection's key leaves the window as it was, but it may make decoding panic. */
  lemma UnauthenticChangesNothing(g: Guarded, d: Datagram, protocolId: nat, key: Key)
    requires R.Wf(g.window) && !Authentic(d, protocolId, key)
    ensures Arrive(g, d, protocolId, key) == g.(down := g.down || Crashes(d, g.window))
  {
  }

  /** Arrival `i` crashes decoding. */
  ghost predicate CrashAt(ds: seq<Datagram>, i: nat, protocolId: nat, key: Key) {
    i < |ds| && Crashes(ds[i], Arrivals(ds[..i], protocolId, key).window)
  }

  lemma CrashAtPrefix(ds: seq<Datagram>, n: nat, i: nat, protocolId: nat, key: Key)
    requires i < n <= |ds|
    ensures CrashAt(ds[..n], i, protocolId, key) <==> CrashAt(ds, i, protocolId, key)
  {
    hide Crashes, Arrivals;
    assert ds[..n][..i] == ds[..i];
  }

  /** Decoding has panicked exactly if some arrival crashed it. */
  lemma {:induction false} DownIff(ds: seq<Datagram>, protocolId: nat, key: Key)
    ensures Arrivals(ds, protocolId, key).down <==> exists i :: CrashAt(ds, i, protocolId, key)
  {
    hide Crashes, Arrive, CrashAt;
    if ds == [] {
      assert forall i :: !CrashAt(ds, i, protocolId, key) by {
        NoArrivals(protocolId, key);
      }
    } else {
      var n := |ds| - 1;
      DownIff(ds[..n], protocolId, key);
      CrashGoesDown(Arrivals(ds[..n], protocolId, key), ds[n], protocolId, key);
      if i :| CrashAt(ds, i, protocolId, key) {
        LastCrash(ds, i, protocolId, key);
      }
      if i :| CrashAt(ds[..n], i, protocolId, key) {
        LastCrash(ds, i, protocolId, key);
      }
      LastCrash(ds, n, protocolId, key);
    }
  }

  lemma NoArrivals(protocolId: nat, key: Key)
    ensures forall i :: !CrashAt([], i, protocolId, key)
  {
  }

  lemma LastCrash(ds: seq<Datagram>, i: nat, protocolId: nat, key: Key)
    requires ds != []
    ensures var n := |ds| - 1;
      CrashAt(ds, i, protocolId, key) <==>
      CrashAt(ds[..n], i, protocolId, key) || (i == n && Crashes(ds[n], Arrivals(ds[..n], protocolId, key).window))
  {
    hide Crashes, Arrivals;
    if i < |ds| - 1 {
      CrashAtPrefix(ds, |ds| - 1, i, protocolId, key);
    }
  }

  lemma CrashGoesDown(g: Guarded, d: Datagram, protocolId: nat, key: Key)
    requires R.Wf(g.window)
    ensures Arrive(g, d, protocolId, key).down <==> g.down || Crashes(d, g.window)
  {
  }

  /** The connection hands the contents of `d` on. */
  ghost predicate HandsOn(g: Guarded, d: Datagram, protocolId: nat, key: Key)
    requires R.Wf(g.window) && d.Sealed?
  {
    !g.down && Open(d, protocolId, key, g.window).result == Ok(d.body)
  }

  /**
   After any arrivals, an authentic packet whose sequence is new and inside the window
   passes exactly if none of the arrivals made decoding panic.
   */
  lemma NewAuthenticPassesIff(ds: seq<Datagram>, d: Datagram, protocolId: nat, key: Key)
    requires WordSequences(ds) && Authentic(d, protocolId, key) && !d.body.Garbled?
    requires d.sequence < R.WORD - R.SIZE && d.sequence !in Arrivals(ds, protocolId, key).passed
    requires Arrivals(ds, protocolId, key).window.mostRecent < d.sequence + R.SIZE
    ensures HandsOn(Arrivals(ds, protocolId, key), d, protocolId, key) <==>
      forall i :: !CrashAt(ds, i, protocolId, key)
  {
    hide R.Inv, R.Seen, Crashes, CrashAt, Arrivals;
    NothingPassesTwice(ds, protocolId, key);
    DownIff(ds, protocolId, key);
    var g := Arrivals(ds, protocolId, key);
    R.AnswerIsExactIff(g.window, Elements(g.passed), d.sequence);
  }

  // ---------------------------------------------------------------- header

  /** Byte `i` of a word, counted from the least significant one. */
  function ByteOf(s: nat, i: nat): byte {
    ((s / W.Pow256(i)) % 256) as byte
  }

  lemma TopByte(s: nat, n: nat)
    requires 0 < n && s < W.Pow256(n)
    ensures ByteOf(s, n - 1) == 0 <==> s < W.Pow256(n - 1)
  {
    TopDigit(s, W.Pow256(n - 1));
  }

  lemma TopDigit(s: nat, p: nat)
    requires p > 0 && s < 256 * p
    ensures (s / p) % 256 == 0 <==> s < p
  {
    var q, r := s / p, s % p;
    assert s == q * p + r;
    if q >= 256 {
      MulMonotone(256, q, p);
    }
    if q >= 1 {
      MulMonotone(1, q, p);
    }
  }

  lemma MulMonotone(a: nat, b: nat, p: nat)
    requires a <= b
    ensures a * p <= b * p
  {
  }

  /** The number of bytes without leading zeros. */
  ghost predicate Needs(s: nat, n: nat) {
    s < W.Pow256(n) && (n > 0 ==> W.Pow256(n - 1) <= s)
  }

  /** `sequence_bytes_required`: the loop looks at one byte after the other, from the top. */
  method SequenceBytesRequired(sequence: nat) returns (n: nat)
    requires sequence < W.Pow256(8)
    ensures n <= 8 && Needs(sequence, n)
  {
    for i := 0 to 8
      invariant sequence < W.Pow256(8 - i)
    {
      TopByte(sequence, 8 - i);
      if ByteOf(sequence, 7 - i) != 0 {
        return 8 - i;
      }
    }
    return 0;
  }

  /** The lowest `n` bytes, least significant first. */
  function LittleEndian(s: nat, n: nat): (b: seq<byte>)
    ensures |b| == n
  {
    if n == 0 then [] else [(s % 256) as byte] + LittleEndian(s / 256, n - 1)
  }

  function FromLittleEndian(b: seq<byte>): nat {
    if b == [] then 0 else b[0] as nat + 256 * FromLittleEndian(b[1..])
  }

  lemma {:induction false} LittleEndianRoundTrip(s: nat, n: nat)
    requires s < W.Pow256(n)
    ensures FromLittleEndian(LittleEndian(s, n)) == s
  {
    if n > 0 {
      LittleEndianRoundTrip(s / 256, n - 1);
      assert LittleEndian(s, n)[1..] == LittleEndian(s / 256, n - 1);
    }
  }

  /** `encode_prefix`, for a type and the length of the sequence. */
  function EncodePrefix(kind: nat, n: nat): byte
    requires kind < 7 && n <= 8
  {
    (kind + 16 * n) as byte
  }

  /** `decode_prefix`. */
  function DecodePrefix(prefix: byte): (nat, nat) {
    (prefix as nat % 16, prefix as nat / 16)
  }

  /** The prefix and the sequence as they precede the encrypted body. */
  method EncodeHeader(kind: nat, sequence: nat) returns (header: seq<byte>)
    requires kind < 7 && sequence < W.Pow256(8)
    ensures 0 < |header| <= 9 && Needs(sequence, |header| - 1)
    ensures header == [EncodePrefix(kind, |header| - 1)] + LittleEndian(sequence, |header| - 1)
  {
    var n := SequenceBytesRequired(sequence);
    header := [EncodePrefix(kind, n)] + LittleEndian(sequence, n);
  }

  // ---------------------------------------------------------------- from bytes to datagrams

  const REQUEST_BYTES: nat := 1 + 13 + 8 + 8 + 24 + 1024

  /**
   What the bytes after the header are, seen by someone who knows all keys. A ciphertext
   opens only behind the prefix and the sequence it was sealed with.
   */
  datatype Contents =
    | Noise // no one sealed them
    | Ciphertext(key: Key, protocolId: nat, prefix: byte, sequence: nat, body: Body)
    | Plain(validVersion: bool, protocolId: nat, expire: nat, xnonce: nat, data: TokenData)

  /** The tests of `decode`, in its order, on a datagram's bytes. */
  function Parse(b: seq<byte>, c: Contents): Datagram {
    if |b| < 2 + MAC_BYTES then Malformed
    else
      var (kind, n) := DecodePrefix(b[0]);
      if kind > 6 then Malformed
      else if kind == 0 then
        if |b| < REQUEST_BYTES || !c.Plain? then Malformed
        else Request(c.validVersion, c.protocolId, c.expire, c.xnonce, c.data)
      else if n > 8 then Overlong
      else
        var sequence := FromLittleEndian(b[1..n + 1]);
        if |b| - (n + 1) < MAC_BYTES then Truncated(ProtectedKind(kind), sequence)
        else if c.Ciphertext? && c.prefix == b[0] && c.sequence == sequence && KindOf(c.body) == kind then
          Sealed(c.key, c.protocolId, sequence, c.body)
        else Forged(ProtectedKind(kind), sequence)
  }

  /**
   Decoding with a key panics exactly on these bytes: an encrypted type, and either a
   sequence length over eight, or fewer bytes behind the sequence than an authentication
   tag has while replay protection does not reject the sequence first.
   */
  lemma DecodePanicsIff(b: seq<byte>, c: Contents, protocolId: nat, key: Key, w: R.Window)
    requires R.Wf(w) && !Parse(b, c).Request?
    ensures Open(Parse(b, c), protocolId, key, w).result == Err(DecodePanic) <==>
      && |b| >= 18 && 1 <= b[0] as nat % 16 <= 6
      && var n := b[0] as nat / 16;
        || n > 8
        || (|b| < n + 17 && !(b[0] as nat % 16 >= 4 && R.Seen(w, FromLittleEndian(b[1..n + 1]))))
  {
    hide R.Seen, FromLittleEndian;
  }

  /** A payload header of sequence length nine, whatever follows. */
  lemma NineByteSequencePanics(rest: seq<byte>, c: Contents, protocolId: nat, key: Key, w: R.Window)
    requires R.Wf(w) && |rest| >= 17
    ensures Open(Parse([0x95] + rest, c), protocolId, key, w).result == Err(DecodePanic)
  {
    assert ([0x95] + rest)[0] == 0x95;
  }

  /** A keep-alive of 18 bytes, two of them its sequence, on a fresh connection. */
  lemma ShortKeepAlivePanics(c: Contents, protocolId: nat, key: Key)
    ensures Open(Parse([0x24] + seq(17, _ => 0), c), protocolId, key, R.New()).result == Err(DecodePanic)
  {
    var b := [0x24] + seq(17, _ => 0);
    assert b[0] == 0x24 && b[1..3] == [0, 0];
    assert FromLittleEndian([0, 0]) == 0 by {
      assert [0 as byte, 0][1..] == [0];
    }
    assert !R.Seen(R.New(), 0);
    DecodePanicsIff(b, c, protocolId, key, R.New());
  }

  /** Headers and lengths that decoding handles, whatever the contents. */
  predicate SoundBytes(b: seq<byte>) {
    |b| < 18 || b[0] as nat % 16 == 0 || b[0] as nat % 16 > 6 || (b[0] as nat / 16 <= 8 && |b| >= b[0] as nat / 16 + 17)
  }

  lemma SoundBytesIff(b: seq<byte>, c: Contents)
    ensures Sound(Parse(b, c)) <==> SoundBytes(b)
  {
  }

  /** The datagram came as bytes whose header and length decoding handles. */
  ghost predicate FromSoundBytes(d: Datagram) {
    exists b, c :: SoundBytes(b) && d == Parse(b, c)
  }

  lemma FromSoundIsSound(d: Datagram)
    requires FromSoundBytes(d)
    ensures Sound(d)
  {
    hide Sound, SoundBytes;
    var b, c :| SoundBytes(b) && d == Parse(b, c);
    SoundBytesIff(b, c);
  }

  // ---------------------------------------------------------------- encode

  /** Bytes of a body before encryption. */
  function BodyBytes(b: Body): nat {
    match b
    case ConnectionDenied => 0
    case Challenge(_, _) => 8 + 300
    case Response(_, _) => 8 + 300
    case KeepAlive(_, _) => 4 + 4
    case Payload(p) => |p|
    case Disconnect => 0
    case Garbled(_) => 0
  }

  /**
   What the receiver of an encoded packet gets: the packet, except that sequence zero with
   an empty body makes 17 bytes, which `decode` takes for too small.
   */
  function Seal(key: Key, protocolId: nat, sequence: nat, body: Body): Datagram {
    if sequence == 0 && BodyBytes(body) == 0 then Malformed else Sealed(key, protocolId, sequence, body)
  }

  lemma NeedsOne(s: nat, m: nat, n: nat)
    requires Needs(s, m) && Needs(s, n)
    ensures m == n
  {
    if m < n {
      Pow256Grows(m, n - 1);
    } else if n < m {
      Pow256Grows(n, m - 1);
    }
  }

  lemma {:induction false} Pow256Grows(m: nat, n: nat)
    requires m <= n
    ensures W.Pow256(m) <= W.Pow256(n)
  {
    if m < n {
      Pow256Grows(m, n - 1);
    }
  }

  lemma HeaderParses(header: seq<byte>, kind: nat, sequence: nat, cipher: seq<byte>, c: Contents)
    requires 1 <= kind <= 6 && 0 < |header| <= 9 && Needs(sequence, |header| - 1)
    requires header == [EncodePrefix(kind, |header| - 1)] + LittleEndian(sequence, |header| - 1)
    requires |cipher| >= MAC_BYTES && |header + cipher| >= 18
    requires c.Ciphertext? && c.prefix == header[0] && c.sequence == sequence && KindOf(c.body) == kind
    ensures Parse(header + cipher, c) == Sealed(c.key, c.protocolId, sequence, c.body)
  {
    var n := |header| - 1;
    var b := header + cipher;
    assert b[0] == EncodePrefix(kind, n) && b[1..n + 1] == LittleEndian(sequence, n);
    LittleEndianRoundTrip(sequence, n);
  }

  /**
   `encode` into a buffer of `capacity` bytes, with the ciphertext of the body as a
   parameter. It fails exactly for space, never for what the endpoints send into their own
   buffers, and what it writes arrives as `Seal` says.
   */
  method Encode(body: Body, sequence: nat, cipher: seq<byte>, capacity: nat) returns (r: Result<seq<byte>, NetcodeError>)
    requires sequence < W.Pow256(8) && !body.Garbled? && |cipher| == BodyBytes(body) + MAC_BYTES
    ensures forall n: nat :: Needs(sequence, n) ==> (r.Ok? <==> 1 + n + |cipher| <= capacity)
    ensures capacity == MAX_PACKET_BYTES && (body.Payload? ==> |body.bytes| <= MAX_PAYLOAD_BYTES) ==> r.Ok?
    ensures r.Ok? ==> r.value != [] && forall key, protocolId ::
      Parse(r.value, Ciphertext(key, protocolId, r.value[0], sequence, body)) == Seal(key, protocolId, sequence, body)
  {
    var header := EncodeHeader(KindOf(body), sequence);
    forall n: nat | Needs(sequence, n)
      ensures n == |header| - 1
    {
      NeedsOne(sequence, n, |header| - 1);
    }
    if |header| + |cipher| > capacity {
      return Err(BufferTooSmall);
    }
    var packet := header + cipher;
    forall key, protocolId
      ensures Parse(packet, Ciphertext(key, protocolId, packet[0], sequence, body)) == Seal(key, protocolId, sequence, body)
    {
      if |packet| >= 18 {
        HeaderParses(header, KindOf(body), sequence, cipher, Ciphertext(key, protocolId, packet[0], sequence, body));
      }
    }
    return Ok(packet);
  }
}
