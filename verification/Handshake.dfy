/**
The hello exchange between one client and the relay over a reliable connection, down to bytes:
`Authenticator.exchange` and `authenticate` on one side, `Handshake.handshake` on the other.

Each side writes its frame in chunks of any size, reads the other's frame with exact-length
reads, and then lets its mux read and write the same connection. The JSON codec is a parameter.
*/
module Handshake {
  import opened Bytes
  import opened Framing

  const HELLO_VERSION: nat := 1
  const ROLE_EXIT := "exit-node"
  const ROLE_PROXY := "proxy"
  const STATUS_OK := "ok"
  const STATUS_ERROR := "error"
  const AUTHENTICATION_FAILED := "authentication_failed"

  datatype Hello = Hello(version: nat, role: string, token: string)
  datatype Response = Response(version: nat, status: string, sessionId: string, errorCode: string)

  predicate ValidHello(h: Hello) {
    h.version == HELLO_VERSION && (h.role == ROLE_EXIT || h.role == ROLE_PROXY)
  }

  predicate ValidResponse(r: Response) {
    r.version == HELLO_VERSION && (r.status == STATUS_OK || r.status == STATUS_ERROR)
  }

  datatype VerifyError = BadRole | EmptyBearer | WrongToken

  /** Verifier.verify against the role-to-bearer map. */
  function Verify(expected: map<string, string>, role: string, token: string): (r: Option<VerifyError>)
    ensures r.None? <==> role in expected && token != "" && expected[role] == token
    ensures r == Some(BadRole) <==> role !in expected
    ensures r == Some(EmptyBearer) <==> role in expected && token == ""
  {
    if role !in expected then Some(BadRole)
    else if token == "" then Some(EmptyBearer)
    else if token != expected[role] then Some(WrongToken)
    else None
  }

  function OkResponse(id: string): Response {
    Response(HELLO_VERSION, STATUS_OK, id, "")
  }

  function ErrorResponse(): Response {
    Response(HELLO_VERSION, STATUS_ERROR, "", AUTHENTICATION_FAILED)
  }

  /** encoding/json for the two record types. */
  datatype Codec = Codec(
    helloJson: Hello -> seq<byte>, parseHello: seq<byte> -> Option<Hello>,
    responseJson: Response -> seq<byte>, parseResponse: seq<byte> -> Option<Response>)

  /** The client's hello, the relay's trusted pairs and the codec they share. */
  datatype Config = Config(codec: Codec, hello: Hello, expected: map<string, string>)

  function HelloFrame(c: Config): seq<byte> {
    Encode(c.codec.helloJson(c.hello))
  }

  function ResponseFrame(c: Config, r: Response): seq<byte> {
    Encode(c.codec.responseJson(r))
  }

  const SESSION_ID_LEN: nat := 32

  /** newSessionID: 16 random bytes in hexadecimal. */
  predicate IsSessionId(s: string) {
    |s| == SESSION_ID_LEN && forall i :: 0 <= i < |s| ==> '0' <= s[i] <= '9' || 'a' <= s[i] <= 'f'
  }

  /** The codec reads back what it writes for this response, whose text has a 32-bit length. */
  predicate ReadsBack(c: Config, r: Response) {
    && c.codec.parseResponse(c.codec.responseJson(r)) == Some(r)
    && |c.codec.responseJson(r)| < UINT32
  }

  /** The codec's contract, for the records of one exchange: this hello and what the relay can answer. */
  ghost predicate Faithful(c: Config) {
    && c.codec.parseHello(c.codec.helloJson(c.hello)) == Some(c.hello)
    && |c.codec.helloJson(c.hello)| < UINT32
    && ReadsBack(c, ErrorResponse())
    && forall id :: IsSessionId(id) ==> ReadsBack(c, OkResponse(id))
  }

  // ----- Exact-length reading -----

  /** How many bytes io.ReadFull still asks for: the rest of the header, then the rest of the body. */
  function Wanted(got: seq<byte>): nat {
    if |got| < HEADER_LEN then HEADER_LEN - |got|
    else
      var total := HEADER_LEN + Uint32(got[..HEADER_LEN]);
      if |got| < total then total - |got| else 0
  }

  predicate TooBig(got: seq<byte>) {
    |got| >= HEADER_LEN && Uint32(got[..HEADER_LEN]) > MAX_FRAME
  }

  predicate FrameRead(got: seq<byte>) {
    |got| >= HEADER_LEN && !TooBig(got) && Wanted(got) == 0
  }

  /** A reader that stops at the frame's last byte. */
  predicate NotBeyond(got: seq<byte>) {
    |got| > HEADER_LEN ==> |got| <= HEADER_LEN + Uint32(got[..HEADER_LEN])
  }

  // ----- The joint machine -----

  /** One direction of the connection: everything ever written, and how much was read. */
  datatype Pipe = Pipe(sent: seq<byte>, taken: nat)

  /** `at` is the position of the first byte the mux will read. */
  datatype Client =
    | ClientSending(left: seq<byte>)
    | ClientReading(got: seq<byte>)
    | ClientSession(id: string, at: nat)
    | ClientRejected(reason: string)   // the relay said no, and why
    | ClientFailed                     // no verdict that the client understands

  datatype Relay =
    | RelayReading(got: seq<byte>)
    | RelaySending(left: seq<byte>, hello: Hello)
    | RelaySession(role: string, id: string, at: nat)
    | RelayFailed

  /** `decided` is the response the relay chose, once it has. */
  datatype State = State(toRelay: Pipe, toClient: Pipe, client: Client, relay: Relay, decided: Option<Response>)

  datatype Action =
    | ClientWrites(k: nat)
    | ClientReads(k: nat)
    | ClientDecides                    // a whole frame was read: parse, validate, act
    | ClientGivesUp                    // timeout, oversized frame, broken connection
    | ClientMuxWrites(data: seq<byte>)
    | ClientMuxReads(k: nat)
    | RelayReads(k: nat)
    | RelayDecides(id: string)         // parse, validate, verify, choose a session id
    | RelayWrites(k: nat)
    | RelayStarts                      // the verdict is written: start the mux, or fail
    | RelayGivesUp
    | RelayMuxWrites(data: seq<byte>)
    | RelayMuxReads(k: nat)

  function Init(c: Config): State {
    State(Pipe([], 0), Pipe([], 0), ClientSending(HelloFrame(c)), RelayReading([]), None)
  }

  function Unread(p: Pipe): int {
    |p.sent| - p.taken
  }

  predicate ClientStep(a: Action) {
    a.ClientWrites? || a.ClientReads? || a.ClientDecides? || a.ClientGivesUp? || a.ClientMuxWrites? || a.ClientMuxReads?
  }

  predicate ClientEnabled(s: State, a: Action)
    requires ClientStep(a)
  {
    match a
    case ClientWrites(k) => s.client.ClientSending? && 0 < k <= |s.client.left|
    case ClientReads(k) =>
      s.client.ClientReading? && !TooBig(s.client.got) && 0 < k <= Wanted(s.client.got) && k <= Unread(s.toClient)
    case ClientDecides => s.client.ClientReading? && FrameRead(s.client.got)
    case ClientGivesUp => s.client.ClientSending? || s.client.ClientReading?
    case ClientMuxWrites(_) => s.client.ClientSession?
    case ClientMuxReads(k) => s.client.ClientSession? && k <= Unread(s.toClient)
  }

  predicate RelayEnabled(s: State, a: Action)
    requires !ClientStep(a)
  {
    match a
    case RelayReads(k) =>
      s.relay.RelayReading? && !TooBig(s.relay.got) && 0 < k <= Wanted(s.relay.got) && k <= Unread(s.toRelay)
    case RelayDecides(id) => s.relay.RelayReading? && FrameRead(s.relay.got) && IsSessionId(id)
    case RelayWrites(k) => s.relay.RelaySending? && 0 < k <= |s.relay.left|
    case RelayStarts => s.relay.RelaySending? && s.relay.left == [] && s.decided.Some?
    case RelayGivesUp => s.relay.RelayReading? || s.relay.RelaySending?
    case RelayMuxWrites(_) => s.relay.RelaySession?
    case RelayMuxReads(k) => s.relay.RelaySession? && k <= Unread(s.toRelay)
  }

  predicate Enabled(s: State, a: Action) {
    if ClientStep(a) then ClientEnabled(s, a) else RelayEnabled(s, a)
  }

  function Chunk(p: Pipe, k: nat): seq<byte>
    requires p.taken + k <= |p.sent|
  {
    p.sent[p.taken..p.taken + k]
  }

  /** exchange, from the parsed response on: only a valid "ok" creates a session. */
  function ClientOutcome(r: Option<Response>, at: nat): Client {
    if r.None? || !ValidResponse(r.value) then ClientFailed
    else if r.value.status == STATUS_OK then ClientSession(r.value.sessionId, at)
    else ClientRejected(if r.value.errorCode == "" then "authentication failed" else r.value.errorCode)
  }

  function ClientVerdict(c: Config, body: seq<byte>, at: nat): Client {
    ClientOutcome(c.codec.parseResponse(body), at)
  }

  function ClientApply(c: Config, s: State, a: Action): State
    requires ClientStep(a) && ClientEnabled(s, a)
  {
    match a
    case ClientWrites(k) =>
      var left := s.client.left[k..];
      s.(toRelay := s.toRelay.(sent := s.toRelay.sent + s.client.left[..k]),
         client := if left == [] then ClientReading([]) else ClientSending(left))
    case ClientReads(k) =>
      s.(toClient := s.toClient.(taken := s.toClient.taken + k),
         client := ClientReading(s.client.got + Chunk(s.toClient, k)))
    case ClientDecides => s.(client := ClientVerdict(c, s.client.got[HEADER_LEN..], s.toClient.taken))
    case ClientGivesUp => s.(client := ClientFailed)
    case ClientMuxWrites(data) => s.(toRelay := s.toRelay.(sent := s.toRelay.sent + data))
    case ClientMuxReads(k) => s.(toClient := s.toClient.(taken := s.toClient.taken + k))
  }

  /** handshake, from the parsed hello on: reject, or answer with an error, or with a session id. */
  function RelayVerdict(c: Config, body: seq<byte>, id: string): (v: Option<Response>)
    ensures v.Some? ==> c.codec.parseHello(body).Some?
  {
    var h := c.codec.parseHello(body);
    if h.None? || !ValidHello(h.value) then None
    else if Verify(c.expected, h.value.role, h.value.token).Some? then Some(ErrorResponse())
    else Some(OkResponse(id))
  }

  function RelayApply(c: Config, s: State, a: Action): State
    requires !ClientStep(a) && RelayEnabled(s, a)
  {
    match a
    case RelayReads(k) =>
      s.(toRelay := s.toRelay.(taken := s.toRelay.taken + k),
         relay := RelayReading(s.relay.got + Chunk(s.toRelay, k)))
    case RelayDecides(id) =>
      var v := RelayVerdict(c, s.relay.got[HEADER_LEN..], id);
      if v.None? then s.(relay := RelayFailed)
      else
        var hello := c.codec.parseHello(s.relay.got[HEADER_LEN..]).value;
        s.(relay := RelaySending(ResponseFrame(c, v.value), hello), decided := v)
    case RelayWrites(k) =>
      s.(toClient := s.toClient.(sent := s.toClient.sent + s.relay.left[..k]),
         relay := RelaySending(s.relay.left[k..], s.relay.hello))
    case RelayStarts =>
      s.(relay := if s.decided.value.status == STATUS_OK
                  then RelaySession(s.relay.hello.role, s.decided.value.sessionId, s.toRelay.taken)
                  else RelayFailed)
    case RelayGivesUp => s.(relay := RelayFailed)
    case RelayMuxWrites(data) => s.(toClient := s.toClient.(sent := s.toClient.sent + data))
    case RelayMuxReads(k) => s.(toRelay := s.toRelay.(taken := s.toRelay.taken + k))
  }

  function Apply(c: Config, s: State, a: Action): State
    requires Enabled(s, a)
  {
    if ClientStep(a) then ClientApply(c, s, a) else RelayApply(c, s, a)
  }

  // ----- The invariant -----

  /** The relay answers a valid hello, with "ok" exactly when the role and token are trusted. */
  predicate DecisionSound(c: Config, r: Response) {
    && ValidHello(c.hello)
    && (Verify(c.expected, c.hello.role, c.hello.token).None? ==>
          r == OkResponse(r.sessionId) && IsSessionId(r.sessionId))
    && (Verify(c.expected, c.hello.role, c.hello.token).Some? ==> r == ErrorResponse())
  }

  /** The stream is a part of the frame, or the frame followed by more. */
  predicate Starts(frame: seq<byte>, stream: seq<byte>) {
    stream <= frame || frame <= stream
  }

  predicate RelaySound(c: Config, s: State) {
    && s.toRelay.taken <= |s.toRelay.sent|
    && (s.decided.None? ==> s.toClient.sent == [])
    && (s.decided.Some? ==>
          && DecisionSound(c, s.decided.value)
          && HelloFrame(c) <= s.toRelay.sent
          && |c.codec.helloJson(c.hello)| <= MAX_FRAME
          && Starts(ResponseFrame(c, s.decided.value), s.toClient.sent)
          && (!s.relay.RelaySession? ==> s.toClient.sent <= ResponseFrame(c, s.decided.value)))
    && match s.relay
       case RelayReading(got) =>
         got == s.toRelay.sent[..s.toRelay.taken] && s.decided.None? && NotBeyond(got)
       case RelaySending(left, hello) =>
         && s.decided.Some? && hello == c.hello
         && s.toClient.sent + left == ResponseFrame(c, s.decided.value)
         && s.toRelay.taken == |HelloFrame(c)|
       case RelaySession(role, id, at) =>
         && s.decided == Some(OkResponse(id)) && role == c.hello.role
         && ResponseFrame(c, OkResponse(id)) <= s.toClient.sent
         && at == |HelloFrame(c)| <= s.toRelay.taken
       case RelayFailed => true
  }

  predicate ClientSound(c: Config, s: State) {
    && s.toClient.taken <= |s.toClient.sent|
    && Starts(HelloFrame(c), s.toRelay.sent)
    && match s.client
       case ClientSending(left) => s.toRelay.sent + left == HelloFrame(c) && s.toClient.taken == 0
       case ClientReading(got) =>
         s.toRelay.sent == HelloFrame(c) && got == s.toClient.sent[..s.toClient.taken] && NotBeyond(got)
       case ClientSession(id, at) =>
         && HelloFrame(c) <= s.toRelay.sent
         && s.decided == Some(OkResponse(id))
         && ResponseFrame(c, OkResponse(id)) <= s.toClient.sent
         && at == |ResponseFrame(c, OkResponse(id))| <= s.toClient.taken
         && |c.codec.responseJson(OkResponse(id))| <= MAX_FRAME
       case ClientRejected(reason) =>
         && reason == AUTHENTICATION_FAILED
         && HelloFrame(c) <= s.toRelay.sent
         && s.decided == Some(ErrorResponse())
         && ResponseFrame(c, ErrorResponse()) <= s.toClient.sent
         && |c.codec.responseJson(ErrorResponse())| <= MAX_FRAME
       case ClientFailed => true
  }

  predicate Inv(c: Config, s: State) {
    RelaySound(c, s) && ClientSound(c, s)
  }

  lemma InitInv(c: Config)
    ensures Inv(c, Init(c))
  {
  }

  /** An exact-length reader that has a whole frame has exactly the one frame that was sent. */
  lemma ReadsWholeFrame(body: seq<byte>, stream: seq<byte>, got: seq<byte>)
    requires |body| < UINT32 && Starts(Encode(body), stream)
    requires got <= stream && FrameRead(got) && NotBeyond(got)
    ensures got == Encode(body) && got[HEADER_LEN..] == body && |body| <= MAX_FRAME
  {
    var f := Encode(body);
    HeaderOf(body, []);
    assert f + [] == f;
    assert got[..HEADER_LEN] == f[..HEADER_LEN];
    assert |got| == |f|;
  }

  /** Reading on never passes the end of the frame. */
  lemma ReadStaysWithin(got: seq<byte>, chunk: seq<byte>)
    requires NotBeyond(got) && |chunk| <= Wanted(got)
    ensures NotBeyond(got + chunk)
  {
    if |got| >= HEADER_LEN {
      assert (got + chunk)[..HEADER_LEN] == got[..HEADER_LEN];
    }
  }

  lemma TakeExtends(p: Pipe, got: seq<byte>, k: nat)
    requires p.taken + k <= |p.sent| && got == p.sent[..p.taken]
    ensures got + Chunk(p, k) == p.sent[..p.taken + k]
  {
  }

  lemma ClientDecidesSound(c: Config, s: State)
    requires Faithful(c) && Inv(c, s) && ClientEnabled(s, ClientDecides)
    ensures Inv(c, ClientApply(c, s, ClientDecides))
  {
    var got := s.client.got;
    if s.decided.Some? {
      var r := s.decided.value;
      ReadsWholeFrame(c.codec.responseJson(r), s.toClient.sent, got);
      hide Encode;
      assert ReadsBack(c, r);
    }
  }

  lemma ClientKeepsInv(c: Config, s: State, a: Action)
    requires Faithful(c) && Inv(c, s) && ClientStep(a) && ClientEnabled(s, a)
    ensures Inv(c, ClientApply(c, s, a))
  {
    match a
    case ClientDecides => ClientDecidesSound(c, s);
    case ClientReads(k) =>
      ReadStaysWithin(s.client.got, Chunk(s.toClient, k));
      TakeExtends(s.toClient, s.client.got, k);
      hide Faithful, Wanted, NotBeyond, Encode;
    case ClientWrites(k) =>
      hide Faithful, NotBeyond, Encode;
      assert s.client.left == s.client.left[..k] + s.client.left[k..];
      WriteKeepsRelay(c, s, s.client.left[..k], ClientApply(c, s, a).client);
    case ClientMuxWrites(data) =>
      hide Faithful, NotBeyond, Encode;
      WriteKeepsRelay(c, s, data, s.client);
    case _ =>
      hide Faithful, NotBeyond, Encode;
  }

  /** More bytes from the client leave everything the relay knows as it is. */
  lemma WriteKeepsRelay(c: Config, s: State, data: seq<byte>, client: Client)
    requires RelaySound(c, s)
    ensures RelaySound(c, s.(toRelay := s.toRelay.(sent := s.toRelay.sent + data), client := client))
  {
    hide NotBeyond, Encode;
    assert (s.toRelay.sent + data)[..s.toRelay.taken] == s.toRelay.sent[..s.toRelay.taken];
  }

  lemma RelayDecidesSound(c: Config, s: State, id: string)
    requires Faithful(c) && Inv(c, s) && RelayEnabled(s, RelayDecides(id))
    ensures Inv(c, RelayApply(c, s, RelayDecides(id)))
  {
    ReadsWholeFrame(c.codec.helloJson(c.hello), s.toRelay.sent, s.relay.got);
    hide Encode;
    assert s.relay.got == HelloFrame(c);
  }

  /** More bytes from the relay leave everything the client knows as it is. */
  lemma WriteKeepsClient(c: Config, s: State, data: seq<byte>, relay: Relay)
    requires ClientSound(c, s)
    ensures ClientSound(c, s.(toClient := s.toClient.(sent := s.toClient.sent + data), relay := relay))
  {
    hide NotBeyond, Encode;
    assert (s.toClient.sent + data)[..s.toClient.taken] == s.toClient.sent[..s.toClient.taken];
  }

  lemma RelayReadsSound(c: Config, s: State, k: nat)
    requires Inv(c, s) && RelayEnabled(s, RelayReads(k))
    ensures Inv(c, RelayApply(c, s, RelayReads(k)))
  {
    ReadStaysWithin(s.relay.got, Chunk(s.toRelay, k));
    TakeExtends(s.toRelay, s.relay.got, k);
    hide Wanted, NotBeyond, Encode, DecisionSound;
  }

  lemma RelayWritesSound(c: Config, s: State, k: nat)
    requires Inv(c, s) && RelayEnabled(s, RelayWrites(k))
    ensures Inv(c, RelayApply(c, s, RelayWrites(k)))
  {
    hide NotBeyond, Encode, DecisionSound;
    assert s.relay.left == s.relay.left[..k] + s.relay.left[k..];
    WriteKeepsClient(c, s, s.relay.left[..k], RelayApply(c, s, RelayWrites(k)).relay);
  }

  lemma RelayKeepsInv(c: Config, s: State, a: Action)
    requires Faithful(c) && Inv(c, s) && !ClientStep(a) && RelayEnabled(s, a)
    ensures Inv(c, RelayApply(c, s, a))
  {
    hide Faithful, NotBeyond, Encode;
    match a
    case RelayDecides(id) => RelayDecidesSound(c, s, id);
    case RelayReads(k) => RelayReadsSound(c, s, k);
    case RelayWrites(k) => RelayWritesSound(c, s, k);
    case RelayMuxWrites(data) => WriteKeepsClient(c, s, data, s.relay);
    case _ =>
  }

  ghost predicate ValidRun(c: Config, s: State, acts: seq<Action>)
    decreases |acts|
  {
    acts == [] || (Enabled(s, acts[0]) && ValidRun(c, Apply(c, s, acts[0]), acts[1..]))
  }

  ghost function Final(c: Config, s: State, acts: seq<Action>): State
    requires ValidRun(c, s, acts)
    decreases |acts|
  {
    if acts == [] then s else Final(c, Apply(c, s, acts[0]), acts[1..])
  }

  lemma {:induction false} RunKeepsInv(c: Config, s: State, acts: seq<Action>)
    requires Faithful(c) && Inv(c, s) && ValidRun(c, s, acts)
    ensures Inv(c, Final(c, s, acts))
    decreases |acts|
  {
    if acts != [] {
      hide Faithful, Inv, ClientApply, RelayApply, ClientEnabled, RelayEnabled;
      if ClientStep(acts[0]) {
        ClientKeepsInv(c, s, acts[0]);
      } else {
        RelayKeepsInv(c, s, acts[0]);
      }
      RunKeepsInv(c, Apply(c, s, acts[0]), acts[1..]);
    }
  }

  ghost predicate Reached(c: Config, s: State, acts: seq<Action>) {
    Faithful(c) && ValidRun(c, Init(c), acts) && Final(c, Init(c), acts) == s
  }

  // ----- What the exchange promises -----

  /**
  A client session implies that the relay validated the hello, trusted that role and token, and
  wrote "ok" with the same session id; the client's mux starts right behind that one frame.
  */
  lemma ClientSessionIsEarned(c: Config, s: State, acts: seq<Action>)
    requires Reached(c, s, acts) && s.client.ClientSession?
    ensures ValidHello(c.hello)
    ensures c.hello.role in c.expected && c.hello.token != "" && c.expected[c.hello.role] == c.hello.token
    ensures s.decided == Some(OkResponse(s.client.id))
    ensures ResponseFrame(c, Response(1, "ok", s.client.id, "")) <= s.toClient.sent
    ensures s.client.at == |ResponseFrame(c, OkResponse(s.client.id))|
    ensures HelloFrame(c) <= s.toRelay.sent
  {
    InitInv(c);
    RunKeepsInv(c, Init(c), acts);
    hide Faithful;
  }

  /** A relay session implies the same trust, carries a client role, and its mux starts right behind the hello. */
  lemma RelaySessionIsEarned(c: Config, s: State, acts: seq<Action>)
    requires Reached(c, s, acts) && s.relay.RelaySession?
    ensures s.relay.role == c.hello.role && (s.relay.role == "exit-node" || s.relay.role == "proxy")
    ensures c.hello.role in c.expected && c.hello.token != "" && c.expected[c.hello.role] == c.hello.token
    ensures HelloFrame(c) <= s.toRelay.sent && s.relay.at == |HelloFrame(c)|
    ensures ResponseFrame(c, OkResponse(s.relay.id)) <= s.toClient.sent
  {
    InitInv(c);
    RunKeepsInv(c, Init(c), acts);
    hide Faithful;
  }

  /** When both sessions exist they agree on role and id. */
  lemma SessionsAgree(c: Config, s: State, acts: seq<Action>)
    requires Reached(c, s, acts) && s.client.ClientSession? && s.relay.RelaySession?
    ensures s.client.id == s.relay.id && s.relay.role == c.hello.role
  {
    InitInv(c);
    RunKeepsInv(c, Init(c), acts);
    hide Faithful;
  }

  /** An untrusted client never gets a session on either side, and the relay says no more than its error frame. */
  lemma UntrustedGetsNothing(c: Config, s: State, acts: seq<Action>)
    requires Reached(c, s, acts)
    requires !ValidHello(c.hello) || Verify(c.expected, c.hello.role, c.hello.token).Some?
    ensures !s.client.ClientSession? && !s.relay.RelaySession?
    ensures s.toClient.sent <= ResponseFrame(c, ErrorResponse())
  {
    InitInv(c);
    RunKeepsInv(c, Init(c), acts);
    hide Faithful, Encode;
  }

  // ----- When a session is possible -----

  lemma RunCons(c: Config, s: State, a: Action, acts: seq<Action>)
    requires Enabled(s, a) && ValidRun(c, Apply(c, s, a), acts)
    ensures ValidRun(c, s, [a] + acts) && Final(c, s, [a] + acts) == Final(c, Apply(c, s, a), acts)
  {
    assert ([a] + acts)[0] == a && ([a] + acts)[1..] == acts;
  }

  /** After the header of a frame, exactly the body is wanted; after both, nothing. */
  lemma WantedOfFrame(body: seq<byte>)
    requires |body| <= MAX_FRAME
    ensures var f := Encode(body);
      && Wanted([]) == HEADER_LEN && !TooBig([])
      && Wanted(f[..HEADER_LEN]) == |body| && !TooBig(f[..HEADER_LEN])
      && FrameRead(f) && f[HEADER_LEN..] == body
  {
    HeaderOf(body, []);
    var f := Encode(body);
    assert f + [] == f;
    assert f[..HEADER_LEN][..HEADER_LEN] == f[..HEADER_LEN];
  }

  /** Both sides have their session under this id. */
  predicate Connected(s: State, id: string) {
    s.client.ClientSession? && s.client.id == id && s.relay.RelaySession? && s.relay.id == id
  }

  /** What the relay answers to a valid hello. */
  function Answer(c: Config, id: string): Response {
    if Verify(c.expected, c.hello.role, c.hello.token).None? then OkResponse(id) else ErrorResponse()
  }

  /** The response fits a frame, and the codec reads it back. */
  predicate Readable(c: Config, r: Response) {
    0 < |c.codec.responseJson(r)| <= MAX_FRAME && c.codec.parseResponse(c.codec.responseJson(r)) == Some(r)
  }

  /** The last part of an exchange: the relay has written its verdict, the client reads it. */
  lemma ClientFinishes(c: Config, s: State, r: Response) returns (acts: seq<Action>)
    requires s.client == ClientReading([]) && s.toClient == Pipe(ResponseFrame(c, r), 0) && Readable(c, r)
    ensures ValidRun(c, s, acts)
    ensures Final(c, s, acts).client == ClientOutcome(Some(r), |ResponseFrame(c, r)|)
    ensures Final(c, s, acts).relay == s.relay && Final(c, s, acts).decided == s.decided
  {
    var j := c.codec.responseJson(r);
    var f := Encode(j);
    WantedOfFrame(j);
    hide Encode;
    assert |f| == HEADER_LEN + |j| by {
      assert f[HEADER_LEN..] == j;
    }
    var s1 := Apply(c, s, ClientReads(HEADER_LEN));
    assert s1.client.got == f[..HEADER_LEN];
    var s2 := Apply(c, s1, ClientReads(|j|));
    assert s2.client.got == f;
    var s3 := Apply(c, s2, ClientDecides);
    acts := [];
    RunCons(c, s2, ClientDecides, acts);
    acts := [ClientDecides] + acts;
    RunCons(c, s1, ClientReads(|j|), acts);
    acts := [ClientReads(|j|)] + acts;
    RunCons(c, s, ClientReads(HEADER_LEN), acts);
    acts := [ClientReads(HEADER_LEN)] + acts;
  }

  lemma RelayAnswers(c: Config, s: State, id: string) returns (acts: seq<Action>)
    requires IsSessionId(id) && ValidHello(c.hello) && Readable(c, Answer(c, id))
    requires s.client == ClientReading([]) && s.toClient == Pipe([], 0)
    requires s.relay == RelayReading(HelloFrame(c)) && FrameRead(HelloFrame(c))
    requires c.codec.parseHello(HelloFrame(c)[HEADER_LEN..]) == Some(c.hello)
    ensures ValidRun(c, s, acts)
    ensures var f, r := Final(c, s, acts), Answer(c, id);
      && f.client == ClientOutcome(Some(r), |ResponseFrame(c, r)|) && f.decided == Some(r)
      && f.relay == if r == OkResponse(id) then RelaySession(c.hello.role, id, s.toRelay.taken) else RelayFailed
  {
    hide Encode, FrameRead;
    var r := Answer(c, id);
    var f := ResponseFrame(c, r);
    var s1 := Apply(c, s, RelayDecides(id));
    assert s1.relay == RelaySending(f, c.hello) && s1.decided == Some(r);
    assert |f| > 0 by {
      WantedOfFrame(c.codec.responseJson(r));
    }
    var s2 := Apply(c, s1, RelayWrites(|f|));
    assert s2.toClient.sent == f && s2.relay == RelaySending([], c.hello);
    var s3 := Apply(c, s2, RelayStarts);
    acts := ClientFinishes(c, s3, r);
    RunCons(c, s2, RelayStarts, acts);
    acts := [RelayStarts] + acts;
    RunCons(c, s1, RelayWrites(|f|), acts);
    acts := [RelayWrites(|f|)] + acts;
    RunCons(c, s, RelayDecides(id), acts);
    acts := [RelayDecides(id)] + acts;
  }

  /** An exchange in which nobody gives up: a valid hello that fits gets the relay's answer, whichever it is. */
  lemma ExchangeRun(c: Config, id: string) returns (acts: seq<Action>)
    requires Faithful(c) && IsSessionId(id) && ValidHello(c.hello)
    requires 0 < |c.codec.helloJson(c.hello)| <= MAX_FRAME
    requires 0 < |c.codec.responseJson(Answer(c, id))| <= MAX_FRAME
    ensures ValidRun(c, Init(c), acts)
    ensures var f, r := Final(c, Init(c), acts), Answer(c, id);
      && f.client == ClientOutcome(Some(r), |ResponseFrame(c, r)|) && f.decided == Some(r)
      && f.relay == if r == OkResponse(id) then RelaySession(c.hello.role, id, |HelloFrame(c)|) else RelayFailed
  {
    assert ReadsBack(c, Answer(c, id));
    var s0 := Init(c);
    var j := c.codec.helloJson(c.hello);
    var f := HelloFrame(c);
    WantedOfFrame(j);
    hide Encode;
    assert |f| == HEADER_LEN + |j| by {
      assert f[HEADER_LEN..] == j;
    }
    var s1 := Apply(c, s0, ClientWrites(|f|));
    assert s1.toRelay.sent == f;
    var s2 := Apply(c, s1, RelayReads(HEADER_LEN));
    assert s2.relay.got == f[..HEADER_LEN];
    var s3 := Apply(c, s2, RelayReads(|j|));
    assert s3.relay.got == f && s3.toRelay.taken == |f|;
    hide Faithful;
    acts := RelayAnswers(c, s3, id);
    RunCons(c, s2, RelayReads(|j|), acts);
    acts := [RelayReads(|j|)] + acts;
    RunCons(c, s1, RelayReads(HEADER_LEN), acts);
    acts := [RelayReads(HEADER_LEN)] + acts;
    RunCons(c, s0, ClientWrites(|f|), acts);
    acts := [ClientWrites(|f|)] + acts;
  }

  lemma TrustedConnects(c: Config, id: string) returns (acts: seq<Action>)
    requires Faithful(c) && IsSessionId(id) && ValidHello(c.hello)
    requires Verify(c.expected, c.hello.role, c.hello.token).None?
    requires 0 < |c.codec.helloJson(c.hello)| <= MAX_FRAME
    requires 0 < |c.codec.responseJson(OkResponse(id))| <= MAX_FRAME
    ensures ValidRun(c, Init(c), acts) && Connected(Final(c, Init(c), acts), id)
  {
    acts := ExchangeRun(c, id);
  }

  ghost predicate CanConnect(c: Config, id: string, acts: seq<Action>) {
    ValidRun(c, Init(c), acts) && Connected(Final(c, Init(c), acts), id)
  }

  /**
  Both sides can reach a session if and only if the hello is valid, the relay trusts the role
  and token, and both records fit into a frame. (No JSON text is empty.)
  */
  lemma ConnectIff(c: Config, id: string)
    requires Faithful(c) && IsSessionId(id)
    requires |c.codec.helloJson(c.hello)| > 0 && |c.codec.responseJson(OkResponse(id))| > 0
    ensures (exists acts :: CanConnect(c, id, acts)) <==>
      && c.hello.version == 1 && (c.hello.role == "exit-node" || c.hello.role == "proxy")
      && Verify(c.expected, c.hello.role, c.hello.token).None?
      && |c.codec.helloJson(c.hello)| <= MAX_FRAME && |c.codec.responseJson(OkResponse(id))| <= MAX_FRAME
  {
    if acts :| CanConnect(c, id, acts) {
      InitInv(c);
      RunKeepsInv(c, Init(c), acts);
    }
    if && ValidHello(c.hello) && Verify(c.expected, c.hello.role, c.hello.token).None?
       && |c.codec.helloJson(c.hello)| <= MAX_FRAME && |c.codec.responseJson(OkResponse(id))| <= MAX_FRAME {
      var acts := TrustedConnects(c, id);
      assert CanConnect(c, id, acts);
    }
  }

  /** The client was told no, by the relay's own error frame. */
  ghost predicate CanReject(c: Config, acts: seq<Action>) {
    ValidRun(c, Init(c), acts) &&
    var f := Final(c, Init(c), acts);
    f.client == ClientRejected("authentication_failed") && f.decided.Some?
    && ResponseFrame(c, f.decided.value) <= f.toClient.sent
  }

  /**
  The client can be told that it was rejected if and only if its hello is valid, its role and
  token are not trusted, and both records fit into a frame. It is then told at once, with
  version 1, status "error" and code "authentication_failed".
  */
  lemma RejectIff(c: Config)
    requires Faithful(c)
    requires |c.codec.helloJson(c.hello)| > 0 && |c.codec.responseJson(ErrorResponse())| > 0
    ensures (exists acts :: CanReject(c, acts)) <==>
      && c.hello.version == 1 && (c.hello.role == "exit-node" || c.hello.role == "proxy")
      && Verify(c.expected, c.hello.role, c.hello.token).Some?
      && |c.codec.helloJson(c.hello)| <= MAX_FRAME
      && |c.codec.responseJson(Response(1, "error", "", "authentication_failed"))| <= MAX_FRAME
  {
    if acts :| CanReject(c, acts) {
      InitInv(c);
      RunKeepsInv(c, Init(c), acts);
    }
    if && ValidHello(c.hello) && Verify(c.expected, c.hello.role, c.hello.token).Some?
       && |c.codec.helloJson(c.hello)| <= MAX_FRAME && |c.codec.responseJson(ErrorResponse())| <= MAX_FRAME {
      var id := "00000000000000000000000000000000";
      var acts := ExchangeRun(c, id);
      InitInv(c);
      RunKeepsInv(c, Init(c), acts);
      hide Faithful, ValidRun, Final;
      assert CanReject(c, acts);
    }
  }

  /** A relay that has read the client's frame answers a valid hello, and answers nothing else. */
  lemma RelayAlwaysAnswers(c: Config, s: State, acts: seq<Action>, id: string)
    requires Reached(c, s, acts) && RelayEnabled(s, RelayDecides(id))
    ensures var s' := RelayApply(c, s, RelayDecides(id));
      && (ValidHello(c.hello) ==>
            s'.decided == Some(Answer(c, id)) && s'.relay == RelaySending(ResponseFrame(c, Answer(c, id)), c.hello))
      && (!ValidHello(c.hello) ==> s'.decided == None && s'.relay == RelayFailed)
  {
    InitInv(c);
    RunKeepsInv(c, Init(c), acts);
    ReadsWholeFrame(c.codec.helloJson(c.hello), s.toRelay.sent, s.relay.got);
    hide Encode, ValidRun, Final;
  }

  // ----- The contract can be met -----

  predicate Ascii(s: string) {
    forall i :: 0 <= i < |s| ==> s[i] < '\U{0080}'
  }

  function ToBytes(s: string): (b: seq<byte>)
    requires Ascii(s)
  {
    seq(|s|, i requires 0 <= i < |s| => s[i] as int)
  }

  function FromBytes(b: seq<byte>): string {
    seq(|b|, i requires 0 <= i < |b| => b[i] as int as char)
  }

  lemma TextRoundTrip(s: string)
    requires Ascii(s)
    ensures |ToBytes(s)| == |s| && FromBytes(ToBytes(s)) == s
  {
  }

  /** Version, length of the role, role, token. */
  function PlainHello(h: Hello): seq<byte> {
    if h.version < 256 && |h.role| < 256 && Ascii(h.role) && Ascii(h.token)
    then [h.version, |h.role|] + ToBytes(h.role) + ToBytes(h.token) else []
  }

  function ParsePlainHello(b: seq<byte>): Option<Hello> {
    if |b| < 2 then None
    else
      var tail, n: int := b[2..], b[1] as int;
      if |tail| < n then None else Some(Hello(b[0], FromBytes(tail[..n]), FromBytes(tail[n..])))
  }

  /** One byte for the status, then the session id. */
  function PlainResponse(r: Response): seq<byte> {
    if r.status == STATUS_OK && Ascii(r.sessionId) then [1] + ToBytes(r.sessionId) else [0]
  }

  function ParsePlainResponse(b: seq<byte>): Option<Response> {
    if b == [] then None else if b[0] == 1 then Some(OkResponse(FromBytes(b[1..]))) else Some(ErrorResponse())
  }

  /** A codec for the two records, simpler than JSON. */
  function PlainCodec(): Codec {
    Codec(PlainHello, ParsePlainHello, PlainResponse, ParsePlainResponse)
  }

  /** Some codec meets the contract, for trusted, untrusted and invalid hellos alike. */
  lemma PlainCodecIsFaithful(hello: Hello, expected: map<string, string>)
    requires hello.version < 256 && |hello.role| < 256 && |hello.token| <= MAX_FRAME - 258
    requires Ascii(hello.role) && Ascii(hello.token)
    ensures var c := Config(PlainCodec(), hello, expected);
      && Faithful(c)
      && 0 < |c.codec.helloJson(hello)| <= MAX_FRAME
      && forall id :: IsSessionId(id) ==> 0 < |c.codec.responseJson(OkResponse(id))| <= MAX_FRAME
  {
    var c := Config(PlainCodec(), hello, expected);
    var b, n := PlainHello(hello), |hello.role|;
    TextRoundTrip(hello.role);
    TextRoundTrip(hello.token);
    assert b[2..] == ToBytes(hello.role) + ToBytes(hello.token);
    assert b[2..][..n] == ToBytes(hello.role) && b[2..][n..] == ToBytes(hello.token);
    forall id | IsSessionId(id)
      ensures ReadsBack(c, OkResponse(id)) && |c.codec.responseJson(OkResponse(id))| == SESSION_ID_LEN + 1
    {
      TextRoundTrip(id);
      assert PlainResponse(OkResponse(id))[1..] == ToBytes(id);
    }
  }

  // ----- What is free in an exchange -----

  /** Both sides read and write in pieces of any size, never past the frame, and never the body of an oversized one. */
  lemma AnyChunk(s: State, k: nat)
    requires k > 0
    ensures Enabled(s, ClientWrites(k)) <==> s.client.ClientSending? && k <= |s.client.left|
    ensures Enabled(s, RelayWrites(k)) <==> s.relay.RelaySending? && k <= |s.relay.left|
    ensures Enabled(s, ClientReads(k)) <==>
      s.client.ClientReading? && !TooBig(s.client.got) && k <= Wanted(s.client.got) && k <= Unread(s.toClient)
    ensures Enabled(s, RelayReads(k)) <==>
      s.relay.RelayReading? && !TooBig(s.relay.got) && k <= Wanted(s.relay.got) && k <= Unread(s.toRelay)
  {
  }

  /** Until it has its verdict or has given it, either side can give up, and then has no session. */
  lemma CanGiveUp(c: Config, s: State)
    ensures Enabled(s, ClientGivesUp) <==> s.client.ClientSending? || s.client.ClientReading?
    ensures Enabled(s, ClientGivesUp) ==> Apply(c, s, ClientGivesUp).client.ClientFailed?
    ensures Enabled(s, RelayGivesUp) <==> s.relay.RelayReading? || s.relay.RelaySending?
    ensures Enabled(s, RelayGivesUp) ==> Apply(c, s, RelayGivesUp).relay.RelayFailed?
  {
  }

  /** Over a connection with both sessions, whatever one mux writes the other can read next. */
  lemma MuxDelivers(c: Config, s: State, data: seq<byte>)
    requires s.client.ClientSession? && s.relay.RelaySession? && Unread(s.toRelay) == 0 == Unread(s.toClient)
    ensures Enabled(s, ClientMuxWrites(data)) && Enabled(s, RelayMuxWrites(data))
    ensures var s' := Apply(c, s, ClientMuxWrites(data));
      Enabled(s', RelayMuxReads(|data|)) && Chunk(s'.toRelay, |data|) == data && s'.toClient == s.toClient
    ensures var s' := Apply(c, s, RelayMuxWrites(data));
      Enabled(s', ClientMuxReads(|data|)) && Chunk(s'.toClient, |data|) == data && s'.toRelay == s.toRelay
  {
  }

  // ----- The client against any relay -----

  /** What a client makes of a response, whoever sent it. */
  lemma ClientOutcomeIff(r: Response, at: nat)
    ensures ClientOutcome(None, at) == ClientFailed
    ensures var o := ClientOutcome(Some(r), at);
      && (o.ClientSession? <==> r.version == 1 && r.status == "ok")
      && (o.ClientRejected? <==> r.version == 1 && r.status == "error")
      && (o.ClientFailed? <==> !o.ClientSession? && !o.ClientRejected?)
      && (o.ClientSession? ==> o.id == r.sessionId && o.at == at)
      && (o.ClientRejected? ==> o.reason == if r.errorCode == "" then "authentication failed" else r.errorCode)
  {
  }

  /** The bytes before `at` are one whole frame, and this is what it parses to. */
  predicate Heard(c: Config, stream: seq<byte>, at: nat, r: Response) {
    && at <= |stream| && FrameRead(stream[..at]) && NotBeyond(stream[..at])
    && c.codec.parseResponse(stream[..at][HEADER_LEN..]) == Some(r)
  }

  /** Anything at all may arrive at the client. */
  datatype Hearing = Arrives(data: seq<byte>) | ClientDoes(a: Action)

  predicate HearingEnabled(s: State, h: Hearing) {
    h.ClientDoes? ==> ClientStep(h.a) && ClientEnabled(s, h.a)
  }

  function HearingApply(c: Config, s: State, h: Hearing): State
    requires HearingEnabled(s, h)
  {
    match h
    case Arrives(data) => s.(toClient := s.toClient.(sent := s.toClient.sent + data))
    case ClientDoes(a) => ClientApply(c, s, a)
  }

  ghost predicate ValidHearing(c: Config, s: State, hs: seq<Hearing>)
    decreases |hs|
  {
    hs == [] || (HearingEnabled(s, hs[0]) && ValidHearing(c, HearingApply(c, s, hs[0]), hs[1..]))
  }

  ghost function AfterHearing(c: Config, s: State, hs: seq<Hearing>): State
    requires ValidHearing(c, s, hs)
    decreases |hs|
  {
    if hs == [] then s else AfterHearing(c, HearingApply(c, s, hs[0]), hs[1..])
  }

  ghost predicate HearingSound(c: Config, s: State) {
    && s.toClient.taken <= |s.toClient.sent|
    && match s.client
       case ClientSending(_) => s.toClient.taken == 0
       case ClientReading(got) => got == s.toClient.sent[..s.toClient.taken] && NotBeyond(got)
       case ClientSession(id, at) =>
         at <= s.toClient.taken
         && exists r :: Heard(c, s.toClient.sent, at, r) && ClientOutcome(Some(r), at) == s.client
       case ClientRejected(_) =>
         exists at, r :: Heard(c, s.toClient.sent, at, r) && ClientOutcome(Some(r), at) == s.client
       case ClientFailed => true
  }

  lemma HeardMore(c: Config, stream: seq<byte>, data: seq<byte>, at: nat, r: Response)
    requires Heard(c, stream, at, r)
    ensures Heard(c, stream + data, at, r)
  {
    assert (stream + data)[..at] == stream[..at];
  }

  lemma ArrivalKeepsSound(c: Config, s: State, data: seq<byte>)
    requires HearingSound(c, s)
    ensures HearingSound(c, HearingApply(c, s, Arrives(data)))
  {
    hide NotBeyond, Heard, ClientOutcome;
    match s.client
    case ClientReading(_) =>
      assert (s.toClient.sent + data)[..s.toClient.taken] == s.toClient.sent[..s.toClient.taken];
    case ClientSession(_, at) =>
      var r :| Heard(c, s.toClient.sent, at, r) && ClientOutcome(Some(r), at) == s.client;
      HeardMore(c, s.toClient.sent, data, at, r);
    case ClientRejected(_) =>
      var at, r :| Heard(c, s.toClient.sent, at, r) && ClientOutcome(Some(r), at) == s.client;
      HeardMore(c, s.toClient.sent, data, at, r);
    case _ =>
  }

  lemma DecisionKeepsHearing(c: Config, s: State)
    requires HearingSound(c, s) && ClientEnabled(s, ClientDecides)
    ensures HearingSound(c, ClientApply(c, s, ClientDecides))
  {
    var at := s.toClient.taken;
    var r := c.codec.parseResponse(s.client.got[HEADER_LEN..]);
    if r.Some? {
      assert Heard(c, s.toClient.sent, at, r.value);
      hide Heard, NotBeyond, FrameRead;
    }
  }

  lemma ClientStepKeepsHearing(c: Config, s: State, a: Action)
    requires HearingSound(c, s) && ClientStep(a) && ClientEnabled(s, a)
    ensures HearingSound(c, ClientApply(c, s, a))
  {
    match a
    case ClientDecides => DecisionKeepsHearing(c, s);
    case ClientReads(k) =>
      ReadStaysWithin(s.client.got, Chunk(s.toClient, k));
      TakeExtends(s.toClient, s.client.got, k);
      hide Wanted, NotBeyond, FrameRead, Heard, ClientOutcome;
    case _ => hide Wanted, NotBeyond, FrameRead, Heard, ClientOutcome;
  }

  lemma {:induction false} HearingKeepsSound(c: Config, s: State, hs: seq<Hearing>)
    requires HearingSound(c, s) && ValidHearing(c, s, hs)
    ensures HearingSound(c, AfterHearing(c, s, hs))
    decreases |hs|
  {
    if hs != [] {
      hide HearingSound, ClientApply, ClientEnabled;
      if hs[0].Arrives? {
        ArrivalKeepsSound(c, s, hs[0].data);
      } else {
        ClientStepKeepsHearing(c, s, hs[0].a);
      }
      HearingKeepsSound(c, HearingApply(c, s, hs[0]), hs[1..]);
    }
  }

  /**
  Whatever the client hears, in whatever pieces: a session or a rejection comes only from the
  first whole frame, of version 1 and with status "ok" or "error", and the mux of a session
  starts right behind it.
  */
  lemma AnyRelayIsHeardExactly(c: Config, hs: seq<Hearing>)
    requires ValidHearing(c, Init(c), hs)
    ensures var s := AfterHearing(c, Init(c), hs);
      && (s.client.ClientSession? ==>
            exists r :: Heard(c, s.toClient.sent, s.client.at, r)
              && r.version == 1 && r.status == "ok" && r.sessionId == s.client.id)
      && (s.client.ClientRejected? ==>
            exists at, r :: Heard(c, s.toClient.sent, at, r) && r.version == 1 && r.status == "error"
              && s.client.reason == if r.errorCode == "" then "authentication failed" else r.errorCode)
  {
    HearingKeepsSound(c, Init(c), hs);
    var s := AfterHearing(c, Init(c), hs);
    hide Heard;
    if s.client.ClientSession? {
      var r :| Heard(c, s.toClient.sent, s.client.at, r) && ClientOutcome(Some(r), s.client.at) == s.client;
      ClientOutcomeIff(r, s.client.at);
    } else if s.client.ClientRejected? {
      var at, r :| Heard(c, s.toClient.sent, at, r) && ClientOutcome(Some(r), at) == s.client;
      ClientOutcomeIff(r, at);
    }
  }

  // ----- The relay against any peer -----

  /** A peer that sends whatever it likes, in place of the client. */
  datatype PeerAction = PeerSends(data: seq<byte>) | RelayDoes(a: Action)

  predicate PeerEnabled(s: State, p: PeerAction) {
    p.RelayDoes? ==> !ClientStep(p.a) && RelayEnabled(s, p.a)
  }

  function PeerApply(c: Config, s: State, p: PeerAction): State
    requires PeerEnabled(s, p)
  {
    match p
    case PeerSends(data) => s.(toRelay := s.toRelay.(sent := s.toRelay.sent + data))
    case RelayDoes(a) => RelayApply(c, s, a)
  }

  ghost predicate ValidPeerRun(c: Config, s: State, ps: seq<PeerAction>)
    decreases |ps|
  {
    ps == [] || (PeerEnabled(s, ps[0]) && ValidPeerRun(c, PeerApply(c, s, ps[0]), ps[1..]))
  }

  ghost function FinalWithPeer(c: Config, s: State, ps: seq<PeerAction>): State
    requires ValidPeerRun(c, s, ps)
    decreases |ps|
  {
    if ps == [] then s else FinalWithPeer(c, PeerApply(c, s, ps[0]), ps[1..])
  }

  /** The stream's first frame ends before `at`, and is this hello. */
  predicate OpensWith(c: Config, stream: seq<byte>, hello: Hello, at: nat) {
    && at <= |stream|
    && FrameRead(stream[..at]) && NotBeyond(stream[..at])
    && c.codec.parseHello(stream[..at][HEADER_LEN..]) == Some(hello)
    && ValidHello(hello)
  }

  ghost predicate PeerSound(c: Config, s: State) {
    && s.toRelay.taken <= |s.toRelay.sent|
    && match s.relay
       case RelayReading(got) =>
         got == s.toRelay.sent[..s.toRelay.taken] && NotBeyond(got) && s.decided.None? && s.toClient.sent == []
       case RelaySending(left, hello) =>
         && OpensWith(c, s.toRelay.sent, hello, s.toRelay.taken)
         && s.decided.Some?
         && s.decided.value == (if Verify(c.expected, hello.role, hello.token).None?
                                then OkResponse(s.decided.value.sessionId) else ErrorResponse())
         && s.toClient.sent + left == ResponseFrame(c, s.decided.value)
       case RelaySession(role, id, at) =>
         && at <= s.toRelay.taken
         && (exists h ::
               OpensWith(c, s.toRelay.sent, h, at) && h.role == role && Verify(c.expected, h.role, h.token).None?)
         && ResponseFrame(c, OkResponse(id)) <= s.toClient.sent
       case RelayFailed => true
  }

  lemma OpensWithMore(c: Config, stream: seq<byte>, data: seq<byte>, h: Hello, at: nat)
    requires OpensWith(c, stream, h, at)
    ensures OpensWith(c, stream + data, h, at)
  {
    assert (stream + data)[..at] == stream[..at];
  }

  lemma PeerSendKeepsSound(c: Config, s: State, data: seq<byte>)
    requires PeerSound(c, s)
    ensures PeerSound(c, PeerApply(c, s, PeerSends(data)))
  {
    hide NotBeyond, FrameRead, OpensWith, Encode;
    match s.relay
    case RelayReading(_) =>
      assert (s.toRelay.sent + data)[..s.toRelay.taken] == s.toRelay.sent[..s.toRelay.taken];
    case RelaySending(_, h) => OpensWithMore(c, s.toRelay.sent, data, h, s.toRelay.taken);
    case RelaySession(role, _, at) =>
      var h :| OpensWith(c, s.toRelay.sent, h, at) && h.role == role && Verify(c.expected, h.role, h.token).None?;
      OpensWithMore(c, s.toRelay.sent, data, h, at);
    case RelayFailed =>
  }

  lemma ReadKeepsPeerSound(c: Config, s: State, k: nat)
    requires PeerSound(c, s) && RelayEnabled(s, RelayReads(k))
    ensures PeerSound(c, RelayApply(c, s, RelayReads(k)))
  {
    ReadStaysWithin(s.relay.got, Chunk(s.toRelay, k));
    TakeExtends(s.toRelay, s.relay.got, k);
    hide Wanted, NotBeyond, Encode, FrameRead, OpensWith, Verify;
  }

  lemma DecisionKeepsPeerSound(c: Config, s: State, id: string)
    requires PeerSound(c, s) && RelayEnabled(s, RelayDecides(id))
    ensures PeerSound(c, RelayApply(c, s, RelayDecides(id)))
  {
    hide NotBeyond, FrameRead, Encode, Verify;
  }

  lemma RelayStepKeepsPeerSound(c: Config, s: State, a: Action)
    requires PeerSound(c, s) && !ClientStep(a) && RelayEnabled(s, a)
    ensures PeerSound(c, RelayApply(c, s, a))
  {
    hide Wanted, NotBeyond, Encode, FrameRead, OpensWith, Verify;
    match a
    case RelayReads(k) => ReadKeepsPeerSound(c, s, k);
    case RelayDecides(id) => DecisionKeepsPeerSound(c, s, id);
    case RelayWrites(k) => assert s.relay.left == s.relay.left[..k] + s.relay.left[k..];
    case _ =>
  }

  lemma {:induction false} PeerRunKeepsSound(c: Config, s: State, ps: seq<PeerAction>)
    requires PeerSound(c, s) && ValidPeerRun(c, s, ps)
    ensures PeerSound(c, FinalWithPeer(c, s, ps))
    decreases |ps|
  {
    if ps != [] {
      hide PeerSound, RelayApply, RelayEnabled;
      if ps[0].PeerSends? {
        PeerSendKeepsSound(c, s, ps[0].data);
      } else {
        RelayStepKeepsPeerSound(c, s, ps[0].a);
      }
      PeerRunKeepsSound(c, PeerApply(c, s, ps[0]), ps[1..]);
    }
  }

  /** A first frame that readFrame accepts, with the mux starting at the byte behind it. */
  lemma OpensWithDecodes(c: Config, stream: seq<byte>, h: Hello, at: nat)
    requires OpensWith(c, stream, h, at)
    ensures Decode(stream).Frame? && Decode(stream).rest == stream[at..]
    ensures c.codec.parseHello(Decode(stream).body) == Some(h) && ValidHello(h)
  {
    var got := stream[..at];
    assert stream[..HEADER_LEN] == got[..HEADER_LEN];
    assert stream[HEADER_LEN..][..at - HEADER_LEN] == got[HEADER_LEN..];
    assert stream[HEADER_LEN..][at - HEADER_LEN..] == stream[at..];
  }

  /** The body is a valid hello of this role, with the token the relay expects of it. */
  predicate Trusts(c: Config, body: seq<byte>, role: string) {
    var h := c.codec.parseHello(body);
    && h.Some? && h.value.version == 1 && h.value.role == role && (role == "exit-node" || role == "proxy")
    && role in c.expected && h.value.token != "" && c.expected[role] == h.value.token
  }

  /**
  Whatever the peer sends, in whatever pieces and however the codec parses it: a relay session
  implies that the bytes consumed before the mux are exactly the first frame of the stream, and
  that this frame parses to a valid hello whose role and token are trusted.
  */
  lemma AnyPeerMustEarn(c: Config, ps: seq<PeerAction>)
    requires ValidPeerRun(c, Init(c), ps) && FinalWithPeer(c, Init(c), ps).relay.RelaySession?
    ensures var s := FinalWithPeer(c, Init(c), ps);
      var d := Decode(s.toRelay.sent);
      && d.Frame? && s.relay.at <= |s.toRelay.sent| && d.rest == s.toRelay.sent[s.relay.at..]
      && Trusts(c, d.body, s.relay.role)
      && ResponseFrame(c, OkResponse(s.relay.id)) <= s.toClient.sent
  {
    PeerRunKeepsSound(c, Init(c), ps);
    var s := FinalWithPeer(c, Init(c), ps);
    hide Decode, OpensWith, Encode, FrameRead, NotBeyond;
    var h :| OpensWith(c, s.toRelay.sent, h, s.relay.at)
          && h.role == s.relay.role && Verify(c.expected, h.role, h.token).None?;
    OpensWithDecodes(c, s.toRelay.sent, h, s.relay.at);
  }
}
