/**
 The peer-to-peer transfer protocol (core/src/webrtc/webrtc.rs): the sending
 task of `send_offer` and the receiving task of `accept_offer`, each a program
 whose states are the points where it sends, receives or asks its application,
 carrying only the variables still in use there.
 */
module Transfer {
  import opened Prelude
  import opened Channel
  import opened Framing
  import Base64

  // ----- Messages -----------------------------------------------------------

  datatype FileDto = FileDto(id: string, name: string, size: nat)

  datatype TokenResponse = TokenOk(token: string) | TokenPinRequired(token: string) | TokenInvalidSignature

  /** Answers of whoever verifies a PIN; only the sender's `Ok` carries the file list. */
  datatype PinResponse<+T> = PinOk(value: T) | PinRequired | TooManyAttempts

  datatype FileListResponse =
    | ListOk(tokens: map<string, string>)
    | ListPair(publicKey: string)
    | ListDeclined
    | ListInvalidSignature

  datatype Header = Header(id: string, token: string)

  datatype FileResponse = FileResponse(id: string, success: bool, error: Option<string>)

  /** How serde writes one message type as JSON text, and reads it. */
  datatype Codec<!T> = Codec(write: T -> Bytes, read: Bytes -> Option<T>)

  ghost predicate RoundTrips<T(!new)>(c: Codec<T>) {
    forall v :: c.read(c.write(v)) == Some(v)
  }

  lemma Reads<T(!new)>(c: Codec<T>, v: T)
    requires RoundTrips(c)
    ensures c.read(c.write(v)) == Some(v)
  {
  }

  ghost predicate TakesMoreThanOneByte<T>(c: Codec<T>) {
    forall b :: |b| <= 1 ==> c.read(b) == None
  }

  ghost predicate NeverEmpty<T(!new)>(c: Codec<T>) {
    forall v :: c.write(v) != []
  }

  datatype Json = Json(
    nonce: Codec<string>,
    tokenRequest: Codec<string>,
    tokenResponse: Codec<TokenResponse>,
    pin: Codec<string>,
    pinReceiving: Codec<PinResponse<()>>,
    pinSending: Codec<PinResponse<seq<FileDto>>>,
    fileList: Codec<FileListResponse>,
    header: Codec<Header>,
    fileResponse: Codec<FileResponse>)
  {
    /**
     JSON text of each type reads back and is never empty; a header is an object,
     which takes more than one byte; empty text is no JSON.
     */
    ghost predicate Lawful() {
      && RoundTrips(nonce) && RoundTrips(tokenRequest) && RoundTrips(tokenResponse) && RoundTrips(pin)
      && RoundTrips(pinReceiving) && RoundTrips(pinSending) && RoundTrips(fileList)
      && RoundTrips(header) && RoundTrips(fileResponse)
      && NeverEmpty(nonce) && NeverEmpty(tokenRequest) && NeverEmpty(tokenResponse) && NeverEmpty(pin)
      && NeverEmpty(pinReceiving) && NeverEmpty(header) && NeverEmpty(fileResponse)
      && TakesMoreThanOneByte(header)
      && pinSending.read([]) == None
    }
  }

  // ----- What the two applications contribute -------------------------------

  datatype PinConfig = PinConfig(pin: string, maxTries: u8)

  /** A file the sending application streams, cut into pieces as it likes. */
  datatype Outgoing = Outgoing(id: string, pieces: seq<Bytes>)

  /** `trusts` is `verify_token_nonce` with the expected key, or accepts all if none is expected. */
  datatype SenderEnv = SenderEnv(
    nonce: Bytes,
    sign: Bytes -> string,
    trusts: (string, Bytes) -> bool,
    pin: Option<PinConfig>,
    entered: seq<string>,
    files: seq<FileDto>,
    outgoing: seq<Outgoing>)

  datatype Selection = Dropped | Refused | Chosen(ids: set<string>)

  datatype UserResult = UserResult(success: bool, error: Option<string>)

  datatype ReceiverEnv = ReceiverEnv(
    nonce: Bytes,
    sign: Bytes -> string,
    trusts: (string, Bytes) -> bool,
    pin: Option<PinConfig>,
    entered: seq<string>,
    selection: Selection,
    fileToken: string -> string,
    results: seq<UserResult>)

  /** How a task ends. */
  datatype Ending = Finished | Declined | Abandoned | Failed

  /**
   What a task tells its application. `Agreed` records the nonce it goes on with,
   and `Selected` its map of file tokens, whose keys it publishes.
   */
  datatype Event =
    | Agreed(nonce: Bytes)
    | AskedForPin
    | GaveUp
    | Connected
    | WasDeclined
    | Published(files: seq<FileDto>)
    | Selected(tokens: map<string, string>)
    | Opened(id: string)
    | Data(id: string, bytes: Bytes)
    | Closed(id: string)
    | FileError(id: string, error: string)

  function SendJson(bytes: Bytes): seq<Msg> {
    [Text(bytes)]
  }

  predicate ValidNonce(nonce: Bytes) {
    16 <= |nonce| <= 128
  }

  /** `receive_nonce`: text, JSON, base64, length. */
  function ReadNonce(json: Json, m: Msg): Option<Bytes> {
    if m.Binary? then None
    else
      var text := json.nonce.read(m.data);
      if text == None then None
      else
        var nonce := Base64.Decode(text.value);
        if nonce.Some? && ValidNonce(nonce.value) then nonce else None
  }

  /** The head of the loop of `verify_pin`. */
  datatype Verdict = Accept | Refuse | Ask(notify: bool)

  function Judge(config: PinConfig, remotePin: string, tries: nat, notice: bool): Verdict {
    if remotePin == config.pin then Accept
    else if tries >= config.maxTries as nat then Refuse
    else Ask(notice || tries > 0)
  }

  // ----- The sender ---------------------------------------------------------

  datatype Sender =
    | SendNonce
    | AwaitNonce
    | SendToken(nonce: Bytes)
    | AwaitToken(nonce: Bytes)
    | EnterPin(entered: nat)
    | AwaitPinReply(entered: nat)
    | StartPinCheck
    | CheckPin(remotePin: string, tries: nat, notice: bool)
    | AwaitPin(tries: nat)
    | GiveUp
    | Stream(feed: Feed, next: Sender)
    | Delimit(next: Sender)
    | AwaitFileTokens(buffer: Bytes)
    | NextFile(tokens: map<string, string>, index: nat)
    | Finish
    | AwaitLastReply
    | Ended(ending: Ending)

  function SenderMode(s: Sender): Mode {
    match s
    case Ended(_) => Halted
    case AwaitNonce | AwaitToken(_) | AwaitPinReply(_) | AwaitPin(_) | AwaitFileTokens(_) | AwaitLastReply => Waiting
    case _ => Running
  }

  function SendString(bytes: Bytes, next: Sender): Sender {
    Stream(Feed([], [bytes]), Delimit(next))
  }

  function SenderRun(env: SenderEnv, json: Json, s: Sender): Move<Sender, Event> {
    match s
    case SendNonce =>
      Move(AwaitNonce, SendJson(json.nonce.write(Base64.Encode(env.nonce))), [])
    case SendToken(nonce) =>
      Move(AwaitToken(nonce), SendJson(json.tokenRequest.write(env.sign(nonce))), [])
    case EnterPin(k) =>
      if k < |env.entered| then Move(AwaitPinReply(k + 1), SendJson(json.pin.write(env.entered[k])), [AskedForPin])
      else Move(Ended(Failed), [], [AskedForPin])
    case StartPinCheck =>
      if env.pin == None then Move(SendFileList(env, json), [], [Connected])
      else Move(CheckPin("", 0, true), [], [AskedForPin])
    case CheckPin(remotePin, tries, notice) =>
      if env.pin == None then Move(Ended(Failed), [], [])
      else (match Judge(env.pin.value, remotePin, tries, notice)
            case Accept => Move(SendFileList(env, json), [], [Connected])
            case Refuse =>
              Move(SendString(json.pinSending.write(TooManyAttempts), GiveUp), [], [])
            case Ask(notify) =>
              Move(if notify then SendString(json.pinSending.write(PinRequired), AwaitPin(tries))
                   else AwaitPin(tries), [], []))
    case GiveUp => Move(Ended(Failed), [], [GaveUp])
    case Stream(feed, next) =>
      (match feed.Step()
       case Emit(chunk, rest) => Move(Stream(rest, next), [Binary(chunk)], [])
       case Absorb(rest) => Move(Stream(rest, next), [], [])
       case Drained => Move(next, [], []))
    case Delimit(next) => Move(next, [DELIMITER], [])
    case NextFile(tokens, k) =>
      if k >= |env.outgoing| then Move(Finish, [], [])
      else
        var file := env.outgoing[k];
        if file.id !in tokens then Move(NextFile(tokens, k + 1), [], [FileError(file.id, "Failed to get file token")])
        else Move(Stream(Feed([], file.pieces), NextFile(tokens, k + 1)),
                  SendJson(json.header.write(Header(file.id, tokens[file.id]))), [])
    case Finish => Move(AwaitLastReply, [DELIMITER], [])
    case _ => Move(s, [], [])
  }

  function SendFileList(env: SenderEnv, json: Json): Sender {
    SendString(json.pinSending.write(PinOk(env.files)), AwaitFileTokens([]))
  }

  function SenderReceive(env: SenderEnv, json: Json, s: Sender, m: Msg): Move<Sender, Event> {
    match s
    case AwaitNonce =>
      var remote := ReadNonce(json, m);
      if remote == None then Move(Ended(Failed), [], [])
      else
        var nonce := env.nonce + remote.value;
        Move(SendToken(nonce), [], [Agreed(nonce)])
    case AwaitToken(nonce) =>
      var response := if m.Text? then json.tokenResponse.read(m.data) else None;
      if response == None || response.value.TokenInvalidSignature? then Move(Ended(Failed), [], [])
      else if !env.trusts(response.value.token, nonce) then Move(Ended(Failed), [], [])
      else Move(if response.value.TokenPinRequired? then EnterPin(0) else StartPinCheck, [], [])
    case AwaitPinReply(k) =>
      var response := if m.Text? then json.pinReceiving.read(m.data) else None;
      if response == None then Move(Ended(Failed), [], [])
      else (match response.value
            case PinOk(_) => Move(StartPinCheck, [], [])
            case PinRequired => Move(EnterPin(k), [], [])
            case TooManyAttempts => Move(Ended(Failed), [], [GaveUp]))
    case AwaitPin(tries) =>
      // The kind of the message is not checked here.
      var pin := json.pin.read(m.data);
      if pin == None then Move(Ended(Failed), [], [])
      else Move(CheckPin(pin.value, tries + 1, false), [], [])
    case AwaitFileTokens(buffer) =>
      if m.Binary? then Move(AwaitFileTokens(buffer + m.data), [], [])
      else
        var response := json.fileList.read(buffer);
        if response == None then Move(Ended(Failed), [], [])
        else (match response.value
              case ListOk(tokens) => Move(NextFile(tokens, 0), [], [Selected(tokens)])
              case ListDeclined => Move(Ended(Declined), [], [WasDeclined])
              case ListInvalidSignature => Move(Ended(Failed), [], [])
              case ListPair(_) => Move(Ended(Failed), [], []))
    case AwaitLastReply => Move(Ended(Finished), [], [])
    case _ => Move(s, [], [])
  }

  // ----- The receiver -------------------------------------------------------

  /** What the receiver does with a string that arrives in chunks. */
  datatype Purpose = FirstStatus | PinReply(entered: nat)

  /** What was offered and which tokens were handed out for it. */
  datatype Plan = Plan(files: seq<FileDto>, tokens: map<string, string>)

  datatype Receiver =
    | RAwaitNonce
    | RSendNonce(remote: Bytes)
    | RAwaitToken(nonce: Bytes)
    | RSendToken(nonce: Bytes, remoteToken: string)
    | RStartPinCheck
    | RCheckPin(remotePin: string, tries: nat)
    | RAwaitPin(tries: nat)
    | RConfirmPin
    | RAwaitString(buffer: Bytes, purpose: Purpose)
    | REnterPin(entered: nat)
    | RChoose(files: seq<FileDto>)
    | RStream(feed: Feed, next: Receiver)
    | RDelimit(next: Receiver)
    | RAwaitFile(plan: Plan, open: Option<string>, done: nat)
    | RReply(plan: Plan, id: string, done: nat, m: Msg)
    | REnded(ending: Ending)

  function ReceiverMode(r: Receiver): Mode {
    match r
    case REnded(_) => Halted
    case RAwaitNonce | RAwaitToken(_) | RAwaitPin(_) | RAwaitString(_, _) | RAwaitFile(_, _, _) => Waiting
    case _ => Running
  }

  function RSendString(bytes: Bytes, next: Receiver): Receiver {
    RStream(Feed([], [bytes]), RDelimit(next))
  }

  function FileTokens(env: ReceiverEnv): map<string, string> {
    if env.selection.Chosen? then map id | id in env.selection.ids :: env.fileToken(id) else map[]
  }

  /** The user's word on the k-th received file, as an error or none. */
  function UserError(env: ReceiverEnv, k: nat): Option<string> {
    if k >= |env.results| then Some("Failed to receive file result")
    else if env.results[k].success then None
    else if env.results[k].error == None then Some("Unknown error")
    else env.results[k].error
  }

  function Reply(env: ReceiverEnv, id: string, k: nat): FileResponse {
    FileResponse(id, UserError(env, k) == None, UserError(env, k))
  }

  predicate Listed(files: seq<FileDto>, id: string) {
    exists i :: 0 <= i < |files| && files[i].id == id
  }

  /** A string message that opens a file, is refused, or ends the task. */
  function OpenFile(json: Json, plan: Plan, done: nat, m: Msg): Move<Receiver, Event> {
    var header := json.header.read(m.data);
    if header == None then Move(REnded(Failed), [], [])
    else
      var id := header.value.id;
      if id !in plan.tokens then Move(RAwaitFile(plan, None, done), [], [FileError(id, "File not found")])
      else if header.value.token != plan.tokens[id] then
        Move(RAwaitFile(plan, None, done), [], [FileError(id, "Invalid token")])
      else if !Listed(plan.files, id) then
        Move(RAwaitFile(plan, None, done), [], [FileError(id, "Expected size to be available")])
      else Move(RAwaitFile(plan, Some(id), done), [], [Opened(id)])
  }

  function ReceiverRun(env: ReceiverEnv, json: Json, r: Receiver): Move<Receiver, Event> {
    match r
    case RSendNonce(remote) =>
      var nonce := remote + env.nonce;
      Move(RAwaitToken(nonce), SendJson(json.nonce.write(Base64.Encode(env.nonce))), [Agreed(nonce)])
    case RSendToken(nonce, remoteToken) =>
      if !env.trusts(remoteToken, nonce) then
        Move(REnded(Failed), SendJson(json.tokenResponse.write(TokenInvalidSignature)), [])
      else if env.pin == None then
        Move(RAwaitString([], FirstStatus), SendJson(json.tokenResponse.write(TokenOk(env.sign(nonce)))), [])
      else
        Move(RStartPinCheck, SendJson(json.tokenResponse.write(TokenPinRequired(env.sign(nonce)))), [])
    case RStartPinCheck => Move(RCheckPin("", 0), [], [AskedForPin])
    case RCheckPin(remotePin, tries) =>
      if env.pin == None then Move(REnded(Failed), [], [])
      else (match Judge(env.pin.value, remotePin, tries, false)
            case Accept => Move(RConfirmPin, [], [])
            case Refuse => Move(REnded(Failed), SendJson(json.pinReceiving.write(TooManyAttempts)), [GaveUp])
            case Ask(notify) =>
              Move(RAwaitPin(tries), if notify then SendJson(json.pinReceiving.write(PinRequired)) else [], []))
    case RConfirmPin =>
      Move(RAwaitString([], FirstStatus), SendJson(json.pinReceiving.write(PinOk(()))), [])
    case REnterPin(k) =>
      if k < |env.entered| then
        Move(RAwaitString([], PinReply(k + 1)), SendJson(json.pin.write(env.entered[k])), [AskedForPin])
      else Move(REnded(Failed), [], [AskedForPin])
    case RChoose(files) =>
      (match env.selection
       case Dropped => Move(REnded(Abandoned), [], [Connected, Published(files)])
       case Refused =>
         Move(RSendString(json.fileList.write(ListDeclined), REnded(Declined)), [], [Connected, Published(files)])
       case Chosen(_) =>
         Move(RSendString(json.fileList.write(ListOk(FileTokens(env))),
                          RAwaitFile(Plan(files, FileTokens(env)), None, 0)), [], [Connected, Published(files)]))
    case RStream(feed, next) =>
      (match feed.Step()
       case Emit(chunk, rest) => Move(RStream(rest, next), [Binary(chunk)], [])
       case Absorb(rest) => Move(RStream(rest, next), [], [])
       case Drained => Move(next, [], []))
    case RDelimit(next) => Move(next, [DELIMITER], [])
    case RReply(plan, id, done, m) =>
      var sent := SendJson(json.fileResponse.write(Reply(env, id, done)));
      if IsDelimiter(m) then Move(REnded(Finished), sent, [])
      else OpenFile(json, plan, done + 1, m).(send := sent)
    case _ => Move(r, [], [])
  }

  function ReceiverReceive(env: ReceiverEnv, json: Json, r: Receiver, m: Msg): Move<Receiver, Event> {
    match r
    case RAwaitNonce =>
      var remote := ReadNonce(json, m);
      if remote == None then Move(REnded(Failed), [], []) else Move(RSendNonce(remote.value), [], [])
    case RAwaitToken(nonce) =>
      var token := if m.Text? then json.tokenRequest.read(m.data) else None;
      if token == None then Move(REnded(Failed), [], []) else Move(RSendToken(nonce, token.value), [], [])
    case RAwaitPin(tries) =>
      // The kind of the message is not checked here.
      var pin := json.pin.read(m.data);
      if pin == None then Move(REnded(Failed), [], []) else Move(RCheckPin(pin.value, tries + 1), [], [])
    case RAwaitString(buffer, purpose) =>
      if m.Binary? then Move(RAwaitString(buffer + m.data, purpose), [], [])
      else ReceiverString(json, buffer, purpose)
    case RAwaitFile(plan, open, done) =>
      if m.Text? then
        if open.Some? then Move(RReply(plan, open.value, done, m), [], [Closed(open.value)])
        else OpenFile(json, plan, done, m)
      else if open.Some? then Move(r, [], [Data(open.value, m.data)])
      else Move(r, [], [FileError("unknown", "Received binary data without a header")])
    case _ => Move(r, [], [])
  }

  /** A complete string: the sender's answer about the PIN, or the file list. */
  function ReceiverString(json: Json, bytes: Bytes, purpose: Purpose): Move<Receiver, Event> {
    var response := json.pinSending.read(bytes);
    if response == None then Move(REnded(Failed), [], [])
    else (match response.value
          case PinOk(files) => Move(RChoose(files), [], [])
          case PinRequired =>
            Move(REnterPin(if purpose.PinReply? then purpose.entered else 0), [], [])
          case TooManyAttempts => Move(REnded(Failed), [], if purpose.PinReply? then [GaveUp] else []))
  }

  // ----- The two together ---------------------------------------------------

  type Peers = Net<Sender, Receiver, Event>

  /** The kind of message a task parses where it takes just one. */
  predicate SenderExpects(s: Sender, m: Msg) {
    match s
    case AwaitFileTokens(_) => true
    case _ => m.Text?
  }

  predicate ReceiverExpects(r: Receiver, m: Msg) {
    match r
    case RAwaitString(_, _) => true
    case RAwaitFile(_, _, _) => true
    case _ => m.Text?
  }

  function SenderTakes(env: SenderEnv, json: Json, strict: bool, s: Sender, m: Msg): Move<Sender, Event> {
    if strict && !SenderExpects(s, m) then Move(Ended(Failed), [], []) else SenderReceive(env, json, s, m)
  }

  function ReceiverTakes(env: ReceiverEnv, json: Json, strict: bool, r: Receiver, m: Msg): Move<Receiver, Event> {
    if strict && !ReceiverExpects(r, m) then Move(REnded(Failed), [], []) else ReceiverReceive(env, json, r, m)
  }

  /**
   The two tasks as they are, or, if strict, as they would be if they also
   refused a PIN or a last reply in a message of the wrong kind. Comparing the
   two shows that no such message ever comes.
   */
  function Protocol(se: SenderEnv, re: ReceiverEnv, json: Json, strict: bool): System<Sender, Receiver, Event> {
    System(
      Program(s => SenderMode(s), s => SenderRun(se, json, s), (s, m) => SenderTakes(se, json, strict, s, m)),
      Program(r => ReceiverMode(r), r => ReceiverRun(re, json, r), (r, m) => ReceiverTakes(re, json, strict, r, m)))
  }

  const OPENING: Peers := Net(SendNonce, RAwaitNonce, [], [], [], [])
}
