/** Server messages and upload requests through the bridge codec: what comes back. */
module BridgeCodec {
  import opened Prelude
  import opened Formats
  import opened BridgeTypes
  import opened Entries

  datatype WsServerSdpMessage = WsServerSdpMessage(peer: ClientInfo, sessionId: Text, sdp: Text)

  datatype WsServerMessage =
    | Hello(client: ClientInfo, peers: seq<ClientInfo>)
    | Join(peer: ClientInfo)
    | Update(peer: ClientInfo)
    | Left(peerId: Uuid)
    | Offer(sdp: WsServerSdpMessage)
    | Answer(sdp: WsServerSdpMessage)
    | Error(code: u16)

  // ----- Server messages: a tag, then the fields of the variant -----------------------

  function OfSdp(m: WsServerSdpMessage): ((ClientInfo, Text), Text) {
    ((m.peer, m.sessionId), m.sdp)
  }

  function ToSdp(f: ((ClientInfo, Text), Text)): Option<WsServerSdpMessage> {
    Some(WsServerSdpMessage(f.0.0, f.0.1, f.1))
  }

  function SdpFieldsFormat(): Format<((ClientInfo, Text), Text)> {
    Pair(Pair(InfoFormat(), TextFormat()), TextFormat())
  }

  function SdpFormat(): Format<WsServerSdpMessage> {
    Via(SdpFieldsFormat(), OfSdp, ToSdp)
  }

  function HelloFormat(): Format<(ClientInfo, seq<ClientInfo>)> {
    Pair(InfoFormat(), List(InfoFormat()))
  }

  function Tag(m: WsServerMessage): i32 {
    match m
    case Hello(_, _) => 0
    case Join(_) => 1
    case Update(_) => 2
    case Left(_) => 3
    case Offer(_) => 4
    case Answer(_) => 5
    case Error(_) => 6
  }

  function PutVariant(acc: Bytes, m: WsServerMessage): Bytes {
    match m
    case Hello(client, peers) => HelloFormat().put(acc, (client, peers))
    case Join(peer) => InfoFormat().put(acc, peer)
    case Update(peer) => InfoFormat().put(acc, peer)
    case Left(peerId) => UuidFormat().put(acc, peerId)
    case Offer(sdp) => SdpFormat().put(acc, sdp)
    case Answer(sdp) => SdpFormat().put(acc, sdp)
    case Error(code) => U16Format().put(acc, code)
  }

  function GetVariant(tag: i32, b: Bytes): Outcome<(WsServerMessage, Bytes)> {
    if tag == 0 then (var v :- HelloFormat().get(b); Value((Hello(v.0.0, v.0.1), v.1)))
    else if tag == 1 then (var v :- InfoFormat().get(b); Value((Join(v.0), v.1)))
    else if tag == 2 then (var v :- InfoFormat().get(b); Value((Update(v.0), v.1)))
    else if tag == 3 then (var v :- UuidFormat().get(b); Value((Left(v.0), v.1)))
    else if tag == 4 then (var v :- SdpFormat().get(b); Value((Offer(v.0), v.1)))
    else if tag == 5 then (var v :- SdpFormat().get(b); Value((Answer(v.0), v.1)))
    else if tag == 6 then (var v :- U16Format().get(b); Value((Error(v.0), v.1)))
    else Panics
  }

  predicate VariantFits(m: WsServerMessage) {
    match m
    case Hello(client, peers) => HelloFormat().fits((client, peers))
    case Join(peer) => InfoFormat().fits(peer)
    case Update(peer) => InfoFormat().fits(peer)
    case Left(peerId) => UuidFormat().fits(peerId)
    case Offer(sdp) => SdpFormat().fits(sdp)
    case Answer(sdp) => SdpFormat().fits(sdp)
    case Error(code) => U16Format().fits(code)
  }

  function PutMessage(acc: Bytes, m: WsServerMessage): Bytes {
    PutVariant(Signed().put(acc, Tag(m)), m)
  }

  function GetMessage(b: Bytes): Outcome<(WsServerMessage, Bytes)> {
    var tag :- Signed().get(b);
    GetVariant(tag.0, tag.1)
  }

  function MessageFormat(): Format<WsServerMessage> {
    Format(PutMessage, GetMessage, VariantFits)
  }

  lemma VariantsAreLawful()
    ensures Lawful(InfoFormat()) && Lawful(UuidFormat()) && Lawful(U16Format())
    ensures Lawful(HelloFormat()) && Lawful(SdpFormat())
  {
    assert Undo(OfSdp, ToSdp);
    hide Lawful, Undo, Pair, List, Via, InfoFormat, TextFormat, UuidFormat, U16Format;
    InfoIsLawful();
    ScalarsAreLawful();
    ListIsLawful(InfoFormat());
    PairIsLawful(InfoFormat(), List(InfoFormat()));
    PairIsLawful(InfoFormat(), TextFormat());
    PairIsLawful(Pair(InfoFormat(), TextFormat()), TextFormat());
    ViaIsLawful(SdpFieldsFormat(), OfSdp, ToSdp);
  }

  lemma VariantLaws(m: WsServerMessage, acc: Bytes, rest: Bytes)
    ensures PutVariant(acc, m) == acc + PutVariant([], m)
    ensures VariantFits(m) ==> GetVariant(Tag(m), PutVariant([], m) + rest) == Value((m, rest))
  {
    VariantsAreLawful();
    hide InfoFormat, UuidFormat, U16Format, HelloFormat, SdpFormat;
  }

  lemma VariantsReadFit(tag: i32, b: Bytes)
    requires GetVariant(tag, b).Value?
    ensures VariantFits(GetVariant(tag, b).value.0)
  {
    VariantsAreLawful();
    hide InfoFormat, UuidFormat, U16Format, HelloFormat, SdpFormat;
  }

  lemma MessageUnfolds(acc: Bytes, m: WsServerMessage, b: Bytes)
    ensures MessageFormat().put(acc, m) == PutVariant(Signed().put(acc, Tag(m)), m)
    ensures MessageFormat().get(b) == GetMessage(b)
    ensures MessageFormat().fits(m) == VariantFits(m)
  {
  }

  lemma MessageBytes(acc: Bytes, m: WsServerMessage)
    ensures MessageFormat().put([], m) == Signed().put([], Tag(m)) + PutVariant([], m)
    ensures MessageFormat().put(acc, m) == acc + MessageFormat().put([], m)
  {
    hide *;
    var tag := Signed().put([], Tag(m));
    MessageUnfolds(acc, m, []);
    MessageUnfolds([], m, []);
    HeaderAppends(acc, Tag(m));
    VariantLaws(m, acc + tag, []);
    VariantLaws(m, tag, []);
    Regroup(acc, tag, PutVariant([], m));
  }

  lemma GetMessageStep(b: Bytes, tag: i32, tail: Bytes)
    requires Signed().get(b) == Value((tag, tail))
    ensures GetMessage(b) == GetVariant(tag, tail)
  {
  }

  lemma MessageReturns(m: WsServerMessage, rest: Bytes)
    requires MessageFormat().fits(m)
    ensures MessageFormat().get(MessageFormat().put([], m) + rest) == Value((m, rest))
  {
    hide *;
    var tag, tail := Signed().put([], Tag(m)), PutVariant([], m) + rest;
    MessageBytes([], m);
    Regroup(tag, PutVariant([], m), rest);
    MessageUnfolds([], m, tag + tail);
    HeaderReturns(Tag(m), tail);
    GetMessageStep(tag + tail, Tag(m), tail);
    VariantLaws(m, [], rest);
  }

  lemma GetMessageReads(b: Bytes)
    requires GetMessage(b).Value?
    ensures Signed().get(b).Value?
    ensures GetMessage(b) == GetVariant(Signed().get(b).value.0, Signed().get(b).value.1)
  {
  }

  lemma MessageReadsFit(b: Bytes)
    requires MessageFormat().get(b).Value?
    ensures MessageFormat().fits(MessageFormat().get(b).value.0)
  {
    hide *;
    MessageUnfolds([], Left(seq(16, _ => 0)), b);
    GetMessageReads(b);
    var tag := Signed().get(b).value;
    VariantsReadFit(tag.0, tag.1);
    MessageUnfolds([], GetMessage(b).value.0, b);
  }

  lemma MessageIsLawful()
    ensures Lawful(MessageFormat())
  {
    hide MessageFormat, Signed, PutVariant;
    forall acc: Bytes, m: WsServerMessage
      ensures MessageFormat().put(acc, m) == acc + MessageFormat().put([], m)
    {
      MessageBytes(acc, m);
    }
    forall m: WsServerMessage, rest: Bytes | MessageFormat().fits(m)
      ensures MessageFormat().get(MessageFormat().put([], m) + rest) == Value((m, rest))
    {
      MessageReturns(m, rest);
    }
    forall b: Bytes | MessageFormat().get(b).Value?
      ensures MessageFormat().fits(MessageFormat().get(b).value.0)
    {
      MessageReadsFit(b);
    }
  }

  predicate ShortMessage(m: WsServerMessage) {
    match m
    case Hello(client, peers) =>
      ShortInfo(client) && |peers| < HALF && forall i :: 0 <= i < |peers| ==> ShortInfo(peers[i])
    case Join(peer) => ShortInfo(peer)
    case Update(peer) => ShortInfo(peer)
    case Offer(sdp) => ShortInfo(sdp.peer) && Short(sdp.sessionId) && Short(sdp.sdp)
    case Answer(sdp) => ShortInfo(sdp.peer) && Short(sdp.sessionId) && Short(sdp.sdp)
    case Left(_) => true
    case Error(_) => true
  }

  lemma SdpFits(m: WsServerSdpMessage)
    ensures SdpFormat().fits(m) <==> ShortInfo(m.peer) && Short(m.sessionId) && Short(m.sdp)
  {
    ViaFits(SdpFieldsFormat(), OfSdp, ToSdp, m);
    InfoFits(m.peer);
    TextFits(m.sessionId);
    TextFits(m.sdp);
    hide Via, InfoFormat, TextFormat, ShortInfo, Short;
  }

  lemma HelloFits(client: ClientInfo, peers: seq<ClientInfo>)
    ensures HelloFormat().fits((client, peers))
       <==> (ShortInfo(client) && |peers| < HALF && forall i :: 0 <= i < |peers| ==> ShortInfo(peers[i]))
  {
    InfoFits(client);
    forall i | 0 <= i < |peers|
      ensures InfoFormat().fits(peers[i]) <==> ShortInfo(peers[i])
    {
      InfoFits(peers[i]);
    }
    hide InfoFormat, ShortInfo;
  }

  lemma MessageFits(m: WsServerMessage)
    ensures MessageFormat().fits(m) <==> ShortMessage(m)
  {
    match m
    case Hello(client, peers) => HelloFits(client, peers);
    case Join(peer) => InfoFits(peer);
    case Update(peer) => InfoFits(peer);
    case Left(peerId) => NumbersFit(peerId, 0, 0);
    case Offer(sdp) => SdpFits(sdp);
    case Answer(sdp) => SdpFits(sdp);
    case Error(code) => NumbersFit(seq(16, _ => 0), code, 0);
    hide InfoFormat, UuidFormat, U16Format, SdpFormat, HelloFormat, ShortInfo, Short;
  }

  /** Wherever a server message is written and whatever follows, reading gives it back exactly if its lengths fit. */
  lemma MessageRoundTrip(acc: Bytes, m: WsServerMessage, rest: Bytes)
    ensures acc <= PutMessage(acc, m)
    ensures GetMessage((PutMessage(acc, m) + rest)[|acc|..]) == Value((m, rest)) <==> ShortMessage(m)
  {
    MessageIsLawful();
    Exactly(MessageFormat(), acc, m, rest);
    MessageFits(m);
    hide PutMessage, GetMessage, VariantFits, ShortMessage;
  }

  // ----- Upload requests: the map is written in the order it happens to iterate -----------

  datatype PrepareUploadRequestDto = PrepareUploadRequestDto(info: RegisterDto, files: map<Text, FileDto>)

  type Entry = (Text, FileDto)

  function EntryFormat(): Format<Entry> {
    Pair(TextFormat(), FileFormat())
  }

  function RequestFormat(): Format<(RegisterDto, seq<Entry>)> {
    Pair(RegisterFormat(), List(EntryFormat()))
  }

  function GetRequest(b: Bytes): Outcome<(PrepareUploadRequestDto, Bytes)> {
    var v :- RequestFormat().get(b);
    Value((PrepareUploadRequestDto(v.0.0, Collect(v.0.1)), v.1))
  }

  predicate ShortRequest(dto: PrepareUploadRequestDto) {
    && ShortRegister(dto.info) && |dto.files| < HALF
    && forall k :: k in dto.files ==> Short(k) && ShortFile(dto.files[k])
  }

  lemma RequestIsLawful()
    ensures Lawful(RequestFormat())
  {
    hide Lawful, Pair, List, TextFormat, FileFormat, RegisterFormat;
    ScalarsAreLawful();
    FileIsLawful();
    RegisterIsLawful();
    PairIsLawful(TextFormat(), FileFormat());
    ListIsLawful(EntryFormat());
    PairIsLawful(RegisterFormat(), List(EntryFormat()));
  }

  predicate ShortEntries(entries: seq<Entry>) {
    forall i :: 0 <= i < |entries| ==> Short(entries[i].0) && ShortFile(entries[i].1)
  }

  lemma EntryFits(e: Entry)
    ensures EntryFormat().fits(e) <==> Short(e.0) && ShortFile(e.1)
  {
    TextFits(e.0);
    FileFits(e.1);
    hide TextFormat, FileFormat, Short, ShortFile;
  }

  lemma RequestFits(info: RegisterDto, entries: seq<Entry>)
    ensures RequestFormat().fits((info, entries))
       <==> (ShortRegister(info) && |entries| < HALF && ShortEntries(entries))
  {
    RegisterFits(info);
    forall i | 0 <= i < |entries|
      ensures EntryFormat().fits(entries[i]) <==> Short(entries[i].0) && ShortFile(entries[i].1)
    {
      EntryFits(entries[i]);
    }
    hide RegisterFormat, EntryFormat, ShortRegister, Short, ShortFile;
  }

  lemma CollectShort(entries: seq<Entry>)
    requires ShortEntries(entries)
    ensures forall k :: k in Collect(entries) ==> Short(k) && ShortFile(Collect(entries)[k])
    ensures |Collect(entries)| <= |entries|
  {
    CollectMembers(entries);
    hide Collect, Short, ShortFile;
  }

  lemma OnlyShortIsRead(b: Bytes)
    requires RequestFormat().get(b).Value?
    ensures RequestFormat().fits(RequestFormat().get(b).value.0)
  {
    RequestIsLawful();
    hide RequestFormat;
  }

  /** A request that was read is short: it has no more files than were counted. */
  lemma ReadIsShort(b: Bytes)
    requires GetRequest(b).Value?
    ensures ShortRequest(GetRequest(b).value.0)
  {
    hide RequestFormat, Collect, ShortRegister, Short, ShortFile, ShortEntries;
    var v := RequestFormat().get(b).value.0;
    OnlyShortIsRead(b);
    RequestFits(v.0, v.1);
    CollectShort(v.1);
  }

  lemma ShortListing(dto: PrepareUploadRequestDto, order: seq<Entry>)
    requires Iterates(order, dto.files) && ShortRequest(dto)
    ensures RequestFormat().fits((dto.info, order))
  {
    CollectIterated(order, dto.files);
    RequestFits(dto.info, order);
    hide RequestFormat, Collect, ShortRegister, Short, ShortFile;
  }

  lemma RequestReturns(acc: Bytes, dto: PrepareUploadRequestDto, order: seq<Entry>, rest: Bytes)
    requires Iterates(order, dto.files)
    ensures var written := RequestFormat().put(acc, (dto.info, order));
            acc <= written
            && (ShortRequest(dto) ==> GetRequest((written + rest)[|acc|..]) == Value((dto, rest)))
  {
    hide RequestFormat, Collect, ShortRequest, Iterates;
    RequestIsLawful();
    Exactly(RequestFormat(), acc, (dto.info, order), rest);
    CollectIterated(order, dto.files);
    if ShortRequest(dto) {
      ShortListing(dto, order);
    }
  }

  /** For every order the map is iterated in, the request comes back exactly if its lengths fit. */
  lemma RequestRoundTrip(acc: Bytes, dto: PrepareUploadRequestDto, order: seq<Entry>, rest: Bytes)
    requires Iterates(order, dto.files)
    ensures var written := RequestFormat().put(acc, (dto.info, order));
            acc <= written
            && (GetRequest((written + rest)[|acc|..]) == Value((dto, rest)) <==> ShortRequest(dto))
  {
    hide *;
    var written := RequestFormat().put(acc, (dto.info, order));
    RequestReturns(acc, dto, order, rest);
    if GetRequest((written + rest)[|acc|..]) == Value((dto, rest)) {
      ReadIsShort((written + rest)[|acc|..]);
    }
  }
}
