/** The bytes on the bridge, record by record, apart from how they are put and got (app/rust/src/frb_generated.rs). */
module BridgeLayout {
  import opened Prelude
  import opened Formats
  import opened BridgeTypes
  import opened BridgeCodec
  import LittleEndian

  // ----- What is written ------------------------------------------------------------

  /** The low 32 bits of a length. */
  function LengthBytes(n: nat): Bytes {
    LittleEndian.Write(n % 0x1_0000_0000, 4)
  }

  function TextBytes(b: Bytes): Bytes {
    LengthBytes(|b|) + b
  }

  function StringBytes(t: Text): Bytes {
    TextBytes(t)
  }

  function OptionBytes<T>(v: Option<T>, bytes: T -> Bytes): Bytes {
    if v.Some? then [1] + bytes(v.value) else [0]
  }

  function DeviceBytes(d: DeviceType): Bytes {
    match d
    case Mobile => [0, 0, 0, 0]
    case Desktop => [1, 0, 0, 0]
    case Web => [2, 0, 0, 0]
    case Headless => [3, 0, 0, 0]
    case Server => [4, 0, 0, 0]
  }

  function ProtocolBytes(p: ProtocolType): Bytes {
    match p
    case Http => [0, 0, 0, 0]
    case Https => [1, 0, 0, 0]
  }

  function InfoBytes(c: ClientInfo): Bytes {
    TextBytes(c.id) + TextBytes(c.alias) + TextBytes(c.version) + OptionBytes(c.deviceModel, StringBytes)
    + OptionBytes(c.deviceType, DeviceBytes) + TextBytes(c.token)
  }

  function MetadataBytes(m: FileMetadata): Bytes {
    OptionBytes(m.modified, StringBytes) + OptionBytes(m.accessed, StringBytes)
  }

  function FileBytes(d: FileDto): Bytes {
    TextBytes(d.id) + TextBytes(d.fileName) + LittleEndian.Write(d.size, 8) + TextBytes(d.fileType)
    + OptionBytes(d.sha256, StringBytes) + OptionBytes(d.preview, StringBytes) + OptionBytes(d.metadata, MetadataBytes)
  }

  function RegisterBytes(d: RegisterDto): Bytes {
    TextBytes(d.alias) + TextBytes(d.version) + OptionBytes(d.deviceModel, StringBytes)
    + OptionBytes(d.deviceType, DeviceBytes) + TextBytes(d.token) + LittleEndian.Write(d.port, 2)
    + ProtocolBytes(d.protocol) + [if d.hasWebInterface then 1 else 0]
  }

  function Each<T>(items: seq<T>, bytes: T -> Bytes): Bytes {
    if items == [] then [] else bytes(items[0]) + Each(items[1..], bytes)
  }

  function SdpBytes(m: WsServerSdpMessage): Bytes {
    InfoBytes(m.peer) + TextBytes(m.sessionId) + TextBytes(m.sdp)
  }

  /** The number of a variant, in four bytes. */
  function TagBytes(m: WsServerMessage): Bytes {
    match m
    case Hello(_, _) => [0, 0, 0, 0]
    case Join(_) => [1, 0, 0, 0]
    case Update(_) => [2, 0, 0, 0]
    case Left(_) => [3, 0, 0, 0]
    case Offer(_) => [4, 0, 0, 0]
    case Answer(_) => [5, 0, 0, 0]
    case Error(_) => [6, 0, 0, 0]
  }

  function VariantBytes(m: WsServerMessage): Bytes {
    match m
    case Hello(client, peers) => InfoBytes(client) + LengthBytes(|peers|) + Each(peers, InfoBytes)
    case Join(peer) => InfoBytes(peer)
    case Update(peer) => InfoBytes(peer)
    case Left(peerId) => TextBytes(peerId)
    case Offer(sdp) => SdpBytes(sdp)
    case Answer(sdp) => SdpBytes(sdp)
    case Error(code) => LittleEndian.Write(code, 2)
  }

  function MessageLayout(m: WsServerMessage): Bytes {
    TagBytes(m) + VariantBytes(m)
  }

  function EntryBytes(e: Entry): Bytes {
    TextBytes(e.0) + FileBytes(e.1)
  }

  function RequestLayout(info: RegisterDto, order: seq<Entry>): Bytes {
    RegisterBytes(info) + LengthBytes(|order|) + Each(order, EntryBytes)
  }

  // ----- Numbers, strings, options, lists -------------------------------------------

  ghost predicate Writes<T(!new)>(f: Format<T>, bytes: T -> Bytes) {
    forall acc, v :: f.put(acc, v) == acc + bytes(v)
  }

  lemma SmallBytes(n: nat)
    requires n < 256
    ensures LittleEndian.Write(n, 4) == [n as u8, 0, 0, 0]
  {
  }

  lemma LowBits(n: i32)
    ensures OfSigned(n) == n % 0x1_0000_0000
  {
  }

  lemma SignedBytes(acc: Bytes, n: i32)
    ensures Signed().put(acc, n) == acc + LittleEndian.Write(n % 0x1_0000_0000, 4)
  {
    LowBits(n);
    hide OfSigned, LittleEndian.Write;
  }

  lemma SmallNumber(acc: Bytes, n: i32)
    requires 0 <= n < 256
    ensures Signed().put(acc, n) == acc + [n as u8, 0, 0, 0]
  {
    SignedBytes(acc, n);
    SmallBytes(n);
  }

  lemma LengthWritten(acc: Bytes, n: nat)
    ensures Signed().put(acc, Truncated(n)) == acc + LengthBytes(n)
  {
    SignedBytes(acc, Truncated(n));
  }

  lemma {:induction false} EachWritten<T(!new)>(f: Format<T>, bytes: T -> Bytes, acc: Bytes, items: seq<T>)
    requires Writes(f, bytes)
    ensures PutAll(f, acc, items) == acc + Each(items, bytes)
    decreases |items|
  {
    if items != [] {
      EachWritten(f, bytes, acc + bytes(items[0]), items[1..]);
      Regroup(acc, bytes(items[0]), Each(items[1..], bytes));
    }
  }

  lemma ListWritten<T(!new)>(f: Format<T>, bytes: T -> Bytes, acc: Bytes, items: seq<T>)
    requires Writes(f, bytes)
    ensures List(f).put(acc, items) == acc + LengthBytes(|items|) + Each(items, bytes)
  {
    hide *;
    ListUnfolds(f, acc, items, []);
    LengthWritten(acc, |items|);
    EachWritten(f, bytes, acc + LengthBytes(|items|), items);
  }

  lemma {:induction false} EachByte(b: Bytes)
    ensures Each(b, (v: u8) => [v]) == b
  {
    if b != [] {
      EachByte(b[1..]);
    }
  }

  lemma OctetsWritten(acc: Bytes, b: Bytes)
    ensures List(Octet()).put(acc, b) == acc + TextBytes(b)
  {
    assert Writes(Octet(), (v: u8) => [v]);
    ListWritten(Octet(), (v: u8) => [v], acc, b);
    EachByte(b);
    Regroup(acc, LengthBytes(|b|), b);
  }

  lemma TextWritten(acc: Bytes, v: Text)
    ensures TextFormat().put(acc, v) == acc + TextBytes(v)
  {
    hide List, TextBytes;
    ViaPuts(List(Octet()), OfText, ToText, acc, v);
    OctetsWritten(acc, OfText(v));
  }

  lemma UuidWritten(acc: Bytes, v: Uuid)
    ensures UuidFormat().put(acc, v) == acc + TextBytes(v)
  {
    hide List, TextBytes;
    ViaPuts(List(Octet()), OfUuid, ToUuid, acc, v);
    OctetsWritten(acc, OfUuid(v));
  }

  lemma U16Written(acc: Bytes, v: u16)
    ensures U16Format().put(acc, v) == acc + LittleEndian.Write(v, 2)
  {
    hide LittleEndian.Write;
    ViaPuts(Unsigned(2), OfU16, ToU16, acc, v);
  }

  lemma U64Written(acc: Bytes, v: u64)
    ensures U64Format().put(acc, v) == acc + LittleEndian.Write(v, 8)
  {
    hide LittleEndian.Write;
    ViaPuts(Unsigned(8), OfU64, ToU64, acc, v);
  }

  lemma DeviceWritten(acc: Bytes, v: DeviceType)
    ensures DeviceFormat().put(acc, v) == acc + DeviceBytes(v)
  {
    hide Signed;
    SmallNumber(acc, OfDevice(v));
  }

  lemma ProtocolWritten(acc: Bytes, v: ProtocolType)
    ensures ProtocolFormat().put(acc, v) == acc + ProtocolBytes(v)
  {
    hide Signed;
    SmallNumber(acc, OfProtocol(v));
  }

  lemma FlagWritten(acc: Bytes, v: bool)
    ensures Flag().put(acc, v) == acc + [if v then 1 else 0]
  {
  }

  lemma OptionWritten<T>(f: Format<T>, bytes: T -> Bytes, acc: Bytes, v: Option<T>)
    requires v.Some? ==> f.put(acc + [1], v.value) == acc + [1] + bytes(v.value)
    ensures Optional(f).put(acc, v) == acc + OptionBytes(v, bytes)
  {
    if v.Some? {
      Regroup(acc, [1], bytes(v.value));
    }
  }

  lemma OptionTextWritten(acc: Bytes, v: Option<Text>)
    ensures Optional(TextFormat()).put(acc, v) == acc + OptionBytes(v, StringBytes)
  {
    hide TextFormat, TextBytes, Optional, OptionBytes;
    if v.Some? {
      TextWritten(acc + [1], v.value);
    }
    OptionWritten(TextFormat(), StringBytes, acc, v);
  }

  lemma OptionDeviceWritten(acc: Bytes, v: Option<DeviceType>)
    ensures Optional(DeviceFormat()).put(acc, v) == acc + OptionBytes(v, DeviceBytes)
  {
    hide DeviceFormat, DeviceBytes, Optional, OptionBytes;
    if v.Some? {
      DeviceWritten(acc + [1], v.value);
    }
    OptionWritten(DeviceFormat(), DeviceBytes, acc, v);
  }

  lemma OptionMetadataWritten(acc: Bytes, v: Option<FileMetadata>)
    ensures Optional(MetadataFormat()).put(acc, v) == acc + OptionBytes(v, MetadataBytes)
  {
    hide MetadataFormat, MetadataBytes, Optional, OptionBytes;
    if v.Some? {
      MetadataWritten(acc + [1], v.value);
    }
    OptionWritten(MetadataFormat(), MetadataBytes, acc, v);
  }

  // ----- Records ----------------------------------------------------------------

  lemma InfoUnfolds(acc: Bytes, v: ClientInfo, x1: Bytes, x2: Bytes, x3: Bytes, x4: Bytes, x5: Bytes)
    requires UuidFormat().put(acc, v.id) == x1
    requires TextFormat().put(x1, v.alias) == x2
    requires TextFormat().put(x2, v.version) == x3
    requires Optional(TextFormat()).put(x3, v.deviceModel) == x4
    requires Optional(DeviceFormat()).put(x4, v.deviceType) == x5
    ensures InfoFormat().put(acc, v) == TextFormat().put(x5, v.token)
  {
    hide DeviceFormat, Optional, TextFormat, UuidFormat;
    ViaPuts(InfoFieldsFormat(), OfInfo, ToInfo, acc, v);
  }

  lemma InfoWritten(acc: Bytes, v: ClientInfo)
    ensures InfoFormat().put(acc, v) == acc + InfoBytes(v)
  {
    hide *;
    UuidWritten(acc, v.id);
    var x1 := acc + TextBytes(v.id);
    TextWritten(x1, v.alias);
    var x2 := x1 + TextBytes(v.alias);
    TextWritten(x2, v.version);
    var x3 := x2 + TextBytes(v.version);
    OptionTextWritten(x3, v.deviceModel);
    var x4 := x3 + OptionBytes(v.deviceModel, StringBytes);
    OptionDeviceWritten(x4, v.deviceType);
    var x5 := x4 + OptionBytes(v.deviceType, DeviceBytes);
    TextWritten(x5, v.token);
    InfoUnfolds(acc, v, x1, x2, x3, x4, x5);
    InfoRegroups(acc, v);
  }

  lemma InfoRegroups(acc: Bytes, v: ClientInfo)
    ensures acc + TextBytes(v.id) + TextBytes(v.alias) + TextBytes(v.version)
            + OptionBytes(v.deviceModel, StringBytes) + OptionBytes(v.deviceType, DeviceBytes) + TextBytes(v.token)
         == acc + InfoBytes(v)
  {
    hide TextBytes, OptionBytes, DeviceBytes, LittleEndian.Write, ProtocolBytes;
  }

  lemma MetadataUnfolds(acc: Bytes, v: FileMetadata, x1: Bytes)
    requires Optional(TextFormat()).put(acc, v.modified) == x1
    ensures MetadataFormat().put(acc, v) == Optional(TextFormat()).put(x1, v.accessed)
  {
    hide Optional, TextFormat;
    ViaPuts(Pair(Optional(TextFormat()), Optional(TextFormat())), OfMetadata, ToMetadata, acc, v);
  }

  lemma MetadataWritten(acc: Bytes, v: FileMetadata)
    ensures MetadataFormat().put(acc, v) == acc + MetadataBytes(v)
  {
    hide *;
    OptionTextWritten(acc, v.modified);
    var x1 := acc + OptionBytes(v.modified, StringBytes);
    OptionTextWritten(x1, v.accessed);
    MetadataUnfolds(acc, v, x1);
    MetadataRegroups(acc, v);
  }

  lemma MetadataRegroups(acc: Bytes, v: FileMetadata)
    ensures acc + OptionBytes(v.modified, StringBytes) + OptionBytes(v.accessed, StringBytes)
         == acc + MetadataBytes(v)
  {
    hide TextBytes, OptionBytes, DeviceBytes, LittleEndian.Write, ProtocolBytes, InfoBytes;
  }

  lemma FileUnfolds(acc: Bytes, v: FileDto, x1: Bytes, x2: Bytes, x3: Bytes, x4: Bytes, x5: Bytes, x6: Bytes)
    requires TextFormat().put(acc, v.id) == x1
    requires TextFormat().put(x1, v.fileName) == x2
    requires U64Format().put(x2, v.size) == x3
    requires TextFormat().put(x3, v.fileType) == x4
    requires Optional(TextFormat()).put(x4, v.sha256) == x5
    requires Optional(TextFormat()).put(x5, v.preview) == x6
    ensures FileFormat().put(acc, v) == Optional(MetadataFormat()).put(x6, v.metadata)
  {
    hide MetadataFormat, Optional, TextFormat, U64Format;
    ViaPuts(FileFieldsFormat(), OfFile, ToFile, acc, v);
  }

  lemma FileWritten(acc: Bytes, v: FileDto)
    ensures FileFormat().put(acc, v) == acc + FileBytes(v)
  {
    hide *;
    TextWritten(acc, v.id);
    var x1 := acc + TextBytes(v.id);
    TextWritten(x1, v.fileName);
    var x2 := x1 + TextBytes(v.fileName);
    U64Written(x2, v.size);
    var x3 := x2 + LittleEndian.Write(v.size, 8);
    TextWritten(x3, v.fileType);
    var x4 := x3 + TextBytes(v.fileType);
    OptionTextWritten(x4, v.sha256);
    var x5 := x4 + OptionBytes(v.sha256, StringBytes);
    OptionTextWritten(x5, v.preview);
    var x6 := x5 + OptionBytes(v.preview, StringBytes);
    OptionMetadataWritten(x6, v.metadata);
    FileUnfolds(acc, v, x1, x2, x3, x4, x5, x6);
    FileRegroups(acc, v);
  }

  lemma FileRegroups(acc: Bytes, v: FileDto)
    ensures acc + TextBytes(v.id) + TextBytes(v.fileName) + LittleEndian.Write(v.size, 8) + TextBytes(v.fileType)
            + OptionBytes(v.sha256, StringBytes) + OptionBytes(v.preview, StringBytes)
            + OptionBytes(v.metadata, MetadataBytes)
         == acc + FileBytes(v)
  {
    hide TextBytes, OptionBytes, DeviceBytes, LittleEndian.Write, ProtocolBytes, InfoBytes;
  }

  lemma RegisterUnfolds(acc: Bytes, v: RegisterDto, x1: Bytes, x2: Bytes, x3: Bytes, x4: Bytes, x5: Bytes, x6: Bytes,
                         x7: Bytes)
    requires TextFormat().put(acc, v.alias) == x1
    requires TextFormat().put(x1, v.version) == x2
    requires Optional(TextFormat()).put(x2, v.deviceModel) == x3
    requires Optional(DeviceFormat()).put(x3, v.deviceType) == x4
    requires TextFormat().put(x4, v.token) == x5
    requires U16Format().put(x5, v.port) == x6
    requires ProtocolFormat().put(x6, v.protocol) == x7
    ensures RegisterFormat().put(acc, v) == Flag().put(x7, v.hasWebInterface)
  {
    hide DeviceFormat, Flag, Optional, ProtocolFormat, TextFormat, U16Format;
    ViaPuts(RegisterFieldsFormat(), OfRegister, ToRegister, acc, v);
  }

  lemma RegisterWritten(acc: Bytes, v: RegisterDto)
    ensures RegisterFormat().put(acc, v) == acc + RegisterBytes(v)
  {
    hide *;
    TextWritten(acc, v.alias);
    var x1 := acc + TextBytes(v.alias);
    TextWritten(x1, v.version);
    var x2 := x1 + TextBytes(v.version);
    OptionTextWritten(x2, v.deviceModel);
    var x3 := x2 + OptionBytes(v.deviceModel, StringBytes);
    OptionDeviceWritten(x3, v.deviceType);
    var x4 := x3 + OptionBytes(v.deviceType, DeviceBytes);
    TextWritten(x4, v.token);
    var x5 := x4 + TextBytes(v.token);
    U16Written(x5, v.port);
    var x6 := x5 + LittleEndian.Write(v.port, 2);
    ProtocolWritten(x6, v.protocol);
    var x7 := x6 + ProtocolBytes(v.protocol);
    FlagWritten(x7, v.hasWebInterface);
    RegisterUnfolds(acc, v, x1, x2, x3, x4, x5, x6, x7);
    RegisterRegroups(acc, v);
  }

  lemma RegisterRegroups(acc: Bytes, v: RegisterDto)
    ensures acc + TextBytes(v.alias) + TextBytes(v.version) + OptionBytes(v.deviceModel, StringBytes)
            + OptionBytes(v.deviceType, DeviceBytes) + TextBytes(v.token) + LittleEndian.Write(v.port, 2)
            + ProtocolBytes(v.protocol) + [if v.hasWebInterface then 1 else 0]
         == acc + RegisterBytes(v)
  {
    hide TextBytes, OptionBytes, DeviceBytes, LittleEndian.Write, ProtocolBytes, InfoBytes;
  }

  lemma SdpUnfolds(acc: Bytes, v: WsServerSdpMessage, x1: Bytes, x2: Bytes)
    requires InfoFormat().put(acc, v.peer) == x1
    requires TextFormat().put(x1, v.sessionId) == x2
    ensures SdpFormat().put(acc, v) == TextFormat().put(x2, v.sdp)
  {
    hide InfoFormat, TextFormat;
    ViaPuts(SdpFieldsFormat(), OfSdp, ToSdp, acc, v);
  }

  lemma SdpWritten(acc: Bytes, v: WsServerSdpMessage)
    ensures SdpFormat().put(acc, v) == acc + SdpBytes(v)
  {
    hide *;
    InfoWritten(acc, v.peer);
    var x1 := acc + InfoBytes(v.peer);
    TextWritten(x1, v.sessionId);
    var x2 := x1 + TextBytes(v.sessionId);
    TextWritten(x2, v.sdp);
    SdpUnfolds(acc, v, x1, x2);
    SdpRegroups(acc, v);
  }

  lemma SdpRegroups(acc: Bytes, v: WsServerSdpMessage)
    ensures acc + InfoBytes(v.peer) + TextBytes(v.sessionId) + TextBytes(v.sdp)
         == acc + SdpBytes(v)
  {
    hide TextBytes, OptionBytes, DeviceBytes, LittleEndian.Write, ProtocolBytes, InfoBytes;
  }

  // ----- Messages and requests --------------------------------------------------

  lemma InfosWritten(acc: Bytes, v: seq<ClientInfo>)
    ensures List(InfoFormat()).put(acc, v) == acc + LengthBytes(|v|) + Each(v, InfoBytes)
  {
    hide List, InfoFormat, InfoBytes, LengthBytes, Each;
    forall acc: Bytes, c: ClientInfo
      ensures InfoFormat().put(acc, c) == acc + InfoBytes(c)
    {
      InfoWritten(acc, c);
    }
    assert Writes(InfoFormat(), InfoBytes);
    ListWritten(InfoFormat(), InfoBytes, acc, v);
  }

  lemma TagWritten(acc: Bytes, m: WsServerMessage)
    ensures Signed().put(acc, Tag(m)) == acc + TagBytes(m)
  {
    hide Signed;
    SmallNumber(acc, Tag(m));
  }

  lemma HelloWritten(acc: Bytes, client: ClientInfo, peers: seq<ClientInfo>)
    ensures HelloFormat().put(acc, (client, peers))
         == acc + (InfoBytes(client) + LengthBytes(|peers|) + Each(peers, InfoBytes))
  {
    hide List, InfoFormat, InfoBytes, LengthBytes, Each;
    InfoWritten(acc, client);
    InfosWritten(acc + InfoBytes(client), peers);
    Regroup(acc + InfoBytes(client), LengthBytes(|peers|), Each(peers, InfoBytes));
    Regroup(InfoBytes(client), LengthBytes(|peers|), Each(peers, InfoBytes));
    Regroup(acc, InfoBytes(client), LengthBytes(|peers|) + Each(peers, InfoBytes));
  }

  lemma VariantWritten(acc: Bytes, m: WsServerMessage)
    ensures PutVariant(acc, m) == acc + VariantBytes(m)
  {
    hide HelloFormat, InfoFormat, UuidFormat, U16Format, SdpFormat, InfoBytes, SdpBytes, TextBytes, LengthBytes, Each,
         LittleEndian.Write;
    match m
    case Hello(client, peers) => HelloWritten(acc, client, peers);
    case Join(peer) => InfoWritten(acc, peer);
    case Update(peer) => InfoWritten(acc, peer);
    case Left(peerId) => UuidWritten(acc, peerId);
    case Offer(sdp) => SdpWritten(acc, sdp);
    case Answer(sdp) => SdpWritten(acc, sdp);
    case Error(code) => U16Written(acc, code);
  }

  /** A server message is its number in four bytes, and then the fields of its variant. */
  lemma MessageWritten(acc: Bytes, m: WsServerMessage)
    ensures PutMessage(acc, m) == acc + MessageLayout(m)
  {
    hide Signed, PutVariant, TagBytes, VariantBytes;
    TagWritten(acc, m);
    VariantWritten(acc + TagBytes(m), m);
    Regroup(acc, TagBytes(m), VariantBytes(m));
  }

  lemma EntriesWritten(acc: Bytes, order: seq<Entry>)
    ensures List(EntryFormat()).put(acc, order) == acc + LengthBytes(|order|) + Each(order, EntryBytes)
  {
    hide List, TextFormat, FileFormat, TextBytes, FileBytes, LengthBytes, Each;
    forall acc: Bytes, e: Entry
      ensures EntryFormat().put(acc, e) == acc + EntryBytes(e)
    {
      TextWritten(acc, e.0);
      FileWritten(acc + TextBytes(e.0), e.1);
      Regroup(acc, TextBytes(e.0), FileBytes(e.1));
    }
    assert Writes(EntryFormat(), EntryBytes);
    ListWritten(EntryFormat(), EntryBytes, acc, order);
  }

  lemma RequestWritten(acc: Bytes, info: RegisterDto, order: seq<Entry>)
    ensures RequestFormat().put(acc, (info, order)) == acc + RequestLayout(info, order)
  {
    hide RegisterFormat, List, EntryFormat, RegisterBytes, LengthBytes, Each, EntryBytes;
    RegisterWritten(acc, info);
    EntriesWritten(acc + RegisterBytes(info), order);
  }

  // ----- What is read although nothing writes it ------------------------------------

  /** Any byte but zero is true, also where it says that a value is present. */
  lemma AnyFlag(b: u8, t: Text, rest: Bytes)
    requires Short(t)
    ensures Flag().get([b] + rest) == Value((b != 0, rest))
    ensures Optional(TextFormat()).get([b] + TextBytes(t) + rest)
         == if b != 0 then Value((Some(t), rest)) else Value((None, TextBytes(t) + rest))
  {
    hide TextFormat, TextBytes;
    TextWritten([], t);
    TextFits(t);
    ScalarsAreLawful();
    assert [] + TextBytes(t) == TextBytes(t);
    assert TextFormat().get(TextBytes(t) + rest) == Value((t, rest));
    assert ([b] + TextBytes(t) + rest)[1..] == TextBytes(t) + rest;
    assert ([b] + rest)[1..] == rest;
  }

  /** A length with its highest bit set reads no item at all. */
  lemma NegativeLength<T>(f: Format<T>, n: nat, rest: Bytes)
    requires 0x8000_0000 <= n < 0x1_0000_0000
    ensures List(f).get(LittleEndian.Write(n, 4) + rest) == Value(([], rest))
  {
    hide LittleEndian.Write, LittleEndian.Read, GetMany;
    SignedIsLawful();
    var length: i32 := n - 0x1_0000_0000;
    SignedBytes([], length);
    assert [] + LittleEndian.Write(n, 4) == LittleEndian.Write(n, 4);
    HeaderReturns(length, rest);
    ListUnfolds(f, [], [], LittleEndian.Write(n, 4) + rest);
    NoneRead(f, length, rest);
    hide Signed;
  }

  lemma NoneRead<T>(f: Format<T>, count: int, b: Bytes)
    requires count <= 0
    ensures GetMany(f, count, [], b) == Value(([], b))
  {
  }
}
