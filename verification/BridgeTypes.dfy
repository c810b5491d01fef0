/** The values that cross the bridge to the application, and their formats (app/rust/src/frb_generated.rs). */
module BridgeTypes {
  import opened Prelude
  import opened Formats
  import opened Unicode
  import LittleEndian

  // ----- Strings and identifiers ------------------------------------------------

  /** A Rust string: its bytes are always well-formed. */
  type Text = b: Bytes | Utf8(b) witness []

  type Uuid = b: Bytes | |b| == 16 witness seq(16, _ => 0)

  type u16 = n: nat | n < 0x1_0000

  type u64 = n: nat | n < 0x1_0000_0000_0000_0000

  function OfText(t: Text): Bytes { t }

  function ToText(b: Bytes): Option<Text> {
    if Utf8(b) then Some(b) else None
  }

  function OfUuid(u: Uuid): Bytes { u }

  function ToUuid(b: Bytes): Option<Uuid> {
    if |b| == 16 then Some(b) else None
  }

  function OfU16(n: u16): nat { n }

  function ToU16(n: nat): Option<u16> {
    if n < 0x1_0000 then Some(n) else None
  }

  function OfU64(n: u64): nat { n }

  function ToU64(n: nat): Option<u64> {
    if n < 0x1_0000_0000_0000_0000 then Some(n) else None
  }

  function TextFormat(): Format<Text> {
    Via(List(Octet()), OfText, ToText)
  }

  function UuidFormat(): Format<Uuid> {
    Via(List(Octet()), OfUuid, ToUuid)
  }

  function U16Format(): Format<u16> {
    Via(Unsigned(2), OfU16, ToU16)
  }

  function U64Format(): Format<u64> {
    Via(Unsigned(8), OfU64, ToU64)
  }

  lemma ScalarsAreLawful()
    ensures Lawful(TextFormat()) && Lawful(UuidFormat())
    ensures Lawful(U16Format()) && Lawful(U64Format())
  {
    assert Undo(OfText, ToText) && Undo(OfUuid, ToUuid) && Undo(OfU16, ToU16) && Undo(OfU64, ToU64);
    hide List, Octet, Unsigned, Via, Lawful, Undo, OfText, ToText, OfUuid, ToUuid, OfU16, ToU16, OfU64, ToU64;
    BytesAreLawful();
    ListIsLawful(Octet());
    ViaIsLawful(List(Octet()), OfText, ToText);
    ViaIsLawful(List(Octet()), OfUuid, ToUuid);
    UnsignedIsLawful(2);
    ViaIsLawful(Unsigned(2), OfU16, ToU16);
    UnsignedIsLawful(8);
    ViaIsLawful(Unsigned(8), OfU64, ToU64);
  }

  // ----- Enumerations -------------------------------------------------------------

  datatype DeviceType = Mobile | Desktop | Web | Headless | Server

  datatype ProtocolType = Http | Https

  function OfDevice(d: DeviceType): i32 {
    match d
    case Mobile => 0
    case Desktop => 1
    case Web => 2
    case Headless => 3
    case Server => 4
  }

  function ToDevice(n: i32): Option<DeviceType> {
    if n == 0 then Some(Mobile)
    else if n == 1 then Some(Desktop)
    else if n == 2 then Some(Web)
    else if n == 3 then Some(Headless)
    else if n == 4 then Some(Server)
    else None
  }

  function OfProtocol(p: ProtocolType): i32 {
    if p.Http? then 0 else 1
  }

  function ToProtocol(n: i32): Option<ProtocolType> {
    if n == 0 then Some(Http) else if n == 1 then Some(Https) else None
  }

  function DeviceFormat(): Format<DeviceType> {
    Via(Signed(), OfDevice, ToDevice)
  }

  function ProtocolFormat(): Format<ProtocolType> {
    Via(Signed(), OfProtocol, ToProtocol)
  }

  lemma EnumerationsAreLawful()
    ensures Lawful(DeviceFormat()) && Lawful(ProtocolFormat())
  {
    assert Undo(OfDevice, ToDevice) && Undo(OfProtocol, ToProtocol);
    SignedIsLawful();
    ViaIsLawful(Signed(), OfDevice, ToDevice);
    ViaIsLawful(Signed(), OfProtocol, ToProtocol);
  }

  // ----- Records --------------------------------------------------------------------

  datatype ClientInfo = ClientInfo(
    id: Uuid, alias: Text, version: Text, deviceModel: Option<Text>, deviceType: Option<DeviceType>, token: Text)

  datatype FileMetadata = FileMetadata(modified: Option<Text>, accessed: Option<Text>)

  datatype FileDto = FileDto(
    id: Text, fileName: Text, size: u64, fileType: Text, sha256: Option<Text>, preview: Option<Text>,
    metadata: Option<FileMetadata>)

  datatype RegisterDto = RegisterDto(
    alias: Text, version: Text, deviceModel: Option<Text>, deviceType: Option<DeviceType>, token: Text,
    port: u16, protocol: ProtocolType, hasWebInterface: bool)

  /** The fields of a record in the order they are written. */
  type InfoFields = (((((Uuid, Text), Text), Option<Text>), Option<DeviceType>), Text)

  type MetadataFields = (Option<Text>, Option<Text>)

  type FileFields = ((((((Text, Text), u64), Text), Option<Text>), Option<Text>), Option<FileMetadata>)

  type RegisterFields = (((((((Text, Text), Option<Text>), Option<DeviceType>), Text), u16), ProtocolType), bool)

  function OfInfo(c: ClientInfo): InfoFields {
    (((((c.id, c.alias), c.version), c.deviceModel), c.deviceType), c.token)
  }

  function ToInfo(f: InfoFields): Option<ClientInfo> {
    Some(ClientInfo(f.0.0.0.0.0, f.0.0.0.0.1, f.0.0.0.1, f.0.0.1, f.0.1, f.1))
  }

  function OfMetadata(m: FileMetadata): MetadataFields {
    (m.modified, m.accessed)
  }

  function ToMetadata(f: MetadataFields): Option<FileMetadata> {
    Some(FileMetadata(f.0, f.1))
  }

  function OfFile(d: FileDto): FileFields {
    ((((((d.id, d.fileName), d.size), d.fileType), d.sha256), d.preview), d.metadata)
  }

  function ToFile(f: FileFields): Option<FileDto> {
    Some(FileDto(f.0.0.0.0.0.0, f.0.0.0.0.0.1, f.0.0.0.0.1, f.0.0.0.1, f.0.0.1, f.0.1, f.1))
  }

  function OfRegister(d: RegisterDto): RegisterFields {
    (((((((d.alias, d.version), d.deviceModel), d.deviceType), d.token), d.port), d.protocol), d.hasWebInterface)
  }

  function ToRegister(f: RegisterFields): Option<RegisterDto> {
    Some(RegisterDto(f.0.0.0.0.0.0.0, f.0.0.0.0.0.0.1, f.0.0.0.0.0.1, f.0.0.0.0.1, f.0.0.0.1, f.0.0.1, f.0.1, f.1))
  }

  function InfoFieldsFormat(): Format<InfoFields> {
    Pair(Pair(Pair(Pair(Pair(UuidFormat(), TextFormat()), TextFormat()), Optional(TextFormat())),
              Optional(DeviceFormat())), TextFormat())
  }

  function FileFieldsFormat(): Format<FileFields> {
    Pair(Pair(Pair(Pair(Pair(Pair(TextFormat(), TextFormat()), U64Format()), TextFormat()), Optional(TextFormat())),
              Optional(TextFormat())), Optional(MetadataFormat()))
  }

  function RegisterFieldsFormat(): Format<RegisterFields> {
    Pair(Pair(Pair(Pair(Pair(Pair(Pair(TextFormat(), TextFormat()), Optional(TextFormat())), Optional(DeviceFormat())),
                        TextFormat()), U16Format()), ProtocolFormat()), Flag())
  }

  function InfoFormat(): Format<ClientInfo> {
    Via(InfoFieldsFormat(), OfInfo, ToInfo)
  }

  function MetadataFormat(): Format<FileMetadata> {
    Via(Pair(Optional(TextFormat()), Optional(TextFormat())), OfMetadata, ToMetadata)
  }

  function FileFormat(): Format<FileDto> {
    Via(FileFieldsFormat(), OfFile, ToFile)
  }

  function RegisterFormat(): Format<RegisterDto> {
    Via(RegisterFieldsFormat(), OfRegister, ToRegister)
  }

  lemma RecordsUndo()
    ensures Undo(OfInfo, ToInfo) && Undo(OfMetadata, ToMetadata)
    ensures Undo(OfFile, ToFile) && Undo(OfRegister, ToRegister)
  {
  }

  lemma InfoIsLawful()
    ensures Lawful(InfoFormat())
  {
    RecordsUndo();
    ScalarsAreLawful();
    EnumerationsAreLawful();
    hide Pair, Optional, Via, Lawful, Undo, UuidFormat, TextFormat, DeviceFormat;
    OptionalIsLawful(TextFormat());
    OptionalIsLawful(DeviceFormat());
    var f1 := Pair(UuidFormat(), TextFormat());
    var f2 := Pair(f1, TextFormat());
    var f3 := Pair(f2, Optional(TextFormat()));
    var f4 := Pair(f3, Optional(DeviceFormat()));
    PairIsLawful(UuidFormat(), TextFormat());
    PairIsLawful(f1, TextFormat());
    PairIsLawful(f2, Optional(TextFormat()));
    PairIsLawful(f3, Optional(DeviceFormat()));
    PairIsLawful(f4, TextFormat());
    ViaIsLawful(InfoFieldsFormat(), OfInfo, ToInfo);
  }

  lemma FileIsLawful()
    ensures Lawful(FileFormat())
  {
    RecordsUndo();
    ScalarsAreLawful();
    hide Pair, Optional, Via, Lawful, Undo, TextFormat, U64Format;
    OptionalIsLawful(TextFormat());
    PairIsLawful(Optional(TextFormat()), Optional(TextFormat()));
    ViaIsLawful(Pair(Optional(TextFormat()), Optional(TextFormat())), OfMetadata, ToMetadata);
    OptionalIsLawful(MetadataFormat());
    var f1 := Pair(TextFormat(), TextFormat());
    var f2 := Pair(f1, U64Format());
    var f3 := Pair(f2, TextFormat());
    var f4 := Pair(f3, Optional(TextFormat()));
    var f5 := Pair(f4, Optional(TextFormat()));
    PairIsLawful(TextFormat(), TextFormat());
    PairIsLawful(f1, U64Format());
    PairIsLawful(f2, TextFormat());
    PairIsLawful(f3, Optional(TextFormat()));
    PairIsLawful(f4, Optional(TextFormat()));
    PairIsLawful(f5, Optional(MetadataFormat()));
    ViaIsLawful(FileFieldsFormat(), OfFile, ToFile);
  }

  lemma RegisterIsLawful()
    ensures Lawful(RegisterFormat())
  {
    RecordsUndo();
    ScalarsAreLawful();
    EnumerationsAreLawful();
    BytesAreLawful();
    hide Pair, Optional, Via, Lawful, Undo, TextFormat, DeviceFormat, U16Format, ProtocolFormat, Flag;
    OptionalIsLawful(TextFormat());
    OptionalIsLawful(DeviceFormat());
    var f1 := Pair(TextFormat(), TextFormat());
    var f2 := Pair(f1, Optional(TextFormat()));
    var f3 := Pair(f2, Optional(DeviceFormat()));
    var f4 := Pair(f3, TextFormat());
    var f5 := Pair(f4, U16Format());
    var f6 := Pair(f5, ProtocolFormat());
    PairIsLawful(TextFormat(), TextFormat());
    PairIsLawful(f1, Optional(TextFormat()));
    PairIsLawful(f2, Optional(DeviceFormat()));
    PairIsLawful(f3, TextFormat());
    PairIsLawful(f4, U16Format());
    PairIsLawful(f5, ProtocolFormat());
    PairIsLawful(f6, Flag());
    ViaIsLawful(RegisterFieldsFormat(), OfRegister, ToRegister);
  }

  // ----- What fits: every string is shorter than two to the 31 -------------------------

  predicate Short(t: Text) {
    |t| < HALF
  }

  predicate ShortIfAny(t: Option<Text>) {
    t.Some? ==> Short(t.value)
  }

  predicate ShortInfo(c: ClientInfo) {
    Short(c.alias) && Short(c.version) && ShortIfAny(c.deviceModel) && Short(c.token)
  }

  predicate ShortFile(d: FileDto) {
    && Short(d.id) && Short(d.fileName) && Short(d.fileType) && ShortIfAny(d.sha256) && ShortIfAny(d.preview)
    && (d.metadata.Some? ==> ShortIfAny(d.metadata.value.modified) && ShortIfAny(d.metadata.value.accessed))
  }

  predicate ShortRegister(d: RegisterDto) {
    Short(d.alias) && Short(d.version) && ShortIfAny(d.deviceModel) && Short(d.token)
  }

  lemma ListOfBytesFits(b: Bytes)
    ensures List(Octet()).fits(b) <==> |b| < HALF
  {
  }

  lemma TextFits(t: Text)
    ensures TextFormat().fits(t) <==> Short(t)
  {
    ListOfBytesFits(t);
    ViaFits(List(Octet()), OfText, ToText, t);
    assert OfText(t) == t;
  }

  lemma OptionFits(t: Option<Text>)
    ensures Optional(TextFormat()).fits(t) <==> ShortIfAny(t)
  {
    if t.Some? {
      TextFits(t.value);
    }
  }

  lemma NumbersFit(u: Uuid, port: u16, size: u64)
    ensures UuidFormat().fits(u) && U16Format().fits(port) && U64Format().fits(size)
  {
    ListOfBytesFits(u);
    ViaFits(List(Octet()), OfUuid, ToUuid, u);
    assert OfUuid(u) == u;
    assert LittleEndian.Capacity(2) == 0x1_0000;
    ViaFits(Unsigned(2), OfU16, ToU16, port);
    assert Unsigned(2).fits(OfU16(port));
    assert LittleEndian.Capacity(8) == 0x1_0000_0000_0000_0000;
    ViaFits(Unsigned(8), OfU64, ToU64, size);
    assert Unsigned(8).fits(OfU64(size));
  }

  lemma EnumerationsFit(d: Option<DeviceType>, p: ProtocolType)
    ensures Optional(DeviceFormat()).fits(d) && ProtocolFormat().fits(p)
  {
    SignedIsLawful();
    ViaFits(Signed(), OfProtocol, ToProtocol, p);
    if d.Some? {
      ViaFits(Signed(), OfDevice, ToDevice, d.value);
    }
  }

  lemma InfoFits(c: ClientInfo)
    ensures InfoFormat().fits(c) <==> ShortInfo(c)
  {
    ViaFits(InfoFieldsFormat(), OfInfo, ToInfo, c);
    NumbersFit(c.id, 0, 0);
    TextFits(c.alias);
    TextFits(c.version);
    OptionFits(c.deviceModel);
    EnumerationsFit(c.deviceType, Http);
    TextFits(c.token);
    hide Via, TextFormat, UuidFormat, DeviceFormat, Short, ShortIfAny, Optional;
  }

  lemma MetadataFits(m: Option<FileMetadata>)
    ensures Optional(MetadataFormat()).fits(m)
       <==> (m.Some? ==> ShortIfAny(m.value.modified) && ShortIfAny(m.value.accessed))
  {
    if m.Some? {
      ViaFits(Pair(Optional(TextFormat()), Optional(TextFormat())), OfMetadata, ToMetadata, m.value);
      OptionFits(m.value.modified);
      OptionFits(m.value.accessed);
    }
  }

  lemma FileFits(d: FileDto)
    ensures FileFormat().fits(d) <==> ShortFile(d)
  {
    ViaFits(FileFieldsFormat(), OfFile, ToFile, d);
    TextFits(d.id);
    TextFits(d.fileName);
    NumbersFit(seq(16, _ => 0), 0, d.size);
    TextFits(d.fileType);
    OptionFits(d.sha256);
    OptionFits(d.preview);
    MetadataFits(d.metadata);
    hide Via, TextFormat, U64Format, MetadataFormat, Short, ShortIfAny, Optional;
  }

  lemma RegisterFits(d: RegisterDto)
    ensures RegisterFormat().fits(d) <==> ShortRegister(d)
  {
    ViaFits(RegisterFieldsFormat(), OfRegister, ToRegister, d);
    TextFits(d.alias);
    TextFits(d.version);
    OptionFits(d.deviceModel);
    EnumerationsFit(d.deviceType, d.protocol);
    TextFits(d.token);
    NumbersFit(seq(16, _ => 0), d.port, 0);
    hide Via, TextFormat, DeviceFormat, U16Format, ProtocolFormat, Short, ShortIfAny, Optional;
  }
}
