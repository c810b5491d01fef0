/** The encoder and the decoder themselves: one writes to a cursor, the other advances one. */
module BridgeStreams {
  import opened Prelude
  import opened Formats
  import opened Unicode
  import opened BridgeTypes
  import opened BridgeCodec
  import opened BridgeLayout
  import opened Entries
  import LittleEndian

  class Serializer {
    var cursor: Bytes

    constructor ()
      ensures cursor == []
    {
      cursor := [];
    }

    method WriteU8(v: u8)
      modifies this
      ensures cursor == Octet().put(old(cursor), v)
    {
      cursor := cursor + [v];
    }

    method WriteBool(v: bool)
      modifies this
      ensures cursor == Flag().put(old(cursor), v)
    {
      cursor := cursor + [if v then 1 else 0];
    }

    method WriteU16(v: u16)
      modifies this
      ensures cursor == U16Format().put(old(cursor), v)
    {
      cursor := cursor + LittleEndian.Write(v, 2);
      ViaPuts(Unsigned(2), OfU16, ToU16, old(cursor), v);
    }

    method WriteU64(v: u64)
      modifies this
      ensures cursor == U64Format().put(old(cursor), v)
    {
      cursor := cursor + LittleEndian.Write(v, 8);
      ViaPuts(Unsigned(8), OfU64, ToU64, old(cursor), v);
    }

    method WriteI32(v: i32)
      modifies this
      ensures cursor == Signed().put(old(cursor), v)
    {
      cursor := cursor + LittleEndian.Write(if v >= 0 then v else v + WHOLE, 4);
    }

    method WriteBytes(v: Bytes)
      modifies this
      ensures cursor == List(Octet()).put(old(cursor), v)
    {
      hide Signed;
      WriteI32(Truncated(|v|));
      ghost var start := cursor;
      for i := 0 to |v|
        invariant PutAll(Octet(), cursor, v[i..]) == PutAll(Octet(), start, v)
      {
        assert v[i..][1..] == v[i + 1..];
        WriteU8(v[i]);
      }
      ListUnfolds(Octet(), old(cursor), v, []);
    }

    method WriteString(v: Text)
      modifies this
      ensures cursor == TextFormat().put(old(cursor), v)
    {
      WriteBytes(v);
      ViaPuts(List(Octet()), OfText, ToText, old(cursor), v);
    }

    method WriteUuid(v: Uuid)
      modifies this
      ensures cursor == UuidFormat().put(old(cursor), v)
    {
      WriteBytes(v);
      ViaPuts(List(Octet()), OfUuid, ToUuid, old(cursor), v);
    }

    method WriteOptionString(v: Option<Text>)
      modifies this
      ensures cursor == Optional(TextFormat()).put(old(cursor), v)
    {
      hide TextFormat;
      WriteBool(v.Some?);
      if v.Some? {
        WriteString(v.value);
      }
    }

    method WriteDeviceType(v: DeviceType)
      modifies this
      ensures cursor == DeviceFormat().put(old(cursor), v)
    {
      hide Signed;
      ViaPuts(Signed(), OfDevice, ToDevice, cursor, v);
      match v
      case Mobile => WriteI32(0);
      case Desktop => WriteI32(1);
      case Web => WriteI32(2);
      case Headless => WriteI32(3);
      case Server => WriteI32(4);
    }

    method WriteOptionDeviceType(v: Option<DeviceType>)
      modifies this
      ensures cursor == Optional(DeviceFormat()).put(old(cursor), v)
    {
      hide DeviceFormat;
      WriteBool(v.Some?);
      if v.Some? {
        WriteDeviceType(v.value);
      }
    }

    method WriteProtocol(v: ProtocolType)
      modifies this
      ensures cursor == ProtocolFormat().put(old(cursor), v)
    {
      hide Signed;
      ViaPuts(Signed(), OfProtocol, ToProtocol, cursor, v);
      match v
      case Http => WriteI32(0);
      case Https => WriteI32(1);
    }

    method WriteClientInfo(v: ClientInfo)
      modifies this
      ensures cursor == InfoFormat().put(old(cursor), v)
    {
      hide UuidFormat, TextFormat, DeviceFormat, Optional;
      ViaPuts(InfoFieldsFormat(), OfInfo, ToInfo, cursor, v);
      WriteUuid(v.id);
      WriteString(v.alias);
      WriteString(v.version);
      WriteOptionString(v.deviceModel);
      WriteOptionDeviceType(v.deviceType);
      WriteString(v.token);
    }

    method WriteClientInfos(v: seq<ClientInfo>)
      modifies this
      ensures cursor == List(InfoFormat()).put(old(cursor), v)
    {
      hide Signed, InfoFormat;
      WriteI32(Truncated(|v|));
      ghost var start := cursor;
      for i := 0 to |v|
        invariant PutAll(InfoFormat(), cursor, v[i..]) == PutAll(InfoFormat(), start, v)
      {
        assert v[i..][1..] == v[i + 1..];
        WriteClientInfo(v[i]);
      }
      ListUnfolds(InfoFormat(), old(cursor), v, []);
    }

    method WriteSdpMessage(v: WsServerSdpMessage)
      modifies this
      ensures cursor == SdpFormat().put(old(cursor), v)
    {
      hide InfoFormat, TextFormat;
      ViaPuts(SdpFieldsFormat(), OfSdp, ToSdp, cursor, v);
      WriteClientInfo(v.peer);
      WriteString(v.sessionId);
      WriteString(v.sdp);
    }

    method WriteServerMessage(v: WsServerMessage)
      modifies this
      ensures cursor == PutMessage(old(cursor), v) == old(cursor) + MessageLayout(v)
    {
      hide Signed, InfoFormat, UuidFormat, SdpFormat, U16Format, List, MessageLayout;
      MessageWritten(cursor, v);
      match v {
        case Hello(client, peers) =>
          WriteI32(0);
          WriteClientInfo(client);
          WriteClientInfos(peers);
        case Join(peer) =>
          WriteI32(1);
          WriteClientInfo(peer);
        case Update(peer) =>
          WriteI32(2);
          WriteClientInfo(peer);
        case Left(peerId) =>
          WriteI32(3);
          WriteUuid(peerId);
        case Offer(sdp) =>
          WriteI32(4);
          WriteSdpMessage(sdp);
        case Answer(sdp) =>
          WriteI32(5);
          WriteSdpMessage(sdp);
        case Error(code) =>
          WriteI32(6);
          WriteU16(code);
      }
    }

    method WriteMetadata(v: FileMetadata)
      modifies this
      ensures cursor == MetadataFormat().put(old(cursor), v)
    {
      hide TextFormat, Optional;
      ViaPuts(Pair(Optional(TextFormat()), Optional(TextFormat())), OfMetadata, ToMetadata, cursor, v);
      WriteOptionString(v.modified);
      WriteOptionString(v.accessed);
    }

    method WriteOptionMetadata(v: Option<FileMetadata>)
      modifies this
      ensures cursor == Optional(MetadataFormat()).put(old(cursor), v)
    {
      hide MetadataFormat;
      WriteBool(v.Some?);
      if v.Some? {
        WriteMetadata(v.value);
      }
    }

    method WriteFile(v: FileDto)
      modifies this
      ensures cursor == FileFormat().put(old(cursor), v)
    {
      hide TextFormat, U64Format, MetadataFormat, Optional;
      ViaPuts(FileFieldsFormat(), OfFile, ToFile, cursor, v);
      WriteString(v.id);
      WriteString(v.fileName);
      WriteU64(v.size);
      WriteString(v.fileType);
      WriteOptionString(v.sha256);
      WriteOptionString(v.preview);
      WriteOptionMetadata(v.metadata);
    }

    method WriteRegister(v: RegisterDto)
      modifies this
      ensures cursor == RegisterFormat().put(old(cursor), v)
    {
      hide TextFormat, U16Format, DeviceFormat, ProtocolFormat, Optional, Flag;
      ViaPuts(RegisterFieldsFormat(), OfRegister, ToRegister, cursor, v);
      WriteString(v.alias);
      WriteString(v.version);
      WriteOptionString(v.deviceModel);
      WriteOptionDeviceType(v.deviceType);
      WriteString(v.token);
      WriteU16(v.port);
      WriteProtocol(v.protocol);
      WriteBool(v.hasWebInterface);
    }

    method WriteEntries(v: seq<Entry>)
      modifies this
      ensures cursor == List(EntryFormat()).put(old(cursor), v)
    {
      hide Signed, TextFormat, FileFormat;
      WriteI32(Truncated(|v|));
      ghost var start := cursor;
      for i := 0 to |v|
        invariant PutAll(EntryFormat(), cursor, v[i..]) == PutAll(EntryFormat(), start, v)
      {
        assert v[i..][1..] == v[i + 1..];
        WriteString(v[i].0);
        WriteFile(v[i].1);
      }
      ListUnfolds(EntryFormat(), old(cursor), v, []);
    }

    /** The map is drained in whatever order it iterates. */
    method WriteFiles(v: map<Text, FileDto>) returns (ghost order: seq<Entry>)
      modifies this
      ensures Iterates(order, v)
      ensures cursor == List(EntryFormat()).put(old(cursor), order)
    {
      hide *;
      var entries: seq<Entry> := [];
      var left := v;
      DrainEnds(entries, v);
      while left != map[]
        invariant Drained(entries, left, v) && cursor == old(cursor)
        decreases |left|
      {
        var k :| k in left;
        DrainOne(entries, left, v, k);
        entries, left := entries + [(k, left[k])], left - {k};
      }
      DrainEnds(entries, v);
      WriteEntries(entries);
      order := entries;
    }

    method WritePrepareUpload(v: PrepareUploadRequestDto) returns (ghost order: seq<Entry>)
      modifies this
      ensures Iterates(order, v.files)
      ensures cursor == RequestFormat().put(old(cursor), (v.info, order)) == old(cursor) + RequestLayout(v.info, order)
    {
      hide RegisterFormat, List, Iterates, RequestLayout;
      WriteRegister(v.info);
      order := WriteFiles(v.files);
      RequestWritten(old(cursor), v.info, order);
    }
  }

  /** What a decoding method does to the unread bytes, given a format. */
  ghost predicate Reads<T>(f: Format<T>, before: Bytes, r: Outcome<T>, after: Bytes) {
    f.get(before) == if r.Panics? then Panics else Value((r.value, after))
  }

  class Deserializer {
    const data: Bytes
    var position: nat

    ghost predicate Valid()
      reads this
    {
      position <= |data|
    }

    ghost function Unread(): Bytes
      reads this
      requires Valid()
    {
      data[position..]
    }

    constructor (data: Bytes)
      ensures Valid() && Unread() == data
    {
      this.data := data;
      position := 0;
    }

    /** The next bytes, or the panic of an unwrapped end of input. */
    method ReadExact(width: nat) returns (r: Outcome<Bytes>)
      requires Valid()
      modifies `position
      ensures Valid()
      ensures if |old(Unread())| < width then r == Panics
              else r == Value(old(Unread())[..width]) && Unread() == old(Unread())[width..]
    {
      if |data| - position < width {
        return Panics;
      }
      assert data[position..][..width] == data[position..position + width];
      r := Value(data[position..position + width]);
      position := position + width;
    }

    method ReadU8() returns (r: Outcome<u8>)
      requires Valid()
      modifies `position
      ensures Valid() && Reads(Octet(), old(Unread()), r, Unread())
    {
      var b :- ReadExact(1);
      r := Value(b[0]);
    }

    method ReadBool() returns (r: Outcome<bool>)
      requires Valid()
      modifies `position
      ensures Valid() && Reads(Flag(), old(Unread()), r, Unread())
    {
      var b :- ReadU8();
      r := Value(b != 0);
    }

    method ReadI32() returns (r: Outcome<i32>)
      requires Valid()
      modifies `position
      ensures Valid() && Reads(Signed(), old(Unread()), r, Unread())
    {
      ViaGets(Unsigned(4), OfSigned, ToSigned, Unread());
      var b :- ReadExact(4);
      LittleEndian.ReadBound(b);
      assert LittleEndian.Capacity(4) == WHOLE;
      var n := LittleEndian.Read(b);
      r := Value(if n < HALF then n else n - WHOLE);
    }

    method ReadU16() returns (r: Outcome<u16>)
      requires Valid()
      modifies `position
      ensures Valid() && Reads(U16Format(), old(Unread()), r, Unread())
    {
      ViaGets(Unsigned(2), OfU16, ToU16, Unread());
      var b :- ReadExact(2);
      LittleEndian.ReadBound(b);
      assert LittleEndian.Capacity(2) == 0x1_0000;
      r := Value(LittleEndian.Read(b));
    }

    method ReadU64() returns (r: Outcome<u64>)
      requires Valid()
      modifies `position
      ensures Valid() && Reads(U64Format(), old(Unread()), r, Unread())
    {
      ViaGets(Unsigned(8), OfU64, ToU64, Unread());
      var b :- ReadExact(8);
      LittleEndian.ReadBound(b);
      assert LittleEndian.Capacity(8) == 0x1_0000_0000_0000_0000;
      r := Value(LittleEndian.Read(b));
    }

    method ReadBytes() returns (r: Outcome<Bytes>)
      requires Valid()
      modifies `position
      ensures Valid() && Reads(List(Octet()), old(Unread()), r, Unread())
    {
      hide Signed;
      ListUnfolds(Octet(), [], [], Unread());
      var length: int :- ReadI32();
      ghost var start := Unread();
      var items: Bytes := [];
      var i := 0;
      while i < length
        invariant Valid() && 0 <= i
        invariant GetMany(Octet(), length - i, items, Unread()) == GetMany(Octet(), length, [], start)
      {
        var item :- ReadU8();
        items := items + [item];
        i := i + 1;
      }
      r := Value(items);
    }

    method ReadString() returns (r: Outcome<Text>)
      requires Valid()
      modifies `position
      ensures Valid() && Reads(TextFormat(), old(Unread()), r, Unread())
    {
      hide List;
      ViaGets(List(Octet()), OfText, ToText, Unread());
      var bytes :- ReadBytes();
      r := if Utf8(bytes) then Value(bytes) else Panics;
    }

    method ReadUuid() returns (r: Outcome<Uuid>)
      requires Valid()
      modifies `position
      ensures Valid() && Reads(UuidFormat(), old(Unread()), r, Unread())
    {
      hide List;
      ViaGets(List(Octet()), OfUuid, ToUuid, Unread());
      var bytes :- ReadBytes();
      r := if |bytes| == 16 then Value(bytes) else Panics;
    }

    method ReadOptionString() returns (r: Outcome<Option<Text>>)
      requires Valid()
      modifies `position
      ensures Valid() && Reads(Optional(TextFormat()), old(Unread()), r, Unread())
    {
      hide TextFormat;
      var present :- ReadBool();
      if present {
        var value :- ReadString();
        r := Value(Some(value));
      } else {
        r := Value(None);
      }
    }

    method ReadDeviceType() returns (r: Outcome<DeviceType>)
      requires Valid()
      modifies `position
      ensures Valid() && Reads(DeviceFormat(), old(Unread()), r, Unread())
    {
      hide Signed;
      ViaGets(Signed(), OfDevice, ToDevice, Unread());
      var n :- ReadI32();
      match n {
        case 0 => r := Value(Mobile);
        case 1 => r := Value(Desktop);
        case 2 => r := Value(Web);
        case 3 => r := Value(Headless);
        case 4 => r := Value(Server);
        case _ => r := Panics;
      }
    }

    method ReadOptionDeviceType() returns (r: Outcome<Option<DeviceType>>)
      requires Valid()
      modifies `position
      ensures Valid() && Reads(Optional(DeviceFormat()), old(Unread()), r, Unread())
    {
      hide DeviceFormat;
      var present :- ReadBool();
      if present {
        var value :- ReadDeviceType();
        r := Value(Some(value));
      } else {
        r := Value(None);
      }
    }

    method ReadProtocol() returns (r: Outcome<ProtocolType>)
      requires Valid()
      modifies `position
      ensures Valid() && Reads(ProtocolFormat(), old(Unread()), r, Unread())
    {
      hide Signed;
      ViaGets(Signed(), OfProtocol, ToProtocol, Unread());
      var n :- ReadI32();
      match n {
        case 0 => r := Value(Http);
        case 1 => r := Value(Https);
        case _ => r := Panics;
      }
    }

    method ReadClientInfo() returns (r: Outcome<ClientInfo>)
      requires Valid()
      modifies `position
      ensures Valid() && Reads(InfoFormat(), old(Unread()), r, Unread())
    {
      hide UuidFormat, TextFormat, DeviceFormat, Optional;
      ViaGets(InfoFieldsFormat(), OfInfo, ToInfo, Unread());
      var id :- ReadUuid();
      var alias :- ReadString();
      var version :- ReadString();
      var deviceModel :- ReadOptionString();
      var deviceType :- ReadOptionDeviceType();
      var token :- ReadString();
      r := Value(ClientInfo(id, alias, version, deviceModel, deviceType, token));
    }

    method ReadClientInfos() returns (r: Outcome<seq<ClientInfo>>)
      requires Valid()
      modifies `position
      ensures Valid() && Reads(List(InfoFormat()), old(Unread()), r, Unread())
    {
      hide Signed, InfoFormat;
      ListUnfolds(InfoFormat(), [], [], Unread());
      var length: int :- ReadI32();
      ghost var start := Unread();
      var items: seq<ClientInfo> := [];
      var i := 0;
      while i < length
        invariant Valid() && 0 <= i
        invariant GetMany(InfoFormat(), length - i, items, Unread()) == GetMany(InfoFormat(), length, [], start)
      {
        var item :- ReadClientInfo();
        items := items + [item];
        i := i + 1;
      }
      r := Value(items);
    }

    method ReadSdpMessage() returns (r: Outcome<WsServerSdpMessage>)
      requires Valid()
      modifies `position
      ensures Valid() && Reads(SdpFormat(), old(Unread()), r, Unread())
    {
      hide InfoFormat, TextFormat;
      ViaGets(SdpFieldsFormat(), OfSdp, ToSdp, Unread());
      var peer :- ReadClientInfo();
      var sessionId :- ReadString();
      var sdp :- ReadString();
      r := Value(WsServerSdpMessage(peer, sessionId, sdp));
    }

    method ReadServerMessage() returns (r: Outcome<WsServerMessage>)
      requires Valid()
      modifies `position
      ensures Valid() && Reads(MessageFormat(), old(Unread()), r, Unread())
    {
      hide Signed, InfoFormat, UuidFormat, SdpFormat, U16Format, List;
      var tag :- ReadI32();
      match tag {
        case 0 =>
          var client :- ReadClientInfo();
          var peers :- ReadClientInfos();
          r := Value(Hello(client, peers));
        case 1 =>
          var peer :- ReadClientInfo();
          r := Value(Join(peer));
        case 2 =>
          var peer :- ReadClientInfo();
          r := Value(Update(peer));
        case 3 =>
          var peerId :- ReadUuid();
          r := Value(Left(peerId));
        case 4 =>
          var sdp :- ReadSdpMessage();
          r := Value(Offer(sdp));
        case 5 =>
          var sdp :- ReadSdpMessage();
          r := Value(Answer(sdp));
        case 6 =>
          var code :- ReadU16();
          r := Value(Error(code));
        case _ =>
          r := Panics;
      }
    }

    method ReadMetadata() returns (r: Outcome<FileMetadata>)
      requires Valid()
      modifies `position
      ensures Valid() && Reads(MetadataFormat(), old(Unread()), r, Unread())
    {
      hide TextFormat, Optional;
      ViaGets(Pair(Optional(TextFormat()), Optional(TextFormat())), OfMetadata, ToMetadata, Unread());
      var modified :- ReadOptionString();
      var accessed :- ReadOptionString();
      r := Value(FileMetadata(modified, accessed));
    }

    method ReadOptionMetadata() returns (r: Outcome<Option<FileMetadata>>)
      requires Valid()
      modifies `position
      ensures Valid() && Reads(Optional(MetadataFormat()), old(Unread()), r, Unread())
    {
      hide MetadataFormat;
      var present :- ReadBool();
      if present {
        var value :- ReadMetadata();
        r := Value(Some(value));
      } else {
        r := Value(None);
      }
    }

    method ReadFile() returns (r: Outcome<FileDto>)
      requires Valid()
      modifies `position
      ensures Valid() && Reads(FileFormat(), old(Unread()), r, Unread())
    {
      hide TextFormat, U64Format, MetadataFormat, Optional;
      ViaGets(FileFieldsFormat(), OfFile, ToFile, Unread());
      var id :- ReadString();
      var fileName :- ReadString();
      var size :- ReadU64();
      var fileType :- ReadString();
      var sha256 :- ReadOptionString();
      var preview :- ReadOptionString();
      var metadata :- ReadOptionMetadata();
      r := Value(FileDto(id, fileName, size, fileType, sha256, preview, metadata));
    }

    method ReadRegister() returns (r: Outcome<RegisterDto>)
      requires Valid()
      modifies `position
      ensures Valid() && Reads(RegisterFormat(), old(Unread()), r, Unread())
    {
      hide TextFormat, U16Format, DeviceFormat, ProtocolFormat, Optional, Flag;
      ViaGets(RegisterFieldsFormat(), OfRegister, ToRegister, Unread());
      var alias :- ReadString();
      var version :- ReadString();
      var deviceModel :- ReadOptionString();
      var deviceType :- ReadOptionDeviceType();
      var token :- ReadString();
      var port :- ReadU16();
      var protocol :- ReadProtocol();
      var hasWebInterface :- ReadBool();
      r := Value(RegisterDto(alias, version, deviceModel, deviceType, token, port, protocol, hasWebInterface));
    }

    method ReadEntry() returns (r: Outcome<Entry>)
      requires Valid()
      modifies `position
      ensures Valid() && Reads(EntryFormat(), old(Unread()), r, Unread())
    {
      hide TextFormat, FileFormat;
      var key :- ReadString();
      var file :- ReadFile();
      r := Value((key, file));
    }

    method ReadEntries() returns (r: Outcome<seq<Entry>>)
      requires Valid()
      modifies `position
      ensures Valid() && Reads(List(EntryFormat()), old(Unread()), r, Unread())
    {
      hide Signed, EntryFormat;
      ListUnfolds(EntryFormat(), [], [], Unread());
      var length: int :- ReadI32();
      ghost var start := Unread();
      var items: seq<Entry> := [];
      var i := 0;
      while i < length
        invariant Valid() && 0 <= i
        invariant GetMany(EntryFormat(), length - i, items, Unread()) == GetMany(EntryFormat(), length, [], start)
      {
        var item :- ReadEntry();
        items := items + [item];
        i := i + 1;
      }
      r := Value(items);
    }

    /** The entries are collected one after another into the map. */
    method ReadPrepareUpload() returns (r: Outcome<PrepareUploadRequestDto>)
      requires Valid()
      modifies `position
      ensures Valid()
      ensures GetRequest(old(Unread())) == if r.Panics? then Panics else Value((r.value, Unread()))
    {
      hide RegisterFormat, List;
      var info :- ReadRegister();
      var entries :- ReadEntries();
      var files: map<Text, FileDto> := map[];
      for i := 0 to |entries|
        invariant files == Collect(entries[..i])
      {
        assert entries[..i + 1][..i] == entries[..i];
        files := files[entries[i].0 := entries[i].1];
      }
      assert entries[..|entries|] == entries;
      r := Value(PrepareUploadRequestDto(info, files));
    }
  }

  // ----- Across the bridge --------------------------------------------------

  /** A server message written on one side and read on the other is the same message exactly if its lengths fit. */
  method PassServerMessage(m: WsServerMessage) returns (r: Outcome<WsServerMessage>, unread: nat)
    ensures r == Value(m) && unread == 0 <==> ShortMessage(m)
  {
    hide PutMessage, GetMessage, VariantFits, ShortMessage;
    var serializer := new Serializer();
    serializer.WriteServerMessage(m);
    var deserializer := new Deserializer(serializer.cursor);
    MessageRoundTrip([], m, []);
    ghost var none: Bytes := [];
    assert (PutMessage(none, m) + [])[|none|..] == serializer.cursor == deserializer.Unread();
    r := deserializer.ReadServerMessage();
    unread := |deserializer.data| - deserializer.position;
    assert unread == 0 <==> deserializer.Unread() == [];
  }

  /** The same of an upload request, in whatever order the sending side drains its map. */
  method PassPrepareUpload(dto: PrepareUploadRequestDto) returns (r: Outcome<PrepareUploadRequestDto>, unread: nat)
    ensures r == Value(dto) && unread == 0 <==> ShortRequest(dto)
  {
    hide RequestFormat, GetRequest, ShortRequest, Iterates;
    var serializer := new Serializer();
    ghost var order := serializer.WritePrepareUpload(dto);
    var deserializer := new Deserializer(serializer.cursor);
    RequestRoundTrip([], dto, order, []);
    ghost var none: Bytes := [];
    assert (RequestFormat().put(none, (dto.info, order)) + [])[|none|..] == serializer.cursor == deserializer.Unread();
    r := deserializer.ReadPrepareUpload();
    unread := |deserializer.data| - deserializer.position;
    assert unread == 0 <==> deserializer.Unread() == [];
  }
}
