/**
 The eD2K wire format of tags and file lists (ed2k/buffer.go, ed2k/packet.go), on values:
 what the printers write and what the parsers read back. The class in Buffers.dfy does the
 same over an array and a cursor.
 */
module Codec {
  import opened Bytes

  const TYPE_HASH: Byte := 0x01
  const TYPE_STRING: Byte := 0x02
  const TYPE_UINT32: Byte := 0x03
  const TYPE_FLOAT: Byte := 0x04
  const TYPE_BOOL: Byte := 0x05
  const TYPE_BOOL_ARRAY: Byte := 0x06
  const TYPE_BLOB: Byte := 0x07
  const TYPE_UINT16: Byte := 0x08
  const TYPE_UINT8: Byte := 0x09
  const TYPE_BSOB: Byte := 0x0a
  const TYPE_UINT64: Byte := 0x0b

  const HASH_SIZE: nat := 16
  const MIN_TAG_BYTES: nat := 2
  const MIN_FILE_BYTES: nat := 26
  const PARTIAL_ID: nat := 0xfcfcfcfc
  const PARTIAL_PORT: nat := 0xfcfc

  // ---------------------------------------------------------------- printing

  /** A tag to write, named by its one-byte code. */
  datatype Tag =
    | StringTag(code: Byte, text: seq<Byte>)
    | HashTag(code: Byte, hash: seq<Byte>)
    | IntTag(code: Byte, width: Width, n: nat)

  datatype Width = W8 | W16 | W32 | W64

  function Octets(w: Width): nat {
    match w case W8 => 1 case W16 => 2 case W32 => 4 case W64 => 8
  }

  function TypeOf(t: Tag): Byte {
    match t
    case StringTag(_, _) => TYPE_STRING
    case HashTag(_, _) => TYPE_HASH
    case IntTag(_, w, _) => match w case W8 => TYPE_UINT8 case W16 => TYPE_UINT16 case W32 => TYPE_UINT32 case W64 => TYPE_UINT64
  }

  /** A string under its 16-bit length, which wraps. */
  function PrintString(s: seq<Byte>): seq<Byte> { LittleEndian(|s| % U16, 2) + s }

  function PrintValue(t: Tag): seq<Byte> {
    match t
    case StringTag(_, text) => PrintString(text)
    case HashTag(_, hash) => hash
    case IntTag(_, w, n) => LittleEndian(n, Octets(w))
  }

  function PrintTag(t: Tag): seq<Byte> { [TypeOf(t)] + LittleEndian(1, 2) + [t.code] + PrintValue(t) }

  function PrintAll(ts: seq<Tag>): seq<Byte> {
    if ts == [] then [] else PrintTag(ts[0]) + PrintAll(ts[1..])
  }

  /** One field of a packet. */
  datatype Item =
    | IntItem(width: Width, n: nat)
    | StringItem(text: seq<Byte>)
    | HashItem(hash: seq<Byte>)
    | TagsItem(tags: seq<Tag>)
    | ShortTagsItem(tags: seq<Tag>)

  function PrintItem(i: Item): seq<Byte> {
    match i
    case IntItem(w, n) => LittleEndian(n, Octets(w))
    case StringItem(s) => PrintString(s)
    case HashItem(h) => h
    case TagsItem(ts) => LittleEndian(|ts|, 4) + PrintAll(ts)
    case ShortTagsItem(ts) => LittleEndian(|ts|, 1) + PrintAll(ts)
  }

  function PrintItems(items: seq<Item>): seq<Byte> {
    if items == [] then [] else PrintItem(items[0]) + PrintItems(items[1..])
  }

  /** Printers refuse a hash that is not 16 bytes, and nothing else. */
  predicate Printable(t: Tag) { t.HashTag? ==> |t.hash| == HASH_SIZE }

  predicate PrintableItem(i: Item) {
    match i
    case HashItem(h) => |h| == HASH_SIZE
    case TagsItem(ts) => forall j :: 0 <= j < |ts| ==> Printable(ts[j])
    case ShortTagsItem(ts) => forall j :: 0 <= j < |ts| ==> Printable(ts[j])
    case _ => true
  }

  // ---------------------------------------------------------------- parsing

  datatype Parsed<+T> = Bad | Good(value: T, rest: seq<Byte>)

  function ReadNumber(s: seq<Byte>, n: nat): Parsed<nat> {
    if |s| < n then Bad else Good(Number(s[..n]), s[n..])
  }

  function ReadBytes(s: seq<Byte>, n: nat): Parsed<seq<Byte>> {
    if |s| < n then Bad else Good(s[..n], s[n..])
  }

  function ReadString(s: seq<Byte>): Parsed<seq<Byte>> {
    var l := ReadNumber(s, 2);
    if l.Bad? then Bad else ReadBytes(l.rest, l.value)
  }

  /** A decoded tag value; every integer width reads as one number. */
  datatype Value =
    | Text(text: seq<Byte>) | Int(n: nat) | Raw(bytes: seq<Byte>) | Float(bits: nat) | Bool(b: bool) | Nothing

  function ReadInt(s: seq<Byte>, n: nat): Parsed<Value> {
    var r := ReadNumber(s, n);
    if r.Bad? then Bad else Good(Int(r.value), r.rest)
  }

  function ReadRaw(s: seq<Byte>, n: nat): Parsed<Value> {
    var r := ReadBytes(s, n);
    if r.Bad? then Bad else Good(Raw(r.value), r.rest)
  }

  function ReadText(s: seq<Byte>, n: nat): Parsed<Value> {
    var r := ReadBytes(s, n);
    if r.Bad? then Bad else Good(Text(r.value), r.rest)
  }

  /** Bytes under a length prefix of `n` bytes. */
  function ReadSized(s: seq<Byte>, n: nat): Parsed<Value> {
    var l := ReadNumber(s, n);
    if l.Bad? then Bad else ReadRaw(l.rest, l.value)
  }

  function ReadValue(s: seq<Byte>, typ: Byte): Parsed<Value> {
    if typ == TYPE_STRING then (var r := ReadString(s); if r.Bad? then Bad else Good(Text(r.value), r.rest))
    else if typ == TYPE_UINT8 then ReadInt(s, 1)
    else if typ == TYPE_UINT16 then ReadInt(s, 2)
    else if typ == TYPE_UINT32 then ReadInt(s, 4)
    else if typ == TYPE_UINT64 then ReadInt(s, 8)
    else if typ == TYPE_HASH then ReadRaw(s, HASH_SIZE)
    else if typ == TYPE_FLOAT then (var r := ReadNumber(s, 4); if r.Bad? then Bad else Good(Float(r.value), r.rest))
    else if typ == TYPE_BOOL then (var r := ReadNumber(s, 1); if r.Bad? then Bad else Good(Bool(r.value != 0), r.rest))
    else if typ == TYPE_BLOB then ReadSized(s, 4)
    else if typ == TYPE_BSOB then ReadSized(s, 1)
    else if typ == TYPE_BOOL_ARRAY then
      var l := ReadNumber(s, 2);
      if l.Bad? then Bad
      else (var r := ReadBytes(l.rest, l.value / 8 + 1); if r.Bad? then Bad else Good(Nothing, r.rest))
    else if 0x11 <= typ <= 0x20 then ReadText(s, typ - 0x10)
    else Bad
  }

  /** The tags a file record has a field for. */
  datatype Field = FName | FType | FTitle | FArtist | FAlbum | FCodec | FSources | FLength | FBitrate | FSize | FSizeHi

  /** A tag's name: a field's, or another text, which the tag spells or its code stands for. */
  datatype Name = Of(field: Field) | Called(text: seq<Byte>)

  function HexDigit(n: nat): char
    requires n < 16
  {
    "0123456789abcdef"[n]
  }

  /** What the codes without a field are called; an unknown one by its number. */
  function CodeName(code: Byte): string {
    match code
    case 0x04 => "format" case 0x0b => "description" case 0x0e => "searchtree" case 0x0f => "port2"
    case 0x11 => "version" case 0x20 => "flags" case 0x55 => "modversion" case 0x9c => "metaapifp"
    case 0x9d => "natport" case 0x9e => "metaapi" case 0x9f => "metaapiver" case 0xe3 => "ed3k"
    case 0xab => "ipv6status" case 0xad => "yourip" case 0xae => "ipv6" case 0xaf => "svripv6"
    case 0xf7 => "rating" case 0xf9 => "udpports" case 0xfa => "options1" case 0xfb => "muleversion"
    case 0xfe => "options2"
    case _ => "0x" + (if code < 16 then [HexDigit(code)] else [HexDigit(code / 16), HexDigit(code % 16)])
  }

  function Ascii(s: string): seq<Byte> {
    seq(|s|, i requires 0 <= i < |s| => if s[i] < 256 as char then s[i] as int else 0)
  }

  function FieldNamed(code: Byte): Name {
    match code
    case 0x01 => Of(FName) case 0x02 => Of(FSize) case 0x03 => Of(FType) case 0x15 => Of(FSources)
    case 0x3a => Of(FSizeHi) case 0xd0 => Of(FArtist) case 0xd1 => Of(FAlbum) case 0xd2 => Of(FTitle)
    case 0xd3 => Of(FLength) case 0xd4 => Of(FBitrate) case 0xd5 => Of(FCodec)
    case _ => Called(Ascii(CodeName(code)))
  }

  /** A tag may spell a field's name out. */
  function FieldSpelled(text: seq<Byte>): Name {
    if text == Ascii("name") then Of(FName)
    else if text == Ascii("type") then Of(FType)
    else if text == Ascii("title") then Of(FTitle)
    else if text == Ascii("artist") then Of(FArtist)
    else if text == Ascii("album") then Of(FAlbum)
    else if text == Ascii("codec") then Of(FCodec)
    else if text == Ascii("sources") then Of(FSources)
    else if text == Ascii("length") then Of(FLength)
    else if text == Ascii("bitrate") then Of(FBitrate)
    else if text == Ascii("size") then Of(FSize)
    else if text == Ascii("sizehi") then Of(FSizeHi)
    else Called(text)
  }

  datatype NamedTag = NamedTag(name: Name, value: Value, typ: Byte)

  function Shown(typ: Byte): Byte { if 0x11 <= typ <= 0x20 then TYPE_STRING else typ }

  /** The value of a tag whose name has been read. */
  function ReadNamed(s: seq<Byte>, name: Name, typ: Byte): Parsed<NamedTag> {
    var v := ReadValue(s, typ);
    if v.Bad? then Bad else Good(NamedTag(name, v.value, Shown(typ)), v.rest)
  }

  /** A short-form tag: the type's high bit set, a one-byte name, short strings sized by the type. */
  function ReadShortTag(s: seq<Byte>, typ: Byte): Parsed<NamedTag>
    requires typ < 0x80
  {
    var c := ReadNumber(s, 1);
    if c.Bad? then Bad
    else
      var code: Byte := s[0];
      if typ >= 0x10 then
        var v := ReadText(c.rest, typ - 0x10);
        if v.Bad? then Bad else Good(NamedTag(FieldNamed(code), v.value, TYPE_STRING), v.rest)
      else ReadNamed(c.rest, FieldNamed(code), typ)
  }

  function ReadTag(s: seq<Byte>): Parsed<NamedTag> {
    if s == [] then Bad
    else if s[0] >= 0x80 then ReadShortTag(s[1..], s[0] - 0x80)
    else
      var l := ReadNumber(s[1..], 2);
      if l.Bad? then Bad
      else if l.value == 1 then
        if l.rest == [] then Bad else ReadNamed(l.rest[1..], FieldNamed(l.rest[0]), s[0])
      else
        var n := ReadBytes(l.rest, l.value);
        if n.Bad? then Bad else ReadNamed(n.rest, FieldSpelled(n.value), s[0])
  }

  // ---------------------------------------------------------------- file records

  datatype FileRecord = FileRecord(
    hash: seq<Byte>, complete: bool, id: nat, port: nat,
    name: seq<Byte>, kind: seq<Byte>, sources: nat,
    title: seq<Byte>, artist: seq<Byte>, album: seq<Byte>, length: nat, bitrate: nat, codec: seq<Byte>,
    sizeLo: nat, sizeHi: nat, extra: seq<NamedTag>)
  {
    /** The size as its two tags give it, in 64 bits. */
    function Size(): nat { (sizeLo + sizeHi * U32) % U64 }
  }

  function TextOf(v: Value): seq<Byte> { if v.Text? then v.text else [] }

  function IntOf(v: Value): nat { if v.Int? then v.n else 0 }

  /** An integer for a 32-bit field, saturating. */
  function Int32Of(v: Value): nat { var n := IntOf(v); if n >= U32 then U32 - 1 else n }

  function SetField(r: FileRecord, f: Field, v: Value): FileRecord {
    match f
    case FName => r.(name := TextOf(v))
    case FType => r.(kind := TextOf(v))
    case FTitle => r.(title := TextOf(v))
    case FArtist => r.(artist := TextOf(v))
    case FAlbum => r.(album := TextOf(v))
    case FCodec => r.(codec := TextOf(v))
    case FSources => r.(sources := Int32Of(v))
    case FLength => r.(length := Int32Of(v))
    case FBitrate => r.(bitrate := Int32Of(v))
    case FSize => r.(sizeLo := IntOf(v))
    case FSizeHi => r.(sizeHi := IntOf(v))
  }

  /** A number too large for its field is cut to the largest it holds, and a value of another type reads as none. */
  lemma FieldValues(r: FileRecord, n: nat, text: seq<Byte>)
    ensures var most := if n > 0xffff_ffff then 0xffff_ffff else n;
            && SetField(r, FSources, Int(n)) == r.(sources := most)
            && SetField(r, FLength, Int(n)) == r.(length := most)
            && SetField(r, FBitrate, Int(n)) == r.(bitrate := most)
    ensures SetField(r, FSources, Text(text)) == r.(sources := 0) && SetField(r, FSize, Text(text)) == r.(sizeLo := 0)
    ensures SetField(r, FName, Text(text)) == r.(name := text) && SetField(r, FName, Int(n)) == r.(name := [])
    ensures SetField(r, FSize, Int(n)) == r.(sizeLo := n) && SetField(r, FSizeHi, Int(n)) == r.(sizeHi := n)
  {
  }

  lemma FieldTexts(r: FileRecord, text: seq<Byte>)
    ensures SetField(r, FType, Text(text)) == r.(kind := text) && SetField(r, FTitle, Text(text)) == r.(title := text)
    ensures SetField(r, FArtist, Text(text)) == r.(artist := text) && SetField(r, FAlbum, Text(text)) == r.(album := text)
    ensures SetField(r, FCodec, Text(text)) == r.(codec := text)
  {
  }

  function SetTag(r: FileRecord, t: NamedTag, keepExtra: bool): FileRecord {
    if t.name.Of? then SetField(r, t.name.field, t.value)
    else if keepExtra then r.(extra := r.extra + [t])
    else r
  }

  function SetTags(r: FileRecord, ts: seq<NamedTag>, keepExtra: bool): FileRecord
    decreases ts
  {
    if ts == [] then r else SetTags(SetTag(r, ts[0], keepExtra), ts[1..], keepExtra)
  }

  /** `n` tags from `s`, whatever was left in it. */
  function ReadTags(s: seq<Byte>, n: nat): Parsed<seq<NamedTag>>
    decreases n
  {
    if n == 0 then Good([], s)
    else
      var t := ReadTag(s);
      if t.Bad? then Bad
      else
        var ts := ReadTags(t.rest, n - 1);
        if ts.Bad? then Bad else Good([t.value] + ts.value, ts.rest)
  }

  /** A declared count is refused when the bytes left could not hold it. */
  predicate CountFits(count: nat, left: nat, each: nat)
    requires each > 0
  {
    count <= left / each
  }

  function ReadTagList(s: seq<Byte>): Parsed<seq<NamedTag>> {
    var c := ReadNumber(s, 4);
    if c.Bad? || !CountFits(c.value, |c.rest|, MIN_TAG_BYTES) then Bad else ReadTags(c.rest, c.value)
  }

  function ReadFile(s: seq<Byte>, keepExtra: bool): Parsed<FileRecord> {
    if |s| < HASH_SIZE + 6 then Bad
    else
      var id, port := Number(s[HASH_SIZE..HASH_SIZE + 4]), Number(s[HASH_SIZE + 4..HASH_SIZE + 6]);
      var ts := ReadTagList(s[HASH_SIZE + 6..]);
      if ts.Bad? then Bad
      else
        Good(SetTags(Bare(s[..HASH_SIZE], id, port), ts.value, keepExtra), ts.rest)
  }

  function ReadFiles(s: seq<Byte>, n: nat, keepExtra: bool): Parsed<seq<FileRecord>>
    decreases n
  {
    if n == 0 then Good([], s)
    else
      var f := ReadFile(s, keepExtra);
      if f.Bad? then Bad
      else
        var fs := ReadFiles(f.rest, n - 1, keepExtra);
        if fs.Bad? then Bad else Good([f.value] + fs.value, fs.rest)
  }

  function ReadFileList(s: seq<Byte>, keepExtra: bool): Parsed<seq<FileRecord>> {
    var c := ReadNumber(s, 4);
    if c.Bad? || !CountFits(c.value, |c.rest|, MIN_FILE_BYTES) then Bad else ReadFiles(c.rest, c.value, keepExtra)
  }

  // ---------------------------------------------------------------- the guards cost nothing

  lemma ValueConsumes(s: seq<Byte>, typ: Byte)
    ensures var v := ReadValue(s, typ); v.Good? ==> |v.rest| <= |s|
  {
    hide Number;
  }

  /** Every tag takes at least two bytes. */
  lemma TagConsumes(s: seq<Byte>)
    ensures var t := ReadTag(s); t.Good? ==> |t.rest| + MIN_TAG_BYTES <= |s|
  {
    hide Number, ReadValue, FieldNamed, FieldSpelled;
    forall t: seq<Byte>, typ: Byte ensures var v := ReadValue(t, typ); v.Good? ==> |v.rest| <= |t| {
      ValueConsumes(t, typ);
    }
  }

  lemma {:induction false} TagsConsume(s: seq<Byte>, n: nat)
    ensures var ts := ReadTags(s, n);
            ts.Good? ==> |ts.value| == n && |ts.rest| + n * MIN_TAG_BYTES <= |s|
    decreases n
  {
    hide ReadTag;
    if n > 0 {
      TagConsumes(s);
      if ReadTag(s).Good? { TagsConsume(ReadTag(s).rest, n - 1); }
    }
  }

  lemma FileConsumes(s: seq<Byte>, keepExtra: bool)
    ensures var f := ReadFile(s, keepExtra);
            f.Good? ==> |f.rest| + MIN_FILE_BYTES <= |s|
  {
    hide ReadTags;
    if ReadFile(s, keepExtra).Good? {
      var t := s[HASH_SIZE + 6..];
      TagsConsume(t[4..], Number(t[..4]));
    }
  }

  lemma {:induction false} FilesConsume(s: seq<Byte>, n: nat, keepExtra: bool)
    ensures var fs := ReadFiles(s, n, keepExtra);
            fs.Good? ==> |fs.value| == n && |fs.rest| + n * MIN_FILE_BYTES <= |s|
    decreases n
  {
    hide ReadFile;
    if n > 0 {
      FileConsumes(s, keepExtra);
      if ReadFile(s, keepExtra).Good? { FilesConsume(ReadFile(s, keepExtra).rest, n - 1, keepExtra); }
    }
  }

  /** A list that would decode is never refused for its count. */
  lemma GuardsNeverReject(s: seq<Byte>, keepExtra: bool)
    ensures |s| >= 4 ==> ReadTagList(s) == ReadTags(s[4..], Number(s[..4]))
    ensures |s| >= 4 ==> ReadFileList(s, keepExtra) == ReadFiles(s[4..], Number(s[..4]), keepExtra)
  {
    hide ReadTags, ReadFiles;
    if |s| >= 4 {
      TagsConsume(s[4..], Number(s[..4]));
      FilesConsume(s[4..], Number(s[..4]), keepExtra);
    }
  }

  // ---------------------------------------------------------------- the round trip

  /** A tag every part of which fits its wire field. */
  ghost predicate Fits(t: Tag) {
    match t
    case StringTag(_, text) => |text| < U16
    case HashTag(_, hash) => |hash| == HASH_SIZE
    case IntTag(_, w, n) => n < Pow256(Octets(w))
  }

  function ValueOf(t: Tag): Value {
    match t case StringTag(_, text) => Text(text) case HashTag(_, hash) => Raw(hash) case IntTag(_, _, n) => Int(n)
  }

  function Named(t: Tag): NamedTag { NamedTag(FieldNamed(t.code), ValueOf(t), TypeOf(t)) }

  function AllNamed(ts: seq<Tag>): seq<NamedTag> {
    seq(|ts|, i requires 0 <= i < |ts| => Named(ts[i]))
  }

  lemma ReadPrintedNumber(n: nat, w: nat, rest: seq<Byte>)
    requires n < Pow256(w)
    ensures ReadNumber(LittleEndian(n, w) + rest, w) == Good(n, rest)
  {
    hide LittleEndian, Number;
    var s := LittleEndian(n, w) + rest;
    NumberOfLittleEndian(n, w);
    assert s[..w] == LittleEndian(n, w) && s[w..] == rest;
  }

  lemma ReadPrintedString(text: seq<Byte>, rest: seq<Byte>)
    requires |text| < U16
    ensures ReadString(PrintString(text) + rest) == Good(text, rest)
  {
    hide LittleEndian, Number;
    Powers();
    assert PrintString(text) + rest == LittleEndian(|text|, 2) + (text + rest);
    ReadPrintedNumber(|text|, 2, text + rest);
    assert (text + rest)[..|text|] == text && (text + rest)[|text|..] == rest;
  }

  lemma ReadPrintedValue(t: Tag, rest: seq<Byte>)
    requires Fits(t)
    ensures ReadValue(PrintValue(t) + rest, TypeOf(t)) == Good(ValueOf(t), rest)
  {
    hide LittleEndian, Number, ReadString, PrintString;
    match t
    case StringTag(_, text) => ReadPrintedString(text, rest);
    case HashTag(_, hash) => assert (hash + rest)[..HASH_SIZE] == hash && (hash + rest)[HASH_SIZE..] == rest;
    case IntTag(_, w, n) => ReadPrintedNumber(n, Octets(w), rest);
  }

  lemma ReadPrintedTag(t: Tag, rest: seq<Byte>)
    requires Fits(t)
    ensures ReadTag(PrintTag(t) + rest) == Good(Named(t), rest)
  {
    hide LittleEndian, Number, ReadValue, PrintValue, FieldNamed, FieldSpelled;
    var s, v := PrintTag(t) + rest, PrintValue(t) + rest;
    assert s[1..] == LittleEndian(1, 2) + ([t.code] + v);
    Powers();
    ReadPrintedNumber(1, 2, [t.code] + v);
    assert ([t.code] + v)[1..] == v;
    ReadPrintedValue(t, rest);
  }

  /** A tag in short form: the type's high bit set, one byte of name, short strings sized by the type. */
  function PrintShortTag(t: Tag): seq<Byte>
    requires t.StringTag? ==> |t.text| < 0x70
  {
    if t.StringTag? then [0x90 + |t.text|, t.code] + t.text
    else [0x80 + TypeOf(t) as int, t.code] + PrintValue(t)
  }

  lemma ReadPrintedShortTag(t: Tag, rest: seq<Byte>)
    requires Fits(t) && (t.StringTag? ==> |t.text| < 0x70)
    ensures ReadTag(PrintShortTag(t) + rest) == Good(Named(t), rest)
  {
    hide Number, ReadValue, PrintValue, FieldNamed, FieldSpelled, ReadNumber, ReadText;
    var s := PrintShortTag(t) + rest;
    var tail := if t.StringTag? then t.text + rest else PrintValue(t) + rest;
    assert s[1..] == [t.code] + tail;
    ReadFlag(t.code, tail);
    if t.StringTag? {
      ReadTextExactly(t.text, rest);
    } else {
      ReadPrintedValue(t, rest);
    }
  }

  lemma ReadTextExactly(text: seq<Byte>, rest: seq<Byte>)
    ensures ReadText(text + rest, |text|) == Good(Text(text), rest)
  {
    assert (text + rest)[..|text|] == text && (text + rest)[|text|..] == rest;
  }

  // ---------------------------------------------------------------- the bytes

  /** A tag on the wire: its type, the length of its name, its code, its value. */
  lemma TagBytes(t: Tag)
    ensures PrintTag(t) ==
            match t
            case StringTag(code, text) => [0x02, 0x01, 0x00, code] + LittleEndian(|text| % 0x1_0000, 2) + text
            case HashTag(code, hash) => [0x01, 0x01, 0x00, code] + hash
            case IntTag(code, W8, n) => [0x09, 0x01, 0x00, code] + LittleEndian(n, 1)
            case IntTag(code, W16, n) => [0x08, 0x01, 0x00, code] + LittleEndian(n, 2)
            case IntTag(code, W32, n) => [0x03, 0x01, 0x00, code] + LittleEndian(n, 4)
            case IntTag(code, W64, n) => [0x0b, 0x01, 0x00, code] + LittleEndian(n, 8)
  {
    var one := LittleEndian(1, 2);
    assert one == [0x01, 0x00] by { assert LittleEndian(0, 1) == [0x00]; }
    hide LittleEndian;
  }

  /** The value types that are read and never written: each from its own bytes, and no further. */
  lemma ReadOtherValues(bits: nat, flag: Byte, data: seq<Byte>, rest: seq<Byte>)
    requires bits < U32
    ensures ReadValue(LittleEndian(bits, 4) + rest, 0x04) == Good(Float(bits), rest)
    ensures ReadValue([flag] + rest, 0x05) == Good(Bool(flag != 0), rest)
    ensures |data| < U32 ==> ReadValue(LittleEndian(|data|, 4) + (data + rest), 0x07) == Good(Raw(data), rest)
    ensures |data| < 256 ==> ReadValue(LittleEndian(|data|, 1) + (data + rest), 0x0a) == Good(Raw(data), rest)
    ensures 0 < |data| <= 16 ==> ReadValue(data + rest, 0x10 + |data|) == Good(Text(data), rest)
  {
    Powers();
    ReadPrintedNumber(bits, 4, rest);
    ReadFlag(flag, rest);
    assert (data + rest)[..|data|] == data && (data + rest)[|data|..] == rest;
    if |data| < U32 { ReadPrintedNumber(|data|, 4, data + rest); }
    if |data| < 256 { ReadPrintedNumber(|data|, 1, data + rest); }
    hide LittleEndian, Number;
  }

  lemma ReadFlag(flag: Byte, rest: seq<Byte>)
    ensures ReadNumber([flag] + rest, 1) == Good(flag as int, rest)
  {
    var s := [flag] + rest;
    assert s[..1] == [flag] && s[1..] == rest;
    NumberIs([flag]);
  }

  /** An array of booleans is passed over: its count, and one byte more than its whole bytes. */
  lemma ReadBoolArray(count: nat, data: seq<Byte>, rest: seq<Byte>)
    requires count < U16 && |data| == count / 8 + 1
    ensures ReadValue(LittleEndian(count, 2) + (data + rest), 0x06) == Good(Nothing, rest)
  {
    Powers();
    ReadPrintedNumber(count, 2, data + rest);
    assert (data + rest)[..|data|] == data && (data + rest)[|data|..] == rest;
    hide LittleEndian, Number;
  }

  /** How a field is spelled out, and its code. */
  function Spelling(f: Field): seq<Byte> {
    match f
    case FName => [0x6e, 0x61, 0x6d, 0x65]
    case FType => [0x74, 0x79, 0x70, 0x65]
    case FTitle => [0x74, 0x69, 0x74, 0x6c, 0x65]
    case FArtist => [0x61, 0x72, 0x74, 0x69, 0x73, 0x74]
    case FAlbum => [0x61, 0x6c, 0x62, 0x75, 0x6d]
    case FCodec => [0x63, 0x6f, 0x64, 0x65, 0x63]
    case FSources => [0x73, 0x6f, 0x75, 0x72, 0x63, 0x65, 0x73]
    case FLength => [0x6c, 0x65, 0x6e, 0x67, 0x74, 0x68]
    case FBitrate => [0x62, 0x69, 0x74, 0x72, 0x61, 0x74, 0x65]
    case FSize => [0x73, 0x69, 0x7a, 0x65]
    case FSizeHi => [0x73, 0x69, 0x7a, 0x65, 0x68, 0x69]
  }

  function CodeFor(f: Field): Byte {
    match f
    case FName => 0x01 case FType => 0x03 case FTitle => 0xd2 case FArtist => 0xd0 case FAlbum => 0xd1 case FCodec => 0xd5
    case FSources => 0x15 case FLength => 0xd3 case FBitrate => 0xd4 case FSize => 0x02 case FSizeHi => 0x3a
  }

  lemma AsciiSpellings()
    ensures Ascii("name") == Spelling(FName) && Ascii("type") == Spelling(FType) && Ascii("title") == Spelling(FTitle)
    ensures Ascii("artist") == Spelling(FArtist) && Ascii("album") == Spelling(FAlbum) && Ascii("codec") == Spelling(FCodec)
    ensures Ascii("sources") == Spelling(FSources) && Ascii("length") == Spelling(FLength) && Ascii("bitrate") == Spelling(FBitrate)
    ensures Ascii("size") == Spelling(FSize) && Ascii("sizehi") == Spelling(FSizeHi)
  {
  }

  lemma SpellingsDiffer(f: Field, g: Field)
    requires f != g
    ensures Spelling(f) != Spelling(g)
  {
    var a, b := Spelling(f), Spelling(g);
    assert |a| != |b| || a[0] != b[0];
  }

  /** A field has one code and one spelling; any other text names no field. */
  lemma FieldNames(text: seq<Byte>, f: Field)
    ensures FieldNamed(CodeFor(f)) == Of(f)
    ensures FieldSpelled(text) == Of(f) <==> text == Spelling(f)
    ensures FieldSpelled(text).Called? ==> FieldSpelled(text).text == text
  {
    AsciiSpellings();
    hide Ascii, Spelling;
    forall g | g != f ensures Spelling(g) != Spelling(f) { SpellingsDiffer(g, f); }
  }

  lemma ReadLongTag(typ: Byte, l: nat, tail: seq<Byte>)
    requires typ < 0x80 && l < U16 && l != 1
    ensures ReadTag([typ] + (LittleEndian(l, 2) + tail)) ==
            if |tail| < l then Bad else ReadNamed(tail[l..], FieldSpelled(tail[..l]), typ)
  {
    hide LittleEndian, Number, ReadNamed, FieldSpelled, ReadShortTag;
    var s := [typ] + (LittleEndian(l, 2) + tail);
    assert s[1..] == LittleEndian(l, 2) + tail;
    Powers();
    ReadPrintedNumber(l, 2, tail);
  }

  /** A tag whose name is spelled out is read whole, so what follows it stays in step. */
  lemma ReadSpelledTag(t: Tag, name: seq<Byte>, rest: seq<Byte>)
    requires Fits(t) && |name| < U16 && |name| != 1
    ensures ReadTag([TypeOf(t)] + (LittleEndian(|name|, 2) + (name + (PrintValue(t) + rest)))) ==
            Good(NamedTag(FieldSpelled(name), ValueOf(t), TypeOf(t)), rest)
  {
    hide LittleEndian, ReadTag, ReadValue, PrintValue, FieldSpelled;
    var tail := name + (PrintValue(t) + rest);
    ReadLongTag(TypeOf(t), |name|, tail);
    assert tail[..|name|] == name && tail[|name|..] == PrintValue(t) + rest;
    ReadPrintedValue(t, rest);
  }

  lemma {:induction false} ReadPrintedTags(ts: seq<Tag>, rest: seq<Byte>)
    requires forall i :: 0 <= i < |ts| ==> Fits(ts[i])
    ensures ReadTags(PrintAll(ts) + rest, |ts|) == Good(AllNamed(ts), rest)
  {
    hide ReadTag, PrintTag, Named, Fits;
    if ts == [] {
      assert PrintAll(ts) + rest == rest;
    } else {
      var more := PrintAll(ts[1..]) + rest;
      assert PrintAll(ts) + rest == PrintTag(ts[0]) + more;
      ReadPrintedTag(ts[0], more);
      ReadPrintedTags(ts[1..], rest);
      assert AllNamed(ts) == [Named(ts[0])] + AllNamed(ts[1..]);
    }
  }

  lemma {:induction false} SetTagsConcat(r: FileRecord, a: seq<NamedTag>, b: seq<NamedTag>, keepExtra: bool)
    ensures SetTags(r, a + b, keepExtra) == SetTags(SetTags(r, a, keepExtra), b, keepExtra)
    decreases a
  {
    hide SetTag;
    if a == [] {
      assert a + b == b;
    } else {
      assert (a + b)[1..] == a[1..] + b;
      SetTagsConcat(SetTag(r, a[0], keepExtra), a[1..], b, keepExtra);
    }
  }

  /** A file as a search answer lists it; `meta` are the tags without a field that may follow. */
  datatype SharedFile = SharedFile(
    hash: seq<Byte>, id: nat, port: nat, name: seq<Byte>, size: nat, kind: seq<Byte>, sources: nat, completed: nat,
    title: seq<Byte>, artist: seq<Byte>, album: seq<Byte>, runtime: nat, bitrate: nat, codec: seq<Byte>, meta: seq<Tag>)

  function TextIf(code: Byte, text: seq<Byte>): seq<Tag> { if text == [] then [] else [StringTag(code, text)] }

  function IntIf(code: Byte, n: nat): seq<Tag> { if n == 0 then [] else [IntTag(code, W32, n)] }

  function FileTags(f: SharedFile): seq<Tag> {
    SizedTags(f) + IntIf(0xd3, f.runtime) + IntIf(0xd4, f.bitrate) + TextIf(0xd5, f.codec) + f.meta
  }

  /** AddFile. */
  function FileItems(f: SharedFile): seq<Item> {
    [HashItem(f.hash), IntItem(W32, f.id), IntItem(W16, f.port), TagsItem(FileTags(f))]
  }

  ghost predicate Sendable(f: SharedFile) {
    && |f.hash| == HASH_SIZE && f.id < U32 && f.port < U16 && f.size < U64
    && |f.name| < U16 && |f.kind| < U16 && |f.title| < U16 && |f.artist| < U16 && |f.album| < U16 && |f.codec| < U16
    && f.sources < U32 && f.completed < U32 && f.runtime < U32 && f.bitrate < U32
    && |f.meta| < U32 - 12 && (forall i :: 0 <= i < |f.meta| ==> Fits(f.meta[i]) && FieldNamed(f.meta[i].code).Called?)
  }

  /** What a reader of the list is told about the file. */
  function RecordOf(f: SharedFile, keepExtra: bool): FileRecord {
    FileRecord(f.hash, !(f.id == PARTIAL_ID && f.port == PARTIAL_PORT), f.id, f.port,
               f.name, f.kind, f.sources, f.title, f.artist, f.album, f.runtime, f.bitrate, f.codec,
               f.size % U32, f.size / U32,
               if keepExtra then [Named(IntTag(0x30, W32, f.completed))] + AllNamed(f.meta) else [])
  }

  lemma FileTagsFit(f: SharedFile)
    requires Sendable(f)
    ensures |FileTags(f)| < U32 && forall i :: 0 <= i < |FileTags(f)| ==> Fits(FileTags(f)[i])
  {
    Powers();
    assert f.size / U32 < U32;
    assert Each(SizedTags(f), 9) by { SizedFit(f); }
    hide Pow256, SizedTags, Fits, FieldNamed, TextIf, IntIf;
    IfFits(0xd3, [], f.runtime);
    IfFits(0xd4, [], f.bitrate);
    IfFits(0xd5, f.codec, 0);
  }

  /** At most `n` tags, each of which fits. */
  ghost predicate Each(ts: seq<Tag>, n: nat) { |ts| <= n && forall i :: 0 <= i < |ts| ==> Fits(ts[i]) }

  lemma IfFits(code: Byte, text: seq<Byte>, n: nat)
    requires |text| < U16 && n < U32
    ensures Each(TextIf(code, text), 1) && Each(IntIf(code, n), 1)
  {
    Powers();
    hide Pow256;
  }

  lemma SizedFit(f: SharedFile)
    requires Sendable(f)
    ensures Each(SizedTags(f), 9)
  {
    Powers();
    assert f.size / U32 < U32;
    assert Each(FirstTags(f), 5) by { hide Pow256, FieldNamed; }
    hide Pow256, FirstTags, Fits, FieldNamed, TextIf, IntIf;
    IfFits(0x3a, [], f.size / U32);
    IfFits(0xd2, f.title, 0);
    IfFits(0xd0, f.artist, 0);
    IfFits(0xd1, f.album, 0);
  }

  lemma SetText(r: FileRecord, code: Byte, text: seq<Byte>, keepExtra: bool)
    requires FieldNamed(code).Of?
    ensures SetTags(r, AllNamed(TextIf(code, text)), keepExtra) ==
            if text == [] then r else SetField(r, FieldNamed(code).field, Text(text))
  {
    hide SetField, FieldNamed;
    if text != [] {
      SetOne(r, StringTag(code, text), keepExtra);
    }
  }

  lemma SetInt(r: FileRecord, code: Byte, n: nat, keepExtra: bool)
    requires FieldNamed(code).Of?
    ensures SetTags(r, AllNamed(IntIf(code, n)), keepExtra) ==
            if n == 0 then r else SetField(r, FieldNamed(code).field, Int(n))
  {
    hide SetField, FieldNamed;
    if n != 0 {
      SetOne(r, IntTag(code, W32, n), keepExtra);
    }
  }

  lemma SetOne(r: FileRecord, t: Tag, keepExtra: bool)
    ensures SetTags(r, AllNamed([t]), keepExtra) == SetTag(r, Named(t), keepExtra)
  {
    hide SetTag, Named;
    var ts := AllNamed([t]);
    assert ts == [Named(t)] && ts[1..] == [];
  }

  lemma {:induction false} SetExtra(r: FileRecord, ts: seq<Tag>, keepExtra: bool)
    requires forall i :: 0 <= i < |ts| ==> FieldNamed(ts[i].code).Called?
    ensures SetTags(r, AllNamed(ts), keepExtra) == if keepExtra then r.(extra := r.extra + AllNamed(ts)) else r
    decreases ts
  {
    hide FieldNamed;
    if ts == [] {
      assert r.extra + AllNamed(ts) == r.extra;
    } else {
      var t := Named(ts[0]);
      assert AllNamed(ts)[1..] == AllNamed(ts[1..]);
      SetExtra(SetTag(r, t, keepExtra), ts[1..], keepExtra);
      assert r.extra + [t] + AllNamed(ts[1..]) == r.extra + AllNamed(ts);
    }
  }

  lemma SetThen(r: FileRecord, a: seq<Tag>, b: seq<Tag>, keepExtra: bool)
    ensures SetTags(r, AllNamed(a + b), keepExtra) == SetTags(SetTags(r, AllNamed(a), keepExtra), AllNamed(b), keepExtra)
  {
    hide SetTags, Named;
    assert AllNamed(a + b) == AllNamed(a) + AllNamed(b);
    SetTagsConcat(r, AllNamed(a), AllNamed(b), keepExtra);
  }

  /** The record before its tags are read. */
  function Bare(hash: seq<Byte>, id: nat, port: nat): FileRecord {
    FileRecord(hash, !(id == PARTIAL_ID && port == PARTIAL_PORT), id, port, [], [], 0, [], [], [], 0, 0, [], 0, 0, [])
  }

  /** The tags every file is sent with. */
  function FirstTags(f: SharedFile): seq<Tag> {
    [StringTag(0x01, f.name), IntTag(0x02, W32, f.size % U32), StringTag(0x03, f.kind),
     IntTag(0x15, W32, f.sources), IntTag(0x30, W32, f.completed)]
  }

  lemma SetFirst(f: SharedFile, keepExtra: bool)
    requires Sendable(f)
    ensures SetTags(Bare(f.hash, f.id, f.port), AllNamed(FirstTags(f)), keepExtra) ==
            Bare(f.hash, f.id, f.port).(
            name := f.name, sizeLo := f.size % U32, kind := f.kind, sources := f.sources,
            extra := if keepExtra then [Named(IntTag(0x30, W32, f.completed))] else [])
  {
    hide SetTags, AllNamed;
    var r, t := Bare(f.hash, f.id, f.port), FirstTags(f);
    SetThen(r, t[..1], t[1..], keepExtra);
    SetOne(r, t[0], keepExtra);
    var r1 := r.(name := f.name);
    SetThen(r1, t[1..2], t[2..], keepExtra);
    SetOne(r1, t[1], keepExtra);
    var r2 := r1.(sizeLo := f.size % U32);
    SetThen(r2, t[2..3], t[3..], keepExtra);
    SetOne(r2, t[2], keepExtra);
    var r3 := r2.(kind := f.kind);
    SetThen(r3, t[3..4], t[4..], keepExtra);
    SetOne(r3, t[3], keepExtra);
    SetOne(r3.(sources := f.sources), t[4], keepExtra);
    assert t[..1] == [t[0]] && t[1..2] == [t[1]] && t[2..3] == [t[2]] && t[3..4] == [t[3]] && t[4..] == [t[4]];
    assert t[1..] == t[1..2] + t[2..] && t[2..] == t[2..3] + t[3..] && t[3..] == t[3..4] + t[4..] && t == t[..1] + t[1..];
  }

  lemma AddText(r0: FileRecord, ts: seq<Tag>, r: FileRecord, code: Byte, text: seq<Byte>, keepExtra: bool)
    requires SetTags(r0, AllNamed(ts), keepExtra) == r && FieldNamed(code).Of?
    requires SetField(r, FieldNamed(code).field, Text([])) == r
    ensures SetTags(r0, AllNamed(ts + TextIf(code, text)), keepExtra) == SetField(r, FieldNamed(code).field, Text(text))
  {
    hide SetTags, AllNamed, SetField;
    SetThen(r0, ts, TextIf(code, text), keepExtra);
    SetText(r, code, text, keepExtra);
  }

  lemma AddInt(r0: FileRecord, ts: seq<Tag>, r: FileRecord, code: Byte, n: nat, keepExtra: bool)
    requires SetTags(r0, AllNamed(ts), keepExtra) == r && FieldNamed(code).Of?
    requires SetField(r, FieldNamed(code).field, Int(0)) == r
    ensures SetTags(r0, AllNamed(ts + IntIf(code, n)), keepExtra) == SetField(r, FieldNamed(code).field, Int(n))
  {
    hide SetTags, AllNamed, SetField;
    SetThen(r0, ts, IntIf(code, n), keepExtra);
    SetInt(r, code, n, keepExtra);
  }

  /** The tags up to the title, and up to the album. */
  function TitledTags(f: SharedFile): seq<Tag> {
    FirstTags(f) + IntIf(0x3a, f.size / U32) + TextIf(0xd2, f.title)
  }

  function SizedTags(f: SharedFile): seq<Tag> {
    TitledTags(f) + TextIf(0xd0, f.artist) + TextIf(0xd1, f.album)
  }

  /** The file with only what the first tags say of it. */
  function Titled(f: SharedFile): SharedFile { f.(artist := [], album := [], runtime := 0, bitrate := 0, codec := [], meta := []) }

  function Sized(f: SharedFile): SharedFile { f.(runtime := 0, bitrate := 0, codec := [], meta := []) }

  function Timed(f: SharedFile): SharedFile { f.(codec := [], meta := []) }

  lemma SetTitled(f: SharedFile, keepExtra: bool)
    requires Sendable(f)
    ensures SetTags(Bare(f.hash, f.id, f.port), AllNamed(TitledTags(f)), keepExtra) == RecordOf(Titled(f), keepExtra)
  {
    SetFirst(f, keepExtra);
    hide SetTags, AllNamed, FirstTags, IntIf, TextIf, Named, Sendable;
    var r0, k := Bare(f.hash, f.id, f.port), keepExtra;
    var a, r := FirstTags(f), SetTags(r0, AllNamed(FirstTags(f)), k);
    AddInt(r0, a, r, 0x3a, f.size / U32, k);
    a, r := a + IntIf(0x3a, f.size / U32), r.(sizeHi := f.size / U32);
    AddText(r0, a, r, 0xd2, f.title, k);
    NoneNamed();
  }

  lemma SetSized(f: SharedFile, keepExtra: bool)
    requires Sendable(f)
    ensures SetTags(Bare(f.hash, f.id, f.port), AllNamed(SizedTags(f)), keepExtra) == RecordOf(Sized(f), keepExtra)
  {
    SetTitled(f, keepExtra);
    hide SetTags, AllNamed, TitledTags, TextIf, Named, Sendable;
    var r0, k := Bare(f.hash, f.id, f.port), keepExtra;
    var a, r := TitledTags(f), RecordOf(Titled(f), k);
    AddText(r0, a, r, 0xd0, f.artist, k);
    a, r := a + TextIf(0xd0, f.artist), r.(artist := f.artist);
    AddText(r0, a, r, 0xd1, f.album, k);
  }

  lemma SetTimed(f: SharedFile, keepExtra: bool)
    requires Sendable(f)
    ensures SetTags(Bare(f.hash, f.id, f.port), AllNamed(SizedTags(f) + IntIf(0xd3, f.runtime) + IntIf(0xd4, f.bitrate)), keepExtra) ==
            RecordOf(Timed(f), keepExtra)
  {
    SetSized(f, keepExtra);
    hide SetTags, AllNamed, SizedTags, IntIf, Named;
    var r0, k := Bare(f.hash, f.id, f.port), keepExtra;
    var a, r := SizedTags(f), RecordOf(Sized(f), k);
    AddInt(r0, a, r, 0xd3, f.runtime, k);
    a, r := a + IntIf(0xd3, f.runtime), r.(length := f.runtime);
    AddInt(r0, a, r, 0xd4, f.bitrate, k);
  }

  function Coded(f: SharedFile): SharedFile { f.(meta := []) }

  lemma SetCoded(f: SharedFile, keepExtra: bool)
    requires Sendable(f)
    ensures SetTags(Bare(f.hash, f.id, f.port),
                    AllNamed(SizedTags(f) + IntIf(0xd3, f.runtime) + IntIf(0xd4, f.bitrate) + TextIf(0xd5, f.codec)), keepExtra) ==
            RecordOf(Coded(f), keepExtra)
  {
    SetTimed(f, keepExtra);
    hide SetTags, AllNamed, SizedTags, IntIf, TextIf, Named;
    var r0, k := Bare(f.hash, f.id, f.port), keepExtra;
    AddText(r0, SizedTags(f) + IntIf(0xd3, f.runtime) + IntIf(0xd4, f.bitrate), RecordOf(Timed(f), k), 0xd5, f.codec, k);
  }

  lemma NoneNamed()
    ensures AllNamed([]) == []
  {
  }

  /** Reading a file's tags back gives every field. */
  lemma FileTagsSet(f: SharedFile, keepExtra: bool)
    requires Sendable(f)
    ensures SetTags(Bare(f.hash, f.id, f.port), AllNamed(FileTags(f)), keepExtra) == RecordOf(f, keepExtra)
  {
    hide SetTags, AllNamed, SizedTags, IntIf, TextIf, Named, FieldNamed;
    SetCoded(f, keepExtra);
    var r0, k := Bare(f.hash, f.id, f.port), keepExtra;
    var a := SizedTags(f) + IntIf(0xd3, f.runtime) + IntIf(0xd4, f.bitrate) + TextIf(0xd5, f.codec);
    SetThen(r0, a, f.meta, k);
    SetExtra(RecordOf(Coded(f), k), f.meta, k);
    NoneNamed();
  }

  /** The 64-bit size comes back whole from the two tags it was split over. */
  lemma SizeWhole(f: SharedFile, keepExtra: bool)
    requires Sendable(f)
    ensures RecordOf(f, keepExtra).Size() == f.size
  {
  }

  lemma PrintedFile(f: SharedFile)
    ensures PrintItems(FileItems(f)) ==
            f.hash + LittleEndian(f.id, 4) + LittleEndian(f.port, 2) + (LittleEndian(|FileTags(f)|, 4) + PrintAll(FileTags(f)))
  {
    hide LittleEndian, FileTags, PrintAll;
    var i := FileItems(f);
    var tags := PrintItem(i[3]);
    assert i[3..] == [i[3]] && PrintItems(i[3..]) == tags + PrintItems(i[3..][1..]) == tags;
    assert i[2..][1..] == i[3..] && PrintItems(i[2..]) == LittleEndian(f.port, 2) + tags;
    assert i[1..][1..] == i[2..] && PrintItems(i[1..]) == LittleEndian(f.id, 4) + (LittleEndian(f.port, 2) + tags);
  }

  lemma PrintedSlices(f: SharedFile, rest: seq<Byte>)
    requires |f.hash| == HASH_SIZE
    ensures var s, ts := PrintItems(FileItems(f)) + rest, FileTags(f);
            && |s| >= 22 && s[..16] == f.hash && s[16..20] == LittleEndian(f.id, 4) && s[20..22] == LittleEndian(f.port, 2)
            && s[22..] == LittleEndian(|ts|, 4) + (PrintAll(ts) + rest)
  {
    hide LittleEndian, FileTags, PrintAll, PrintItems;
    PrintedFile(f);
  }

  lemma ReadPrintedTagList(ts: seq<Tag>, rest: seq<Byte>)
    requires |ts| < U32 && forall i :: 0 <= i < |ts| ==> Fits(ts[i])
    ensures ReadTagList(LittleEndian(|ts|, 4) + (PrintAll(ts) + rest)) == Good(AllNamed(ts), rest)
  {
    hide LittleEndian, Number, PrintAll, ReadTags, Fits;
    Powers();
    ReadPrintedNumber(|ts|, 4, PrintAll(ts) + rest);
    ReadPrintedTags(ts, rest);
    TagsConsume(PrintAll(ts) + rest, |ts|);
  }

  lemma ReadPrintedFile(f: SharedFile, rest: seq<Byte>, keepExtra: bool)
    requires Sendable(f)
    ensures ReadFile(PrintItems(FileItems(f)) + rest, keepExtra) == Good(RecordOf(f, keepExtra), rest)
  {
    Powers();
    NumberOfLittleEndian(f.id, 4);
    NumberOfLittleEndian(f.port, 2);
    hide LittleEndian, Number, FileTags, PrintAll, PrintItems, SetTags, AllNamed, RecordOf, ReadTagList, Pow256;
    PrintedSlices(f, rest);
    FileTagsFit(f);
    ReadPrintedTagList(FileTags(f), rest);
    FileTagsSet(f, keepExtra);
  }

  function ListItems(fs: seq<SharedFile>): seq<Item> {
    if fs == [] then [] else FileItems(fs[0]) + ListItems(fs[1..])
  }

  function Records(fs: seq<SharedFile>, keepExtra: bool): seq<FileRecord> {
    seq(|fs|, i requires 0 <= i < |fs| => RecordOf(fs[i], keepExtra))
  }

  lemma {:induction false} PrintItemsConcat(a: seq<Item>, b: seq<Item>)
    ensures PrintItems(a + b) == PrintItems(a) + PrintItems(b)
  {
    hide PrintItem;
    if a == [] {
      assert a + b == b;
    } else {
      assert (a + b)[1..] == a[1..] + b;
      PrintItemsConcat(a[1..], b);
    }
  }

  lemma {:induction false} ReadPrintedFiles(fs: seq<SharedFile>, rest: seq<Byte>, keepExtra: bool)
    requires forall i :: 0 <= i < |fs| ==> Sendable(fs[i])
    ensures ReadFiles(PrintItems(ListItems(fs)) + rest, |fs|, keepExtra) == Good(Records(fs, keepExtra), rest)
  {
    hide ReadFile, FileItems, PrintItems, RecordOf, Sendable;
    if fs == [] {
      assert PrintItems([]) == [] by { PrintedNothing(); }
      assert [] + rest == rest;
    } else {
      var more := PrintItems(ListItems(fs[1..])) + rest;
      PrintItemsConcat(FileItems(fs[0]), ListItems(fs[1..]));
      assert PrintItems(ListItems(fs)) + rest == PrintItems(FileItems(fs[0])) + more;
      ReadPrintedFile(fs[0], more, keepExtra);
      ReadPrintedFiles(fs[1..], rest, keepExtra);
      assert Records(fs, keepExtra) == [RecordOf(fs[0], keepExtra)] + Records(fs[1..], keepExtra);
    }
  }

  lemma PrintedNothing()
    ensures PrintItems([]) == []
  {
  }

  lemma PrintedCount(n: nat, items: seq<Item>)
    ensures PrintItems([IntItem(W32, n)] + items) == LittleEndian(n, 4) + PrintItems(items)
  {
    hide LittleEndian;
    assert ([IntItem(W32, n)] + items)[1..] == items;
  }

  /** A list of files, printed under its count as a search answer is, reads back as the files. */
  lemma FileListRoundTrip(fs: seq<SharedFile>, rest: seq<Byte>, keepExtra: bool)
    requires |fs| < U32 && forall i :: 0 <= i < |fs| ==> Sendable(fs[i])
    ensures ReadFileList(PrintItems([IntItem(W32, |fs|)] + ListItems(fs)) + rest, keepExtra) == Good(Records(fs, keepExtra), rest)
  {
    hide ReadFiles, ListItems, Records, LittleEndian, Number, PrintItems, ReadNumber, Sendable, Pow256, CountFits;
    var body := PrintItems(ListItems(fs));
    assert |fs| < Pow256(4) by { Powers(); }
    ReadPrintedNumber(|fs|, 4, body + rest);
    ReadPrintedFiles(fs, rest, keepExtra);
    FilesConsume(body + rest, |fs|, keepExtra);
    assert CountFits(|fs|, |body + rest|, MIN_FILE_BYTES) by { CountIsFit(|fs|, |body + rest|); }
    PrintedCount(|fs|, ListItems(fs));
    assert LittleEndian(|fs|, 4) + body + rest == LittleEndian(|fs|, 4) + (body + rest);
  }

  lemma CountIsFit(n: nat, left: nat)
    requires n * MIN_FILE_BYTES <= left
    ensures CountFits(n, left, MIN_FILE_BYTES)
  {
  }
}
