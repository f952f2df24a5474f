/**
 The byte buffer with a cursor that packets are printed into and parsed from
 (ed2k/buffer.go, ed2k/packet.go). Every printer and parser is proved against the value
 form in Codec.dfy.
 */
module Buffers {
  import opened Bytes
  import opened Codec

  // ---------------------------------------------------------------- sizes

  /** What TagsLength counts for one tag. */
  function TagSize(t: Tag): nat {
    4 + match t
    case StringTag(_, text) => 2 + |text|
    case HashTag(_, _) => HASH_SIZE
    case IntTag(_, w, _) => Octets(w)
  }

  function TagSizes(ts: seq<Tag>): nat {
    if ts == [] then 0 else TagSizes(ts[..|ts| - 1]) + TagSize(ts[|ts| - 1])
  }

  predicate AllPrintable(ts: seq<Tag>) { forall i :: 0 <= i < |ts| ==> Printable(ts[i]) }

  lemma {:induction false} PrintAllConcat(a: seq<Tag>, b: seq<Tag>)
    ensures PrintAll(a + b) == PrintAll(a) + PrintAll(b)
  {
    hide PrintTag;
    if a == [] {
      assert a + b == b;
    } else {
      assert (a + b)[1..] == a[1..] + b;
      PrintAllConcat(a[1..], b);
    }
  }

  lemma PrintAllSnoc(ts: seq<Tag>, t: Tag)
    ensures PrintAll(ts + [t]) == PrintAll(ts) + PrintTag(t)
  {
    hide PrintTag;
    PrintAllConcat(ts, [t]);
    assert [t][1..] == [] && PrintTag(t) + [] == PrintTag(t);
  }

  /** The sizes are exactly what the printers write. */
  lemma {:induction false} TagSizesExact(ts: seq<Tag>)
    requires AllPrintable(ts)
    ensures TagSizes(ts) == |PrintAll(ts)|
  {
    if ts != [] {
      var n := |ts| - 1;
      TagSizesExact(ts[..n]);
      assert ts[..n] + [ts[n]] == ts;
      PrintAllSnoc(ts[..n], ts[n]);
    }
  }

  method TagsLength(tags: seq<Tag>) returns (length: nat)
    ensures length == 4 + TagSizes(tags)
    ensures AllPrintable(tags) ==> length == 4 + |PrintAll(tags)|
  {
    length := 4;
    for i := 0 to |tags|
      invariant length == 4 + TagSizes(tags[..i])
    {
      assert tags[..i + 1][..i] == tags[..i];
      length := length + 4;
      match tags[i]
      case StringTag(_, text) => length := length + 2 + |text|;
      case HashTag(_, _) => length := length + HASH_SIZE;
      case IntTag(_, w, _) => length := length + Octets(w);
    }
    assert tags[..|tags|] == tags;
    if AllPrintable(tags) { TagSizesExact(tags); }
  }

  method ItemSize(item: Item) returns (size: nat)
    ensures PrintableItem(item) ==> size == |PrintItem(item)|
  {
    match item
    case IntItem(w, _) => size := Octets(w);
    case StringItem(s) => size := 2 + |s|;
    case HashItem(_) => size := HASH_SIZE;
    case TagsItem(ts) => size := TagsLength(ts);
    case ShortTagsItem(ts) =>
      var n := TagsLength(ts);
      size := n - 3;
  }

  predicate AllPrintableItems(items: seq<Item>) { forall i :: 0 <= i < |items| ==> PrintableItem(items[i]) }

  lemma PrintItemsSnoc(items: seq<Item>, i: Item)
    ensures PrintItems(items + [i]) == PrintItems(items) + PrintItem(i)
  {
    hide PrintItem;
    PrintItemsConcat(items, [i]);
    assert [i][1..] == [] && PrintItem(i) + [] == PrintItem(i);
  }

  method ItemSizes(items: seq<Item>) returns (size: nat)
    ensures AllPrintableItems(items) ==> size == |PrintItems(items)|
  {
    hide PrintItem;
    size := 0;
    for i := 0 to |items|
      invariant AllPrintableItems(items[..i]) ==> size == |PrintItems(items[..i])|
    {
      var n := ItemSize(items[i]);
      assert items[..i + 1] == items[..i] + [items[i]];
      PrintItemsSnoc(items[..i], items[i]);
      size := size + n;
    }
    assert items[..|items|] == items;
  }

  function TagHead(tag: Tag): seq<Byte> { [TypeOf(tag)] + LittleEndian(1, 2) + [tag.code] }

  lemma TagHeadFirst(tag: Tag)
    ensures |TagHead(tag)| == 4 && PrintTag(tag) == TagHead(tag) + PrintValue(tag)
  {
    hide PrintValue;
  }

  // ---------------------------------------------------------------- the buffer

  class Buffer {
    const data: array<Byte>
    var pointer: nat

    ghost predicate Valid()
      reads this
    {
      pointer <= data.Length
    }

    ghost function Written(): seq<Byte>
      requires Valid()
      reads this, data
    {
      data[..pointer]
    }

    ghost function Rest(): seq<Byte>
      requires Valid()
      reads this, data
    {
      data[pointer..]
    }

    constructor (size: nat)
      ensures Valid() && fresh(data) && data.Length == size && pointer == 0
    {
      data := new Byte[size](_ => 0);
      pointer := 0;
    }

    constructor FromBytes(bytes: seq<Byte>)
      ensures Valid() && fresh(data) && data[..] == bytes && pointer == 0 && Rest() == bytes
    {
      data := new Byte[|bytes|](i requires 0 <= i < |bytes| => bytes[i]);
      pointer := 0;
      new;
      assert data[..] == bytes;
    }

    /** Behind the cursor is what was there, short of the first `n` bytes. */
    ghost predicate Ends(was: seq<Byte>, n: nat)
      requires Valid()
      reads this, data
    {
      n <= |was| && Rest() == was[n..]
    }

    method Put(bytes: seq<Byte>) returns (ok: bool)
      requires Valid()
      modifies this`pointer, data
      ensures Valid() && ok == (old(pointer) + |bytes| <= data.Length)
      ensures ok ==> Written() == old(Written()) + bytes
      ensures !ok ==> Written() == old(Written())
      ensures Ends(old(Rest()), if ok then |bytes| else 0)
    {
      if pointer + |bytes| > data.Length {
        return false;
      }
      var p := pointer;
      for i := 0 to |bytes|
        invariant pointer == p && data[..p] == old(Written()) && data[p..p + i] == bytes[..i]
        invariant data[p + i..] == old(Rest())[i..]
      {
        data[p + i] := bytes[i];
      }
      pointer := p + |bytes|;
      assert data[..pointer] == data[..p] + data[p..pointer];
      return true;
    }

    /** Protocol and size of a packet. */
    method PutHeader(protocol: Byte, size: nat) returns (ok: bool)
      requires Valid()
      modifies this`pointer, data
      ensures Valid() && ok == (old(pointer) + 5 <= data.Length)
      ensures ok ==> Written() == old(Written()) + ([protocol] + LittleEndian(size, 4))
    {
      hide Ends, LittleEndian;
      ok := Put([protocol]);
      if ok {
        ok := Put(LittleEndian(size, 4));
      }
    }

    method PutString(s: seq<Byte>) returns (ok: bool)
      requires Valid()
      modifies this`pointer, data
      ensures Valid() && ok == (old(pointer) + |PrintString(s)| <= data.Length)
      ensures ok ==> Written() == old(Written()) + PrintString(s)
    {
      hide Ends, LittleEndian;
      ok := Put(LittleEndian(|s| % U16, 2));
      if ok {
        ok := Put(s);
      }
    }

    /** PutHash refuses a hash of another length; PutBuffer copies what fits. */
    method PutHash(h: seq<Byte>) returns (ok: bool)
      requires Valid()
      modifies this`pointer, data
      ensures Valid() && ok == (|h| == HASH_SIZE)
      ensures var room := data.Length - old(pointer);
              ok ==> Written() == old(Written()) + h[..if |h| <= room then |h| else room]
      ensures !ok ==> Written() == old(Written()) && Ends(old(Rest()), 0)
    {
      if |h| != HASH_SIZE {
        return false;
      }
      var n := if |h| <= data.Length - pointer then |h| else data.Length - pointer;
      ok := Put(h[..n]);
    }

    /** Whether `n` more bytes fit. */
    ghost predicate Room(n: nat)
      reads this
    {
      pointer + n <= data.Length
    }

    method PutValue(tag: Tag) returns (ok: bool)
      requires Valid()
      modifies this`pointer, data
      ensures Valid() && (ok ==> Printable(tag))
      ensures Printable(tag) && old(Room(|PrintValue(tag)|)) ==> ok && Written() == old(Written()) + PrintValue(tag)
    {
      hide Ends, LittleEndian;
      match tag
      case StringTag(_, text) => ok := PutString(text);
      case HashTag(_, hash) =>
        ok := PutHash(hash);
        assert hash[..|hash|] == hash;
      case IntTag(_, w, n) => ok := Put(LittleEndian(n, Octets(w)));
    }

    /** The type and the one-byte name of a tag. */
    method PutTagHead(tag: Tag) returns (ok: bool)
      requires Valid()
      modifies this`pointer, data
      ensures Valid() && ok == (old(pointer) + 4 <= data.Length)
      ensures ok ==> Written() == old(Written()) + TagHead(tag)
    {
      hide Ends, LittleEndian;
      ok := Put([TypeOf(tag)]);
      if !ok { return; }
      ok := Put(LittleEndian(1, 2));
      if !ok { return; }
      ok := Put([tag.code]);
    }

    method PutTag(tag: Tag) returns (ok: bool)
      requires Valid()
      modifies this`pointer, data
      ensures Valid() && (ok ==> Printable(tag))
      ensures Printable(tag) && old(Room(|PrintTag(tag)|)) ==> ok && Written() == old(Written()) + PrintTag(tag)
    {
      TagHeadFirst(tag);
      hide TagHead, PrintTag, PrintValue;
      ghost var before := Written();
      ok := PutTagHead(tag);
      if !ok { return; }
      ok := PutValue(tag);
      assert before + TagHead(tag) + PrintValue(tag) == before + PrintTag(tag);
    }

    method PutAll(tags: seq<Tag>) returns (ok: bool)
      requires Valid()
      modifies this`pointer, data
      ensures Valid() && (ok ==> AllPrintable(tags))
      ensures AllPrintable(tags) && old(Room(|PrintAll(tags)|)) ==> ok && Written() == old(Written()) + PrintAll(tags)
    {
      hide PrintTag, Printable;
      ghost var before := Written();
      ghost var fits := AllPrintable(tags) && Room(|PrintAll(tags)|);
      for i := 0 to |tags|
        invariant Valid() && AllPrintable(tags[..i])
        invariant fits ==> Written() == before + PrintAll(tags[..i])
      {
        assert tags[..i + 1] == tags[..i] + [tags[i]] && tags == tags[..i + 1] + tags[i + 1..];
        PrintAllSnoc(tags[..i], tags[i]);
        PrintAllConcat(tags[..i + 1], tags[i + 1..]);
        ok := PutTag(tags[i]);
        if !ok { return; }
        assert before + PrintAll(tags[..i]) + PrintTag(tags[i]) == before + PrintAll(tags[..i + 1]);
      }
      assert tags[..|tags|] == tags;
      ok := true;
    }

    method PutItem(item: Item) returns (ok: bool)
      requires Valid()
      modifies this`pointer, data
      ensures Valid() && (ok ==> PrintableItem(item))
      ensures PrintableItem(item) && old(Room(|PrintItem(item)|)) ==> ok && Written() == old(Written()) + PrintItem(item)
    {
      hide Ends, LittleEndian, PrintAll, Printable;
      ghost var before := Written();
      match item
      case IntItem(w, n) => ok := Put(LittleEndian(n, Octets(w)));
      case StringItem(s) => ok := PutString(s);
      case HashItem(h) =>
        ok := PutHash(h);
        assert h[..|h|] == h;
      case TagsItem(ts) =>
        ok := Put(LittleEndian(|ts|, 4));
        if ok { ok := PutAll(ts); }
        assert before + LittleEndian(|ts|, 4) + PrintAll(ts) == before + (LittleEndian(|ts|, 4) + PrintAll(ts));
      case ShortTagsItem(ts) =>
        ok := Put(LittleEndian(|ts|, 1));
        if ok { ok := PutAll(ts); }
        assert before + LittleEndian(|ts|, 1) + PrintAll(ts) == before + (LittleEndian(|ts|, 1) + PrintAll(ts));
    }

    method PutItems(items: seq<Item>) returns (ok: bool)
      requires Valid()
      modifies this`pointer, data
      ensures Valid() && (ok ==> AllPrintableItems(items))
      ensures AllPrintableItems(items) && old(Room(|PrintItems(items)|)) ==> ok && Written() == old(Written()) + PrintItems(items)
    {
      hide PrintItem, PrintableItem;
      ghost var before := Written();
      ghost var fits := AllPrintableItems(items) && Room(|PrintItems(items)|);
      for i := 0 to |items|
        invariant Valid() && AllPrintableItems(items[..i])
        invariant fits ==> Written() == before + PrintItems(items[..i])
      {
        assert items[..i + 1] == items[..i] + [items[i]] && items == items[..i + 1] + items[i + 1..];
        PrintItemsSnoc(items[..i], items[i]);
        PrintItemsConcat(items[..i + 1], items[i + 1..]);
        ok := PutItem(items[i]);
        if !ok { return; }
        assert before + PrintItems(items[..i]) + PrintItem(items[i]) == before + PrintItems(items[..i + 1]);
      }
      assert items[..|items|] == items;
      ok := true;
    }

    /** What a parser returned, and where it left the cursor, are what the value form says. */
    ghost predicate Follows<T>(p: Parsed<T>, r: Option<T>)
      requires Valid()
      reads this, data
    {
      match p case Bad => r.None? case Good(v, rest) => r == Some(v) && Rest() == rest
    }

    method GetBytes(n: nat) returns (r: Option<seq<Byte>>)
      requires Valid()
      modifies this`pointer
      ensures Valid() && Follows(ReadBytes(old(Rest()), n), r)
    {
      if data.Length - pointer < n {
        return None;
      }
      assert Rest()[..n] == data[pointer..pointer + n] && Rest()[n..] == data[pointer + n..];
      r := Some(data[pointer..pointer + n]);
      pointer := pointer + n;
    }

    /** GetUInt8, GetUInt16LE, GetUInt32LE and GetUInt64LE. */
    method GetNumber(n: nat) returns (r: Option<nat>)
      requires Valid()
      modifies this`pointer
      ensures Valid() && Follows(ReadNumber(old(Rest()), n), r)
    {
      hide Number;
      var b := GetBytes(n);
      r := if b.None? then None else Some(Number(b.value));
    }

    method GetString() returns (r: Option<seq<Byte>>)
      requires Valid()
      modifies this`pointer
      ensures Valid() && Follows(ReadString(old(Rest())), r)
    {
      hide Number;
      var l := GetNumber(2);
      if l.None? {
        return None;
      }
      r := GetBytes(l.value);
    }

    method GetRaw(n: nat) returns (r: Option<Value>)
      requires Valid()
      modifies this`pointer
      ensures Valid() && Follows(ReadRaw(old(Rest()), n), r)
    {
      var b := GetBytes(n);
      r := if b.None? then None else Some(Raw(b.value));
    }

    method GetSized(n: nat) returns (r: Option<Value>)
      requires Valid()
      modifies this`pointer
      ensures Valid() && Follows(ReadSized(old(Rest()), n), r)
    {
      hide Number;
      var l := GetNumber(n);
      if l.None? {
        return None;
      }
      r := GetRaw(l.value);
    }

    method GetInt(n: nat) returns (r: Option<Value>)
      requires Valid()
      modifies this`pointer
      ensures Valid() && Follows(ReadInt(old(Rest()), n), r)
    {
      hide Number;
      var v := GetNumber(n);
      r := if v.None? then None else Some(Int(v.value));
    }

    method GetText(n: nat) returns (r: Option<Value>)
      requires Valid()
      modifies this`pointer
      ensures Valid() && Follows(ReadText(old(Rest()), n), r)
    {
      var b := GetBytes(n);
      r := if b.None? then None else Some(Text(b.value));
    }

    method GetTagValue(typ: Byte) returns (r: Option<Value>)
      requires Valid()
      modifies this`pointer
      ensures Valid() && Follows(ReadValue(old(Rest()), typ), r)
    {
      hide Number, ReadString, ReadInt, ReadRaw, ReadSized, ReadText;
      if typ == TYPE_STRING {
        var s := GetString();
        r := if s.None? then None else Some(Text(s.value));
      } else if typ == TYPE_UINT8 {
        r := GetInt(1);
      } else if typ == TYPE_UINT16 {
        r := GetInt(2);
      } else if typ == TYPE_UINT32 {
        r := GetInt(4);
      } else if typ == TYPE_UINT64 {
        r := GetInt(8);
      } else if typ == TYPE_HASH {
        r := GetRaw(HASH_SIZE);
      } else if typ == TYPE_FLOAT {
        var v := GetNumber(4);
        r := if v.None? then None else Some(Float(v.value));
      } else if typ == TYPE_BOOL {
        var v := GetNumber(1);
        r := if v.None? then None else Some(Bool(v.value != 0));
      } else if typ == TYPE_BLOB {
        r := GetSized(4);
      } else if typ == TYPE_BSOB {
        r := GetSized(1);
      } else if typ == TYPE_BOOL_ARRAY {
        r := GetBoolArray();
      } else if 0x11 <= typ <= 0x20 {
        r := GetText(typ - 0x10);
      } else {
        r := None;
      }
    }

    /** Skipped, not decoded. */
    method GetBoolArray() returns (r: Option<Value>)
      requires Valid()
      modifies this`pointer
      ensures Valid() && Follows(ReadValue(old(Rest()), TYPE_BOOL_ARRAY), r)
    {
      hide Number;
      var l := GetNumber(2);
      if l.None? {
        return None;
      }
      var b := GetBytes(l.value / 8 + 1);
      r := if b.None? then None else Some(Nothing);
    }

    method GetNamed(name: Name, typ: Byte) returns (r: Option<NamedTag>)
      requires Valid()
      modifies this`pointer
      ensures Valid() && Follows(ReadNamed(old(Rest()), name, typ), r)
    {
      hide ReadValue;
      var v := GetTagValue(typ);
      r := if v.None? then None else Some(NamedTag(name, v.value, Shown(typ)));
    }

    method GetByte() returns (r: Option<Byte>)
      requires Valid()
      modifies this`pointer
      ensures Valid() && (r.None? <==> old(Rest()) == [])
      ensures r.Some? ==> r.value == old(Rest())[0] && Rest() == old(Rest())[1..]
    {
      if pointer == data.Length {
        return None;
      }
      r := Some(data[pointer]);
      pointer := pointer + 1;
    }

    method GetTag() returns (r: Option<NamedTag>)
      requires Valid()
      modifies this`pointer
      ensures Valid() && Follows(ReadTag(old(Rest())), r)
    {
      hide Number, ReadNamed, ReadText, FieldNamed, FieldSpelled;
      var t := GetByte();
      if t.None? {
        return None;
      }
      if t.value >= 0x80 {
        r := GetShortTag(t.value - 0x80);
        return;
      }
      var l := GetNumber(2);
      if l.None? {
        return None;
      }
      if l.value == 1 {
        var c := GetByte();
        if c.None? {
          return None;
        }
        r := GetNamed(FieldNamed(c.value), t.value);
      } else {
        var n := GetBytes(l.value);
        if n.None? {
          return None;
        }
        r := GetNamed(FieldSpelled(n.value), t.value);
      }
    }

    method GetShortTag(typ: Byte) returns (r: Option<NamedTag>)
      requires Valid() && typ < 0x80
      modifies this`pointer
      ensures Valid() && Follows(ReadShortTag(old(Rest()), typ), r)
    {
      hide ReadNamed, FieldNamed;
      var c := GetByte();
      if c.None? {
        return None;
      }
      if typ >= 0x10 {
        var v := GetText(typ - 0x10);
        r := if v.None? then None else Some(NamedTag(FieldNamed(c.value), v.value, TYPE_STRING));
      } else {
        r := GetNamed(FieldNamed(c.value), typ);
      }
    }

    /** getFileTags: one record's tags straight into its fields. */
    method GetFileTags(bare: FileRecord, keepExtra: bool) returns (r: Option<FileRecord>)
      requires Valid()
      modifies this`pointer
      ensures Valid() && Follows(Filled(ReadTagList(old(Rest())), bare, keepExtra), r)
    {
      hide Number, ReadTags, SetTags, ReadTag, SetTag;
      var count := GetNumber(4);
      if count.None? || !CountFits(count.value, data.Length - pointer, MIN_TAG_BYTES) {
        return None;
      }
      var n, record := count.value, bare;
      ghost var all := Filled(ReadTags(Rest(), n), bare, keepExtra);
      for i := 0 to n
        invariant Valid() && Filled(ReadTags(Rest(), n - i), record, keepExtra) == all
      {
        FilledStep(Rest(), n - i, record, keepExtra);
        var tag := GetTag();
        if tag.None? {
          return None;
        }
        record := SetTag(record, tag.value, keepExtra);
      }
      FilledNone(Rest(), record, keepExtra);
      r := Some(record);
    }

    method GetFile(keepExtra: bool) returns (r: Option<FileRecord>)
      requires Valid()
      modifies this`pointer
      ensures Valid() && Follows(ReadFile(old(Rest()), keepExtra), r)
    {
      hide Number, ReadTagList, SetTags;
      ghost var s := Rest();
      var hash := GetBytes(HASH_SIZE);
      if hash.None? {
        return None;
      }
      var id := GetNumber(4);
      if id.None? {
        return None;
      }
      var port := GetNumber(2);
      if port.None? {
        return None;
      }
      assert s[HASH_SIZE..][4..] == s[HASH_SIZE + 4..] && s[HASH_SIZE + 4..][2..] == s[HASH_SIZE + 6..];
      assert s[HASH_SIZE..][..4] == s[HASH_SIZE..HASH_SIZE + 4] && s[HASH_SIZE + 4..][..2] == s[HASH_SIZE + 4..HASH_SIZE + 6];
      r := GetFileTags(Bare(hash.value, id.value, port.value), keepExtra);
    }

    /** getFileList: GetFileList keeps the tags without a field, GetOfferedFiles does not. */
    method GetFileList(keepExtra: bool) returns (r: Option<seq<FileRecord>>)
      requires Valid()
      modifies this`pointer
      ensures Valid() && Follows(ReadFileList(old(Rest()), keepExtra), r)
    {
      hide Number, ReadFiles, ReadFile;
      var count := GetNumber(4);
      if count.None? || !CountFits(count.value, data.Length - pointer, MIN_FILE_BYTES) {
        return None;
      }
      var n, files := count.value, [];
      ghost var all := ReadFiles(Rest(), n, keepExtra);
      PrefixedNone(all);
      for i := 0 to n
        invariant Valid() && Prefixed(files, ReadFiles(Rest(), n - i, keepExtra)) == all
      {
        PrefixedStep(files, Rest(), n - i, keepExtra);
        var file := GetFile(keepExtra);
        if file.None? {
          return None;
        }
        files := files + [file.value];
      }
      PrefixedLast(files, Rest(), keepExtra);
      r := Some(files);
    }
  }

  // ---------------------------------------------------------------- the loops of the parsers

  ghost function Filled(ts: Parsed<seq<NamedTag>>, r: FileRecord, keepExtra: bool): Parsed<FileRecord> {
    if ts.Bad? then Bad else Good(SetTags(r, ts.value, keepExtra), ts.rest)
  }

  lemma FilledStep(s: seq<Byte>, n: nat, r: FileRecord, keepExtra: bool)
    requires n > 0
    ensures Filled(ReadTags(s, n), r, keepExtra) ==
            var t := ReadTag(s);
            if t.Bad? then Bad else Filled(ReadTags(t.rest, n - 1), SetTag(r, t.value, keepExtra), keepExtra)
  {
    hide ReadTag, SetTag;
    var t := ReadTag(s);
    if t.Good? && ReadTags(t.rest, n - 1).Good? {
      assert ([t.value] + ReadTags(t.rest, n - 1).value)[1..] == ReadTags(t.rest, n - 1).value;
    }
  }

  lemma FilledNone(s: seq<Byte>, r: FileRecord, keepExtra: bool)
    ensures Filled(ReadTags(s, 0), r, keepExtra) == Good(r, s)
  {
  }

  ghost function Prefixed(a: seq<FileRecord>, fs: Parsed<seq<FileRecord>>): Parsed<seq<FileRecord>> {
    if fs.Bad? then Bad else Good(a + fs.value, fs.rest)
  }

  lemma PrefixedNone(fs: Parsed<seq<FileRecord>>)
    ensures Prefixed([], fs) == fs
  {
    if fs.Good? { assert [] + fs.value == fs.value; }
  }

  lemma PrefixedStep(a: seq<FileRecord>, s: seq<Byte>, n: nat, keepExtra: bool)
    requires n > 0
    ensures Prefixed(a, ReadFiles(s, n, keepExtra)) ==
            var f := ReadFile(s, keepExtra);
            if f.Bad? then Bad else Prefixed(a + [f.value], ReadFiles(f.rest, n - 1, keepExtra))
  {
    hide ReadFile;
    var f := ReadFile(s, keepExtra);
    if f.Good? && ReadFiles(f.rest, n - 1, keepExtra).Good? {
      var more := ReadFiles(f.rest, n - 1, keepExtra).value;
      assert a + ([f.value] + more) == a + [f.value] + more;
    }
  }

  lemma PrefixedLast(a: seq<FileRecord>, s: seq<Byte>, keepExtra: bool)
    ensures Prefixed(a, ReadFiles(s, 0, keepExtra)) == Good(a, s)
  {
    assert a + [] == a;
  }

  /** A packet: protocol, size of what follows, items. It fails only for a hash that is not 16 bytes. */
  method MakePacket(protocol: Byte, items: seq<Item>) returns (packet: Option<Buffer>)
    ensures packet.Some? <==> AllPrintableItems(items)
    ensures packet.Some? ==>
              var b := packet.value;
              && fresh(b) && fresh(b.data) && b.Valid() && b.pointer == 0
              && b.data[..] == [protocol] + LittleEndian(|PrintItems(items)|, 4) + PrintItems(items)
  {
    hide LittleEndian, PrintItems, PrintableItem;
    var size := ItemSizes(items);
    var buf := new Buffer(5 + size);
    var ok := buf.PutHeader(protocol, size);
    ok := buf.PutItems(items);
    if !ok {
      return None;
    }
    assert buf.Written() == buf.data[..];
    buf.pointer := 0;
    return Some(buf);
  }

  /**
   A file list through both ends: MakePacket fills its buffer exactly and does not fail,
   and GetFileList on the payload gives every file back, up to the end.
   */
  method FileListThroughPacket(protocol: Byte, opcode: Byte, files: seq<SharedFile>) returns (r: Option<seq<FileRecord>>)
    requires |files| < U32 && forall i :: 0 <= i < |files| ==> Sendable(files[i])
    ensures r == Some(Records(files, true))
  {
    hide LittleEndian, Sendable, Records, PrintItem, PrintItems, ListItems, ReadFileList;
    var head := [IntItem(W8, opcode), IntItem(W32, |files|)];
    var items := head + ListItems(files);
    ListPrintable(files);
    var packet := MakePacket(protocol, items);
    var b := packet.value;
    ListPrinted(opcode, files);
    b.pointer := 6;
    FileListRoundTrip(files, [], true);
    var body := PrintItems([IntItem(W32, |files|)] + ListItems(files));
    assert b.data[6..] == body + [];
    r := b.GetFileList(true);
  }

  lemma {:induction false} ListPrintable(fs: seq<SharedFile>)
    requires forall i :: 0 <= i < |fs| ==> Sendable(fs[i])
    ensures AllPrintableItems(ListItems(fs))
  {
    if fs != [] {
      ListPrintable(fs[1..]);
      FileTagsFit(fs[0]);
      hide FileTags;
    }
  }

  lemma ListPrinted(opcode: Byte, fs: seq<SharedFile>)
    ensures var count := [IntItem(W32, |fs|)] + ListItems(fs);
            PrintItems([IntItem(W8, opcode), IntItem(W32, |fs|)] + ListItems(fs)) == [opcode] + PrintItems(count)
  {
    hide ListItems, PrintItems;
    var count := [IntItem(W32, |fs|)] + ListItems(fs);
    assert [IntItem(W8, opcode), IntItem(W32, |fs|)] + ListItems(fs) == [IntItem(W8, opcode)] + count;
    PrintItemsConcat([IntItem(W8, opcode)], count);
    PrintedOpcode(opcode);
  }

  lemma PrintedOpcode(opcode: Byte)
    ensures PrintItems([IntItem(W8, opcode)]) == [opcode]
  {
    assert LittleEndian(opcode, 1) == [opcode];
    var one := [IntItem(W8, opcode)];
    assert one[1..] == [] && PrintItems(one) == PrintItem(one[0]) + PrintItems(one[1..]) == [opcode];
  }
}
