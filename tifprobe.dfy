/** The TIFF header parser: from a byte buffer, possibly only a prefix of
    the file, to the byte order, the ordered collection of directory tags
    and the projection of the tags of interest.  It follows the 8-byte image
    file header and the image file directory of section 2 of TIFF 6.0, with
    the departures the code makes (see the README). */
module TifProbe {
  import opened Base
  import opened Text
  import opened ByteWords
  import opened TiffTables
  import opened OrderedMaps

  /** `(slice(start, start + nbytes), count)`: where an out-of-line value lies. */
  datatype Region = Region(start: nat, nbytes: nat, count: nat) {
    function Stop(): nat { start + nbytes }
  }

  /** A tag value: the raw 32-bit field of an inline value, the text of an
      ASCII value, or the items of an array value as unsigned words. */
  datatype Value = Scalar(n: nat) | Ascii(text: string) | Words(items: seq<nat>)

  /** The `Tag` record: exactly one of `value`/`region` is set by
      `ProcessTag` for a known type; `value` may be filled in later. */
  datatype Tag = Tag(name: string, typeName: string, fmt: Option<string>,
                     value: Option<Value>, region: Option<Region>, id: nat)

  /** One 12-byte directory entry: tag id, type id, count, value or offset. */
  datatype Entry = Entry(tagId: nat, valType: nat, count: nat, valueOrOffset: nat)

  /** The parsed header: byte order, `info` (one field per key of interest)
      and the tags keyed by name in first-seen order. */
  datatype Header = Header(byteorder: ByteOrder,
                           info: map<string, Option<Value>>,
                           tags: OrderedMap<string, Tag>)

  const NotTiff := ValueError("Not a TIFF header")

  // ---------------------------------------------------------------------
  // Reading the fixed-layout fields

  /** `struct.unpack_from('<H' or '>H', b, p)`. */
  function U16(b: seq<byte>, p: nat, o: ByteOrder): (v: nat)
    requires p + 2 <= |b|
    ensures v < 0x1_0000
  {
    var lo, hi := b[p] as nat, b[p + 1] as nat;
    if o == Little then lo + 256 * hi else 256 * lo + hi
  }

  /** `struct.unpack_from('<I' or '>I', b, p)`. */
  function U32(b: seq<byte>, p: nat, o: ByteOrder): (v: nat)
    requires p + 4 <= |b|
    ensures v < 0x1_0000_0000
  {
    var b0, b1, b2, b3 := b[p] as nat, b[p + 1] as nat, b[p + 2] as nat, b[p + 3] as nat;
    if o == Little then b0 + 256 * b1 + 65536 * b2 + 16777216 * b3
    else 16777216 * b0 + 65536 * b1 + 256 * b2 + b3
  }

  /** The directory entry at byte position `p` (`struct` format `HHII`). */
  function EntryAt(b: seq<byte>, p: nat, o: ByteOrder): Entry
    requires p + 12 <= |b|
  {
    Entry(U16(b, p, o), U16(b, p + 2, o), U32(b, p + 4, o), U32(b, p + 8, o))
  }

  /** The `n` entries of the directory at `off`: entry `i` starts at
      `off + 2 + 12 * i`, right after the two-byte entry count. */
  function ReadEntries(b: seq<byte>, off: nat, n: nat, o: ByteOrder): (es: seq<Entry>)
    requires off + 2 + 12 * n <= |b|
    ensures |es| == n
    ensures forall i :: 0 <= i < n ==> es[i] == EntryAt(b, off + 2 + 12 * i, o)
  {
    seq(n, i requires 0 <= i < n => EntryAt(b, off + 2 + 12 * i, o))
  }

  // ---------------------------------------------------------------------
  // Byte order

  /** `check_byte_order`: little when bytes 0-1 are "II"; otherwise big when
      bytes 2-3 (not 0-1) are "MM"; otherwise not a TIFF header.  A buffer
      shorter than 4 bytes makes `struct.unpack` fail. */
  function CheckByteOrder(data: seq<byte>): (r: Result<ByteOrder>)
    ensures r == Ok(Little) <==> |data| >= 4 && data[0] == 0x49 && data[1] == 0x49
    ensures r == Ok(Big) <==>
              |data| >= 4 && !(data[0] == 0x49 && data[1] == 0x49)
              && data[2] == 0x4D && data[3] == 0x4D
    ensures r.Err? ==> r.error == (if |data| < 4 then StructError else NotTiff)
  {
    if |data| < 4 then Err(StructError)
    else if 256 * data[0] as int + data[1] as int == 0x4949 then Ok(Little)
    else if 256 * data[2] as int + data[3] as int == 0x4D4D then Ok(Big)
    else Err(NotTiff)
  }

  // ---------------------------------------------------------------------
  // Tags

  /** The catalogue name of a tag id, or `Tag_<id>` for an id not in it. */
  function TagName(id: nat): string {
    if id in TagNames then TagNames[id] else "Tag_" + NatToDecimal(id)
  }

  /** `process_tag`: the name, type metadata, and either the inline value
      or the region of the value. */
  function ProcessTag(e: Entry): (t: Tag)
    ensures t.id == e.tagId && t.name == TagName(e.tagId)
    ensures TypeInfo(e.valType).None? ==>
              t.typeName == "UNKNOWN" && t.fmt.None? && t.value.None? && t.region.None?
    ensures TypeInfo(e.valType).Some? ==>
              var tt := TypeInfo(e.valType).value;
              && t.typeName == tt.name && t.fmt == Some(tt.fmt)
              // exactly one of value and region is set
              && (t.value.Some? <==> !t.region.Some?)
              // inline only for a single item of at most 4 bytes
              && (t.value.Some? <==> tt.size <= 4 && e.count == 1)
              && (t.value.Some? ==> t.value.value == Scalar(e.valueOrOffset))
              && (t.region.Some? ==>
                    t.region.value.start == e.valueOrOffset
                    && t.region.value.Stop() == e.valueOrOffset + e.count * tt.size
                    && t.region.value.count == e.count)
  {
    var name := TagName(e.tagId);
    match TypeInfo(e.valType)
    case Some(tt) =>
      if tt.size <= 4 && e.count == 1 then
        Tag(name, tt.name, Some(tt.fmt), Some(Scalar(e.valueOrOffset)), None, e.tagId)
      else
        Tag(name, tt.name, Some(tt.fmt), None,
            Some(Region(e.valueOrOffset, e.count * tt.size, e.count)), e.tagId)
    case None =>
      Tag(name, "UNKNOWN", None, None, None, e.tagId)
  }

  /** `with_x(tag, value=v)`: the same tag with its value replaced. */
  function WithValue(t: Tag, v: Value): (r: Tag)
    ensures r.value == Some(v)
    ensures r.name == t.name && r.typeName == t.typeName && r.fmt == t.fmt
    ensures r.region == t.region && r.id == t.id
  {
    t.(value := Some(v))
  }

  /** `with_x` replacing the value twice keeps the second value, and
      replacing a value by itself changes nothing. */
  lemma WithValueLaws(t: Tag, v: Value, w: Value)
    ensures WithValue(WithValue(t, v), w) == WithValue(t, w)
    ensures t.value == Some(v) ==> WithValue(t, v) == t
  {
  }

  /** `have_bytes_for_tag`. */
  function HaveBytesForTag(t: Tag, buffer: seq<byte>): (r: bool)
    ensures r <==> t.region.Some? && t.region.value.Stop() <= |buffer|
  {
    match t.region
    case None => false
    case Some(roi) => roi.Stop() <= |buffer|
  }

  /** `fmt in array.typecodes`, which on a `str` is a substring test. */
  predicate IsArrayTypecode(fmt: string) {
    IsSubstring(fmt, ArrayTypecodes)
  }

  predicate IsSubstring(part: string, whole: string)
    decreases |whole|
  {
    |part| <= |whole| && (whole[..|part|] == part || IsSubstring(part, whole[1..]))
  }

  const ArrayTypecodes: string := "bBuhHiIlLqQfd"

  predicate AllAscii(bs: seq<byte>) { forall i :: 0 <= i < |bs| ==> bs[i] < 0x80 }

  function AsChars(bs: seq<byte>): (s: string)
    ensures |s| == |bs| && forall i :: 0 <= i < |bs| ==> s[i] as int == bs[i] as int
  {
    seq(|bs|, i requires 0 <= i < |bs| => bs[i] as int as char)
  }

  /** `buffer[roi][:-2]`: the region without its last two bytes. */
  function DropTwo(bs: seq<byte>): (r: seq<byte>)
    ensures |bs| >= 2 ==> r == bs[..|bs| - 2]
    ensures |bs| < 2 ==> r == []
  {
    if |bs| >= 2 then bs[..|bs| - 2] else []
  }

  /** `extract_tag_data` as a value: the decoded region of `tag`, `None` when
      the region is past the buffer or the format is not an array type code. */
  function ExtractSpec(tag: Tag, buffer: seq<byte>, bo: ByteOrder, host: ByteOrder): Result<Option<Value>>
    requires tag.region.Some?
  {
    var roi := tag.region.value;
    if |buffer| < roi.Stop() then Ok(None)
    else
      var bytes := buffer[roi.start..roi.Stop()];
      if tag.fmt == Some("s") then
        var kept := DropTwo(bytes);
        if AllAscii(kept) then Ok(Some(Ascii(AsChars(kept)))) else Err(UnicodeDecodeError)
      else if tag.fmt.None? then Err(TypeError)
      else if !IsArrayTypecode(tag.fmt.value) then Ok(None)
      else match ArrayItemSize(tag.fmt.value)
        case None => Err(TypeError)
        case Some(k) =>
          if |bytes| % k != 0 then Err(ValueError("bytes length not a multiple of item size"))
          else
            var items := FromBytes(bytes, k, host);
            Ok(Some(Words(if bo != host then SwapAll(items, k) else items)))
  }

  /** `array.byteswap()` on the items of `a`, in place. */
  method ByteSwap(a: array<nat>, k: nat)
    requires Fits(a[..], k)
    modifies a
    ensures a[..] == SwapAll(old(a[..]), k)
  {
    for i := 0 to a.Length
      invariant forall j :: 0 <= j < i ==> a[j] == SwapWord(old(a[j]), k)
      invariant forall j :: i <= j < a.Length ==> a[j] == old(a[j])
    {
      a[i] := SwapWord(a[i], k);
    }
  }

  /** `extract_tag_data`: copies the region into a fresh array of host-order
      items and swaps them in place when the file's byte order differs. */
  method ExtractTagData(tag: Tag, buffer: seq<byte>, bo: ByteOrder, host: ByteOrder)
    returns (r: Result<Option<Value>>)
    requires tag.region.Some?
    ensures r == ExtractSpec(tag, buffer, bo, host)
  {
    var roi := tag.region.value;
    if |buffer| < roi.Stop() {
      return Ok(None);
    }
    var bytes := buffer[roi.start..roi.Stop()];
    if tag.fmt == Some("s") {
      var kept := DropTwo(bytes);
      if !AllAscii(kept) {
        return Err(UnicodeDecodeError);
      }
      return Ok(Some(Ascii(AsChars(kept))));
    }
    if tag.fmt.None? {
      return Err(TypeError);
    }
    if !IsArrayTypecode(tag.fmt.value) {
      return Ok(None);
    }
    var size := ArrayItemSize(tag.fmt.value);
    if size.None? {
      return Err(TypeError);
    }
    var k := size.value;
    if |bytes| % k != 0 {
      return Err(ValueError("bytes length not a multiple of item size"));
    }
    var items := FromBytes(bytes, k, host);
    var aa := new nat[|items|](i requires 0 <= i < |items| => items[i]);
    assert aa[..] == items;
    if bo != host {
      ByteSwap(aa, k);
    }
    return Ok(Some(Words(aa[..])));
  }

  /** One directory entry, resolved as the loop of `hdr_from_bytes` does:
      an out-of-line value whose bytes are in the buffer is decoded. */
  function Resolve(e: Entry, buffer: seq<byte>, bo: ByteOrder, host: ByteOrder): (r: Result<Tag>)
    ensures r.Ok? ==> r.value.name == TagName(e.tagId) && r.value.id == e.tagId
  {
    var tag := ProcessTag(e);
    if tag.value.None? && HaveBytesForTag(tag, buffer) then
      match ExtractSpec(tag, buffer, bo, host)
      case Err(err) => Err(err)
      case Ok(None) => Ok(tag)
      case Ok(Some(vv)) => Ok(WithValue(tag, vv))
    else Ok(tag)
  }

  /** The loop of `hdr_from_bytes` over the remaining entries, with the
      tags collected so far in `acc`; an entry overwrites any earlier tag of
      the same name. */
  function CollectFrom(entries: seq<Entry>, acc: OrderedMap<string, Tag>,
                       buffer: seq<byte>, bo: ByteOrder, host: ByteOrder): (r: Result<OrderedMap<string, Tag>>)
    requires Valid(acc)
    ensures r.Ok? ==> Valid(r.value)
  {
    if entries == [] then Ok(acc)
    else match Resolve(entries[0], buffer, bo, host)
      case Err(err) => Err(err)
      case Ok(t) => CollectFrom(entries[1..], Put(acc, t.name, t), buffer, bo, host)
  }

  /** The `info` projection: one field per key of interest, holding the
      value of the tag of that name, or `None` when there is no such tag. */
  function InfoOf(tags: OrderedMap<string, Tag>): (info: map<string, Option<Value>>)
    ensures info.Keys == set k | k in KeysOfInterest
    ensures forall k :: k in info && k !in tags.vals ==> info[k] == None
    ensures forall k :: k in info && k in tags.vals ==> info[k] == tags.vals[k].value
  {
    map k | k in KeysOfInterest :: if k in tags.vals then tags.vals[k].value else None
  }

  /** Everything `hdr_from_bytes` does once the byte order is known. */
  function ParseWithOrder(buffer: seq<byte>, bo: ByteOrder, host: ByteOrder): Result<Header> {
    if |buffer| < 8 then Err(StructError)
    else if U16(buffer, 2, bo) != 42 then Err(NotTiff)
    else
      var off := U32(buffer, 4, bo);
      if |buffer| < off + 2 then Err(StructError)
      else
        var n := U16(buffer, off, bo);
        if |buffer| < off + 2 + 12 * n then Err(StructError)
        else match CollectFrom(ReadEntries(buffer, off, n, bo), Empty(), buffer, bo, host)
          case Err(err) => Err(err)
          case Ok(tags) => Ok(Header(bo, InfoOf(tags), tags))
  }

  /** `hdr_from_bytes` as a value; `host` is `sys.byteorder`. */
  function ParseHeader(buffer: seq<byte>, host: ByteOrder): Result<Header> {
    match CheckByteOrder(buffer)
    case Err(err) => Err(err)
    case Ok(bo) => ParseWithOrder(buffer, bo, host)
  }

  /** `hdr_from_bytes`: reads the file header and the directory entries, then
      builds the ordered tag collection entry by entry. */
  method HdrFromBytes(buffer: seq<byte>, host: ByteOrder) returns (r: Result<Header>)
    ensures r == ParseHeader(buffer, host)
  {
    var order := CheckByteOrder(buffer);
    if order.Err? {
      return Err(order.error);
    }
    var bo := order.value;
    if |buffer| < 8 {
      return Err(StructError);
    }
    if U16(buffer, 2, bo) != 42 {
      return Err(NotTiff);
    }
    var off := U32(buffer, 4, bo);
    if |buffer| < off + 2 {
      return Err(StructError);
    }
    var n := U16(buffer, off, bo);
    if |buffer| < off + 2 + 12 * n {
      return Err(StructError);
    }
    var entries := ReadEntries(buffer, off, n, bo);
    var parsed: OrderedMap<string, Tag> := Empty();
    for i := 0 to |entries|
      invariant Valid(parsed)
      invariant CollectFrom(entries[i..], parsed, buffer, bo, host)
             == CollectFrom(entries, Empty(), buffer, bo, host)
    {
      var tag := ResolveEntry(entries[i], buffer, bo, host);
      assert entries[i..][0] == entries[i];
      if tag.Err? {
        return Err(tag.error);
      }
      assert entries[i..][1..] == entries[i + 1..];
      parsed := Put(parsed, tag.value.name, tag.value);
    }
    assert entries[|entries|..] == [];
    return Ok(Header(bo, InfoOf(parsed), parsed));
  }

  /** The body of the loop of `hdr_from_bytes`: `process_tag`, then, for an
      out-of-line value whose bytes are in the buffer, `extract_tag_data`
      and `with_x`. */
  method ResolveEntry(e: Entry, buffer: seq<byte>, bo: ByteOrder, host: ByteOrder) returns (r: Result<Tag>)
    ensures r == Resolve(e, buffer, bo, host)
  {
    var tag := ProcessTag(e);
    if tag.value.None? && HaveBytesForTag(tag, buffer) {
      var vv := ExtractTagData(tag, buffer, bo, host);
      if vv.Err? {
        return Err(vv.error);
      }
      if vv.value.Some? {
        tag := WithValue(tag, vv.value.value);
      }
    }
    return Ok(tag);
  }


  // ---------------------------------------------------------------------
  // Properties of the parser

  /** The name an entry is stored under. */
  function NameOf(e: Entry): string { TagName(e.tagId) }

  /** The names of all the entries. */
  function NamesOf(entries: seq<Entry>): (r: set<string>)
    ensures forall i :: 0 <= i < |entries| ==> NameOf(entries[i]) in r
    ensures forall x :: x in r ==> exists i :: 0 <= i < |entries| && NameOf(entries[i]) == x
  {
    if entries == [] then {}
    else
      var r := {NameOf(entries[0])} + NamesOf(entries[1..]);
      assert forall i :: 0 < i < |entries| ==> entries[i] == entries[1..][i - 1];
      r
  }

  /** The names of the entries, in order. */
  function NameList(entries: seq<Entry>): (ns: seq<string>)
    ensures |ns| == |entries|
  {
    if entries == [] then [] else [NameOf(entries[0])] + NameList(entries[1..])
  }

  /** No later name in `ns` equals the one at `i`. */
  predicate LastIn(ns: seq<string>, i: nat)
    requires i < |ns|
  {
    forall j :: i < j < |ns| ==> ns[j] != ns[i]
  }

  /** No later entry is stored under the same name as entry `i`. */
  predicate LastOfName(entries: seq<Entry>, i: nat)
    requires i < |entries|
  {
    LastIn(NameList(entries), i)
  }

  /** The name list holds each entry's name at the entry's index. */
  lemma {:induction false} NameListAt(entries: seq<Entry>, i: nat)
    requires i < |entries|
    ensures NameList(entries)[i] == NameOf(entries[i])
    decreases i
  {
    if i > 0 {
      NameListAt(entries[1..], i - 1);
      assert entries[1..][i - 1] == entries[i];
    }
  }

  /** The name list of the remaining entries is the tail of the name list. */
  lemma NameListTail(entries: seq<Entry>)
    requires entries != []
    ensures NameList(entries)[0] == NameOf(entries[0])
    ensures NameList(entries)[1..] == NameList(entries[1..])
  {
    assert NameList(entries) == [NameOf(entries[0])] + NameList(entries[1..]);
  }

  /** The first name, when last of its kind, is absent from the rest. */
  lemma LastInFirst(ns: seq<string>)
    requires ns != [] && LastIn(ns, 0)
    ensures ns[0] !in ns[1..]
  {
  }

  /** Being last of its name survives dropping the first name. */
  lemma LastInTail(ns: seq<string>, i: nat)
    requires 0 < i < |ns| && LastIn(ns, i)
    ensures LastIn(ns[1..], i - 1)
  {
    forall j | i - 1 < j < |ns[1..]| ensures ns[1..][j] != ns[1..][i - 1] {
      assert ns[1..][j] == ns[j + 1];
    }
  }

  /** Collecting entries into `acc` succeeds only when every entry resolves. */
  lemma {:induction false} CollectResolves(entries: seq<Entry>, acc: OrderedMap<string, Tag>,
                                           buffer: seq<byte>, bo: ByteOrder, host: ByteOrder)
    requires Valid(acc)
    requires CollectFrom(entries, acc, buffer, bo, host).Ok?
    ensures forall i :: 0 <= i < |entries| ==> Resolve(entries[i], buffer, bo, host).Ok?
    decreases |entries|
  {
    if entries != [] {
      var t := Resolve(entries[0], buffer, bo, host).value;
      var rest := entries[1..];
      CollectResolves(rest, Put(acc, t.name, t), buffer, bo, host);
      forall i | 0 < i < |entries| ensures Resolve(entries[i], buffer, bo, host).Ok? {
        assert entries[i] == rest[i - 1];
      }
    }
  }

  /** A successful collection grows the key set by exactly the entries'
      names, and the keys already present keep their order at the front. */
  lemma {:induction false} CollectKeys(entries: seq<Entry>, acc: OrderedMap<string, Tag>,
                                       buffer: seq<byte>, bo: ByteOrder, host: ByteOrder)
    requires Valid(acc)
    requires CollectFrom(entries, acc, buffer, bo, host).Ok?
    ensures var m := CollectFrom(entries, acc, buffer, bo, host).value;
      acc.keys <= m.keys && forall k :: k in m.vals <==> k in acc.vals || k in NamesOf(entries)
    decreases |entries|
  {
    if entries != [] {
      var t := Resolve(entries[0], buffer, bo, host).value;
      var acc' := Put(acc, t.name, t);
      CollectKeys(entries[1..], acc', buffer, bo, host);
      var m := CollectFrom(entries[1..], acc', buffer, bo, host).value;
      assert CollectFrom(entries, acc, buffer, bo, host).value == m;
      assert acc.keys <= acc'.keys;
    }
  }

  /** The tag kept under each name is the one resolved from the LAST entry
      of that name: a later entry overwrites an earlier one. */
  lemma CollectLastWins(entries: seq<Entry>, acc: OrderedMap<string, Tag>,
                         buffer: seq<byte>, bo: ByteOrder, host: ByteOrder, i: nat)
    requires Valid(acc)
    requires CollectFrom(entries, acc, buffer, bo, host).Ok?
    requires i < |entries| && LastOfName(entries, i)
    ensures Resolve(entries[i], buffer, bo, host).Ok?
    ensures var m := CollectFrom(entries, acc, buffer, bo, host).value;
      NameOf(entries[i]) in m.vals && m.vals[NameOf(entries[i])] == Resolve(entries[i], buffer, bo, host).value
  {
    NameListAt(entries, i);
    CollectLastIn(entries, acc, buffer, bo, host, i);
  }

  /** `CollectLastWins` over the name list. */
  lemma {:induction false} CollectLastIn(entries: seq<Entry>, acc: OrderedMap<string, Tag>,
                                         buffer: seq<byte>, bo: ByteOrder, host: ByteOrder, i: nat)
    requires Valid(acc)
    requires CollectFrom(entries, acc, buffer, bo, host).Ok?
    requires i < |entries| && LastIn(NameList(entries), i)
    ensures Resolve(entries[i], buffer, bo, host).Ok?
    ensures var m := CollectFrom(entries, acc, buffer, bo, host).value;
      NameList(entries)[i] in m.vals && m.vals[NameList(entries)[i]] == Resolve(entries[i], buffer, bo, host).value
    decreases |entries|
  {
    var t := CollectHead(entries, acc, buffer, bo, host);
    var rest := entries[1..];
    if i == 0 {
      LastInFirst(NameList(entries));
      CollectUntouched(rest, Put(acc, t.name, t), buffer, bo, host, t.name);
    } else {
      LastInTail(NameList(entries), i);
      assert rest[i - 1] == entries[i];
      CollectLastIn(rest, Put(acc, t.name, t), buffer, bo, host, i - 1);
    }
  }

  /** Resolving changes only the value: the tag keeps every other field
      `process_tag` gave it, and an inline value stays as it is. */
  lemma ResolveKeepsFields(e: Entry, buffer: seq<byte>, bo: ByteOrder, host: ByteOrder)
    requires Resolve(e, buffer, bo, host).Ok?
    ensures var t := Resolve(e, buffer, bo, host).value;
      var p := ProcessTag(e);
      && t.name == p.name && t.typeName == p.typeName && t.fmt == p.fmt
      && t.region == p.region && t.id == p.id
      && (p.value.Some? ==> t.value == p.value)
  {
  }

  /** A successful collection resolves its first entry, puts it, and goes on. */
  lemma CollectStep(entries: seq<Entry>, acc: OrderedMap<string, Tag>,
                    buffer: seq<byte>, bo: ByteOrder, host: ByteOrder)
    requires Valid(acc) && entries != []
    requires CollectFrom(entries, acc, buffer, bo, host).Ok?
    ensures Resolve(entries[0], buffer, bo, host).Ok?
    ensures var t := Resolve(entries[0], buffer, bo, host).value;
      && t.name == NameOf(entries[0]) && Valid(Put(acc, t.name, t))
      && CollectFrom(entries, acc, buffer, bo, host) == CollectFrom(entries[1..], Put(acc, t.name, t), buffer, bo, host)
  {
  }

  /** `CollectStep` stated over the name list, with the first tag named. */
  lemma CollectHead(entries: seq<Entry>, acc: OrderedMap<string, Tag>,
                    buffer: seq<byte>, bo: ByteOrder, host: ByteOrder) returns (t: Tag)
    requires Valid(acc) && entries != []
    requires CollectFrom(entries, acc, buffer, bo, host).Ok?
    ensures Resolve(entries[0], buffer, bo, host) == Ok(t)
    ensures t.name == NameList(entries)[0] && NameList(entries)[1..] == NameList(entries[1..])
    ensures Valid(Put(acc, t.name, t))
    ensures CollectFrom(entries, acc, buffer, bo, host) == CollectFrom(entries[1..], Put(acc, t.name, t), buffer, bo, host)
  {
    CollectStep(entries, acc, buffer, bo, host);
    NameListTail(entries);
    t := Resolve(entries[0], buffer, bo, host).value;
  }

  /** A name no entry carries keeps the tag it had in `acc`. */
  lemma {:induction false} CollectUntouched(entries: seq<Entry>, acc: OrderedMap<string, Tag>,
                                            buffer: seq<byte>, bo: ByteOrder, host: ByteOrder, k: string)
    requires Valid(acc)
    requires CollectFrom(entries, acc, buffer, bo, host).Ok?
    requires k in acc.vals && k !in NameList(entries)
    ensures var m := CollectFrom(entries, acc, buffer, bo, host).value;
      k in m.vals && m.vals[k] == acc.vals[k]
    decreases |entries|
  {
    if entries != [] {
      CollectStep(entries, acc, buffer, bo, host);
      NameListTail(entries);
      var t := Resolve(entries[0], buffer, bo, host).value;
      assert NameList(entries) == [NameList(entries)[0]] + NameList(entries)[1..];
      CollectUntouched(entries[1..], Put(acc, t.name, t), buffer, bo, host, k);
    }
  }

  /** The directory entries `hdr_from_bytes` walks, or none when they do not
      fit in the buffer. */
  function DirectoryEntries(buffer: seq<byte>, bo: ByteOrder): (es: seq<Entry>)
    requires |buffer| >= 8
    ensures var off := U32(buffer, 4, bo);
      off + 2 <= |buffer| && off + 2 + 12 * U16(buffer, off, bo) <= |buffer| ==>
        |es| == U16(buffer, off, bo)
  {
    var off := U32(buffer, 4, bo);
    if |buffer| < off + 2 then []
    else
      var n := U16(buffer, off, bo);
      if |buffer| < off + 2 + 12 * n then [] else ReadEntries(buffer, off, n, bo)
  }

  /** Entry `i` of the directory is the `HHII` record `12 * i` bytes after
      the two-byte count: tag id, type, count and value or offset, each read
      in the file's byte order. */
  lemma DirectoryEntryAt(buffer: seq<byte>, bo: ByteOrder, i: nat)
    requires |buffer| >= 8 && i < |DirectoryEntries(buffer, bo)|
    ensures var p := U32(buffer, 4, bo) + 2 + 12 * i;
      && p + 12 <= |buffer|
      && DirectoryEntries(buffer, bo)[i]
         == Entry(U16(buffer, p, bo), U16(buffer, p + 2, bo), U32(buffer, p + 4, bo), U32(buffer, p + 8, bo))
  {
  }

  /** A parsed header passed both checks of the 8-byte file header, and
      its tags are collected from all its directory entries. */
  lemma HeaderShape(buffer: seq<byte>, host: ByteOrder)
    requires ParseHeader(buffer, host).Ok?
    ensures var h := ParseHeader(buffer, host).value;
      && CheckByteOrder(buffer) == Ok(h.byteorder)
      && |buffer| >= 8 && U16(buffer, 2, h.byteorder) == 42
      && CollectFrom(DirectoryEntries(buffer, h.byteorder), Empty(), buffer, h.byteorder, host) == Ok(h.tags)
      && h.info == InfoOf(h.tags)
  {
  }

  /** Tags collected from scratch: one per distinct name among the entries,
      each name listed once. */
  lemma CollectedNames(entries: seq<Entry>, buffer: seq<byte>, bo: ByteOrder, host: ByteOrder,
                       tags: OrderedMap<string, Tag>)
    requires CollectFrom(entries, Empty(), buffer, bo, host) == Ok(tags)
    ensures forall k :: k in tags.vals <==> k in NamesOf(entries)
    ensures |tags.keys| == |tags.vals|
  {
    CollectKeys(entries, Empty(), buffer, bo, host);
    KeyCount(tags);
  }

  /** The tags of a parsed header are named by its directory entries, one
      tag per distinct name. */
  lemma HeaderTagNames(buffer: seq<byte>, host: ByteOrder, h: Header)
    requires ParseHeader(buffer, host) == Ok(h)
    ensures |buffer| >= 8
    ensures forall k :: k in h.tags.vals <==> k in NamesOf(DirectoryEntries(buffer, h.byteorder))
    ensures |h.tags.keys| == |h.tags.vals|
  {
    HeaderShape(buffer, host);
    CollectedNames(DirectoryEntries(buffer, h.byteorder), buffer, h.byteorder, host, h.tags);
  }

  /** The `info` of a parsed header has exactly the keys of interest; each
      holds the value of the tag of that name when some directory entry
      carries the name, and `None` when none does. */
  lemma HeaderInfo(buffer: seq<byte>, host: ByteOrder, h: Header, k: string)
    requires ParseHeader(buffer, host) == Ok(h)
    ensures |buffer| >= 8
    ensures k in h.info <==> k in KeysOfInterest
    ensures k in h.info && k in NamesOf(DirectoryEntries(buffer, h.byteorder)) ==>
              k in h.tags.vals && h.info[k] == h.tags.vals[k].value
    ensures k in h.info && k !in NamesOf(DirectoryEntries(buffer, h.byteorder)) ==> h.info[k] == None
  {
    HeaderShape(buffer, host);
    HeaderTagNames(buffer, host, h);
  }

  /** In a parsed header, the tag of each name is the one resolved from the
      last directory entry of that name. */
  lemma HeaderLastWins(buffer: seq<byte>, host: ByteOrder, h: Header, i: nat)
    requires ParseHeader(buffer, host) == Ok(h)
    requires |buffer| >= 8
    requires i < |DirectoryEntries(buffer, h.byteorder)| && LastOfName(DirectoryEntries(buffer, h.byteorder), i)
    ensures var e := DirectoryEntries(buffer, h.byteorder)[i];
      && Resolve(e, buffer, h.byteorder, host).Ok?
      && NameOf(e) in h.tags.vals
      && h.tags.vals[NameOf(e)] == Resolve(e, buffer, h.byteorder, host).value
  {
    HeaderShape(buffer, host);
    CollectLastWins(DirectoryEntries(buffer, h.byteorder), Empty(), buffer, h.byteorder, host, i);
  }

  /** Once the file header checks out, `hdr_from_bytes` raises
      `struct.error` exactly when the directory does not fit in the buffer:
      never a partial result, and never for a directory that fits. */
  lemma DirectoryMustFit(buffer: seq<byte>, host: ByteOrder, bo: ByteOrder)
    requires CheckByteOrder(buffer) == Ok(bo)
    requires |buffer| >= 8 && U16(buffer, 2, bo) == 42
    ensures var off := U32(buffer, 4, bo);
      (off + 2 > |buffer| || off + 2 + 12 * U16(buffer, off, bo) > |buffer|)
        <==> ParseHeader(buffer, host) == Err(StructError)
  {
    CollectErrors(DirectoryEntries(buffer, bo), Empty(), buffer, bo, host);
  }

  /** A header whose byte order is accepted, whose magic number is 42 and
      whose directory fits in the buffer parses, in that byte order, exactly
      when every directory entry resolves. */
  lemma ParseSucceeds(buffer: seq<byte>, host: ByteOrder, bo: ByteOrder)
    requires CheckByteOrder(buffer) == Ok(bo)
    requires |buffer| >= 8 && U16(buffer, 2, bo) == 42
    requires var off := U32(buffer, 4, bo);
      off + 2 <= |buffer| && off + 2 + 12 * U16(buffer, off, bo) <= |buffer|
    ensures ParseHeader(buffer, host).Ok? <==>
              forall i :: 0 <= i < |DirectoryEntries(buffer, bo)| ==>
                Resolve(DirectoryEntries(buffer, bo)[i], buffer, bo, host).Ok?
    ensures ParseHeader(buffer, host).Ok? ==> ParseHeader(buffer, host).value.byteorder == bo
  {
    CollectFails(DirectoryEntries(buffer, bo), Empty(), buffer, bo, host);
  }

  /** A header whose byte-order check passes but whose magic number, read
      in the order that check found, is not 42 is "Not a TIFF header". */
  lemma WrongMagicRejected(buffer: seq<byte>, host: ByteOrder)
    requires CheckByteOrder(buffer).Ok? && |buffer| >= 8
    requires U16(buffer, 2, CheckByteOrder(buffer).value) != 42
    ensures ParseHeader(buffer, host) == Err(NotTiff)
  {
  }

  // ---------------------------------------------------------------------
  // Big-endian files

  /** A big-endian byte order can never make it through `hdr_from_bytes`:
      it is only detected when bytes 2-3 are "MM", and then the magic number
      read from those same bytes is 0x4D4D, not 42. */
  lemma BigEndianNeverParses(buffer: seq<byte>, host: ByteOrder)
    ensures ParseHeader(buffer, host).Ok? ==> ParseHeader(buffer, host).value.byteorder == Little
  {
    if CheckByteOrder(buffer) == Ok(Big) && |buffer| >= 8 {
      assert U16(buffer, 2, Big) == 0x4D4D;
    }
  }

  /** A standard big-endian TIFF file ("MM", then 42 as a big-endian u16)
      is rejected as "Not a TIFF header". */
  lemma StandardBigEndianRejected(buffer: seq<byte>, host: ByteOrder)
    requires |buffer| >= 8
    requires buffer[0] == 0x4D && buffer[1] == 0x4D && buffer[2] == 0x00 && buffer[3] == 0x2A
    ensures ParseHeader(buffer, host) == Err(NotTiff)
  {
  }

  /** The byte-order check that section 2 of TIFF 6.0 describes: bytes 0-1
      are "II" or "MM". */
  function CheckByteOrderIntended(data: seq<byte>): (r: Result<ByteOrder>)
    ensures r == Ok(Little) <==> |data| >= 4 && data[0] == 0x49 && data[1] == 0x49
    ensures r == Ok(Big) <==> |data| >= 4 && data[0] == 0x4D && data[1] == 0x4D
    ensures r.Err? ==> r.error == (if |data| < 4 then StructError else NotTiff)
  {
    if |data| < 4 then Err(StructError)
    else if data[0] == 0x49 && data[1] == 0x49 then Ok(Little)
    else if data[0] == 0x4D && data[1] == 0x4D then Ok(Big)
    else Err(NotTiff)
  }

  /** `hdr_from_bytes` with the byte-order check of TIFF 6.0. */
  function ParseHeaderIntended(buffer: seq<byte>, host: ByteOrder): (r: Result<Header>)
    ensures r.Ok? ==> CheckByteOrderIntended(buffer) == Ok(r.value.byteorder)
  {
    match CheckByteOrderIntended(buffer)
    case Err(err) => Err(err)
    case Ok(bo) => ParseWithOrder(buffer, bo, host)
  }

  /** With the intended check, both TIFF 6.0 preambles ("II" then 42 in
      little-endian order, "MM" then 42 in big-endian order) pass the file
      header checks, and a header parsed from them reports that byte order. */
  lemma IntendedAcceptsBothOrders(buffer: seq<byte>, host: ByteOrder, bo: ByteOrder)
    requires |buffer| >= 8
    requires bo == Little ==> buffer[0] == 0x49 && buffer[1] == 0x49 && buffer[2] == 0x2A && buffer[3] == 0x00
    requires bo == Big ==> buffer[0] == 0x4D && buffer[1] == 0x4D && buffer[2] == 0x00 && buffer[3] == 0x2A
    ensures ParseHeaderIntended(buffer, host) == ParseWithOrder(buffer, bo, host)
    ensures ParseHeaderIntended(buffer, host) != Err(NotTiff)
  {
    assert U16(buffer, 2, bo) == 42;
    ParseWithOrderErrors(buffer, bo, host);
  }

  /** On little-endian files the intended parser and the one as written agree. */
  lemma IntendedAgreesOnLittleEndian(buffer: seq<byte>, host: ByteOrder)
    requires CheckByteOrder(buffer) == Ok(Little)
    ensures ParseHeaderIntended(buffer, host) == ParseHeader(buffer, host)
  {
  }

  // ---------------------------------------------------------------------
  // Decoding out-of-line values

  /** `part` occurs in `whole` at position `i`. */
  lemma {:induction false} SubstringAt(part: string, whole: string, i: nat)
    requires i + |part| <= |whole| && whole[i..i + |part|] == part
    ensures IsSubstring(part, whole)
    decreases i
  {
    if i > 0 {
      assert whole[1..][i - 1..i - 1 + |part|] == whole[i..i + |part|];
      SubstringAt(part, whole[1..], i - 1);
    }
  }

  /** A string with no two consecutive 'I's does not contain "II". */
  lemma {:induction false} NoDoubleI(w: string)
    requires forall i :: 0 <= i < |w| - 1 ==> !(w[i] == 'I' && w[i + 1] == 'I')
    ensures !IsSubstring("II", w)
    decreases |w|
  {
    if |w| >= 2 {
      assert w[..2] != "II" by {
        assert !(w[0] == 'I' && w[1] == 'I');
        assert "II"[0] == 'I' && "II"[1] == 'I';
      }
      assert forall i :: 0 <= i < |w| - 2 ==> !(w[1..][i] == 'I' && w[1..][i + 1] == 'I');
      NoDoubleI(w[1..]);
    }
  }

  /** "II" is not a substring of `array.typecodes`, so values of the two
      rational types are never decoded. */
  lemma RationalIsNotATypecode()
    ensures !IsArrayTypecode("II")
  {
    var w := ArrayTypecodes;
    assert w[6] == 'I' && w[7] == 'l';
    assert forall i :: 0 <= i < |w| - 1 && i != 6 ==> w[i] != 'I';
    NoDoubleI(w);
  }

  /** Every single-letter format of the type table is an array type code
      with the table's item size. */
  lemma TypecodeSizes(t: int)
    requires TypeInfo(t).Some? && t != 2 && t != 5 && t != 10
    ensures IsArrayTypecode(TypeInfo(t).value.fmt)
    ensures ArrayItemSize(TypeInfo(t).value.fmt) == Some(TypeInfo(t).value.size)
  {
    if t == 1 {
      TypecodeIn("B", 1);
    } else if t == 3 {
      TypecodeIn("H", 4);
    } else if t == 4 {
      TypecodeIn("I", 6);
    } else if t == 6 || t == 7 {
      TypecodeIn("b", 0);
    } else if t == 8 {
      TypecodeIn("h", 3);
    } else if t == 9 {
      TypecodeIn("i", 5);
    } else if t == 11 {
      TypecodeIn("f", 11);
    } else {
      TypecodeIn("d", 12);
    }
  }

  /** A one-letter format found at position `i` of `array.typecodes`. */
  lemma TypecodeIn(f: string, i: nat)
    requires i < |ArrayTypecodes| && f == [ArrayTypecodes[i]]
    ensures IsArrayTypecode(f)
  {
    assert ArrayTypecodes[i..i + 1] == f;
    SubstringAt(f, ArrayTypecodes, i);
  }

  /** An ASCII value whose bytes are in the buffer decodes to its bytes
      without the last two, or fails on a byte above 0x7F. */
  lemma ExtractedAscii(e: Entry, buffer: seq<byte>, bo: ByteOrder, host: ByteOrder)
    requires e.valType == 2 && e.count != 1
    requires e.valueOrOffset + e.count <= |buffer|
    ensures var bytes := buffer[e.valueOrOffset..e.valueOrOffset + e.count];
      var kept := DropTwo(bytes);
      ExtractSpec(ProcessTag(e), buffer, bo, host)
        == (if AllAscii(kept) then Ok(Some(Ascii(AsChars(kept)))) else Err(UnicodeDecodeError))
  {
  }

  /** Values of the rational types are left undecoded. */
  lemma ExtractedRational(e: Entry, buffer: seq<byte>, bo: ByteOrder, host: ByteOrder)
    requires e.valType == 5 || e.valType == 10
    ensures ExtractSpec(ProcessTag(e), buffer, bo, host) == Ok(None)
  {
    var t := ProcessTag(e);
    assert t.fmt == Some("II") && "II" != "s";
    RationalIsNotATypecode();
  }

  /** Any other out-of-line value in the buffer decodes to its `count`
      items, each read in the FILE's byte order whatever the host's. */
  lemma ExtractedWords(e: Entry, buffer: seq<byte>, bo: ByteOrder, host: ByteOrder)
    requires TypeInfo(e.valType).Some? && e.valType != 2 && e.valType != 5 && e.valType != 10
    requires ProcessTag(e).region.Some? && ProcessTag(e).region.value.Stop() <= |buffer|
    ensures var k := TypeInfo(e.valType).value.size;
      var bytes := buffer[e.valueOrOffset..e.valueOrOffset + e.count * k];
      && ExtractSpec(ProcessTag(e), buffer, bo, host) == Ok(Some(Words(FromBytes(bytes, k, bo))))
      && |FromBytes(bytes, k, bo)| == e.count
  {
    var k := TypeInfo(e.valType).value.size;
    var t := ProcessTag(e);
    var bytes := buffer[e.valueOrOffset..e.valueOrOffset + e.count * k];
    WordsTag(e);
    MultipleMod(e.count, k);
    ArrayRegionWords(t, buffer, bo, host, k);
    FromBytesCount(bytes, k, bo, e.count);
  }

  /** The tag of an array-typed entry stored out of line. */
  lemma WordsTag(e: Entry)
    requires TypeInfo(e.valType).Some? && e.valType != 2 && e.valType != 5 && e.valType != 10
    requires ProcessTag(e).region.Some?
    ensures var k := TypeInfo(e.valType).value.size;
      var t := ProcessTag(e);
      && t.fmt.Some? && t.fmt.value != "s" && IsArrayTypecode(t.fmt.value)
      && ArrayItemSize(t.fmt.value) == Some(k) && k > 0
      && t.region.value.start == e.valueOrOffset
      && t.region.value.Stop() == e.valueOrOffset + e.count * k
  {
    TypecodeSizes(e.valType);
  }

  /** A whole number of items of size `k` leaves no remainder. */
  lemma MultipleMod(n: nat, k: nat)
    requires k in {1, 2, 4, 8}
    ensures (n * k) % k == 0
  {
    if k == 1 {
    } else if k == 2 {
    } else if k == 4 {
    } else {
      assert k == 8;
    }
  }

  /** A region of array items in the buffer decodes in the file's byte order. */
  lemma ArrayRegionWords(tag: Tag, buffer: seq<byte>, bo: ByteOrder, host: ByteOrder, k: nat)
    requires tag.region.Some? && tag.region.value.Stop() <= |buffer|
    requires tag.fmt.Some? && tag.fmt.value != "s" && IsArrayTypecode(tag.fmt.value)
    requires ArrayItemSize(tag.fmt.value) == Some(k) && k > 0
    requires |buffer[tag.region.value.start..tag.region.value.Stop()]| % k == 0
    ensures ExtractSpec(tag, buffer, bo, host)
      == Ok(Some(Words(FromBytes(buffer[tag.region.value.start..tag.region.value.Stop()], k, bo))))
  {
    if bo != host {
      SwapFromBytes(buffer[tag.region.value.start..tag.region.value.Stop()], k, host);
      assert Other(host) == bo;
    }
  }

  /** Resolving a directory entry fails only when an ASCII value in the
      buffer holds a byte above 0x7F. */
  lemma ResolveErrors(e: Entry, buffer: seq<byte>, bo: ByteOrder, host: ByteOrder)
    ensures Resolve(e, buffer, bo, host).Err? ==>
              && e.valType == 2 && e.valueOrOffset + e.count <= |buffer|
              && Resolve(e, buffer, bo, host).error == UnicodeDecodeError
  {
    var t := ProcessTag(e);
    if t.value.None? && HaveBytesForTag(t, buffer) {
      if e.valType == 2 {
        ExtractedAscii(e, buffer, bo, host);
      } else if e.valType == 5 || e.valType == 10 {
        ExtractedRational(e, buffer, bo, host);
      } else {
        ExtractedWords(e, buffer, bo, host);
      }
    }
  }

  /** An out-of-line value that lies past the end of the buffer leaves its
      tag unresolved: the region is kept and the value stays `None`. */
  lemma TruncatedValueStaysUnresolved(e: Entry, buffer: seq<byte>, bo: ByteOrder, host: ByteOrder)
    requires ProcessTag(e).region.Some? && ProcessTag(e).region.value.Stop() > |buffer|
    ensures Resolve(e, buffer, bo, host) == Ok(ProcessTag(e))
    ensures ProcessTag(e).value.None?
  {
  }

  /** The collection fails exactly when some entry fails to resolve. */
  lemma {:induction false} CollectFails(entries: seq<Entry>, acc: OrderedMap<string, Tag>,
                                        buffer: seq<byte>, bo: ByteOrder, host: ByteOrder)
    requires Valid(acc)
    ensures CollectFrom(entries, acc, buffer, bo, host).Err? <==>
              exists i :: 0 <= i < |entries| && Resolve(entries[i], buffer, bo, host).Err?
    decreases |entries|
  {
    if entries != [] {
      FailingEntryShift(entries, buffer, bo, host);
      match Resolve(entries[0], buffer, bo, host)
      case Err(_) =>
      case Ok(t) => CollectFails(entries[1..], Put(acc, t.name, t), buffer, bo, host);
    }
  }

  /** Some entry fails to resolve iff the first does or one of the rest does. */
  lemma FailingEntryShift(entries: seq<Entry>, buffer: seq<byte>, bo: ByteOrder, host: ByteOrder)
    requires entries != []
    ensures (exists i :: 0 <= i < |entries| && Resolve(entries[i], buffer, bo, host).Err?) <==>
              (Resolve(entries[0], buffer, bo, host).Err? ||
               exists i :: 0 <= i < |entries[1..]| && Resolve(entries[1..][i], buffer, bo, host).Err?)
  {
    if exists i :: 0 <= i < |entries| && Resolve(entries[i], buffer, bo, host).Err? {
      var i :| 0 <= i < |entries| && Resolve(entries[i], buffer, bo, host).Err?;
      if i > 0 {
        FailureInRest(entries, buffer, bo, host, i);
      }
    }
    if exists i :: 0 <= i < |entries[1..]| && Resolve(entries[1..][i], buffer, bo, host).Err? {
      var i :| 0 <= i < |entries[1..]| && Resolve(entries[1..][i], buffer, bo, host).Err?;
      FailureFromRest(entries, buffer, bo, host, i);
    }
  }

  /** A failing entry after the first is a failing entry of the rest. */
  lemma FailureInRest(entries: seq<Entry>, buffer: seq<byte>, bo: ByteOrder, host: ByteOrder, i: nat)
    requires 0 < i < |entries| && Resolve(entries[i], buffer, bo, host).Err?
    ensures exists j :: 0 <= j < |entries[1..]| && Resolve(entries[1..][j], buffer, bo, host).Err?
  {
    assert entries[1..][i - 1] == entries[i];
  }

  /** A failing entry of the rest is a failing entry. */
  lemma FailureFromRest(entries: seq<Entry>, buffer: seq<byte>, bo: ByteOrder, host: ByteOrder, i: nat)
    requires entries != [] && i < |entries[1..]| && Resolve(entries[1..][i], buffer, bo, host).Err?
    ensures exists j :: 0 <= j < |entries| && Resolve(entries[j], buffer, bo, host).Err?
  {
    assert entries[i + 1] == entries[1..][i];
  }

  /** A failed collection carries the error of an ASCII value. */
  lemma {:induction false} CollectErrors(entries: seq<Entry>, acc: OrderedMap<string, Tag>,
                                         buffer: seq<byte>, bo: ByteOrder, host: ByteOrder)
    requires Valid(acc)
    ensures CollectFrom(entries, acc, buffer, bo, host).Err? ==>
              CollectFrom(entries, acc, buffer, bo, host).error == UnicodeDecodeError
    decreases |entries|
  {
    if entries != [] {
      ResolveErrors(entries[0], buffer, bo, host);
      match Resolve(entries[0], buffer, bo, host)
      case Err(_) =>
      case Ok(t) => CollectErrors(entries[1..], Put(acc, t.name, t), buffer, bo, host);
    }
  }

  lemma ParseWithOrderErrors(buffer: seq<byte>, bo: ByteOrder, host: ByteOrder)
    ensures ParseWithOrder(buffer, bo, host).Err? ==>
              ParseWithOrder(buffer, bo, host).error in {StructError, NotTiff, UnicodeDecodeError}
    ensures |buffer| >= 8 && U16(buffer, 2, bo) == 42 ==> ParseWithOrder(buffer, bo, host) != Err(NotTiff)
  {
    if |buffer| >= 8 {
      CollectErrors(DirectoryEntries(buffer, bo), Empty(), buffer, bo, host);
    }
  }

  /** `hdr_from_bytes` fails only for a structural reason (a buffer too short
      for the file header, the directory or its entries), a wrong byte-order
      mark or magic number, or an ASCII value that is not ASCII.  A value
      whose bytes lie past the end of a truncated buffer never makes it fail. */
  lemma ParseErrors(buffer: seq<byte>, host: ByteOrder)
    ensures ParseHeader(buffer, host).Err? ==>
              ParseHeader(buffer, host).error in {StructError, NotTiff, UnicodeDecodeError}
  {
    if CheckByteOrder(buffer).Ok? {
      ParseWithOrderErrors(buffer, CheckByteOrder(buffer).value, host);
    }
  }

  // ---------------------------------------------------------------------
  // Tag names

  /** Uncatalogued ids get distinct `Tag_<id>` names. */
  lemma SyntheticNamesDistinct(a: nat, b: nat)
    requires a !in TagNames && b !in TagNames && a != b
    ensures TagName(a) != TagName(b)
  {
    if TagName(a) == TagName(b) {
      assert TagName(a)[4..] == NatToDecimal(a);
      assert TagName(b)[4..] == NatToDecimal(b);
      DecimalRoundTrip(a);
      DecimalRoundTrip(b);
    }
  }
}
