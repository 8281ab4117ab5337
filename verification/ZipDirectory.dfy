/** Listing a ZIP archive, against a store-only writer. */
module ZipDirectory {
  // The central directory and its end record are those of sections 4.3.12 and 4.3.16 of the PKWARE
  // APPNOTE.

  import opened Bytes
  import opened Options

  datatype ZipEntry = ZipEntry(name: string, size: nat, isDir: bool)

  const EOCD: bytes := [0x50, 0x4b, 0x05, 0x06]
  const CENTRAL: bytes := [0x50, 0x4b, 0x01, 0x02]
  const WINDOW := 65_557
  const LIMIT_32 := 0x1_0000_0000

  // ---------------------------------------------------------------- reading

  function Slice(buffer: bytes, at: nat, size: nat): Option<bytes> {
    if at + size <= |buffer| then Some(buffer[at..at + size]) else None
  }

  /** A little-endian number. */
  function LeValue(digits: bytes): nat {
    if digits == [] then 0 else digits[0] as int + 256 * LeValue(digits[1..])
  }

  function ReadLe(buffer: bytes, at: nat, width: nat): Option<nat> {
    match Slice(buffer, at, width)
    case None => None
    case Some(digits) => Some(LeValue(digits))
  }

  predicate SignatureAt(buffer: bytes, at: nat) {
    at + 4 <= |buffer| && buffer[at..at + 4] == EOCD
  }

  /** The last place before `end` and not before `low` where the end signature stands. */
  function LastSignature(buffer: bytes, low: nat, end: nat): Option<nat> {
    if end <= low then None
    else if SignatureAt(buffer, end - 1) then Some(end - 1)
    else LastSignature(buffer, low, end - 1)
  }

  function EndsWithSlash(name: string): bool {
    name != [] && name[|name| - 1] == '/'
  }

  function Listing(text: bytes -> string, name: bytes, size: nat): ZipEntry {
    ZipEntry(text(name), size, EndsWithSlash(text(name)))
  }

  /** `count` central headers from `at` on; fewer if something else stands where one should. */
  function ReadHeaders(text: bytes -> string, buffer: bytes, at: nat, count: nat): Option<seq<ZipEntry>>
    decreases count
  {
    if count == 0 then Some([])
    else
      match Slice(buffer, at, 4)
      case None => None
      case Some(signature) =>
        if signature != CENTRAL then Some([])
        else
          match (ReadLe(buffer, at + 24, 4), ReadLe(buffer, at + 28, 2),
                 ReadLe(buffer, at + 30, 2), ReadLe(buffer, at + 32, 2))
          case (Some(size), Some(nameLen), Some(extraLen), Some(commentLen)) =>
            (match Slice(buffer, at + 46, nameLen)
             case None => None
             case Some(name) =>
               match ReadHeaders(text, buffer, at + 46 + nameLen + extraLen + commentLen, count - 1)
               case None => None
               case Some(rest) => Some([Listing(text, name, size)] + rest))
          case _ => None
  }

  function ReadDirectory(text: bytes -> string, buffer: bytes): Option<seq<ZipEntry>> {
    if |buffer| < 22 then None
    else
      match LastSignature(buffer, if |buffer| < WINDOW then 0 else |buffer| - WINDOW, |buffer| - 3)
      case None => None
      case Some(eocd) =>
        match (ReadLe(buffer, eocd + 10, 2), ReadLe(buffer, eocd + 16, 4), ReadLe(buffer, eocd + 12, 4))
        case (Some(count), Some(directoryAt), Some(size)) =>
          if size == 0 && count == 0xFFFF then None
          else ReadHeaders(text, buffer, directoryAt, count)
        case _ => None
  }

  /** The listing by a loop from the back, equal to `ReadDirectory`. */
  method ZipEntries(text: bytes -> string, buffer: bytes) returns (found: Option<seq<ZipEntry>>)
    ensures found == ReadDirectory(text, buffer)
  {
    hide ReadLe, ReadHeaders;
    if |buffer| < 22 {
      return None;
    }
    var low := if |buffer| < WINDOW then 0 else |buffer| - WINDOW;
    var end := |buffer| - 3;
    while end > low && !SignatureAt(buffer, end - 1)
      invariant 0 <= end
      invariant LastSignature(buffer, low, |buffer| - 3) == LastSignature(buffer, low, end)
    {
      end := end - 1;
    }
    if end <= low {
      return None;
    }
    var eocd := end - 1;
    var count, directoryAt := ReadLe(buffer, eocd + 10, 2), ReadLe(buffer, eocd + 16, 4);
    var size := ReadLe(buffer, eocd + 12, 4);
    if count == None || directoryAt == None || size == None || (size.value == 0 && count.value == 0xFFFF) {
      return None;
    }
    found := ListHeaders(text, buffer, directoryAt.value, count.value);
  }

  function Prepend(entries: seq<ZipEntry>, rest: Option<seq<ZipEntry>>): Option<seq<ZipEntry>> {
    match rest
    case None => None
    case Some(more) => Some(entries + more)
  }

  method ListHeaders(text: bytes -> string, buffer: bytes, directoryAt: nat, count: nat)
    returns (found: Option<seq<ZipEntry>>)
    ensures found == ReadHeaders(text, buffer, directoryAt, count)
  {
    hide Slice, ReadLe;
    var entries: seq<ZipEntry> := [];
    var at: nat, i: nat := directoryAt, 0;
    PrependNothing(ReadHeaders(text, buffer, at, count));
    while i < count
      invariant 0 <= i <= count
      invariant ReadHeaders(text, buffer, directoryAt, count)
             == Prepend(entries, ReadHeaders(text, buffer, at, count - i))
    {
      var signature := Slice(buffer, at, 4);
      if signature == None {
        return None;
      }
      if signature.value != CENTRAL {
        break;
      }
      var size, nameLen := ReadLe(buffer, at + 24, 4), ReadLe(buffer, at + 28, 2);
      var extraLen, commentLen := ReadLe(buffer, at + 30, 2), ReadLe(buffer, at + 32, 2);
      if size == None || nameLen == None || extraLen == None || commentLen == None {
        return None;
      }
      var name := Slice(buffer, at + 46, nameLen.value);
      if name == None {
        return None;
      }
      PrependTwice(entries, [Listing(text, name.value, size.value)],
                   ReadHeaders(text, buffer, at + 46 + nameLen.value + extraLen.value + commentLen.value,
                               count - i - 1));
      entries := entries + [Listing(text, name.value, size.value)];
      at := at + 46 + nameLen.value + extraLen.value + commentLen.value;
      i := i + 1;
    }
    assert entries + [] == entries;
    return Some(entries);
  }

  lemma PrependNothing(rest: Option<seq<ZipEntry>>)
    ensures Prepend([], rest) == rest
  {
    if rest.Some? {
      assert [] + rest.value == rest.value;
    }
  }

  lemma PrependTwice(a: seq<ZipEntry>, b: seq<ZipEntry>, rest: Option<seq<ZipEntry>>)
    ensures Prepend(a, Prepend(b, rest)) == Prepend(a + b, rest)
  {
    if rest.Some? {
      assert a + (b + rest.value) == a + b + rest.value;
    }
  }

  // ---------------------------------------------------------------- writing

  /** A file of the archive: its name's bytes and its contents. */
  datatype Item = Item(name: bytes, data: bytes)

  function Le2(value: nat): bytes {
    [value % 256, value / 256 % 256]
  }

  function Le4(value: nat): bytes {
    [value % 256, value / 0x100 % 256, value / 0x1_0000 % 256, value / 0x100_0000 % 256]
  }

  function LocalHeader(item: Item, crc: nat): bytes {
    [0x50, 0x4b, 0x03, 0x04, 20, 0, 0, 0, 0, 0, 0, 0, 0, 0]
    + Le4(crc) + Le4(|item.data|) + Le4(|item.data|) + Le2(|item.name|) + [0, 0]
  }

  function CentralHeader(item: Item, crc: nat, offset: nat): bytes {
    CENTRAL + [20, 0, 20, 0, 0, 0, 0, 0, 0, 0, 0, 0]
    + Le4(crc) + Le4(|item.data|)
    + Le4(|item.data|) + Le2(|item.name|)
    + [0, 0, 0, 0]
    + [0, 0, 0, 0, 0, 0, 0, 0] + Le4(offset)
  }

  /** The local headers with the stored contents, one after the other. */
  function Contents(items: seq<Item>, crc: bytes -> nat): bytes {
    if items == [] then []
    else
      var last := items[|items| - 1];
      Contents(items[..|items| - 1], crc) + LocalHeader(last, crc(last.data)) + last.name + last.data
  }

  /** The central directory; each header holds the offset of its local header. */
  function Directory(items: seq<Item>, crc: bytes -> nat): bytes {
    if items == [] then []
    else
      var front, last := items[..|items| - 1], items[|items| - 1];
      Directory(front, crc) + CentralHeader(last, crc(last.data), |Contents(front, crc)|) + last.name
  }

  function EndRecord(count: nat, size: nat, start: nat): bytes {
    EOCD + [0, 0, 0, 0] + Le2(count) + Le2(count) + Le4(size) + Le4(start) + [0, 0]
  }

  function Archive(items: seq<Item>, crc: bytes -> nat): bytes {
    var contents, directory := Contents(items, crc), Directory(items, crc);
    contents + directory + EndRecord(|items|, |directory|, |contents|)
  }

  // ---------------------------------------------------------------- reading undoes writing

  /** What the writer's items list as. */
  function Listed(text: bytes -> string, items: seq<Item>): seq<ZipEntry> {
    if items == [] then []
    else
      var last := items[|items| - 1];
      Listed(text, items[..|items| - 1]) + [Listing(text, last.name, |last.data|)]
  }

  /** The sizes the format's 16-bit and 32-bit fields can hold. */
  predicate FitsFormat(items: seq<Item>, crc: bytes -> nat) {
    && |items| <= 0xFFFF
    && (forall i :: 0 <= i < |items| ==> |items[i].name| <= 0xFFFF && |items[i].data| < LIMIT_32)
    && |Contents(items, crc)| < LIMIT_32
    && |Directory(items, crc)| < LIMIT_32
  }

  /** The end record's own signature is the last one in the file. */
  predicate EndSignatureIsLast(items: seq<Item>, crc: bytes -> nat) {
    var record := EndRecord(|items|, |Directory(items, crc)|, |Contents(items, crc)|);
    forall k :: 1 <= k <= 18 ==> !SignatureAt(record, k)
  }

  lemma Le2ReadsBack(value: nat)
    requires value < 0x1_0000
    ensures LeValue(Le2(value)) == value
  {
    var digits := Le2(value);
    assert digits[1..][1..] == [];
    assert LeValue(digits[1..]) == value / 256;
  }

  lemma LeValueOf(digit: byte, rest: bytes)
    ensures LeValue([digit] + rest) == digit + 256 * LeValue(rest)
  {
    assert ([digit] + rest)[1..] == rest;
  }

  lemma Le4ReadsBack(value: nat)
    requires value < LIMIT_32
    ensures LeValue(Le4(value)) == value
  {
    var second := value / 256;
    var third := second / 256;
    var fourth := third / 256;
    var d0: byte, d1: byte, d2: byte, d3: byte := value % 256, second % 256, third % 256, fourth;
    assert Le4(value) == [d0] + ([d1] + ([d2] + ([d3] + [])));
    LeValueOf(d3, []);
    LeValueOf(d2, [d3] + []);
    LeValueOf(d1, [d2] + ([d3] + []));
    LeValueOf(d0, [d1] + ([d2] + ([d3] + [])));
  }

  lemma ZerosReadBack()
    ensures LeValue([0, 0]) == 0
  {
    var zeros: bytes := [0, 0];
    assert zeros[1..][1..] == [];
  }

  lemma CentralHeaderFields(item: Item, crc: nat, offset: nat)
    ensures var header := CentralHeader(item, crc, offset);
      && |header| == 46
      && header[0..4] == CENTRAL
      && header[24..28] == Le4(|item.data|)
      && header[28..30] == Le2(|item.name|)
      && header[30..32] == [0, 0]
      && header[32..34] == [0, 0]
  {
    hide Le4, Le2;
    LeSizes(crc);
    LeSizes(|item.data|);
    LeSizes(|item.name|);
    LeSizes(offset);
  }

  lemma LeSizes(value: nat)
    ensures |Le2(value)| == 2 && |Le4(value)| == 4
  {
  }

  lemma EndRecordFields(count: nat, size: nat, start: nat)
    ensures var record := EndRecord(count, size, start);
      && |record| == 22
      && record[0..4] == EOCD
      && record[10..12] == Le2(count)
      && record[12..16] == Le4(size)
      && record[16..20] == Le4(start)
  {
    hide Le4, Le2;
    LeSizes(count);
    LeSizes(size);
    LeSizes(start);
  }

  /** A field inside one part of the file is read from that part. */
  lemma ReadsInside(before: bytes, part: bytes, after: bytes, at: nat, width: nat)
    requires at + width <= |part|
    ensures Slice(before + part + after, |before| + at, width) == Some(part[at..at + width])
  {
    assert (before + part + after)[|before| + at..|before| + at + width] == part[at..at + width];
  }

  /** What is listed of a file: its name as text, its size, and whether the name ends with a slash. */
  lemma ListingIs(text: bytes -> string, name: bytes, size: nat)
    ensures var entry := Listing(text, name, size);
      && entry.name == text(name) && entry.size == size
      && (entry.isDir <==> |text(name)| > 0 && text(name)[|text(name)| - 1] == '/')
  {
  }

  /** The list of a writer's items says so of each. */
  lemma {:induction false} ListedIs(text: bytes -> string, items: seq<Item>, i: nat)
    requires i < |items|
    ensures |Listed(text, items)| == |items|
    ensures Listed(text, items)[i].name == text(items[i].name) && Listed(text, items)[i].size == |items[i].data|
    ensures Listed(text, items)[i].isDir <==>
      |text(items[i].name)| > 0 && text(items[i].name)[|text(items[i].name)| - 1] == '/'
    decreases |items|
  {
    var front, last := items[..|items| - 1], items[|items| - 1];
    hide Listing;
    ListingIs(text, last.name, |last.data|);
    if i < |front| {
      ListedIs(text, front, i);
    } else if front != [] {
      ListedIs(text, front, 0);
    }
  }

  /** Where the reader gives up or stops: what is too short to hold a header's signature or its name is not
      listed at all, and anything else than a header ends the list. */
  lemma ListingEnds(text: bytes -> string, buffer: bytes, at: nat, count: nat)
    ensures at + 4 > |buffer| ==> ReadHeaders(text, buffer, at, count + 1) == None
    ensures at + 4 <= |buffer| && buffer[at..at + 4] != CENTRAL ==> ReadHeaders(text, buffer, at, count + 1) == Some([])
    ensures at + 4 <= |buffer| < at + 34 && buffer[at..at + 4] == CENTRAL ==>
      ReadHeaders(text, buffer, at, count + 1) == None
    ensures ReadHeaders(text, buffer, at, 0) == Some([])
  {
    hide Listing, LeValue;
  }

  /** A file shorter than an end record, or without one near its end, is not listed. */
  lemma NoEndRecordNoListing(text: bytes -> string, buffer: bytes)
    requires |buffer| < 22 || forall at :: 0 <= at < |buffer| - 3 && at + 65557 >= |buffer| ==>
                                !SignatureAt(buffer, at)
    ensures ReadDirectory(text, buffer) == None
  {
    if |buffer| >= 22 {
      var low := if |buffer| < WINDOW then 0 else |buffer| - WINDOW;
      LastSignatureFinds(buffer, low, |buffer| - 3);
    }
    hide ReadHeaders, ReadLe, SignatureAt;
  }

  /** A header lists its name and size, and the next one follows the name and the two fields behind it. */
  lemma HeaderLists(text: bytes -> string, buffer: bytes, at: nat, count: nat, name: bytes, size: nat,
                    extra: nat, comment: nat)
    requires Slice(buffer, at, 4) == Some(CENTRAL)
    requires ReadLe(buffer, at + 24, 4) == Some(size)
    requires ReadLe(buffer, at + 28, 2) == Some(|name|)
    requires ReadLe(buffer, at + 30, 2) == Some(extra) && ReadLe(buffer, at + 32, 2) == Some(comment)
    requires Slice(buffer, at + 46, |name|) == Some(name)
    ensures ReadHeaders(text, buffer, at, count + 1)
         == Prepend([Listing(text, name, size)],
                    ReadHeaders(text, buffer, at + 46 + |name| + extra + comment, count))
  {
    hide Slice, ReadLe, Listing;
  }

  /** One central header, wherever it stands, lists its item. */
  lemma HeaderReadsBack(text: bytes -> string, before: bytes, item: Item, crc: nat, offset: nat, after: bytes,
                        count: nat)
    requires |item.name| <= 0xFFFF && |item.data| < LIMIT_32
    ensures var buffer := before + (CentralHeader(item, crc, offset) + item.name) + after;
      ReadHeaders(text, buffer, |before|, count + 1)
        == Prepend([Listing(text, item.name, |item.data|)],
                   ReadHeaders(text, buffer, |before| + 46 + |item.name|, count))
  {
    hide Slice, CentralHeader, LeValue, Le2, Le4, Listing, ReadHeaders, Prepend;
    var header := CentralHeader(item, crc, offset);
    var part := header + item.name;
    CentralHeaderFields(item, crc, offset);
    assert part[0..4] == header[0..4] && part[24..28] == header[24..28] && part[28..30] == header[28..30];
    assert part[30..32] == header[30..32] && part[32..34] == header[32..34];
    assert part[46..46 + |item.name|] == item.name;
    ReadsInside(before, part, after, 0, 4);
    ReadsInside(before, part, after, 24, 4);
    ReadsInside(before, part, after, 28, 2);
    ReadsInside(before, part, after, 30, 2);
    ReadsInside(before, part, after, 32, 2);
    ReadsInside(before, part, after, 46, |item.name|);
    Le4ReadsBack(|item.data|);
    Le2ReadsBack(|item.name|);
    ZerosReadBack();
    HeaderLists(text, before + part + after, |before|, count, item.name, |item.data|, 0, 0);
  }

  /** A directory, wherever it stands, lists its items in order. */
  lemma {:induction false} DirectoryReadsBack(text: bytes -> string, before: bytes, items: seq<Item>, crc: bytes -> nat,
                                              after: bytes, count: nat)
    requires forall i :: 0 <= i < |items| ==> |items[i].name| <= 0xFFFF && |items[i].data| < LIMIT_32
    ensures var buffer := before + Directory(items, crc) + after;
      ReadHeaders(text, buffer, |before|, |items| + count)
        == Prepend(Listed(text, items), ReadHeaders(text, buffer, |before| + |Directory(items, crc)|, count))
    decreases |items|
  {
    hide ReadHeaders, Prepend, CentralHeader, Listing, Directory, Listed;
    DirectoryOfNone(text, crc);
    if items == [] {
      assert before + [] + after == before + after;
      PrependNothing(ReadHeaders(text, before + after, |before|, count));
    } else {
      var front, last := items[..|items| - 1], items[|items| - 1];
      var offset := |Contents(front, crc)|;
      var part := CentralHeader(last, crc(last.data), offset) + last.name;
      DirectoryGrows(text, items, crc);
      var earlier := before + Directory(front, crc);
      assert earlier + (part + after) == before + Directory(items, crc) + after == earlier + part + after;
      DirectoryReadsBack(text, before, front, crc, part + after, count + 1);
      HeaderReadsBack(text, earlier, last, crc(last.data), offset, after, count);
      PrependTwice(Listed(text, front), [Listing(text, last.name, |last.data|)],
                   ReadHeaders(text, before + Directory(items, crc) + after, |before| + |Directory(items, crc)|,
                               count));
    }
  }

  lemma DirectoryOfNone(text: bytes -> string, crc: bytes -> nat)
    ensures Directory([], crc) == [] && Listed(text, []) == []
  {
  }

  lemma DirectoryGrows(text: bytes -> string, items: seq<Item>, crc: bytes -> nat)
    requires items != []
    ensures var front, last := items[..|items| - 1], items[|items| - 1];
      var part := CentralHeader(last, crc(last.data), |Contents(front, crc)|) + last.name;
      && Directory(items, crc) == Directory(front, crc) + part
      && |part| == 46 + |last.name|
      && Listed(text, items) == Listed(text, front) + [Listing(text, last.name, |last.data|)]
  {
    hide CentralHeader, Listing;
    var front, last := items[..|items| - 1], items[|items| - 1];
    CentralHeaderFields(last, crc(last.data), |Contents(front, crc)|);
  }

  // ---------------------------------------------------------------- finding the end record

  lemma {:induction false} LastSignatureFinds(buffer: bytes, low: nat, end: nat)
    ensures LastSignature(buffer, low, end) == None ==> forall k :: low <= k < end ==> !SignatureAt(buffer, k)
    ensures LastSignature(buffer, low, end).Some? ==>
      var at := LastSignature(buffer, low, end).value;
      && low <= at < end && SignatureAt(buffer, at)
      && forall k :: at < k < end ==> !SignatureAt(buffer, k)
  {
    if end > low && !SignatureAt(buffer, end - 1) {
      LastSignatureFinds(buffer, low, end - 1);
    }
  }

  lemma SignatureInTail(before: bytes, record: bytes, k: nat)
    requires k + 4 <= |record|
    ensures SignatureAt(before + record, |before| + k) == SignatureAt(record, k)
  {
    assert (before + record)[|before| + k..|before| + k + 4] == record[k..k + 4];
  }

  lemma NoSignatureNearby(count: nat, size: nat, start: nat)
    ensures var record := EndRecord(count, size, start);
      SignatureAt(record, 0) && !SignatureAt(record, 1) && !SignatureAt(record, 2)
  {
    var record := EndRecord(count, size, start);
    EndRecordFields(count, size, start);
    assert record[0..4][1] == record[1] && record[0..4][2] == record[2];
    assert record[1..5][0] == record[1] && record[2..6][0] == record[2];
  }

  /** The signature the reader settles on: the end record's own, or one it holds further on. */
  lemma EndRecordIsFound(before: bytes, count: nat, size: nat, start: nat) returns (k: nat)
    ensures var record := EndRecord(count, size, start);
      var buffer := before + record;
      var low := if |buffer| < WINDOW then 0 else |buffer| - WINDOW;
      && |record| == 22 && |buffer| >= 22
      && LastSignature(buffer, low, |buffer| - 3) == Some(|before| + k)
      && k <= 18 && k != 1 && k != 2 && SignatureAt(record, k)
      && (k == 0 <==> forall j :: 1 <= j <= 18 ==> !SignatureAt(record, j))
  {
    hide EndRecord, LastSignature;
    var record := EndRecord(count, size, start);
    var buffer := before + record;
    EndRecordFields(count, size, start);
    NoSignatureNearby(count, size, start);
    var low := if |buffer| < WINDOW then 0 else |buffer| - WINDOW;
    LastSignatureFinds(buffer, low, |buffer| - 3);
    forall j | 0 <= j <= 18
      ensures SignatureAt(buffer, |before| + j) == SignatureAt(record, j)
    {
      SignatureInTail(before, record, j);
    }
    assert SignatureAt(buffer, |before| + 0);
    k := LastSignature(buffer, low, |buffer| - 3).value - |before|;
    assert SignatureAt(record, k);
    forall j | 1 <= j <= 18 && k == 0
      ensures !SignatureAt(record, j)
    {
      assert SignatureAt(buffer, |before| + j) == SignatureAt(record, j);
    }
  }

  /** The reader undoes the writer exactly when no later bytes pass for the end record's signature:
      then it lists every item in order, and otherwise it lists nothing at all. */
  lemma ArchiveReadsBack(text: bytes -> string, items: seq<Item>, crc: bytes -> nat)
    requires FitsFormat(items, crc)
    ensures ReadDirectory(text, Archive(items, crc))
         == if EndSignatureIsLast(items, crc) then Some(Listed(text, items)) else None
  {
    hide ReadDirectory, ReadLe, ReadHeaders, Directory, Contents, EndRecord, LastSignature, SignatureAt;
    var contents, directory := Contents(items, crc), Directory(items, crc);
    var archive := Archive(items, crc);
    var k := EndRecordIsFound(contents + directory, |items|, |directory|, |contents|);
    if k == 0 {
      EndRecordReadsBack(contents + directory, |items|, |directory|, |contents|);
      DirectoryReadsBack(text, contents, items, crc, EndRecord(|items|, |directory|, |contents|), 0);
      DirectoryIsNotEmpty(items, crc);
      NoMoreHeaders(text, archive, |contents| + |directory|);
      PrependAll(Listed(text, items));
      ListsFrom(text, archive, |contents + directory|, |items|, |directory|, |contents|);
    } else {
      GivesUpPast(text, archive, |contents + directory| + k);
    }
  }

  lemma ListsFrom(text: bytes -> string, buffer: bytes, eocd: nat, count: nat, size: nat, start: nat)
    requires |buffer| >= 22
    requires LastSignature(buffer, if |buffer| < WINDOW then 0 else |buffer| - WINDOW, |buffer| - 3) == Some(eocd)
    requires ReadLe(buffer, eocd + 10, 2) == Some(count) && ReadLe(buffer, eocd + 12, 4) == Some(size)
    requires ReadLe(buffer, eocd + 16, 4) == Some(start) && !(size == 0 && count == 0xFFFF)
    ensures ReadDirectory(text, buffer) == ReadHeaders(text, buffer, start, count)
  {
    hide ReadLe, ReadHeaders, LastSignature;
  }

  /** A record too near the end of the file has no field for where the directory starts. */
  lemma GivesUpPast(text: bytes -> string, buffer: bytes, eocd: nat)
    requires |buffer| >= 22 && eocd + 20 > |buffer|
    requires LastSignature(buffer, if |buffer| < WINDOW then 0 else |buffer| - WINDOW, |buffer| - 3) == Some(eocd)
    ensures ReadDirectory(text, buffer) == None
  {
    assert ReadLe(buffer, eocd + 16, 4) == None;
    hide ReadLe, ReadHeaders, LastSignature;
  }

  /** The last end record near the end of the file decides, whatever comment stands behind its fields. */
  lemma LastRecordDecides(text: bytes -> string, before: bytes, record: bytes, count: nat, size: nat, start: nat)
    requires 22 <= |record| <= 65557 && record[..4] == [0x50, 0x4b, 0x05, 0x06]
    requires forall k :: 1 <= k < |record| - 3 ==> !SignatureAt(record, k)
    requires count < 0x1_0000 && record[10..12] == Le2(count)
    requires size < LIMIT_32 && record[12..16] == Le4(size)
    requires start < LIMIT_32 && record[16..20] == Le4(start)
    ensures var buffer := before + record;
      ReadDirectory(text, buffer)
      == if size == 0 && count == 0xFFFF then None else ReadHeaders(text, buffer, start, count)
  {
    hide ReadLe, ReadHeaders, LastSignature, SignatureAt, LeValue, Le2, Le4;
    var buffer := before + record;
    var low := if |buffer| < WINDOW then 0 else |buffer| - WINDOW;
    SignatureStands(before, record);
    LastSignatureFinds(buffer, low, |buffer| - 3);
    assert SignatureAt(buffer, |before|);
    assert LastSignature(buffer, low, |buffer| - 3) == Some(|before|);
    FieldReads(before, record, count, size, start);
  }

  /** Of the places from the end record on, only its first one holds the signature. */
  lemma SignatureStands(before: bytes, record: bytes)
    requires |record| >= 4 && record[..4] == EOCD
    requires forall k :: 1 <= k < |record| - 3 ==> !SignatureAt(record, k)
    ensures forall k :: |before| <= k < |before| + |record| - 3 ==> (SignatureAt(before + record, k) <==> k == |before|)
  {
    forall k | |before| <= k < |before| + |record| - 3
      ensures SignatureAt(before + record, k) <==> k == |before|
    {
      SignatureInTail(before, record, k - |before|);
      assert record[0..4] == record[..4];
    }
  }

  lemma FieldReads(before: bytes, record: bytes, count: nat, size: nat, start: nat)
    requires |record| >= 22
    requires count < 0x1_0000 && record[10..12] == Le2(count)
    requires size < LIMIT_32 && record[12..16] == Le4(size)
    requires start < LIMIT_32 && record[16..20] == Le4(start)
    ensures var buffer := before + record;
      && ReadLe(buffer, |before| + 10, 2) == Some(count)
      && ReadLe(buffer, |before| + 12, 4) == Some(size)
      && ReadLe(buffer, |before| + 16, 4) == Some(start)
  {
    hide LeValue, Le2, Le4, Slice;
    assert before + record + [] == before + record;
    ReadsInside(before, record, [], 10, 2);
    ReadsInside(before, record, [], 12, 4);
    ReadsInside(before, record, [], 16, 4);
    Le2ReadsBack(count);
    Le4ReadsBack(size);
    Le4ReadsBack(start);
  }

  /** A signature with fewer than sixteen bytes behind it has no whole record, and hides every one before. */
  lemma CutRecordListsNothing(text: bytes -> string, before: bytes, tail: bytes)
    requires |tail| < 16 && |before| + |tail| >= 18
    ensures ReadDirectory(text, before + [0x50, 0x4b, 0x05, 0x06] + tail) == None
  {
    hide ReadLe, ReadHeaders, LastSignature, ReadDirectory;
    var buffer := before + EOCD + tail;
    var low := if |buffer| < WINDOW then 0 else |buffer| - WINDOW;
    assert buffer[|before|..|before| + 4] == EOCD;
    assert SignatureAt(buffer, |before|);
    LastSignatureFinds(buffer, low, |buffer| - 3);
    GivesUpPast(text, buffer, LastSignature(buffer, low, |buffer| - 3).value);
  }

  lemma EndRecordReadsBack(before: bytes, count: nat, size: nat, start: nat)
    requires count < 0x1_0000 && size < LIMIT_32 && start < LIMIT_32
    ensures var buffer := before + EndRecord(count, size, start);
      && ReadLe(buffer, |before| + 10, 2) == Some(count)
      && ReadLe(buffer, |before| + 12, 4) == Some(size)
      && ReadLe(buffer, |before| + 16, 4) == Some(start)
  {
    hide EndRecord, Le2, Le4, ReadLe;
    EndRecordFields(count, size, start);
    FieldReads(before, EndRecord(count, size, start), count, size, start);
  }

  lemma DirectoryIsNotEmpty(items: seq<Item>, crc: bytes -> nat)
    ensures items != [] ==> |Directory(items, crc)| > 0
  {
    if items != [] {
      var front, last := items[..|items| - 1], items[|items| - 1];
      CentralHeaderFields(last, crc(last.data), |Contents(front, crc)|);
    }
  }

  lemma NoMoreHeaders(text: bytes -> string, buffer: bytes, at: nat)
    ensures ReadHeaders(text, buffer, at, 0) == Some([])
  {
  }

  lemma PrependAll(entries: seq<ZipEntry>)
    ensures Prepend(entries, Some([])) == Some(entries)
  {
    assert entries + [] == entries;
  }

  // ---------------------------------------------------------------- an archive that lists nothing

  /** The end signature read as a little-endian number. */
  const SIGNATURE_VALUE := 0x0605_4b50

  lemma SignatureSpelt(value: nat)
    requires value == SIGNATURE_VALUE
    ensures Le4(value) == EOCD
  {
  }

  /** A directory that starts at that number spells the signature again inside the end record. */
  lemma UnluckyStartHides(text: bytes -> string, items: seq<Item>, crc: bytes -> nat)
    requires FitsFormat(items, crc) && |Contents(items, crc)| == SIGNATURE_VALUE
    ensures !EndSignatureIsLast(items, crc) && ReadDirectory(text, Archive(items, crc)) == None
  {
    hide ReadDirectory, Archive, EndRecord, Contents, Directory, FitsFormat, Le4, Le2;
    ArchiveReadsBack(text, items, crc);
    var record := EndRecord(|items|, |Directory(items, crc)|, |Contents(items, crc)|);
    EndRecordFields(|items|, |Directory(items, crc)|, |Contents(items, crc)|);
    SignatureSpelt(|Contents(items, crc)|);
    assert SignatureAt(record, 16);
  }

  lemma LocalHeaderSize(item: Item, crc: nat)
    ensures |LocalHeader(item, crc)| == 30
  {
    hide Le4, Le2;
    LeSizes(crc);
    LeSizes(|item.data|);
    LeSizes(|item.name|);
  }

  lemma ContentsOfOne(item: Item, crc: bytes -> nat)
    ensures |Contents([item], crc)| == 30 + |item.name| + |item.data|
    ensures |Directory([item], crc)| == 46 + |item.name|
  {
    hide CentralHeader, LocalHeader;
    var items := [item];
    assert items[..0] == [];
    LocalHeaderSize(item, crc(item.data));
    CentralHeaderFields(item, crc(item.data), |Contents([], crc)|);
  }

  /** One file of the right size is enough: it fits the format, and the reader finds nothing. */
  lemma OneFileListsNothing(text: bytes -> string, item: Item, crc: bytes -> nat)
    requires 30 + |item.name| + |item.data| == SIGNATURE_VALUE && |item.name| <= 0xFFFF
    ensures FitsFormat([item], crc) && !EndSignatureIsLast([item], crc)
    ensures ReadDirectory(text, Archive([item], crc)) == None
  {
    hide ReadDirectory, Archive, EndSignatureIsLast, Contents, Directory;
    ContentsOfOne(item, crc);
    UnluckyStartHides(text, [item], crc);
  }
}
