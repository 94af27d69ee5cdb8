/** Loader images: a packed header, and tables of packed entry records. */
module BootImages {
  import opened Bytes

  /** "BOOT" and "LDR ", as little-endian numbers. */
  const BOOT_TAG: u32 := 0x544F4F42
  const LDR_TAG: u32 := 0x2052444C

  const HEADER_LENGTH := 102
  const ENTRY_LENGTH := 57

  datatype ImageError = UnknownTag | TooShort | BootEntryOutOfRange | BootEntryTooShort

  /** Where a table lies: how many records, from where on, of which size. */
  datatype Table = Table(count: byte, offset: u32, size: byte)

  datatype BootHeader = BootHeader(tag: u32, entries471: Table, entries472: Table, loaderEntries: Table,
                                   signFlag: byte, rc4Flag: byte)

  /** A record. Its name is 20 UTF-16 code units. */
  datatype Entry = Entry(size: byte, kind: u32, name: seq<u16>, dataOffset: u32, dataSize: u32, dataDelay: u32)

  function ParseTable(b: seq<byte>): Table
    requires |b| == 6
  {
    Table(b[0], FromLe32(b[1..5]), b[5])
  }

  function ParseHeader(b: seq<byte>): BootHeader
    requires |b| >= HEADER_LENGTH
  {
    BootHeader(FromLe32(b[0..4]), ParseTable(b[25..31]), ParseTable(b[31..37]), ParseTable(b[37..43]), b[43], b[44])
  }

  function ParseEntry(b: seq<byte>): Entry
    requires |b| == ENTRY_LENGTH
  {
    Entry(b[0], FromLe32(b[1..5]), seq(20, i requires 0 <= i < 20 => FromLe16(b[5 + 2 * i..7 + 2 * i])),
          FromLe32(b[45..49]), FromLe32(b[49..53]), FromLe32(b[53..57]))
  }

  /** Consecutive pieces of one size; what is left over at the end is dropped. */
  function ChunksExact(b: seq<byte>, size: nat): (chunks: seq<seq<byte>>)
    requires size > 0
    ensures forall c | c in chunks :: |c| == size
    decreases |b|
  {
    if |b| < size then [] else [b[..size]] + ChunksExact(b[size..], size)
  }

  /** All records, or none if one of them has the wrong size. */
  function Collect(chunks: seq<seq<byte>>): Result<seq<Entry>, ImageError> {
    if chunks == [] then Ok([])
    else if |chunks[0]| != ENTRY_LENGTH then Err(TooShort)
    else match Collect(chunks[1..])
      case Err(e) => Err(e)
      case Ok(rest) => Ok([ParseEntry(chunks[0])] + rest)
  }

  function ParseEntries(data: seq<byte>, t: Table): Result<seq<Entry>, ImageError> {
    if t.size < ENTRY_LENGTH then Err(BootEntryTooShort)
    else
      var end := t.size * t.count + t.offset;
      if end > |data| then Err(BootEntryOutOfRange)
      else Collect(ChunksExact(data[t.offset..end], t.size))
  }

  datatype BootImage = BootImage(data: seq<byte>, header: BootHeader,
                                 entries471: seq<Entry>, entries472: seq<Entry>, loaderEntries: seq<Entry>)

  function NewBootImage(data: seq<byte>): Result<BootImage, ImageError> {
    if |data| < HEADER_LENGTH then Err(TooShort)
    else
      var h := ParseHeader(data);
      if h.tag != BOOT_TAG && h.tag != LDR_TAG then Err(UnknownTag)
      else match ParseEntries(data, h.entries471)
        case Err(e) => Err(e)
        case Ok(e471) => match ParseEntries(data, h.entries472)
          case Err(e) => Err(e)
          case Ok(e472) => match ParseEntries(data, h.loaderEntries)
            case Err(e) => Err(e)
            case Ok(loader) => Ok(BootImage(data, h, e471, e472, loader))
  }

  // ----- What a record means -----

  function Units(name: seq<u16>): (b: seq<byte>)
    ensures |b| == 2 * |name|
  {
    if name == [] then [] else Le16(name[0]) + Units(name[1..])
  }

  /** The packed record of an entry. */
  function EntryBytes(e: Entry): (b: seq<byte>)
    requires |e.name| == 20
    ensures |b| == ENTRY_LENGTH
  {
    [e.size] + Le32(e.kind) + Units(e.name) + Le32(e.dataOffset) + Le32(e.dataSize) + Le32(e.dataDelay)
  }

  lemma {:induction false} UnitAt(name: seq<u16>, k: nat)
    requires k < |name|
    ensures FromLe16(Units(name)[2 * k..2 * k + 2]) == name[k]
    decreases k
  {
    IntegersRoundTrip(name[0], 0);
    var b := Units(name);
    assert b[0..2] == Le16(name[0]);
    if k > 0 {
      UnitAt(name[1..], k - 1);
      assert b[2 * k..2 * k + 2] == Units(name[1..])[2 * (k - 1)..2 * (k - 1) + 2];
    }
  }

  lemma EntrySlices(e: Entry)
    requires |e.name| == 20
    ensures var b := EntryBytes(e);
            && b[0] == e.size && b[1..5] == Le32(e.kind) && b[5..45] == Units(e.name)
            && b[45..49] == Le32(e.dataOffset) && b[49..53] == Le32(e.dataSize) && b[53..57] == Le32(e.dataDelay)
  {
    hide Units, Le32;
    var b := EntryBytes(e);
    var head, units := [e.size] + Le32(e.kind), Units(e.name);
    var tail := Le32(e.dataOffset) + Le32(e.dataSize) + Le32(e.dataDelay);
    assert b == head + units + tail;
    assert b[..45] == head + units && b[45..] == tail;
    assert b[1..5] == head[1..5] == Le32(e.kind) && b[5..45] == b[..45][5..] == units;
    SubSlice(b, 45, 12, 0, 4);
    SubSlice(b, 45, 12, 4, 8);
    SubSlice(b, 45, 12, 8, 12);
    assert b[45..57] == tail;
    assert tail[0..4] == Le32(e.dataOffset) && tail[4..8] == Le32(e.dataSize) && tail[8..12] == Le32(e.dataDelay);
  }

  /** Parsing undoes packing, field by field. */
  lemma EntryRoundTrip(e: Entry)
    requires |e.name| == 20
    ensures ParseEntry(EntryBytes(e)) == e
  {
    hide Units, EntryBytes, Le32, FromLe32, FromLe16;
    var b := EntryBytes(e);
    EntrySlices(e);
    IntegersRoundTrip(0, e.kind);
    IntegersRoundTrip(0, e.dataOffset);
    IntegersRoundTrip(0, e.dataSize);
    IntegersRoundTrip(0, e.dataDelay);
    forall i | 0 <= i < 20 ensures FromLe16(b[5 + 2 * i..7 + 2 * i]) == e.name[i] {
      SubSlice(b, 5, 40, 2 * i, 2 * i + 2);
      UnitAt(e.name, i);
    }
    assert ParseEntry(b).name == e.name;
  }

  // ----- What a table means -----

  lemma {:induction false} RecordCount(b: seq<byte>, n: nat)
    requires |b| == ENTRY_LENGTH * n
    ensures |ChunksExact(b, ENTRY_LENGTH)| == n
    decreases n
  {
    if n > 0 {
      RecordCount(b[ENTRY_LENGTH..], n - 1);
    }
  }

  lemma {:induction false} RecordAt(b: seq<byte>, n: nat, k: nat)
    requires |b| == ENTRY_LENGTH * n && k < n
    ensures k < |ChunksExact(b, ENTRY_LENGTH)|
    ensures ChunksExact(b, ENTRY_LENGTH)[k] == b[ENTRY_LENGTH * k..ENTRY_LENGTH * (k + 1)]
    decreases k
  {
    RecordCount(b, n);
    if k > 0 {
      var rest := b[ENTRY_LENGTH..];
      RecordAt(rest, n - 1, k - 1);
      assert rest == b[ENTRY_LENGTH..ENTRY_LENGTH + |rest|];
      SubSlice(b, ENTRY_LENGTH, |rest|, ENTRY_LENGTH * (k - 1), ENTRY_LENGTH * k);
    }
  }

  lemma {:induction false} CollectAll(chunks: seq<seq<byte>>)
    requires forall c | c in chunks :: |c| == ENTRY_LENGTH
    ensures var r := Collect(chunks);
            r.Ok? && |r.value| == |chunks| && forall k | 0 <= k < |chunks| :: r.value[k] == ParseEntry(chunks[k])
  {
    hide ParseEntry;
    if chunks != [] {
      CollectAll(chunks[1..]);
    }
  }

  /** A table of records of the expected size. */
  lemma RecordsMean(data: seq<byte>, offset: nat, count: nat)
    requires offset + ENTRY_LENGTH * count <= |data|
    ensures var r := Collect(ChunksExact(data[offset..offset + ENTRY_LENGTH * count], ENTRY_LENGTH));
            && r.Ok? && |r.value| == count
            && forall k | 0 <= k < count ::
                 r.value[k] == ParseEntry(data[offset + ENTRY_LENGTH * k..offset + ENTRY_LENGTH * (k + 1)])
  {
    hide ParseEntry, Collect, ChunksExact;
    var b := data[offset..offset + ENTRY_LENGTH * count];
    RecordCount(b, count);
    CollectAll(ChunksExact(b, ENTRY_LENGTH));
    forall k | 0 <= k < count
      ensures ChunksExact(b, ENTRY_LENGTH)[k] == b[ENTRY_LENGTH * k..ENTRY_LENGTH * (k + 1)]
      ensures b[ENTRY_LENGTH * k..ENTRY_LENGTH * (k + 1)] == data[offset + ENTRY_LENGTH * k..offset + ENTRY_LENGTH * (k + 1)]
    {
      RecordAt(b, count, k);
      SubSlice(data, offset, ENTRY_LENGTH * count, ENTRY_LENGTH * k, ENTRY_LENGTH * (k + 1));
    }
  }

  /** Records of any other size. */
  lemma OddRecords(b: seq<byte>, size: nat, count: nat)
    requires size > ENTRY_LENGTH && |b| == size * count
    ensures Collect(ChunksExact(b, size)) == if count == 0 then Ok([]) else Err(TooShort)
  {
    if count > 0 {
      assert size * count == size + size * (count - 1);
      assert size * (count - 1) >= 0;
      assert ChunksExact(b, size)[0] == b[..size];
    } else {
      assert b == [];
    }
  }

  /** The errors in their order, and the records: exactly as many as the header says, one after the other.
      Records of another size than the expected one are an error unless there are none. */
  lemma TableMeans(data: seq<byte>, t: Table)
    ensures var r := ParseEntries(data, t);
            && r != Err(UnknownTag)
            && (r == Err(BootEntryTooShort) <==> t.size < ENTRY_LENGTH)
            && (r == Err(BootEntryOutOfRange) <==> t.size >= ENTRY_LENGTH && t.size * t.count + t.offset > |data|)
            && (r == Err(TooShort) <==>
                  t.size > ENTRY_LENGTH && t.count > 0 && t.size * t.count + t.offset <= |data|)
            && (r.Ok? ==>
                  && |r.value| == t.count
                  && (t.count > 0 ==> t.offset + ENTRY_LENGTH * t.count <= |data|)
                  && forall k | 0 <= k < |r.value| ::
                       r.value[k] == ParseEntry(data[t.offset + ENTRY_LENGTH * k..t.offset + ENTRY_LENGTH * (k + 1)]))
  {
    hide ParseEntry, Collect, ChunksExact;
    var end := t.size * t.count + t.offset;
    if t.size >= ENTRY_LENGTH && end <= |data| {
      if t.size > ENTRY_LENGTH {
        OddRecords(data[t.offset..end], t.size, t.count);
      } else {
        RecordsMean(data, t.offset, t.count);
      }
    }
  }

  // ----- What an image means -----

  /** The table described at byte `at` of the file: a count, a 32-bit offset and a record size, all records of the
      expected size and inside the file. */
  predicate TableFits(file: seq<byte>, at: nat)
    requires at + 6 <= |file|
  {
    var count, offset, size := file[at] as int, FromLe32(file[at + 1..at + 5]), file[at + 5] as int;
    ENTRY_LENGTH <= size && size * count + offset <= |file| && (count > 0 ==> size == ENTRY_LENGTH)
  }

  /** Record `k` of that table. */
  function RecordOf(file: seq<byte>, at: nat, k: nat): Entry
    requires at + 6 <= |file| && TableFits(file, at) && k < file[at]
  {
    var from := FromLe32(file[at + 1..at + 5]) + 57 * k;
    ParseEntry(file[from..from + 57])
  }

  ghost predicate IsTable(entries: seq<Entry>, file: seq<byte>, at: nat)
    requires at + 6 <= |file|
  {
    TableFits(file, at) && |entries| == file[at] && forall k | 0 <= k < |entries| :: entries[k] == RecordOf(file, at, k)
  }

  /** "BOOT" or "LDR ", and three tables, described at bytes 25, 31 and 37. */
  predicate IsImage(file: seq<byte>) {
    && |file| >= 102
    && (file[0..4] == [0x42, 0x4F, 0x4F, 0x54] || file[0..4] == [0x4C, 0x44, 0x52, 0x20])
    && TableFits(file, 25) && TableFits(file, 31) && TableFits(file, 37)
  }

  lemma TableOfBytes(file: seq<byte>, at: nat)
    requires at + 6 <= |file|
    ensures var r := ParseEntries(file, ParseTable(file[at..at + 6]));
            (r.Ok? <==> TableFits(file, at)) && (r.Ok? ==> IsTable(r.value, file, at))
  {
    hide ParseEntries, ParseEntry, FromLe32;
    var t := ParseTable(file[at..at + 6]);
    SubSlice(file, at, 6, 1, 5);
    TableMeans(file, t);
    assert t == Table(file[at], FromLe32(file[at + 1..at + 5]), file[at + 5]);
    var r := ParseEntries(file, t);
    assert r.Err? ==> r.error == BootEntryTooShort || r.error == BootEntryOutOfRange || r.error == TooShort;
    assert r.Err? ==> !TableFits(file, at);
    assert r.Ok? ==> ENTRY_LENGTH <= t.size;
    assert r.Ok? ==> t.size * t.count + t.offset <= |file|;
    assert r.Ok? ==> TableFits(file, at);
    if r.Ok? {
      forall k | 0 <= k < |r.value| ensures r.value[k] == RecordOf(file, at, k) {
        assert ENTRY_LENGTH * (k + 1) == 57 * k + 57;
      }
    }
  }

  lemma TagOfBytes(b: seq<byte>)
    requires |b| == 4
    ensures FromLe32(b) == BOOT_TAG <==> b == [0x42, 0x4F, 0x4F, 0x54]
    ensures FromLe32(b) == LDR_TAG <==> b == [0x4C, 0x44, 0x52, 0x20]
  {
    Digits(b[0], b[1], b[2], b[3]);
    assert b == [b[0], b[1], b[2], b[3]];
  }

  /** Which files are images, and what they hold, byte by byte: the table of loader entries is the one at 37. */
  lemma ImageOfBytes(file: seq<byte>)
    ensures NewBootImage(file).Ok? <==> IsImage(file)
    ensures NewBootImage(file).Ok? ==>
      var image := NewBootImage(file).value;
      && image.data == file
      && IsTable(image.entries471, file, 25) && IsTable(image.entries472, file, 31)
      && IsTable(image.loaderEntries, file, 37)
      && image.header.signFlag == file[43] && image.header.rc4Flag == file[44]
  {
    hide ParseEntries, ParseTable, FromLe32, TableFits, IsTable;
    if |file| >= HEADER_LENGTH {
      TagOfBytes(file[0..4]);
      TableOfBytes(file, 25);
      TableOfBytes(file, 31);
      TableOfBytes(file, 37);
    }
  }

  // ----- Looking an entry up -----

  /** The name without the zeros at its end. */
  function Trimmed(name: seq<u16>): (r: seq<u16>)
    ensures r <= name && (r == [] || r[|r| - 1] != 0)
    ensures forall i | |r| <= i < |name| :: name[i] == 0
  {
    if name == [] || name[|name| - 1] != 0 then name else Trimmed(name[..|name| - 1])
  }

  predicate Named(e: Entry, name: seq<u16>) {
    Trimmed(e.name) == name
  }

  /** A name that does not end in a zero is the entry's if it is followed by zeros only. */
  lemma NamedMeans(e: Entry, name: seq<u16>)
    requires name == [] || name[|name| - 1] != 0
    ensures Named(e, name) <==> name <= e.name && forall i | |name| <= i < |e.name| :: e.name[i] == 0
  {
    var r := Trimmed(e.name);
    assert name <= e.name && name != [] ==> e.name[|name| - 1] == name[|name| - 1];
    assert r != [] ==> e.name[|r| - 1] == r[|r| - 1];
  }

  predicate InBounds(e: Entry, data: seq<byte>) {
    e.dataOffset + e.dataSize <= |data|
  }

  function DataOf(e: Entry, data: seq<byte>): (r: seq<byte>)
    requires InBounds(e, data)
    ensures |r| == e.dataSize && forall i | 0 <= i < e.dataSize :: r[i] == data[e.dataOffset + i]
  {
    data[e.dataOffset..e.dataOffset + e.dataSize]
  }

  /** Slicing outside the image stops the program. */
  datatype Lookup = Found(bytes: seq<byte>) | Missing | Panic

  /** Entries are sliced as they are passed, whether or not they are the one. */
  function Find(entries: seq<Entry>, data: seq<byte>, name: seq<u16>): Lookup {
    if entries == [] then Missing
    else if !InBounds(entries[0], data) then Panic
    else if Named(entries[0], name) then Found(DataOf(entries[0], data))
    else Find(entries[1..], data, name)
  }

  /** Entry `k` is the first of this name, everything up to it lies inside the image, and these are its bytes. */
  ghost predicate First(entries: seq<Entry>, data: seq<byte>, name: seq<u16>, k: nat, bytes: seq<byte>) {
    && k < |entries| && Named(entries[k], name)
    && (forall j | 0 <= j < k :: !Named(entries[j], name))
    && (forall j | 0 <= j <= k :: entries[j].dataOffset + entries[j].dataSize <= |data|)
    && bytes == data[entries[k].dataOffset..entries[k].dataOffset + entries[k].dataSize]
  }

  /** Entry `k` lies outside the image, and none before it has the name. */
  ghost predicate Stray(entries: seq<Entry>, data: seq<byte>, name: seq<u16>, k: nat) {
    && k < |entries| && entries[k].dataOffset + entries[k].dataSize > |data|
    && forall j | 0 <= j < k :: !Named(entries[j], name)
  }

  lemma {:induction false} FoundWhere(entries: seq<Entry>, data: seq<byte>, name: seq<u16>, bytes: seq<byte>)
    returns (k: nat)
    requires Find(entries, data, name) == Found(bytes)
    ensures First(entries, data, name, k, bytes)
  {
    hide Named;
    if Named(entries[0], name) { return 0; }
    var rest := entries[1..];
    k := FoundWhere(rest, data, name, bytes);
    k := k + 1;
    assert forall j | 0 < j < |entries| :: entries[j] == rest[j - 1];
  }

  lemma {:induction false} PanicWhere(entries: seq<Entry>, data: seq<byte>, name: seq<u16>) returns (k: nat)
    requires Find(entries, data, name) == Panic
    ensures Stray(entries, data, name, k)
  {
    hide Named;
    if !InBounds(entries[0], data) { return 0; }
    var rest := entries[1..];
    k := PanicWhere(rest, data, name);
    k := k + 1;
    assert forall j | 0 < j < |entries| :: entries[j] == rest[j - 1];
  }

  lemma {:induction false} StrayStops(entries: seq<Entry>, data: seq<byte>, name: seq<u16>, k: nat)
    requires Stray(entries, data, name, k)
    ensures Find(entries, data, name) == Panic
    decreases k
  {
    hide Named;
    if k > 0 && InBounds(entries[0], data) {
      var rest := entries[1..];
      assert forall j | 0 < j < |entries| :: entries[j] == rest[j - 1];
      StrayStops(rest, data, name, k - 1);
    }
  }

  lemma {:induction false} MissingAll(entries: seq<Entry>, data: seq<byte>, name: seq<u16>)
    requires Find(entries, data, name) == Missing
    ensures forall j | 0 <= j < |entries| :: InBounds(entries[j], data) && !Named(entries[j], name)
  {
    hide Named;
    if entries != [] {
      var rest := entries[1..];
      MissingAll(rest, data, name);
      assert forall j | 0 < j < |entries| :: entries[j] == rest[j - 1];
    }
  }

  /** A lookup finds the first entry of the name; it stops the program if it meets an entry outside the image
      on the way. */
  lemma FindMeans(entries: seq<Entry>, data: seq<byte>, name: seq<u16>)
    ensures match Find(entries, data, name)
            case Found(bytes) => exists k: nat :: First(entries, data, name, k, bytes)
            case Missing => forall j | 0 <= j < |entries| ::
              entries[j].dataOffset + entries[j].dataSize <= |data| && !Named(entries[j], name)
            case Panic => exists k: nat :: Stray(entries, data, name, k)
    ensures Find(entries, data, name) == Panic <==> exists k: nat :: Stray(entries, data, name, k)
  {
    hide Find, First, Stray, Named;
    forall k: nat | Stray(entries, data, name, k) ensures Find(entries, data, name) == Panic {
      StrayStops(entries, data, name, k);
    }
    match Find(entries, data, name)
    case Found(bytes) =>
      var k := FoundWhere(entries, data, name, bytes);
    case Missing =>
      MissingAll(entries, data, name);
    case Panic =>
      var k := PanicWhere(entries, data, name);
  }

  /** A well-formed image: nothing in the table of loader entries points outside. */
  lemma FindFirst(entries: seq<Entry>, data: seq<byte>, name: seq<u16>, k: nat)
    requires forall j | 0 <= j < |entries| :: entries[j].dataOffset + entries[j].dataSize <= |data|
    requires k < |entries| && Named(entries[k], name) && forall j | 0 <= j < k :: !Named(entries[j], name)
    ensures Find(entries, data, name)
         == Found(data[entries[k].dataOffset..entries[k].dataOffset + entries[k].dataSize])
  {
    hide Named;
    FindMeans(entries, data, name);
    match Find(entries, data, name)
    case Found(bytes) =>
      var i: nat :| First(entries, data, name, i, bytes);
      assert i == k;
    case Missing =>
      assert false;
    case Panic =>
      assert false;
  }
}
