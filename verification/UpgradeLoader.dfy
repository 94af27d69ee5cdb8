/** The upgrade-loader command once the device is open: parse the image, build the IDBlock, write it. */
module UpgradeLoaders {
  import opened Bytes
  import opened Usb
  import opened Link
  import opened LinkHost
  import opened Effects
  import opened Plans
  import opened Batch
  import opened DeviceHandles
  import opened RkDevices
  import opened IdBlocks
  import opened IdBlockBuilders
  import opened BootImages
  import Rc4

  /** "FlashBoot", "FlashData", "FlashHead". */
  const FLASH_BOOT: seq<u16> := [0x46, 0x6C, 0x61, 0x73, 0x68, 0x42, 0x6F, 0x6F, 0x74]
  const FLASH_DATA: seq<u16> := [0x46, 0x6C, 0x61, 0x73, 0x68, 0x44, 0x61, 0x74, 0x61]
  const FLASH_HEAD: seq<u16> := [0x46, 0x6C, 0x61, 0x73, 0x68, 0x48, 0x65, 0x61, 0x64]

  /** The code units of a text. */
  function Utf16(text: string): seq<int> {
    seq(|text|, i requires 0 <= i < |text| => text[i] as int)
  }

  lemma EntryNames()
    ensures FLASH_BOOT == Utf16("FlashBoot") && FLASH_DATA == Utf16("FlashData") && FLASH_HEAD == Utf16("FlashHead")
  {
  }

  datatype UpgradeLoaderError =
    | RkUsb(error: RkUsbError)
    | IdBlockBuild(reason: IdBlockError)
    | Image(fault: ImageError)
    | MissingEntry(name: seq<u16>)
    | FlashHeadNotSupported
    | Panicked

  /** What an image offers to the device. */
  datatype Loader = Loader(head: Option<seq<byte>>, data: seq<byte>, code: seq<byte>, rc4: bool)

  function FindLoaderEntry(image: BootImage, name: seq<u16>): Result<seq<byte>, UpgradeLoaderError> {
    match Find(image.loaderEntries, image.data, name)
    case Found(bytes) => Ok(bytes)
    case Missing => Err(MissingEntry(name))
    case Panic => Err(Panicked)
  }

  function FindParts(image: BootImage): Result<Loader, UpgradeLoaderError> {
    match FindLoaderEntry(image, FLASH_BOOT)
    case Err(e) => Err(e)
    case Ok(code) => match FindLoaderEntry(image, FLASH_DATA)
      case Err(e) => Err(e)
      case Ok(data) =>
        var head := FindLoaderEntry(image, FLASH_HEAD);
        if head == Err(Panicked) || |image.data| <= BootImages.HEADER_LENGTH then Err(Panicked)
        else Ok(Loader(if head.Ok? then Some(head.value) else None, data, code, image.header.rc4Flag != 0))
  }

  /** Everything that happens before the device is asked anything. */
  function Prepare(file: seq<byte>): Result<Loader, UpgradeLoaderError> {
    match NewBootImage(file)
    case Err(e) => Err(Image(e))
    case Ok(image) => FindParts(image)
  }

  /** Record `k` of the loader table of the file is the first of this name: its text, followed by zeros. */
  ghost predicate FirstNamed(file: seq<byte>, name: seq<u16>, k: nat)
    requires IsImage(file)
  {
    k < file[37] && Called(file, name, k) && forall j | 0 <= j < k :: !Called(file, name, j)
  }

  predicate Called(file: seq<byte>, name: seq<u16>, k: nat)
    requires IsImage(file) && k < file[37]
  {
    var e := RecordOf(file, 37, k);
    name <= e.name && forall i | |name| <= i < |e.name| :: e.name[i] == 0
  }

  /** The bytes the record points to. */
  function Content(file: seq<byte>, k: nat): seq<byte>
    requires IsImage(file) && k < file[37] && ContentInside(file, k)
  {
    file[RecordOf(file, 37, k).dataOffset..RecordOf(file, 37, k).dataOffset + RecordOf(file, 37, k).dataSize]
  }

  predicate ContentInside(file: seq<byte>, k: nat)
    requires IsImage(file) && k < file[37]
  {
    RecordOf(file, 37, k).dataOffset + RecordOf(file, 37, k).dataSize <= |file|
  }

  /** Looking for this name runs into a record that points outside the file. */
  ghost predicate Stops(file: seq<byte>, name: seq<u16>)
    requires IsImage(file)
  {
    exists k: nat | k < file[37] :: StopsAt(file, name, k)
  }

  ghost predicate StopsAt(file: seq<byte>, name: seq<u16>, k: nat)
    requires IsImage(file) && k < file[37]
  {
    !ContentInside(file, k) && forall j | 0 <= j < k :: !Called(file, name, j)
  }

  ghost predicate Has(file: seq<byte>, name: seq<u16>)
    requires IsImage(file)
  {
    exists k: nat :: FirstNamed(file, name, k)
  }

  /** What an image offers: the data of the first records of the names, and its encryption flag. */
  lemma PrepareMeans(file: seq<byte>, boot: nat, data: nat)
    requires IsImage(file) && Prepare(file).Ok?
    requires FirstNamed(file, FLASH_BOOT, boot) && FirstNamed(file, FLASH_DATA, data)
    ensures ContentInside(file, boot) && ContentInside(file, data)
    ensures var r := Prepare(file);
            && r.value.code == Content(file, boot)
            && r.value.data == Content(file, data)
            && r.value.rc4 == (file[44] != 0)
            && (r.value.head.Some? <==> Has(file, FLASH_HEAD))
            && forall head: nat | FirstNamed(file, FLASH_HEAD, head) ::
                 ContentInside(file, head) && r.value.head == Some(Content(file, head))
  {
    hide ParseEntries, NewBootImage, Find, IsImage, Stops, Content, ContentInside, FirstNamed;
    ImageOfBytes(file);
    var entries := NewBootImage(file).value.loaderEntries;
    Looked(file, entries, FLASH_BOOT);
    Looked(file, entries, FLASH_DATA);
    Looked(file, entries, FLASH_HEAD);
  }

  /** How it ends for every file: what is no image is not looked at; a record that points outside the file stops the
      program when a lookup passes it; a missing name is reported, FlashBoot first; and only files longer than the
      header get any further. */
  lemma PrepareEnds(file: seq<byte>)
    ensures !IsImage(file) <==> Prepare(file).Err? && Prepare(file).error.Image?
    ensures IsImage(file) ==>
      var r := Prepare(file);
      if Stops(file, FLASH_BOOT) then r == Err(Panicked)
      else if !Has(file, FLASH_BOOT) then r == Err(MissingEntry(FLASH_BOOT))
      else if Stops(file, FLASH_DATA) then r == Err(Panicked)
      else if !Has(file, FLASH_DATA) then r == Err(MissingEntry(FLASH_DATA))
      else if Stops(file, FLASH_HEAD) || |file| == 102 then r == Err(Panicked)
      else r.Ok?
  {
    hide ParseEntries, NewBootImage, Find, Stops, Has, TableFits;
    ImageOfBytes(file);
    if IsImage(file) {
      var entries := NewBootImage(file).value.loaderEntries;
      Looked(file, entries, FLASH_BOOT);
      Looked(file, entries, FLASH_DATA);
      Looked(file, entries, FLASH_HEAD);
    }
  }

  /** What a lookup in the loader table finds, in terms of the file. */
  lemma Looked(file: seq<byte>, entries: seq<Entry>, name: seq<u16>)
    requires IsImage(file) && IsTable(entries, file, 37)
    requires name == FLASH_BOOT || name == FLASH_DATA || name == FLASH_HEAD
    ensures match Find(entries, file, name)
            case Panic => Stops(file, name)
            case Missing => !Stops(file, name) && !Has(file, name)
            case Found(bytes) =>
              && !Stops(file, name) && Has(file, name)
              && forall k: nat | FirstNamed(file, name, k) :: ContentInside(file, k) && bytes == Content(file, k)
  {
    hide Named, RecordOf, Find, IsImage;
    NamesMatch(file, entries);
    FindMeans(entries, file, name);
    assert Stops(file, name) ==> exists k: nat :: Stray(entries, file, name, k) by {
      if Stops(file, name) {
        var k: nat :| k < file[37] && StopsAt(file, name, k);
        assert Stray(entries, file, name, k);
      }
    }
    match Find(entries, file, name)
    case Panic =>
      var k: nat :| Stray(entries, file, name, k);
      assert StopsAt(file, name, k);
    case Missing =>
    case Found(bytes) =>
      var i: nat :| First(entries, file, name, i, bytes);
      assert FirstNamed(file, name, i);
      forall k: nat | FirstNamed(file, name, k) ensures ContentInside(file, k) && bytes == Content(file, k) {
        assert k == i;
        PointsTo(file, entries, k);
      }
  }

  lemma PointsTo(file: seq<byte>, entries: seq<Entry>, k: nat)
    requires IsImage(file) && IsTable(entries, file, 37) && k < file[37] && ContentInside(file, k)
    ensures Content(file, k) == file[entries[k].dataOffset..entries[k].dataOffset + entries[k].dataSize]
  {
    hide IsImage;
  }

  lemma NamesMatch(file: seq<byte>, entries: seq<Entry>)
    requires IsImage(file) && IsTable(entries, file, 37)
    ensures forall k | 0 <= k < |entries| ::
      && (Named(entries[k], FLASH_BOOT) <==> Called(file, FLASH_BOOT, k))
      && (Named(entries[k], FLASH_DATA) <==> Called(file, FLASH_DATA, k))
      && (Named(entries[k], FLASH_HEAD) <==> Called(file, FLASH_HEAD, k))
      && (ContentInside(file, k) <==> entries[k].dataOffset + entries[k].dataSize <= |file|)
  {
    hide Named, IsImage, RecordOf;
    forall k | 0 <= k < |entries|
      ensures && (Named(entries[k], FLASH_BOOT) <==> Called(file, FLASH_BOOT, k))
              && (Named(entries[k], FLASH_DATA) <==> Called(file, FLASH_DATA, k))
              && (Named(entries[k], FLASH_HEAD) <==> Called(file, FLASH_HEAD, k))
              && (ContentInside(file, k) <==> entries[k].dataOffset + entries[k].dataSize <= |file|)
    {
      NamedMeans(entries[k], FLASH_BOOT);
      NamedMeans(entries[k], FLASH_DATA);
      NamedMeans(entries[k], FLASH_HEAD);
    }
  }

  predicate Fits(l: Loader) {
    if l.head.Some? then NewFits(l.head.value, l.data, l.code) else OldFits(l.data, l.code)
  }

  function BlockOf(l: Loader, rkCrc: seq<byte> -> u32): (image: seq<byte>)
    requires Fits(l)
    ensures |image| % SECTOR == 0
  {
    IdBlockOf(l.head, l.data, l.code, l.rc4, rkCrc)
  }

  /** A device takes a loader with a head if the lowest bit of its second capability byte is set. */
  predicate Takes(w: World, l: Loader) {
    l.head.Some? ==> READ_CAPABILITY in w.answers && |w.answers[READ_CAPABILITY]| == 8
                     && w.answers[READ_CAPABILITY][1] % 2 == 1
  }

  /** The sector after the last one still has a 32-bit number. */
  predicate Room(image: seq<byte>, lba: u32) {
    image == [] || lba + |image| / SECTOR < 0x1_0000_0000
  }

  /** What a device that works, and has the time, makes of a loader. */
  ghost predicate Expected(w: World, l: Loader, rkCrc: seq<byte> -> u32, lba: u32, r: Result<nat, UpgradeLoaderError>) {
    if !Takes(w, l) then r == Err(FlashHeadNotSupported)
    else if !Fits(l) then r.Err? && r.error.IdBlockBuild?
    else if !Room(BlockOf(l, rkCrc), lba) then r == Err(RkUsb(LbaOverflow))
    else r.Ok?
  }

  /** Nothing written so far. */
  ghost predicate Idle(w0: World, w: World) {
    && Wf(w) && Later(w0, w) && Patched(w0, w, map[])
    && (Clean(w0) && w.mishaps == w0.mishaps ==> Clean(w))
  }

  lemma StillIdle(w0: World, w1: World, w2: World)
    requires Idle(w0, w1) && Wf(w2) && Later(w1, w2)
    requires w2 == w1.(now := w2.now)
    ensures Idle(w0, w2)
  {
    hide Wf;
    MayHoldSame(w1, w2);
  }

  lemma NotYet(w: World)
    requires Wf(w)
    ensures Idle(w, w)
  {
    hide Wf;
  }

  /** Nothing was issued, or one command, which was given what was left until the deadline. */
  ghost predicate Questioned(w0: World, w: World, deadline: nat) {
    || (w.times == w0.times && w.budgets == w0.budgets)
    || exists t: nat | t < deadline :: w.times == w0.times + [t] && w.budgets == w0.budgets + [deadline - t]
  }

  lemma QuestionedOnce(w0: World, w1: World, w: World, deadline: nat)
    requires w1 == w0.(now := w1.now) && w1.now < deadline && Granted(w1, w, deadline - w1.now)
    ensures Questioned(w0, w, deadline)
  {
  }

  /** Ask whether the device takes a head, if there is one. */
  method CheckHead(dev: RkDevice, l: Loader, deadline: nat) returns (r: Result<(), UpgradeLoaderError>)
    requires Wf(dev.device.world)
    modifies dev.device
    ensures var w0, w := old(dev.device.world), dev.device.world;
            && Wf(w) && Later(w0, w) && Patched(w0, w, map[])
            && (r.Ok? ==> Idle(w0, w))
            && (r.Ok? && w.mishaps == w0.mishaps ==> Takes(w, l))
            && (r == Err(FlashHeadNotSupported) && w.mishaps == w0.mishaps ==> !Takes(w, l))
            && (r.Err? ==> r.error == FlashHeadNotSupported || r.error.RkUsb?)
            && Questioned(w0, w, deadline)
            && (Clean(w0) && InTime(w0, w, deadline) ==>
                  if Takes(w, l) then r.Ok? else r == Err(FlashHeadNotSupported))
  {
    hide Wf, Later, Patched, Clean, Granted;
    ghost var w0 := dev.device.world;
    NotYet(w0);
    IdleMeans(w0);
    if l.head.None? { return Ok(()); }
    var left := dev.RemainingTimeout(deadline);
    ghost var w1 := dev.device.world;
    StillIdle(w0, w0, w1);
    TickOnly(w0, w1);
    if left.Err? { return Err(RkUsb(left.error)); }
    var capability := dev.ReadCapability(left.value);
    QuestionedOnce(w0, w1, dev.device.world, deadline);
    AskedIdle(w0, w1, dev.device.world);
    if capability.Err? { return Err(RkUsb(capability.error)); }
    if capability.value[1] % 2 == 0 { return Err(FlashHeadNotSupported); }
    return Ok(());
  }

  lemma TickOnly(w0: World, w1: World)
    requires w1 == w0.(now := w1.now) && Later(w0, w1)
    ensures Clean(w0) <==> Clean(w1)
    ensures w0.faults == w1.faults && w0.now <= w1.now && w0.answers == w1.answers
  {
  }

  lemma AskedIdle(w0: World, w1: World, w2: World)
    requires Idle(w0, w1) && Wf(w2) && Later(w1, w2) && Patched(w1, w2, map[])
    ensures (w2.mishaps == w1.mishaps ==> Clean(w2)) ==> Idle(w0, w2)
    ensures w1.faults <= w2.faults && Aged(w1, w2)
    ensures Later(w0, w2) && Patched(w0, w2, map[])
  {
    hide Wf, MayHold, Clean;
    Compose(w0, w1, w2, map[], map[]);
    var nothing: Patch := map[];
    assert nothing + nothing == nothing;
  }

  lemma IdleMeans(w0: World)
    ensures forall w :: Idle(w0, w) ==> Wf(w) && Later(w0, w) && Patched(w0, w, map[])
  {
  }

  lemma IdleWritten(w0: World, w1: World, w2: World, base: int, data: seq<byte>, done: nat, chunk: nat)
    requires Idle(w0, w1) && Later(w1, w2)
    ensures Later(w0, w2)
    ensures Written(w1, w2, base, data, |data|) ==> Written(w0, w2, base, data, |data|)
    ensures Stopped(w1, w2, base, data, done, chunk) ==> Stopped(w0, w2, base, data, done, chunk)
  {
    hide Wf, MayHold, Clean, Patched, Broken;
    assert data[..|data|] == data;
    var m := Splice(base, data);
    assert map[] + m == m;
    Compose(w0, w1, w2, map[], m);
    if Stopped(w1, w2, base, data, done, chunk) {
      var written, torn := Splice(base, data[..done]), Splice(base + done, data[done..done + chunk]);
      assert map[] + written == written;
      if w2.mishaps == w0.mishaps { ComposeBroken(w0, w1, w2, map[], written, torn); }
    }
  }

  lemma NothingStopped(w0: World, w: World, base: int, data: seq<byte>)
    requires Aged(w0, w) && Patched(w0, w, map[])
    ensures Stopped(w0, w, base, data, 0, 0)
  {
    hide MayHold;
    assert data[..0] == [] && data[0..0] == [];
    FromPatched(w0, w);
  }

  lemma FromPatched(w0: World, w: World)
    requires Patched(w0, w, map[])
    ensures Broken(w0, w, map[], map[])
  {
  }

  /** The last step: `mid` is the link when the write begins. */
  method WriteImage(dev: RkDevice, image: seq<byte>, lba: u32, subcode: byte, deadline: nat, ghost w0: World)
    returns (r: Result<(), UpgradeLoaderError>, ghost mid: World, ghost done: nat, ghost chunk: nat)
    requires Idle(w0, dev.device.world)
    modifies dev.device
    ensures var w1, w := old(dev.device.world), dev.device.world;
            && Wf(w) && Later(w0, w) && Patched(w0, mid, map[])
            && w1.faults <= w.faults && Aged(w1, w) && w1.answers == w.answers
            && mid == w1.(now := mid.now)
            && (if mid.now < deadline then Budgeted(mid, w, deadline - mid.now) else w == mid)
            && (r.Ok? ==> w.issued == mid.issued + WritePlan(lba, |image|, subcode)
                          && Written(w0, w, lba * SECTOR, image, |image|))
            && (r.Err? ==> r.error.RkUsb? && Stopped(w0, w, lba * SECTOR, image, done, chunk))
            && (Clean(w1) && InTime(w1, w, deadline) ==>
                  if Room(image, lba) then r.Ok? else r == Err(RkUsb(LbaOverflow)))
  {
    hide Wf, Patched, Clean, Written, Stopped, WritePlan, Idle, Budgeted;
    ghost var w1 := dev.device.world;
    IdleMeans(w0);
    var left := dev.RemainingTimeout(deadline);
    mid, done, chunk := dev.device.world, 0, 0;
    StillIdle(w0, w1, mid);
    TickOnly(w1, mid);
    if left.Err? {
      NothingStopped(w0, mid, lba * SECTOR, image);
      return Err(RkUsb(left.error)), mid, 0, 0;
    }
    var written;
    written, done, chunk := dev.WriteLba(lba, image, subcode, left.value);
    ghost var w := dev.device.world;
    if image == [] { NothingWritten(mid, lba * SECTOR); }
    IdleWritten(w0, mid, w, lba * SECTOR, image, done, chunk);
    r := if written.Ok? then Ok(()) else Err(RkUsb(written.error));
  }

  /** The device takes the loader: build the block and write it. */
  method Flash(dev: RkDevice, l: Loader, lba: u32, subcode: byte, deadline: nat, rkCrc: seq<byte> -> u32, ghost w0: World)
    returns (r: Result<nat, UpgradeLoaderError>, ghost mid: World, ghost done: nat, ghost chunk: nat)
    requires Idle(w0, dev.device.world)
    modifies dev.device
    ensures var w1, w := old(dev.device.world), dev.device.world;
            && Wf(w) && Later(w0, w) && Patched(w0, mid, map[])
            && w1.faults <= w.faults && Aged(w1, w) && w1.answers == w.answers
            && mid == w1.(now := mid.now)
            && (if mid.now < deadline then Budgeted(mid, w, deadline - mid.now) else w == mid)
            && (!Fits(l) ==> r.Err? && r.error.IdBlockBuild? && w == w1)
            && (Fits(l) ==>
                  var block := BlockOf(l, rkCrc);
                  && (r.Ok? ==> r.value == |block| / SECTOR && w.issued == mid.issued + WritePlan(lba, |block|, subcode)
                                && Written(w0, w, lba * SECTOR, block, |block|))
                  && (r.Err? ==> r.error.RkUsb? && Stopped(w0, w, lba * SECTOR, block, done, chunk))
                  && (Clean(w1) && InTime(w1, w, deadline) ==>
                        if Room(block, lba) then r.Ok? else r == Err(RkUsb(LbaOverflow))))
  {
    hide Wf, Later, Patched, Clean, Written, Stopped, Fits, BlockOf, WritePlan, Idle, Budgeted, Room;
    mid, done, chunk := dev.device.world, 0, 0;
    IdleMeans(w0);
    if mid.now < deadline { BooksIdle(mid, deadline - mid.now); }
    var built := BuildIdBlock(l.head, l.data, l.code, l.rc4, rkCrc);
    FitsMeans(l);
    if built.Err? { return Err(IdBlockBuild(built.error)), mid, 0, 0; }
    BlockMeans(l, rkCrc);
    var image := built.value;
    var written;
    written, mid, done, chunk := WriteImage(dev, image, lba, subcode, deadline, w0);
    if written.Err? { return Err(written.error), mid, done, chunk; }
    r := Ok(|image| / SECTOR);
  }

  lemma NothingWritten(w: World, base: int)
    ensures Written(w, w, base, [], 0)
  {
    hide Wf, MayHold, Clean;
    var none: seq<byte> := [];
    assert none[..0] == none;
  }

  /** The command. `mid` is the link when the write begins; the question before it and the write share one deadline. */
  method Exec(dev: RkDevice, file: seq<byte>, lba: u32, subcode: byte, timeout: nat, rkCrc: seq<byte> -> u32)
    returns (r: Result<nat, UpgradeLoaderError>, ghost mid: World, ghost done: nat, ghost chunk: nat, ghost deadline: nat)
    requires Wf(dev.device.world)
    modifies dev.device
    ensures var w0, w, prepared := old(dev.device.world), dev.device.world, Prepare(file);
            && Wf(w) && Later(w0, w)
            && (prepared.Err? ==> r == Err(prepared.error) && w == w0)
            && (prepared.Ok? ==>
                  var l := prepared.value;
                  && (r.Ok? ==>
                        && Fits(l) && r.value == |BlockOf(l, rkCrc)| / SECTOR
                        && (w.mishaps == w0.mishaps ==> Takes(w, l))
                        && w.issued == mid.issued + WritePlan(lba, |BlockOf(l, rkCrc)|, subcode)
                        && Written(w0, w, lba * SECTOR, BlockOf(l, rkCrc), |BlockOf(l, rkCrc)|))
                  && (r.Err? && Fits(l) ==> Stopped(w0, w, lba * SECTOR, BlockOf(l, rkCrc), done, chunk))
                  && (r.Err? && !Fits(l) ==> Patched(w0, w, map[]))
                  && (Clean(w0) && InTime(w0, w, w0.now + timeout) ==>
                        Expected(w, l, rkCrc, lba, r)))
    ensures Patched(old(dev.device.world), mid, map[])
    ensures var w0, w := old(dev.device.world), dev.device.world;
            Prepare(file).Ok? ==>
              && w0.now + timeout <= deadline <= w.now + timeout
              && Questioned(w0, mid, deadline)
              && (if mid.now < deadline then Budgeted(mid, w, deadline - mid.now) else w == mid)
  {
    hide Wf, Later, Patched, Clean, Written, Stopped, Prepare, Fits, BlockOf, Takes, WritePlan, Idle, Budgeted, Questioned,
         Expected, Room;
    ghost var w0 := dev.device.world;
    mid, done, chunk, deadline := w0, 0, 0, 0;
    NotYet(w0);
    IdleMeans(w0);
    var prepared := Prepare(file);
    if prepared.Err? { return Err(prepared.error), mid, 0, 0, 0; }
    var l := prepared.value;
    var start := dev.device.Now();
    var until := start + timeout;
    deadline := until;
    ghost var w1 := dev.device.world;
    TickLater(w0, w1);
    StillIdle(w0, w0, w1);
    TickOnly(w0, w1);
    var checked := CheckHead(dev, l, until);
    mid := dev.device.world;
    QuestionedSince(w0, w1, mid, until);
    if mid.now < until { BooksIdle(mid, until - mid.now); }
    IdleJoins(w0, w1, mid);
    if Fits(l) { NothingStopped(w0, mid, lba * SECTOR, BlockOf(l, rkCrc)); }
    CheckedSame(w1, mid);
    TakesSame(w1, mid, l);
    ghost var w2 := mid;
    ExpectedMeans(l, rkCrc, lba);
    if checked.Err? { return Err(checked.error), mid, 0, 0, until; }
    r, mid, done, chunk := Flash(dev, l, lba, subcode, until, rkCrc, w0);
    QuestionedOn(w0, w2, mid, until);
    TakesSame(w2, dev.device.world, l);
  }

  lemma ExpectedMeans(l: Loader, rkCrc: seq<byte> -> u32, lba: u32)
    ensures forall w | !Takes(w, l) :: Expected(w, l, rkCrc, lba, Err(FlashHeadNotSupported))
    ensures forall w, e | Takes(w, l) && !Fits(l) :: Expected(w, l, rkCrc, lba, Err(IdBlockBuild(e)))
    ensures forall w, n | Takes(w, l) && Fits(l) && Room(BlockOf(l, rkCrc), lba) :: Expected(w, l, rkCrc, lba, Ok(n))
    ensures forall w | Takes(w, l) && Fits(l) && !Room(BlockOf(l, rkCrc), lba) ::
      Expected(w, l, rkCrc, lba, Err(RkUsb(LbaOverflow)))
  {
    hide Takes, Fits, BlockOf, Room;
  }

  lemma QuestionedSince(w0: World, w1: World, w: World, deadline: nat)
    requires w1 == w0.(now := w1.now) && Questioned(w1, w, deadline)
    ensures Questioned(w0, w, deadline)
  {
  }

  lemma QuestionedOn(w0: World, w: World, v: World, deadline: nat)
    requires v == w.(now := v.now) && Questioned(w0, w, deadline)
    ensures Questioned(w0, v, deadline)
  {
  }

  lemma TickLater(w0: World, w1: World)
    requires w1 == w0.(now := w1.now) && w0.now <= w1.now
    ensures Later(w0, w1)
  {
  }

  lemma IdleJoins(w0: World, w1: World, w2: World)
    requires Idle(w0, w1) && Wf(w2) && Later(w1, w2) && Patched(w1, w2, map[])
    ensures Later(w0, w2) && Patched(w0, w2, map[])
    ensures Idle(w1, w2) ==> Idle(w0, w2)
    ensures w1.faults <= w2.faults && Aged(w1, w2)
  {
    hide Wf, MayHold, Clean;
    Compose(w0, w1, w2, map[], map[]);
    var nothing: Patch := map[];
    assert nothing + nothing == nothing;
  }

  lemma TakesSame(w1: World, w2: World, l: Loader)
    requires w1.answers == w2.answers
    ensures Takes(w1, l) == Takes(w2, l)
  {
  }

  lemma CheckedSame(w1: World, w2: World)
    requires Later(w1, w2)
    ensures w1.answers == w2.answers
    ensures Idle(w1, w2) && Clean(w1) && w2.mishaps == w1.mishaps ==> Clean(w2)
  {
    hide Wf, Clean, Patched;
  }

  lemma FitsMeans(l: Loader)
    ensures Fits(l) <==> if l.head.Some? then NewFits(l.head.value, l.data, l.code) else OldFits(l.data, l.code)
  {
    hide NewFits, OldFits;
  }

  lemma BlockMeans(l: Loader, rkCrc: seq<byte> -> u32)
    requires Fits(l)
    ensures BlockOf(l, rkCrc) == IdBlockOf(l.head, l.data, l.code, l.rc4, rkCrc)
  {
    hide IdBlockOf;
  }

  // ----- End to end -----

  /** The block is whole sectors, so it is written without touching any sector twice or reading any: one pass of
      write commands over exactly its sectors. */
  lemma BlockPlan(l: Loader, rkCrc: seq<byte> -> u32, lba: u32, subcode: byte)
    requires Fits(l)
    ensures var plan, sectors := WritePlan(lba, |BlockOf(l, rkCrc)|, subcode), |BlockOf(l, rkCrc)| / SECTOR;
            && (forall s | s in plan :: s.kind == Writing)
            && Tiles(plan, lba, lba + sectors, MAX_LBA_TRANSFER_SECTORS)
            && forall sector: nat :: Touching(plan, sector) == if lba <= sector < lba + sectors then 1 else 0
  {
    hide BlockOf, Fits, Tiles, Touching;
    var sectors := |BlockOf(l, rkCrc)| / SECTOR;
    var plan := Batches(Writing, lba, sectors, MAX_LBA_TRANSFER_SECTORS, subcode);
    assert plan + [] == plan;
    BatchesTile(Writing, lba, sectors, MAX_LBA_TRANSFER_SECTORS, subcode);
    BatchesKind(Writing, lba, sectors, MAX_LBA_TRANSFER_SECTORS, subcode);
    forall sector: nat ensures Touching(plan, sector) == if lba <= sector < lba + sectors then 1 else 0 {
      TilesOnce(plan, lba, lba + sectors, MAX_LBA_TRANSFER_SECTORS, sector);
    }
  }

  /** After a successful run, what is read back from the target sectors decodes to the data and the code of the
      loader, each followed by zeros. */
  lemma LoaderReadBack(w0: World, w1: World, w2: World, lba: u32, l: Loader, rkCrc: seq<byte> -> u32, got: seq<byte>)
    requires Fits(l) && |got| == |BlockOf(l, rkCrc)|
    requires Written(w0, w1, lba * SECTOR, BlockOf(l, rkCrc), |got|)
    requires Fetched(w1, w2, lba * SECTOR, got) && Later(w1, w2) && w2.mishaps == w0.mishaps
    ensures l.head.None? ==>
      && ChecksMatch(got, l.rc4, rkCrc)
      && Decode(got, l.rc4).Some?
      && Decode(got, l.rc4).value.ddr == Padded(l.data)
      && Decode(got, l.rc4).value.loader == Padded(l.code)
    ensures l.head.Some? ==> Area(got, l.rc4) == Padded(l.head.value) + Padded(l.data) + Padded(l.code)
  {
    hide Written, Fetched, Later, Decode, ChecksMatch, Area, Padded, OldBlock, NewBlock, OldFits, NewFits;
    ReadBack(w0, w1, w2, lba * SECTOR, BlockOf(l, rkCrc), got);
    match l.head
    case None => OldRoundTrip(l.data, l.code, l.rc4, rkCrc);
    case Some(head) => NewRoundTrip(head, l.data, l.code, l.rc4);
  }
}
