# Rockchip USB storage: a verified model

`rkusb` talks to Rockchip boot loaders over USB. It sends tagged commands in the manner of the USB Mass Storage
Class Bulk-Only Transport (revision 1.0) that move whole 512-byte sectors, at most 128 at a time, and on top of that
it offers a byte-addressed disk with a cursor. `rktools` feeds that disk with partition images, Android sparse images
and boot blocks (IDBlocks). This project models that stack from the wire to the tools, and proves what a caller may
rely on.

## How it is built up

The lowest layer is a state machine, `Link.World`: a device that executes accepted commands in order of arrival, and
the first-in-first-out pipe of the packets it has sent. Every choice of the environment is an `Event` or an arbitrary
value picked by `DeviceHandles.DeviceHandle`: when a command runs, whether it is refused, half done or forgotten, how
much of an answer comes and whether its status ever does, which transfers get lost, how late the clock is, which
packets an error swallows. A count of `faults` says how often something went wrong; nothing is assumed about it. To be
slow is not a fault: the clock may jump whenever it is read, and a transfer that times out has taken its whole timeout.

Two of these faults are also counted as `mishaps`, because the code cannot notice them: a random tag is drawn that a
command still visible to the host carries (`Link.Seen`; with a clean link there is none, so that drawing a tag of long
ago again is harmless), and a zero status is accepted although it reports missing bytes (`src/lib.rs:331-365` never
looks at the residue). What a call promises depends on the mishaps during that call only, never on earlier ones.
`Deceptions.RepeatedTagDeceives` and `Deceptions.ShortAnswerDeceives` show what each of them can do, and
`Transactions.AnswerIsOwn` that without the first, the second is exactly what makes the difference.

Contracts therefore have three parts, used all the way up:

- safety: what an `Ok` without a mishap proves, over any earlier history of errors, mishaps and leftovers;
- damage: what an `Err` may have left behind (which bytes are new, which are old or new, which are untouched), now and
  after everything still under way has happened;
- liveness: from a clean link, with no new fault and before its own deadline, the call succeeds if and only if its
  addresses are in range. (`Link.InTime`; of a call that is made of many device operations, `Link.Healthy` asks this of
  the last one only, which began in a world the call returns.)

`Effects.Patched`, `Torn` and `Broken` speak about every byte the disk can hold *now or later* (`Link.MayHold`), so
that a command which times out and is executed afterwards is not forgotten. `Link.Clean` is the opposite: nothing in
the pipe, nothing under way. The layers are

| files | what they hold |
|---|---|
| `Bytes`, `Usb` | integers and their encodings, command and status wrappers |
| `Link`, `LinkSafety`, `LinkReply`, `LinkNominal`, `LinkHost`, `DeviceHandle` | the link, its invariant, what a status wrapper proves |
| `Effects`, `Transaction`, `Deception`, `Plan`, `Batch`, `RkDevice` | one command, and when its `Ok` misleads; batches of commands under one deadline |
| `Block`, `BlockDevice`, `WriteOnce`, `FlatDisk` | byte ranges over sectors; refinement of a plain byte array |
| `Images`, `Sparse`, `SparseMeaning`, `SparsePacking`, `PartitionTransfer` | streams, sparse images, their expansion and their layout, partitions |
| `Crc16`, `Vendor`, `Rc4`, `IdBlock`, `IdBlockBuilder` | checks, the stream cipher, boot blocks built in place and taken apart |
| `Rc4Record`, `Rc4Word`, `Rc4Block`, `Rc4Answer` | the cipher against known answers, through all 256 steps of its key schedule |
| `BootImage`, `UpgradeLoader` | loader images, and the pipeline that turns one into a boot block on the disk |

Where the code and its own words differ, the model follows the code:

- the partial last sector of `write_lba` is read, changed and written back (`src/lib.rs:637-652`), although the
  repository's README speaks of zero padding (`README.md:137`, `README.md:210`);
- the address of the *next* sector is computed after the last command too, so a whole-sector range that ends at sector
  2^32 is reported as an error after its data has been written (`src/lib.rs:632-635`);
- `seek` refuses the end of the disk, where `read` and `write` may leave the cursor
  (`src/bin/rktools/storage/mod.rs:240`); so a sparse image whose DONT_CARE chunk ends exactly at the end of the disk
  fails;
- `write_sparse_image` compares only the header's total with the partition
  (`src/bin/rktools/subcommands/upgrade.rs:228-237`), and its signed skips can lead backwards
  (`src/bin/rktools/subcommands/upgrade.rs:262`);
- partition transfers use the first logical block as a number of 512-byte sectors
  (`src/bin/rktools/subcommands/storage.rs:230-239`, `278-282`).

For each of these the model has the exact condition under which the expected behaviour holds. Concrete cases in which it
does not are `RkDevices.WriteLastSector` (the last of 2^32 sectors), `SparseMeanings.SkipImage` (a DONT_CARE chunk at
the end of the disk), `SparseMeanings.Overrun` and `SparseMeanings.Backwards` (images that write behind and in front of
their partition), and the two deceptions named above.

## Model

| member | source | states |
|---|---|---|
| `Usb.WithOpcode` | src/usb.rs:35-108 | the wrapper for an opcode: signature, direction and command length for each opcode the source lists, everything else zero |
| `Usb.CommandRoundTrip` | src/usb.rs:109-117 | the device reads from the 31 bytes exactly the tag, length, direction, logical unit, command length, opcode, subcode, 32-bit address and 16-bit count the host put in, across the mixed byte orders; it carries out only commands for unit 0 with the command length of their opcode |
| `Usb.WireImage` | src/usb.rs:11-31 | the wrapper byte by byte: "USBC", little-endian tag and length, direction, unit, command length, opcode, subcode, address and count in big-endian order |
| `Usb.CswRoundTrip` | src/usb.rs:119-126 | a status wrapper survives the wire |
| `Usb.StatusImage` | src/usb.rs:119-126 | the status wrapper byte by byte |
| `LinkSafety.StepKeeps` | src/lib.rs:299-367 | every step of the device keeps the link invariant and adds nothing to what the disk can come to hold; answers may break off after any number of bytes, with or without a status, as long as no packet of data looks like a status wrapper |
| `LinkSafety.RunKeeps` | src/lib.rs:299-367 | so does every run, whatever its events |
| `DeviceHandles.ArrivedKeeps` | src/lib.rs:312-329 | every outcome of an out-transfer (arrived, unacknowledged, lost, cut short with or without the device having started on its data) keeps the invariant and consumes nothing, whatever its bytes and its tag; every one but the first is a fault or has taken the whole timeout |
| `LinkSafety.AnswersInFull` | src/lib.rs:331-343 | a command in range can always be carried out and answered in full, whatever the packet size |
| `LinkSafety.Plug` | src/lib.rs:370-410 | a device just plugged in, with any disk and answers, satisfies the invariant, is clean, and does nothing by itself |
| `LinkReply.NewestStatusIsLast` | src/lib.rs:355-361 | if no command still visible carried its tag, a status under the newest command's tag is the last packet of the pipe and no earlier command is still under way |
| `LinkReply.SeenSince` | src/lib.rs:331-354 | whatever the host takes from the pipe from some moment on belongs to a command it could still see at that moment |
| `LinkReply.StageOfNewest` | src/lib.rs:331-343 | if the packets read before that status are as long together as the data stage of that command, they are that data stage, whatever else is in the pipe |
| `LinkReply.ThirteenBytes` | src/lib.rs:345-354 | thirteen bytes read from the pipe that begin with the signature are one status wrapper and not a piece of data |
| `LinkNominal.RunNominal` | src/lib.rs:299-367 | as long as no fault happens, a command sent over a clean link is answered in full and in order |
| `Transactions.StatusProves` | src/lib.rs:299-367 | an accepted zero status with a zero residue, under a tag no visible command carried, proves that the command was carried out, as the last of all, that the link is clean again, and that the bytes before it, if as many as asked for, are its whole answer |
| `Transactions.AnswerIsOwn` | src/lib.rs:331-365 | after a zero status, all bytes that were read come from this very command if and only if the residue, which the code ignores, is zero |
| `Deceptions.ShortAnswerDeceives` | src/lib.rs:331-365 | while any read is outstanding, the next read of as many sectors, under a tag of its own, can pass all checks of the code with the bytes of the earlier one: that answer loses its status, the next one has no data |
| `Deceptions.RepeatedTagDeceives` | src/usb.rs:38 | while a read is outstanding, the next read under its tag of as many sectors can pass all checks with the bytes of the earlier one, a zero status and a zero residue, before its own command is looked at |
| `DeviceHandles.DeviceHandle.RandomTag` | src/usb.rs:38 | any tag may be drawn: it counts as a mishap if and only if a command still visible carries it, so over a clean link never |
| `Transactions.SectorAnswer` | src/lib.rs:467-497 | for reads of whole sectors there is no stray length: what was read is what the sectors hold |
| `RkDevices.RkDevice.CbwTransaction` | src/lib.rs:299-367 | one command from wrapper to status under a deadline: on success the returned bytes are those taken from the pipe before a status that passes all checks, and a residue other than zero is the only mishap; without one, its effect and a clean link; on failure at most its own effect, and a rejected status is what the thirteen bytes taken say; success when nothing goes wrong before the deadline, start + timeout, until which each of its transfers may wait and no longer |
| `RkDevices.RkDevice.WriteLbaRaw` | src/lib.rs:435-465 | one write command; lengths that are no sector count or exceed 16 bits are refused before anything is sent |
| `RkDevices.RkDevice.ReadLbaRaw` | src/lib.rs:467-497 | one read command: on success without a mishap the buffer holds the disk's own bytes of exactly these sectors, never leftovers |
| `RkDevices.RkDevice.EraseLbaRaw` | src/lib.rs:499-520 | one erase command |
| `RkDevices.RkDevice.RemainingTimeout` | src/lib.rs:286-291 | the rest of a deadline, never zero, and a timeout if and only if the deadline has passed |
| `RkDevices.RkDevice.WriteLba` | src/lib.rs:615-655 | issues exactly the planned commands under one deadline; on success the bytes of the range and no others have changed; on failure a prefix is written, old or new is at most what the last issued write command covers, and nothing if no write was issued after that prefix, the rest untouched; from a clean link, without faults and before start + timeout, it overflows if and only if sector + length/512 reaches 2^32, and then everything up to there is already written |
| `RkDevices.WriteLastSector` | src/lib.rs:632-635 | the last sector of a disk of 2^32 sectors: its data is in place, no other byte has changed, and the call reports an overflow |
| `RkDevices.RkDevice.ReadLba` | src/lib.rs:672-706 | the same for reads, which fetch the disk's bytes for every length |
| `RkDevices.RkDevice.EraseLba` | src/lib.rs:721-745 | erases each sector of the range, by exactly the planned commands, under one deadline |
| `RkDevices.RkDevice.ReadStorageInfo` | src/lib.rs:556-568 | a reply of any length but 11 is an error, otherwise the device's own answer |
| `RkDevices.FlashInfoRoundTrip` | src/lib.rs:52-72 | parsing the 11 bytes gives back every field that was packed into them |
| `RkDevices.RkDevice.ReadCapability` | src/lib.rs:546-553 | on success the device's own answer |
| `Plans.BatchesTile` | src/lib.rs:632-635 | the commands of a batched transfer are non-empty and bounded, and follow each other without gap or overlap from the first sector to the last |
| `Plans.TilesOnce` | src/lib.rs:731-742 | each sector of the range is touched exactly once, any other never |
| `Plans.BatchesCount` | src/lib.rs:689-692 | and there are as few of them as their size allows |
| `Batch.BooksCommand` | src/lib.rs:627-634 | every command of a batch is issued before the shared deadline, start + timeout, by the clock as read for it, and is given exactly what is then left |
| `Batch.ReadBack` | src/lib.rs:615-706 | what `write_lba` wrote is what `read_lba` reads, for every length |
| `Batch.TailDone` | src/lib.rs:637-652 | the read-modify-write of the partial last sector changes its first bytes only |
| `Effects.Narrow` | src/bin/rktools/storage/mod.rs:164-186 | writing a sector back with its old bytes around a piece has the effect of writing the piece |
| `Effects.Compose` | src/lib.rs:632-652 | effects of consecutive commands add up, also when the second one fails |
| `Blocks.PieceAddresses` | src/bin/rktools/storage/mod.rs:97-145 | head, middle and tail meet at sector boundaries, and their sectors end where the access ends |
| `Blocks.Rewritten` | src/bin/rktools/storage/mod.rs:164-186 | the read-modify-write of an edge sector preserves the neighbours' bytes |
| `Blocks.RewriteStopped` | src/bin/rktools/storage/mod.rs:164-186 | and if it fails, the neighbours' bytes are still the old ones |
| `BlockDevices.RkBlockDevice.Write` | src/bin/rktools/storage/mod.rs:153-224 | replaces exactly the bytes from the cursor on and moves the cursor; on failure the cursor stays, a prefix is written, old or new is at most what the last issued write command covers (64 KiB), no other byte changes; every command is given at most the device's timeout; from a clean link, without faults and within one such timeout, it fails if and only if the access is not addressable, and then with an address error |
| `BlockDevices.RkBlockDevice.Read` | src/bin/rktools/storage/mod.rs:84-149 | fills the whole buffer with the disk's bytes for every alignment and length |
| `BlockDevices.RkBlockDevice.Seek` | src/bin/rktools/storage/mod.rs:232-243 | accepts a target if and only if it lies inside the disk, the end excluded |
| `BlockDevices.TryFrom` | src/bin/rktools/storage/mod.rs:42-54 | the disk size is the 32-bit flash size in sectors, timeout and subcode are the defaults |
| `BlockDevices.InsideDisk` | src/bin/rktools/storage/mod.rs:97-145 | every access that ends at or before the end of such a disk is free of address errors in all phases |
| `WritesOnce.BytesOnce` | src/bin/rktools/storage/mod.rs:164-220 | one write of bytes writes each sector it reaches into exactly once, and no other |
| `WritesOnce.SectorsOnce` | src/lib.rs:632-652 | the same for a write from a sector on, with or without a tail |
| `FlatDisks.WriteRefines` | src/bin/rktools/storage/mod.rs:153-224 | a successful write does to the disk what it does to a plain byte array with a cursor |
| `FlatDisks.ReadRefines` | src/bin/rktools/storage/mod.rs:84-149 | a successful read returns what the array returns |
| `FlatDisks.WriteDamages` | src/bin/rktools/storage/mod.rs:153-224 | a write that fails part way changes the array's bytes in a prefix of its data, and in a piece after it that is old or new, now and later, and nowhere else |
| `FlatDisks.FlatReadBack` | src/bin/rktools/storage/mod.rs:153-224 | in the array, writing and reading back returns the data and moves nothing else |
| `FlatDisks.Session` | src/bin/rktools/storage/mod.rs:84-243 | every sequence of reads, writes and seeks gives the results, the cursor and the contents of the array; if it stops at an operation, that one has done no more damage than a prefix and an old-or-new piece of its own data; and it completes when nothing goes wrong, no operation takes as long as its timeout and the operations fit |
| `Streams.Copy` | src/bin/rktools/subcommands/upgrade.rs:187 | copying a stream through any sequence of buffer sizes has the effect of one write |
| `Streams.RepeatRead` | src/bin/rktools/subcommands/upgrade.rs:312-319 | a buffer is filled with whole copies of the pattern |
| `SparseImages.CopyFill` | src/bin/rktools/subcommands/upgrade.rs:322-324 | through buffers of at least 4 bytes a fill chunk terminates, with length - length mod 4 bytes in phase |
| `SparseImages.WriteRegularImage` | src/bin/rktools/subcommands/upgrade.rs:175-189 | writes the image as far as the partition reaches; on failure a prefix is in place, at most one command's worth is old or new, and nothing else is touched |
| `SparseImages.RegularContained` | src/bin/rktools/subcommands/upgrade.rs:187 | that is the first min(image, partition) bytes, all inside the partition |
| `SparseImages.WriteSparseImage` | src/bin/rktools/subcommands/upgrade.rs:205-272 | ends as the interpretation of the image ends and leaves exactly its bytes on the disk on success; and it succeeds if the interpretation does, nothing goes wrong and no write takes as long as its timeout; on failure the first k chunks are in place and so is a prefix of the next one's stream, one command's worth is old or new, and nothing else is touched |
| `SparseImages.OneChunkMore` | src/bin/rktools/subcommands/upgrade.rs:245-269 | interpreting one chunk more is interpreting the chunks before it and then that chunk where they left file and cursor |
| `SparseMeanings.WholePatterns` | src/bin/rktools/subcommands/upgrade.rs:256-260 | blocks of a multiple of 4 bytes leave no fragment of a pattern |
| `SparseMeanings.InterpretMeans` | src/bin/rktools/subcommands/upgrade.rs:245-269 | the loop over the chunks stores exactly the pure expansion of the chunk list, and runs to the end if and only if no DONT_CARE chunk ends at the end of the disk |
| `SparseMeanings.ImageMeans` | src/bin/rktools/subcommands/upgrade.rs:205-272 | for every well-formed image: too large exactly when its expansion exceeds the partition, otherwise expanded at the partition's start; an error all the same exactly when it must seek to the end of the disk |
| `SparseMeanings.ImageOnDisk` | src/bin/rktools/subcommands/upgrade.rs:205-272 | byte by byte: the expansion where it says something, the old disk under DONT_CARE and everywhere else |
| `SparseMeanings.SkipImage` | src/bin/rktools/subcommands/upgrade.rs:261-263 | a 40-byte well-formed image that fails on a disk it fills |
| `SparseMeanings.FillImage` | src/bin/rktools/subcommands/upgrade.rs:286-307 | a concrete well-formed image, field by field |
| `SparsePackings.HeaderRoundTrip` | src/bin/rktools/subcommands/upgrade.rs:286-298 | parsing the 28-byte file header undoes packing it, for all values of all fields |
| `SparsePackings.ChunkRoundTrip` | src/bin/rktools/subcommands/upgrade.rs:300-307 | and so for the 12-byte chunk header, whatever its reserved bytes |
| `SparsePackings.PackedChunks` | src/bin/rktools/subcommands/upgrade.rs:245-269 | what is read from a packed list of chunks, with headers of any size and with anything before and after it in the file, is this list |
| `SparsePackings.PackedImage` | src/bin/rktools/subcommands/upgrade.rs:214-269 | every list of chunks of whole blocks, laid out behind a header that announces it, is a well-formed image of just these chunks |
| `SparseMeanings.StaysInside` | src/bin/rktools/subcommands/upgrade.rs:228-272 | for every file, header and cursor: what the interpreter stores lies within given bounds if and only if each stream it reaches does, which the chunk headers and the length of the file decide |
| `SparseMeanings.ChunksInside` | src/bin/rktools/subcommands/upgrade.rs:228-237 | for chunks that are all in the file and fit the disk, whatever total the header claims: it stays inside the partition if and only if the last RAW or FILL byte does |
| `SparseMeanings.Overrun` | src/bin/rktools/subcommands/upgrade.rs:228-237 | a 44-byte image that is accepted for a 512-byte partition and writes behind it |
| `SparseMeanings.Backwards` | src/bin/rktools/subcommands/upgrade.rs:262 | a 56-byte image that is accepted for any partition behind the first 8 GiB and writes in front of it |
| `PartitionTransfers.ExecPartitionWrite` | src/bin/rktools/subcommands/storage.rs:253-291 | refuses a file larger than the partition or a block number beyond 32 bits before touching the device; otherwise the effect of one write |
| `PartitionTransfers.ExecPartitionRead` | src/bin/rktools/subcommands/storage.rs:199-251 | the output has the partition's length and the disk's bytes |
| `PartitionTransfers.TransferInside` | src/bin/rktools/subcommands/storage.rs:278-282 | the bytes land inside the partition if and only if logical blocks are 512 bytes or the partition starts at block 0 |
| `Vendors.CutJoins` | src/lib.rs:422-431 | cutting a payload into transfers of at most 4096 bytes loses nothing |
| `Vendors.VendorRequest` | src/lib.rs:412-433 | delivers exactly those transfers, or a prefix of them and an error |
| `Vendors.StreamChecks` | src/lib.rs:413-421 | the transmitted stream as a whole has checksum 0, for every payload |
| `Crc16.SelfCheck` | src/lib.rs:413-421 | data followed by its check, high byte first, checks to 0 from any initial value |
| `Crc16.KnownAnswers` | src/checksum.rs:3-14 | the published check values of the two algorithms: 0x31C3 for "123456789" from 0, 0x29B1 from 0xFFFF |
| `Crc16.Linear` | src/checksum.rs:3-14 | the check of an exclusive-or is the exclusive-or of the checks |
| `Crc16.StepInjective` | src/checksum.rs:3-14 | one step is injective in the state and in the byte |
| `Crc16.DetectsOneByte` | src/checksum.rs:3-14 | changing any one byte changes the check |
| `Rc4.After` | src/idblock/old.rs:65-73 | the generator's state stays a permutation of 0..255 for as long as it runs |
| `Rc4.Start` | src/idblock/old.rs:68-69 | the key schedule yields such a permutation |
| `Rc4Records.Scheduled` | src/idblock/old.rs:68-69 | a record of 256 swaps, each of which goes where the key says and finds what the swaps before it left there, is the key schedule |
| `Rc4Answers.KnownAnswers` | src/idblock/old.rs:65-73 | through the whole key schedule: "Plai" under the key "Key" is BB F3 16 E8, and a sector of zeros under the key of the blocks begins with 6E 26 2C F3 |
| `Rc4Records.PreviousUndoes` | src/idblock/old.rs:68-70 | the generator can be run backwards |
| `Rc4.KeystreamAt` | src/idblock/old.rs:68-70 | byte k of a sector is xored with byte k of the keystream, whatever the other bytes are |
| `Rc4.CryptTwice` | src/idblock/old.rs:65-73 | encrypting an area twice restores it |
| `Rc4.CryptConcat` | src/idblock/new.rs:124-132 | areas of whole sectors can be encrypted one by one or together |
| `Rc4.CryptArea` | src/idblock/old.rs:65-73 | in place, sector by sector, and nothing outside the area |
| `IdBlocks.HeaderReadBack` | src/idblock/old.rs:94-114 | reading sectors 0 and 1 at their offsets recovers every field, with the constants of the format |
| `IdBlocks.CrcsReadBack` | src/idblock/old.rs:116-130 | the same for the sector of checks |
| `IdBlocks.CrcStored` | src/idblock/old.rs:116-130 | a check is stored low byte first |
| `IdBlocks.OldRoundTrip` | src/idblock/old.rs:13-92 | told whether the block is encrypted, a reader recovers every header field, the padded ddr and the padded loader, finds all four checks to match, and the length to be (4 + code sectors) * 512 |
| `IdBlocks.OneByteDetected` | src/idblock/old.rs:75-79 | changing any one stored byte of sector 0, 1 or 3, encrypted or not, makes its check fail |
| `IdBlocks.NewRoundTrip` | src/idblock/new.rs:100-135 | the three areas encrypted separately are the block encrypted as a whole, so it decrypts to the padded inputs |
| `IdBlockBuilders.BuildOld` | src/idblock/old.rs:13-92 | building in place yields that block; it succeeds if and only if both sector counts and their sum fit 16 bits, with the errors in their order |
| `IdBlockBuilders.BuildNew` | src/idblock/new.rs:100-135 | the same for the new form, whose only error is the size overflow |
| `IdBlockBuilders.BuildIdBlock` | src/idblock/mod.rs:22-32 | the new form with a head, the old one without |
| `BootImages.EntryRoundTrip` | src/image.rs:84-93 | parsing a packed entry record undoes packing it |
| `BootImages.TableMeans` | src/image.rs:126-147 | a table yields exactly its count of records at offset + 57*i, or the error of the first condition that fails |
| `BootImages.ImageOfBytes` | src/image.rs:30-57 | which files are images, and what they hold, byte by byte: the two tags, and the three tables described at bytes 25, 31 and 37, the last one the loader entries |
| `BootImages.NamedMeans` | src/image.rs:213-218 | an entry has a name if its name field is that name and zeros up to its end |
| `BootImages.FindMeans` | src/image.rs:207-231 | a lookup returns the first entry of the name; it stops the program if and only if it passes an entry outside the image first |
| `BootImages.FindFirst` | src/bin/rktools/subcommands/upgrade_loader.rs:109-117 | with all entries inside the image it is the first of the name |
| `UpgradeLoaders.PrepareMeans` | src/bin/rktools/subcommands/upgrade_loader.rs:80-85 | what it offers on success, in terms of the bytes of the file: the data that its first records called FlashBoot, FlashData and FlashHead in the table described at byte 37 point to, and its encryption flag at byte 44 |
| `UpgradeLoaders.PrepareEnds` | src/bin/rktools/subcommands/upgrade_loader.rs:80-85 | how the preparation ends, for every file: no image, a record outside the file that stops the program when a lookup passes it, FlashBoot or FlashData missing, a file no longer than its header, or success |
| `UpgradeLoaders.EntryNames` | src/bin/rktools/subcommands/upgrade_loader.rs:21-23 | the names that are looked up, as text |
| `UpgradeLoaders.Exec` | src/bin/rktools/subcommands/upgrade_loader.rs:82-107 | the whole command: an image fault leaves the device alone; on success the block built from the image is on the disk; the question before the write and the write are given exactly what is left until one deadline; from a clean link, without faults and before that deadline, it fails for a device that does not take a head, then for a block that cannot be built, then for sectors that are not addressable, each with its error, and otherwise succeeds |
| `UpgradeLoaders.BlockPlan` | src/bin/rktools/subcommands/upgrade_loader.rs:99-100 | the block is whole sectors: it is written by write commands only, each sector once |
| `UpgradeLoaders.LoaderReadBack` | src/bin/rktools/subcommands/upgrade_loader.rs:92-106 | reading the target sectors back and decoding returns FlashData and FlashBoot, zero padded, with matching checks |

## Left out

- libusb, endpoint discovery and `RkDevice::open`: replaced by the abstract handle; only one interface with one pipe each way is modelled.
- Finding devices, hotplug, `list`, `wait`, `reset`, logging, formatting, argument parsing and VID/PID tables: environment and user interface.
- Commands other than READ/WRITE/ERASE_LBA, READ_FLASH_INFO and READ_CAPABILITY: they use the same transaction.
- The `gpt` crate: a partition is given as its start and length in bytes, or as first block and block size; `select_partition` is a search by name.
- `rkafp` and memory mapping: a file is its bytes; the release time in the loader header is taken to be 7 bytes, which makes the header 102 bytes long; reading and resizing the output file is assumed to work.
- The 32-bit `RK_CRC` is an arbitrary function of bytes, because its parameters are not in the repository.
- Real time: the clock is a counter that never runs backwards, and a transfer that times out takes exactly its timeout; no bound on the total time is claimed, because each command computes its own deadline from what is left.
- Of a vendor control transfer, the request number and the bytes; its fixed request type and its timeout are not modelled.
- A device is assumed to carry out only commands for logical unit 0 with the command length of their opcode, to ignore a command wrapper that arrives cut short and to take a data stage that was cut short as ended, to keep to the order of arrival, to change only bytes of the command it executes, to answer in packets of one maximum size that is a multiple of 64, and never to end a data stage with a packet of 13 bytes that begins with the signature of a status wrapper, which only the tag could then tell from one.
- A device that waits for the data of a write is assumed to take a command wrapper that arrives instead as a new command, never as a short data stage.
- Mishaps: of a command during which one happens it is only said that it did at most what it was to do; what a batch or a block access leaves on the disk is stated for calls without one. `Deceptions.RepeatedTagDeceives` and `Deceptions.ShortAnswerDeceives` show why.
- A host whose integers are little-endian, as the byte-swapped command fields presuppose.
- Arithmetic of file positions near 2^64 in the sparse reader, and of `usize` in lengths no slice can have.
- RKNS headers: no hash is verified by the code; `RkNsImage` reads two fields.
- `RkFwImage`, `get_entry_data`, `get_crc32`: simple slices without arithmetic worth a proof.
- `download_boot`: a loop over entries around `vendor_request`.
- The methods of `RkDevice` and `RkBlockDevice` that have no counterpart of their own name (`WriteAligned`, `ReadRest`, `WriteEdge` and so on) are consecutive parts of one function of the source.
- Byte slices lent by the caller are values where they are only read, and arrays with a range where they are filled; aliasing between them cannot occur in the source.
- BlockDevices.RkBlockDevice.Write: the prefix `done` and the piece `chunk` that its contract speaks of on failure are ghost results; the original returns neither.
