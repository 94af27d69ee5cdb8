/** Whole-partition transfers between a file and the device. */
module PartitionTransfers {
  import opened Bytes
  import opened Link
  import opened Effects
  import opened Batch
  import opened RkDevices
  import opened BlockDevices

  datatype TransferError = LbaOverflow | DeviceTransfer | InputTooLarge

  /** Write `input` to a partition of `partitionBytes` bytes whose first logical block is `firstLba`. The block
      number is used as a number of 512-byte sectors whatever the size of a logical block. */
  method ExecPartitionWrite(dev: RkBlockDevice, firstLba: u64, partitionBytes: u64, input: seq<byte>)
    returns (r: Result<(), TransferError>, ghost done: nat, ghost chunk: nat)
    requires Wf(dev.rkdev.device.world)
    modifies dev.rkdev.device
    ensures var w0, w := old(dev.rkdev.device.world), dev.rkdev.device.world;
            && Wf(w) && Later(w0, w)
            && (r == Err(InputTooLarge) <==> |input| > partitionBytes)
            && (r == Err(TransferError.LbaOverflow) <==> |input| <= partitionBytes && firstLba >= U32_LIMIT)
            && (r.Err? && r.error != DeviceTransfer ==> w == w0)
            && (r.Ok? && input != [] ==> Written(w0, w, firstLba * SECTOR, input, |input|))
            && (r == Err(DeviceTransfer) ==> Stopped(w0, w, firstLba * SECTOR, input, done, chunk))
            && Paced(w0, w, 30000)
            && (Clean(w0) && InTime(w0, w, w0.now + 30000) && |input| <= partitionBytes && firstLba < U32_LIMIT ==>
                  (r.Ok? <==> input == [] || firstLba + |input| / SECTOR < U32_LIMIT))
  {
    hide Wf, Written, Stopped, Budgeted, Paced;
    done, chunk := 0, 0;
    ghost var w0 := dev.rkdev.device.world;
    NothingPaced(w0, 30000);
    BooksIdle(w0, 0);
    if |input| > partitionBytes { return Err(InputTooLarge), 0, 0; }
    if firstLba >= U32_LIMIT { return Err(TransferError.LbaOverflow), 0, 0; }
    var written;
    written, done, chunk := dev.rkdev.WriteLba(firstLba, input, 0, DEFAULT_IO_TIMEOUT);
    LaterBudgets(w0, dev.rkdev.device.world);
    BudgetedPaced(w0, dev.rkdev.device.world, 30000);
    r := if written.Ok? then Ok(()) else Err(DeviceTransfer);
  }

  /** Read `outputLength` bytes, the size of the partition, into a file. */
  method ExecPartitionRead(dev: RkBlockDevice, firstLba: u64, outputLength: nat)
    returns (r: Result<seq<byte>, TransferError>)
    requires Wf(dev.rkdev.device.world)
    modifies dev.rkdev.device
    ensures var w0, w := old(dev.rkdev.device.world), dev.rkdev.device.world;
            && Wf(w) && Later(w0, w)
            && (r == Err(TransferError.LbaOverflow) <==> firstLba >= U32_LIMIT)
            && (r.Ok? ==> |r.value| == outputLength)
            && (r.Ok? && outputLength > 0 ==> Fetched(w0, w, firstLba * SECTOR, r.value))
            && (r == Err(DeviceTransfer) ==> Patched(w0, w, map[]))
            && Paced(w0, w, 30000)
            && (Clean(w0) && InTime(w0, w, w0.now + 30000) && firstLba < U32_LIMIT ==>
                  (r.Ok? <==> outputLength == 0 || firstLba + outputLength / SECTOR < U32_LIMIT))
  {
    hide Wf, Fetched, Patched, Budgeted, Paced;
    ghost var w0 := dev.rkdev.device.world;
    NothingPaced(w0, 30000);
    BooksIdle(w0, 0);
    var output := new byte[outputLength](_ => 0);
    if firstLba >= U32_LIMIT { return Err(TransferError.LbaOverflow); }
    var got := dev.rkdev.ReadLba(firstLba, output, 0, outputLength, 0, DEFAULT_IO_TIMEOUT);
    LaterBudgets(w0, dev.rkdev.device.world);
    BudgetedPaced(w0, dev.rkdev.device.world, 30000);
    if got.Err? { return Err(DeviceTransfer); }
    assert output[0..outputLength] == output[..];
    r := Ok(output[..]);
  }

  /** A non-empty file that fits its partition is written inside it if and only if a logical block is one
      sector, or the partition starts at the very beginning of the disk. */
  lemma TransferInside(firstLba: nat, blockSize: nat, partitionBytes: nat, input: seq<byte>)
    requires (blockSize == 512 || blockSize == 4096) && 0 < |input| <= partitionBytes
    ensures (forall i :: i in Splice(firstLba * SECTOR, input) ==>
               firstLba * blockSize <= i < firstLba * blockSize + partitionBytes)
       <==> blockSize == 512 || firstLba == 0
  {
    assert firstLba * SECTOR in Splice(firstLba * SECTOR, input);
  }
}
