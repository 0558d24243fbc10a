/** Header assembly: `From<StorageL1Batch> for L1BatchHeader` and
    `From<StorageMiniblockHeader> for MiniblockHeader`.

    Both conversions are total in Rust's types but panic on malformed rows: a byte column
    of the wrong width, a JSON column that does not decode, a base fee beyond `u64`, or a
    null system-contract code hash. Numeric narrowings are unchecked `as` casts and wrap.

    The element decoders of the two list-typed columns (`PriorityOpOnchainData::from` and
    `L2ToL1Log::from_slice`) are not part of this model; they are parameters that may panic,
    and the decoded element types are the type parameters `Op` and `Log`.
 */
module Headers {
  import opened Wrappers
  import opened Primitives
  import opened StorageRows

  datatype L1BatchHeader<Op, Log> = L1BatchHeader(
    number: uint32,
    isFinished: bool,
    timestamp: uint64,
    feeAccountAddress: Address,
    priorityOpsOnchainData: seq<Op>,
    l1TxCount: uint16,
    l2TxCount: uint16,
    l2ToL1Logs: seq<Log>,
    l2ToL1Messages: seq<seq<byte>>,
    bloom: H2048,
    initialBootloaderContents: seq<HeapEntry>,
    usedContractHashes: seq<U256>,
    baseFeePerGas: uint64,
    baseSystemContractsHashes: BaseSystemContractsHashes,
    l1GasPrice: uint64,
    l2FairGasPrice: uint64
  )

  /** `raws.into_iter().map(decode).collect()` with a decoder that may panic: the elements are
      decoded in order and the first panic aborts the whole list. */
  function DecodeAll<T>(raws: seq<seq<byte>>, decode: seq<byte> -> Fatal<T>): (r: Fatal<seq<T>>)
    ensures r.Value? <==> forall i :: 0 <= i < |raws| ==> decode(raws[i]).Value?
    ensures r.Value? ==> |r.value| == |raws|
    ensures r.Value? ==> forall i :: 0 <= i < |raws| ==> r.value[i] == decode(raws[i]).value
    ensures r.Panic? ==> exists i :: 0 <= i < |raws| && decode(raws[i]).Panic? && decode(raws[i]).reason == r.reason
                                     && forall j :: 0 <= j < i ==> decode(raws[j]).Value?
  {
    if |raws| == 0 then Value([])
    else
      var head :- decode(raws[0]);
      var tail :- DecodeAll(raws[1..], decode);
      Value([head] + tail)
  }

  /** Everything the batch header conversion checks (and panics on) holds of `row`. */
  predicate BatchRowDecodable<Op, Log>(row: StorageL1Batch, decodeOp: seq<byte> -> Fatal<Op>, decodeLog: seq<byte> -> Fatal<Log>) {
    && (forall i :: 0 <= i < |row.priorityOpsOnchainData| ==> decodeOp(row.priorityOpsOnchainData[i]).Value?)
    && (forall i :: 0 <= i < |row.l2ToL1Logs| ==> decodeLog(row.l2ToL1Logs[i]).Value?)
    && |row.feeAccountAddress| == 20
    && |row.bloom| == 256
    && row.initialBootloaderHeapContent.Some?
    && row.usedContractHashes.Some?
    && 0 <= row.baseFeePerGas < TWO_64
    && HashPresent(row.bootloaderCodeHash)
    && HashPresent(row.defaultAaCodeHash)
  }

  /** `L1BatchHeader::from(row)` */
  function L1BatchHeaderFromStorage<Op, Log>(row: StorageL1Batch, decodeOp: seq<byte> -> Fatal<Op>, decodeLog: seq<byte> -> Fatal<Log>)
    : (r: Fatal<L1BatchHeader<Op, Log>>)
    ensures r.Value? <==> BatchRowDecodable(row, decodeOp, decodeLog)
    ensures r.Value? ==> r.value.isFinished == row.isFinished && r.value.l2ToL1Messages == row.l2ToL1Messages
    ensures r.Value? ==> |r.value.priorityOpsOnchainData| == |row.priorityOpsOnchainData|
    ensures r.Value? ==> forall i :: 0 <= i < |row.priorityOpsOnchainData| ==>
                           r.value.priorityOpsOnchainData[i] == decodeOp(row.priorityOpsOnchainData[i]).value
    ensures r.Value? ==> |r.value.l2ToL1Logs| == |row.l2ToL1Logs|
    ensures r.Value? ==> forall i :: 0 <= i < |row.l2ToL1Logs| ==>
                           r.value.l2ToL1Logs[i] == decodeLog(row.l2ToL1Logs[i]).value
    ensures r.Value? ==> r.value.number == I64AsU32(row.number) && r.value.timestamp == I64AsU64(row.timestamp)
    ensures r.Value? ==> r.value.l1TxCount == I32AsU16(row.l1TxCount) && r.value.l2TxCount == I32AsU16(row.l2TxCount)
    ensures r.Value? ==> r.value.feeAccountAddress == row.feeAccountAddress && r.value.bloom == row.bloom
    ensures r.Value? ==> r.value.baseFeePerGas == row.baseFeePerGas
    ensures r.Value? ==> r.value.initialBootloaderContents == row.initialBootloaderHeapContent.value
    ensures r.Value? ==> r.value.usedContractHashes == row.usedContractHashes.value
    ensures r.Value? ==> r.value.l1GasPrice == I64AsU64(row.l1GasPrice) && r.value.l2FairGasPrice == I64AsU64(row.l2FairGasPrice)
    ensures r.Value? ==> r.value.baseSystemContractsHashes.bootloader == row.bootloaderCodeHash.value
    ensures r.Value? ==> r.value.baseSystemContractsHashes.defaultAa == row.defaultAaCodeHash.value
  {
    var ops :- DecodeAll(row.priorityOpsOnchainData, decodeOp);
    var logs :- DecodeAll(row.l2ToL1Logs, decodeLog);
    var feeAccount :- AddressFromSlice(row.feeAccountAddress);
    var bloom :- H2048FromSlice(row.bloom);
    var heap :- Expect(row.initialBootloaderHeapContent, "invalid value for initial_bootloader_heap_content in the DB");
    var usedHashes :- Expect(row.usedContractHashes, "invalid value for used_contract_hashes in the DB");
    var baseFee :- Expect(BigDecimalToU64(row.baseFeePerGas), "base_fee_per_gas should fit in u64");
    var hashes :- SystemContractsHashes(row.bootloaderCodeHash, row.defaultAaCodeHash);
    Value(L1BatchHeader(
      I64AsU32(row.number), row.isFinished, I64AsU64(row.timestamp), feeAccount, ops,
      I32AsU16(row.l1TxCount), I32AsU16(row.l2TxCount), logs, row.l2ToL1Messages, bloom,
      heap, usedHashes, baseFee, hashes, I64AsU64(row.l1GasPrice), I64AsU64(row.l2FairGasPrice)))
  }

  /** The row `b` with the header columns holding `h`, the list elements written with
      encoders that the decoders invert; unsigned values are stored in signed columns. */
  function WithBatchHeader<Op, Log>(b: StorageL1Batch, h: L1BatchHeader<Op, Log>, encodeOp: Op -> seq<byte>, encodeLog: Log -> seq<byte>)
    : (r: StorageL1Batch)
    ensures |r.priorityOpsOnchainData| == |h.priorityOpsOnchainData| && |r.l2ToL1Logs| == |h.l2ToL1Logs|
  {
    b.(number := h.number,
       isFinished := h.isFinished,
       timestamp := U64AsI64(h.timestamp),
       feeAccountAddress := h.feeAccountAddress,
       priorityOpsOnchainData := seq(|h.priorityOpsOnchainData|, i requires 0 <= i < |h.priorityOpsOnchainData| => encodeOp(h.priorityOpsOnchainData[i])),
       l1TxCount := h.l1TxCount,
       l2TxCount := h.l2TxCount,
       l2ToL1Logs := seq(|h.l2ToL1Logs|, i requires 0 <= i < |h.l2ToL1Logs| => encodeLog(h.l2ToL1Logs[i])),
       l2ToL1Messages := h.l2ToL1Messages,
       bloom := h.bloom,
       initialBootloaderHeapContent := Some(h.initialBootloaderContents),
       usedContractHashes := Some(h.usedContractHashes),
       baseFeePerGas := h.baseFeePerGas,
       bootloaderCodeHash := Some(h.baseSystemContractsHashes.bootloader),
       defaultAaCodeHash := Some(h.baseSystemContractsHashes.defaultAa),
       l1GasPrice := U64AsI64(h.l1GasPrice),
       l2FairGasPrice := U64AsI64(h.l2FairGasPrice))
  }

  /** Writing a batch header to its row and converting the row back yields the header. */
  lemma L1BatchHeaderRoundTrip<Op, Log>(
    b: StorageL1Batch, h: L1BatchHeader<Op, Log>,
    decodeOp: seq<byte> -> Fatal<Op>, encodeOp: Op -> seq<byte>,
    decodeLog: seq<byte> -> Fatal<Log>, encodeLog: Log -> seq<byte>)
    requires forall x :: decodeOp(encodeOp(x)) == Value(x)
    requires forall x :: decodeLog(encodeLog(x)) == Value(x)
    ensures L1BatchHeaderFromStorage(WithBatchHeader(b, h, encodeOp, encodeLog), decodeOp, decodeLog) == Value(h)
  {
    var row := WithBatchHeader(b, h, encodeOp, encodeLog);
    EncodedListsDecode(b, h, decodeOp, encodeOp, decodeLog, encodeLog);
    WrittenNumbersReadBack(b, h, encodeOp, encodeLog);
    HeaderReadBack(row, h, decodeOp, decodeLog);
  }

  /** A row whose lists decode to the header's lists and whose other columns hold the header's
      values (the numbers through the conversion's casts) converts to that header. */
  lemma HeaderReadBack<Op, Log>(row: StorageL1Batch, h: L1BatchHeader<Op, Log>, decodeOp: seq<byte> -> Fatal<Op>, decodeLog: seq<byte> -> Fatal<Log>)
    requires DecodeAll(row.priorityOpsOnchainData, decodeOp) == Value(h.priorityOpsOnchainData)
    requires DecodeAll(row.l2ToL1Logs, decodeLog) == Value(h.l2ToL1Logs)
    requires I64AsU32(row.number) == h.number && row.isFinished == h.isFinished && I64AsU64(row.timestamp) == h.timestamp
    requires row.feeAccountAddress == h.feeAccountAddress && row.bloom == h.bloom
    requires I32AsU16(row.l1TxCount) == h.l1TxCount && I32AsU16(row.l2TxCount) == h.l2TxCount
    requires row.l2ToL1Messages == h.l2ToL1Messages
    requires row.initialBootloaderHeapContent == Some(h.initialBootloaderContents) && row.usedContractHashes == Some(h.usedContractHashes)
    requires row.baseFeePerGas == h.baseFeePerGas
    requires row.bootloaderCodeHash == Some(h.baseSystemContractsHashes.bootloader)
    requires row.defaultAaCodeHash == Some(h.baseSystemContractsHashes.defaultAa)
    requires I64AsU64(row.l1GasPrice) == h.l1GasPrice && I64AsU64(row.l2FairGasPrice) == h.l2FairGasPrice
    ensures L1BatchHeaderFromStorage(row, decodeOp, decodeLog) == Value(h)
  {
    assert AddressFromSlice(row.feeAccountAddress) == Value(h.feeAccountAddress);
    assert H2048FromSlice(row.bloom) == Value(h.bloom);
    assert SystemContractsHashes(row.bootloaderCodeHash, row.defaultAaCodeHash) == Value(h.baseSystemContractsHashes);
    assert BigDecimalToU64(row.baseFeePerGas) == Some(h.baseFeePerGas);
  }

  /** The numeric columns `WithBatchHeader` writes read back through the conversion's casts
      as the header's numbers. */
  lemma WrittenNumbersReadBack<Op, Log>(b: StorageL1Batch, h: L1BatchHeader<Op, Log>, encodeOp: Op -> seq<byte>, encodeLog: Log -> seq<byte>)
    ensures var row := WithBatchHeader(b, h, encodeOp, encodeLog);
      && I64AsU32(row.number) == h.number && I64AsU64(row.timestamp) == h.timestamp
      && I32AsU16(row.l1TxCount) == h.l1TxCount && I32AsU16(row.l2TxCount) == h.l2TxCount
      && I64AsU64(row.l1GasPrice) == h.l1GasPrice && I64AsU64(row.l2FairGasPrice) == h.l2FairGasPrice
  {
    U64I64RoundTrip(h.timestamp, 0);
    U64I64RoundTrip(h.l1GasPrice, 0);
    U64I64RoundTrip(h.l2FairGasPrice, 0);
  }

  /** The list columns `WithBatchHeader` writes decode to the header's lists. */
  lemma EncodedListsDecode<Op, Log>(
    b: StorageL1Batch, h: L1BatchHeader<Op, Log>,
    decodeOp: seq<byte> -> Fatal<Op>, encodeOp: Op -> seq<byte>,
    decodeLog: seq<byte> -> Fatal<Log>, encodeLog: Log -> seq<byte>)
    requires forall x :: decodeOp(encodeOp(x)) == Value(x)
    requires forall x :: decodeLog(encodeLog(x)) == Value(x)
    ensures var row := WithBatchHeader(b, h, encodeOp, encodeLog);
      && DecodeAll(row.priorityOpsOnchainData, decodeOp) == Value(h.priorityOpsOnchainData)
      && DecodeAll(row.l2ToL1Logs, decodeLog) == Value(h.l2ToL1Logs)
  {
    var row := WithBatchHeader(b, h, encodeOp, encodeLog);
    forall i | 0 <= i < |row.priorityOpsOnchainData|
      ensures decodeOp(row.priorityOpsOnchainData[i]) == Value(h.priorityOpsOnchainData[i])
    {
      assert row.priorityOpsOnchainData[i] == encodeOp(h.priorityOpsOnchainData[i]);
    }
    forall i | 0 <= i < |row.l2ToL1Logs|
      ensures decodeLog(row.l2ToL1Logs[i]) == Value(h.l2ToL1Logs[i])
    {
      assert row.l2ToL1Logs[i] == encodeLog(h.l2ToL1Logs[i]);
    }
    assert DecodeAll(row.priorityOpsOnchainData, decodeOp).value == h.priorityOpsOnchainData;
    assert DecodeAll(row.l2ToL1Logs, decodeLog).value == h.l2ToL1Logs;
  }

  /** The `miniblocks` row the header is read from (`StorageMiniblockHeader`). */
  datatype StorageMiniblockHeader = StorageMiniblockHeader(
    number: int64,
    timestamp: int64,
    hash: seq<byte>,
    l1TxCount: int32,
    l2TxCount: int32,
    baseFeePerGas: int,
    l1GasPrice: int64,
    l2FairGasPrice: int64,
    bootloaderCodeHash: Option<seq<byte>>,
    defaultAaCodeHash: Option<seq<byte>>
  )

  datatype MiniblockHeader = MiniblockHeader(
    number: uint32,
    timestamp: uint64,
    hash: H256,
    l1TxCount: uint16,
    l2TxCount: uint16,
    baseFeePerGas: uint64,
    l1GasPrice: uint64,
    l2FairGasPrice: uint64,
    baseSystemContractsHashes: BaseSystemContractsHashes
  )

  /** Everything the miniblock header conversion checks (and panics on) holds of `row`. */
  predicate MiniblockRowDecodable(row: StorageMiniblockHeader) {
    && |row.hash| == 32
    && 0 <= row.baseFeePerGas < TWO_64
    && HashPresent(row.bootloaderCodeHash)
    && HashPresent(row.defaultAaCodeHash)
  }

  /** `MiniblockHeader::from(row)` */
  function MiniblockHeaderFromStorage(row: StorageMiniblockHeader): (r: Fatal<MiniblockHeader>)
    ensures r.Value? <==> MiniblockRowDecodable(row)
    ensures r.Value? ==> r.value.hash == row.hash && r.value.baseFeePerGas == row.baseFeePerGas
    ensures r.Value? ==> r.value.number == I64AsU32(row.number) && r.value.timestamp == I64AsU64(row.timestamp)
    ensures r.Value? ==> r.value.l1TxCount == I32AsU16(row.l1TxCount) && r.value.l2TxCount == I32AsU16(row.l2TxCount)
    ensures r.Value? ==> r.value.l1GasPrice == I64AsU64(row.l1GasPrice) && r.value.l2FairGasPrice == I64AsU64(row.l2FairGasPrice)
    ensures r.Value? ==> r.value.baseSystemContractsHashes.bootloader == row.bootloaderCodeHash.value
    ensures r.Value? ==> r.value.baseSystemContractsHashes.defaultAa == row.defaultAaCodeHash.value
  {
    var hash :- H256FromSlice(row.hash);
    var baseFee :- Unwrap(BigDecimalToU64(row.baseFeePerGas));
    var hashes :- SystemContractsHashes(row.bootloaderCodeHash, row.defaultAaCodeHash);
    Value(MiniblockHeader(
      I64AsU32(row.number), I64AsU64(row.timestamp), hash, I32AsU16(row.l1TxCount), I32AsU16(row.l2TxCount),
      baseFee, I64AsU64(row.l1GasPrice), I64AsU64(row.l2FairGasPrice), hashes))
  }

  /** The row a miniblock header is stored as. */
  function MiniblockColumns(h: MiniblockHeader): (row: StorageMiniblockHeader)
    ensures MiniblockRowDecodable(row)
  {
    StorageMiniblockHeader(
      h.number, U64AsI64(h.timestamp), h.hash, h.l1TxCount, h.l2TxCount, h.baseFeePerGas,
      U64AsI64(h.l1GasPrice), U64AsI64(h.l2FairGasPrice),
      Some(h.baseSystemContractsHashes.bootloader), Some(h.baseSystemContractsHashes.defaultAa))
  }

  /** Storing a miniblock header and reading it back yields the header, and every decodable
      row whose signed columns are in their unsigned ranges is the stored form of its header. */
  lemma MiniblockHeaderRoundTrip(h: MiniblockHeader, row: StorageMiniblockHeader)
    ensures MiniblockHeaderFromStorage(MiniblockColumns(h)) == Value(h)
    ensures MiniblockRowDecodable(row) && 0 <= row.number < TWO_32 && 0 <= row.l1TxCount < TWO_16 && 0 <= row.l2TxCount < TWO_16 ==>
              MiniblockColumns(MiniblockHeaderFromStorage(row).value) == row
  {
    U64I64RoundTrip(h.timestamp, row.timestamp);
    U64I64RoundTrip(h.l1GasPrice, row.l1GasPrice);
    U64I64RoundTrip(h.l2FairGasPrice, row.l2FairGasPrice);
  }
}
