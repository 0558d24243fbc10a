/** The `l1_batches` row as the data-access layer reads it (`StorageL1Batch`).

    Column types follow the database: `BIGINT` is `int64`, `INT` is `int32`, `BYTEA` is a
    byte string, and nullable columns are `Option`s. The two JSON columns are carried as
    the outcome of decoding them with `serde_json` (`None` when the stored JSON does not
    have the expected shape); the decoder itself is not part of this model.
 */
module StorageRows {
  import opened Wrappers
  import opened Primitives

  /** One `(offset, value)` entry of the initial bootloader heap. */
  type HeapEntry = (usize, U256)

  datatype StorageL1Batch = StorageL1Batch(
    number: int64,
    timestamp: int64,
    isFinished: bool,
    l1TxCount: int32,
    l2TxCount: int32,
    feeAccountAddress: seq<byte>,
    bloom: seq<byte>,
    l2ToL1Logs: seq<seq<byte>>,
    priorityOpsOnchainData: seq<seq<byte>>,

    // commitment data, filled in while the batch goes through its sealing pipeline
    hash: Option<seq<byte>>,
    merkleRootHash: Option<seq<byte>>,
    commitment: Option<seq<byte>>,
    metaParametersHash: Option<seq<byte>>,
    passThroughDataHash: Option<seq<byte>>,
    auxDataHash: Option<seq<byte>>,
    rollupLastLeafIndex: Option<int64>,
    zkporterIsAvailable: Option<bool>,
    bootloaderCodeHash: Option<seq<byte>>,
    defaultAaCodeHash: Option<seq<byte>>,

    l2ToL1Messages: seq<seq<byte>>,
    l2L1CompressedMessages: Option<seq<byte>>,
    l2L1MerkleRoot: Option<seq<byte>>,
    compressedInitialWrites: Option<seq<byte>>,
    compressedRepeatedWrites: Option<seq<byte>>,

    initialBootloaderHeapContent: Option<seq<HeapEntry>>,
    usedContractHashes: Option<seq<U256>>,

    baseFeePerGas: int,
    l1GasPrice: int64,
    l2FairGasPrice: int64
  )

  /** The pair of system-contract code hashes of a block or batch. */
  datatype BaseSystemContractsHashes = BaseSystemContractsHashes(bootloader: H256, defaultAa: H256)

  /** The conversion every header and details type applies to the two nullable code-hash
      columns: `.map(H256::from_slice).expect("should not be none")`, bootloader first. */
  function SystemContractsHashes(bootloader: Option<seq<byte>>, defaultAa: Option<seq<byte>>): (r: Fatal<BaseSystemContractsHashes>)
    ensures r.Value? <==> HashPresent(bootloader) && HashPresent(defaultAa)
    ensures r.Value? ==> r.value.bootloader == bootloader.value && r.value.defaultAa == defaultAa.value
  {
    var b :- MapThenExpect(bootloader);
    var d :- MapThenExpect(defaultAa);
    Value(BaseSystemContractsHashes(b, d))
  }

  /** A mandatory code-hash column holds a 32-byte value. */
  predicate HashPresent(o: Option<seq<byte>>) {
    o.Some? && |o.value| == 32
  }

  /** `o.map(|h| H256::from_slice(&h)).expect("should not be none")`: the width check panics
      first when the column is present. */
  function MapThenExpect(o: Option<seq<byte>>): Fatal<H256> {
    match o
    case Some(h) => H256FromSlice(h)
    case None => Panic(ExpectFailed("should not be none"))
  }

  /** `o.map(H256::from_slice)` on a nullable hash column. */
  function OptionalH256(o: Option<seq<byte>>): (r: Fatal<Option<H256>>)
    ensures r.Value? <==> (o.None? || |o.value| == 32)
    ensures r.Value? ==> (r.value.Some? <==> o.Some?)
    ensures r.Value? && o.Some? ==> r.value.value == o.value
  {
    match o
    case None => Value(None)
    case Some(h) =>
      var v :- H256FromSlice(h);
      Value(Some(v))
  }
}
