/** Status classification of the explorer views: `block_page_item_from_storage`,
    `l1_batch_page_item_from_storage`, `StorageBlockDetails::into_block_details` and
    `From<StorageL1BatchDetails> for L1BatchDetails`.

    A page item is `Verified` once its number is at most the last verified one. Details are
    `Verified` for the genesis block/batch (number 0) or once an execute transaction exists.
    `H256::from_str` (hex parsing) is not part of this model and is a parameter; the
    `NaiveDateTime` to `DateTime<Utc>` conversion only attaches the UTC zone.
 */
module Explorer {
  import opened Wrappers
  import opened Primitives
  import opened StorageRows

  datatype BlockStatus = Sealed | Verified

  /** A database timestamp without zone, and the same instant tagged as UTC. */
  datatype NaiveDateTime = NaiveDateTime(ticks: int)
  datatype DateTimeUtc = DateTimeUtc(utc: NaiveDateTime)

  // ---------------------------------------------------------------------------------------
  // Page items

  datatype StorageBlockPageItem = StorageBlockPageItem(
    number: int64, l1TxCount: int32, l2TxCount: int32, hash: Option<seq<byte>>, timestamp: int64)

  datatype StorageL1BatchPageItem = StorageL1BatchPageItem(
    number: int64, l1TxCount: int32, l2TxCount: int32, hash: Option<seq<byte>>, timestamp: int64)

  datatype BlockPageItem = BlockPageItem(
    number: uint32, l1TxCount: usize, l2TxCount: usize, hash: Option<H256>, status: BlockStatus, timestamp: uint64)

  datatype L1BatchPageItem = L1BatchPageItem(
    number: uint32, l1TxCount: usize, l2TxCount: usize, rootHash: Option<H256>, status: BlockStatus, timestamp: uint64)

  /** The page-item rule: sealed while above the last verified number (compared as `i64`). */
  function PageItemStatus(number: int64, lastVerified: uint32): (st: BlockStatus)
    ensures st == Verified <==> number <= lastVerified
  {
    if number > lastVerified then Sealed else Verified
  }

  /** `block_page_item_from_storage` */
  function BlockPageItemFromStorage(storage: StorageBlockPageItem, lastVerified: uint32): (r: Fatal<BlockPageItem>)
    ensures r.Value? <==> (storage.hash.None? || |storage.hash.value| == 32)
    ensures r.Value? ==> (r.value.status == Verified <==> storage.number <= lastVerified)
    ensures r.Value? ==> (r.value.hash.Some? <==> storage.hash.Some?)
    ensures r.Value? && storage.hash.Some? ==> r.value.hash.value == storage.hash.value
    ensures r.Value? ==> r.value.number == I64AsU32(storage.number) && r.value.timestamp == I64AsU64(storage.timestamp)
    ensures r.Value? ==> r.value.l1TxCount == I32AsUsize(storage.l1TxCount) && r.value.l2TxCount == I32AsUsize(storage.l2TxCount)
  {
    var status := PageItemStatus(storage.number, lastVerified);
    var hash :- OptionalH256(storage.hash);
    Value(BlockPageItem(
      I64AsU32(storage.number), I32AsUsize(storage.l1TxCount), I32AsUsize(storage.l2TxCount),
      hash, status, I64AsU64(storage.timestamp)))
  }

  /** The columns a block page item is read from, written back with the inverse casts. */
  function BlockPageItemColumns(item: BlockPageItem): (storage: StorageBlockPageItem)
    ensures storage.hash == item.hash
  {
    StorageBlockPageItem(
      item.number, UsizeAsI32(item.l1TxCount), UsizeAsI32(item.l2TxCount), item.hash, U64AsI64(item.timestamp))
  }

  /** A page item loses nothing of a row whose number fits `u32`: the row is recovered from
      the item, and the item's status is the page-item rule applied to that row. */
  lemma BlockPageItemRecoversRow(storage: StorageBlockPageItem, lastVerified: uint32)
    ensures BlockPageItemFromStorage(storage, lastVerified).Value? && 0 <= storage.number < TWO_32 ==>
              BlockPageItemColumns(BlockPageItemFromStorage(storage, lastVerified).value) == storage
    ensures BlockPageItemFromStorage(storage, lastVerified).Value? ==>
              BlockPageItemFromStorage(storage, lastVerified).value.status == PageItemStatus(storage.number, lastVerified)
  {
    I32UsizeRoundTrip(storage.l1TxCount);
    I32UsizeRoundTrip(storage.l2TxCount);
    U64I64RoundTrip(0, storage.timestamp);
  }

  /** `l1_batch_page_item_from_storage` */
  function L1BatchPageItemFromStorage(storage: StorageL1BatchPageItem, lastVerified: uint32): (r: Fatal<L1BatchPageItem>)
    ensures r.Value? <==> (storage.hash.None? || |storage.hash.value| == 32)
    ensures r.Value? ==> (r.value.status == Verified <==> storage.number <= lastVerified)
    ensures r.Value? ==> (r.value.rootHash.Some? <==> storage.hash.Some?)
    ensures r.Value? && storage.hash.Some? ==> r.value.rootHash.value == storage.hash.value
    ensures r.Value? ==> r.value.number == I64AsU32(storage.number) && r.value.timestamp == I64AsU64(storage.timestamp)
    ensures r.Value? ==> r.value.l1TxCount == I32AsUsize(storage.l1TxCount) && r.value.l2TxCount == I32AsUsize(storage.l2TxCount)
  {
    var status := PageItemStatus(storage.number, lastVerified);
    var rootHash :- OptionalH256(storage.hash);
    Value(L1BatchPageItem(
      I64AsU32(storage.number), I32AsUsize(storage.l1TxCount), I32AsUsize(storage.l2TxCount),
      rootHash, status, I64AsU64(storage.timestamp)))
  }

  /** The columns a batch page item is read from, written back with the inverse casts. */
  function L1BatchPageItemColumns(item: L1BatchPageItem): (storage: StorageL1BatchPageItem)
    ensures storage.hash == item.rootHash
  {
    StorageL1BatchPageItem(
      item.number, UsizeAsI32(item.l1TxCount), UsizeAsI32(item.l2TxCount), item.rootHash, U64AsI64(item.timestamp))
  }

  /** A batch page item loses nothing of a row whose number fits `u32`: the row is recovered
      from the item, and the item's status is the page-item rule applied to that row. */
  lemma L1BatchPageItemRecoversRow(storage: StorageL1BatchPageItem, lastVerified: uint32)
    ensures L1BatchPageItemFromStorage(storage, lastVerified).Value? && 0 <= storage.number < TWO_32 ==>
              L1BatchPageItemColumns(L1BatchPageItemFromStorage(storage, lastVerified).value) == storage
    ensures L1BatchPageItemFromStorage(storage, lastVerified).Value? ==>
              L1BatchPageItemFromStorage(storage, lastVerified).value.status == PageItemStatus(storage.number, lastVerified)
  {
    I32UsizeRoundTrip(storage.l1TxCount);
    I32UsizeRoundTrip(storage.l2TxCount);
    U64I64RoundTrip(0, storage.timestamp);
  }

  // ---------------------------------------------------------------------------------------
  // Details

  /** The details rule: verified for number 0 or once an execute transaction is recorded. */
  function DetailsStatus(number: int64, executeTxHash: Option<string>): (st: BlockStatus)
    ensures st == Verified <==> number == 0 || executeTxHash.Some?
  {
    if number == 0 || executeTxHash.Some? then Verified else Sealed
  }

  /** The L1 transaction hashes and times a details row carries. */
  datatype EthTxInfo = EthTxInfo(
    commitTxHash: Option<H256>, committedAt: Option<DateTimeUtc>,
    proveTxHash: Option<H256>, provenAt: Option<DateTimeUtc>,
    executeTxHash: Option<H256>, executedAt: Option<DateTimeUtc>)

  /** `hash.as_deref().map(|h| H256::from_str(h).expect(message))` */
  function ParseTxHash(hash: Option<string>, parseH256: string -> Option<H256>, message: string): (r: Fatal<Option<H256>>)
    ensures r.Value? <==> (hash.None? || parseH256(hash.value).Some?)
    ensures r.Value? ==> (r.value.Some? <==> hash.Some?)
    ensures r.Value? && hash.Some? ==> r.value.value == parseH256(hash.value).value
  {
    match hash
    case None => Value(None)
    case Some(h) =>
      var v :- Expect(parseH256(h), message);
      Value(Some(v))
  }

  /** `at.map(|t| DateTime::<Utc>::from_utc(t, Utc))` */
  function ToUtc(at: Option<NaiveDateTime>): (r: Option<DateTimeUtc>)
    ensures r.Some? <==> at.Some?
    ensures r.Some? ==> r.value.utc == at.value
  {
    match at
    case None => None
    case Some(t) => Some(DateTimeUtc(t))
  }

  /** `parsed` is what parsing the optional hex string `raw` yields. */
  predicate ParsedHash(parsed: Option<H256>, raw: Option<string>, parseH256: string -> Option<H256>) {
    && (parsed.Some? <==> raw.Some?)
    && (raw.Some? ==> parseH256(raw.value) == parsed)
  }

  /** `info` holds the three parsed hashes and the three times, tagged as UTC. */
  predicate EthTxsFollow(
    info: EthTxInfo,
    commitTxHash: Option<string>, committedAt: Option<NaiveDateTime>,
    proveTxHash: Option<string>, provenAt: Option<NaiveDateTime>,
    executeTxHash: Option<string>, executedAt: Option<NaiveDateTime>,
    parseH256: string -> Option<H256>)
  {
    && ParsedHash(info.commitTxHash, commitTxHash, parseH256)
    && ParsedHash(info.proveTxHash, proveTxHash, parseH256)
    && ParsedHash(info.executeTxHash, executeTxHash, parseH256)
    && info.committedAt == ToUtc(committedAt)
    && info.provenAt == ToUtc(provenAt)
    && info.executedAt == ToUtc(executedAt)
  }

  /** The tx-hash fields of a details row, parsed commit, prove, execute in that order. */
  function ParseEthTxInfo(
    commitTxHash: Option<string>, committedAt: Option<NaiveDateTime>,
    proveTxHash: Option<string>, provenAt: Option<NaiveDateTime>,
    executeTxHash: Option<string>, executedAt: Option<NaiveDateTime>,
    parseH256: string -> Option<H256>): (r: Fatal<EthTxInfo>)
    ensures r.Value? <==>
              && (commitTxHash.None? || parseH256(commitTxHash.value).Some?)
              && (proveTxHash.None? || parseH256(proveTxHash.value).Some?)
              && (executeTxHash.None? || parseH256(executeTxHash.value).Some?)
    ensures r.Value? ==> EthTxsFollow(r.value, commitTxHash, committedAt, proveTxHash, provenAt, executeTxHash, executedAt, parseH256)
  {
    var commit :- ParseTxHash(commitTxHash, parseH256, "Incorrect commit_tx hash");
    var prove :- ParseTxHash(proveTxHash, parseH256, "Incorrect prove_tx hash");
    var execute :- ParseTxHash(executeTxHash, parseH256, "Incorrect execute_tx hash");
    Value(EthTxInfo(commit, ToUtc(committedAt), prove, ToUtc(provenAt), execute, ToUtc(executedAt)))
  }

  datatype StorageBlockDetails = StorageBlockDetails(
    number: int64,
    l1BatchNumber: int64,
    timestamp: int64,
    l1TxCount: int32,
    l2TxCount: int32,
    rootHash: Option<seq<byte>>,
    commitTxHash: Option<string>,
    committedAt: Option<NaiveDateTime>,
    proveTxHash: Option<string>,
    provenAt: Option<NaiveDateTime>,
    executeTxHash: Option<string>,
    executedAt: Option<NaiveDateTime>,
    l1GasPrice: int64,
    l2FairGasPrice: int64,
    bootloaderCodeHash: Option<seq<byte>>,
    defaultAaCodeHash: Option<seq<byte>>,
    feeAccountAddress: Option<seq<byte>>  // null while the block is not sealed
  )

  datatype BlockDetails = BlockDetails(
    number: uint32,
    l1BatchNumber: uint32,
    timestamp: uint64,
    l1TxCount: usize,
    l2TxCount: usize,
    status: BlockStatus,
    rootHash: Option<H256>,
    ethTxs: EthTxInfo,
    l1GasPrice: uint64,
    l2FairGasPrice: uint64,
    baseSystemContractsHashes: BaseSystemContractsHashes,
    operatorAddress: Address
  )

  /** `fee_account_address.map(|a| Address::from_slice(&a)).unwrap_or(current_operator_address)` */
  function OperatorAddress(feeAccountAddress: Option<seq<byte>>, currentOperatorAddress: Address): (r: Fatal<Address>)
    ensures r.Value? <==> (feeAccountAddress.None? || |feeAccountAddress.value| == 20)
    ensures r.Value? && feeAccountAddress.Some? ==> r.value == feeAccountAddress.value
    ensures r.Value? && feeAccountAddress.None? ==> r.value == currentOperatorAddress
  {
    match feeAccountAddress
    case None => Value(currentOperatorAddress)
    case Some(a) => AddressFromSlice(a)
  }

  /** Everything `into_block_details` checks (and panics on) holds of `d`. */
  predicate BlockDetailsDecodable(d: StorageBlockDetails, parseH256: string -> Option<H256>) {
    && (d.rootHash.None? || |d.rootHash.value| == 32)
    && (d.commitTxHash.None? || parseH256(d.commitTxHash.value).Some?)
    && (d.proveTxHash.None? || parseH256(d.proveTxHash.value).Some?)
    && (d.executeTxHash.None? || parseH256(d.executeTxHash.value).Some?)
    && HashPresent(d.bootloaderCodeHash)
    && HashPresent(d.defaultAaCodeHash)
    && (d.feeAccountAddress.None? || |d.feeAccountAddress.value| == 20)
  }

  /** `StorageBlockDetails::into_block_details(current_operator_address)` */
  function IntoBlockDetails(d: StorageBlockDetails, currentOperatorAddress: Address, parseH256: string -> Option<H256>)
    : (r: Fatal<BlockDetails>)
    ensures r.Value? <==> BlockDetailsDecodable(d, parseH256)
    ensures r.Value? ==> (r.value.status == Verified <==> d.number == 0 || d.executeTxHash.Some?)
    ensures r.Value? ==> EthTxsFollow(r.value.ethTxs, d.commitTxHash, d.committedAt, d.proveTxHash, d.provenAt, d.executeTxHash, d.executedAt, parseH256)
    ensures r.Value? && d.feeAccountAddress.Some? ==> r.value.operatorAddress == d.feeAccountAddress.value
    ensures r.Value? && d.feeAccountAddress.None? ==> r.value.operatorAddress == currentOperatorAddress
    ensures r.Value? ==> r.value.number == I64AsU32(d.number) && r.value.l1BatchNumber == I64AsU32(d.l1BatchNumber)
    ensures r.Value? ==> r.value.timestamp == I64AsU64(d.timestamp)
    ensures r.Value? ==> r.value.l1TxCount == I32AsUsize(d.l1TxCount) && r.value.l2TxCount == I32AsUsize(d.l2TxCount)
    ensures r.Value? ==> r.value.l1GasPrice == I64AsU64(d.l1GasPrice) && r.value.l2FairGasPrice == I64AsU64(d.l2FairGasPrice)
    ensures r.Value? ==> (r.value.rootHash.Some? <==> d.rootHash.Some?)
    ensures r.Value? && d.rootHash.Some? ==> r.value.rootHash.value == d.rootHash.value
    ensures r.Value? ==> r.value.baseSystemContractsHashes.bootloader == d.bootloaderCodeHash.value
    ensures r.Value? ==> r.value.baseSystemContractsHashes.defaultAa == d.defaultAaCodeHash.value
  {
    var status := DetailsStatus(d.number, d.executeTxHash);
    var rootHash :- OptionalH256(d.rootHash);
    var ethTxs :- ParseEthTxInfo(d.commitTxHash, d.committedAt, d.proveTxHash, d.provenAt, d.executeTxHash, d.executedAt, parseH256);
    var hashes :- SystemContractsHashes(d.bootloaderCodeHash, d.defaultAaCodeHash);
    var operator :- OperatorAddress(d.feeAccountAddress, currentOperatorAddress);
    Value(BlockDetails(
      I64AsU32(d.number), I64AsU32(d.l1BatchNumber), I64AsU64(d.timestamp),
      I32AsUsize(d.l1TxCount), I32AsUsize(d.l2TxCount), status, rootHash, ethTxs,
      I64AsU64(d.l1GasPrice), I64AsU64(d.l2FairGasPrice), hashes, operator))
  }

  /** The configured operator address only shows through for a block without its own fee
      account: once the row has one, the details do not depend on the configuration. */
  lemma OperatorFallbackOnlyWhenUnset(d: StorageBlockDetails, a: Address, b: Address, parseH256: string -> Option<H256>)
    requires BlockDetailsDecodable(d, parseH256)
    ensures d.feeAccountAddress.Some? ==> IntoBlockDetails(d, a, parseH256) == IntoBlockDetails(d, b, parseH256)
    ensures d.feeAccountAddress.None? && a != b ==> IntoBlockDetails(d, a, parseH256) != IntoBlockDetails(d, b, parseH256)
  {
    var ra := IntoBlockDetails(d, a, parseH256);
    var rb := IntoBlockDetails(d, b, parseH256);
    if d.feeAccountAddress.None? && a != b {
      assert ra.value.operatorAddress != rb.value.operatorAddress;
    }
  }

  datatype StorageL1BatchDetails = StorageL1BatchDetails(
    number: int64,
    timestamp: int64,
    l1TxCount: int32,
    l2TxCount: int32,
    rootHash: Option<seq<byte>>,
    commitTxHash: Option<string>,
    committedAt: Option<NaiveDateTime>,
    proveTxHash: Option<string>,
    provenAt: Option<NaiveDateTime>,
    executeTxHash: Option<string>,
    executedAt: Option<NaiveDateTime>,
    l1GasPrice: int64,
    l2FairGasPrice: int64,
    bootloaderCodeHash: Option<seq<byte>>,
    defaultAaCodeHash: Option<seq<byte>>
  )

  datatype L1BatchDetails = L1BatchDetails(
    number: uint32,
    timestamp: uint64,
    l1TxCount: usize,
    l2TxCount: usize,
    status: BlockStatus,
    rootHash: Option<H256>,
    ethTxs: EthTxInfo,
    l1GasPrice: uint64,
    l2FairGasPrice: uint64,
    baseSystemContractsHashes: BaseSystemContractsHashes
  )

  /** Everything `L1BatchDetails::from` checks (and panics on) holds of `d`. */
  predicate L1BatchDetailsDecodable(d: StorageL1BatchDetails, parseH256: string -> Option<H256>) {
    && (d.rootHash.None? || |d.rootHash.value| == 32)
    && (d.commitTxHash.None? || parseH256(d.commitTxHash.value).Some?)
    && (d.proveTxHash.None? || parseH256(d.proveTxHash.value).Some?)
    && (d.executeTxHash.None? || parseH256(d.executeTxHash.value).Some?)
    && HashPresent(d.bootloaderCodeHash)
    && HashPresent(d.defaultAaCodeHash)
  }

  /** `L1BatchDetails::from(d)` */
  function L1BatchDetailsFromStorage(d: StorageL1BatchDetails, parseH256: string -> Option<H256>): (r: Fatal<L1BatchDetails>)
    ensures r.Value? <==> L1BatchDetailsDecodable(d, parseH256)
    ensures r.Value? ==> (r.value.status == Verified <==> d.number == 0 || d.executeTxHash.Some?)
    ensures r.Value? ==> EthTxsFollow(r.value.ethTxs, d.commitTxHash, d.committedAt, d.proveTxHash, d.provenAt, d.executeTxHash, d.executedAt, parseH256)
    ensures r.Value? ==> r.value.number == I64AsU32(d.number) && r.value.timestamp == I64AsU64(d.timestamp)
    ensures r.Value? ==> r.value.l1TxCount == I32AsUsize(d.l1TxCount) && r.value.l2TxCount == I32AsUsize(d.l2TxCount)
    ensures r.Value? ==> r.value.l1GasPrice == I64AsU64(d.l1GasPrice) && r.value.l2FairGasPrice == I64AsU64(d.l2FairGasPrice)
    ensures r.Value? ==> (r.value.rootHash.Some? <==> d.rootHash.Some?)
    ensures r.Value? && d.rootHash.Some? ==> r.value.rootHash.value == d.rootHash.value
    ensures r.Value? ==> r.value.baseSystemContractsHashes.bootloader == d.bootloaderCodeHash.value
    ensures r.Value? ==> r.value.baseSystemContractsHashes.defaultAa == d.defaultAaCodeHash.value
  {
    var status := DetailsStatus(d.number, d.executeTxHash);
    var rootHash :- OptionalH256(d.rootHash);
    var ethTxs :- ParseEthTxInfo(d.commitTxHash, d.committedAt, d.proveTxHash, d.provenAt, d.executeTxHash, d.executedAt, parseH256);
    var hashes :- SystemContractsHashes(d.bootloaderCodeHash, d.defaultAaCodeHash);
    Value(L1BatchDetails(
      I64AsU32(d.number), I64AsU64(d.timestamp), I32AsUsize(d.l1TxCount), I32AsUsize(d.l2TxCount),
      status, rootHash, ethTxs, I64AsU64(d.l1GasPrice), I64AsU64(d.l2FairGasPrice), hashes))
  }

  /** A hex string for an optional hash, written with the formatter `show`. */
  function ShowHash(h: Option<H256>, show: H256 -> string): (raw: Option<string>)
    ensures raw.Some? <==> h.Some?
  {
    match h
    case None => None
    case Some(v) => Some(show(v))
  }

  /** The database time of an optional UTC time. */
  function FromUtc(at: Option<DateTimeUtc>): (r: Option<NaiveDateTime>)
    ensures ToUtc(r) == at
  {
    match at
    case None => None
    case Some(t) => Some(t.utc)
  }

  /** `show` prints back the hex string `raw` was parsed from. */
  predicate ShowsBack(raw: Option<string>, parseH256: string -> Option<H256>, show: H256 -> string) {
    raw.Some? && parseH256(raw.value).Some? ==> show(parseH256(raw.value).value) == raw.value
  }

  /** The columns batch details are read from, the hashes written with the formatter `show`
      and the numbers with the inverse casts. */
  function L1BatchDetailsColumns(det: L1BatchDetails, show: H256 -> string): (d: StorageL1BatchDetails)
    ensures d.rootHash == det.rootHash
    ensures d.bootloaderCodeHash == Some(det.baseSystemContractsHashes.bootloader)
    ensures d.defaultAaCodeHash == Some(det.baseSystemContractsHashes.defaultAa)
    ensures d.executeTxHash.Some? <==> det.ethTxs.executeTxHash.Some?
  {
    StorageL1BatchDetails(
      det.number, U64AsI64(det.timestamp), UsizeAsI32(det.l1TxCount), UsizeAsI32(det.l2TxCount), det.rootHash,
      ShowHash(det.ethTxs.commitTxHash, show), FromUtc(det.ethTxs.committedAt),
      ShowHash(det.ethTxs.proveTxHash, show), FromUtc(det.ethTxs.provenAt),
      ShowHash(det.ethTxs.executeTxHash, show), FromUtc(det.ethTxs.executedAt),
      U64AsI64(det.l1GasPrice), U64AsI64(det.l2FairGasPrice),
      Some(det.baseSystemContractsHashes.bootloader), Some(det.baseSystemContractsHashes.defaultAa))
  }

  /** Batch details lose nothing of a convertible row whose number fits `u32` and whose hash
      strings are printed back by `show` as they were stored: the row is recovered. */
  lemma L1BatchDetailsRecoverRow(d: StorageL1BatchDetails, parseH256: string -> Option<H256>, show: H256 -> string)
    ensures && L1BatchDetailsFromStorage(d, parseH256).Value? && 0 <= d.number < TWO_32
            && ShowsBack(d.commitTxHash, parseH256, show) && ShowsBack(d.proveTxHash, parseH256, show)
            && ShowsBack(d.executeTxHash, parseH256, show)
            ==> L1BatchDetailsColumns(L1BatchDetailsFromStorage(d, parseH256).value, show) == d
  {
    I32UsizeRoundTrip(d.l1TxCount);
    I32UsizeRoundTrip(d.l2TxCount);
    U64I64RoundTrip(0, d.timestamp);
    U64I64RoundTrip(0, d.l1GasPrice);
    U64I64RoundTrip(0, d.l2FairGasPrice);
  }
}
