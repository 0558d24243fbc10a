/** `TryInto<L1BatchMetadata> for StorageL1Batch`: commitment metadata from an `l1_batches` row.

    The fourteen commitment columns of an `l1_batches` row are filled in independently by
    the sealing pipeline. The conversion is all-or-nothing: it yields the metadata only when
    every one of them is present, and fails with `Incomplete` otherwise. The columns are read
    in the order the `L1BatchMetadata` struct literal names them (not the order the row
    declares them), and the first unusable one decides: a missing one gives `Incomplete`, a
    present hash of the wrong width makes `H256::from_slice` panic.
 */
module BatchMetadata {
  import opened Wrappers
  import opened Primitives
  import opened StorageRows

  /** `StorageL1BatchConvertError`: its only variant. */
  datatype ConvertError = Incomplete

  /** Rust's `Result<T, StorageL1BatchConvertError>`, together with the possibility of a panic. */
  datatype Conversion<+T> = Converted(value: T) | Failed(error: ConvertError) | Panicked(reason: PanicReason) {

    predicate IsFailure() {
      !Converted?
    }

    function PropagateFailure<U>(): Conversion<U>
      requires !Converted?
    {
      if Failed? then Failed(error) else Panicked(reason)
    }

    function Extract(): T
      requires Converted?
    {
      value
    }
  }

  datatype L1BatchMetaParameters = L1BatchMetaParameters(
    zkporterIsAvailable: bool,
    bootloaderCodeHash: H256,
    defaultAaCodeHash: H256
  )

  datatype L1BatchMetadata = L1BatchMetadata(
    rootHash: H256,
    rollupLastLeafIndex: uint64,
    merkleRootHash: H256,
    initialWritesCompressed: seq<byte>,
    repeatedWritesCompressed: seq<byte>,
    l2L1MessagesCompressed: seq<byte>,
    l2L1MerkleRoot: H256,
    auxDataHash: H256,
    metaParametersHash: H256,
    passThroughDataHash: H256,
    commitment: H256,
    blockMetaParams: L1BatchMetaParameters
  )

  /** `column.ok_or(Incomplete)?` */
  function Present<T>(o: Option<T>): Conversion<T> {
    match o
    case Some(v) => Converted(v)
    case None => Failed(Incomplete)
  }

  /** `H256::from_slice(&column.ok_or(Incomplete)?)` */
  function PresentH256(o: Option<seq<byte>>): Conversion<H256> {
    match o
    case None => Failed(Incomplete)
    case Some(h) => if |h| == 32 then Converted(h) else Panicked(SliceLength(32, |h|))
  }

  /** Every one of the fourteen commitment columns is non-null. */
  predicate AllCommitmentFieldsPresent(b: StorageL1Batch) {
    && b.hash.Some?
    && b.rollupLastLeafIndex.Some?
    && b.merkleRootHash.Some?
    && b.compressedInitialWrites.Some?
    && b.compressedRepeatedWrites.Some?
    && b.l2L1CompressedMessages.Some?
    && b.l2L1MerkleRoot.Some?
    && b.auxDataHash.Some?
    && b.metaParametersHash.Some?
    && b.passThroughDataHash.Some?
    && b.commitment.Some?
    && b.zkporterIsAvailable.Some?
    && b.bootloaderCodeHash.Some?
    && b.defaultAaCodeHash.Some?
  }

  /** A nullable hash column is either null or 32 bytes wide. */
  predicate WellSized(o: Option<seq<byte>>) {
    o.None? || |o.value| == 32
  }

  /** Every hash-typed commitment column that is present is 32 bytes wide. */
  predicate PresentHashesWellSized(b: StorageL1Batch) {
    && WellSized(b.hash)
    && WellSized(b.merkleRootHash)
    && WellSized(b.l2L1MerkleRoot)
    && WellSized(b.auxDataHash)
    && WellSized(b.metaParametersHash)
    && WellSized(b.passThroughDataHash)
    && WellSized(b.commitment)
    && WellSized(b.bootloaderCodeHash)
    && WellSized(b.defaultAaCodeHash)
  }

  /** Metadata `m` is field for field what the row `b` stores; the leaf index is stored as a
      signed `BIGINT` and read back with `as u64`. */
  ghost predicate CopiesColumns(b: StorageL1Batch, m: L1BatchMetadata)
    requires AllCommitmentFieldsPresent(b)
  {
    && m.rootHash == b.hash.value
    && m.rollupLastLeafIndex == I64AsU64(b.rollupLastLeafIndex.value)
    && m.merkleRootHash == b.merkleRootHash.value
    && m.initialWritesCompressed == b.compressedInitialWrites.value
    && m.repeatedWritesCompressed == b.compressedRepeatedWrites.value
    && m.l2L1MessagesCompressed == b.l2L1CompressedMessages.value
    && m.l2L1MerkleRoot == b.l2L1MerkleRoot.value
    && m.auxDataHash == b.auxDataHash.value
    && m.metaParametersHash == b.metaParametersHash.value
    && m.passThroughDataHash == b.passThroughDataHash.value
    && m.commitment == b.commitment.value
    && m.blockMetaParams.zkporterIsAvailable == b.zkporterIsAvailable.value
    && m.blockMetaParams.bootloaderCodeHash == b.bootloaderCodeHash.value
    && m.blockMetaParams.defaultAaCodeHash == b.defaultAaCodeHash.value
  }

  /** `StorageL1Batch::try_into::<L1BatchMetadata>()`; what it yields is stated by the lemmas
      below. */
  function MetadataFromStorage(b: StorageL1Batch): Conversion<L1BatchMetadata> {
    var rootHash :- PresentH256(b.hash);
    var leafIndex :- Present(b.rollupLastLeafIndex);
    var merkleRootHash :- PresentH256(b.merkleRootHash);
    var initialWrites :- Present(b.compressedInitialWrites);
    var repeatedWrites :- Present(b.compressedRepeatedWrites);
    var messages :- Present(b.l2L1CompressedMessages);
    var l2L1MerkleRoot :- PresentH256(b.l2L1MerkleRoot);
    var auxDataHash :- PresentH256(b.auxDataHash);
    var metaParametersHash :- PresentH256(b.metaParametersHash);
    var passThroughDataHash :- PresentH256(b.passThroughDataHash);
    var commitment :- PresentH256(b.commitment);
    var zkporter :- Present(b.zkporterIsAvailable);
    var bootloader :- PresentH256(b.bootloaderCodeHash);
    var defaultAa :- PresentH256(b.defaultAaCodeHash);
    Converted(L1BatchMetadata(
      rootHash, I64AsU64(leafIndex), merkleRootHash, initialWrites, repeatedWrites, messages,
      l2L1MerkleRoot, auxDataHash, metaParametersHash, passThroughDataHash, commitment,
      L1BatchMetaParameters(zkporter, bootloader, defaultAa)))
  }

  // ---------------------------------------------------------------------------------------
  // The columns in the order the conversion reads them

  /** How usable one commitment column is to the conversion. */
  datatype ColumnState = Missing | Malformed | Usable

  function HashColumn(o: Option<seq<byte>>): ColumnState {
    if o.None? then Missing else if |o.value| == 32 then Usable else Malformed
  }

  function PlainColumn<T>(o: Option<T>): ColumnState {
    if o.None? then Missing else Usable
  }

  /** The fourteen commitment columns in the order the conversion reads them. */
  function CommitmentColumnStates(b: StorageL1Batch): (st: seq<ColumnState>)
    ensures |st| == 14
  {
    [ HashColumn(b.hash), PlainColumn(b.rollupLastLeafIndex), HashColumn(b.merkleRootHash),
      PlainColumn(b.compressedInitialWrites), PlainColumn(b.compressedRepeatedWrites),
      PlainColumn(b.l2L1CompressedMessages), HashColumn(b.l2L1MerkleRoot), HashColumn(b.auxDataHash),
      HashColumn(b.metaParametersHash), HashColumn(b.passThroughDataHash), HashColumn(b.commitment),
      PlainColumn(b.zkporterIsAvailable), HashColumn(b.bootloaderCodeHash), HashColumn(b.defaultAaCodeHash) ]
  }

  /** No column is missing exactly when all fourteen are present. */
  lemma NoColumnMissing(b: StorageL1Batch)
    ensures (forall i :: 0 <= i < 14 ==> CommitmentColumnStates(b)[i] != Missing) <==> AllCommitmentFieldsPresent(b)
  {
    var st := CommitmentColumnStates(b);
    assert st[0] == HashColumn(b.hash);
    assert st[1] == PlainColumn(b.rollupLastLeafIndex);
    assert st[2] == HashColumn(b.merkleRootHash);
    assert st[3] == PlainColumn(b.compressedInitialWrites);
    assert st[4] == PlainColumn(b.compressedRepeatedWrites);
    assert st[5] == PlainColumn(b.l2L1CompressedMessages);
    assert st[6] == HashColumn(b.l2L1MerkleRoot);
    assert st[7] == HashColumn(b.auxDataHash);
    assert st[8] == HashColumn(b.metaParametersHash);
    assert st[9] == HashColumn(b.passThroughDataHash);
    assert st[10] == HashColumn(b.commitment);
    assert st[11] == PlainColumn(b.zkporterIsAvailable);
    assert st[12] == HashColumn(b.bootloaderCodeHash);
    assert st[13] == HashColumn(b.defaultAaCodeHash);
  }

  /** No column is malformed exactly when every present hash is 32 bytes wide. */
  lemma NoColumnMalformed(b: StorageL1Batch)
    ensures (forall i :: 0 <= i < 14 ==> CommitmentColumnStates(b)[i] != Malformed) <==> PresentHashesWellSized(b)
  {
    var st := CommitmentColumnStates(b);
    assert st[0] == HashColumn(b.hash);
    assert st[2] == HashColumn(b.merkleRootHash);
    assert st[6] == HashColumn(b.l2L1MerkleRoot);
    assert st[7] == HashColumn(b.auxDataHash);
    assert st[8] == HashColumn(b.metaParametersHash);
    assert st[9] == HashColumn(b.passThroughDataHash);
    assert st[10] == HashColumn(b.commitment);
    assert st[12] == HashColumn(b.bootloaderCodeHash);
    assert st[13] == HashColumn(b.defaultAaCodeHash);
    assert forall i :: 0 <= i < 14 && i !in {0, 2, 6, 7, 8, 9, 10, 12, 13} ==> st[i] != Malformed;
  }

  /** The first column from `k` on that is not usable is in state `c`. */
  ghost predicate FirstUnusableIs(st: seq<ColumnState>, k: nat, c: ColumnState) {
    exists i :: k <= i < |st| && st[i] == c && forall j :: k <= j < i ==> st[j] == Usable
  }

  /** The state of the first column from `k` on that is not usable, or `Usable` when all are. */
  function FirstUnusableFrom(st: seq<ColumnState>, k: nat): (c: ColumnState)
    ensures c == Usable <==> forall i :: k <= i < |st| ==> st[i] == Usable
    decreases |st| - k
  {
    if k >= |st| then Usable
    else if st[k] != Usable then st[k]
    else FirstUnusableFrom(st, k + 1)
  }

  /** `FirstUnusableFrom` finds the column `FirstUnusableIs` describes. */
  lemma {:induction false} FirstUnusableMeaning(st: seq<ColumnState>, k: nat, c: ColumnState)
    requires c != Usable
    ensures FirstUnusableFrom(st, k) == c <==> FirstUnusableIs(st, k, c)
    decreases |st| - k
  {
    if k < |st| && st[k] == Usable {
      FirstUnusableMeaning(st, k + 1, c);
      if FirstUnusableIs(st, k + 1, c) {
        var i :| k + 1 <= i < |st| && st[i] == c && forall j :: k + 1 <= j < i ==> st[j] == Usable;
        assert forall j :: k <= j < i ==> st[j] == Usable;
      }
      if FirstUnusableIs(st, k, c) {
        var i :| k <= i < |st| && st[i] == c && forall j :: k <= j < i ==> st[j] == Usable;
        assert i != k;
      }
    }
  }

  /** `FirstUnusableFrom` of fourteen columns, written out column by column. */
  function FirstOfFourteen(st: seq<ColumnState>): ColumnState
    requires |st| == 14
  {
    if st[0] != Usable then st[0] else if st[1] != Usable then st[1] else if st[2] != Usable then st[2]
    else if st[3] != Usable then st[3] else if st[4] != Usable then st[4] else if st[5] != Usable then st[5]
    else if st[6] != Usable then st[6] else if st[7] != Usable then st[7] else if st[8] != Usable then st[8]
    else if st[9] != Usable then st[9] else if st[10] != Usable then st[10] else if st[11] != Usable then st[11]
    else if st[12] != Usable then st[12] else if st[13] != Usable then st[13] else Usable
  }

  lemma FirstUnusableOfFourteen(st: seq<ColumnState>)
    requires |st| == 14
    ensures FirstUnusableFrom(st, 0) == FirstOfFourteen(st)
  {
    assert FirstUnusableFrom(st, 0) == if st[0] != Usable then st[0] else FirstUnusableFrom(st, 1);
    assert FirstUnusableFrom(st, 1) == if st[1] != Usable then st[1] else FirstUnusableFrom(st, 2);
    assert FirstUnusableFrom(st, 2) == if st[2] != Usable then st[2] else FirstUnusableFrom(st, 3);
    assert FirstUnusableFrom(st, 3) == if st[3] != Usable then st[3] else FirstUnusableFrom(st, 4);
    assert FirstUnusableFrom(st, 4) == if st[4] != Usable then st[4] else FirstUnusableFrom(st, 5);
    assert FirstUnusableFrom(st, 5) == if st[5] != Usable then st[5] else FirstUnusableFrom(st, 6);
    assert FirstUnusableFrom(st, 6) == if st[6] != Usable then st[6] else FirstUnusableFrom(st, 7);
    assert FirstUnusableFrom(st, 7) == if st[7] != Usable then st[7] else FirstUnusableFrom(st, 8);
    assert FirstUnusableFrom(st, 8) == if st[8] != Usable then st[8] else FirstUnusableFrom(st, 9);
    assert FirstUnusableFrom(st, 9) == if st[9] != Usable then st[9] else FirstUnusableFrom(st, 10);
    assert FirstUnusableFrom(st, 10) == if st[10] != Usable then st[10] else FirstUnusableFrom(st, 11);
    assert FirstUnusableFrom(st, 11) == if st[11] != Usable then st[11] else FirstUnusableFrom(st, 12);
    assert FirstUnusableFrom(st, 12) == if st[12] != Usable then st[12] else FirstUnusableFrom(st, 13);
    assert FirstUnusableFrom(st, 13) == if st[13] != Usable then st[13] else FirstUnusableFrom(st, 14);
  }

  /** How a conversion ended, as the state of the column that ended it. */
  function Kind<T>(r: Conversion<T>): ColumnState {
    match r
    case Converted(_) => Usable
    case Failed(_) => Missing
    case Panicked(_) => Malformed
  }

  lemma MetadataStopsAtFirstUnusable(b: StorageL1Batch)
    ensures Kind(MetadataFromStorage(b)) == FirstOfFourteen(CommitmentColumnStates(b))
  {
    var st := CommitmentColumnStates(b);
    if st[0] != Usable || st[1] != Usable || st[2] != Usable || st[3] != Usable || st[4] != Usable
       || st[5] != Usable || st[6] != Usable {
    } else {
      assert PresentH256(b.hash).Converted? && Present(b.rollupLastLeafIndex).Converted?;
    }
  }

  /** The read order is that of the struct literal, not of the row declaration: with the first
      three columns usable, a null `compressed_initial_writes` gives `Incomplete` even when
      `commitment`, declared earlier in the row, is a malformed hash. */
  lemma ReadOrderIsStructLiteral(b: StorageL1Batch)
    requires HashColumn(b.hash) == Usable && b.rollupLastLeafIndex.Some? && HashColumn(b.merkleRootHash) == Usable
    requires b.compressedInitialWrites.None?
    ensures MetadataFromStorage(b) == Failed(Incomplete)
    ensures MetadataFromStorage(b.(commitment := Some([]))) == Failed(Incomplete)
  {
  }

  // ---------------------------------------------------------------------------------------
  // What the conversion yields

  /** The conversion is decided by the first unusable column, in the order the struct literal
      of the conversion reads the columns:
      `Incomplete` when it is missing, a panic when it is a hash of the wrong width, and the
      metadata when there is no unusable column. */
  lemma MetadataVerdictFollowsColumnOrder(b: StorageL1Batch)
    ensures MetadataFromStorage(b).Converted? <==> forall i :: 0 <= i < 14 ==> CommitmentColumnStates(b)[i] == Usable
    ensures MetadataFromStorage(b).Failed? <==> FirstUnusableIs(CommitmentColumnStates(b), 0, Missing)
    ensures MetadataFromStorage(b).Panicked? <==> FirstUnusableIs(CommitmentColumnStates(b), 0, Malformed)
  {
    MetadataStopsAtFirstUnusable(b);
    FirstUnusableOfFourteen(CommitmentColumnStates(b));
    FirstUnusableMeaning(CommitmentColumnStates(b), 0, Missing);
    FirstUnusableMeaning(CommitmentColumnStates(b), 0, Malformed);
  }

  /** All or nothing: the metadata comes out exactly when all fourteen columns are present
      (and the hashes 32 bytes wide); a row whose hashes are well formed fails with
      `Incomplete` exactly when some column is null. */
  lemma MetadataAllOrNothing(b: StorageL1Batch)
    ensures MetadataFromStorage(b).Converted? <==> AllCommitmentFieldsPresent(b) && PresentHashesWellSized(b)
    ensures MetadataFromStorage(b).Failed? ==> !AllCommitmentFieldsPresent(b)
    ensures MetadataFromStorage(b).Panicked? ==> !PresentHashesWellSized(b)
    ensures PresentHashesWellSized(b) ==> (MetadataFromStorage(b) == Failed(Incomplete) <==> !AllCommitmentFieldsPresent(b))
  {
    var st := CommitmentColumnStates(b);
    MetadataVerdictFollowsColumnOrder(b);
    NoColumnMissing(b);
    NoColumnMalformed(b);
    if MetadataFromStorage(b).Failed? {
      var i :| 0 <= i < |st| && st[i] == Missing && forall j :: 0 <= j < i ==> st[j] == Usable;
    }
    if MetadataFromStorage(b).Panicked? {
      var i :| 0 <= i < |st| && st[i] == Malformed && forall j :: 0 <= j < i ==> st[j] == Usable;
    }
  }

  /** A complete row converts to the metadata holding its columns, field for field. */
  lemma MetadataCopiesColumns(b: StorageL1Batch)
    requires AllCommitmentFieldsPresent(b) && PresentHashesWellSized(b)
    ensures MetadataFromStorage(b).Converted?
    ensures CopiesColumns(b, MetadataFromStorage(b).value)
  {
  }

  /** The row `b` with its commitment columns holding `m`, as the sealing pipeline stores it
      (the `u64` leaf index written as a signed `BIGINT`). */
  function WithMetadata(b: StorageL1Batch, m: L1BatchMetadata): (r: StorageL1Batch)
    ensures AllCommitmentFieldsPresent(r) && PresentHashesWellSized(r)
    ensures r.number == b.number && r.l2ToL1Logs == b.l2ToL1Logs && r.l2ToL1Messages == b.l2ToL1Messages
  {
    b.(hash := Some(m.rootHash),
       rollupLastLeafIndex := Some(U64AsI64(m.rollupLastLeafIndex)),
       merkleRootHash := Some(m.merkleRootHash),
       compressedInitialWrites := Some(m.initialWritesCompressed),
       compressedRepeatedWrites := Some(m.repeatedWritesCompressed),
       l2L1CompressedMessages := Some(m.l2L1MessagesCompressed),
       l2L1MerkleRoot := Some(m.l2L1MerkleRoot),
       auxDataHash := Some(m.auxDataHash),
       metaParametersHash := Some(m.metaParametersHash),
       passThroughDataHash := Some(m.passThroughDataHash),
       commitment := Some(m.commitment),
       zkporterIsAvailable := Some(m.blockMetaParams.zkporterIsAvailable),
       bootloaderCodeHash := Some(m.blockMetaParams.bootloaderCodeHash),
       defaultAaCodeHash := Some(m.blockMetaParams.defaultAaCodeHash))
  }

  /** Storing metadata and reading it back gives the same metadata, and a row converts to
      `m` exactly when its commitment columns are those `WithMetadata` writes for `m`. */
  lemma MetadataRoundTrip(b: StorageL1Batch, m: L1BatchMetadata)
    ensures MetadataFromStorage(WithMetadata(b, m)) == Converted(m)
    ensures MetadataFromStorage(b) == Converted(m) <==> WithMetadata(b, m) == b
  {
    U64I64RoundTrip(m.rollupLastLeafIndex, 0);
    if MetadataFromStorage(b) == Converted(m) {
      MetadataAllOrNothing(b);
      MetadataCopiesColumns(b);
      U64I64RoundTrip(0, b.rollupLastLeafIndex.value);
    }
  }

  /** Setting one missing column of an otherwise complete row is all it takes: the row with
      `hash` null is `Incomplete`, and with `hash` set to 32 bytes it converts, returning
      those bytes as the root hash. */
  lemma MissingRootHashAlone(b: StorageL1Batch, h: H256)
    requires AllCommitmentFieldsPresent(b.(hash := Some(h))) && PresentHashesWellSized(b)
    ensures MetadataFromStorage(b.(hash := None)) == Failed(Incomplete)
    ensures MetadataFromStorage(b.(hash := Some(h))).Converted?
    ensures MetadataFromStorage(b.(hash := Some(h))).value.rootHash == h
  {
  }
}
