# Block storage models of the zkSync Era DAL

This project models `core/lib/dal/src/models/storage_block.rs`. That file holds the row
types the data-access layer reads from the `l1_batches` and `miniblocks` tables, and the
conversions that turn those rows into domain values:

- **Batch metadata assembly.** `TryInto<L1BatchMetadata> for StorageL1Batch` gathers the
  fourteen commitment columns of a batch row. It succeeds only when all of them are
  present, fails with `Incomplete` otherwise, and panics on a present hash that is not
  32 bytes wide. The columns are read in the order the struct literal at lines 147-206
  names them, and the first unusable one decides the outcome (module `BatchMetadata`).
- **Header assembly.** `L1BatchHeader::from` and `MiniblockHeader::from` are total in
  Rust's types but panic on malformed rows. Every such panic is modelled as a `Fatal`
  outcome (module `Headers`).
- **Block-id resolution.** `web3_block_number_to_sql`, `web3_block_where_sql` and
  `bind_block_where_sql_params` turn a JSON-RPC block reference into an SQL condition and
  its bound parameters (module `Resolver`). The SQL is modelled as a small expression
  language evaluated over a snapshot of the `miniblocks`, `l1_batches` and `eth_txs`
  tables, with `NULL` as `None`. Separately from that SQL, the module says what each block
  reference denotes: `latest` is the highest miniblock, `finalized` is the last miniblock
  of the highest executed batch, and so on. Lemmas prove that the SQL computes exactly
  that denotation.
- **Explorer projections.** The page-item and details conversions, with their status rules
  and the operator-address fallback (module `Explorer`).
- **Miniblock-to-batch linking.** `ResolvedL1BatchForMiniblock::expected_l1_batch`
  (module `Linker`).

Rust's `as` casts are unchecked, and the model makes them wrap exactly as Rust does
(module `Primitives`):

- `i64 as u32` and `i32 as u16` keep the low bits.
- `i64 as u64` and `i32 as usize` add 2^64 to negative values.
- `u64 as i64` subtracts 2^64 from values of 2^63 and above.

Panics (`from_slice` on a slice of the wrong length, `expect`, `unwrap`) are values of
`Wrappers.Fatal`. The metadata conversion also has a third outcome, an incomplete row, so
there a panic is the `Panicked` case of `BatchMetadata.Conversion`. Both carry a
`Wrappers.PanicReason`.

## Model

| member | source | states |
|---|---|---|
| Primitives.I32AsU16 | core/lib/dal/src/models/storage_block.rs:108-109 | `as u16` keeps the value modulo 2^16 and leaves values in range unchanged |
| Primitives.I64AsU32 | core/lib/dal/src/models/storage_block.rs:103 | `as u32` keeps the value modulo 2^32 and leaves values in range unchanged |
| Primitives.I64AsU64 | core/lib/dal/src/models/storage_block.rs:149-152 | `as u64` is the identity on non-negative values and adds 2^64 to negative ones |
| Primitives.I32AsUsize | core/lib/dal/src/models/storage_block.rs:242-243 | `as usize` (64-bit) is the identity on non-negative values and adds 2^64 to negative ones |
| Primitives.U64AsI64 | core/lib/dal/src/models/storage_block.rs:320 | `as i64` agrees with its input modulo 2^64 and lands in the `i64` range, so values of 2^63 and above become negative |
| Primitives.U64I64RoundTrip | core/lib/dal/src/models/storage_block.rs:149-152 | a `u64` stored as a signed `BIGINT` reads back unchanged, and so does a signed value sent the other way |
| Primitives.UsizeAsI32 | core/lib/dal/src/models/storage_block.rs:242-243 | `as i32` on a `usize` agrees with its input modulo 2^32 and lands in the `i32` range (the inverse of the count cast, used by the page-item round trip) |
| Primitives.I32UsizeRoundTrip | core/lib/dal/src/models/storage_block.rs:242-243 | an `i32` count widened by `as usize` and narrowed back is unchanged |
| Primitives.H256FromSlice | core/lib/dal/src/models/storage_block.rs:148 | `H256::from_slice` succeeds exactly on 32-byte slices and keeps their bytes; otherwise it panics |
| Primitives.AddressFromSlice | core/lib/dal/src/models/storage_block.rs:106 | `Address::from_slice` succeeds exactly on 20-byte slices and keeps their bytes |
| Primitives.H2048FromSlice | core/lib/dal/src/models/storage_block.rs:113 | `H2048::from_slice` succeeds exactly on 256-byte slices and keeps their bytes |
| Primitives.BigDecimalToU64 | core/lib/dal/src/models/storage_block.rs:122-125 | `to_u64` is defined exactly for values in `[0, 2^64)` and returns the value itself |
| StorageRows.SystemContractsHashes | core/lib/dal/src/models/storage_block.rs:127-136 | both code hashes must be present and 32 bytes wide; the result holds them unchanged |
| StorageRows.OptionalH256 | core/lib/dal/src/models/storage_block.rs:244 | an optional hash column converts when it is null or 32 bytes wide, and keeps presence and contents |
| Headers.DecodeAll | core/lib/dal/src/models/storage_block.rs:96-100 | decoding a list succeeds exactly when every element decodes; the result has the same length, element for element; a panic is the first failing element's panic |
| Headers.L1BatchHeaderFromStorage | core/lib/dal/src/models/storage_block.rs:88-140 | the header exists exactly when no column triggers a panic, including a priority op or log that fails to decode; both lists are decoded element-wise; number, timestamp, counts and gas prices go through the `as` casts; fee address, bloom, heap contents, used contract hashes, base fee and system hashes are copied |
| Headers.WithBatchHeader | core/lib/dal/src/models/storage_block.rs:88-140 | reference inverse of the reader (the source has no writer): the row written from a header has as many list elements as the header |
| Headers.L1BatchHeaderRoundTrip | core/lib/dal/src/models/storage_block.rs:88-140 | when the element decoders invert the encoders, storing a header and reading it back yields that header |
| Headers.EncodedListsDecode | core/lib/dal/src/models/storage_block.rs:90-100 | list columns written with encoders the decoders invert decode, as whole lists, to the header's lists |
| Headers.HeaderReadBack | core/lib/dal/src/models/storage_block.rs:88-140 | a row whose lists decode to a header's lists and whose other columns hold that header's values, the numbers through the casts, converts to exactly that header |
| Headers.WrittenNumbersReadBack | core/lib/dal/src/models/storage_block.rs:103-138 | the number, timestamp, counts and gas prices written for a header come back through the conversion's `as` casts unchanged |
| Headers.MiniblockHeaderFromStorage | core/lib/dal/src/models/storage_block.rs:498-522 | the header exists exactly when the hash is 32 bytes, the base fee fits `u64` and both code hashes are present and well sized; hash and base fee are copied; number, timestamp, counts and gas prices are cast; the code hashes are copied |
| Headers.MiniblockColumns | core/lib/dal/src/models/storage_block.rs:483-496 | reference inverse of the reader (the source has no writer): the row written from a miniblock header always converts |
| Headers.MiniblockHeaderRoundTrip | core/lib/dal/src/models/storage_block.rs:498-522 | header → row → header is the identity; a convertible row whose narrowed columns are in range comes back from its header unchanged |
| BatchMetadata.MetadataFromStorage | core/lib/dal/src/models/storage_block.rs:143-209 | the `try_into` itself; it has no contract of its own, and what it yields is stated by `MetadataVerdictFollowsColumnOrder`, `MetadataAllOrNothing`, `MetadataCopiesColumns` and `MetadataRoundTrip` |
| BatchMetadata.CommitmentColumnStates | core/lib/dal/src/models/storage_block.rs:147-206 | lists one state per commitment column (fourteen in all), in the order the conversion reads them |
| BatchMetadata.NoColumnMissing | core/lib/dal/src/models/storage_block.rs:45-61 | no commitment column is missing exactly when all fourteen are non-null |
| BatchMetadata.NoColumnMalformed | core/lib/dal/src/models/storage_block.rs:45-61 | no commitment column is malformed exactly when every present hash column is 32 bytes wide |
| BatchMetadata.FirstUnusableFrom | core/lib/dal/src/models/storage_block.rs:147-206 | the first unusable column from a position on is `Usable` exactly when every column from there on is usable |
| BatchMetadata.FirstUnusableMeaning | core/lib/dal/src/models/storage_block.rs:147-206 | the column the scan finds is the first one that is not usable, and no other |
| BatchMetadata.FirstUnusableOfFourteen | core/lib/dal/src/models/storage_block.rs:147-206 | the scan over fourteen columns agrees with the column-by-column chain of `?` operators |
| BatchMetadata.MetadataStopsAtFirstUnusable | core/lib/dal/src/models/storage_block.rs:143-209 | the conversion ends the way its first unusable column dictates: `Incomplete` for a null column, a panic for a wrong-width hash |
| BatchMetadata.ReadOrderIsStructLiteral | core/lib/dal/src/models/storage_block.rs:147-191 | the columns are read in struct-literal order: a null `compressed_initial_writes` gives `Incomplete` even when `commitment`, declared earlier in the row, is a malformed hash |
| BatchMetadata.MetadataVerdictFollowsColumnOrder | core/lib/dal/src/models/storage_block.rs:143-209 | the conversion succeeds exactly when all columns are usable; it fails exactly when the first unusable column is missing, and panics exactly when that column is malformed |
| BatchMetadata.MetadataAllOrNothing | core/lib/dal/src/models/storage_block.rs:143-209 | the metadata comes out exactly when all fourteen columns are present and well sized; with well-sized hashes, `Incomplete` comes out exactly when some column is null |
| BatchMetadata.MetadataCopiesColumns | core/lib/dal/src/models/storage_block.rs:147-206 | a complete row converts to the metadata holding its columns field for field, with the leaf index cast by `as u64` |
| BatchMetadata.WithMetadata | core/lib/dal/src/models/storage_block.rs:143-209 | reference inverse of the reader (the source has no writer): writing metadata into a row fills every commitment column with a value of the right width, and keeps the batch number, logs and messages |
| BatchMetadata.MetadataRoundTrip | core/lib/dal/src/models/storage_block.rs:143-209 | stored metadata reads back unchanged, and a row converts to `m` exactly when its commitment columns already hold `m` |
| BatchMetadata.MissingRootHashAlone | core/lib/dal/src/models/storage_block.rs:148 | in an otherwise complete row, a null `hash` alone gives `Incomplete`, and setting it gives metadata carrying that root hash |
| Resolver.SqlMax | core/lib/dal/src/models/storage_block.rs:275-278 | SQL `MAX` is `NULL` exactly on no rows; otherwise it is one of the values and bounds all of them |
| Resolver.SqlMaxIsGreatest | core/lib/dal/src/models/storage_block.rs:275-278 | `MAX` equals `x` exactly when `x` is a value that bounds all the others |
| Resolver.NumbersInBatch | core/lib/dal/src/models/storage_block.rs:283-284 | the `WHERE l1_batch_number = b` subquery yields exactly the numbers of the batch's miniblocks |
| Resolver.ConfirmedBatchNumbers | core/lib/dal/src/models/storage_block.rs:285-289 | the join yields exactly the numbers of the batches whose execute transaction is confirmed |
| Resolver.FinalizedNumber | core/lib/dal/src/models/storage_block.rs:280-295 | the value of the `finalized` subquery; it has no contract of its own, and `FinalizedMeaning` states what it computes |
| Resolver.EvalNumber | core/lib/dal/src/models/storage_block.rs:270-297 | the value of each number expression over a snapshot; it has no contract of its own, and `NumberSqlMeaning` states what it computes for every block reference |
| Resolver.Selects | core/lib/dal/src/models/storage_block.rs:299-310 | whether the condition holds of a `miniblocks` row; it has no contract of its own, and `WhereAndBindAgree` states which rows it selects |
| Resolver.WebBlockNumberToSql | core/lib/dal/src/models/storage_block.rs:270-297 | a block number never produces a placeholder, and an explicit number becomes that constant |
| Resolver.WebBlockWhereSql | core/lib/dal/src/models/storage_block.rs:299-310 | the condition refers to `$argIndex` exactly for hash and explicit-number ids, and to no parameter otherwise |
| Resolver.BindBlockWhereSqlParams | core/lib/dal/src/models/storage_block.rs:312-325 | binding appends one parameter for hash and explicit-number ids and none otherwise: the hash bytes, or the number cast `as i64` |
| Resolver.EarliestIsZero | core/lib/dal/src/models/storage_block.rs:546-550 | `earliest` is the constant 0 in every snapshot |
| Resolver.LatestCommittedPending | core/lib/dal/src/models/storage_block.rs:552-577 | `latest` and `committed` build the same SQL; both it and `pending` are `NULL` exactly on an empty table, and otherwise `pending` is `latest` plus one |
| Resolver.PendingFitsBigintUnlessTop | core/lib/dal/src/models/storage_block.rs:275 | on a non-empty table, `pending` evaluates to a valid `i64` exactly when the highest miniblock is not 2^63 - 1; that one table is where PostgreSQL raises "bigint out of range" instead |
| Resolver.FinalizedMeaning | core/lib/dal/src/models/storage_block.rs:280-295 | the `finalized` subquery computes the last miniblock of the highest batch whose execution is confirmed, or 0, and nothing else |
| Resolver.FinalizedInBatchMeaning | core/lib/dal/src/models/storage_block.rs:281-293 | `COALESCE(MAX(...), 0)` over a batch's miniblocks is its highest miniblock number, or 0 when it has none |
| Resolver.FinalizedNotAboveLatest | core/lib/dal/src/models/storage_block.rs:274-295 | with non-negative miniblock numbers, the finalized number never exceeds the latest one |
| Resolver.NumberSqlMeaning | core/lib/dal/src/models/storage_block.rs:270-297 | every block number's SQL evaluates to `x` exactly when the reference denotes `x` |
| Resolver.HighestMeaning | core/lib/dal/src/models/storage_block.rs:278 | `MAX(number)` over `miniblocks` is `x` exactly when `x` is the highest miniblock number |
| Resolver.WhereAndBindAgree | core/lib/dal/src/models/storage_block.rs:299-325 | the condition together with its bound parameters selects exactly the miniblocks the id refers to |
| Resolver.PlaceholdersMatchBindings | core/lib/dal/src/models/storage_block.rs:316-324 | as many parameters are bound as the condition has placeholders |
| Explorer.PageItemStatus | core/lib/dal/src/models/storage_block.rs:235-239 | an item is `Verified` exactly when its number is at most the last verified one |
| Explorer.BlockPageItemFromStorage | core/lib/dal/src/models/storage_block.rs:231-248 | converts exactly when the optional hash is null or 32 bytes; status, hash presence and contents, and the cast numbers follow the row |
| Explorer.BlockPageItemColumns | core/lib/dal/src/models/storage_block.rs:231-248 | reference inverse of the reader (the source has no writer): the row a page item is read from, with the same optional hash |
| Explorer.BlockPageItemRecoversRow | core/lib/dal/src/models/storage_block.rs:231-248 | a convertible row whose number fits `u32` is recovered from its page item, so the item loses nothing of it; the item's status is the page-item rule applied to the row |
| Explorer.L1BatchPageItemFromStorage | core/lib/dal/src/models/storage_block.rs:250-267 | the same as the block page item, for batches, with the hash as the root hash |
| Explorer.L1BatchPageItemColumns | core/lib/dal/src/models/storage_block.rs:250-267 | reference inverse of the reader (the source has no writer): the row a batch page item is read from, with the root hash as its optional hash |
| Explorer.L1BatchPageItemRecoversRow | core/lib/dal/src/models/storage_block.rs:250-267 | a convertible row whose number fits `u32` is recovered from its batch page item; the item's status is the page-item rule applied to the row |
| Explorer.DetailsStatus | core/lib/dal/src/models/storage_block.rs:352-356 | details are `Verified` exactly for the genesis number or when an execute transaction hash is recorded |
| Explorer.ParseTxHash | core/lib/dal/src/models/storage_block.rs:365-368 | an optional hex hash converts when it is absent or parses, and keeps presence and the parsed value |
| Explorer.ToUtc | core/lib/dal/src/models/storage_block.rs:369-385 | tagging an optional database time as UTC keeps its presence and its value |
| Explorer.FromUtc | core/lib/dal/src/models/storage_block.rs:369-371 | reference inverse of the relabelling (the source has none): tagging its result as UTC gives back the UTC time, so relabelling loses nothing |
| Explorer.ParseEthTxInfo | core/lib/dal/src/models/storage_block.rs:365-385 | the commit, prove and execute hashes convert exactly when each present one parses; each result holds the parsed hash when the string is present and nothing otherwise, and each time is the row's time tagged as UTC |
| Explorer.OperatorAddress | core/lib/dal/src/models/storage_block.rs:399-402 | the fee account is used when it is present and 20 bytes wide, and the current operator when it is null |
| Explorer.IntoBlockDetails | core/lib/dal/src/models/storage_block.rs:350-405 | converts exactly when no column triggers a panic; status, operator fallback, root-hash presence and contents, parsed tx hashes and times, code hashes, and the cast number, batch number, timestamp, counts and gas prices follow the row |
| Explorer.OperatorFallbackOnlyWhenUnset | core/lib/dal/src/models/storage_block.rs:399-402 | the current operator influences the result exactly when the fee account is null |
| Explorer.L1BatchDetailsFromStorage | core/lib/dal/src/models/storage_block.rs:426-481 | converts exactly when no column triggers a panic; status, root-hash presence and contents, parsed tx hashes and times, code hashes, and the cast number, timestamp, counts and gas prices follow the row |
| Explorer.L1BatchDetailsColumns | core/lib/dal/src/models/storage_block.rs:426-481 | reference inverse of the reader (the source has no writer): the row batch details are read from, hashes printed by a formatter, code hashes present, execute hash present exactly when the details have one |
| Explorer.L1BatchDetailsRecoverRow | core/lib/dal/src/models/storage_block.rs:426-481 | a convertible row whose number fits `u32`, and whose hash strings the formatter prints back as stored, is recovered from its details, so the details lose nothing of it |
| Linker.ExpectedL1Batch | core/lib/dal/src/models/storage_block.rs:537-539 | the expected batch is the explicit one when set and the pending one otherwise |
| Linker.SealPending | core/lib/dal/src/models/storage_block.rs:527-531 | reference transition (the source has no sealing operation; the field documentation describes it): sealing attaches an unattached miniblock explicitly, and its expected batch does not change |
| Linker.ExplicitBatchIgnoresPending | core/lib/dal/src/models/storage_block.rs:537-539 | once the explicit batch is set, the pending batch no longer matters |
| Linker.SealingKeepsExpectedBatch | core/lib/dal/src/models/storage_block.rs:535-539 | the batch expected before sealing is the one the miniblock ends up in, however the pending batch moves on afterwards |

## Left out

- Database access (`sqlx` row decoding, query execution, `Query::bind`) is not modelled. Rows are values, SQL is a small expression datatype, and bound parameters form a sequence.
- Only the decode outcome of the JSON columns (`initial_bootloader_heap_content`, `used_contract_hashes`) is modelled. A column that `serde_json` cannot decode is `None`.
- `BigDecimal` is an integer. Fractional values, which `to_u64` truncates, are not represented.
- `H256::from_str` is the parameter `parseH256`. `PriorityOpOnchainData::from` is the parameter `decodeOp`, and `L2ToL1Log::from_slice` is `decodeLog`. Both may panic. Their internals belong to other crates.
- `DateTime::<Utc>::from_utc` only relabels the time zone, so the model carries the timestamp over unchanged.
- `usize` is taken to be 64 bits wide.
- Several row columns are never read by the conversions, so they are not part of the rows: `created_at`, `updated_at`, `parent_hash`, `compressed_write_logs`, `compressed_contracts`, the `eth_*_tx_id` columns except `eth_execute_tx_id` (which the `finalized` subquery joins on), the predicted gas costs, `gas_per_pubdata_*` and `skip_proof`.
- A placeholder with no bound parameter evaluates to `NULL`. In PostgreSQL it is an error.
- `core/bin/enumeration_indices_migration/src/main.rs` is not part of this model. It only initialises logging, opens a database connection pool and calls `set_missing_initial_writes_indices` of another crate, which is pure I/O. `core/lib/multivm/src/glue/types/vm/mod.rs` is not part of this model either; it only declares modules.
- Resolver.EvalNumber: `MAX(number) + 1` is computed without a bound. PostgreSQL raises "bigint out of range" when the highest miniblock is 2^63 - 1; the model yields 2^63 there. So Resolver.LatestCommittedPending states a `pending` value on every non-empty table, including that one. Resolver.PendingFitsBigintUnlessTop pins the single table where the two differ.
- Resolver.WhereAndBindAgree: requires a non-negative row number. An explicit block number of 2^63 or more is bound as a negative `i64`, so it would select a row stored with that negative number, which the node never writes.
- Resolver.FinalizedNotAboveLatest: requires non-negative miniblock numbers and a non-empty table. With no miniblocks, `latest` is `NULL` while `finalized` is 0.
- Headers.MiniblockHeaderFromStorage: the contract does not say which of several malformed columns provides the panic message.
