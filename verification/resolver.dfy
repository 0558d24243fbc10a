/** Block reference resolver: `web3_block_number_to_sql`, `web3_block_where_sql` and
    `bind_block_where_sql_params`.

    The SQL text the source builds is modelled by descriptors (`NumberSql`, `WhereSql`), and
    the positional parameters bound to the query by a list of `SqlParam`s. The meaning of a
    descriptor is given by `EvalNumber` / `Selects` over a `Snapshot` of the three tables the
    SQL reads: `miniblocks`, `l1_batches` and `eth_txs`. SQL `NULL` is `None`.
 */
module Resolver {
  import opened Wrappers
  import opened Primitives

  // ---------------------------------------------------------------------------------------
  // Block references (`api::BlockNumber`, `api::BlockId`)

  datatype BlockNumber = Number(value: uint64) | Earliest | Latest | Committed | Finalized | Pending

  datatype BlockId = ByHash(hash: H256) | ByNumber(number: BlockNumber)

  // ---------------------------------------------------------------------------------------
  // The persisted state the SQL is evaluated against

  datatype MiniblockRow = MiniblockRow(number: int64, hash: seq<byte>, l1BatchNumber: Option<int64>)

  datatype L1BatchRow = L1BatchRow(number: int64, ethExecuteTxId: Option<int32>)

  datatype EthTxRow = EthTxRow(id: int32, confirmedEthTxHistoryId: Option<int32>)

  datatype Snapshot = Snapshot(miniblocks: seq<MiniblockRow>, l1Batches: seq<L1BatchRow>, ethTxs: seq<EthTxRow>)

  /** Miniblock numbers are never negative in a state the node produces. */
  predicate NonNegativeNumbers(s: Snapshot) {
    forall i :: 0 <= i < |s.miniblocks| ==> s.miniblocks[i].number >= 0
  }

  /** SQL's `MAX` aggregate: `NULL` over no rows. */
  function SqlMax(xs: seq<int>): (r: Option<int>)
    ensures r.None? <==> |xs| == 0
    ensures r.Some? ==> r.value in xs
    ensures r.Some? ==> forall i :: 0 <= i < |xs| ==> xs[i] <= r.value
  {
    if |xs| == 0 then None
    else
      match SqlMax(xs[1..])
      case None => Some(xs[0])
      case Some(m) => Some(if xs[0] < m then m else xs[0])
  }

  /** `SqlMax` is the greatest element, so it is determined by any element bounding the rest. */
  lemma SqlMaxIsGreatest(xs: seq<int>, x: int)
    ensures SqlMax(xs) == Some(x) <==> x in xs && forall i :: 0 <= i < |xs| ==> xs[i] <= x
  {
    if x in xs && forall i :: 0 <= i < |xs| ==> xs[i] <= x {
      var i :| 0 <= i < |xs| && xs[i] == x;
      assert SqlMax(xs).value <= x;
    }
  }

  /** The `number` column of `miniblocks`. */
  function MiniblockNumbers(rows: seq<MiniblockRow>): seq<int> {
    seq(|rows|, i requires 0 <= i < |rows| => rows[i].number)
  }

  /** `SELECT number FROM miniblocks WHERE l1_batch_number = batch` */
  function NumbersInBatch(rows: seq<MiniblockRow>, batch: int): (r: seq<int>)
    ensures forall x :: x in r <==> exists i :: 0 <= i < |rows| && InBatch(rows[i], batch) && rows[i].number == x
  {
    if |rows| == 0 then []
    else
      var rest := NumbersInBatch(rows[1..], batch);
      assert forall i :: 1 <= i < |rows| ==> rows[i] == rows[1..][i - 1];
      if InBatch(rows[0], batch) then [rows[0].number] + rest else rest
  }

  predicate InBatch(row: MiniblockRow, batch: int) {
    row.l1BatchNumber.Some? && row.l1BatchNumber.value == batch
  }

  /** The batch's execute transaction joins an `eth_txs` row whose confirmation is recorded. */
  predicate ExecuteConfirmed(batch: L1BatchRow, txs: seq<EthTxRow>) {
    batch.ethExecuteTxId.Some? &&
    exists j :: 0 <= j < |txs| && txs[j].id == batch.ethExecuteTxId.value && txs[j].confirmedEthTxHistoryId.Some?
  }

  /** `SELECT number FROM l1_batches JOIN eth_txs ON l1_batches.eth_execute_tx_id = eth_txs.id
      WHERE eth_txs.confirmed_eth_tx_history_id IS NOT NULL` */
  function ConfirmedBatchNumbers(batches: seq<L1BatchRow>, txs: seq<EthTxRow>): (r: seq<int>)
    ensures forall x :: x in r <==> exists i :: 0 <= i < |batches| && ExecuteConfirmed(batches[i], txs) && batches[i].number == x
  {
    if |batches| == 0 then []
    else
      var rest := ConfirmedBatchNumbers(batches[1..], txs);
      assert forall i :: 1 <= i < |batches| ==> batches[i] == batches[1..][i - 1];
      if ExecuteConfirmed(batches[0], txs) then [batches[0].number] + rest else rest
  }

  // ---------------------------------------------------------------------------------------
  // Descriptors of the SQL the resolver builds, and their meaning

  /** A number-valued SQL expression. */
  datatype NumberSql =
    | Const(n: int)           // a decimal literal
    | MaxMiniblock            // (SELECT MAX(number) as number FROM miniblocks)
    | MaxMiniblockPlusOne     // (SELECT (MAX(number) + 1) as number FROM miniblocks)
    | FinalizedMiniblock      // (SELECT COALESCE((SELECT MAX(number) FROM miniblocks WHERE l1_batch_number = (...)), 0) as number)
    | Placeholder(index: byte) // $index

  /** A `WHERE` condition on `miniblocks`. */
  datatype WhereSql =
    | HashEquals(index: byte)    // miniblocks.hash = $index
    | NumberEquals(rhs: NumberSql) // miniblocks.number = rhs

  /** A positional parameter bound to a query. */
  datatype SqlParam = BytesParam(bytes: seq<byte>) | Int64Param(value: int64)

  /** The `finalized` subquery: the highest miniblock of the highest batch whose execute
      transaction is confirmed, or 0 when there is no such batch or it has no miniblocks. */
  function FinalizedNumber(s: Snapshot): int {
    match SqlMax(ConfirmedBatchNumbers(s.l1Batches, s.ethTxs))
    case None => 0  // `l1_batch_number = NULL` holds for no row, so the inner MAX is NULL too
    case Some(batch) => SqlMax(NumbersInBatch(s.miniblocks, batch)).UnwrapOr(0)
  }

  /** The value of a number expression; `$i` is the `i`-th bound parameter (counting from 1). */
  function EvalNumber(e: NumberSql, s: Snapshot, params: seq<SqlParam>): Option<int> {
    match e
    case Const(n) => Some(n)
    case MaxMiniblock => SqlMax(MiniblockNumbers(s.miniblocks))
    case MaxMiniblockPlusOne =>
      (match SqlMax(MiniblockNumbers(s.miniblocks))
       case None => None
       case Some(m) => Some(m + 1))
    case FinalizedMiniblock => Some(FinalizedNumber(s))
    case Placeholder(i) =>
      if 1 <= i <= |params| && params[i - 1].Int64Param? then Some(params[i - 1].value) else None
  }

  /** Whether the condition holds of a `miniblocks` row; a comparison with `NULL` never does. */
  predicate Selects(w: WhereSql, s: Snapshot, params: seq<SqlParam>, row: MiniblockRow) {
    match w
    case HashEquals(i) => 1 <= i <= |params| && params[i - 1].BytesParam? && params[i - 1].bytes == row.hash
    case NumberEquals(rhs) => EvalNumber(rhs, s, params) == Some(row.number)
  }

  /** The positional parameters a condition refers to. */
  function Placeholders(w: WhereSql): set<int> {
    match w
    case HashEquals(i) => {i}
    case NumberEquals(Placeholder(i)) => {i}
    case NumberEquals(_) => {}
  }

  // ---------------------------------------------------------------------------------------
  // What the references mean, stated without SQL

  /** `x` is the highest miniblock number in the snapshot. */
  ghost predicate IsHighest(s: Snapshot, x: int) {
    (exists i :: 0 <= i < |s.miniblocks| && s.miniblocks[i].number == x) &&
    forall i :: 0 <= i < |s.miniblocks| ==> s.miniblocks[i].number <= x
  }

  /** `b` is a batch whose execute transaction is confirmed on L1. */
  ghost predicate IsExecuted(s: Snapshot, b: int) {
    exists i :: 0 <= i < |s.l1Batches| && s.l1Batches[i].number == b && ExecuteConfirmed(s.l1Batches[i], s.ethTxs)
  }

  /** `x` is the finalized miniblock number: with `b` the highest executed batch, the highest
      miniblock of `b`, or 0 when no batch is executed or `b` has no miniblocks. */
  ghost predicate IsFinalized(s: Snapshot, x: int) {
    if !exists b :: IsExecuted(s, b) then x == 0
    else exists b :: IsExecuted(s, b) && (forall c :: IsExecuted(s, c) ==> c <= b) && FinalizedInBatch(s, b, x)
  }

  ghost predicate FinalizedInBatch(s: Snapshot, b: int, x: int) {
    if !exists i :: 0 <= i < |s.miniblocks| && InBatch(s.miniblocks[i], b) then x == 0
    else
      (exists i :: 0 <= i < |s.miniblocks| && InBatch(s.miniblocks[i], b) && s.miniblocks[i].number == x) &&
      forall i :: 0 <= i < |s.miniblocks| && InBatch(s.miniblocks[i], b) ==> s.miniblocks[i].number <= x
  }

  /** The miniblock number `x` a block reference stands for in snapshot `s`. */
  ghost predicate Denotes(n: BlockNumber, s: Snapshot, x: int) {
    match n
    case Number(v) => x == v
    case Earliest => x == 0
    case Latest => IsHighest(s, x)
    case Committed => IsHighest(s, x)
    case Pending => IsHighest(s, x - 1)
    case Finalized => IsFinalized(s, x)
  }

  /** The miniblocks a block id picks out. */
  ghost predicate RefersTo(id: BlockId, s: Snapshot, row: MiniblockRow) {
    match id
    case ByHash(h) => row.hash == h
    case ByNumber(n) => Denotes(n, s, row.number)
  }

  /** Hash and exact-number ids are compared with a bound parameter; the symbolic tags are
      inlined as subqueries. */
  predicate IsParameterized(id: BlockId) {
    id.ByHash? || id.number.Number?
  }

  // ---------------------------------------------------------------------------------------
  // The operations

  /** `web3_block_number_to_sql` */
  function WebBlockNumberToSql(n: BlockNumber): (e: NumberSql)
    ensures !e.Placeholder?
    ensures n.Number? ==> e == Const(n.value)
  {
    match n
    case Number(v) => Const(v)
    case Earliest => Const(0)
    case Pending => MaxMiniblockPlusOne
    case Latest => MaxMiniblock
    case Committed => MaxMiniblock
    case Finalized => FinalizedMiniblock
  }

  /** `web3_block_where_sql` */
  function WebBlockWhereSql(id: BlockId, argIndex: byte): (w: WhereSql)
    ensures Placeholders(w) == if IsParameterized(id) then {argIndex as int} else {}
  {
    match id
    case ByHash(_) => HashEquals(argIndex)
    case ByNumber(Number(_)) => NumberEquals(Placeholder(argIndex))
    case ByNumber(n) => NumberEquals(WebBlockNumberToSql(n))
  }

  /** `bind_block_where_sql_params`: appends the parameter the condition refers to, if any. */
  function BindBlockWhereSqlParams(id: BlockId, params: seq<SqlParam>): (ps: seq<SqlParam>)
    ensures |ps| == |params| + (if IsParameterized(id) then 1 else 0)
    ensures ps[..|params|] == params
    ensures id.ByHash? ==> ps[|params|] == BytesParam(id.hash)
    ensures id.ByNumber? && id.number.Number? ==> ps[|params|] == Int64Param(U64AsI64(id.number.value))
  {
    match id
    case ByHash(h) => params + [BytesParam(h)]
    case ByNumber(Number(v)) => params + [Int64Param(U64AsI64(v))]
    case ByNumber(_) => params
  }

  // ---------------------------------------------------------------------------------------
  // Properties

  /** `earliest` is the constant 0 whatever the chain holds. */
  lemma EarliestIsZero(s: Snapshot, params: seq<SqlParam>)
    ensures WebBlockNumberToSql(Earliest) == Const(0)
    ensures EvalNumber(WebBlockNumberToSql(Earliest), s, params) == Some(0)
  {
  }

  /** `latest` and `committed` build the same SQL, and `pending` is one past `latest`. */
  lemma LatestCommittedPending(s: Snapshot, params: seq<SqlParam>)
    ensures WebBlockNumberToSql(Latest) == WebBlockNumberToSql(Committed)
    ensures EvalNumber(WebBlockNumberToSql(Pending), s, params).Some? <==> |s.miniblocks| > 0
    ensures EvalNumber(WebBlockNumberToSql(Latest), s, params).Some? <==> |s.miniblocks| > 0
    ensures |s.miniblocks| > 0 ==>
              EvalNumber(WebBlockNumberToSql(Pending), s, params).value == EvalNumber(WebBlockNumberToSql(Latest), s, params).value + 1
  {
  }

  /** Where the unbounded `MAX(number) + 1` leaves `BIGINT`: `pending` is a valid `i64`
      exactly when the highest miniblock is not 2^63 - 1, the one table on which PostgreSQL
      raises "bigint out of range" instead. */
  lemma PendingFitsBigintUnlessTop(s: Snapshot, params: seq<SqlParam>)
    requires |s.miniblocks| > 0
    ensures EvalNumber(WebBlockNumberToSql(Pending), s, params).Some?
    ensures EvalNumber(WebBlockNumberToSql(Pending), s, params).value < TWO_63 <==> !IsHighest(s, TWO_63 - 1)
  {
    var m := SqlMax(MiniblockNumbers(s.miniblocks)).value;
    HighestMeaning(s, m);
    HighestMeaning(s, TWO_63 - 1);
  }

  /** The `finalized` subquery computes the number `IsFinalized` describes, and no other. */
  lemma {:induction false} FinalizedMeaning(s: Snapshot, x: int)
    ensures FinalizedNumber(s) == x <==> IsFinalized(s, x)
  {
    var confirmed := ConfirmedBatchNumbers(s.l1Batches, s.ethTxs);
    assert forall b :: IsExecuted(s, b) <==> b in confirmed;
    match SqlMax(confirmed)
    case None =>
      assert !exists b :: IsExecuted(s, b);
    case Some(b) =>
      assert IsExecuted(s, b);
      assert forall c :: IsExecuted(s, c) ==> c <= b by {
        forall c | IsExecuted(s, c) ensures c <= b {
          var k :| 0 <= k < |confirmed| && confirmed[k] == c;
        }
      }
      var inBatch := NumbersInBatch(s.miniblocks, b);
      FinalizedInBatchMeaning(s, b, x);
      if IsFinalized(s, x) {
        var b' :| IsExecuted(s, b') && (forall c :: IsExecuted(s, c) ==> c <= b') && FinalizedInBatch(s, b', x);
        assert b' == b;
      }
  }

  lemma FinalizedInBatchMeaning(s: Snapshot, b: int, x: int)
    ensures SqlMax(NumbersInBatch(s.miniblocks, b)).UnwrapOr(0) == x <==> FinalizedInBatch(s, b, x)
  {
    var inBatch := NumbersInBatch(s.miniblocks, b);
    if |inBatch| == 0 {
      assert !exists i :: 0 <= i < |s.miniblocks| && InBatch(s.miniblocks[i], b) && s.miniblocks[i].number in inBatch;
    } else {
      assert inBatch[0] in inBatch;
      SqlMaxIsGreatest(inBatch, x);
      assert (forall i :: 0 <= i < |inBatch| ==> inBatch[i] <= x) <==>
             (forall i :: 0 <= i < |s.miniblocks| && InBatch(s.miniblocks[i], b) ==> s.miniblocks[i].number <= x) by {
        if forall i :: 0 <= i < |inBatch| ==> inBatch[i] <= x {
          forall i | 0 <= i < |s.miniblocks| && InBatch(s.miniblocks[i], b) ensures s.miniblocks[i].number <= x {
            assert s.miniblocks[i].number in inBatch;
          }
        }
        if forall i :: 0 <= i < |s.miniblocks| && InBatch(s.miniblocks[i], b) ==> s.miniblocks[i].number <= x {
          forall i | 0 <= i < |inBatch| ensures inBatch[i] <= x {
            assert inBatch[i] in inBatch;
          }
        }
      }
    }
  }

  /** The finalized miniblock is never above the latest one. */
  lemma FinalizedNotAboveLatest(s: Snapshot, params: seq<SqlParam>)
    requires NonNegativeNumbers(s) && |s.miniblocks| > 0
    ensures EvalNumber(WebBlockNumberToSql(Finalized), s, params).value <= EvalNumber(WebBlockNumberToSql(Latest), s, params).value
  {
    var numbers := MiniblockNumbers(s.miniblocks);
    var latest := SqlMax(numbers).value;
    assert numbers[0] >= 0;
    FinalizedMeaning(s, FinalizedNumber(s));
    var x := FinalizedNumber(s);
    if x != 0 {
      assert exists i :: 0 <= i < |s.miniblocks| && s.miniblocks[i].number == x;
      var i :| 0 <= i < |s.miniblocks| && s.miniblocks[i].number == x;
      assert numbers[i] == x;
    }
  }

  /** Every symbolic or exact block number resolves to the number it stands for. */
  lemma {:induction false} NumberSqlMeaning(n: BlockNumber, s: Snapshot, params: seq<SqlParam>, x: int)
    ensures EvalNumber(WebBlockNumberToSql(n), s, params) == Some(x) <==> Denotes(n, s, x)
  {
    var numbers := MiniblockNumbers(s.miniblocks);
    match n
    case Latest => HighestMeaning(s, x);
    case Committed => HighestMeaning(s, x);
    case Pending => HighestMeaning(s, x - 1);
    case Finalized => FinalizedMeaning(s, x);
    case _ =>
  }

  lemma HighestMeaning(s: Snapshot, x: int)
    ensures SqlMax(MiniblockNumbers(s.miniblocks)) == Some(x) <==> IsHighest(s, x)
  {
    var numbers := MiniblockNumbers(s.miniblocks);
    assert |numbers| == |s.miniblocks| && forall i :: 0 <= i < |numbers| ==> numbers[i] == s.miniblocks[i].number;
    SqlMaxIsGreatest(numbers, x);
    if IsHighest(s, x) {
      var i :| 0 <= i < |s.miniblocks| && s.miniblocks[i].number == x;
      assert numbers[i] == x;
    }
  }

  /** The condition and the parameters bound for it agree: when the caller has bound
      `argIndex - 1` parameters before, the condition built at `argIndex` together with the
      parameters bound for the id selects exactly the miniblocks the id refers to. */
  lemma WhereAndBindAgree(id: BlockId, s: Snapshot, params: seq<SqlParam>, row: MiniblockRow, argIndex: byte)
    requires argIndex == |params| + 1
    requires row.number >= 0
    ensures Selects(WebBlockWhereSql(id, argIndex), s, BindBlockWhereSqlParams(id, params), row) <==> RefersTo(id, s, row)
  {
    match id
    case ByHash(_) =>
    case ByNumber(n) =>
      if !n.Number? {
        NumberSqlMeaning(n, s, BindBlockWhereSqlParams(id, params), row.number);
      }
  }

  /** Placeholders and bound parameters match in number: one of each for hash and exact
      number ids, none for the symbolic tags. */
  lemma PlaceholdersMatchBindings(id: BlockId, params: seq<SqlParam>, argIndex: byte)
    ensures |Placeholders(WebBlockWhereSql(id, argIndex))| == |BindBlockWhereSqlParams(id, params)| - |params|
  {
  }
}
