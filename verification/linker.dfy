/** Miniblock-to-batch linking: `ResolvedL1BatchForMiniblock::expected_l1_batch`.

    A miniblock is explicitly attached to its L1 batch only once that batch is sealed;
    until then it will end up in the batch that is currently pending.
 */
module Linker {
  import opened Wrappers
  import opened Primitives

  datatype ResolvedL1BatchForMiniblock = ResolvedL1BatchForMiniblock(
    miniblockL1Batch: Option<uint32>,  // None while the miniblock's batch is not sealed
    pendingL1Batch: uint32
  )

  /** The batch the miniblock has now or will have: the explicit one if set, else the pending one. */
  function ExpectedL1Batch(r: ResolvedL1BatchForMiniblock): (b: uint32)
    ensures r.miniblockL1Batch.Some? ==> b == r.miniblockL1Batch.value
    ensures r.miniblockL1Batch.None? ==> b == r.pendingL1Batch
  {
    r.miniblockL1Batch.UnwrapOr(r.pendingL1Batch)
  }

  /** Sealing the pending batch attaches the miniblock to it explicitly, as the field
      documentation describes; the source has no such operation, this is the transition the
      resolution is stated against. */
  function SealPending(r: ResolvedL1BatchForMiniblock, nextPending: uint32): (s: ResolvedL1BatchForMiniblock)
    requires r.miniblockL1Batch.None?
    ensures s.miniblockL1Batch.Some?
    ensures ExpectedL1Batch(s) == ExpectedL1Batch(r)
    ensures s.pendingL1Batch == nextPending
  {
    ResolvedL1BatchForMiniblock(Some(r.pendingL1Batch), nextPending)
  }

  /** Once the explicit batch is set, the pending batch no longer matters. */
  lemma ExplicitBatchIgnoresPending(r: ResolvedL1BatchForMiniblock, otherPending: uint32)
    requires r.miniblockL1Batch.Some?
    ensures ExpectedL1Batch(r) == ExpectedL1Batch(r.(pendingL1Batch := otherPending))
  {
  }

  /** The expected batch of an unattached miniblock is what sealing attaches it to, and it
      stays so however the pending batch moves on afterwards. */
  lemma SealingKeepsExpectedBatch(r: ResolvedL1BatchForMiniblock, nextPending: uint32, later: uint32)
    requires r.miniblockL1Batch.None?
    ensures ExpectedL1Batch(SealPending(r, nextPending)) == ExpectedL1Batch(r)
    ensures ExpectedL1Batch(SealPending(r, nextPending).(pendingL1Batch := later)) == ExpectedL1Batch(r)
  {
  }
}
