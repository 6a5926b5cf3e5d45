/** The IR builder `B` the emitters drive.  Its instruction set belongs to a
    library this model does not see, so the builder is an append-only log of
    opaque instructions, each tagged with the basic block it was inserted into,
    together with the number of blocks created so far and the insertion block. */
module SILBuilder {
  import opened SIL

  class Builder {
    var log: seq<Entry>
    var blockCount: nat
    var insertion: nat

    /** The insertion block exists, and the log never mentions a block, either
        as the home of an instruction or as a branch target, before it exists. */
    ghost predicate Valid()
      reads this
    {
      insertion < blockCount && WithinBlocks(log, blockCount)
    }

    /** A fresh function body: one entry block, the insertion point, and nothing in it. */
    constructor ()
      ensures Valid() && log == [] && blockCount == 1 && insertion == 0
    {
      log, blockCount, insertion := [], 1, 0;
    }

    /** `createBasicBlock`: a new, empty block; the insertion point stays put. */
    method CreateBasicBlock() returns (bb: nat)
      requires Valid()
      modifies this
      ensures Valid() && bb == old(blockCount) && blockCount == old(blockCount) + 1
      ensures log == old(log) && insertion == old(insertion)
    {
      bb := blockCount;
      blockCount := blockCount + 1;
    }

    /** `B.createX(...)`: append one instruction at the insertion point. */
    method Emit(i: Inst)
      requires Valid()
      requires forall t :: t in Successors(i) ==> t < blockCount
      modifies this
      ensures Valid() && log == old(log) + At(old(insertion), [i])
      ensures blockCount == old(blockCount) && insertion == old(insertion)
    {
      log := log + [Entry(insertion, i)];
    }

    /** An instruction created through a second builder positioned in block `bb`
        (the per-case builders of enum member destruction). */
    method EmitInto(bb: nat, i: Inst)
      requires Valid() && bb < blockCount
      requires forall t :: t in Successors(i) ==> t < blockCount
      modifies this
      ensures Valid() && log == old(log) + At(bb, [i])
      ensures blockCount == old(blockCount) && insertion == old(insertion)
    {
      log := log + [Entry(bb, i)];
    }

    /** `setInsertionPoint(bb)` and `emitBlock(bb)`: later instructions go to `bb`.
        (Block layout, which `emitBlock` also adjusts, is not modelled.) */
    method SetInsertionPoint(bb: nat)
      requires Valid() && bb < blockCount
      modifies this
      ensures Valid() && insertion == bb
      ensures log == old(log) && blockCount == old(blockCount)
    {
      insertion := bb;
    }
  }
}
