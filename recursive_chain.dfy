/** Recursive-chain destruction: when a class has a single stored property of
    type `Optional<Self>`, the members' destructor walks the chain of nodes in a
    loop instead of letting each node's deinit release the next one, which would
    recurse as deep as the chain is long. */
module RecursiveChain {
  import opened SIL
  import opened SILBuilder

  /** The six blocks, in the order they are created. */
  datatype ChainBlocks = ChainBlocks(clean: nat, none: nat, notUnique: nat, unique: nat, some: nat, loop: nat)

  function BlocksFrom(base: nat): ChainBlocks {
    ChainBlocks(base, base + 1, base + 2, base + 3, base + 4, base + 5)
  }

  /** `var iter = self.link; self.link = nil`, then the jump into the loop:
      the link is taken out of self and overwritten with `none` within one
      modify access, and moved into the iterator's stack slot. */
  function PrologueOps(link: nat, k: ChainBlocks): seq<Inst> {
    [OptionalNone, RefElementAddr(SelfField(link)), AllocStack(IterSlot)]
    + Scoped(Modify, SelfField(link), [Load(SelfField(link), Take), Store(SelfField(link), Init, NoneLink)])
    + [Store(IterSlot, Init, TakenLink), Branch(k.loop)]
  }

  /** `while iter != nil`: switch on the optional held by the iterator slot. */
  function LoopOps(k: ChainBlocks): seq<Inst> {
    [SwitchOptionalAddr(IterSlot, k.some, k.none)]
  }

  /** `if isKnownUniquelyReferenced(&iter)`. */
  function SomeOps(k: ChainBlocks): seq<Inst> {
    [IsUnique(IterSlot), CondBranch(k.unique, k.notUnique)]
  }

  /** `iter = iter.unsafelyUnwrapped.next`: the next link is copied, not taken,
      under a read access, so that it outlives the release of the current node
      that the assignment to the iterator performs. */
  function UniqueOps(link: nat, k: ChainBlocks): seq<Inst> {
    [LoadBorrow(IterSlot), UncheckedEnumData, RefElementAddr(NextLink(link))]
    + Scoped(Read, NextLink(link), [Load(NextLink(link), Copy)])
    + [EndBorrow(IterBorrow), Store(IterSlot, Assign, CopiedLink), Branch(k.loop)]
  }

  function ExitOps(k: ChainBlocks): seq<Inst> {
    [Branch(k.clean)]
  }

  /** The iterator is destroyed and its slot deallocated; emission continues in
      this block. */
  function CleanOps(): seq<Inst> {
    [DestroyAddr(IterSlot), DeallocStack(IterSlot)]
  }

  /** What the chain destruction appends to the log, given the insertion block
      and the number of blocks that existed before. */
  function ChainEntries(link: nat, ins: nat, base: nat): seq<Entry> {
    var k := BlocksFrom(base);
    At(ins, PrologueOps(link, k)) + HeadEntries(k) + At(k.unique, UniqueOps(link, k)) + TailEntries(k)
  }

  function HeadEntries(k: ChainBlocks): seq<Entry> {
    At(k.loop, LoopOps(k)) + At(k.some, SomeOps(k))
  }

  function TailEntries(k: ChainBlocks): seq<Entry> {
    At(k.notUnique, ExitOps(k)) + At(k.none, ExitOps(k)) + At(k.clean, CleanOps())
  }

  method EmitChainPrologue(b: Builder, link: nat, k: ChainBlocks)
    requires b.Valid() && k.loop < b.blockCount
    modifies b
    ensures b.Valid() && b.blockCount == old(b.blockCount) && b.insertion == old(b.insertion)
    ensures b.log == old(b.log) + At(old(b.insertion), PrologueOps(link, k))
  {
    b.Emit(OptionalNone);
    b.Emit(RefElementAddr(SelfField(link)));
    b.Emit(AllocStack(IterSlot));
    b.Emit(BeginAccess(Modify, SelfField(link)));
    b.Emit(Load(SelfField(link), Take));
    b.Emit(Store(SelfField(link), Init, NoneLink));
    b.Emit(EndAccess(SelfField(link)));
    b.Emit(Store(IterSlot, Init, TakenLink));
    b.Emit(Branch(k.loop));
    assert PrologueOps(link, k) == [OptionalNone, RefElementAddr(SelfField(link)), AllocStack(IterSlot),
      BeginAccess(Modify, SelfField(link)), Load(SelfField(link), Take), Store(SelfField(link), Init, NoneLink),
      EndAccess(SelfField(link)), Store(IterSlot, Init, TakenLink), Branch(k.loop)];
  }

  method EmitChainUnique(b: Builder, link: nat, k: ChainBlocks)
    requires b.Valid() && k.loop < b.blockCount
    modifies b
    ensures b.Valid() && b.blockCount == old(b.blockCount) && b.insertion == old(b.insertion)
    ensures b.log == old(b.log) + At(old(b.insertion), UniqueOps(link, k))
  {
    b.Emit(LoadBorrow(IterSlot));
    b.Emit(UncheckedEnumData);
    b.Emit(RefElementAddr(NextLink(link)));
    b.Emit(BeginAccess(Read, NextLink(link)));
    b.Emit(Load(NextLink(link), Copy));
    b.Emit(EndAccess(NextLink(link)));
    b.Emit(EndBorrow(IterBorrow));
    b.Emit(Store(IterSlot, Assign, CopiedLink));
    b.Emit(Branch(k.loop));
    assert UniqueOps(link, k) == [LoadBorrow(IterSlot), UncheckedEnumData, RefElementAddr(NextLink(link)),
      BeginAccess(Read, NextLink(link)), Load(NextLink(link), Copy), EndAccess(NextLink(link)),
      EndBorrow(IterBorrow), Store(IterSlot, Assign, CopiedLink), Branch(k.loop)];
  }

  /** One of the blocks after the prologue: move the insertion point to it and
      emit its instructions. */
  method EmitLoopHead(b: Builder, k: ChainBlocks)
    requires b.Valid() && k.loop < b.blockCount && k.some < b.blockCount && k.none < b.blockCount
    requires k.unique < b.blockCount && k.notUnique < b.blockCount
    modifies b
    ensures b.Valid() && b.blockCount == old(b.blockCount) && b.insertion == k.some
    ensures b.log == old(b.log) + HeadEntries(k)
  {
    b.SetInsertionPoint(k.loop);
    b.Emit(SwitchOptionalAddr(IterSlot, k.some, k.none));
    ghost var log1 := b.log;
    b.SetInsertionPoint(k.some);
    b.Emit(IsUnique(IterSlot));
    b.Emit(CondBranch(k.unique, k.notUnique));
    assert b.log == log1 + At(k.some, SomeOps(k));
    assert b.log == old(b.log) + HeadEntries(k);
  }

  method EmitChainExits(b: Builder, k: ChainBlocks)
    requires b.Valid() && k.notUnique < b.blockCount && k.none < b.blockCount && k.clean < b.blockCount
    modifies b
    ensures b.Valid() && b.blockCount == old(b.blockCount) && b.insertion == k.clean
    ensures b.log == old(b.log) + TailEntries(k)
  {
    b.SetInsertionPoint(k.notUnique);
    b.Emit(Branch(k.clean));
    b.SetInsertionPoint(k.none);
    b.Emit(Branch(k.clean));
    ghost var log2 := b.log;
    b.SetInsertionPoint(k.clean);
    b.Emit(DestroyAddr(IterSlot));
    b.Emit(DeallocStack(IterSlot));
    assert b.log == log2 + At(k.clean, CleanOps());
    assert b.log == old(b.log) + TailEntries(k);
  }

  /** `emitRecursiveChainDestruction`: six new blocks; the prologue goes to
      the current insertion block, and emission resumes in the clean block. */
  method EmitRecursiveChainDestruction(b: Builder, link: nat)
    requires b.Valid()
    modifies b
    ensures b.Valid() && b.blockCount == old(b.blockCount) + 6
    ensures b.insertion == BlocksFrom(old(b.blockCount)).clean
    ensures b.log == old(b.log) + ChainEntries(link, old(b.insertion), old(b.blockCount))
  {
    ghost var log0, ins, base := b.log, b.insertion, b.blockCount;
    var cleanBB := b.CreateBasicBlock();
    var noneBB := b.CreateBasicBlock();
    var notUniqueBB := b.CreateBasicBlock();
    var uniqueBB := b.CreateBasicBlock();
    var someBB := b.CreateBasicBlock();
    var loopBB := b.CreateBasicBlock();
    var k := ChainBlocks(cleanBB, noneBB, notUniqueBB, uniqueBB, someBB, loopBB);
    assert k == BlocksFrom(base);
    EmitChainPrologue(b, link, k);
    EmitLoopHead(b, k);
    b.SetInsertionPoint(uniqueBB);
    EmitChainUnique(b, link, k);
    EmitChainExits(b, k);
    AppendAssoc4(log0, At(ins, PrologueOps(link, k)), HeadEntries(k), At(k.unique, UniqueOps(link, k)), TailEntries(k));
  }

  /** ---- Shape of the emitted loop ---- */

  /** What each block holds once the chain destruction is emitted. */
  function ChainBlockContents(link: nat, ins: nat, base: nat, bb: nat): seq<Inst> {
    var k := BlocksFrom(base);
    if bb == ins then PrologueOps(link, k)
    else if bb == k.loop then LoopOps(k)
    else if bb == k.some then SomeOps(k)
    else if bb == k.unique then UniqueOps(link, k)
    else if bb == k.notUnique || bb == k.none then ExitOps(k)
    else if bb == k.clean then CleanOps()
    else []
  }

  lemma HeadIn(k: ChainBlocks, bb: nat)
    ensures InstsIn(HeadEntries(k), bb) == (if bb == k.loop then LoopOps(k) else []) + (if bb == k.some then SomeOps(k) else [])
  {
    InstsInConcat(At(k.loop, LoopOps(k)), At(k.some, SomeOps(k)), bb);
    InstsInAt(k.loop, LoopOps(k), bb);
    InstsInAt(k.some, SomeOps(k), bb);
  }

  lemma TailIn(k: ChainBlocks, bb: nat)
    ensures InstsIn(TailEntries(k), bb) ==
      (if bb == k.notUnique then ExitOps(k) else []) + (if bb == k.none then ExitOps(k) else [])
      + (if bb == k.clean then CleanOps() else [])
  {
    var a, c, d := At(k.notUnique, ExitOps(k)), At(k.none, ExitOps(k)), At(k.clean, CleanOps());
    InstsInConcat(a + c, d, bb);
    InstsInConcat(a, c, bb);
    InstsInAt(k.notUnique, ExitOps(k), bb);
    InstsInAt(k.none, ExitOps(k), bb);
    InstsInAt(k.clean, CleanOps(), bb);
  }

  /** The log appended by the chain destruction, block by block: the prologue
      in the insertion block and one run per new block. */
  lemma ChainContents(link: nat, ins: nat, base: nat, bb: nat)
    requires ins < base
    ensures InstsIn(ChainEntries(link, ins, base), bb) == ChainBlockContents(link, ins, base, bb)
  {
    var k := BlocksFrom(base);
    var p, h, u, t := At(ins, PrologueOps(link, k)), HeadEntries(k), At(k.unique, UniqueOps(link, k)), TailEntries(k);
    InstsInConcat(p + h + u, t, bb);
    InstsInConcat(p + h, u, bb);
    InstsInConcat(p, h, bb);
    InstsInAt(ins, PrologueOps(link, k), bb);
    InstsInAt(k.unique, UniqueOps(link, k), bb);
    HeadIn(k, bb);
    TailIn(k, bb);
  }

  /** The prologue keeps its accesses balanced.  A `take` load and a store of
      the link need an open modify access on it, so balance says that the link
      is taken and reset to `none` inside one modify access. */
  lemma PrologueBalanced(link: nat, k: ChainBlocks)
    ensures Balanced(PrologueOps(link, k))
  {
    var pre := [OptionalNone, RefElementAddr(SelfField(link)), AllocStack(IterSlot)];
    var acc := Scoped(Modify, SelfField(link), [Load(SelfField(link), Take), Store(SelfField(link), Init, NoneLink)]);
    var post := [Store(IterSlot, Init, TakenLink), Branch(k.loop)];
    OutsideBalanced(pre);
    ScopedBalanced(Modify, SelfField(link), [Load(SelfField(link), Take), Store(SelfField(link), Init, NoneLink)]);
    OutsideBalanced(post);
    BalancedConcat(pre, acc);
    BalancedConcat(pre + acc, post);
  }

  /** The link is taken before it is reset to `none`, the taken value is stored
      into the iterator after that, and the prologue ends by jumping to the loop. */
  lemma PrologueOrder(link: nat, k: ChainBlocks)
    ensures var s := PrologueOps(link, k);
      && EndsWith(s, Branch(k.loop))
      && Precedes(s, Load(SelfField(link), Take), Store(SelfField(link), Init, NoneLink))
      && Precedes(s, Store(SelfField(link), Init, NoneLink), Store(IterSlot, Init, TakenLink))
  {
    var s := PrologueOps(link, k);
    assert s[4] == Load(SelfField(link), Take) && s[5] == Store(SelfField(link), Init, NoneLink);
    assert s[7] == Store(IterSlot, Init, TakenLink);
  }

  lemma UniqueBalanced(link: nat, k: ChainBlocks)
    ensures Balanced(UniqueOps(link, k))
  {
    var pre := [LoadBorrow(IterSlot), UncheckedEnumData, RefElementAddr(NextLink(link))];
    var acc := Scoped(Read, NextLink(link), [Load(NextLink(link), Copy)]);
    var post := [EndBorrow(IterBorrow), Store(IterSlot, Assign, CopiedLink), Branch(k.loop)];
    OutsideBalanced(pre);
    ScopedBalanced(Read, NextLink(link), [Load(NextLink(link), Copy)]);
    OutsideBalanced(post);
    BalancedConcat(pre, acc);
    BalancedConcat(pre + acc, post);
  }

  /** A unique node: the next link is copied, never taken, then assigned to the
      iterator, and control returns to the loop block. */
  lemma UniqueOrder(link: nat, k: ChainBlocks)
    ensures var s := UniqueOps(link, k);
      && EndsWith(s, Branch(k.loop))
      && Load(NextLink(link), Take) !in s
      && Precedes(s, Load(NextLink(link), Copy), Store(IterSlot, Assign, CopiedLink))
  {
    var s := UniqueOps(link, k);
    assert s[4] == Load(NextLink(link), Copy) && s[7] == Store(IterSlot, Assign, CopiedLink);
  }

  /** The prologue block ends by entering the loop, and the loop block
      switches to `some` or `none`. */
  lemma ChainEntryFlow(link: nat, ins: nat, base: nat)
    requires ins < base
    ensures var k, e := BlocksFrom(base), ChainEntries(link, ins, base);
      && EndsWith(InstsIn(e, ins), Branch(k.loop))
      && EndsWith(InstsIn(e, k.loop), SwitchOptionalAddr(IterSlot, k.some, k.none))
  {
    var k := BlocksFrom(base);
    ChainContents(link, ins, base, ins);
    ChainContents(link, ins, base, k.loop);
    PrologueOrder(link, k);
  }

  /** `some` branches to `unique` or `notUnique`, and `unique` returns to the
      loop block after copying the next link. */
  lemma ChainLoopFlow(link: nat, ins: nat, base: nat)
    requires ins < base
    ensures var k, e := BlocksFrom(base), ChainEntries(link, ins, base);
      && EndsWith(InstsIn(e, k.some), CondBranch(k.unique, k.notUnique))
      && EndsWith(InstsIn(e, k.unique), Branch(k.loop))
  {
    var k := BlocksFrom(base);
    ChainContents(link, ins, base, k.some);
    ChainContents(link, ins, base, k.unique);
    UniqueOrder(link, k);
  }

  /** `notUnique` and `none` both go to `clean`, which destroys the iterator
      before deallocating its slot and falls through to what is emitted next. */
  lemma ChainExitFlow(link: nat, ins: nat, base: nat)
    requires ins < base
    ensures var k, e := BlocksFrom(base), ChainEntries(link, ins, base);
      && EndsWith(InstsIn(e, k.notUnique), Branch(k.clean))
      && EndsWith(InstsIn(e, k.none), Branch(k.clean))
      && StraightLine(InstsIn(e, k.clean))
      && Precedes(InstsIn(e, k.clean), DestroyAddr(IterSlot), DeallocStack(IterSlot))
  {
    var k := BlocksFrom(base);
    ChainContents(link, ins, base, k.notUnique);
    ChainContents(link, ins, base, k.none);
    ChainContents(link, ins, base, k.clean);
    assert CleanOps()[0] == DestroyAddr(IterSlot) && CleanOps()[1] == DeallocStack(IterSlot);
  }

  /** The chain's instructions in emission order, blocks forgotten. */
  lemma ChainInsts(link: nat, ins: nat, base: nat)
    ensures var k := BlocksFrom(base);
      Insts(ChainEntries(link, ins, base)) ==
        PrologueOps(link, k) + (LoopOps(k) + SomeOps(k)) + UniqueOps(link, k) + (ExitOps(k) + ExitOps(k) + CleanOps())
  {
    var k := BlocksFrom(base);
    var ep, el, es, eu := At(ins, PrologueOps(link, k)), At(k.loop, LoopOps(k)), At(k.some, SomeOps(k)), At(k.unique, UniqueOps(link, k));
    var en, eo, ec := At(k.notUnique, ExitOps(k)), At(k.none, ExitOps(k)), At(k.clean, CleanOps());
    assert ChainEntries(link, ins, base) == ep + (el + es) + eu + (en + eo + ec);
    InstsConcat(ep + (el + es) + eu, en + eo + ec);
    InstsConcat(ep + (el + es), eu);
    InstsConcat(ep, el + es);
    InstsConcat(el, es);
    InstsConcat(en + eo, ec);
    InstsConcat(en, eo);
    InstsAt(ins, PrologueOps(link, k)); InstsAt(k.loop, LoopOps(k)); InstsAt(k.some, SomeOps(k));
    InstsAt(k.unique, UniqueOps(link, k)); InstsAt(k.notUnique, ExitOps(k)); InstsAt(k.none, ExitOps(k));
    InstsAt(k.clean, CleanOps());
  }

  /** In emission order the chain destruction destroys no stored property with
      `destroy_addr` (the link is moved out, not destroyed in place), emits no
      return, and all its ranked instructions are the iterator's stage. */
  lemma ChainAuxiliary(link: nat, ins: nat, base: nat)
    ensures Auxiliary(Insts(ChainEntries(link, ins, base)), 5)
  {
    var k := BlocksFrom(base);
    var p, l, sm, u := PrologueOps(link, k), LoopOps(k), SomeOps(k), UniqueOps(link, k);
    var x, c := ExitOps(k), CleanOps();
    ChainInsts(link, ins, base);
    ChainPartsAuxiliary(link, k);
    AuxiliaryConcat(l, sm, 5);
    AuxiliaryConcat(p, l + sm, 5);
    AuxiliaryConcat(p + (l + sm), u, 5);
    AuxiliaryConcat(x, x, 5);
    AuxiliaryConcat(x + x, c, 5);
    AuxiliaryConcat(p + (l + sm) + u, x + x + c, 5);
  }

  lemma ChainPartsAuxiliary(link: nat, k: ChainBlocks)
    ensures Auxiliary(PrologueOps(link, k), 5) && Auxiliary(LoopOps(k), 5) && Auxiliary(SomeOps(k), 5)
    ensures Auxiliary(UniqueOps(link, k), 5) && Auxiliary(ExitOps(k), 5) && Auxiliary(CleanOps(), 5)
  {
  }

  /** Every block the chain destruction writes to is access-balanced. */
  lemma ChainBalanced(link: nat, ins: nat, base: nat)
    ensures AccessBalanced(ChainEntries(link, ins, base))
  {
    var k := BlocksFrom(base);
    var ep, eu := At(ins, PrologueOps(link, k)), At(k.unique, UniqueOps(link, k));
    var el, es := At(k.loop, LoopOps(k)), At(k.some, SomeOps(k));
    var en, eo, ec := At(k.notUnique, ExitOps(k)), At(k.none, ExitOps(k)), At(k.clean, CleanOps());
    PrologueBalanced(link, k);
    UniqueBalanced(link, k);
    OutsideBalanced(LoopOps(k));
    OutsideBalanced(SomeOps(k));
    OutsideBalanced(ExitOps(k));
    OutsideBalanced(CleanOps());
    AccessBalancedAt(ins, PrologueOps(link, k));
    AccessBalancedAt(k.unique, UniqueOps(link, k));
    AccessBalancedAt(k.loop, LoopOps(k));
    AccessBalancedAt(k.some, SomeOps(k));
    AccessBalancedAt(k.notUnique, ExitOps(k));
    AccessBalancedAt(k.none, ExitOps(k));
    AccessBalancedAt(k.clean, CleanOps());
    AccessBalancedConcat(el, es);
    AccessBalancedConcat(en, eo);
    AccessBalancedConcat(en + eo, ec);
    AccessBalancedConcat(ep, el + es);
    AccessBalancedConcat(ep + (el + es), eu);
    AccessBalancedConcat(ep + (el + es) + eu, en + eo + ec);
  }
}
