/** `emitClassMemberDestruction`: the destruction of a class instance's stored
    properties, shared by the destroying destructor and the ivar destroyer.
    Every stored property but the recursive link is destroyed in declaration
    order; the link, if there is one, is unlinked by the chain loop; and a root
    default actor tears down its actor state last. */
module ClassMembers {
  import opened Decls
  import opened SIL
  import opened SILBuilder
  import opened Members
  import opened RecursiveChain

  /** The stored properties the member loop visits: all but the recursive link. */
  function MemberSelector(fields: seq<Field>): Selector {
    AllExcept(RecursiveLinks(fields))
  }

  function MemberFieldOps(fields: seq<Field>): seq<Inst> {
    FieldLoopOps(RefElement, MemberSelector(fields), fields, |fields|)
  }

  /** How many blocks member destruction creates, and the block emission
      continues in: the chain loop adds six and ends in its clean block. */
  function MemberBlocks(fields: seq<Field>): nat {
    if RecursiveLinks(fields) == [] then 0 else 6
  }

  function MemberExit(fields: seq<Field>, ins: nat, base: nat): nat {
    if RecursiveLinks(fields) == [] then ins else BlocksFrom(base).clean
  }

  /** The chain loop's part of the log: nothing without a recursive link. */
  function ChainPart(fields: seq<Field>, ins: nat, base: nat): seq<Entry> {
    var links := RecursiveLinks(fields);
    if links == [] then [] else ChainEntries(links[0], ins, base)
  }

  /** What member destruction appends to the log, given the insertion block
      and the number of blocks that existed before: the stored properties in
      the insertion block, the chain loop, and the default-actor teardown in
      the block emission continues in. */
  function ClassMemberEntries(cd: Nominal, ins: nat, base: nat): seq<Entry> {
    var fields := cd.storedProperties;
    At(ins, MemberFieldOps(fields)) + ChainPart(fields, ins, base)
    + At(MemberExit(fields, ins, base), DefaultActorOps(cd.rootDefaultActor))
  }

  lemma ClassMemberEntriesUnfold(cd: Nominal, ins: nat, base: nat)
    ensures ClassMemberEntries(cd, ins, base) ==
      At(ins, MemberFieldOps(cd.storedProperties)) + ChainPart(cd.storedProperties, ins, base)
      + At(MemberExit(cd.storedProperties, ins, base), DefaultActorOps(cd.rootDefaultActor))
  {
  }

  /** `emitClassMemberDestruction`.  Its caller must hand it a guaranteed self. */
  method EmitClassMemberDestruction(b: Builder, cd: Nominal, self: Val, selfOwnership: Ownership)
    requires b.Valid() && cd.kind == ClassDecl
    requires OwnershipOf(self, selfOwnership) == Guaranteed
    modifies b
    ensures b.Valid() && b.blockCount == old(b.blockCount) + MemberBlocks(cd.storedProperties)
    ensures b.insertion == MemberExit(cd.storedProperties, old(b.insertion), old(b.blockCount))
    ensures b.log == old(b.log) + ClassMemberEntries(cd, old(b.insertion), old(b.blockCount))
  {
    ghost var log0, ins, base := b.log, b.insertion, b.blockCount;
    var links := FindRecursiveLinks(cd.storedProperties);
    EmitSelectedMembers(b, AllExcept(links), cd.storedProperties);
    ghost var log1 := b.log;
    if links != [] {
      EmitRecursiveChainDestruction(b, links[0]);
    } else {
      assert log1 + ChainPart(cd.storedProperties, ins, base) == log1;
    }
    ghost var log2 := b.log;
    assert log2 == log0 + At(ins, MemberFieldOps(cd.storedProperties)) + ChainPart(cd.storedProperties, ins, base);
    if cd.rootDefaultActor {
      EmitDestroyDefaultActor(b);
    }
    ghost var exit := MemberExit(cd.storedProperties, ins, base);
    assert b.insertion == exit;
    assert b.log == log2 + At(exit, DefaultActorOps(cd.rootDefaultActor));
    ghost var x, y, z := At(ins, MemberFieldOps(cd.storedProperties)), ChainPart(cd.storedProperties, ins, base), At(exit, DefaultActorOps(cd.rootDefaultActor));
    ClassMemberEntriesUnfold(cd, ins, base);
    AppendAssoc3(log0, x, y, z);
  }

  /** ---- Properties ---- */

  /** The chain loop in emission order: the three kinds of stage-5
      instructions only. */
  function MemberChainOps(fields: seq<Field>, ins: nat, base: nat): seq<Inst> {
    Insts(ChainPart(fields, ins, base))
  }

  lemma MemberChainAuxiliary(fields: seq<Field>, ins: nat, base: nat)
    ensures Auxiliary(MemberChainOps(fields, ins, base), 5)
  {
    var links := RecursiveLinks(fields);
    if links != [] {
      ChainAuxiliary(links[0], ins, base);
    }
  }

  /** The members' destruction in emission order, blocks forgotten. */
  lemma ClassMemberInsts(cd: Nominal, ins: nat, base: nat)
    ensures Insts(ClassMemberEntries(cd, ins, base)) ==
      MemberFieldOps(cd.storedProperties) + MemberChainOps(cd.storedProperties, ins, base) + DefaultActorOps(cd.rootDefaultActor)
  {
    var fields := cd.storedProperties;
    var head, chain := At(ins, MemberFieldOps(fields)), ChainPart(fields, ins, base);
    var tail := At(MemberExit(fields, ins, base), DefaultActorOps(cd.rootDefaultActor));
    InstsConcat(head + chain, tail);
    InstsConcat(head, chain);
    InstsAt(ins, MemberFieldOps(fields));
    InstsAt(MemberExit(fields, ins, base), DefaultActorOps(cd.rootDefaultActor));
  }

  /** The stored properties destroyed with `destroy_addr` are exactly the
      non-trivial ones other than the recursive link, each once, in declaration
      order. */
  lemma ClassMemberDestroys(cd: Nominal, ins: nat, base: nat)
    ensures var fields, d := cd.storedProperties, DestroyedFields(Insts(ClassMemberEntries(cd, ins, base)));
      && d == Destroyed(MemberSelector(fields), fields, |fields|)
      && StrictlyIncreasing(d)
      && forall i: nat :: i in d <==> i < |fields| && !fields[i].trivial && i !in RecursiveLinks(fields)
  {
    var fields := cd.storedProperties;
    var f, c, a := MemberFieldOps(fields), MemberChainOps(fields, ins, base), DefaultActorOps(cd.rootDefaultActor);
    ClassMemberInsts(cd, ins, base);
    FieldLoopDestroys(RefElement, MemberSelector(fields), fields, |fields|);
    DestroyedFacts(MemberSelector(fields), fields, |fields|);
    MemberChainAuxiliary(fields, ins, base);
    AuxiliaryFacts(c, 5);
    DefaultActorAuxiliary(cd.rootDefaultActor);
    AuxiliaryFacts(a, 6);
    DestroyedFieldsConcat(f + c, a);
    DestroyedFieldsConcat(f, c);
    var d := Destroyed(MemberSelector(fields), fields, |fields|);
    assert d + [] + [] == d;
  }

  /** Stored properties first, then the chain loop, then the default-actor
      teardown; no return is emitted. */
  lemma ClassMemberStages(cd: Nominal, ins: nat, base: nat)
    ensures var s := Insts(ClassMemberEntries(cd, ins, base));
      StagesOrdered(s) && StagesWithin(s, 4, 6) && CountReturns(s) == 0
  {
    var fields := cd.storedProperties;
    var f, c, a := MemberFieldOps(fields), MemberChainOps(fields, ins, base), DefaultActorOps(cd.rootDefaultActor);
    ClassMemberInsts(cd, ins, base);
    FieldLoopShape(RefElement, MemberSelector(fields), fields, |fields|);
    StraightLineHasNoReturn(f);
    MemberChainAuxiliary(fields, ins, base);
    AuxiliaryFacts(c, 5);
    DefaultActorAuxiliary(cd.rootDefaultActor);
    AuxiliaryFacts(a, 6);
    StagesConcat(f, c, 4, 5, 5);
    StagesConcat(f + c, a, 4, 6, 6);
    CountReturnsConcat(f + c, a);
    CountReturnsConcat(f, c);
  }

  lemma ClassMemberNoReturn(cd: Nominal, ins: nat, base: nat)
    ensures CountReturns(Insts(ClassMemberEntries(cd, ins, base))) == 0
  {
    ClassMemberStages(cd, ins, base);
  }

  /** A root default actor's state is torn down exactly once, after everything
      else; any other class emits no teardown. */
  lemma ClassMemberDefaultActor(cd: Nominal, ins: nat, base: nat)
    ensures var s := Insts(ClassMemberEntries(cd, ins, base));
      && Occurrences(s, DestroyDefaultActor) == (if cd.rootDefaultActor then 1 else 0)
      && (cd.rootDefaultActor ==> s[|s| - 1] == DestroyDefaultActor)
  {
    var fields := cd.storedProperties;
    var f, c, a := MemberFieldOps(fields), MemberChainOps(fields, ins, base), DefaultActorOps(cd.rootDefaultActor);
    ClassMemberInsts(cd, ins, base);
    FieldLoopShape(RefElement, MemberSelector(fields), fields, |fields|);
    StageExcludes(f, 4, 4, DestroyDefaultActor);
    OccurrencesAbsent(f, DestroyDefaultActor);
    MemberChainAuxiliary(fields, ins, base);
    AuxiliaryFacts(c, 5);
    StageExcludes(c, 5, 5, DestroyDefaultActor);
    OccurrencesAbsent(c, DestroyDefaultActor);
    OccurrencesConcat(f + c, a, DestroyDefaultActor);
    OccurrencesConcat(f, c, DestroyDefaultActor);
    DefaultActorOccurrences(cd.rootDefaultActor);
  }

  /** The chain loop, recognisable by its iterator slot, is emitted exactly
      when the class has a recursive link, and it then adds six blocks. */
  lemma ClassMemberChain(cd: Nominal, ins: nat, base: nat)
    ensures var s := Insts(ClassMemberEntries(cd, ins, base));
      && (AllocStack(IterSlot) in s <==> RecursiveLinks(cd.storedProperties) != [])
      && MemberBlocks(cd.storedProperties) == (if RecursiveLinks(cd.storedProperties) == [] then 0 else 6)
  {
    ClassMemberInsts(cd, ins, base);
    SlotOutsideChain(cd);
    ChainSlot(cd.storedProperties, ins, base);
  }

  /** Only the chain loop uses the iterator slot. */
  lemma SlotOutsideChain(cd: Nominal)
    ensures AllocStack(IterSlot) !in MemberFieldOps(cd.storedProperties)
    ensures AllocStack(IterSlot) !in DefaultActorOps(cd.rootDefaultActor)
  {
    var fields, a := cd.storedProperties, DefaultActorOps(cd.rootDefaultActor);
    FieldLoopShape(RefElement, MemberSelector(fields), fields, |fields|);
    StageExcludes(MemberFieldOps(fields), 4, 4, AllocStack(IterSlot));
    DefaultActorAuxiliary(cd.rootDefaultActor);
    AuxiliaryFacts(a, 6);
    StageExcludes(a, 6, 6, AllocStack(IterSlot));
  }

  lemma ChainSlot(fields: seq<Field>, ins: nat, base: nat)
    ensures AllocStack(IterSlot) in MemberChainOps(fields, ins, base) <==> RecursiveLinks(fields) != []
  {
    var links := RecursiveLinks(fields);
    if links != [] {
      var k := BlocksFrom(base);
      ChainInsts(links[0], ins, base);
      assert PrologueOps(links[0], k)[2] == AllocStack(IterSlot);
    } else {
      assert MemberChainOps(fields, ins, base) == [];
    }
  }

  /** Every block member destruction writes to is access-balanced. */
  lemma ClassMemberBalanced(cd: Nominal, ins: nat, base: nat)
    ensures AccessBalanced(ClassMemberEntries(cd, ins, base))
  {
    var fields, links := cd.storedProperties, RecursiveLinks(cd.storedProperties);
    var a := DefaultActorOps(cd.rootDefaultActor);
    var head, chain := At(ins, MemberFieldOps(fields)), ChainPart(fields, ins, base);
    FieldLoopShape(RefElement, MemberSelector(fields), fields, |fields|);
    AccessBalancedAt(ins, MemberFieldOps(fields));
    OutsideBalanced(a);
    AccessBalancedAt(MemberExit(fields, ins, base), a);
    if links != [] {
      ChainBalanced(links[0], ins, base);
    } else {
      assert forall bb :: InstsIn(chain, bb) == [];
    }
    AccessBalancedConcat(head, chain);
    AccessBalancedConcat(head + chain, At(MemberExit(fields, ins, base), a));
  }
}
