/** `emitDistributedRemoteActorDeinit`: the entry of the deallocating and the
    isolating destructors.  Outside a distributed actor, or when the destructor
    is already isolated, it runs the local deinit and returns.  A distributed
    actor first branches on whether the instance is a remote proxy: a proxy
    owns no state but its identity, so it destroys only the `id` and
    `actorSystem` properties (and a root default actor's state), skips the
    user's deinit body, and frees itself; a local instance runs the local
    deinit.  Both paths join in a block that returns. */
module RemoteActor {
  import opened Decls
  import opened SIL
  import opened SILBuilder
  import opened Members
  import opened LocalDeinits

  /** The three blocks, in the order they are created. */
  datatype RemoteBlocks = RemoteBlocks(remote: nat, finish: nat, local: nat)

  function RemoteBlocksFrom(base: nat): RemoteBlocks {
    RemoteBlocks(base, base + 1, base + 2)
  }

  /** The branch on remoteness is emitted only for a distributed actor whose
      destructor is not the isolated one. */
  predicate LocalOnly(cd: Nominal, isIsolated: bool) {
    isIsolated || !cd.distributedActor
  }

  /** The identity properties a remote proxy destroys. */
  function ProxyFieldOps(fields: seq<Field>): seq<Inst> {
    FieldLoopOps(RefElement, RemoteIdentity, fields, |fields|)
  }

  /** The end of the borrow of self, and the freeing of the object. */
  function ProxyRelease(): seq<Inst> {
    [EndBorrow(Borrowed(SelfArg)), DeallocRef(SelfArg)]
  }

  /** The remote block: under a borrow of self, the identity properties and the
      default-actor state; then the object is freed and control goes to the
      finish block. */
  function ProxyBody(cd: Nominal): seq<Inst> {
    [BeginBorrow(SelfArg)] + ProxyFieldOps(cd.storedProperties) + DefaultActorOps(cd.rootDefaultActor) + ProxyRelease()
  }

  function ProxyOps(cd: Nominal, k: RemoteBlocks): seq<Inst> {
    ProxyBody(cd) + [Branch(k.finish)]
  }

  function LocalBlockOps(l: LocalDeinit, k: RemoteBlocks): seq<Inst> {
    LocalOps(l) + [Branch(k.finish)]
  }

  function ReturnOps(): seq<Inst> {
    [Return(EmptyTuple)]
  }

  function RemoteBlockCount(cd: Nominal, isIsolated: bool): nat {
    if LocalOnly(cd, isIsolated) then 0 else 3
  }

  function RemoteExit(cd: Nominal, isIsolated: bool, ins: nat, base: nat): nat {
    if LocalOnly(cd, isIsolated) then ins else RemoteBlocksFrom(base).finish
  }

  /** What the remote-actor entry appends to the log. */
  function RemoteEntries(cd: Nominal, isIsolated: bool, l: LocalDeinit, ins: nat, base: nat): seq<Entry> {
    if LocalOnly(cd, isIsolated) then At(ins, LocalOps(l) + ReturnOps())
    else
      var k := RemoteBlocksFrom(base);
      At(ins, [RemoteBranch(k.remote, k.local)]) + At(k.remote, ProxyOps(cd, k))
      + At(k.local, LocalBlockOps(l, k)) + At(k.finish, ReturnOps())
  }

  /** The remote block (`remoteActorDeinitBB`). */
  method EmitProxyBlock(b: Builder, cd: Nominal, k: RemoteBlocks)
    requires b.Valid() && k.finish < b.blockCount
    modifies b
    ensures b.Valid() && b.blockCount == old(b.blockCount) && b.insertion == old(b.insertion)
    ensures b.log == old(b.log) + At(old(b.insertion), ProxyOps(cd, k))
  {
    ghost var log0, ins := b.log, b.insertion;
    b.Emit(BeginBorrow(SelfArg));
    ghost var log1 := b.log;
    EmitSelectedMembers(b, RemoteIdentity, cd.storedProperties);
    ghost var log2 := b.log;
    if cd.rootDefaultActor {
      EmitDestroyDefaultActor(b);
    }
    ghost var log3 := b.log;
    EmitProxyRelease(b, k);
    ghost var w, x, y, z := [BeginBorrow(SelfArg)], ProxyFieldOps(cd.storedProperties), DefaultActorOps(cd.rootDefaultActor),
      ProxyRelease() + [Branch(k.finish)];
    assert log1 == log0 + At(ins, w);
    assert log3 == log2 + At(ins, y);
    LogAt4(log0, ins, w, x, y, z);
  }

  /** The end of the borrow, the freeing of the object, and the branch to the
      finish block. */
  method EmitProxyRelease(b: Builder, k: RemoteBlocks)
    requires b.Valid() && k.finish < b.blockCount
    modifies b
    ensures b.Valid() && b.blockCount == old(b.blockCount) && b.insertion == old(b.insertion)
    ensures b.log == old(b.log) + At(old(b.insertion), ProxyRelease() + [Branch(k.finish)])
  {
    b.Emit(EndBorrow(Borrowed(SelfArg)));
    b.Emit(DeallocRef(SelfArg));
    b.Emit(Branch(k.finish));
  }

  method EmitLocalBlock(b: Builder, l: LocalDeinit, k: RemoteBlocks)
    requires b.Valid() && k.finish < b.blockCount
    modifies b
    ensures b.Valid() && b.blockCount == old(b.blockCount) && b.insertion == old(b.insertion)
    ensures b.log == old(b.log) + At(old(b.insertion), LocalBlockOps(l, k))
  {
    ghost var log0, ins := b.log, b.insertion;
    EmitLocalDeinit(b, l);
    b.Emit(Branch(k.finish));
    AtConcat(ins, LocalOps(l), [Branch(k.finish)]);
    AppendAssoc(log0, At(ins, LocalOps(l)), At(ins, [Branch(k.finish)]));
  }

  /** `emitDistributedRemoteActorDeinit`, for the destructor of a class. */
  method EmitDistributedRemoteActorDeinit(b: Builder, cd: Nominal, isIsolated: bool, l: LocalDeinit)
    requires b.Valid() && cd.kind == ClassDecl
    modifies b
    ensures b.Valid() && b.blockCount == old(b.blockCount) + RemoteBlockCount(cd, isIsolated)
    ensures b.insertion == RemoteExit(cd, isIsolated, old(b.insertion), old(b.blockCount))
    ensures b.log == old(b.log) + RemoteEntries(cd, isIsolated, l, old(b.insertion), old(b.blockCount))
  {
    ghost var log0, ins, base := b.log, b.insertion, b.blockCount;
    if isIsolated || !cd.distributedActor {
      EmitLocalDeinit(b, l);
      b.Emit(Return(EmptyTuple));
      AtConcat(ins, LocalOps(l), ReturnOps());
      AppendAssoc(log0, At(ins, LocalOps(l)), At(ins, ReturnOps()));
      return;
    }
    var remoteBB := b.CreateBasicBlock();
    var finishBB := b.CreateBasicBlock();
    var localBB := b.CreateBasicBlock();
    var k := RemoteBlocks(remoteBB, finishBB, localBB);
    assert k == RemoteBlocksFrom(base);
    b.Emit(RemoteBranch(remoteBB, localBB));
    b.SetInsertionPoint(remoteBB);
    EmitProxyBlock(b, cd, k);
    b.SetInsertionPoint(localBB);
    EmitLocalBlock(b, l, k);
    b.SetInsertionPoint(finishBB);
    b.Emit(Return(EmptyTuple));
    AppendAssoc4(log0, At(ins, [RemoteBranch(k.remote, k.local)]), At(k.remote, ProxyOps(cd, k)),
      At(k.local, LocalBlockOps(l, k)), At(k.finish, ReturnOps()));
  }

  /** ---- Properties ---- */

  /** The remote block's own instructions, branch aside: straight-line,
      balanced, freeing the object once, returning nowhere, and destroying the
      identity properties that the reference definition names. */
  lemma ProxyBodyFacts(cd: Nominal)
    ensures var s := ProxyBody(cd);
      && StraightLine(s) && Balanced(s) && CountReturns(s) == 0 && CountDeallocs(s) == 1
      && DestroyedFields(s) == Destroyed(RemoteIdentity, cd.storedProperties, |cd.storedProperties|)
  {
    var fields := cd.storedProperties;
    FieldLoopShape(RefElement, RemoteIdentity, fields, |fields|);
    FieldLoopInsts(RefElement, RemoteIdentity, fields, |fields|);
    FieldLoopDestroys(RefElement, RemoteIdentity, fields, |fields|);
    FieldInstsFacts(ProxyFieldOps(fields));
    ProxyPartsFacts(ProxyFieldOps(fields), cd.rootDefaultActor);
  }

  /** The same, for any field run in the middle. */
  lemma ProxyPartsFacts(x: seq<Inst>, root: bool)
    requires StraightLine(x) && Balanced(x) && CountReturns(x) == 0 && CountDeallocs(x) == 0
    ensures var s := [BeginBorrow(SelfArg)] + x + DefaultActorOps(root) + ProxyRelease();
      && StraightLine(s) && Balanced(s) && CountReturns(s) == 0 && CountDeallocs(s) == 1
      && DestroyedFields(s) == DestroyedFields(x)
  {
    var w, y, r := [BeginBorrow(SelfArg)], DefaultActorOps(root), ProxyRelease();
    ProxyEdges(root);
    ProxyEdgeCounts(root);
    StraightLine4(w, x, y, r);
    Balanced4(w, x, y, r);
    CountReturns4(w, x, y, r);
    CountDeallocs4(w, x, y, r);
    DestroyedFields4(w, x, y, r);
    assert [] + DestroyedFields(x) + [] + [] == DestroyedFields(x);
  }

  /** The instructions around the identity properties. */
  lemma ProxyEdges(root: bool)
    ensures var w, y, r := [BeginBorrow(SelfArg)], DefaultActorOps(root), ProxyRelease();
      && StraightLine(w) && StraightLine(y) && StraightLine(r)
      && Balanced(w) && Balanced(y) && Balanced(r)
  {
    OutsideBalanced([BeginBorrow(SelfArg)]);
    OutsideBalanced(DefaultActorOps(root));
    OutsideBalanced(ProxyRelease());
  }

  lemma ProxyEdgeCounts(root: bool)
    ensures var w, y, r := [BeginBorrow(SelfArg)], DefaultActorOps(root), ProxyRelease();
      && CountReturns(w) == 0 && CountReturns(y) == 0 && CountReturns(r) == 0
      && CountDeallocs(w) == 0 && CountDeallocs(y) == 0 && CountDeallocs(r) == 1
      && DestroyedFields(w) == [] && DestroyedFields(y) == [] && DestroyedFields(r) == []
  {
    assert ProxyRelease()[1..][1..] == [];
    if root {
      assert DefaultActorOps(root)[1..] == [];
    }
  }

  lemma ReleaseDeallocs()
    ensures CountDeallocs(ProxyRelease()) == 1
  {
    assert ProxyRelease()[1..][1..] == [];
  }

  /** The remote block runs none of the local deinit: neither the user's
      deinit body nor the destroying destructor, which it does not even
      reference, and nothing is scheduled on an executor. */
  lemma ProxySkipsLocal(cd: Nominal, k: RemoteBlocks)
    ensures var s := ProxyOps(cd, k);
      && UserBody !in s && ScheduleDeinitOnExecutor !in s
      && FunctionRef(Destroyer) !in s && forall subs :: Apply(Destroyer, subs) !in s
  {
    ProxyExcludes(cd, k, UserBody);
    ProxyExcludes(cd, k, FunctionRef(Destroyer));
    forall subs
      ensures Apply(Destroyer, subs) !in ProxyOps(cd, k)
    {
      ProxyExcludes(cd, k, Apply(Destroyer, subs));
    }
    ProxyExcludes(cd, k, ScheduleDeinitOnExecutor);
  }

  /** An instruction of none of the kinds the remote block is made of. */
  lemma ProxyExcludes(cd: Nominal, k: RemoteBlocks, i: Inst)
    requires !FieldInst(i) && !i.BeginBorrow? && !i.EndBorrow? && !i.DeallocRef? && !i.Branch? && i != DestroyDefaultActor
    ensures i !in ProxyOps(cd, k)
  {
    var x := ProxyFieldOps(cd.storedProperties);
    FieldLoopInsts(RefElement, RemoteIdentity, cd.storedProperties, |cd.storedProperties|);
    FieldInstsFacts(x);
    assert i !in x;
  }

  /** The remote block destroys exactly the non-trivial `id` and `actorSystem`
      properties that are not isolated to the actor instance, each once, in
      declaration order, and frees the object once. */
  lemma ProxyDestroys(cd: Nominal, k: RemoteBlocks)
    ensures var fields, s := cd.storedProperties, ProxyOps(cd, k);
      && EndsWith(s, Branch(k.finish))
      && CountDeallocs(s) == 1 && CountReturns(s) == 0
      && StrictlyIncreasing(DestroyedFields(s))
      && forall i: nat :: i in DestroyedFields(s) <==>
           i < |fields| && !fields[i].trivial && fields[i].isolation != ActorInstance
           && (fields[i].name == IdName || fields[i].name == ActorSystemName)
  {
    var fields, body := cd.storedProperties, ProxyBody(cd);
    ProxyBodyFacts(cd);
    DestroyedFacts(RemoteIdentity, fields, |fields|);
    EndsWithAppend(body, Branch(k.finish));
    BranchTail(body, Branch(k.finish));
  }

  /** Appending a branch adds no return, no `dealloc_ref` and no destroyed
      stored property. */
  lemma BranchTail(s: seq<Inst>, t: Inst)
    requires t.Branch?
    ensures CountReturns(s + [t]) == CountReturns(s) && CountDeallocs(s + [t]) == CountDeallocs(s)
    ensures DestroyedFields(s + [t]) == DestroyedFields(s)
  {
    CountReturnsConcat(s, [t]);
    CountDeallocsConcat(s, [t]);
    DestroyedFieldsConcat(s, [t]);
    assert DestroyedFields(s) + [] == DestroyedFields(s);
  }

  /** The local block: the local deinit, then the branch to the finish block. */
  lemma LocalBlockFacts(l: LocalDeinit, k: RemoteBlocks)
    ensures var s := LocalBlockOps(l, k);
      && EndsWith(s, Branch(k.finish)) && Balanced(s)
      && CountReturns(s) == 0 && CountDeallocs(s) == (if l == DeallocateLocally then 1 else 0)
  {
    LocalBlockBalanced(l, k);
    LocalBlockEnds(l, k);
  }

  lemma LocalBlockEnds(l: LocalDeinit, k: RemoteBlocks)
    ensures var s := LocalBlockOps(l, k);
      && EndsWith(s, Branch(k.finish))
      && CountReturns(s) == 0 && CountDeallocs(s) == (if l == DeallocateLocally then 1 else 0)
  {
    LocalStraight(l);
    LocalCounts(l);
    EndsWithAppend(LocalOps(l), Branch(k.finish));
    BranchTail(LocalOps(l), Branch(k.finish));
  }

  /** Without the branch, the whole entry is the local deinit followed by the
      only return, all in the insertion block. */
  lemma LocalOnlyPath(cd: Nominal, isIsolated: bool, l: LocalDeinit, ins: nat, base: nat)
    requires LocalOnly(cd, isIsolated)
    ensures var e := RemoteEntries(cd, isIsolated, l, ins, base);
      && InstsIn(e, ins) == LocalOps(l) + [Return(EmptyTuple)]
      && EndsWith(InstsIn(e, ins), Return(EmptyTuple))
      && CountReturns(Insts(e)) == 1
      && CountDeallocs(Insts(e)) == (if l == DeallocateLocally then 1 else 0)
  {
    var s := LocalOps(l) + ReturnOps();
    InstsInAt(ins, s, ins);
    InstsAt(ins, s);
    LocalStraight(l);
    LocalCounts(l);
    EndsWithAppend(LocalOps(l), Return(EmptyTuple));
    CountReturnsConcat(LocalOps(l), ReturnOps());
    CountDeallocsConcat(LocalOps(l), ReturnOps());
  }

  /** What each block holds on the path with the remoteness branch. */
  lemma RemoteContents(cd: Nominal, isIsolated: bool, l: LocalDeinit, ins: nat, base: nat, bb: nat)
    requires !LocalOnly(cd, isIsolated) && ins < base
    ensures var k := RemoteBlocksFrom(base);
      InstsIn(RemoteEntries(cd, isIsolated, l, ins, base), bb) ==
        if bb == ins then [RemoteBranch(k.remote, k.local)]
        else if bb == k.remote then ProxyOps(cd, k)
        else if bb == k.local then LocalBlockOps(l, k)
        else if bb == k.finish then ReturnOps()
        else []
  {
    var k := RemoteBlocksFrom(base);
    InstsInAt4(ins, [RemoteBranch(k.remote, k.local)], k.remote, ProxyOps(cd, k), k.local, LocalBlockOps(l, k), k.finish, ReturnOps(), bb);
  }

  /** With the branch: the insertion block ends by branching to the remote or
      the local block, both of which end by going to the finish block, which
      holds nothing but the return.  The remote side frees the object once and
      runs none of the local deinit; the local side frees it once if it
      deallocates in place and never otherwise. */
  lemma RemoteFlow(cd: Nominal, isIsolated: bool, l: LocalDeinit, ins: nat, base: nat)
    requires !LocalOnly(cd, isIsolated) && ins < base
    ensures var k, e := RemoteBlocksFrom(base), RemoteEntries(cd, isIsolated, l, ins, base);
      && EndsWith(InstsIn(e, ins), RemoteBranch(k.remote, k.local))
      && EndsWith(InstsIn(e, k.remote), Branch(k.finish))
      && EndsWith(InstsIn(e, k.local), Branch(k.finish))
      && InstsIn(e, k.finish) == [Return(EmptyTuple)]
      && CountDeallocs(InstsIn(e, k.remote)) == 1
      && CountDeallocs(InstsIn(e, k.local)) == (if l == DeallocateLocally then 1 else 0)
  {
    var k := RemoteBlocksFrom(base);
    RemoteContents(cd, isIsolated, l, ins, base, ins);
    RemoteContents(cd, isIsolated, l, ins, base, k.remote);
    RemoteContents(cd, isIsolated, l, ins, base, k.local);
    RemoteContents(cd, isIsolated, l, ins, base, k.finish);
    ProxyDestroys(cd, k);
    LocalBlockFacts(l, k);
  }

  /** Either way, exactly one return. */
  lemma RemoteReturns(cd: Nominal, isIsolated: bool, l: LocalDeinit, ins: nat, base: nat)
    ensures CountReturns(Insts(RemoteEntries(cd, isIsolated, l, ins, base))) == 1
  {
    if LocalOnly(cd, isIsolated) {
      LocalOnlyPath(cd, isIsolated, l, ins, base);
    } else {
      RemoteBranchReturns(cd, isIsolated, l, ins, base);
    }
  }

  lemma RemoteBranchReturns(cd: Nominal, isIsolated: bool, l: LocalDeinit, ins: nat, base: nat)
    requires !LocalOnly(cd, isIsolated)
    ensures CountReturns(Insts(RemoteEntries(cd, isIsolated, l, ins, base))) == 1
  {
    var k := RemoteBlocksFrom(base);
    var s0, s1, s2, s3 := [RemoteBranch(k.remote, k.local)], ProxyOps(cd, k), LocalBlockOps(l, k), ReturnOps();
    InstsAt4(ins, s0, k.remote, s1, k.local, s2, k.finish, s3);
    ProxyDestroys(cd, k);
    LocalBlockFacts(l, k);
    CountReturns4(s0, s1, s2, s3);
  }

  /** Every block the entry writes to is access-balanced. */
  lemma RemoteBalanced(cd: Nominal, isIsolated: bool, l: LocalDeinit, ins: nat, base: nat)
    ensures AccessBalanced(RemoteEntries(cd, isIsolated, l, ins, base))
  {
    if LocalOnly(cd, isIsolated) {
      LocalPathBalanced(l, ins);
    } else {
      RemoteBranchBalanced(cd, isIsolated, l, ins, base);
    }
  }

  lemma LocalPathBalanced(l: LocalDeinit, ins: nat)
    ensures AccessBalanced(At(ins, LocalOps(l) + ReturnOps()))
  {
    LocalBalanced(l);
    AccessBalancedSnoc(ins, LocalOps(l), Return(EmptyTuple));
  }

  lemma RemoteBranchBalanced(cd: Nominal, isIsolated: bool, l: LocalDeinit, ins: nat, base: nat)
    requires !LocalOnly(cd, isIsolated)
    ensures AccessBalanced(RemoteEntries(cd, isIsolated, l, ins, base))
  {
    var k := RemoteBlocksFrom(base);
    var s0, s1, s2, s3 := [RemoteBranch(k.remote, k.local)], ProxyOps(cd, k), LocalBlockOps(l, k), ReturnOps();
    ProxyBalanced(cd, k);
    LocalBlockBalanced(l, k);
    OutsideBalanced(s0);
    OutsideBalanced(s3);
    AccessBalancedAt4(ins, s0, k.remote, s1, k.local, s2, k.finish, s3);
  }

  lemma LocalBlockBalanced(l: LocalDeinit, k: RemoteBlocks)
    ensures Balanced(LocalBlockOps(l, k))
  {
    LocalBalanced(l);
    BalancedSnoc(LocalOps(l), Branch(k.finish));
  }

  lemma ProxyBalanced(cd: Nominal, k: RemoteBlocks)
    ensures Balanced(ProxyOps(cd, k))
  {
    ProxyBodyFacts(cd);
    OutsideBalanced([Branch(k.finish)]);
    BalancedConcat(ProxyBody(cd), [Branch(k.finish)]);
  }
}
