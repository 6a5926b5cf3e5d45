/** The deallocating destructors: the class one, which destroys the object
    through the destroying destructor and frees it; the isolating one, which
    hands the object to the actor's executor instead; and the entry point that
    picks the class destructor or the move-only one from the type that
    declares the deinit. */
module Destructors {
  import opened Decls
  import opened SIL
  import opened SILBuilder
  import opened LocalDeinits
  import opened RemoteActor
  import opened MoveOnly

  /** `emitDeallocatingClassDestructor`: the remote-actor entry with the
      in-place local deinit. */
  method EmitDeallocatingClassDestructor(b: Builder, cd: Nominal, isIsolated: bool)
    requires b.Valid() && cd.kind == ClassDecl
    modifies b
    ensures b.Valid() && b.blockCount == old(b.blockCount) + RemoteBlockCount(cd, isIsolated)
    ensures b.log == old(b.log) + RemoteEntries(cd, isIsolated, DeallocateLocally, old(b.insertion), old(b.blockCount))
  {
    EmitDistributedRemoteActorDeinit(b, cd, isIsolated, DeallocateLocally);
  }

  /** `emitIsolatingDestructor`: the remote-actor entry, never taken as already
      isolated, with the scheduling local deinit. */
  method EmitIsolatingDestructor(b: Builder, cd: Nominal)
    requires b.Valid() && cd.kind == ClassDecl
    modifies b
    ensures b.Valid() && b.blockCount == old(b.blockCount) + RemoteBlockCount(cd, false)
    ensures b.log == old(b.log) + RemoteEntries(cd, false, ScheduleIsolated, old(b.insertion), old(b.blockCount))
  {
    EmitDistributedRemoteActorDeinit(b, cd, false, ScheduleIsolated);
  }

  /** What the deallocating destructor appends to the log. */
  function DeallocatingEntries(nom: Nominal, isIsolated: bool, m: MoveOnlySelf, ins: nat, base: nat): seq<Entry> {
    if nom.kind == ClassDecl then RemoteEntries(nom, isIsolated, DeallocateLocally, ins, base)
    else MoveOnlyDestructorEntries(nom, m, ins, base)
  }

  function DeallocatingBlocks(nom: Nominal, isIsolated: bool, m: MoveOnlySelf): nat {
    if nom.kind == ClassDecl then RemoteBlockCount(nom, isIsolated) else MoveOnlyBlocks(nom, m)
  }

  /** `emitDeallocatingDestructor`: only a class or a non-copyable type has a
      deallocating destructor; `m` describes self in the latter case. */
  method EmitDeallocatingDestructor(b: Builder, nom: Nominal, isIsolated: bool, m: MoveOnlySelf)
    requires b.Valid() && (nom.kind != ClassDecl ==> !nom.copyable)
    modifies b
    ensures b.Valid() && b.blockCount == old(b.blockCount) + DeallocatingBlocks(nom, isIsolated, m)
    ensures b.log == old(b.log) + DeallocatingEntries(nom, isIsolated, m, old(b.insertion), old(b.blockCount))
  {
    if nom.kind == ClassDecl {
      EmitDeallocatingClassDestructor(b, nom, isIsolated);
    } else {
      EmitDeallocatingMoveOnlyDestructor(b, nom, m);
    }
  }

  /** ---- Properties ---- */

  /** A class instance is freed exactly once on every path, and the destructor
      returns exactly once; a move-only value is never freed with
      `dealloc_ref`, its storage belonging to its owner. */
  lemma DeallocatingFrees(nom: Nominal, isIsolated: bool, m: MoveOnlySelf, ins: nat, base: nat)
    requires ins < base
    ensures var e, k := DeallocatingEntries(nom, isIsolated, m, ins, base), RemoteBlocksFrom(base);
      && CountReturns(Insts(e)) == 1
      && (nom.kind == ClassDecl && LocalOnly(nom, isIsolated) ==> CountDeallocs(Insts(e)) == 1)
      && (nom.kind == ClassDecl && !LocalOnly(nom, isIsolated) ==>
            CountDeallocs(InstsIn(e, k.remote)) == 1 && CountDeallocs(InstsIn(e, k.local)) == 1)
      && (nom.kind != ClassDecl ==> CountDeallocs(Insts(e)) == 0)
  {
    if nom.kind == ClassDecl {
      RemoteReturns(nom, isIsolated, DeallocateLocally, ins, base);
      if LocalOnly(nom, isIsolated) {
        LocalOnlyPath(nom, isIsolated, DeallocateLocally, ins, base);
      } else {
        RemoteFlow(nom, isIsolated, DeallocateLocally, ins, base);
      }
    } else {
      MoveOnlyDestructorShape(nom, m, ins, base);
    }
  }

  /** A local class instance is destroyed by the destroying destructor, called
      inside a borrow of self, before it is freed; a remote proxy never runs it. */
  lemma DeallocatingRunsDestroyer(cd: Nominal, isIsolated: bool, ins: nat, base: nat)
    requires cd.kind == ClassDecl && ins < base
    ensures var e, k := RemoteEntries(cd, isIsolated, DeallocateLocally, ins, base), RemoteBlocksFrom(base);
      var local := if LocalOnly(cd, isIsolated) then ins else k.local;
      && Precedes(InstsIn(e, local), BeginBorrow(SelfArg), Apply(Destroyer, ForwardingSubstitutions))
      && Precedes(InstsIn(e, local), Apply(Destroyer, ForwardingSubstitutions), DeallocRef(Cast(DestroyerResult, ClassType)))
      && (!LocalOnly(cd, isIsolated) ==> forall subs :: Apply(Destroyer, subs) !in InstsIn(e, k.remote))
  {
    if LocalOnly(cd, isIsolated) {
      LocalOnlyDestroyer(cd, isIsolated, ins, base);
    } else {
      RemoteDestroyer(cd, isIsolated, ins, base);
    }
  }

  lemma LocalOnlyDestroyer(cd: Nominal, isIsolated: bool, ins: nat, base: nat)
    requires LocalOnly(cd, isIsolated)
    ensures var s := InstsIn(RemoteEntries(cd, isIsolated, DeallocateLocally, ins, base), ins);
      && Precedes(s, BeginBorrow(SelfArg), Apply(Destroyer, ForwardingSubstitutions))
      && Precedes(s, Apply(Destroyer, ForwardingSubstitutions), DeallocRef(Cast(DestroyerResult, ClassType)))
  {
    var s := DeallocateLocallyOps() + [Return(EmptyTuple)];
    LocalOnlyPath(cd, isIsolated, DeallocateLocally, ins, base);
    assert s[1] == BeginBorrow(SelfArg);
    assert s[2] == Apply(Destroyer, ForwardingSubstitutions) && s[6] == DeallocRef(Cast(DestroyerResult, ClassType));
  }

  lemma RemoteDestroyer(cd: Nominal, isIsolated: bool, ins: nat, base: nat)
    requires !LocalOnly(cd, isIsolated) && ins < base
    ensures var e, k := RemoteEntries(cd, isIsolated, DeallocateLocally, ins, base), RemoteBlocksFrom(base);
      && Precedes(InstsIn(e, k.local), BeginBorrow(SelfArg), Apply(Destroyer, ForwardingSubstitutions))
      && Precedes(InstsIn(e, k.local), Apply(Destroyer, ForwardingSubstitutions), DeallocRef(Cast(DestroyerResult, ClassType)))
      && forall subs :: Apply(Destroyer, subs) !in InstsIn(e, k.remote)
  {
    var k := RemoteBlocksFrom(base);
    var s := DeallocateLocallyOps() + [Branch(k.finish)];
    RemoteContents(cd, isIsolated, DeallocateLocally, ins, base, k.local);
    RemoteContents(cd, isIsolated, DeallocateLocally, ins, base, k.remote);
    ProxySkipsLocal(cd, k);
    assert s[1] == BeginBorrow(SelfArg);
    assert s[2] == Apply(Destroyer, ForwardingSubstitutions) && s[6] == DeallocRef(Cast(DestroyerResult, ClassType));
  }

  /** The isolating destructor of a local instance schedules the isolated
      deallocator on the executor and frees nothing itself; a remote proxy of
      a distributed actor is not scheduled but freed in place, once. */
  lemma IsolatingSchedules(cd: Nominal, ins: nat, base: nat)
    requires ins < base
    ensures var e, k := RemoteEntries(cd, false, ScheduleIsolated, ins, base), RemoteBlocksFrom(base);
      && CountReturns(Insts(e)) == 1
      && (!cd.distributedActor ==>
            ScheduleDeinitOnExecutor in InstsIn(e, ins) && CountDeallocs(Insts(e)) == 0)
      && (cd.distributedActor ==>
            && ScheduleDeinitOnExecutor in InstsIn(e, k.local) && CountDeallocs(InstsIn(e, k.local)) == 0
            && ScheduleDeinitOnExecutor !in InstsIn(e, k.remote) && CountDeallocs(InstsIn(e, k.remote)) == 1)
  {
    var k := RemoteBlocksFrom(base);
    RemoteReturns(cd, false, ScheduleIsolated, ins, base);
    ScheduleIsolatedDefers();
    if !cd.distributedActor {
      LocalOnlyPath(cd, false, ScheduleIsolated, ins, base);
    } else {
      RemoteFlow(cd, false, ScheduleIsolated, ins, base);
      RemoteContents(cd, false, ScheduleIsolated, ins, base, k.local);
      RemoteContents(cd, false, ScheduleIsolated, ins, base, k.remote);
      ProxySkipsLocal(cd, k);
    }
  }

  /** The isolating destructor neither references nor calls the destroying
      destructor, with any substitutions: that is left to the isolated
      deallocator. */
  lemma IsolatingDefers(cd: Nominal, ins: nat, base: nat)
    requires ins < base
    ensures var e := RemoteEntries(cd, false, ScheduleIsolated, ins, base);
      && FunctionRef(Destroyer) !in Insts(e)
      && forall subs :: Apply(Destroyer, subs) !in Insts(e)
  {
    var k := RemoteBlocksFrom(base);
    var e := RemoteEntries(cd, false, ScheduleIsolated, ins, base);
    ScheduleIsolatedDefers();
    if !cd.distributedActor {
      InstsAt(ins, ScheduleIsolatedOps() + ReturnOps());
    } else {
      ProxySkipsLocal(cd, k);
      var x, y, z, w := At(ins, [RemoteBranch(k.remote, k.local)]), At(k.remote, ProxyOps(cd, k)),
        At(k.local, LocalBlockOps(ScheduleIsolated, k)), At(k.finish, ReturnOps());
      InstsConcat(x + y + z, w);
      InstsConcat(x + y, z);
      InstsConcat(x, y);
      InstsAt(ins, [RemoteBranch(k.remote, k.local)]);
      InstsAt(k.remote, ProxyOps(cd, k));
      InstsAt(k.local, LocalBlockOps(ScheduleIsolated, k));
      InstsAt(k.finish, ReturnOps());
    }
  }
}
