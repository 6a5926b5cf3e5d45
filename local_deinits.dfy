/** The two local-deinit callbacks handed to `emitDistributedRemoteActorDeinit`:
    what a deallocating destructor does for an instance that is not a remote
    proxy, either by destroying and freeing the object in place or by handing
    it to the actor's executor. */
module LocalDeinits {
  import opened SIL
  import opened SILBuilder

  /** `DeallocateLocally` is the callback of `emitDeallocatingClassDestructor`,
      `ScheduleIsolated` the one of `emitIsolatingDestructor`. */
  datatype LocalDeinit = DeallocateLocally | ScheduleIsolated

  /** The deallocating destructor's local path: call the destroying destructor
      on a borrow of self with the forwarding substitutions, end the lifetime
      of the +1 self argument, and free the object the destroying destructor
      returned, cast back to the class type. */
  function DeallocateLocallyOps(): seq<Inst> {
    [ FunctionRef(Destroyer)
    , BeginBorrow(SelfArg)
    , Apply(Destroyer, ForwardingSubstitutions)
    , EndBorrow(Borrowed(SelfArg))
    , EndLifetime(SelfArg)
    , UncheckedRefCast(DestroyerResult, ClassType)
    , DeallocRef(Cast(DestroyerResult, ClassType)) ]
  }

  /** The isolating destructor's local path: reference the isolated
      deallocator and schedule it, with self, on the actor's executor
      (`swift_task_deinitOnExecutor`). */
  function ScheduleIsolatedOps(): seq<Inst> {
    [FunctionRef(IsolatedDeallocator), ScheduleDeinitOnExecutor]
  }

  function LocalOps(l: LocalDeinit): seq<Inst> {
    match l
    case DeallocateLocally => DeallocateLocallyOps()
    case ScheduleIsolated => ScheduleIsolatedOps()
  }

  method EmitDeallocateLocally(b: Builder)
    requires b.Valid()
    modifies b
    ensures b.Valid() && b.blockCount == old(b.blockCount) && b.insertion == old(b.insertion)
    ensures b.log == old(b.log) + At(old(b.insertion), DeallocateLocallyOps())
  {
    b.Emit(FunctionRef(Destroyer));
    b.Emit(BeginBorrow(SelfArg));
    b.Emit(Apply(Destroyer, ForwardingSubstitutions));
    b.Emit(EndBorrow(Borrowed(SelfArg)));
    b.Emit(EndLifetime(SelfArg));
    b.Emit(UncheckedRefCast(DestroyerResult, ClassType));
    b.Emit(DeallocRef(Cast(DestroyerResult, ClassType)));
  }

  method EmitScheduleIsolated(b: Builder)
    requires b.Valid()
    modifies b
    ensures b.Valid() && b.blockCount == old(b.blockCount) && b.insertion == old(b.insertion)
    ensures b.log == old(b.log) + At(old(b.insertion), ScheduleIsolatedOps())
  {
    b.Emit(FunctionRef(IsolatedDeallocator));
    b.Emit(ScheduleDeinitOnExecutor);
  }

  /** `emitLocalDeinit()`. */
  method EmitLocalDeinit(b: Builder, l: LocalDeinit)
    requires b.Valid()
    modifies b
    ensures b.Valid() && b.blockCount == old(b.blockCount) && b.insertion == old(b.insertion)
    ensures b.log == old(b.log) + At(old(b.insertion), LocalOps(l))
  {
    match l
    case DeallocateLocally => EmitDeallocateLocally(b);
    case ScheduleIsolated => EmitScheduleIsolated(b);
  }

  /** ---- Properties ---- */

  /** Both local paths are straight-line code that touches no stored property,
      returns nowhere and, the destroying destructor's own stages aside, ranks
      in no stage; the one `dealloc_ref` belongs to the in-place path. */
  lemma LocalFacts(l: LocalDeinit)
    ensures var s := LocalOps(l);
      && StraightLine(s) && Balanced(s) && Auxiliary(s, -1)
      && CountReturns(s) == 0
      && CountDeallocs(s) == (if l == DeallocateLocally then 1 else 0)
  {
    match l
    case DeallocateLocally => DeallocateLocallyFacts();
    case ScheduleIsolated => ScheduleIsolatedFacts();
  }

  lemma LocalStraight(l: LocalDeinit)
    ensures StraightLine(LocalOps(l))
  {
    LocalFacts(l);
  }

  lemma LocalCounts(l: LocalDeinit)
    ensures CountReturns(LocalOps(l)) == 0
    ensures CountDeallocs(LocalOps(l)) == (if l == DeallocateLocally then 1 else 0)
  {
    LocalFacts(l);
  }

  lemma LocalBalanced(l: LocalDeinit)
    ensures Balanced(LocalOps(l))
  {
    LocalFacts(l);
  }

  lemma DeallocateLocallyFacts()
    ensures var s := DeallocateLocallyOps();
      && StraightLine(s) && Balanced(s) && Auxiliary(s, -1)
      && CountReturns(s) == 0 && CountDeallocs(s) == 1
  {
    DeallocateLocallyShape();
    DeallocateLocallyCounts();
  }

  lemma DeallocateLocallyShape()
    ensures StraightLine(DeallocateLocallyOps()) && Auxiliary(DeallocateLocallyOps(), -1)
  {
  }

  lemma DeallocateLocallyCounts()
    ensures var s := DeallocateLocallyOps();
      Balanced(s) && CountReturns(s) == 0 && CountDeallocs(s) == 1
  {
    DeallocateLocallyShape();
    OutsideBalanced(DeallocateLocallyOps());
    StraightLineHasNoReturn(DeallocateLocallyOps());
    DeallocateLocallyDeallocs();
  }

  lemma DeallocateLocallyDeallocs()
    ensures CountDeallocs(DeallocateLocallyOps()) == 1
  {
    var s := DeallocateLocallyOps();
    var pre, last := s[..6], [DeallocRef(Cast(DestroyerResult, ClassType))];
    assert pre + last == s;
    CountDeallocsNone(pre);
    CountDeallocsConcat(pre, last);
  }

  lemma ScheduleIsolatedFacts()
    ensures var s := ScheduleIsolatedOps();
      && StraightLine(s) && Balanced(s) && Auxiliary(s, -1)
      && CountReturns(s) == 0 && CountDeallocs(s) == 0
  {
    var s := ScheduleIsolatedOps();
    OutsideBalanced(s);
    StraightLineHasNoReturn(s);
    CountDeallocsNone(s);
  }

  /** In place, the destroying destructor runs inside a borrow of self, and the
      object is freed only after that borrow closed and self's +1 was balanced
      by `end_lifetime`; what is freed is the destroying destructor's result,
      as a class reference. */
  lemma DeallocateLocallyOrder()
    ensures var s := DeallocateLocallyOps();
      && Precedes(s, BeginBorrow(SelfArg), Apply(Destroyer, ForwardingSubstitutions))
      && Precedes(s, Apply(Destroyer, ForwardingSubstitutions), EndBorrow(Borrowed(SelfArg)))
      && Precedes(s, EndBorrow(Borrowed(SelfArg)), EndLifetime(SelfArg))
      && Precedes(s, EndLifetime(SelfArg), DeallocRef(Cast(DestroyerResult, ClassType)))
  {
    var s := DeallocateLocallyOps();
    assert s[1] == BeginBorrow(SelfArg);
    assert s[2] == Apply(Destroyer, ForwardingSubstitutions) && s[3] == EndBorrow(Borrowed(SelfArg));
    assert s[4] == EndLifetime(SelfArg) && s[6] == DeallocRef(Cast(DestroyerResult, ClassType));
  }

  lemma DeallocateLocallyFrees()
    ensures var s := DeallocateLocallyOps();
      forall k :: 0 <= k < |s| && s[k].DeallocRef? ==> s[k].value == Cast(DestroyerResult, ClassType)
  {
  }

  /** The isolated path neither runs the destroying destructor nor frees the
      object: both are left to the isolated deallocator on the executor. */
  lemma ScheduleIsolatedDefers()
    ensures var s := ScheduleIsolatedOps();
      && ScheduleDeinitOnExecutor in s
      && (forall subs :: Apply(Destroyer, subs) !in s)
      && FunctionRef(Destroyer) !in s
      && forall k :: 0 <= k < |s| ==> !s[k].DeallocRef?
  {
    assert ScheduleIsolatedOps()[1] == ScheduleDeinitOnExecutor;
  }
}
