/** The destructors of a class: the destroying destructor (the user's deinit
    body, then the superclass's destroying destructor, identity resignation and
    member destruction, returning self as a `Builtin.NativeObject` at +1), the
    ivar destroyer (member destruction alone), and the deallocating and
    isolating destructors, which are the remote-actor entry with their own
    local deinit. */
module ClassDestructors {
  import opened Decls
  import opened SIL
  import opened SILBuilder
  import opened Members
  import opened ClassMembers
  import opened LocalDeinits
  import opened RemoteActor

  /** The superclass's context substitution map: absent (a non-generic
      superclass), present with every generic parameter concrete, or present
      with open parameters. */
  datatype SuperSubstitutions = NoSubstitutionMap | AllParamsConcrete | HasOpenParams

  /** What the destroying destructor is lowered from, beyond the class itself:
      whether the deinit's isolation yields an executor to check, whether the
      epilog can be reached once the body is lowered, the superclass's
      substitutions, and the ownership kind self arrives with. */
  datatype DestroyingSetup = DestroyingSetup(
    cd: Nominal, hasExecutor: bool, epilogReachable: bool,
    superSubs: SuperSubstitutions, selfOwnership: Ownership)

  /** The superclass's destroying destructor is called when there is a
      superclass and it is not a native `NSObject` subclass. */
  predicate SuperPath(cd: Nominal) {
    cd.hasSuperclass && !cd.nativeNSObjectSubclass
  }

  /** The generic signature is dropped entirely when all its parameters are
      concrete. */
  function SuperSubs(s: SuperSubstitutions): Substitutions {
    if s == HasOpenParams then ContextSubstitutions else NoSubstitutions
  }

  /** The executor check, when there is an executor, then the body. */
  function PreludeOps(hasExecutor: bool): seq<Inst> {
    (if hasExecutor then [ExecutorPrecondition] else []) + [UserBody]
  }

  function SuperOps(d: DestroyingSetup): seq<Inst> {
    if SuperPath(d.cd) then [Upcast, FunctionRef(SuperclassDestroyer), Apply(SuperclassDestroyer, SuperSubs(d.superSubs))]
    else []
  }

  /** The object the destructor returns: what the superclass's destroying
      destructor handed back, or self. */
  function ResultSelf(cd: Nominal): Val {
    if SuperPath(cd) then SuperclassResult else SelfArg
  }

  /** `borrowObjectRValue` borrows an owned value and passes a guaranteed one
      through. */
  predicate NeedsBorrow(d: DestroyingSetup) {
    OwnershipOf(ResultSelf(d.cd), d.selfOwnership) == Owned
  }

  function BorrowedSelf(d: DestroyingSetup): Val {
    if NeedsBorrow(d) then Borrowed(ResultSelf(d.cd)) else ResultSelf(d.cd)
  }

  /** The self member destruction works on: the borrow, cast back to the class
      type when it is not of that type. */
  function MemberSelf(d: DestroyingSetup): Val {
    var v := BorrowedSelf(d);
    if TypeOf(v) != Some(ClassType) then Cast(v, ClassType) else v
  }

  function BorrowOps(d: DestroyingSetup): seq<Inst> {
    var v := BorrowedSelf(d);
    (if NeedsBorrow(d) then [BeginBorrow(ResultSelf(d.cd))] else [])
    + (if TypeOf(v) != Some(ClassType) then [UncheckedRefCast(v, ClassType)] else [])
  }

  /** `emitDistributedActorSystemResignIDCall`, for a distributed actor. */
  function ResignOps(cd: Nominal): seq<Inst> {
    if cd.distributedActor then [ResignID] else []
  }

  /** The epilog up to member destruction. */
  function EpilogHead(d: DestroyingSetup): seq<Inst> {
    SuperOps(d) + BorrowOps(d) + ResignOps(d.cd)
  }

  function CastResult(d: DestroyingSetup): Val {
    var r := ResultSelf(d.cd);
    if TypeOf(r) != Some(NativeObjectType) then Cast(r, NativeObjectType) else r
  }

  /** The returned value: the result cast to `Builtin.NativeObject` and, when
      it is not owned, converted to owned. */
  function ReturnedSelf(d: DestroyingSetup): Val {
    var r := CastResult(d);
    if OwnershipOf(r, d.selfOwnership) != Owned then Converted(r, Owned) else r
  }

  /** The end of the borrow, and the conversions of the returned value. */
  function ReleaseOps(d: DestroyingSetup): seq<Inst> {
    var r := ResultSelf(d.cd);
    (if NeedsBorrow(d) then [EndBorrow(Borrowed(r))] else [])
    + (if TypeOf(r) != Some(NativeObjectType) then [UncheckedRefCast(r, NativeObjectType)] else [])
    + (if OwnershipOf(CastResult(d), d.selfOwnership) != Owned then [UncheckedOwnershipConversion(CastResult(d), Owned)] else [])
  }

  /** The epilog after member destruction. */
  function EpilogTail(d: DestroyingSetup): seq<Inst> {
    ReleaseOps(d) + [Return(ReturnedSelf(d))]
  }

  function DestroyingBlocks(d: DestroyingSetup): nat {
    if d.epilogReachable then MemberBlocks(d.cd.storedProperties) else 0
  }

  function DestroyingExit(d: DestroyingSetup, ins: nat, base: nat): nat {
    if d.epilogReachable then MemberExit(d.cd.storedProperties, ins, base) else ins
  }

  /** The epilog, when it can be reached: the head in the insertion block,
      member destruction, and the tail in the block member destruction ends in. */
  function EpilogEntries(d: DestroyingSetup, ins: nat, base: nat): seq<Entry> {
    if d.epilogReachable then
      At(ins, EpilogHead(d)) + ClassMemberEntries(d.cd, ins, base)
      + At(MemberExit(d.cd.storedProperties, ins, base), EpilogTail(d))
    else []
  }

  /** What the destroying destructor appends to the log. */
  function DestroyingEntries(d: DestroyingSetup, ins: nat, base: nat): seq<Entry> {
    At(ins, PreludeOps(d.hasExecutor)) + EpilogEntries(d, ins, base)
  }

  /** The self member destruction is handed is guaranteed and of the class
      type, as `emitClassMemberDestruction` demands. */
  lemma MemberSelfFacts(d: DestroyingSetup)
    requires SuperPath(d.cd) || d.selfOwnership == Owned || d.selfOwnership == Guaranteed
    ensures OwnershipOf(MemberSelf(d), d.selfOwnership) == Guaranteed
    ensures TypeOf(MemberSelf(d)) == Some(ClassType)
  {
    if !SuperPath(d.cd) && d.selfOwnership == Guaranteed {
      assert MemberSelf(d) == SelfArg;
    }
  }

  method EmitPrelude(b: Builder, hasExecutor: bool)
    requires b.Valid()
    modifies b
    ensures b.Valid() && b.blockCount == old(b.blockCount) && b.insertion == old(b.insertion)
    ensures b.log == old(b.log) + At(old(b.insertion), PreludeOps(hasExecutor))
  {
    ghost var log0, ins := b.log, b.insertion;
    ghost var check: seq<Inst> := if hasExecutor then [ExecutorPrecondition] else [];
    if hasExecutor {
      b.Emit(ExecutorPrecondition);
    } else {
      assert log0 + At(ins, check) == log0;
    }
    b.Emit(UserBody);
    AtConcat(ins, check, [UserBody]);
    AppendAssoc(log0, At(ins, check), At(ins, [UserBody]));
  }

  /** The upcast, the reference to the superclass's destroying destructor, and
      its application. */
  method EmitSuperclassDestroyerCall(b: Builder, d: DestroyingSetup) returns (resultSelf: Val)
    requires b.Valid()
    modifies b
    ensures resultSelf == ResultSelf(d.cd)
    ensures b.Valid() && b.blockCount == old(b.blockCount) && b.insertion == old(b.insertion)
    ensures b.log == old(b.log) + At(old(b.insertion), SuperOps(d))
  {
    if d.cd.hasSuperclass && !d.cd.nativeNSObjectSubclass {
      var subs := if d.superSubs == HasOpenParams then ContextSubstitutions else NoSubstitutions;
      b.Emit(Upcast);
      b.Emit(FunctionRef(SuperclassDestroyer));
      b.Emit(Apply(SuperclassDestroyer, subs));
      resultSelf := SuperclassResult;
    } else {
      resultSelf := SelfArg;
    }
  }

  /** `borrowObjectRValue` and the cast back to the class type. */
  method EmitMemberBorrow(b: Builder, d: DestroyingSetup, resultSelf: Val) returns (memberSelf: Val)
    requires b.Valid() && resultSelf == ResultSelf(d.cd)
    modifies b
    ensures memberSelf == MemberSelf(d)
    ensures b.Valid() && b.blockCount == old(b.blockCount) && b.insertion == old(b.insertion)
    ensures b.log == old(b.log) + At(old(b.insertion), BorrowOps(d))
  {
    ghost var log0, ins := b.log, b.insertion;
    ghost var borrow: seq<Inst> := if NeedsBorrow(d) then [BeginBorrow(resultSelf)] else [];
    memberSelf := resultSelf;
    if OwnershipOf(resultSelf, d.selfOwnership) == Owned {
      b.Emit(BeginBorrow(resultSelf));
      memberSelf := Borrowed(resultSelf);
    }
    ghost var log1 := b.log;
    assert log1 == log0 + At(ins, borrow);
    ghost var cast: seq<Inst> := if TypeOf(memberSelf) != Some(ClassType) then [UncheckedRefCast(memberSelf, ClassType)] else [];
    if TypeOf(memberSelf) != Some(ClassType) {
      b.Emit(UncheckedRefCast(memberSelf, ClassType));
      memberSelf := Cast(memberSelf, ClassType);
    } else {
      assert log1 + At(ins, cast) == log1;
    }
    AtConcat(ins, borrow, cast);
    AppendAssoc(log0, At(ins, borrow), At(ins, cast));
  }

  method EmitResignID(b: Builder, cd: Nominal)
    requires b.Valid()
    modifies b
    ensures b.Valid() && b.blockCount == old(b.blockCount) && b.insertion == old(b.insertion)
    ensures b.log == old(b.log) + At(old(b.insertion), ResignOps(cd))
  {
    if cd.distributedActor {
      b.Emit(ResignID);
    }
  }

  method EmitEpilogHead(b: Builder, d: DestroyingSetup) returns (resultSelf: Val, memberSelf: Val)
    requires b.Valid()
    modifies b
    ensures resultSelf == ResultSelf(d.cd) && memberSelf == MemberSelf(d)
    ensures b.Valid() && b.blockCount == old(b.blockCount) && b.insertion == old(b.insertion)
    ensures b.log == old(b.log) + At(old(b.insertion), EpilogHead(d))
  {
    ghost var log0, ins := b.log, b.insertion;
    resultSelf := EmitSuperclassDestroyerCall(b, d);
    memberSelf := EmitMemberBorrow(b, d, resultSelf);
    EmitResignID(b, d.cd);
    AtConcat(ins, SuperOps(d), BorrowOps(d));
    AtConcat(ins, SuperOps(d) + BorrowOps(d), ResignOps(d.cd));
    AppendAssoc3(log0, At(ins, SuperOps(d)), At(ins, BorrowOps(d)), At(ins, ResignOps(d.cd)));
  }

  /** The end of the argument scope, the conversions of the result, and the
      return. */
  method EmitEpilogTail(b: Builder, d: DestroyingSetup, resultSelf: Val)
    requires b.Valid() && resultSelf == ResultSelf(d.cd)
    modifies b
    ensures b.Valid() && b.blockCount == old(b.blockCount) && b.insertion == old(b.insertion)
    ensures b.log == old(b.log) + At(old(b.insertion), EpilogTail(d))
  {
    ghost var log0, ins := b.log, b.insertion;
    EmitReleaseSelf(b, d, resultSelf);
    b.Emit(Return(ReturnedSelf(d)));
    AtConcat(ins, ReleaseOps(d), [Return(ReturnedSelf(d))]);
    AppendAssoc(log0, At(ins, ReleaseOps(d)), At(ins, [Return(ReturnedSelf(d))]));
  }

  method EmitReleaseSelf(b: Builder, d: DestroyingSetup, resultSelf: Val)
    requires b.Valid() && resultSelf == ResultSelf(d.cd)
    modifies b
    ensures b.Valid() && b.blockCount == old(b.blockCount) && b.insertion == old(b.insertion)
    ensures b.log == old(b.log) + At(old(b.insertion), ReleaseOps(d))
  {
    ghost var log0, ins := b.log, b.insertion;
    ghost var x: seq<Inst> := if NeedsBorrow(d) then [EndBorrow(Borrowed(resultSelf))] else [];
    ghost var y: seq<Inst> := if TypeOf(resultSelf) != Some(NativeObjectType) then [UncheckedRefCast(resultSelf, NativeObjectType)] else [];
    ghost var z: seq<Inst> := if OwnershipOf(CastResult(d), d.selfOwnership) != Owned then [UncheckedOwnershipConversion(CastResult(d), Owned)] else [];
    if OwnershipOf(resultSelf, d.selfOwnership) == Owned {
      b.Emit(EndBorrow(Borrowed(resultSelf)));
    }
    ghost var log1 := b.log;
    assert log1 == log0 + At(ins, x);
    var returned := resultSelf;
    if TypeOf(returned) != Some(NativeObjectType) {
      b.Emit(UncheckedRefCast(returned, NativeObjectType));
      returned := Cast(returned, NativeObjectType);
    }
    ghost var log2 := b.log;
    assert log2 == log1 + At(ins, y);
    if OwnershipOf(returned, d.selfOwnership) != Owned {
      b.Emit(UncheckedOwnershipConversion(returned, Owned));
    }
    assert b.log == log2 + At(ins, z);
    AtConcat(ins, x, y);
    AtConcat(ins, x + y, z);
    AppendAssoc3(log0, At(ins, x), At(ins, y), At(ins, z));
  }

  /** `emitDestroyingDestructor`.  The source asserts that the value it
      returns is owned or guaranteed before converting it, which for self
      means self arrives owned or guaranteed. */
  method EmitDestroyingDestructor(b: Builder, d: DestroyingSetup)
    requires b.Valid() && d.cd.kind == ClassDecl
    requires d.epilogReachable && !SuperPath(d.cd) ==> d.selfOwnership == Owned || d.selfOwnership == Guaranteed
    modifies b
    ensures b.Valid() && b.blockCount == old(b.blockCount) + DestroyingBlocks(d)
    ensures b.insertion == DestroyingExit(d, old(b.insertion), old(b.blockCount))
    ensures b.log == old(b.log) + DestroyingEntries(d, old(b.insertion), old(b.blockCount))
  {
    ghost var log0, ins, base := b.log, b.insertion, b.blockCount;
    EmitPrelude(b, d.hasExecutor);
    ghost var prelude := At(ins, PreludeOps(d.hasExecutor));
    if !d.epilogReachable {
      assert b.log == log0 + (prelude + []);
      return;
    }
    ghost var log1 := b.log;
    var resultSelf, memberSelf := EmitEpilogHead(b, d);
    MemberSelfFacts(d);
    EmitClassMemberDestruction(b, d.cd, memberSelf, d.selfOwnership);
    EmitEpilogTail(b, d, resultSelf);
    ghost var x, y, z := At(ins, EpilogHead(d)), ClassMemberEntries(d.cd, ins, base),
      At(MemberExit(d.cd.storedProperties, ins, base), EpilogTail(d));
    AppendAssoc3(log1, x, y, z);
    assert EpilogEntries(d, ins, base) == x + y + z;
    AppendAssoc(log0, prelude, x + y + z);
  }

  /** ---- Properties of the destroying destructor ---- */

  /** The epilog in emission order, blocks forgotten. */
  function EpilogOps(d: DestroyingSetup, ins: nat, base: nat): seq<Inst> {
    if d.epilogReachable then EpilogHead(d) + Insts(ClassMemberEntries(d.cd, ins, base)) + EpilogTail(d) else []
  }

  lemma DestroyingInsts(d: DestroyingSetup, ins: nat, base: nat)
    ensures Insts(DestroyingEntries(d, ins, base)) == PreludeOps(d.hasExecutor) + EpilogOps(d, ins, base)
  {
    var e := EpilogEntries(d, ins, base);
    InstsConcat(At(ins, PreludeOps(d.hasExecutor)), e);
    InstsAt(ins, PreludeOps(d.hasExecutor));
    if d.epilogReachable {
      var x, y, z := At(ins, EpilogHead(d)), ClassMemberEntries(d.cd, ins, base),
        At(MemberExit(d.cd.storedProperties, ins, base), EpilogTail(d));
      InstsConcat(x + y, z);
      InstsConcat(x, y);
      InstsAt(ins, EpilogHead(d));
      InstsAt(MemberExit(d.cd.storedProperties, ins, base), EpilogTail(d));
    }
  }

  lemma PreludeFacts(hasExecutor: bool)
    ensures var s := PreludeOps(hasExecutor);
      && Balanced(s) && StagesOrdered(s) && StagesWithin(s, 0, 1)
      && CountReturns(s) == 0 && DestroyedFields(s) == []
      && s[|s| - 1] == UserBody
  {
    PreludeStages(hasExecutor);
    PreludeCounts(hasExecutor);
    PreludeBalanced(hasExecutor);
  }

  lemma PreludeStages(hasExecutor: bool)
    ensures var s := PreludeOps(hasExecutor); StagesOrdered(s) && StagesWithin(s, 0, 1)
  {
    var c: seq<Inst>, u := if hasExecutor then [ExecutorPrecondition] else [], [UserBody];
    assert Auxiliary(c, 0) && Auxiliary(u, 1);
    AuxiliaryFacts(c, 0);
    AuxiliaryFacts(u, 1);
    StagesWiden(u, 1, 1, 0, 1);
    StagesConcat(c, u, 0, 0, 1);
  }

  lemma PreludeCounts(hasExecutor: bool)
    ensures var s := PreludeOps(hasExecutor);
      CountReturns(s) == 0 && DestroyedFields(s) == [] && s[|s| - 1] == UserBody
  {
    var c: seq<Inst>, u := if hasExecutor then [ExecutorPrecondition] else [], [UserBody];
    CountReturnsConcat(c, u);
    DestroyedFieldsConcat(c, u);
  }

  lemma PreludeBalanced(hasExecutor: bool)
    ensures Balanced(PreludeOps(hasExecutor))
  {
    OutsideBalanced(PreludeOps(hasExecutor));
  }


  lemma SuperOpsFacts(d: DestroyingSetup)
    ensures Auxiliary(SuperOps(d), 2) && Balanced(SuperOps(d))
  {
    OutsideBalanced(SuperOps(d));
  }

  /** The borrow and the cast rank in no stage, so in any. */
  lemma BorrowOpsFacts(d: DestroyingSetup, v: int)
    ensures Auxiliary(BorrowOps(d), v) && Balanced(BorrowOps(d))
    ensures ResignID !in BorrowOps(d)
  {
    OutsideBalanced(BorrowOps(d));
  }

  lemma ResignOpsFacts(cd: Nominal)
    ensures Auxiliary(ResignOps(cd), 3) && Balanced(ResignOps(cd))
  {
    OutsideBalanced(ResignOps(cd));
  }

  lemma ReleaseOpsFacts(d: DestroyingSetup)
    ensures Auxiliary(ReleaseOps(d), 7) && Balanced(ReleaseOps(d))
  {
    OutsideBalanced(ReleaseOps(d));
  }

  /** The head ranks with the superclass call and the resignation, and no more. */
  lemma HeadStages(d: DestroyingSetup)
    ensures var s := EpilogHead(d);
      && StagesOrdered(s) && StagesWithin(s, 2, 3) && CountReturns(s) == 0 && DestroyedFields(s) == []
  {
    var sb, r := SuperOps(d) + BorrowOps(d), ResignOps(d.cd);
    SuperOpsFacts(d);
    BorrowOpsFacts(d, 2);
    ResignOpsFacts(d.cd);
    AuxiliaryConcat(SuperOps(d), BorrowOps(d), 2);
    AuxiliaryFacts(sb, 2);
    AuxiliaryFacts(r, 3);
    StagesWiden(r, 3, 3, 2, 3);
    StagesConcat(sb, r, 2, 2, 3);
    CountReturnsConcat(sb, r);
    DestroyedFieldsConcat(sb, r);
  }

  lemma HeadCounts(d: DestroyingSetup)
    ensures CountReturns(EpilogHead(d)) == 0 && DestroyedFields(EpilogHead(d)) == []
  {
    HeadStages(d);
  }

  lemma HeadBalanced(d: DestroyingSetup)
    ensures Balanced(EpilogHead(d))
  {
    SuperOpsFacts(d);
    BorrowOpsFacts(d, 2);
    ResignOpsFacts(d.cd);
    BalancedConcat(SuperOps(d), BorrowOps(d));
    BalancedConcat(SuperOps(d) + BorrowOps(d), ResignOps(d.cd));
  }

  /** The superclass's destroying destructor is applied in the head exactly
      when there is a superclass to call, with the substitutions above. */
  lemma HeadSuperCall(d: DestroyingSetup, subs: Substitutions)
    ensures Apply(SuperclassDestroyer, subs) in EpilogHead(d) <==> SuperPath(d.cd) && subs == SuperSubs(d.superSubs)
  {
    if SuperPath(d.cd) && subs == SuperSubs(d.superSubs) {
      assert SuperOps(d)[2] == Apply(SuperclassDestroyer, subs);
    }
  }

  lemma HeadResigns(d: DestroyingSetup)
    ensures ResignID in EpilogHead(d) <==> d.cd.distributedActor
  {
    BorrowOpsFacts(d, 2);
    if d.cd.distributedActor {
      assert ResignOps(d.cd)[0] == ResignID;
    }
  }

  lemma TailStages(d: DestroyingSetup)
    ensures var s := EpilogTail(d); StagesOrdered(s) && StagesWithin(s, 7, 7)
  {
    var r, t := ReleaseOps(d), [Return(ReturnedSelf(d))];
    ReleaseOpsFacts(d);
    AuxiliaryFacts(r, 7);
    UniformStages(t, 7);
    StagesConcat(r, t, 7, 7, 7);
  }

  lemma TailCounts(d: DestroyingSetup)
    ensures var s := EpilogTail(d);
      && CountReturns(s) == 1 && DestroyedFields(s) == [] && s[|s| - 1] == Return(ReturnedSelf(d))
  {
    var r, t := ReleaseOps(d), [Return(ReturnedSelf(d))];
    ReleaseOpsFacts(d);
    AuxiliaryFacts(r, 7);
    CountReturnsConcat(r, t);
    DestroyedFieldsConcat(r, t);
  }

  lemma TailBalanced(d: DestroyingSetup)
    ensures Balanced(EpilogTail(d))
  {
    ReleaseOpsFacts(d);
    OutsideBalanced([Return(ReturnedSelf(d))]);
    BalancedConcat(ReleaseOps(d), [Return(ReturnedSelf(d))]);
  }

  /** The destructor returns a `Builtin.NativeObject` at +1. */
  lemma ReturnedSelfFacts(d: DestroyingSetup)
    ensures TypeOf(ReturnedSelf(d)) == Some(NativeObjectType)
    ensures OwnershipOf(ReturnedSelf(d), d.selfOwnership) == Owned
  {
    var r := CastResult(d);
    assert TypeOf(r) == Some(NativeObjectType);
  }

  /** An unreachable epilog leaves nothing after the body: no member is
      destroyed and nothing is returned. */
  lemma DestroyingUnreachable(d: DestroyingSetup, ins: nat, base: nat)
    requires !d.epilogReachable
    ensures var s := Insts(DestroyingEntries(d, ins, base));
      && s == PreludeOps(d.hasExecutor) && s[|s| - 1] == UserBody
      && CountReturns(s) == 0 && DestroyedFields(s) == []
  {
    DestroyingInsts(d, ins, base);
    assert PreludeOps(d.hasExecutor) + [] == PreludeOps(d.hasExecutor);
    PreludeCounts(d.hasExecutor);
  }

  lemma EpilogStages(d: DestroyingSetup, ins: nat, base: nat)
    requires d.epilogReachable
    ensures var s := EpilogOps(d, ins, base); StagesOrdered(s) && StagesWithin(s, 2, 7)
  {
    var h, m, t := EpilogHead(d), Insts(ClassMemberEntries(d.cd, ins, base)), EpilogTail(d);
    HeadStages(d);
    ClassMemberStages(d.cd, ins, base);
    TailStages(d);
    StagesWiden(m, 4, 6, 3, 6);
    StagesConcat(h, m, 2, 3, 6);
    StagesWiden(t, 7, 7, 6, 7);
    StagesConcat(h + m, t, 2, 6, 7);
  }

  /** The stages come in order: executor check, body, superclass destroyer,
      resignation, stored properties, chain loop, default-actor teardown,
      return. */
  lemma DestroyingStages(d: DestroyingSetup, ins: nat, base: nat)
    ensures var s := Insts(DestroyingEntries(d, ins, base)); StagesOrdered(s) && StagesWithin(s, 0, 7)
  {
    var p, e := PreludeOps(d.hasExecutor), EpilogOps(d, ins, base);
    DestroyingInsts(d, ins, base);
    PreludeStages(d.hasExecutor);
    if d.epilogReachable {
      EpilogStages(d, ins, base);
      StagesWiden(e, 2, 7, 1, 7);
    }
    StagesConcat(p, e, 0, 1, 7);
  }

  /** In particular the identity is resigned before any stored property is
      destroyed. */
  lemma ResignBeforeMembers(d: DestroyingSetup, ins: nat, base: nat)
    ensures var s := Insts(DestroyingEntries(d, ins, base));
      forall p, q :: 0 <= p < |s| && 0 <= q < |s| && s[p] == ResignID && s[q].DestroyAddr? && s[q].place.SelfField? ==> p < q
  {
    DestroyingStages(d, ins, base);
    ResignPrecedesFields(Insts(DestroyingEntries(d, ins, base)));
  }

  lemma EpilogReturns(d: DestroyingSetup, ins: nat, base: nat)
    requires d.epilogReachable
    ensures var s := EpilogOps(d, ins, base); CountReturns(s) == 1 && s[|s| - 1] == Return(ReturnedSelf(d))
  {
    var h, m, t := EpilogHead(d), Insts(ClassMemberEntries(d.cd, ins, base)), EpilogTail(d);
    HeadCounts(d);
    ClassMemberNoReturn(d.cd, ins, base);
    TailCounts(d);
    CountReturnsConcat(h + m, t);
    CountReturnsConcat(h, m);
  }

  lemma EpilogDestroys(d: DestroyingSetup, ins: nat, base: nat)
    requires d.epilogReachable
    ensures DestroyedFields(EpilogOps(d, ins, base))
      == Destroyed(MemberSelector(d.cd.storedProperties), d.cd.storedProperties, |d.cd.storedProperties|)
  {
    var h, m, t := EpilogHead(d), Insts(ClassMemberEntries(d.cd, ins, base)), EpilogTail(d);
    var dm := Destroyed(MemberSelector(d.cd.storedProperties), d.cd.storedProperties, |d.cd.storedProperties|);
    HeadCounts(d);
    ClassMemberDestroys(d.cd, ins, base);
    TailCounts(d);
    DestroyedFieldsConcat(h + m, t);
    DestroyedFieldsConcat(h, m);
    assert [] + dm + [] == dm;
  }

  /** A reachable epilog returns exactly once, at the very end, a
      `Builtin.NativeObject` at +1; it destroys exactly the stored properties
      member destruction destroys. */
  lemma DestroyingReturn(d: DestroyingSetup, ins: nat, base: nat)
    requires d.epilogReachable
    ensures var s := Insts(DestroyingEntries(d, ins, base));
      && CountReturns(s) == 1 && s[|s| - 1] == Return(ReturnedSelf(d))
      && TypeOf(ReturnedSelf(d)) == Some(NativeObjectType)
      && OwnershipOf(ReturnedSelf(d), d.selfOwnership) == Owned
  {
    var p, e := PreludeOps(d.hasExecutor), EpilogOps(d, ins, base);
    DestroyingInsts(d, ins, base);
    PreludeCounts(d.hasExecutor);
    EpilogReturns(d, ins, base);
    CountReturnsConcat(p, e);
    ReturnedSelfFacts(d);
  }

  /** The stored properties destroyed are exactly those member destruction
      destroys when the epilog is reached, and none otherwise. */
  lemma DestroyingDestroys(d: DestroyingSetup, ins: nat, base: nat)
    ensures var fields, s := d.cd.storedProperties, Insts(DestroyingEntries(d, ins, base));
      DestroyedFields(s) == if d.epilogReachable then Destroyed(MemberSelector(fields), fields, |fields|) else []
  {
    var p, e := PreludeOps(d.hasExecutor), EpilogOps(d, ins, base);
    DestroyingInsts(d, ins, base);
    PreludeCounts(d.hasExecutor);
    DestroyedFieldsConcat(p, e);
    if d.epilogReachable {
      EpilogDestroys(d, ins, base);
    } else {
      assert DestroyedFields(e) == [];
    }
  }

  lemma EpilogSuperCall(d: DestroyingSetup, ins: nat, base: nat, subs: Substitutions)
    requires d.epilogReachable
    ensures Apply(SuperclassDestroyer, subs) in EpilogOps(d, ins, base) <==> SuperPath(d.cd) && subs == SuperSubs(d.superSubs)
  {
    var h, m, t := EpilogHead(d), Insts(ClassMemberEntries(d.cd, ins, base)), EpilogTail(d);
    HeadSuperCall(d, subs);
    ClassMemberStages(d.cd, ins, base);
    StageExcludes(m, 4, 6, Apply(SuperclassDestroyer, subs));
    TailStages(d);
    StageExcludes(t, 7, 7, Apply(SuperclassDestroyer, subs));
  }

  /** The superclass's destroying destructor is applied exactly when the
      epilog is reached and there is a superclass to call; its substitutions
      are the superclass's context substitutions unless the map is absent or
      all its parameters are concrete. */
  lemma DestroyingSuperCall(d: DestroyingSetup, ins: nat, base: nat, subs: Substitutions)
    ensures Apply(SuperclassDestroyer, subs) in Insts(DestroyingEntries(d, ins, base)) <==>
      d.epilogReachable && SuperPath(d.cd) && subs == (if d.superSubs == HasOpenParams then ContextSubstitutions else NoSubstitutions)
  {
    var p, e := PreludeOps(d.hasExecutor), EpilogOps(d, ins, base);
    DestroyingInsts(d, ins, base);
    PreludeStages(d.hasExecutor);
    StageExcludes(p, 0, 1, Apply(SuperclassDestroyer, subs));
    if d.epilogReachable {
      EpilogSuperCall(d, ins, base, subs);
    }
  }

  lemma EpilogResigns(d: DestroyingSetup, ins: nat, base: nat)
    requires d.epilogReachable
    ensures ResignID in EpilogOps(d, ins, base) <==> d.cd.distributedActor
  {
    var h, m, t := EpilogHead(d), Insts(ClassMemberEntries(d.cd, ins, base)), EpilogTail(d);
    HeadResigns(d);
    ClassMemberStages(d.cd, ins, base);
    StageExcludes(m, 4, 6, ResignID);
    TailStages(d);
    StageExcludes(t, 7, 7, ResignID);
  }

  /** A distributed actor resigns its identity, once the epilog is reached. */
  lemma DestroyingResigns(d: DestroyingSetup, ins: nat, base: nat)
    ensures ResignID in Insts(DestroyingEntries(d, ins, base)) <==> d.epilogReachable && d.cd.distributedActor
  {
    var p, e := PreludeOps(d.hasExecutor), EpilogOps(d, ins, base);
    DestroyingInsts(d, ins, base);
    PreludeStages(d.hasExecutor);
    StageExcludes(p, 0, 1, ResignID);
    if d.epilogReachable {
      EpilogResigns(d, ins, base);
    }
  }

  lemma EpilogBalanced(d: DestroyingSetup, ins: nat, base: nat)
    requires d.epilogReachable
    ensures AccessBalanced(EpilogEntries(d, ins, base))
  {
    var exit := MemberExit(d.cd.storedProperties, ins, base);
    var x, y, z := At(ins, EpilogHead(d)), ClassMemberEntries(d.cd, ins, base), At(exit, EpilogTail(d));
    HeadBalanced(d);
    TailBalanced(d);
    AccessBalancedAt(ins, EpilogHead(d));
    ClassMemberBalanced(d.cd, ins, base);
    AccessBalancedAt(exit, EpilogTail(d));
    AccessBalancedConcat(x, y);
    AccessBalancedConcat(x + y, z);
  }

  /** Every block the destroying destructor writes to is access-balanced. */
  lemma DestroyingBalanced(d: DestroyingSetup, ins: nat, base: nat)
    ensures AccessBalanced(DestroyingEntries(d, ins, base))
  {
    PreludeBalanced(d.hasExecutor);
    AccessBalancedAt(ins, PreludeOps(d.hasExecutor));
    if d.epilogReachable {
      EpilogBalanced(d, ins, base);
    } else {
      assert forall bb :: InstsIn(EpilogEntries(d, ins, base), bb) == [];
    }
    AccessBalancedConcat(At(ins, PreludeOps(d.hasExecutor)), EpilogEntries(d, ins, base));
  }

  /** ---- The ivar destroyer ---- */

  /** A self that does not arrive guaranteed (an unowned Objective-C self) is
      converted to guaranteed, and the conversion is borrowed for the duration
      of member destruction. */
  function IVarSelf(selfOwnership: Ownership): Val {
    if selfOwnership != Guaranteed then Converted(SelfArg, Guaranteed) else SelfArg
  }

  function IVarHead(selfOwnership: Ownership): seq<Inst> {
    if selfOwnership != Guaranteed then [UncheckedOwnershipConversion(SelfArg, Guaranteed)] else []
  }

  /** The end of the scope, then the return of the empty tuple. */
  function IVarTail(selfOwnership: Ownership): seq<Inst> {
    (if selfOwnership != Guaranteed then [EndBorrow(Converted(SelfArg, Guaranteed))] else []) + [Return(EmptyTuple)]
  }

  /** What the ivar destroyer appends to the log. */
  function IVarEntries(cd: Nominal, selfOwnership: Ownership, ins: nat, base: nat): seq<Entry> {
    At(ins, IVarHead(selfOwnership)) + ClassMemberEntries(cd, ins, base)
    + At(MemberExit(cd.storedProperties, ins, base), IVarTail(selfOwnership))
  }

  lemma IVarEntriesUnfold(cd: Nominal, selfOwnership: Ownership, ins: nat, base: nat)
    ensures IVarEntries(cd, selfOwnership, ins, base) ==
      At(ins, IVarHead(selfOwnership)) + ClassMemberEntries(cd, ins, base)
      + At(MemberExit(cd.storedProperties, ins, base), IVarTail(selfOwnership))
  {
  }

  /** `emitIVarDestroyer`. */
  method EmitIVarDestroyer(b: Builder, cd: Nominal, selfOwnership: Ownership)
    requires b.Valid() && cd.kind == ClassDecl
    modifies b
    ensures b.Valid() && b.blockCount == old(b.blockCount) + MemberBlocks(cd.storedProperties)
    ensures b.insertion == MemberExit(cd.storedProperties, old(b.insertion), old(b.blockCount))
    ensures b.log == old(b.log) + IVarEntries(cd, selfOwnership, old(b.insertion), old(b.blockCount))
  {
    ghost var log0, ins, base := b.log, b.insertion, b.blockCount;
    var self := SelfArg;
    if selfOwnership != Guaranteed {
      b.Emit(UncheckedOwnershipConversion(SelfArg, Guaranteed));
      self := Converted(SelfArg, Guaranteed);
    } else {
      assert log0 + At(ins, IVarHead(selfOwnership)) == log0;
    }
    ghost var log1 := b.log;
    EmitClassMemberDestruction(b, cd, self, selfOwnership);
    ghost var log2, exit := b.log, b.insertion;
    ghost var release: seq<Inst> := if selfOwnership != Guaranteed then [EndBorrow(Converted(SelfArg, Guaranteed))] else [];
    if selfOwnership != Guaranteed {
      b.Emit(EndBorrow(self));
    } else {
      assert log2 + At(exit, release) == log2;
    }
    b.Emit(Return(EmptyTuple));
    AtConcat(exit, release, [Return(EmptyTuple)]);
    AppendAssoc(log2, At(exit, release), At(exit, [Return(EmptyTuple)]));
    IVarEntriesUnfold(cd, selfOwnership, ins, base);
    AppendAssoc3(log0, At(ins, IVarHead(selfOwnership)), ClassMemberEntries(cd, ins, base), At(exit, IVarTail(selfOwnership)));
  }

  /** ---- Properties of the ivar destroyer ---- */

  /** Member destruction always gets a guaranteed self. */
  lemma IVarSelfGuaranteed(selfOwnership: Ownership)
    ensures OwnershipOf(IVarSelf(selfOwnership), selfOwnership) == Guaranteed
  {
    if selfOwnership == Guaranteed {
      assert IVarSelf(selfOwnership) == SelfArg;
    }
  }

  lemma IVarInsts(cd: Nominal, selfOwnership: Ownership, ins: nat, base: nat)
    ensures Insts(IVarEntries(cd, selfOwnership, ins, base)) ==
      IVarHead(selfOwnership) + Insts(ClassMemberEntries(cd, ins, base)) + IVarTail(selfOwnership)
  {
    var exit := MemberExit(cd.storedProperties, ins, base);
    var x, y, z := At(ins, IVarHead(selfOwnership)), ClassMemberEntries(cd, ins, base), At(exit, IVarTail(selfOwnership));
    IVarEntriesUnfold(cd, selfOwnership, ins, base);
    InstsConcat(x + y, z);
    InstsConcat(x, y);
    InstsAt(ins, IVarHead(selfOwnership));
    InstsAt(exit, IVarTail(selfOwnership));
  }

  lemma IVarHeadFacts(selfOwnership: Ownership)
    ensures Auxiliary(IVarHead(selfOwnership), 4) && Balanced(IVarHead(selfOwnership))
  {
    OutsideBalanced(IVarHead(selfOwnership));
  }

  lemma IVarHeadCounts(selfOwnership: Ownership)
    ensures CountReturns(IVarHead(selfOwnership)) == 0 && DestroyedFields(IVarHead(selfOwnership)) == []
  {
    assert Auxiliary(IVarHead(selfOwnership), 4);
    AuxiliaryFacts(IVarHead(selfOwnership), 4);
  }

  lemma IVarTailStages(selfOwnership: Ownership)
    ensures var t := IVarTail(selfOwnership); StagesOrdered(t) && StagesWithin(t, 7, 7)
  {
    UniformStages(IVarTail(selfOwnership), 7);
  }

  lemma IVarTailBalanced(selfOwnership: Ownership)
    ensures Balanced(IVarTail(selfOwnership))
  {
    OutsideBalanced(IVarTail(selfOwnership));
  }

  lemma IVarTailCounts(selfOwnership: Ownership)
    ensures var t := IVarTail(selfOwnership);
      CountReturns(t) == 1 && DestroyedFields(t) == [] && t[|t| - 1] == Return(EmptyTuple)
  {
    var r: seq<Inst> := if selfOwnership != Guaranteed then [EndBorrow(Converted(SelfArg, Guaranteed))] else [];
    assert Auxiliary(r, 7);
    AuxiliaryFacts(r, 7);
    CountReturnsConcat(r, [Return(EmptyTuple)]);
    DestroyedFieldsConcat(r, [Return(EmptyTuple)]);
  }

  /** Only the members' stages and the return: no executor check, no body, no
      superclass destroyer and no resignation. */
  lemma IVarStages(cd: Nominal, selfOwnership: Ownership, ins: nat, base: nat)
    ensures var s := Insts(IVarEntries(cd, selfOwnership, ins, base));
      StagesOrdered(s) && StagesWithin(s, 4, 7)
  {
    var h, m, t := IVarHead(selfOwnership), Insts(ClassMemberEntries(cd, ins, base)), IVarTail(selfOwnership);
    IVarInsts(cd, selfOwnership, ins, base);
    IVarHeadFacts(selfOwnership);
    AuxiliaryFacts(h, 4);
    ClassMemberStages(cd, ins, base);
    IVarTailStages(selfOwnership);
    StagesConcat(h, m, 4, 4, 6);
    StagesWiden(t, 7, 7, 6, 7);
    StagesConcat(h + m, t, 4, 6, 7);
  }

  lemma IVarSkips(cd: Nominal, selfOwnership: Ownership, ins: nat, base: nat, subs: Substitutions)
    ensures var s := Insts(IVarEntries(cd, selfOwnership, ins, base));
      && UserBody !in s && ExecutorPrecondition !in s
      && Apply(SuperclassDestroyer, subs) !in s && ResignID !in s
  {
    var s := Insts(IVarEntries(cd, selfOwnership, ins, base));
    IVarStages(cd, selfOwnership, ins, base);
    StageExcludes(s, 4, 7, UserBody);
    StageExcludes(s, 4, 7, ExecutorPrecondition);
    StageExcludes(s, 4, 7, Apply(SuperclassDestroyer, subs));
    StageExcludes(s, 4, 7, ResignID);
  }

  /** One return, of the empty tuple, at the very end. */
  lemma IVarReturns(cd: Nominal, selfOwnership: Ownership, ins: nat, base: nat)
    ensures var s := Insts(IVarEntries(cd, selfOwnership, ins, base));
      CountReturns(s) == 1 && s[|s| - 1] == Return(EmptyTuple)
  {
    var h, m, t := IVarHead(selfOwnership), Insts(ClassMemberEntries(cd, ins, base)), IVarTail(selfOwnership);
    IVarInsts(cd, selfOwnership, ins, base);
    IVarHeadCounts(selfOwnership);
    ClassMemberNoReturn(cd, ins, base);
    IVarTailCounts(selfOwnership);
    CountReturnsConcat(h + m, t);
    CountReturnsConcat(h, m);
  }

  /** Exactly the stored properties member destruction destroys. */
  lemma IVarDestroys(cd: Nominal, selfOwnership: Ownership, ins: nat, base: nat)
    ensures var fields := cd.storedProperties;
      DestroyedFields(Insts(IVarEntries(cd, selfOwnership, ins, base))) == Destroyed(MemberSelector(fields), fields, |fields|)
  {
    var h, m, t := IVarHead(selfOwnership), Insts(ClassMemberEntries(cd, ins, base)), IVarTail(selfOwnership);
    var dm := Destroyed(MemberSelector(cd.storedProperties), cd.storedProperties, |cd.storedProperties|);
    IVarInsts(cd, selfOwnership, ins, base);
    IVarHeadCounts(selfOwnership);
    ClassMemberDestroys(cd, ins, base);
    IVarTailCounts(selfOwnership);
    DestroyedFieldsConcat(h + m, t);
    DestroyedFieldsConcat(h, m);
    assert [] + dm + [] == dm;
  }

  /** A self that is not guaranteed is converted first and its borrow ended
      just before the return; a guaranteed self is used as it is. */
  lemma IVarConversion(cd: Nominal, selfOwnership: Ownership, ins: nat, base: nat)
    ensures var s, m := Insts(IVarEntries(cd, selfOwnership, ins, base)), Insts(ClassMemberEntries(cd, ins, base));
      && (selfOwnership != Guaranteed ==>
            s[0] == UncheckedOwnershipConversion(SelfArg, Guaranteed)
            && s[|s| - 2] == EndBorrow(Converted(SelfArg, Guaranteed))
            && s == [s[0]] + m + [s[|s| - 2], Return(EmptyTuple)])
      && (selfOwnership == Guaranteed ==> s == m + [Return(EmptyTuple)])
  {
    IVarInsts(cd, selfOwnership, ins, base);
    var m := Insts(ClassMemberEntries(cd, ins, base));
    if selfOwnership == Guaranteed {
      assert [] + m + ([] + [Return(EmptyTuple)]) == m + [Return(EmptyTuple)];
    }
  }

  /** Every block the ivar destroyer writes to is access-balanced. */
  lemma IVarBalanced(cd: Nominal, selfOwnership: Ownership, ins: nat, base: nat)
    ensures AccessBalanced(IVarEntries(cd, selfOwnership, ins, base))
  {
    var exit := MemberExit(cd.storedProperties, ins, base);
    var x, y, z := At(ins, IVarHead(selfOwnership)), ClassMemberEntries(cd, ins, base), At(exit, IVarTail(selfOwnership));
    IVarEntriesUnfold(cd, selfOwnership, ins, base);
    IVarHeadFacts(selfOwnership);
    IVarTailBalanced(selfOwnership);
    AccessBalancedAt(ins, IVarHead(selfOwnership));
    ClassMemberBalanced(cd, ins, base);
    AccessBalancedAt(exit, IVarTail(selfOwnership));
    AccessBalancedConcat(x, y);
    AccessBalancedConcat(x + y, z);
  }
}
