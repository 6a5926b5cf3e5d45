/** The destruction of a non-copyable struct or enum: `drop_deinit` first, so
    that the user's deinit is not run again, then the members — by one
    `destroy_value` when self is an object, by `struct_element_addr` on each
    non-trivial stored property of a struct in memory, and by a
    `switch_enum_addr` over the elements of an enum in memory, whose case blocks
    destroy the payload of the elements that have one. */
module MoveOnly {
  import opened Decls
  import opened SIL
  import opened SILBuilder
  import opened Members

  /** What the lowering knows of self in a move-only destructor: whether it is
      already the result of a `drop_deinit` (and then whether that
      instruction's operand is a marked `alloc_stack`), and whether it is an
      object rather than an address. */
  datatype MoveOnlySelf = MoveOnlySelf(isDropDeinit: bool, overMarkedAllocStack: bool, isObject: bool)

  /** Either way, the value destroyed is the result of a `drop_deinit`. */
  function DroppedSelf(): Val {
    Dropped(SelfArg)
  }

  function DropOps(m: MoveOnlySelf): seq<Inst> {
    if m.isDropDeinit then [] else [DropDeinit]
  }

  function StructMemberOps(fields: seq<Field>): seq<Inst> {
    FieldLoopOps(StructElement, AllExcept([]), fields, |fields|)
  }

  /** The block of enum element `k`: take and destroy its payload, if it has
      one, then go to the continuation block `cont`. */
  function CaseOps(e: Element, k: nat, cont: nat): seq<Inst> {
    (if e.hasAssociatedValues then [UncheckedTakeEnumDataAddr(k), DestroyAddr(EnumPayload(k))] else []) + [Branch(cont)]
  }

  /** The blocks of the first `n` elements; element `k`'s block is the one
      created right after the continuation block and the blocks before it. */
  function CaseEntries(elements: seq<Element>, cont: nat, n: nat): seq<Entry>
    requires n <= |elements|
    decreases n
  {
    if n == 0 then []
    else CaseEntries(elements, cont, n - 1) + At(cont + n, CaseOps(elements[n - 1], n - 1, cont))
  }

  /** The switch's case list for the first `n` elements. */
  function Cases(cont: nat, n: nat): seq<Case>
    decreases n
  {
    if n == 0 then [] else Cases(cont, n - 1) + [Case(n - 1, cont + n)]
  }

  /** The case blocks, then the switch in the block self's destruction started in. */
  function EnumEntries(elements: seq<Element>, ins: nat, base: nat): seq<Entry> {
    CaseEntries(elements, base, |elements|) + At(ins, [SwitchEnumAddr(Cases(base, |elements|))])
  }

  /** Member destruction switches over an enum when self is an enum in memory. */
  predicate SwitchesOnEnum(nom: Nominal, m: MoveOnlySelf) {
    !m.isObject && nom.kind != StructDecl
  }

  function MembersBody(nom: Nominal, m: MoveOnlySelf, ins: nat, base: nat): seq<Entry> {
    if m.isObject then At(ins, [DestroyValue(DroppedSelf())])
    else if nom.kind == StructDecl then At(ins, StructMemberOps(nom.storedProperties))
    else EnumEntries(nom.elements, ins, base)
  }

  /** What member destruction appends to the log. */
  function MoveOnlyMemberEntries(nom: Nominal, m: MoveOnlySelf, ins: nat, base: nat): seq<Entry> {
    At(ins, DropOps(m)) + MembersBody(nom, m, ins, base)
  }

  function MoveOnlyBlocks(nom: Nominal, m: MoveOnlySelf): nat {
    if SwitchesOnEnum(nom, m) then 1 + |nom.elements| else 0
  }

  /** Emission continues in the continuation block after a switch. */
  function MoveOnlyExit(nom: Nominal, m: MoveOnlySelf, ins: nat, base: nat): nat {
    if SwitchesOnEnum(nom, m) then base else ins
  }

  /** The loop over a struct's stored properties. */
  method EmitStructMembers(b: Builder, fields: seq<Field>)
    requires b.Valid()
    modifies b
    ensures b.Valid() && b.blockCount == old(b.blockCount) && b.insertion == old(b.insertion)
    ensures b.log == old(b.log) + At(old(b.insertion), StructMemberOps(fields))
  {
    ghost var log0, ins := b.log, b.insertion;
    for i := 0 to |fields|
      invariant b.Valid() && b.blockCount == old(b.blockCount) && b.insertion == ins
      invariant b.log == log0 + At(ins, FieldLoopOps(StructElement, AllExcept([]), fields, i))
    {
      EmitStructMember(b, fields, i);
      FieldLoopStep(log0, ins, StructElement, AllExcept([]), fields, i);
    }
  }

  /** One stored property: destroyed in place under a deinit access, unless
      its type is trivial. */
  method EmitStructMember(b: Builder, fields: seq<Field>, i: nat)
    requires b.Valid() && i < |fields|
    modifies b
    ensures b.Valid() && b.blockCount == old(b.blockCount) && b.insertion == old(b.insertion)
    ensures b.log == old(b.log) + At(old(b.insertion), VisitOps(StructElement, AllExcept([]), fields, i))
  {
    if !fields[i].trivial {
      b.Emit(StructElementAddr(SelfField(i)));
      b.Emit(BeginAccess(Deinit, SelfField(i)));
      b.Emit(DestroyAddr(SelfField(i)));
      b.Emit(EndAccess(SelfField(i)));
    } else {
      assert At(b.insertion, VisitOps(StructElement, AllExcept([]), fields, i)) == [];
    }
  }

  /** One case block, filled through its own builder. */
  method EmitCaseBlock(b: Builder, e: Element, k: nat, bb: nat, cont: nat)
    requires b.Valid() && bb < b.blockCount && cont < b.blockCount
    modifies b
    ensures b.Valid() && b.blockCount == old(b.blockCount) && b.insertion == old(b.insertion)
    ensures b.log == old(b.log) + At(bb, CaseOps(e, k, cont))
  {
    ghost var log0 := b.log;
    ghost var payload: seq<Inst> := if e.hasAssociatedValues then [UncheckedTakeEnumDataAddr(k), DestroyAddr(EnumPayload(k))] else [];
    if e.hasAssociatedValues {
      b.EmitInto(bb, UncheckedTakeEnumDataAddr(k));
      b.EmitInto(bb, DestroyAddr(EnumPayload(k)));
      assert b.log == log0 + At(bb, payload);
    } else {
      assert log0 + At(bb, payload) == log0;
    }
    b.EmitInto(bb, Branch(cont));
    AtConcat(bb, payload, [Branch(cont)]);
    AppendAssoc(log0, At(bb, payload), At(bb, [Branch(cont)]));
  }

  /** The loop over an enum's elements: a new block per element, in order. */
  method EmitEnumCases(b: Builder, elements: seq<Element>, cont: nat) returns (cases: seq<Case>)
    requires b.Valid() && b.blockCount == cont + 1
    modifies b
    ensures b.Valid() && b.blockCount == old(b.blockCount) + |elements|
    ensures cases == Cases(cont, |elements|)
    ensures b.log == old(b.log) + CaseEntries(elements, cont, |elements|)
  {
    ghost var log0 := b.log;
    cases := [];
    for k := 0 to |elements|
      invariant b.Valid() && b.blockCount == cont + 1 + k
      invariant cases == Cases(cont, k)
      invariant b.log == log0 + CaseEntries(elements, cont, k)
    {
      var enumBlock := b.CreateBasicBlock();
      EmitCaseBlock(b, elements[k], k, enumBlock, cont);
      AppendAssoc(log0, CaseEntries(elements, cont, k), At(enumBlock, CaseOps(elements[k], k, cont)));
      cases := cases + [Case(k, enumBlock)];
      b.SetInsertionPoint(enumBlock);
    }
  }

  /** Every case leads to one of the element blocks. */
  lemma {:induction false} CasesTargets(cont: nat, n: nat)
    ensures forall c :: c in Cases(cont, n) ==> cont < c.target <= cont + n
    decreases n
  {
    if n > 0 {
      CasesTargets(cont, n - 1);
    }
  }

  /** `emitMoveOnlyMemberDestruction`.  A self in memory must be a struct or an
      enum. */
  method EmitMoveOnlyMemberDestruction(b: Builder, nom: Nominal, m: MoveOnlySelf)
    requires b.Valid() && (!m.isObject ==> nom.kind != ClassDecl)
    modifies b
    ensures b.Valid() && b.blockCount == old(b.blockCount) + MoveOnlyBlocks(nom, m)
    ensures b.insertion == MoveOnlyExit(nom, m, old(b.insertion), old(b.blockCount))
    ensures b.log == old(b.log) + MoveOnlyMemberEntries(nom, m, old(b.insertion), old(b.blockCount))
  {
    ghost var log0, ins, base := b.log, b.insertion, b.blockCount;
    if !m.isDropDeinit {
      b.Emit(DropDeinit);
    } else {
      assert log0 + At(ins, DropOps(m)) == log0;
    }
    ghost var log1 := b.log;
    AppendAssoc(log0, At(ins, DropOps(m)), MembersBody(nom, m, ins, base));
    if m.isObject {
      b.Emit(DestroyValue(DroppedSelf()));
      return;
    }
    if nom.kind == StructDecl {
      EmitStructMembers(b, nom.storedProperties);
      return;
    }
    var origBlock := b.insertion;
    var contBlock := b.CreateBasicBlock();
    var cases := EmitEnumCases(b, nom.elements, contBlock);
    b.SetInsertionPoint(origBlock);
    CasesTargets(contBlock, |nom.elements|);
    b.Emit(SwitchEnumAddr(cases));
    b.SetInsertionPoint(contBlock);
    AppendAssoc(log1, CaseEntries(nom.elements, base, |nom.elements|), At(ins, [SwitchEnumAddr(cases)]));
  }

  /** The deallocating destructor's instructions after member destruction:
      the stack slot behind a `drop_deinit` self is deallocated, then the empty
      tuple is returned. */
  function MoveOnlyTail(m: MoveOnlySelf): seq<Inst> {
    (if m.isDropDeinit && m.overMarkedAllocStack then [DeallocSelfStack] else []) + [Return(EmptyTuple)]
  }

  /** What the deallocating destructor of a move-only type appends to the log. */
  function MoveOnlyDestructorEntries(nom: Nominal, m: MoveOnlySelf, ins: nat, base: nat): seq<Entry> {
    At(ins, [UserBody]) + MoveOnlyMemberEntries(nom, m, ins, base) + At(MoveOnlyExit(nom, m, ins, base), MoveOnlyTail(m))
  }

  /** `emitDeallocatingMoveOnlyDestructor`: the body, member destruction (which
      consumes self), and the return. */
  method EmitDeallocatingMoveOnlyDestructor(b: Builder, nom: Nominal, m: MoveOnlySelf)
    requires b.Valid() && (!m.isObject ==> nom.kind != ClassDecl)
    modifies b
    ensures b.Valid() && b.blockCount == old(b.blockCount) + MoveOnlyBlocks(nom, m)
    ensures b.log == old(b.log) + MoveOnlyDestructorEntries(nom, m, old(b.insertion), old(b.blockCount))
  {
    ghost var log0, ins, base := b.log, b.insertion, b.blockCount;
    b.Emit(UserBody);
    EmitMoveOnlyMemberDestruction(b, nom, m);
    ghost var log2, exit := b.log, b.insertion;
    ghost var dealloc: seq<Inst> := if m.isDropDeinit && m.overMarkedAllocStack then [DeallocSelfStack] else [];
    if m.isDropDeinit && m.overMarkedAllocStack {
      b.Emit(DeallocSelfStack);
    } else {
      assert log2 + At(exit, dealloc) == log2;
    }
    b.Emit(Return(EmptyTuple));
    AtConcat(exit, dealloc, [Return(EmptyTuple)]);
    AppendAssoc(log2, At(exit, dealloc), At(exit, [Return(EmptyTuple)]));
    AppendAssoc3(log0, At(ins, [UserBody]), MoveOnlyMemberEntries(nom, m, ins, base), At(exit, MoveOnlyTail(m)));
  }

  /** ---- Properties ---- */

  /** The switch has one case per element, in declaration order, each leading
      to that element's own block; no two cases share a block. */
  lemma {:induction false} CasesShape(cont: nat, n: nat)
    ensures var c := Cases(cont, n);
      |c| == n && forall k :: 0 <= k < n ==> c[k] == Case(k, cont + 1 + k)
    decreases n
  {
    if n > 0 {
      CasesShape(cont, n - 1);
    }
  }

  /** The contents of each block the case loop writes to. */
  lemma {:induction false} CaseEntriesIn(elements: seq<Element>, cont: nat, n: nat, bb: nat)
    requires n <= |elements|
    ensures InstsIn(CaseEntries(elements, cont, n), bb) ==
      if cont < bb <= cont + n then CaseOps(elements[bb - cont - 1], bb - cont - 1, cont) else []
    decreases n
  {
    if n > 0 {
      var prev, last := CaseEntries(elements, cont, n - 1), At(cont + n, CaseOps(elements[n - 1], n - 1, cont));
      CaseEntriesIn(elements, cont, n - 1, bb);
      InstsInConcat(prev, last, bb);
      InstsInAt(cont + n, CaseOps(elements[n - 1], n - 1, cont), bb);
    }
  }

  /** Enum member destruction dispatches on the tag: the block it started in
      ends with the switch, which has one case per element in declaration
      order, each leading to that element's own block; the continuation block
      is left empty for what follows. */
  lemma EnumDispatch(elements: seq<Element>, ins: nat, base: nat)
    requires ins < base
    ensures var e, c := EnumEntries(elements, ins, base), Cases(base, |elements|);
      && InstsIn(e, ins) == [SwitchEnumAddr(c)]
      && InstsIn(e, base) == []
      && |c| == |elements|
      && forall k :: 0 <= k < |elements| ==> c[k] == Case(k, base + 1 + k)
  {
    var ce, sw := CaseEntries(elements, base, |elements|), At(ins, [SwitchEnumAddr(Cases(base, |elements|))]);
    CasesShape(base, |elements|);
    CaseEntriesIn(elements, base, |elements|, ins);
    CaseEntriesIn(elements, base, |elements|, base);
    InstsInConcat(ce, sw, ins);
    InstsInConcat(ce, sw, base);
    InstsInAt(ins, [SwitchEnumAddr(Cases(base, |elements|))], ins);
    InstsInAt(ins, [SwitchEnumAddr(Cases(base, |elements|))], base);
  }

  /** The block of element `k` holds exactly that element's payload
      destruction and the branch to the continuation. */
  lemma EnumCaseBlock(elements: seq<Element>, ins: nat, base: nat, k: nat)
    requires ins < base && k < |elements|
    ensures InstsIn(EnumEntries(elements, ins, base), base + 1 + k) == CaseOps(elements[k], k, base)
  {
    var ce, sw := CaseEntries(elements, base, |elements|), At(ins, [SwitchEnumAddr(Cases(base, |elements|))]);
    CaseEntriesIn(elements, base, |elements|, base + 1 + k);
    InstsInConcat(ce, sw, base + 1 + k);
    InstsInAt(ins, [SwitchEnumAddr(Cases(base, |elements|))], base + 1 + k);
  }

  /** A case block destroys the element's payload exactly when the element has
      associated values, and then leaves for the continuation. */
  lemma CasePayload(e: Element, k: nat, cont: nat)
    ensures var s := CaseOps(e, k, cont);
      && (DestroyAddr(EnumPayload(k)) in s <==> e.hasAssociatedValues)
      && (UncheckedTakeEnumDataAddr(k) in s <==> e.hasAssociatedValues)
      && EndsWith(s, Branch(cont)) && Balanced(s)
  {
    var p: seq<Inst> := if e.hasAssociatedValues then [UncheckedTakeEnumDataAddr(k), DestroyAddr(EnumPayload(k))] else [];
    assert StraightLine(p);
    EndsWithAppend(p, Branch(cont));
    OutsideBalanced(CaseOps(e, k, cont));
  }

  /** A struct's member destruction destroys every non-trivial stored property
      exactly once, in declaration order, each under its own deinit access. */
  lemma StructMembersDestroy(fields: seq<Field>)
    ensures var s, d := StructMemberOps(fields), DestroyedFields(StructMemberOps(fields));
      && Balanced(s) && StraightLine(s) && StrictlyIncreasing(d)
      && forall i: nat :: i in d <==> i < |fields| && !fields[i].trivial
  {
    FieldLoopShape(StructElement, AllExcept([]), fields, |fields|);
    FieldLoopDestroys(StructElement, AllExcept([]), fields, |fields|);
    DestroyedFacts(AllExcept([]), fields, |fields|);
  }

  /** The instructions move-only member destruction is made of. */
  predicate MemberInst(i: Inst) {
    FieldInst(i) || i == DropDeinit || i.DestroyValue? || i.UncheckedTakeEnumDataAddr?
    || i.DestroyAddr? || i.Branch? || i.SwitchEnumAddr?
  }

  ghost predicate MemberInsts(s: seq<Inst>) {
    forall k :: 0 <= k < |s| ==> MemberInst(s[k])
  }

  lemma MemberInstsConcat(x: seq<Inst>, y: seq<Inst>)
    requires MemberInsts(x) && MemberInsts(y)
    ensures MemberInsts(x + y)
  {
    forall k | 0 <= k < |x + y| ensures MemberInst((x + y)[k]) {
      if k < |x| {
        assert (x + y)[k] == x[k];
      } else {
        assert (x + y)[k] == y[k - |x|];
      }
    }
  }

  /** No return, no `dealloc_ref`, and nothing of another kind. */
  lemma {:induction false} MemberInstsFacts(s: seq<Inst>)
    requires MemberInsts(s)
    ensures CountReturns(s) == 0 && CountDeallocs(s) == 0
    ensures forall x :: !MemberInst(x) ==> x !in s
    decreases |s|
  {
    if s != [] {
      assert MemberInsts(s[1..]) by {
        forall k | 0 <= k < |s[1..]| ensures s[1..][k] == s[k + 1] { }
      }
      MemberInstsFacts(s[1..]);
    }
  }

  lemma {:induction false} CaseEntriesInsts(elements: seq<Element>, cont: nat, n: nat)
    requires n <= |elements|
    ensures MemberInsts(Insts(CaseEntries(elements, cont, n)))
    decreases n
  {
    if n > 0 {
      var prev, ops := CaseEntries(elements, cont, n - 1), CaseOps(elements[n - 1], n - 1, cont);
      CaseEntriesInsts(elements, cont, n - 1);
      InstsConcat(prev, At(cont + n, ops));
      InstsAt(cont + n, ops);
      assert MemberInsts(ops);
      MemberInstsConcat(Insts(prev), ops);
    }
  }

  lemma StructOpsInsts(fields: seq<Field>)
    ensures MemberInsts(StructMemberOps(fields))
  {
    FieldLoopInsts(StructElement, AllExcept([]), fields, |fields|);
  }

  /** Member destruction, in emission order, is made of member instructions only. */
  lemma MoveOnlyMemberInsts(nom: Nominal, m: MoveOnlySelf, ins: nat, base: nat)
    ensures MemberInsts(Insts(MoveOnlyMemberEntries(nom, m, ins, base)))
  {
    var body := MembersBody(nom, m, ins, base);
    InstsConcat(At(ins, DropOps(m)), body);
    InstsAt(ins, DropOps(m));
    if m.isObject {
      InstsAt(ins, [DestroyValue(DroppedSelf())]);
    } else if nom.kind == StructDecl {
      InstsAt(ins, StructMemberOps(nom.storedProperties));
      StructOpsInsts(nom.storedProperties);
    } else {
      var sw := [SwitchEnumAddr(Cases(base, |nom.elements|))];
      InstsConcat(CaseEntries(nom.elements, base, |nom.elements|), At(ins, sw));
      InstsAt(ins, sw);
      CaseEntriesInsts(nom.elements, base, |nom.elements|);
      MemberInstsConcat(Insts(CaseEntries(nom.elements, base, |nom.elements|)), sw);
    }
    MemberInstsConcat(DropOps(m), Insts(body));
  }

  /** The block member destruction starts in: the `drop_deinit`, unless self
      already is one, then the members themselves. */
  lemma MoveOnlyOrigin(nom: Nominal, m: MoveOnlySelf, ins: nat, base: nat)
    requires ins < base
    ensures InstsIn(MoveOnlyMemberEntries(nom, m, ins, base), ins) ==
      DropOps(m) + (if m.isObject then [DestroyValue(DroppedSelf())]
                    else if nom.kind == StructDecl then StructMemberOps(nom.storedProperties)
                    else [SwitchEnumAddr(Cases(base, |nom.elements|))])
  {
    var body := MembersBody(nom, m, ins, base);
    InstsInConcat(At(ins, DropOps(m)), body, ins);
    InstsInAt(ins, DropOps(m), ins);
    if m.isObject {
      InstsInAt(ins, [DestroyValue(DroppedSelf())], ins);
    } else if nom.kind == StructDecl {
      InstsInAt(ins, StructMemberOps(nom.storedProperties), ins);
    } else {
      EnumDispatch(nom.elements, ins, base);
    }
  }

  /** The user's deinit is suppressed exactly once: the first member
      instruction is a `drop_deinit` unless self already was one, and no other
      `drop_deinit` is emitted. */
  lemma MoveOnlyDrop(nom: Nominal, m: MoveOnlySelf, ins: nat, base: nat)
    requires ins < base
    ensures var s, o := Insts(MoveOnlyMemberEntries(nom, m, ins, base)), InstsIn(MoveOnlyMemberEntries(nom, m, ins, base), ins);
      && (!m.isDropDeinit ==> o[0] == DropDeinit)
      && Occurrences(s, DropDeinit) == if m.isDropDeinit then 0 else 1
  {
    var e := MoveOnlyMemberEntries(nom, m, ins, base);
    var body := Insts(MembersBody(nom, m, ins, base));
    MoveOnlyOrigin(nom, m, ins, base);
    InstsConcat(At(ins, DropOps(m)), MembersBody(nom, m, ins, base));
    InstsAt(ins, DropOps(m));
    MoveOnlyBodyUndropped(nom, m, ins, base);
    OccurrencesAbsent(body, DropDeinit);
    OccurrencesConcat(DropOps(m), body, DropDeinit);
    if !m.isDropDeinit {
      assert DropOps(m)[1..] == [];
    }
  }

  /** The members themselves hold no `drop_deinit`. */
  lemma MoveOnlyBodyUndropped(nom: Nominal, m: MoveOnlySelf, ins: nat, base: nat)
    ensures DropDeinit !in Insts(MembersBody(nom, m, ins, base))
  {
    var body := MembersBody(nom, m, ins, base);
    if m.isObject {
      InstsAt(ins, [DestroyValue(DroppedSelf())]);
    } else if nom.kind == StructDecl {
      InstsAt(ins, StructMemberOps(nom.storedProperties));
      FieldLoopInsts(StructElement, AllExcept([]), nom.storedProperties, |nom.storedProperties|);
      FieldInstsFacts(StructMemberOps(nom.storedProperties));
    } else {
      var ce, sw := CaseEntries(nom.elements, base, |nom.elements|), [SwitchEnumAddr(Cases(base, |nom.elements|))];
      InstsConcat(ce, At(ins, sw));
      InstsAt(ins, sw);
      CaseEntriesUndropped(nom.elements, base, |nom.elements|);
    }
  }

  lemma {:induction false} CaseEntriesUndropped(elements: seq<Element>, cont: nat, n: nat)
    requires n <= |elements|
    ensures DropDeinit !in Insts(CaseEntries(elements, cont, n))
    decreases n
  {
    if n > 0 {
      var prev, ops := CaseEntries(elements, cont, n - 1), CaseOps(elements[n - 1], n - 1, cont);
      CaseEntriesUndropped(elements, cont, n - 1);
      InstsConcat(prev, At(cont + n, ops));
      InstsAt(cont + n, ops);
    }
  }

  /** The move-only destructor in emission order. */
  lemma MoveOnlyDestructorInsts(nom: Nominal, m: MoveOnlySelf, ins: nat, base: nat)
    ensures Insts(MoveOnlyDestructorEntries(nom, m, ins, base)) ==
      [UserBody] + Insts(MoveOnlyMemberEntries(nom, m, ins, base)) + MoveOnlyTail(m)
  {
    var x, y, z := At(ins, [UserBody]), MoveOnlyMemberEntries(nom, m, ins, base), At(MoveOnlyExit(nom, m, ins, base), MoveOnlyTail(m));
    InstsConcat(x + y, z);
    InstsConcat(x, y);
    InstsAt(ins, [UserBody]);
    InstsAt(MoveOnlyExit(nom, m, ins, base), MoveOnlyTail(m));
  }

  lemma MoveOnlyTailFacts(m: MoveOnlySelf)
    ensures var t := MoveOnlyTail(m);
      && CountReturns(t) == 1 && CountDeallocs(t) == 0 && t[|t| - 1] == Return(EmptyTuple)
      && (DeallocSelfStack in t <==> m.isDropDeinit && m.overMarkedAllocStack)
  {
    var d: seq<Inst> := if m.isDropDeinit && m.overMarkedAllocStack then [DeallocSelfStack] else [];
    CountReturnsConcat(d, [Return(EmptyTuple)]);
    CountDeallocsConcat(d, [Return(EmptyTuple)]);
    if d != [] {
      assert d[1..] == [];
    }
  }

  /** The body runs first and the only return is last; no object is freed
      (the storage of a value type belongs to its owner). */
  lemma MoveOnlyDestructorShape(nom: Nominal, m: MoveOnlySelf, ins: nat, base: nat)
    ensures var s := Insts(MoveOnlyDestructorEntries(nom, m, ins, base));
      && s[0] == UserBody && s[|s| - 1] == Return(EmptyTuple)
      && CountReturns(s) == 1 && CountDeallocs(s) == 0
  {
    var mo, t := Insts(MoveOnlyMemberEntries(nom, m, ins, base)), MoveOnlyTail(m);
    MoveOnlyDestructorInsts(nom, m, ins, base);
    MoveOnlyMemberCounts(nom, m, ins, base);
    MoveOnlyTailFacts(m);
    CountReturnsConcat([UserBody] + mo, t);
    CountReturnsConcat([UserBody], mo);
    CountDeallocsConcat([UserBody] + mo, t);
    CountDeallocsConcat([UserBody], mo);
  }

  lemma MoveOnlyMemberCounts(nom: Nominal, m: MoveOnlySelf, ins: nat, base: nat)
    ensures var s := Insts(MoveOnlyMemberEntries(nom, m, ins, base));
      CountReturns(s) == 0 && CountDeallocs(s) == 0 && DeallocSelfStack !in s
  {
    MoveOnlyMemberInsts(nom, m, ins, base);
    MemberInstsFacts(Insts(MoveOnlyMemberEntries(nom, m, ins, base)));
  }

  /** The stack slot behind a `drop_deinit` self is deallocated exactly when
      there is one. */
  lemma MoveOnlyDestructorSlot(nom: Nominal, m: MoveOnlySelf, ins: nat, base: nat)
    ensures DeallocSelfStack in Insts(MoveOnlyDestructorEntries(nom, m, ins, base))
      <==> m.isDropDeinit && m.overMarkedAllocStack
  {
    MoveOnlyDestructorInsts(nom, m, ins, base);
    MoveOnlyMemberCounts(nom, m, ins, base);
    MoveOnlyTailFacts(m);
  }
}
