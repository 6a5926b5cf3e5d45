/** The shared member utilities: destroying one stored property under a scoped
    deinit access, the loop over stored properties that drives it, detection of
    the recursive link, and the default-actor teardown builtin. */
module Members {
  import opened Decls
  import opened SIL
  import opened SILBuilder

  /** How the address of a stored property of self is formed: `ref_element_addr`
      on a class instance, `struct_element_addr` on a struct in memory. */
  datatype Projection = RefElement | StructElement

  function FieldAddr(proj: Projection, i: nat): Inst {
    match proj
    case RefElement => RefElementAddr(SelfField(i))
    case StructElement => StructElementAddr(SelfField(i))
  }

  /** The destruction of stored property `i`: nothing when its type is trivial,
      otherwise its address, then `destroy_addr` inside a `begin_access [deinit]`
      / `end_access` pair on that same address. */
  function FieldDestroyOps(proj: Projection, f: Field, i: nat): seq<Inst> {
    if f.trivial then []
    else [FieldAddr(proj, i)] + Scoped(Deinit, SelfField(i), [DestroyAddr(SelfField(i))])
  }

  lemma FieldDestroyOpsBalanced(proj: Projection, f: Field, i: nat)
    ensures Balanced(FieldDestroyOps(proj, f, i))
  {
    if !f.trivial {
      OutsideBalanced([FieldAddr(proj, i)]);
      ScopedBalanced(Deinit, SelfField(i), [DestroyAddr(SelfField(i))]);
      BalancedConcat([FieldAddr(proj, i)], Scoped(Deinit, SelfField(i), [DestroyAddr(SelfField(i))]));
    }
  }

  lemma FieldDestroyOpsDestroys(proj: Projection, f: Field, i: nat)
    ensures DestroyedFields(FieldDestroyOps(proj, f, i)) == if f.trivial then [] else [i]
  {
    if !f.trivial {
      var r := FieldDestroyOps(proj, f, i);
      assert r == [FieldAddr(proj, i), BeginAccess(Deinit, SelfField(i)), DestroyAddr(SelfField(i)), EndAccess(SelfField(i))];
      assert r[1..][1..] == r[2..] && r[2..][1..] == r[3..];
      assert DestroyedFields(r[3..]) == [];
      assert DestroyedFields(r[2..]) == [i];
      assert DestroyedFields(r[1..]) == [i];
    }
  }

  lemma FieldDestroyOpsFacts(proj: Projection, f: Field, i: nat)
    ensures var r := FieldDestroyOps(proj, f, i);
      && Balanced(r) && StraightLine(r)
      && DestroyedFields(r) == (if f.trivial then [] else [i])
      && StagesOrdered(r) && StagesWithin(r, 4, 4)
  {
    FieldDestroyOpsStages(proj, f, i);
    FieldDestroyOpsBalanced(proj, f, i);
    FieldDestroyOpsDestroys(proj, f, i);
  }

  lemma FieldDestroyOpsStages(proj: Projection, f: Field, i: nat)
    ensures var r := FieldDestroyOps(proj, f, i);
      StraightLine(r) && StagesOrdered(r) && StagesWithin(r, 4, 4)
  {
    if !f.trivial {
      var r := [FieldAddr(proj, i), BeginAccess(Deinit, SelfField(i)), DestroyAddr(SelfField(i)), EndAccess(SelfField(i))];
      assert FieldDestroyOps(proj, f, i) == r;
      UniformStages(r, 4);
    }
  }

  /** Which stored properties a destruction loop visits.  Class member
      destruction visits every property except the recursive links; struct
      member destruction visits all of them (`AllExcept([])`); a remote
      distributed actor visits only the `id` and `actorSystem` properties that
      are not isolated to the actor instance. */
  datatype Selector = AllExcept(links: seq<nat>) | RemoteIdentity

  predicate Selected(sel: Selector, f: Field, i: nat) {
    match sel
    case AllExcept(links) => i !in links
    case RemoteIdentity => f.isolation != ActorInstance && (f.name == IdName || f.name == ActorSystemName)
  }

  /** One iteration of the loop: stored property `i`, if the loop visits it. */
  function VisitOps(proj: Projection, sel: Selector, fields: seq<Field>, i: nat): seq<Inst>
    requires i < |fields|
  {
    if Selected(sel, fields[i], i) then FieldDestroyOps(proj, fields[i], i) else []
  }

  lemma VisitOpsDestroys(proj: Projection, sel: Selector, fields: seq<Field>, i: nat)
    requires i < |fields|
    ensures DestroyedFields(VisitOps(proj, sel, fields, i)) == if Destroys(sel, fields, i) then [i] else []
  {
    if Selected(sel, fields[i], i) {
      FieldDestroyOpsDestroys(proj, fields[i], i);
    }
  }

  lemma VisitOpsBalanced(proj: Projection, sel: Selector, fields: seq<Field>, i: nat)
    requires i < |fields|
    ensures Balanced(VisitOps(proj, sel, fields, i))
  {
    if Selected(sel, fields[i], i) {
      FieldDestroyOpsBalanced(proj, fields[i], i);
    }
  }

  lemma VisitOpsStraight(proj: Projection, sel: Selector, fields: seq<Field>, i: nat)
    requires i < |fields|
    ensures StraightLine(VisitOps(proj, sel, fields, i))
  {
    if Selected(sel, fields[i], i) {
      FieldDestroyOpsStages(proj, fields[i], i);
    }
  }

  lemma VisitOpsUniform(proj: Projection, sel: Selector, fields: seq<Field>, i: nat)
    requires i < |fields|
    ensures Uniform(VisitOps(proj, sel, fields, i), 4)
  {
    if Selected(sel, fields[i], i) && !fields[i].trivial {
      var r := [FieldAddr(proj, i), BeginAccess(Deinit, SelfField(i)), DestroyAddr(SelfField(i)), EndAccess(SelfField(i))];
      assert VisitOps(proj, sel, fields, i) == r;
    }
  }

  /** The instructions the loop emits for the first `n` stored properties. */
  function FieldLoopOps(proj: Projection, sel: Selector, fields: seq<Field>, n: nat): seq<Inst>
    requires n <= |fields|
    decreases n
  {
    if n == 0 then [] else FieldLoopOps(proj, sel, fields, n - 1) + VisitOps(proj, sel, fields, n - 1)
  }

  /** A run of stored-property destruction: balanced, free of terminators, and
      entirely in the stored-property stage. */
  ghost predicate FieldStage(r: seq<Inst>) {
    Balanced(r) && StraightLine(r) && StagesOrdered(r) && StagesWithin(r, 4, 4)
  }

  /** The loop keeps its accesses balanced, emits no terminator, and stays in
      the stored-property stage. */
  lemma FieldLoopShape(proj: Projection, sel: Selector, fields: seq<Field>, n: nat)
    requires n <= |fields|
    ensures FieldStage(FieldLoopOps(proj, sel, fields, n))
  {
    FieldLoopBalanced(proj, sel, fields, n);
    FieldLoopStraight(proj, sel, fields, n);
    FieldLoopStages(proj, sel, fields, n);
  }

  lemma {:induction false} FieldLoopBalanced(proj: Projection, sel: Selector, fields: seq<Field>, n: nat)
    requires n <= |fields|
    ensures Balanced(FieldLoopOps(proj, sel, fields, n))
    decreases n
  {
    if n > 0 {
      FieldLoopBalanced(proj, sel, fields, n - 1);
      FieldLoopBalancedStep(proj, sel, fields, n);
    }
  }

  /** One more iteration keeps the loop balanced. */
  lemma FieldLoopBalancedStep(proj: Projection, sel: Selector, fields: seq<Field>, n: nat)
    requires 0 < n <= |fields|
    requires Balanced(FieldLoopOps(proj, sel, fields, n - 1))
    ensures Balanced(FieldLoopOps(proj, sel, fields, n))
  {
    VisitOpsBalanced(proj, sel, fields, n - 1);
    BalancedConcat(FieldLoopOps(proj, sel, fields, n - 1), VisitOps(proj, sel, fields, n - 1));
    FieldLoopOpsUnfold(proj, sel, fields, n);
  }

  lemma {:induction false} FieldLoopStraight(proj: Projection, sel: Selector, fields: seq<Field>, n: nat)
    requires n <= |fields|
    ensures StraightLine(FieldLoopOps(proj, sel, fields, n))
    decreases n
  {
    if n > 0 {
      var x, y := FieldLoopOps(proj, sel, fields, n - 1), VisitOps(proj, sel, fields, n - 1);
      FieldLoopStraight(proj, sel, fields, n - 1);
      VisitOpsStraight(proj, sel, fields, n - 1);
      StraightLineConcat(x, y);
      FieldLoopOpsUnfold(proj, sel, fields, n);
    }
  }

  lemma FieldLoopStages(proj: Projection, sel: Selector, fields: seq<Field>, n: nat)
    requires n <= |fields|
    ensures var r := FieldLoopOps(proj, sel, fields, n); StagesOrdered(r) && StagesWithin(r, 4, 4)
  {
    FieldLoopUniform(proj, sel, fields, n);
    UniformStages(FieldLoopOps(proj, sel, fields, n), 4);
  }

  lemma {:induction false} FieldLoopUniform(proj: Projection, sel: Selector, fields: seq<Field>, n: nat)
    requires n <= |fields|
    ensures Uniform(FieldLoopOps(proj, sel, fields, n), 4)
    decreases n
  {
    if n > 0 {
      FieldLoopUniform(proj, sel, fields, n - 1);
      VisitOpsUniform(proj, sel, fields, n - 1);
      FieldLoopOpsUnfold(proj, sel, fields, n);
      UniformConcat(FieldLoopOps(proj, sel, fields, n - 1), VisitOps(proj, sel, fields, n - 1), 4);
    }
  }

  /** The instructions stored-property destruction is made of. */
  predicate FieldInst(i: Inst) {
    i.RefElementAddr? || i.StructElementAddr? || i.BeginAccess? || i.EndAccess? || (i.DestroyAddr? && i.place.SelfField?)
  }

  ghost predicate FieldInsts(r: seq<Inst>) {
    forall k :: 0 <= k < |r| ==> FieldInst(r[k])
  }

  lemma FieldInstsConcat(x: seq<Inst>, y: seq<Inst>)
    requires FieldInsts(x) && FieldInsts(y)
    ensures FieldInsts(x + y)
  {
    forall k | 0 <= k < |x + y| ensures FieldInst((x + y)[k]) {
      if k < |x| {
        assert (x + y)[k] == x[k];
      } else {
        assert (x + y)[k] == y[k - |x|];
      }
    }
  }

  lemma {:induction false} FieldLoopInsts(proj: Projection, sel: Selector, fields: seq<Field>, n: nat)
    requires n <= |fields|
    ensures FieldInsts(FieldLoopOps(proj, sel, fields, n))
    decreases n
  {
    if n > 0 {
      FieldLoopInsts(proj, sel, fields, n - 1);
      var v := VisitOps(proj, sel, fields, n - 1);
      assert FieldInsts(v);
      FieldLoopOpsUnfold(proj, sel, fields, n);
      FieldInstsConcat(FieldLoopOps(proj, sel, fields, n - 1), v);
    }
  }

  /** Stored-property destruction frees nothing, returns nowhere, and leaves
      out every instruction of another kind. */
  lemma {:induction false} FieldInstsFacts(r: seq<Inst>)
    requires FieldInsts(r)
    ensures CountReturns(r) == 0 && CountDeallocs(r) == 0
    ensures forall x :: !FieldInst(x) ==> x !in r
    decreases |r|
  {
    if r != [] {
      assert FieldInsts(r[1..]) by {
        forall k | 0 <= k < |r[1..]| ensures r[1..][k] == r[k + 1] { }
      }
      FieldInstsFacts(r[1..]);
    }
  }

  /** Stored property `i` is one the loop visits and that needs destroying. */
  predicate Destroys(sel: Selector, fields: seq<Field>, i: nat) {
    i < |fields| && Selected(sel, fields[i], i) && !fields[i].trivial
  }

  /** Reference definition: the stored properties among the first `n` that the
      loop destroys, in declaration order. */
  function Destroyed(sel: Selector, fields: seq<Field>, n: nat): seq<nat>
    requires n <= |fields|
    decreases n
  {
    if n == 0 then []
    else Destroyed(sel, fields, n - 1) + (if Destroys(sel, fields, n - 1) then [n - 1] else [])
  }

  /** Each stored property appears at most once, in declaration order, and
      exactly the visited non-trivial ones appear. */
  lemma {:induction false} DestroyedFacts(sel: Selector, fields: seq<Field>, n: nat)
    requires n <= |fields|
    ensures StrictlyIncreasing(Destroyed(sel, fields, n))
    ensures forall i: nat :: i in Destroyed(sel, fields, n) <==> i < n && Destroys(sel, fields, i)
    decreases n
  {
    if n > 0 {
      var d := Destroyed(sel, fields, n - 1);
      DestroyedFacts(sel, fields, n - 1);
      if Destroys(sel, fields, n - 1) {
        IncreasingAppend(d, n - 1);
      } else {
        assert d + [] == d;
      }
    }
  }

  lemma FieldLoopOpsUnfold(proj: Projection, sel: Selector, fields: seq<Field>, n: nat)
    requires 0 < n <= |fields|
    ensures FieldLoopOps(proj, sel, fields, n) == FieldLoopOps(proj, sel, fields, n - 1) + VisitOps(proj, sel, fields, n - 1)
  {
  }

  lemma DestroyedFieldsStep(x: seq<Inst>, y: seq<Inst>, d: seq<nat>, m: nat, destroys: bool)
    requires DestroyedFields(x) == d
    requires DestroyedFields(y) == if destroys then [m] else []
    ensures DestroyedFields(x + y) == d + if destroys then [m] else []
  {
    DestroyedFieldsConcat(x, y);
  }

  /** The loop destroys exactly the visited, non-trivial stored properties, each
      once and in declaration order. */
  lemma {:induction false} FieldLoopDestroys(proj: Projection, sel: Selector, fields: seq<Field>, n: nat)
    requires n <= |fields|
    ensures DestroyedFields(FieldLoopOps(proj, sel, fields, n)) == Destroyed(sel, fields, n)
    decreases n
  {
    if n > 0 {
      var x, y := FieldLoopOps(proj, sel, fields, n - 1), VisitOps(proj, sel, fields, n - 1);
      var d, last := Destroyed(sel, fields, n - 1), if Destroys(sel, fields, n - 1) then [n - 1] else [];
      FieldLoopOpsUnfold(proj, sel, fields, n);
      FieldLoopDestroys(proj, sel, fields, n - 1);
      VisitOpsDestroys(proj, sel, fields, n - 1);
      DestroyedFieldsStep(x, y, d, n - 1, Destroys(sel, fields, n - 1));
      assert Destroyed(sel, fields, n) == d + last;
    }
  }

  /** The stored properties among the first `n` whose type is `Optional<Self>`,
      in declaration order. */
  function Candidates(fields: seq<Field>, n: nat): seq<nat>
    requires n <= |fields|
    decreases n
  {
    if n == 0 then []
    else Candidates(fields, n - 1) + (if fields[n - 1].optionalSelf then [n - 1] else [])
  }

  lemma {:induction false} CandidatesFacts(fields: seq<Field>, n: nat)
    requires n <= |fields|
    ensures StrictlyIncreasing(Candidates(fields, n))
    ensures forall i: nat :: i in Candidates(fields, n) <==> i < n && fields[i].optionalSelf
    decreases n
  {
    if n > 0 {
      var c := Candidates(fields, n - 1);
      CandidatesFacts(fields, n - 1);
      if fields[n - 1].optionalSelf {
        IncreasingAppend(c, n - 1);
      } else {
        assert c + [] == c;
      }
    }
  }

  /** The recursive-link set: the single `Optional<Self>` stored property, or
      nothing at all when there is none or there are several. */
  function RecursiveLinks(fields: seq<Field>): seq<nat> {
    var c := Candidates(fields, |fields|);
    if |c| > 1 then [] else c
  }

  /** At most one link; only `Optional<Self>` properties; the link is the only
      such property; and the set is empty exactly when no property, or more than
      one, has that type. */
  lemma RecursiveLinksFacts(fields: seq<Field>)
    ensures var r := RecursiveLinks(fields);
      && |r| <= 1
      && (forall i :: i in r ==> i < |fields| && fields[i].optionalSelf)
      && (r != [] ==> forall j: nat :: j < |fields| && fields[j].optionalSelf ==> j == r[0])
      && (r == [] <==>
          (forall j: nat :: j < |fields| ==> !fields[j].optionalSelf)
          || (exists j: nat, k: nat :: j < k < |fields| && fields[j].optionalSelf && fields[k].optionalSelf))
  {
    var c := Candidates(fields, |fields|);
    CandidatesFacts(fields, |fields|);
    if |c| > 1 {
      assert c[0] < c[1] && c[0] in c && c[1] in c;
    } else if c == [] {
      assert forall j: nat :: j < |fields| ==> !fields[j].optionalSelf;
    } else {
      assert c == [c[0]] && c[0] in c;
      assert forall j: nat :: j < |fields| && fields[j].optionalSelf ==> j in c;
    }
  }

  /** `findRecursiveLinks`: collect every `Optional<Self>` stored property into
      the set, then empty the set if it holds more than one. */
  method FindRecursiveLinks(fields: seq<Field>) returns (result: seq<nat>)
    ensures result == RecursiveLinks(fields)
  {
    result := [];
    for i := 0 to |fields|
      invariant result == Candidates(fields, i)
    {
      if fields[i].optionalSelf {
        result := result + [i];
      } else {
        assert result + [] == result;
      }
    }
    if |result| > 1 {
      result := [];
    }
  }

  /** `destroyClassMember`. */
  method EmitDestroyClassMember(b: Builder, fields: seq<Field>, i: nat)
    requires b.Valid() && i < |fields|
    modifies b
    ensures b.Valid() && b.blockCount == old(b.blockCount) && b.insertion == old(b.insertion)
    ensures b.log == old(b.log) + At(old(b.insertion), FieldDestroyOps(RefElement, fields[i], i))
  {
    if !fields[i].trivial {
      b.Emit(RefElementAddr(SelfField(i)));
      b.Emit(BeginAccess(Deinit, SelfField(i)));
      b.Emit(DestroyAddr(SelfField(i)));
      b.Emit(EndAccess(SelfField(i)));
      assert FieldDestroyOps(RefElement, fields[i], i)
        == [RefElementAddr(SelfField(i)), BeginAccess(Deinit, SelfField(i)), DestroyAddr(SelfField(i)), EndAccess(SelfField(i))];
    }
  }

  /** A loop over the stored properties of a class instance that calls
      `destroyClassMember` on each one the selector picks. */
  method EmitSelectedMembers(b: Builder, sel: Selector, fields: seq<Field>)
    requires b.Valid()
    modifies b
    ensures b.Valid() && b.blockCount == old(b.blockCount) && b.insertion == old(b.insertion)
    ensures b.log == old(b.log) + At(old(b.insertion), FieldLoopOps(RefElement, sel, fields, |fields|))
  {
    ghost var log0, ins := b.log, b.insertion;
    for i := 0 to |fields|
      invariant b.Valid() && b.blockCount == old(b.blockCount) && b.insertion == ins
      invariant b.log == log0 + At(ins, FieldLoopOps(RefElement, sel, fields, i))
    {
      ghost var before := b.log;
      if Selected(sel, fields[i], i) {
        EmitDestroyClassMember(b, fields, i);
      } else {
        assert At(ins, VisitOps(RefElement, sel, fields, i)) == [];
      }
      assert b.log == before + At(ins, VisitOps(RefElement, sel, fields, i));
      FieldLoopStep(log0, ins, RefElement, sel, fields, i);
    }
  }

  /** The log after one more iteration of a field loop. */
  lemma FieldLoopStep(log0: seq<Entry>, ins: nat, proj: Projection, sel: Selector, fields: seq<Field>, i: nat)
    requires i < |fields|
    ensures log0 + At(ins, FieldLoopOps(proj, sel, fields, i)) + At(ins, VisitOps(proj, sel, fields, i))
      == log0 + At(ins, FieldLoopOps(proj, sel, fields, i + 1))
  {
    var prev, visit := FieldLoopOps(proj, sel, fields, i), VisitOps(proj, sel, fields, i);
    FieldLoopOpsUnfold(proj, sel, fields, i + 1);
    AtConcat(ins, prev, visit);
    AppendAssoc(log0, At(ins, prev), At(ins, visit));
  }

  /** The default-actor teardown, present exactly for a root default actor. */
  function DefaultActorOps(rootDefaultActor: bool): seq<Inst> {
    if rootDefaultActor then [DestroyDefaultActor] else []
  }

  lemma DefaultActorAuxiliary(rootDefaultActor: bool)
    ensures Auxiliary(DefaultActorOps(rootDefaultActor), 6)
  {
  }

  lemma DefaultActorOccurrences(rootDefaultActor: bool)
    ensures var s := DefaultActorOps(rootDefaultActor);
      Occurrences(s, DestroyDefaultActor) == (if rootDefaultActor then 1 else 0)
      && (rootDefaultActor ==> s[|s| - 1] == DestroyDefaultActor)
  {
    if rootDefaultActor {
      assert DefaultActorOps(rootDefaultActor)[1..] == [];
    }
  }

  /** `emitDestroyDefaultActor`: one builtin call on self. */
  method EmitDestroyDefaultActor(b: Builder)
    requires b.Valid()
    modifies b
    ensures b.Valid() && b.blockCount == old(b.blockCount) && b.insertion == old(b.insertion)
    ensures b.log == old(b.log) + At(old(b.insertion), [DestroyDefaultActor])
  {
    b.Emit(DestroyDefaultActor);
  }
}
