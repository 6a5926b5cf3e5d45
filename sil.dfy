/** The intermediate representation as destructor lowering sees it: opaque
    instruction tags, grouped into numbered basic blocks, and a few analyses over
    them that state what a well-formed destructor looks like (balanced access
    markers, the order of the destruction stages, the fields that are destroyed). */
module SIL {

  datatype Option<T> = None | Some(value: T)

  datatype AccessKind = Read | Modify | Deinit

  /** The memory locations the destructors touch: a stored property of self
      (reached by `ref_element_addr` or `struct_element_addr`), the recursive
      link of the node held by the chain iterator, the iterator's stack slot,
      and the payload of an enum element. */
  datatype Place = SelfField(index: nat) | NextLink(index: nat) | IterSlot | EnumPayload(element: nat)

  /** SIL ownership kinds; `NoneOwnership` is the kind of trivial values such as
      the empty tuple. */
  datatype Ownership = Owned | Guaranteed | Unowned | NoneOwnership

  datatype HandleType = ClassType | NativeObjectType

  datatype Callee = Destroyer | SuperclassDestroyer | IsolatedDeallocator

  datatype Substitutions = NoSubstitutions | ContextSubstitutions | ForwardingSubstitutions

  datatype LoadQualifier = Take | Copy

  datatype StoreQualifier = Init | Assign

  /** What a store in the recursive-chain loop writes. */
  datatype Stored = NoneLink | TakenLink | CopiedLink

  /** The SSA values the destructors pass around.  `SuperclassResult` and
      `DestroyerResult` are what an applied destroying destructor returns;
      `Borrowed`, `Cast`, `Converted` and `Dropped` are the results of
      `begin_borrow`, `unchecked_ref_cast`, `unchecked_ownership_conversion` and
      `drop_deinit`. */
  datatype Val =
    | EmptyTuple
    | SelfArg
    | SuperclassResult
    | DestroyerResult
    | IterBorrow
    | Borrowed(of: Val)
    | Cast(of: Val, to: HandleType)
    | Converted(of: Val, toOwnership: Ownership)
    | Dropped(of: Val)

  /** The reference type of a value, when it is a class reference: self has the
      class type, a destroying destructor returns `Builtin.NativeObject`. */
  function TypeOf(v: Val): Option<HandleType> {
    match v
    case SelfArg => Some(ClassType)
    case SuperclassResult => Some(NativeObjectType)
    case DestroyerResult => Some(NativeObjectType)
    case Borrowed(w) => TypeOf(w)
    case Cast(_, t) => Some(t)
    case Converted(w, _) => TypeOf(w)
    case _ => None
  }

  /** The ownership kind of a value, given the kind self arrives with.  Casts
      forward ownership; a borrow is guaranteed; a destroying destructor returns
      its result at +1. */
  function OwnershipOf(v: Val, selfOwnership: Ownership): Ownership {
    match v
    case EmptyTuple => NoneOwnership
    case SelfArg => selfOwnership
    case SuperclassResult => Owned
    case DestroyerResult => Owned
    case IterBorrow => Guaranteed
    case Borrowed(_) => Guaranteed
    case Cast(w, _) => OwnershipOf(w, selfOwnership)
    case Converted(_, o) => o
    case Dropped(w) => OwnershipOf(w, selfOwnership)
  }

  datatype Case = Case(element: nat, target: nat)

  datatype Inst =
    | UserBody                        // the lowered user-written deinit body
    | ExecutorPrecondition            // the check that the caller is on the expected executor
    | RefElementAddr(place: Place)
    | StructElementAddr(place: Place)
    | BeginAccess(kind: AccessKind, place: Place)
    | EndAccess(place: Place)
    | DestroyAddr(place: Place)
    | DestroyValue(value: Val)
    | AllocStack(place: Place)
    | DeallocStack(place: Place)
    | OptionalNone
    | Load(place: Place, loadQual: LoadQualifier)
    | LoadBorrow(place: Place)
    | Store(place: Place, storeQual: StoreQualifier, stored: Stored)
    | UncheckedEnumData
    | IsUnique(place: Place)
    | BeginBorrow(value: Val)
    | EndBorrow(value: Val)
    | EndLifetime(value: Val)
    | Upcast
    | FunctionRef(callee: Callee)
    | Apply(callee: Callee, subs: Substitutions)
    | UncheckedRefCast(value: Val, to: HandleType)
    | UncheckedOwnershipConversion(value: Val, toOwnership: Ownership)
    | ResignID                        // `actorSystem.resignID` of a distributed actor
    | DestroyDefaultActor             // the builtin that tears down default-actor state
    | DeallocRef(value: Val)
    | DropDeinit
    | UncheckedTakeEnumDataAddr(element: nat)
    | ScheduleDeinitOnExecutor        // `swift_task_deinitOnExecutor` and its operands
    | DeallocSelfStack                // `dealloc_stack` of the slot behind a `drop_deinit` self
    | Branch(target: nat)
    | CondBranch(ifTrue: nat, ifFalse: nat)
    | SwitchOptionalAddr(place: Place, some: nat, none: nat)
    | SwitchEnumAddr(cases: seq<Case>)
    | RemoteBranch(remote: nat, local: nat)
    | Return(value: Val)

  /** One instruction of the log together with the block it was inserted into. */
  datatype Entry = Entry(block: nat, inst: Inst)

  predicate IsTerminator(i: Inst) {
    i.Branch? || i.CondBranch? || i.SwitchOptionalAddr? || i.SwitchEnumAddr? || i.RemoteBranch? || i.Return?
  }

  function CaseTargets(cases: seq<Case>): set<nat> {
    set c | c in cases :: c.target
  }

  /** The blocks a terminator may transfer control to. */
  function Successors(i: Inst): set<nat> {
    match i
    case Branch(t) => {t}
    case CondBranch(t, f) => {t, f}
    case SwitchOptionalAddr(_, s, n) => {s, n}
    case SwitchEnumAddr(cases) => CaseTargets(cases)
    case RemoteBranch(r, l) => {r, l}
    case _ => {}
  }

  /** Every entry lies in, and every branch targets, one of the first `n` blocks. */
  ghost predicate WithinBlocks(log: seq<Entry>, n: nat) {
    forall k :: 0 <= k < |log| ==> log[k].block < n && forall t :: t in Successors(log[k].inst) ==> t < n
  }

  /** A straight-line run of instructions, all in block `bb`. */
  function At(bb: nat, ops: seq<Inst>): seq<Entry> {
    seq(|ops|, k requires 0 <= k < |ops| => Entry(bb, ops[k]))
  }

  lemma AtConcat(bb: nat, a: seq<Inst>, b: seq<Inst>)
    ensures At(bb, a + b) == At(bb, a) + At(bb, b)
  {
  }

  /** Four runs appended to one block are one longer run. */
  lemma LogAt4(log: seq<Entry>, bb: nat, w: seq<Inst>, x: seq<Inst>, y: seq<Inst>, z: seq<Inst>)
    ensures log + At(bb, w) + At(bb, x) + At(bb, y) + At(bb, z) == log + At(bb, w + x + y + z)
  {
    AtConcat4(bb, w, x, y, z);
    AppendAssoc4(log, At(bb, w), At(bb, x), At(bb, y), At(bb, z));
  }

  lemma AtConcat4(bb: nat, a: seq<Inst>, b: seq<Inst>, c: seq<Inst>, d: seq<Inst>)
    ensures At(bb, a + b + c + d) == At(bb, a) + At(bb, b) + At(bb, c) + At(bb, d)
  {
    AtConcat(bb, a, b);
    AtConcat(bb, a + b, c);
    AtConcat(bb, a + b + c, d);
  }

  lemma AppendAssoc(log: seq<Entry>, x: seq<Entry>, y: seq<Entry>)
    ensures log + x + y == log + (x + y)
  {
  }

  lemma AppendAssoc3(log: seq<Entry>, x: seq<Entry>, y: seq<Entry>, z: seq<Entry>)
    ensures log + x + y + z == log + (x + y + z)
  {
  }

  lemma AppendAssoc4(log: seq<Entry>, w: seq<Entry>, x: seq<Entry>, y: seq<Entry>, z: seq<Entry>)
    ensures log + w + x + y + z == log + (w + x + y + z)
  {
  }

  /** The instructions of a log in emission order, blocks forgotten. */
  function Insts(log: seq<Entry>): seq<Inst> {
    seq(|log|, k requires 0 <= k < |log| => log[k].inst)
  }

  /** The contents of block `bb`: its instructions in insertion order. */
  function InstsIn(log: seq<Entry>, bb: nat): seq<Inst>
    decreases |log|
  {
    if log == [] then []
    else (if log[0].block == bb then [log[0].inst] else []) + InstsIn(log[1..], bb)
  }

  lemma InstsConcat(a: seq<Entry>, b: seq<Entry>)
    ensures Insts(a + b) == Insts(a) + Insts(b)
  {
  }

  /** The instructions of four straight-line runs, one after the other. */
  lemma InstsAt4(b0: nat, s0: seq<Inst>, b1: nat, s1: seq<Inst>, b2: nat, s2: seq<Inst>, b3: nat, s3: seq<Inst>)
    ensures Insts(At(b0, s0) + At(b1, s1) + At(b2, s2) + At(b3, s3)) == s0 + s1 + s2 + s3
  {
    var e0, e1, e2, e3 := At(b0, s0), At(b1, s1), At(b2, s2), At(b3, s3);
    InstsConcat(e0 + e1 + e2, e3);
    InstsConcat(e0 + e1, e2);
    InstsConcat(e0, e1);
    InstsAt(b0, s0); InstsAt(b1, s1); InstsAt(b2, s2); InstsAt(b3, s3);
  }

  /** The contents of a block after four straight-line runs. */
  lemma InstsInAt4(b0: nat, s0: seq<Inst>, b1: nat, s1: seq<Inst>, b2: nat, s2: seq<Inst>, b3: nat, s3: seq<Inst>, bb: nat)
    ensures InstsIn(At(b0, s0) + At(b1, s1) + At(b2, s2) + At(b3, s3), bb) ==
      (if bb == b0 then s0 else []) + (if bb == b1 then s1 else []) + (if bb == b2 then s2 else []) + (if bb == b3 then s3 else [])
  {
    var e0, e1, e2, e3 := At(b0, s0), At(b1, s1), At(b2, s2), At(b3, s3);
    InstsInConcat(e0 + e1 + e2, e3, bb);
    InstsInConcat(e0 + e1, e2, bb);
    InstsInConcat(e0, e1, bb);
    InstsInAt(b0, s0, bb); InstsInAt(b1, s1, bb); InstsInAt(b2, s2, bb); InstsInAt(b3, s3, bb);
  }

  /** Four runs in four blocks, each balanced, make a balanced log. */
  lemma AccessBalancedAt4(b0: nat, s0: seq<Inst>, b1: nat, s1: seq<Inst>, b2: nat, s2: seq<Inst>, b3: nat, s3: seq<Inst>)
    requires Balanced(s0) && Balanced(s1) && Balanced(s2) && Balanced(s3)
    ensures AccessBalanced(At(b0, s0) + At(b1, s1) + At(b2, s2) + At(b3, s3))
  {
    AccessBalancedAt(b0, s0); AccessBalancedAt(b1, s1); AccessBalancedAt(b2, s2); AccessBalancedAt(b3, s3);
    AccessBalancedConcat(At(b0, s0), At(b1, s1));
    AccessBalancedConcat(At(b0, s0) + At(b1, s1), At(b2, s2));
    AccessBalancedConcat(At(b0, s0) + At(b1, s1) + At(b2, s2), At(b3, s3));
  }

  lemma InstsAt(bb: nat, ops: seq<Inst>)
    ensures Insts(At(bb, ops)) == ops
  {
  }

  lemma {:induction false} InstsInConcat(a: seq<Entry>, b: seq<Entry>, bb: nat)
    ensures InstsIn(a + b, bb) == InstsIn(a, bb) + InstsIn(b, bb)
    decreases |a|
  {
    if a == [] {
      assert a + b == b;
    } else {
      var h := if a[0].block == bb then [a[0].inst] else [];
      assert (a + b)[0] == a[0];
      assert (a + b)[1..] == a[1..] + b;
      assert InstsIn(a + b, bb) == h + InstsIn(a[1..] + b, bb);
      InstsInConcat(a[1..], b, bb);
    }
  }

  lemma {:induction false} InstsInAt(bb: nat, ops: seq<Inst>, other: nat)
    ensures InstsIn(At(bb, ops), other) == if other == bb then ops else []
    decreases |ops|
  {
    if ops != [] {
      assert At(bb, ops)[1..] == At(bb, ops[1..]);
      InstsInAt(bb, ops[1..], other);
    }
  }

  /** No instruction of the run is a terminator. */
  ghost predicate StraightLine(s: seq<Inst>) {
    forall k :: 0 <= k < |s| ==> !IsTerminator(s[k])
  }

  lemma StraightLineConcat(a: seq<Inst>, b: seq<Inst>)
    requires StraightLine(a) && StraightLine(b)
    ensures StraightLine(a + b)
  {
    forall k | 0 <= k < |a + b| ensures !IsTerminator((a + b)[k]) {
      if k < |a| {
        assert (a + b)[k] == a[k];
      } else {
        assert (a + b)[k] == b[k - |a|];
      }
    }
  }

  lemma StraightLine4(a: seq<Inst>, b: seq<Inst>, c: seq<Inst>, d: seq<Inst>)
    requires StraightLine(a) && StraightLine(b) && StraightLine(c) && StraightLine(d)
    ensures StraightLine(a + b + c + d)
  {
    StraightLineConcat(a, b);
    StraightLineConcat(a + b, c);
    StraightLineConcat(a + b + c, d);
  }

  /** A block holds exactly one terminator, `t`, as its last instruction. */
  predicate EndsWith(s: seq<Inst>, t: Inst) {
    |s| > 0 && s[|s| - 1] == t && forall k :: 0 <= k < |s| - 1 ==> !IsTerminator(s[k])
  }

  lemma EndsWithAppend(s: seq<Inst>, t: Inst)
    requires StraightLine(s)
    ensures EndsWith(s + [t], t)
  {
    assert (s + [t])[..|s|] == s;
  }

  /** ---- Access markers ----

      A scan over a block: `begin_access` opens an access (accesses do not nest in
      destructors), `end_access` closes the open access on the same location, and
      every read, write or destroy of a stored property happens inside an open
      access of a suitable kind on that very location. */
  datatype AccessState = Closed | Open(kind: AccessKind, place: Place)

  predicate IsFieldPlace(p: Place) {
    p.SelfField? || p.NextLink?
  }

  function Step(st: AccessState, i: Inst): Option<AccessState> {
    match i
    case BeginAccess(k, p) => if st == Closed then Some(Open(k, p)) else None
    case EndAccess(p) => if st.Open? && st.place == p then Some(Closed) else None
    case DestroyAddr(p) =>
      if !IsFieldPlace(p) || st == Open(Deinit, p) then Some(st) else None
    case Load(p, q) =>
      if !IsFieldPlace(p) || (st.Open? && st.place == p && (q == Copy || st.kind == Modify))
      then Some(st) else None
    case Store(p, _, _) =>
      if !IsFieldPlace(p) || st == Open(Modify, p) then Some(st) else None
    case _ => Some(st)
  }

  function Scan(s: seq<Inst>, st: AccessState): Option<AccessState>
    decreases |s|
  {
    if s == [] then Some(st)
    else match Step(st, s[0])
      case None => None
      case Some(next) => Scan(s[1..], next)
  }

  /** Every access opened in the block is closed in it, and every access to a
      stored property lies inside one. */
  predicate Balanced(s: seq<Inst>) {
    Scan(s, Closed) == Some(Closed)
  }

  lemma {:induction false} ScanConcat(a: seq<Inst>, b: seq<Inst>, st: AccessState)
    ensures Scan(a + b, st) == match Scan(a, st) case None => None case Some(m) => Scan(b, m)
    decreases |a|
  {
    if a == [] {
      assert a + b == b;
    } else {
      assert (a + b)[0] == a[0];
      assert (a + b)[1..] == a[1..] + b;
      match Step(st, a[0])
      case None =>
      case Some(next) => ScanConcat(a[1..], b, next);
    }
  }

  lemma BalancedConcat(a: seq<Inst>, b: seq<Inst>)
    requires Balanced(a) && Balanced(b)
    ensures Balanced(a + b)
  {
    ScanConcat(a, b, Closed);
  }

  /** An instruction that neither opens nor closes an access, and touches no
      stored property. */
  predicate Neutral(i: Inst) {
    !i.BeginAccess? && !i.EndAccess? && !((i.DestroyAddr? || i.Load? || i.Store?) && IsFieldPlace(i.place))
  }

  lemma NeutralStep(i: Inst, st: AccessState)
    requires Neutral(i)
    ensures Step(st, i) == Some(st)
  {
  }

  /** A run of instructions none of which changes the access state `st` or
      violates it leaves the scan in `st`. */
  lemma {:induction false} ScanStable(s: seq<Inst>, st: AccessState)
    requires forall k :: 0 <= k < |s| ==> Step(st, s[k]) == Some(st)
    ensures Scan(s, st) == Some(st)
    decreases |s|
  {
    if s != [] {
      ScanStable(s[1..], st);
    }
  }

  /** A scoped access: `begin_access [kind]` on `p`, the instructions inside the
      access, `end_access` on `p`. */
  function Scoped(kind: AccessKind, p: Place, inner: seq<Inst>): seq<Inst> {
    [BeginAccess(kind, p)] + inner + [EndAccess(p)]
  }

  lemma ScopedBalanced(kind: AccessKind, p: Place, inner: seq<Inst>)
    requires forall k :: 0 <= k < |inner| ==> Step(Open(kind, p), inner[k]) == Some(Open(kind, p))
    ensures Balanced(Scoped(kind, p, inner))
  {
    ScanConcat([BeginAccess(kind, p)] + inner, [EndAccess(p)], Closed);
    ScanConcat([BeginAccess(kind, p)], inner, Closed);
    ScanStable(inner, Open(kind, p));
  }

  /** Appending an instruction that needs no access keeps a run balanced. */
  lemma BalancedSnoc(s: seq<Inst>, t: Inst)
    requires Balanced(s) && Neutral(t)
    ensures Balanced(s + [t])
  {
    NeutralStep(t, Closed);
    ScanConcat(s, [t], Closed);
  }

  /** A run outside any access that touches no stored property is balanced. */
  lemma OutsideBalanced(s: seq<Inst>)
    requires forall k :: 0 <= k < |s| ==> Neutral(s[k])
    ensures Balanced(s)
  {
    forall k | 0 <= k < |s| ensures Step(Closed, s[k]) == Some(Closed) {
      NeutralStep(s[k], Closed);
    }
    ScanStable(s, Closed);
  }

  lemma Balanced4(a: seq<Inst>, b: seq<Inst>, c: seq<Inst>, d: seq<Inst>)
    requires Balanced(a) && Balanced(b) && Balanced(c) && Balanced(d)
    ensures Balanced(a + b + c + d)
  {
    BalancedConcat(a, b);
    BalancedConcat(a + b, c);
    BalancedConcat(a + b + c, d);
  }

  /** Every block of the log is balanced. */
  ghost predicate AccessBalanced(log: seq<Entry>) {
    forall bb :: Balanced(InstsIn(log, bb))
  }

  lemma AccessBalancedAt(bb: nat, ops: seq<Inst>)
    requires Balanced(ops)
    ensures AccessBalanced(At(bb, ops))
  {
    forall other ensures Balanced(InstsIn(At(bb, ops), other)) {
      InstsInAt(bb, ops, other);
    }
  }

  /** A balanced run followed by an instruction that needs no access, alone in
      a block. */
  lemma AccessBalancedSnoc(bb: nat, s: seq<Inst>, t: Inst)
    requires Balanced(s) && Neutral(t)
    ensures AccessBalanced(At(bb, s + [t]))
  {
    BalancedSnoc(s, t);
    AccessBalancedAt(bb, s + [t]);
  }

  lemma AccessBalancedConcat(a: seq<Entry>, b: seq<Entry>)
    requires AccessBalanced(a) && AccessBalanced(b)
    ensures AccessBalanced(a + b)
  {
    forall bb ensures Balanced(InstsIn(a + b, bb)) {
      InstsInConcat(a, b, bb);
      BalancedConcat(InstsIn(a, bb), InstsIn(b, bb));
    }
  }

  /** ---- Destroyed stored properties ----

      The indices of the stored properties of self that a run of instructions
      destroys with `destroy_addr`, in emission order. */
  function DestroyedFields(s: seq<Inst>): seq<nat>
    decreases |s|
  {
    if s == [] then []
    else (if s[0].DestroyAddr? && s[0].place.SelfField? then [s[0].place.index] else [])
         + DestroyedFields(s[1..])
  }

  lemma {:induction false} DestroyedFieldsConcat(a: seq<Inst>, b: seq<Inst>)
    ensures DestroyedFields(a + b) == DestroyedFields(a) + DestroyedFields(b)
    decreases |a|
  {
    if a == [] {
      assert a + b == b;
    } else {
      assert (a + b)[0] == a[0];
      assert (a + b)[1..] == a[1..] + b;
      DestroyedFieldsConcat(a[1..], b);
    }
  }

  lemma DestroyedFields4(a: seq<Inst>, b: seq<Inst>, c: seq<Inst>, d: seq<Inst>)
    ensures DestroyedFields(a + b + c + d) == DestroyedFields(a) + DestroyedFields(b) + DestroyedFields(c) + DestroyedFields(d)
  {
    DestroyedFieldsConcat(a + b + c, d);
    DestroyedFieldsConcat(a + b, c);
    DestroyedFieldsConcat(a, b);
  }

  ghost predicate StrictlyIncreasing(s: seq<nat>) {
    forall p, q :: 0 <= p < q < |s| ==> s[p] < s[q]
  }

  lemma IncreasingAppend(s: seq<nat>, x: nat)
    requires StrictlyIncreasing(s)
    requires forall e :: e in s ==> e < x
    ensures StrictlyIncreasing(s + [x])
  {
    var t := s + [x];
    forall p, q | 0 <= p < q < |t| ensures t[p] < t[q] {
      if q == |s| {
        assert t[p] == s[p] && s[p] in s;
      } else {
        assert t[p] == s[p] && t[q] == s[q];
      }
    }
  }

  /** ---- Occurrences and order ---- */
  function Occurrences(s: seq<Inst>, x: Inst): nat
    decreases |s|
  {
    if s == [] then 0 else (if s[0] == x then 1 else 0) + Occurrences(s[1..], x)
  }

  lemma {:induction false} OccurrencesConcat(a: seq<Inst>, b: seq<Inst>, x: Inst)
    ensures Occurrences(a + b, x) == Occurrences(a, x) + Occurrences(b, x)
    decreases |a|
  {
    if a == [] {
      assert a + b == b;
    } else {
      assert (a + b)[0] == a[0];
      assert (a + b)[1..] == a[1..] + b;
      OccurrencesConcat(a[1..], b, x);
    }
  }

  lemma {:induction false} OccurrencesAbsent(s: seq<Inst>, x: Inst)
    ensures Occurrences(s, x) == 0 <==> x !in s
    decreases |s|
  {
    if s != [] {
      OccurrencesAbsent(s[1..], x);
      assert s == [s[0]] + s[1..];
    }
  }

  /** Some occurrence of `x` comes before some occurrence of `y`. */
  ghost predicate Precedes(s: seq<Inst>, x: Inst, y: Inst) {
    exists p, q :: 0 <= p < q < |s| && s[p] == x && s[q] == y
  }

  lemma PrecedesConcat(a: seq<Inst>, b: seq<Inst>, x: Inst, y: Inst)
    requires x in a && y in b
    ensures Precedes(a + b, x, y)
  {
    var p :| 0 <= p < |a| && a[p] == x;
    var q :| 0 <= q < |b| && b[q] == y;
    assert (a + b)[p] == x && (a + b)[|a| + q] == y;
  }

  /** An instruction whose stage lies outside a run's stage window is not in it. */
  lemma StageExcludes(s: seq<Inst>, lo: int, hi: int, x: Inst)
    requires StagesWithin(s, lo, hi) && Stage(x) >= 0 && (Stage(x) < lo || Stage(x) > hi)
    ensures x !in s
  {
  }

  /** ---- Returns ---- */
  function CountReturns(s: seq<Inst>): nat
    decreases |s|
  {
    if s == [] then 0 else (if s[0].Return? then 1 else 0) + CountReturns(s[1..])
  }

  lemma CountReturns4(a: seq<Inst>, b: seq<Inst>, c: seq<Inst>, d: seq<Inst>)
    ensures CountReturns(a + b + c + d) == CountReturns(a) + CountReturns(b) + CountReturns(c) + CountReturns(d)
  {
    CountReturnsConcat(a + b + c, d);
    CountReturnsConcat(a + b, c);
    CountReturnsConcat(a, b);
  }

  lemma {:induction false} CountReturnsConcat(a: seq<Inst>, b: seq<Inst>)
    ensures CountReturns(a + b) == CountReturns(a) + CountReturns(b)
    decreases |a|
  {
    if a == [] {
      assert a + b == b;
    } else {
      assert (a + b)[0] == a[0];
      assert (a + b)[1..] == a[1..] + b;
      CountReturnsConcat(a[1..], b);
    }
  }

  /** The `dealloc_ref` instructions of a run. */
  function CountDeallocs(s: seq<Inst>): nat
    decreases |s|
  {
    if s == [] then 0 else (if s[0].DeallocRef? then 1 else 0) + CountDeallocs(s[1..])
  }

  lemma {:induction false} CountDeallocsConcat(a: seq<Inst>, b: seq<Inst>)
    ensures CountDeallocs(a + b) == CountDeallocs(a) + CountDeallocs(b)
    decreases |a|
  {
    if a == [] {
      assert a + b == b;
    } else {
      assert (a + b)[0] == a[0];
      assert (a + b)[1..] == a[1..] + b;
      CountDeallocsConcat(a[1..], b);
    }
  }

  lemma CountDeallocs4(a: seq<Inst>, b: seq<Inst>, c: seq<Inst>, d: seq<Inst>)
    ensures CountDeallocs(a + b + c + d) == CountDeallocs(a) + CountDeallocs(b) + CountDeallocs(c) + CountDeallocs(d)
  {
    CountDeallocsConcat(a + b + c, d);
    CountDeallocsConcat(a + b, c);
    CountDeallocsConcat(a, b);
  }

  /** A run with no `dealloc_ref` in it. */
  lemma {:induction false} CountDeallocsNone(s: seq<Inst>)
    requires forall k :: 0 <= k < |s| ==> !s[k].DeallocRef?
    ensures CountDeallocs(s) == 0
    decreases |s|
  {
    if s != [] {
      CountDeallocsNone(s[1..]);
    }
  }

  lemma {:induction false} StraightLineHasNoReturn(s: seq<Inst>)
    requires StraightLine(s)
    ensures CountReturns(s) == 0
    decreases |s|
  {
    if s != [] {
      assert !IsTerminator(s[0]);
      StraightLineHasNoReturn(s[1..]);
    }
  }

  /** ---- Stage order ----

      The fixed order of the destroying destructor: executor check, user body,
      superclass destroyer, identity resignation, stored-property destruction, the
      recursive-chain loop, default-actor teardown, return.  Instructions that do
      not mark a stage have no rank. */
  function Stage(i: Inst): int {
    match i
    case ExecutorPrecondition => 0
    case UserBody => 1
    case Apply(SuperclassDestroyer, _) => 2
    case ResignID => 3
    case DestroyAddr(SelfField(_)) => 4
    case AllocStack(IterSlot) => 5
    case DestroyAddr(IterSlot) => 5
    case DeallocStack(IterSlot) => 5
    case DestroyDefaultActor => 6
    case Return(_) => 7
    case _ => -1
  }

  ghost predicate StagesOrdered(s: seq<Inst>) {
    forall p, q :: 0 <= p < q < |s| && Stage(s[p]) >= 0 && Stage(s[q]) >= 0 ==> Stage(s[p]) <= Stage(s[q])
  }

  ghost predicate StagesWithin(s: seq<Inst>, lo: int, hi: int) {
    forall p :: 0 <= p < |s| && Stage(s[p]) >= 0 ==> lo <= Stage(s[p]) <= hi
  }

  /** Every ranked instruction of the run has stage `v`. */
  ghost predicate Uniform(s: seq<Inst>, v: int) {
    forall k :: 0 <= k < |s| ==> Stage(s[k]) < 0 || Stage(s[k]) == v
  }

  /** A run whose ranked instructions all have stage `v`. */
  lemma UniformStages(s: seq<Inst>, v: int)
    requires Uniform(s, v)
    ensures StagesOrdered(s) && StagesWithin(s, v, v)
  {
  }

  lemma UniformConcat(a: seq<Inst>, b: seq<Inst>, v: int)
    requires Uniform(a, v) && Uniform(b, v)
    ensures Uniform(a + b, v)
  {
    forall k | 0 <= k < |a + b| ensures Stage((a + b)[k]) < 0 || Stage((a + b)[k]) == v {
      if k < |a| {
        assert (a + b)[k] == a[k];
      } else {
        assert (a + b)[k] == b[k - |a|];
      }
    }
  }

  /** In a run with ordered stages, an instruction of an earlier stage comes
      before every instruction of a later one. */
  lemma StagesPrecede(s: seq<Inst>)
    requires StagesOrdered(s)
    ensures forall p, q :: 0 <= p < |s| && 0 <= q < |s| && 0 <= Stage(s[p]) < Stage(s[q]) ==> p < q
  {
  }

  /** In particular `ResignID` comes before every destruction of a stored
      property. */
  lemma ResignPrecedesFields(s: seq<Inst>)
    requires StagesOrdered(s)
    ensures forall p, q :: 0 <= p < |s| && 0 <= q < |s| && s[p] == ResignID && s[q].DestroyAddr? && s[q].place.SelfField? ==> p < q
  {
    StagesPrecede(s);
    forall p, q | 0 <= p < |s| && 0 <= q < |s| && s[p] == ResignID && s[q].DestroyAddr? && s[q].place.SelfField?
      ensures p < q
    {
      assert Stage(s[p]) == 3 && Stage(s[q]) == 4;
    }
  }

  /** A run within a stage window is within any wider one. */
  lemma StagesWiden(s: seq<Inst>, lo: int, hi: int, lo': int, hi': int)
    requires StagesWithin(s, lo, hi) && lo' <= lo && hi <= hi'
    ensures StagesWithin(s, lo', hi')
  {
  }

  lemma StagesConcat(a: seq<Inst>, b: seq<Inst>, lo: int, mid: int, hi: int)
    requires lo <= mid <= hi
    requires StagesOrdered(a) && StagesWithin(a, lo, mid)
    requires StagesOrdered(b) && StagesWithin(b, mid, hi)
    ensures StagesOrdered(a + b) && StagesWithin(a + b, lo, hi)
  {
    var c := a + b;
    forall p, q | 0 <= p < q < |c| && Stage(c[p]) >= 0 && Stage(c[q]) >= 0
      ensures Stage(c[p]) <= Stage(c[q])
    {
      if q < |a| {
        assert c[p] == a[p] && c[q] == a[q];
      } else if p >= |a| {
        assert c[p] == b[p - |a|] && c[q] == b[q - |a|];
      } else {
        assert c[p] == a[p] && c[q] == b[q - |a|];
      }
    }
    forall p | 0 <= p < |c| && Stage(c[p]) >= 0 ensures lo <= Stage(c[p]) <= hi {
      if p < |a| {
        assert c[p] == a[p];
        assert lo <= Stage(a[p]) <= mid;
      } else {
        assert c[p] == b[p - |a|];
        assert mid <= Stage(b[p - |a|]) <= hi;
      }
    }
  }

  /** A run that destroys no stored property, returns nowhere, and whose
      ranked instructions all belong to stage `v`. */
  ghost predicate Auxiliary(s: seq<Inst>, v: int) {
    forall k :: 0 <= k < |s| ==>
      (Stage(s[k]) < 0 || Stage(s[k]) == v) && !s[k].Return? && !(s[k].DestroyAddr? && s[k].place.SelfField?)
  }

  lemma AuxiliaryConcat(a: seq<Inst>, b: seq<Inst>, v: int)
    requires Auxiliary(a, v) && Auxiliary(b, v)
    ensures Auxiliary(a + b, v)
  {
    forall k | 0 <= k < |a + b|
      ensures (Stage((a + b)[k]) < 0 || Stage((a + b)[k]) == v) && !(a + b)[k].Return?
      ensures !((a + b)[k].DestroyAddr? && (a + b)[k].place.SelfField?)
    {
      if k < |a| {
        assert (a + b)[k] == a[k];
      } else {
        assert (a + b)[k] == b[k - |a|];
      }
    }
  }

  lemma {:induction false} AuxiliaryFacts(s: seq<Inst>, v: int)
    requires Auxiliary(s, v)
    ensures DestroyedFields(s) == [] && CountReturns(s) == 0
    ensures StagesOrdered(s) && StagesWithin(s, v, v)
    decreases |s|
  {
    UniformStages(s, v);
    if s != [] {
      assert Auxiliary(s[1..], v) by {
        forall k | 0 <= k < |s[1..]| ensures s[1..][k] == s[k + 1] { }
      }
      AuxiliaryFacts(s[1..], v);
    }
  }
}
