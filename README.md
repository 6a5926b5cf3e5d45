# Destructor lowering in Swift's SIL generator

This project models how the Swift compiler's SIL generator lowers a `deinit`
(`lib/SILGen/SILGenDestructor.cpp`):

- The **destroying destructor** runs the user's body. It then calls the
  superclass's destroying destructor, resigns a distributed actor's identity,
  destroys the stored properties and returns self as an owned
  `Builtin.NativeObject`.
- The **deallocating destructor** calls the destroying destructor and frees
  the object.
- The **isolating destructor** hands the object to its actor's executor.
- The **ivar destroyer** destroys the stored properties alone.
- The **move-only destructor** destroys a non-copyable struct or enum field by
  field, or case by case.

The lowering also has four helpers:

- the **recursive-link** scan;
- **chain destruction**, which destroys a linked list of `Optional<Self>` links
  in a loop rather than by recursion;
- the **default-actor** builtin;
- the **remote-actor** short-circuit, which frees a distributed actor's remote
  proxy without running its body.

## How it is modelled

**The builder.** `SILBuilder.Builder` is a class with three fields:

- an append-only log of `(block, instruction)` entries;
- the number of basic blocks created so far;
- the insertion block.

It has the builder operations the lowering uses:

- `Emit` (append to the insertion block);
- `EmitInto` (append to a given block, like the source's local `SILBuilder`);
- `CreateBasicBlock`;
- `SetInsertionPoint`.

**Emitters.** Every emitter of the source is a method on a `Builder`. Its
`ensures` clause states the new log exactly, as the old log plus a
specification function of its inputs: the insertion block and the number of
blocks that existed before. The properties the source promises are proved as
lemmas about those specification functions.

**Instructions.** Instructions are a datatype (`SIL.Inst`). Values and places
are symbolic:

- `SelfField(i)` is the address of stored property `i`;
- `IterSlot` is the chain iterator's stack slot;
- `EnumPayload(k)` is the payload of element `k`.

**Analyses.** Four analyses on instruction sequences state the lowering's
rules:

- `DestroyedFields` lists which stored properties are destroyed, in order;
- `Balanced` and `AccessBalanced` check that every `begin_access` is closed by
  the matching `end_access` on the same place, with no field access outside
  an access scope;
- `Stage` gives the destroying destructor's fixed stage order;
- `CountReturns` and `CountDeallocs` count returns and `dealloc_ref`s.

**Declarations.** A type declaration is `Decls.Nominal`. It holds:

- its kind;
- its stored properties in declaration order, each with its name,
  triviality, isolation and an "is `Optional<Self>`" flag;
- its enum elements;
- the class flags the lowering branches on.

**Runtime model.** `ChainRuntime` models the chain loop's effect at run time,
over a list of reference counts.

## Model

| member | source | states |
|---|---|---|
| Members.FindRecursiveLinks | lib/SILGen/SILGenDestructor.cpp:486-506 | the loop over the stored properties computes exactly `RecursiveLinks`: the candidates, cleared when more than one qualifies |
| Members.CandidatesFacts | lib/SILGen/SILGenDestructor.cpp:493-498 | the candidate scan yields the indices of the `Optional<Self>` properties, in strictly increasing (declaration) order, both directions |
| Members.RecursiveLinksFacts | lib/SILGen/SILGenDestructor.cpp:486-506 | the result has at most one element; it is an `Optional<Self>` field; it is the only such field; and it is empty exactly when no field or at least two fields qualify |
| Members.EmitDestroyClassMember | lib/SILGen/SILGenDestructor.cpp:459-472 | appends `FieldDestroyOps` for the field to the insertion block, creating no block |
| Members.FieldDestroyOpsDestroys | lib/SILGen/SILGenDestructor.cpp:461-471 | a trivial field gets nothing destroyed; a non-trivial one exactly one `destroy_addr` on its own address |
| Members.FieldDestroyOpsFacts | lib/SILGen/SILGenDestructor.cpp:462-471 | the field's operations are straight-line and access-balanced (the `begin_access [deinit]` is closed by `end_access` on the same address), destroy that field once unless it is trivial, and all sit in the member-destruction stage |
| Members.EmitSelectedMembers | lib/SILGen/SILGenDestructor.cpp:635-639 | the loop over the stored properties appends `FieldLoopOps` for all of them, skipping the recursive links |
| Members.FieldLoopDestroys | lib/SILGen/SILGenDestructor.cpp:635-639 | the fields destroyed by the loop are exactly `Destroyed`: the selected non-trivial ones, in loop order |
| Members.DestroyedFacts | lib/SILGen/SILGenDestructor.cpp:635-639 | `Destroyed` is strictly increasing (declaration order, each field at most once) and holds a field iff it precedes the bound, is selected and is non-trivial |
| Members.FieldLoopShape | lib/SILGen/SILGenDestructor.cpp:635-639 | the loop's output is straight-line, access-balanced and entirely in the member-destruction stage |
| Members.FieldLoopInsts | lib/SILGen/SILGenDestructor.cpp:635-639 | the loop emits only field-access instructions (no return, no dealloc) |
| Members.EmitDestroyDefaultActor | lib/SILGen/SILGenDestructor.cpp:609-618 | appends the single `DestroyDefaultActor` builtin to the insertion block |
| RecursiveChain.EmitRecursiveChainDestruction | lib/SILGen/SILGenDestructor.cpp:508-607 | creates exactly six blocks, appends `ChainEntries` and leaves insertion in the clean block |
| RecursiveChain.EmitChainPrologue | lib/SILGen/SILGenDestructor.cpp:523-539 | appends the prologue (load take, store none, iterator init, branch to loop) to the insertion block |
| RecursiveChain.EmitChainUnique | lib/SILGen/SILGenDestructor.cpp:558-588 | appends the unique block's body (copy the next link, assign it to the iterator, branch back) |
| RecursiveChain.EmitLoopHead | lib/SILGen/SILGenDestructor.cpp:541-556 | fills the loop block with the optional switch and the some block with the uniqueness test |
| RecursiveChain.EmitChainExits | lib/SILGen/SILGenDestructor.cpp:590-606 | fills the not-unique and none blocks with a branch to clean, and clean with destroy and dealloc of the iterator slot |
| RecursiveChain.ChainContents | lib/SILGen/SILGenDestructor.cpp:516-606 | every block's contents, as `ChainBlockContents` |
| RecursiveChain.PrologueOrder | lib/SILGen/SILGenDestructor.cpp:523-539 | the link is loaded with take before it is overwritten with `none`; that store precedes the iterator's initialisation; the prologue ends in a branch to the loop |
| RecursiveChain.PrologueBalanced | lib/SILGen/SILGenDestructor.cpp:531-536 | the take and the `none` store sit in one balanced modify access |
| RecursiveChain.ChainEntryFlow | lib/SILGen/SILGenDestructor.cpp:539-549 | the insertion block ends in a branch to the loop; the loop block ends in a switch to some or none |
| RecursiveChain.ChainLoopFlow | lib/SILGen/SILGenDestructor.cpp:551-588 | the some block ends in a conditional branch to unique or not-unique, and the unique block branches back to the loop |
| RecursiveChain.UniqueOrder | lib/SILGen/SILGenDestructor.cpp:564-587 | the next link is loaded with copy, never take, before it is assigned to the iterator; the block ends in a branch to the loop |
| RecursiveChain.UniqueBalanced | lib/SILGen/SILGenDestructor.cpp:572-582 | the copy sits in one balanced read access |
| RecursiveChain.ChainExitFlow | lib/SILGen/SILGenDestructor.cpp:590-606 | not-unique and none both branch to clean; clean is straight-line and destroys the iterator slot before deallocating it |
| RecursiveChain.ChainBalanced | lib/SILGen/SILGenDestructor.cpp:523-606 | every block of the chain is access-balanced |
| RecursiveChain.ChainAuxiliary | lib/SILGen/SILGenDestructor.cpp:523-606 | everything the chain emits belongs to the member-destruction stage (after the plain fields, before the actor state) |
| ChainRuntime.UnlinkChain | lib/SILGen/SILGenDestructor.cpp:541-606 | the loop ends on every finite chain; it unlinks exactly the run of uniquely referenced nodes; it leaves the same counts as the recursive release; no release it performs nests more than one deallocation, the iterator's release in `clean` included; the deepest nesting is one exactly when the loop unlinked a node |
| ChainRuntime.NaiveDepth | lib/SILGen/SILGenDestructor.cpp:625-628 | without the loop, releasing the link nests one deallocation per uniquely referenced node: as deep as the chain is long |
| ChainRuntime.ReleaseResult | lib/SILGen/SILGenDestructor.cpp:576-581 | releasing a node frees the run of unique nodes from there, decrements the first shared one and touches nothing else |
| ClassMembers.EmitClassMemberDestruction | lib/SILGen/SILGenDestructor.cpp:620-652 | requires a guaranteed self; appends `ClassMemberEntries`: the non-link fields, then the chain, then the actor state |
| ClassMembers.ClassMemberDestroys | lib/SILGen/SILGenDestructor.cpp:630-639 | exactly the non-trivial fields that are not the recursive link are destroyed, each once, in declaration order |
| ClassMembers.ClassMemberStages | lib/SILGen/SILGenDestructor.cpp:633-651 | fields come before the chain and the chain before `DestroyDefaultActor`; nothing returns |
| ClassMembers.ClassMemberDefaultActor | lib/SILGen/SILGenDestructor.cpp:647-651 | one final `DestroyDefaultActor` iff the class is a root default actor |
| ClassMembers.ClassMemberChain | lib/SILGen/SILGenDestructor.cpp:641-644 | the chain's iterator slot is allocated iff there is a recursive link, and six blocks are created then and none otherwise |
| ClassMembers.ClassMemberBalanced | lib/SILGen/SILGenDestructor.cpp:620-652 | every block member destruction writes to is access-balanced |
| RemoteActor.EmitDistributedRemoteActorDeinit | lib/SILGen/SILGenDestructor.cpp:33-104 | appends `RemoteEntries`: the local deinit and a return, or the remote/local diamond with its three new blocks |
| RemoteActor.EmitProxyBlock | lib/SILGen/SILGenDestructor.cpp:54-90 | fills the remote block with the proxy's identity-field destruction, actor state, `dealloc_ref` and branch to finish |
| RemoteActor.LocalOnlyPath | lib/SILGen/SILGenDestructor.cpp:40-44 | when isolated or not a distributed actor: the insertion block is the local deinit then one return, and frees once exactly when the local deinit does |
| RemoteActor.RemoteContents | lib/SILGen/SILGenDestructor.cpp:46-103 | the contents of the branch, remote, local and finish blocks, and of no other block |
| RemoteActor.RemoteFlow | lib/SILGen/SILGenDestructor.cpp:46-103 | the entry branches on remoteness; remote and local both branch to finish, which is a single return; the remote block frees once |
| RemoteActor.ProxyDestroys | lib/SILGen/SILGenDestructor.cpp:56-80 | the remote block destroys, in order and once each, exactly the non-trivial fields not isolated to the actor instance and named `id` or `actorSystem`; it frees once and never returns |
| RemoteActor.ProxySkipsLocal | lib/SILGen/SILGenDestructor.cpp:54-90 | the remote block neither runs the body, nor references or applies the destroying destructor (with any substitutions), nor schedules anything |
| RemoteActor.RemoteReturns | lib/SILGen/SILGenDestructor.cpp:33-104 | exactly one return on either shape |
| RemoteActor.RemoteBalanced | lib/SILGen/SILGenDestructor.cpp:33-104 | every block is access-balanced |
| LocalDeinits.EmitLocalDeinit | lib/SILGen/SILGenDestructor.cpp:253-293 | appends the chosen local deinit (deallocate in place, or schedule on the executor) |
| LocalDeinits.DeallocateLocallyOrder | lib/SILGen/SILGenDestructor.cpp:265-291 | the destroyer is applied under a borrow of self; the borrow ends before `end_lifetime` of the incoming self, which precedes `dealloc_ref` |
| LocalDeinits.DeallocateLocallyFrees | lib/SILGen/SILGenDestructor.cpp:289-291 | the only `dealloc_ref` frees the destroyer's result cast back to the class type |
| LocalDeinits.LocalFacts | lib/SILGen/SILGenDestructor.cpp:253-293 | either local deinit is straight-line and balanced and never returns; it frees once when deallocating in place and never when scheduling |
| LocalDeinits.ScheduleIsolatedDefers | lib/SILGen/SILGenDestructor.cpp:353-417 | the isolating path schedules on the executor, frees nothing, and neither references nor applies the destroying destructor, with any substitutions |
| ClassDestructors.EmitDestroyingDestructor | lib/SILGen/SILGenDestructor.cpp:106-227 | appends `DestroyingEntries`: the prelude, then the epilog when it is reachable |
| ClassDestructors.EmitSuperclassDestroyerCall | lib/SILGen/SILGenDestructor.cpp:160-191 | returns the superclass's result when calling it, and self otherwise |
| ClassDestructors.EmitMemberBorrow | lib/SILGen/SILGenDestructor.cpp:193-200 | returns the self member destruction uses |
| ClassDestructors.DestroyingUnreachable | lib/SILGen/SILGenDestructor.cpp:150-156 | with an unreachable epilog, nothing follows the body: no return, no destruction |
| ClassDestructors.DestroyingStages | lib/SILGen/SILGenDestructor.cpp:106-227 | the emitted order follows the stages: executor check, body, superclass call, identity resignation, members, chain, actor state, return |
| ClassDestructors.ResignBeforeMembers | lib/SILGen/SILGenDestructor.cpp:202-213 | every `resignID` precedes every destruction of a stored property |
| ClassDestructors.DestroyingSuperCall | lib/SILGen/SILGenDestructor.cpp:160-191 | the superclass destroyer is applied iff the epilog is reachable, there is a superclass and it is not a native NSObject subclass; the substitution map is dropped exactly when all its parameters are concrete |
| ClassDestructors.DestroyingResigns | lib/SILGen/SILGenDestructor.cpp:202-210 | `resignID` is emitted iff the epilog is reachable and the class is a distributed actor |
| ClassDestructors.DestroyingDestroys | lib/SILGen/SILGenDestructor.cpp:212-213 | exactly the class members' destruction set when the epilog is reachable, nothing otherwise |
| ClassDestructors.DestroyingReturn | lib/SILGen/SILGenDestructor.cpp:215-226 | one final return whose value is a `Builtin.NativeObject` and owned |
| ClassDestructors.MemberSelfFacts | lib/SILGen/SILGenDestructor.cpp:193-200 | the self handed to member destruction is guaranteed and of the class type |
| ClassDestructors.DestroyingBalanced | lib/SILGen/SILGenDestructor.cpp:106-227 | every block is access-balanced |
| ClassDestructors.EmitIVarDestroyer | lib/SILGen/SILGenDestructor.cpp:420-457 | appends `IVarEntries`: an ownership conversion when self is not guaranteed, member destruction, the end of that borrow and a return |
| ClassDestructors.IVarSelfGuaranteed | lib/SILGen/SILGenDestructor.cpp:441-451 | member destruction always gets a guaranteed self |
| ClassDestructors.IVarConversion | lib/SILGen/SILGenDestructor.cpp:444-455 | a non-guaranteed self is converted first and the converted borrow ends just before the return; a guaranteed self is used as is |
| ClassDestructors.IVarSkips | lib/SILGen/SILGenDestructor.cpp:420-457 | no body, executor check, superclass call or `resignID` |
| ClassDestructors.IVarReturns | lib/SILGen/SILGenDestructor.cpp:455 | one final return of the empty tuple |
| ClassDestructors.IVarDestroys | lib/SILGen/SILGenDestructor.cpp:452 | the same fields as class member destruction |
| ClassDestructors.IVarStages | lib/SILGen/SILGenDestructor.cpp:439-456 | member stages in order, then the return |
| ClassDestructors.IVarBalanced | lib/SILGen/SILGenDestructor.cpp:420-457 | every block is access-balanced |
| Destructors.EmitDeallocatingDestructor | lib/SILGen/SILGenDestructor.cpp:229-236 | a class goes to the class deallocating destructor, anything else, which must be non-copyable, to the move-only one |
| Destructors.EmitDeallocatingClassDestructor | lib/SILGen/SILGenDestructor.cpp:238-294 | the remote-actor entry with the in-place local deinit |
| Destructors.EmitIsolatingDestructor | lib/SILGen/SILGenDestructor.cpp:341-418 | the remote-actor entry, never taken as already isolated, with the scheduling local deinit |
| Destructors.DeallocatingFrees | lib/SILGen/SILGenDestructor.cpp:229-294 | one return; a class instance is freed once on each path; a move-only value is never freed with `dealloc_ref` |
| Destructors.DeallocatingRunsDestroyer | lib/SILGen/SILGenDestructor.cpp:253-293 | on the local path the destroyer is applied inside a borrow of self (`begin_borrow` before the apply) and before the object is freed; the remote block never applies it, with any substitutions |
| Destructors.IsolatingSchedules | lib/SILGen/SILGenDestructor.cpp:341-418 | one return; a local instance is scheduled and freed nowhere; a remote proxy is not scheduled and is freed once |
| Destructors.IsolatingDefers | lib/SILGen/SILGenDestructor.cpp:353-417 | the isolating destructor, on either shape, never references the destroying destructor nor applies it with any substitutions |
| MoveOnly.EmitMoveOnlyMemberDestruction | lib/SILGen/SILGenDestructor.cpp:654-713 | appends `MoveOnlyMemberEntries`: the optional `drop_deinit`, then one `destroy_value`, the struct fields, or the enum switch and case blocks, leaving insertion at the continuation |
| MoveOnly.EmitStructMembers | lib/SILGen/SILGenDestructor.cpp:670-683 | the struct-field loop appends `StructMemberOps` |
| MoveOnly.EmitEnumCases | lib/SILGen/SILGenDestructor.cpp:690-707 | one new block per element in order, filled by `CaseOps`; returns the case list `Cases` |
| MoveOnly.MoveOnlyDrop | lib/SILGen/SILGenDestructor.cpp:657-661 | `drop_deinit` is emitted, first and once, exactly when self is not already one |
| MoveOnly.MoveOnlyOrigin | lib/SILGen/SILGenDestructor.cpp:657-712 | the insertion block holds the drop, then one `destroy_value` for an object, the struct fields, or the `switch_enum_addr` |
| MoveOnly.StructMembersDestroy | lib/SILGen/SILGenDestructor.cpp:670-683 | the non-trivial fields are destroyed, each once and in declaration order, under balanced deinit accesses |
| MoveOnly.EnumDispatch | lib/SILGen/SILGenDestructor.cpp:684-712 | the switch is alone in the original block and covers every element, in order, with its own block; the continuation starts empty |
| MoveOnly.EnumCaseBlock | lib/SILGen/SILGenDestructor.cpp:690-707 | element `k`'s block holds exactly `CaseOps` for it |
| MoveOnly.CasePayload | lib/SILGen/SILGenDestructor.cpp:694-701 | the payload is taken and destroyed iff the element has associated values; the block ends in a branch to the continuation and is balanced |
| MoveOnly.CasesTargets | lib/SILGen/SILGenDestructor.cpp:688-707 | every case targets one of the blocks created after the continuation |
| MoveOnly.MoveOnlyMemberCounts | lib/SILGen/SILGenDestructor.cpp:654-713 | member destruction neither returns, nor frees, nor deallocates the stack slot |
| MoveOnly.EmitDeallocatingMoveOnlyDestructor | lib/SILGen/SILGenDestructor.cpp:296-339 | appends the body, member destruction, the stack deallocation when it applies, and a return |
| MoveOnly.MoveOnlyDestructorShape | lib/SILGen/SILGenDestructor.cpp:296-339 | starts with the body and ends with its single return of the empty tuple, never using `dealloc_ref` |
| MoveOnly.MoveOnlyDestructorSlot | lib/SILGen/SILGenDestructor.cpp:328-335 | the stack slot is deallocated iff self is a `drop_deinit` of a marked `alloc_stack` |

## Left out

- `emitObjCDestructor` (lib/SILGen/SILGenDestructor.cpp:715-781): it calls into the Objective-C runtime (`objc_super_method`) and has little logic of its own.
- The SIL builder's instructions, type lowering, SIL types, casts and substitution maps are opaque instruction tags and values. Only the branches the lowering takes on them are modelled: a cast is emitted when the types differ, and the superclass substitutions are dropped when all parameters are concrete.
- Body lowering (`emitStmt`, `prepareEpilog`, `emitEpilogBB`, profiler increments) is one `UserBody` instruction. The destroying destructor takes whether the epilog is reachable as a parameter. Where the epilog block is placed is not modelled: the epilog continues in the insertion block.
- The executor check (`emitExecutor`, `emitPreconditionCheckExpectedExecutor`) is one `ExecutorPrecondition` instruction, emitted when the deinit's isolation yields an executor. The isolating destructor's executor extraction, `AnyObject` existential, function conversion, flags literal and `swift_task_deinitOnExecutor` call are the single `ScheduleDeinitOnExecutor` instruction.
- LocalDeinits.ScheduleIsolatedDefers: the `apply` of `swift_task_deinitOnExecutor` (lib/SILGen/SILGenDestructor.cpp:415-416) is inside the `ScheduleDeinitOnExecutor` tag, so the lemma speaks only of the destroying destructor and of `dealloc_ref`, not of applies in general.
- `emitDistributedIfRemoteBranch` is one `RemoteBranch` terminator. The check for remoteness happens at run time outside this file.
- `emitDistributedActorSystemResignIDCall` is one `ResignID` instruction.
- `MagicFunctionName`, source locations, unavailable-ABI stubs and cleanup scopes (`FullExpr`, `Scope`, `ArgumentScope`) are bookkeeping. They are left out, except for the begin/end pairs they produce.
- `borrowObjectRValue` is not part of this model. It is taken to borrow an owned value and pass a guaranteed one through.
- The deallocating and isolating destructors treat self as the +1 argument the source comments describe, on both paths: the local one and the remote proxy block, which therefore always borrows self with `begin_borrow`. The ownership of the incoming self is not a parameter there.
- The base of a `ref_element_addr` (self, the borrow or the cast) is not recorded. A field's address is identified by the field's index.
- `emitDeallocatingMoveOnlyDestructor` always emits member destruction after the body, as the code does. Whether the epilog is reachable is not modelled there.
- MoveOnly.MoveOnlySelf: inspecting the SIL value of self (is it a `drop_deinit`, of a `mark_unresolved_non_copyable_value`, of an `alloc_stack`; is it an object) is replaced by boolean flags.
- ChainRuntime.UnlinkChain: the runtime model covers a single chain of strong references held by the link field. Weak and unowned references, and node payloads whose deinits touch the chain, are not modelled.
- Concurrency, and the actual execution of any emitted code, are not modelled apart from the chain runtime model.
