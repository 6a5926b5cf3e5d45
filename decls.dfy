/** The declarations that destructor lowering reads: the nominal type that owns
    the destructor, its stored properties in declaration order and, for an enum,
    its elements.  Type checking and type lowering happen elsewhere; what this
    module keeps of a type is exactly the handful of facts the lowering branches on. */
module Decls {

  /** The actor isolation of a stored property. */
  datatype Isolation = Nonisolated | ActorInstance | GlobalActor

  /** A stored property.  `trivial` is the type lowering's verdict that destroying
      a value of the property's type is a no-op; `optionalSelf` says that the
      property's interface type is `Optional<Self>`, the shape of a recursive link. */
  datatype Field = Field(name: string, trivial: bool, isolation: Isolation, optionalSelf: bool)

  /** An enum element, with or without associated values (a payload). */
  datatype Element = Element(name: string, hasAssociatedValues: bool)

  datatype NominalKind = ClassDecl | StructDecl | EnumDecl

  /** The nominal type that declares the destructor.  The class flags are read
      only for classes, `copyable` only for value types. */
  datatype Nominal = Nominal(
    kind: NominalKind,
    storedProperties: seq<Field>,
    elements: seq<Element>,
    hasSuperclass: bool,
    nativeNSObjectSubclass: bool,
    distributedActor: bool,
    rootDefaultActor: bool,
    copyable: bool)

  /** The two identifiers a remote distributed actor proxy still owns storage for. */
  const IdName: string := "id"
  const ActorSystemName: string := "actorSystem"
}
