/** `AutoMap<T>`: a class map that records, in a ledger shared with the
    automapper, the name of every property it maps, merges what it holds into
    a target class mapping (`AlterModel`), and keeps two type-keyed registries
    of subclass parts. The session is an immutable value; every operation
    returns the next session. */
module AutoMap {
  import opened Wrappers
  import opened MappingModel

  /** A runtime `Type`, as an opaque key: two keys are equal exactly when
      they stand for the same type. */
  datatype TypeKey = TypeKey(fullName: string)

  /** An `AutoSubClassPart<TSubclass>`: built for `subtype` with a
      discriminator value; `body` holds what its configuration declared. */
  datatype SubclassPart = SubclassPart(subtype: TypeKey, discriminatorValue: string, body: seq<Node>)

  /** An `AutoJoinedSubClassPart<TSubclass>`: built for `subtype` with a key
      column; `body` holds what its configuration declared. */
  datatype JoinedSubclassPart = JoinedSubclassPart(subtype: TypeKey, keyColumn: string, body: seq<Node>)

  /** Why a registration throws: a null configuration callback is invoked
      (`NullAction`), or the generic part type cannot be closed over the
      runtime type (`TypeNotInstantiable`). */
  datatype Error = NullAction | TypeNotInstantiable

  /** Where a base builder stores the part it creates. */
  datatype Destination = Keyed(category: Category) | IdSlot | VersionSlot

  /** The state of one `AutoMap<T>`: the consumed-properties ledger, the id
      and version parts, the parts of each keyed category in declaration
      order, and the two subclass registries. */
  datatype Session = Session(
    ledger: seq<string>,
    id: Option<Node>,
    version: Option<Node>,
    parts: KeyedLists,
    subclasses: map<TypeKey, SubclassPart>,
    joinedSubclasses: map<TypeKey, JoinedSubclassPart>)
  {
    /** The base `ClassMap<T>` builder's effect: keep `part` at `dest`. */
    function Store(dest: Destination, part: Node): Session
    {
      match dest
      case IdSlot => this.(id := Some(part))
      case VersionSlot => this.(version := Some(part))
      case Keyed(c) => this.(parts := parts.Append(c, part))
    }
  }

  /** A builder call's outcome: the next session and the part the caller may
      go on configuring. */
  datatype Declared = Declared(session: Session, part: Node)

  /** A registration's outcome: the next session and the registered part. */
  datatype Registration<P> = Registration(session: Session, part: P)

  /** `a` and `b` agree on everything but the ledger. */
  predicate SameMapping(a: Session, b: Session)
  {
    && a.parts == b.parts && a.id == b.id && a.version == b.version
    && a.subclasses == b.subclasses && a.joinedSubclasses == b.joinedSubclasses
  }

  /** `r` is `s` with `part` stored at `dest` and nothing else changed, the
      ledger aside. */
  predicate StoredOnly(s: Session, r: Session, dest: Destination, part: Node)
  {
    && (forall c :: r.parts.Get(c) == if dest == Keyed(c) then s.parts.Get(c) + [part] else s.parts.Get(c))
    && r.id == (if dest == IdSlot then Some(part) else s.id)
    && r.version == (if dest == VersionSlot then Some(part) else s.version)
    && r.subclasses == s.subclasses && r.joinedSubclasses == s.joinedSubclasses
  }

  /** An intercepted declaration of `property`: exactly that name appended to
      the ledger, and the part the base builder made, keyed by that name,
      stored at `dest`. */
  predicate Intercepted(s: Session, r: Declared, property: string, dest: Destination)
  {
    && r.session.ledger == s.ledger + [property]
    && r.part.name == property
    && StoredOnly(s, r.session, dest, r.part)
  }

  /** The constructor: the session starts from the caller's ledger and holds
      no parts. */
  function New(mappedProperties: seq<string>): (r: Session)
    ensures r.ledger == mappedProperties
    ensures r.id.None? && r.version.None?
    ensures forall c :: r.parts.Get(c) == []
    ensures r.subclasses == map[] && r.joinedSubclasses == map[]
  {
    Session(mappedProperties, None, None, NoLists, map[], map[])
  }

  /** `PropertiesMapped`: the ledger. */
  function PropertiesMapped(s: Session): seq<string>
  {
    s.ledger
  }

  /** Append `property` to the ledger (done first by every interception),
      then let the base builder store `part`. */
  function Intercept(s: Session, property: string, dest: Destination, part: Node): Session
  {
    s.(ledger := s.ledger + [property]).Store(dest, part)
  }

  function HasMany(s: Session, property: string): (r: Declared)
    ensures Intercepted(s, r, property, Keyed(Collections))
    ensures r.part.kind == OneToManyNode
  {
    var part := Node(property, OneToManyNode, None, []);
    Declared(Intercept(s, property, Keyed(Collections), part), part)
  }

  /** `IgnoreProperty`: consumes the name, maps nothing. */
  function IgnoreProperty(s: Session, property: string): (r: Session)
    ensures r.ledger == s.ledger + [property]
    ensures SameMapping(s, r)
  {
    s.(ledger := s.ledger + [property])
  }

  /** `Id(expression)`. */
  function Id(s: Session, property: string): (r: Declared)
    ensures Intercepted(s, r, property, IdSlot)
    ensures r.part.kind == IdNode
    ensures r.part.column.None?
  {
    var part := Node(property, IdNode, None, []);
    Declared(Intercept(s, property, IdSlot, part), part)
  }

  /** `Id(expression, column)`; a null column is `None`. */
  function IdWithColumn(s: Session, property: string, column: Option<string>): (r: Declared)
    ensures Intercepted(s, r, property, IdSlot)
    ensures r.part.kind == IdNode
    ensures r.part.column == column
  {
    var part := Node(property, IdNode, column, []);
    Declared(Intercept(s, property, IdSlot, part), part)
  }

  /** `Map(property, columnName)`; a null column name is `None`. */
  function Map(s: Session, property: string, columnName: Option<string>): (r: Declared)
    ensures Intercepted(s, r, property, Keyed(Properties))
    ensures r.part.kind == PropertyNode
    ensures r.part.column == columnName
  {
    var part := Node(property, PropertyNode, columnName, []);
    Declared(Intercept(s, property, Keyed(Properties), part), part)
  }

  /** `References(property, columnName)`; a null column name is `None`. */
  function References(s: Session, property: string, columnName: Option<string>): (r: Declared)
    ensures Intercepted(s, r, property, Keyed(Category.References))
    ensures r.part.kind == ManyToOneNode
    ensures r.part.column == columnName
  {
    var part := Node(property, ManyToOneNode, columnName, []);
    Declared(Intercept(s, property, Keyed(Category.References), part), part)
  }

  function HasManyToMany(s: Session, property: string): (r: Declared)
    ensures Intercepted(s, r, property, Keyed(Collections))
    ensures r.part.kind == ManyToManyNode
  {
    var part := Node(property, ManyToManyNode, None, []);
    Declared(Intercept(s, property, Keyed(Collections), part), part)
  }

  /** `Component(property, action)`: a null action is replaced by one that
      does nothing, so the component starts, and stays, empty. */
  function Component(s: Session, property: string, action: Option<Configure>): (r: Declared)
    ensures Intercepted(s, r, property, Keyed(Components))
    ensures r.part.kind == ComponentNode
    ensures action.None? ==> r.part.children == []
    ensures action.Some? ==> r.part.children == action.value([])
  {
    var configure := action.GetOr(NoOp);
    var part := Node(property, ComponentNode, None, configure([]));
    Declared(Intercept(s, property, Keyed(Components), part), part)
  }

  function HasOne(s: Session, property: string): (r: Declared)
    ensures Intercepted(s, r, property, Keyed(OneToOnes))
    ensures r.part.kind == OneToOneNode
  {
    var part := Node(property, OneToOneNode, None, []);
    Declared(Intercept(s, property, Keyed(OneToOnes), part), part)
  }

  function Version(s: Session, property: string): (r: Declared)
    ensures Intercepted(s, r, property, VersionSlot)
    ensures r.part.kind == VersionNode
  {
    var part := Node(property, VersionNode, None, []);
    Declared(Intercept(s, property, VersionSlot, part), part)
  }

  /** `IAutoClasslike.AlterModel`: copy the session into `target`. Id and
      version are written only into a root class mapping and only when the
      session holds them; the keyed categories are merged by `MergeKeyed`;
      nothing else is touched. */
  function AlterModel(s: Session, target: ClassMappingBase): (r: ClassMappingBase)
    ensures r.kind == target.kind && r.otherSlots == target.otherSlots
    ensures r.id == if target.kind == RootClass && s.id.Some? then s.id else target.id
    ensures r.version == if target.kind == RootClass && s.version.Some? then s.version else target.version
  {
    var withId :=
      if target.kind == RootClass && s.id.Some? then target.(id := s.id) else target;
    var withVersion :=
      if target.kind == RootClass && s.version.Some? then withId.(version := s.version) else withId;
    withVersion.(keyed := MergeKeyed(target.keyed, s.parts))
  }

  /** After `AlterModel`, every part the session holds is in the target under
      its name (the last part with that name winning), every other key of the
      target keeps its node, and no key appears that neither had. */
  lemma AlterModelKeyed(s: Session, target: ClassMappingBase)
    ensures forall c, k :: LastWith(s.parts.Get(c), k).Some? ==>
              && k in AlterModel(s, target).keyed.Get(c)
              && AlterModel(s, target).keyed.Get(c)[k] == LastWith(s.parts.Get(c), k).value
    ensures forall c, k :: k in target.keyed.Get(c) && LastWith(s.parts.Get(c), k).None? ==>
              && k in AlterModel(s, target).keyed.Get(c)
              && AlterModel(s, target).keyed.Get(c)[k] == target.keyed.Get(c)[k]
    ensures forall c, k :: k in AlterModel(s, target).keyed.Get(c) ==>
              k in target.keyed.Get(c) || LastWith(s.parts.Get(c), k).Some?
  {
    forall c
      ensures AlterModel(s, target).keyed.Get(c) == AddOrReplaceAll(target.keyed.Get(c), s.parts.Get(c))
    {
      MergeKeyedGet(target.keyed, s.parts, c);
    }
  }

  /** `after` is `before` with `part` registered for `subtype`: the earlier
      entry for that type, if any, is gone and every other entry is kept. */
  predicate Replaced<P(==)>(before: map<TypeKey, P>, after: map<TypeKey, P>, subtype: TypeKey, part: P)
  {
    && after.Keys == before.Keys + {subtype}
    && after[subtype] == part
    && forall u :: u in before && u != subtype ==> after[u] == before[u]
  }

  /** `a` and `b` agree on everything but the two registries. */
  predicate SameOutsideRegistries(a: Session, b: Session)
  {
    a.ledger == b.ledger && a.parts == b.parts && a.id == b.id && a.version == b.version
  }

  /** `r` is `s` with `r.part` registered as the subclass part of `subtype`. */
  predicate SubclassRegistered(s: Session, r: Registration<SubclassPart>, subtype: TypeKey)
  {
    && r.part.subtype == subtype
    && Replaced(s.subclasses, r.session.subclasses, subtype, r.part)
    && r.session.joinedSubclasses == s.joinedSubclasses
    && SameOutsideRegistries(s, r.session)
  }

  /** `r` is `s` with `r.part` registered as the joined-subclass part of
      `subtype`. */
  predicate JoinedSubclassRegistered(s: Session, r: Registration<JoinedSubclassPart>, subtype: TypeKey)
  {
    && r.part.subtype == subtype
    && Replaced(s.joinedSubclasses, r.session.joinedSubclasses, subtype, r.part)
    && r.session.subclasses == s.subclasses
    && SameOutsideRegistries(s, r.session)
  }

  /** `SubClass<TSubclass>(discriminatorValue, action)`: build a fresh part for
      the type, run the callback on it, then register it. A null callback is
      invoked all the same and throws before anything is registered. */
  function SubClass(s: Session, subtype: TypeKey, discriminatorValue: string, action: Option<Configure>)
    : (r: Result<Registration<SubclassPart>, Error>)
    ensures r.Failure? <==> action.None?
    ensures r.Failure? ==> r.error == NullAction
    ensures r.Success? ==> SubclassRegistered(s, r.value, subtype)
    ensures r.Success? ==> r.value.part.discriminatorValue == discriminatorValue
    ensures r.Success? ==> r.value.part.body == action.value([])
  {
    match action
    case None => Failure(NullAction)
    case Some(configure) =>
      var part := SubclassPart(subtype, discriminatorValue, configure([]));
      Success(Registration(s.(subclasses := s.subclasses[subtype := part]), part))
  }

  /** `SubClass<TSubclass>(discriminatorValue)`: forwards a null callback. */
  function SubClassWithoutAction(s: Session, subtype: TypeKey, discriminatorValue: string)
    : (r: Result<Registration<SubclassPart>, Error>)
    ensures r == Failure(NullAction)
  {
    SubClass(s, subtype, discriminatorValue, None)
  }

  /** `SubClass(type, discriminatorValue)`: build the part for a runtime type
      (failing when the generic part cannot be closed over it, that is when
      `subtype` is not in `instantiable`), run no callback, register it. */
  function SubClassOfType(s: Session, instantiable: set<TypeKey>, subtype: TypeKey, discriminatorValue: string)
    : (r: Result<Registration<SubclassPart>, Error>)
    ensures r.Failure? <==> subtype !in instantiable
    ensures r.Failure? ==> r.error == TypeNotInstantiable
    ensures r.Success? ==> SubclassRegistered(s, r.value, subtype)
    ensures r.Success? ==> r.value.part.discriminatorValue == discriminatorValue
    ensures r.Success? ==> r.value.part.body == []
  {
    if subtype !in instantiable then Failure(TypeNotInstantiable)
    else
      var part := SubclassPart(subtype, discriminatorValue, []);
      Success(Registration(s.(subclasses := s.subclasses[subtype := part]), part))
  }

  /** `JoinedSubClass<TSubclass>(keyColumn, action)`: as `SubClass`, for the
      joined-subclass registry. */
  function JoinedSubClass(s: Session, subtype: TypeKey, keyColumn: string, action: Option<Configure>)
    : (r: Result<Registration<JoinedSubclassPart>, Error>)
    ensures r.Failure? <==> action.None?
    ensures r.Failure? ==> r.error == NullAction
    ensures r.Success? ==> JoinedSubclassRegistered(s, r.value, subtype)
    ensures r.Success? ==> r.value.part.keyColumn == keyColumn
    ensures r.Success? ==> r.value.part.body == action.value([])
  {
    match action
    case None => Failure(NullAction)
    case Some(configure) =>
      var part := JoinedSubclassPart(subtype, keyColumn, configure([]));
      Success(Registration(s.(joinedSubclasses := s.joinedSubclasses[subtype := part]), part))
  }

  /** `JoinedSubClass<TSubclass>(keyColumn)`: forwards a null callback. */
  function JoinedSubClassWithoutAction(s: Session, subtype: TypeKey, keyColumn: string)
    : (r: Result<Registration<JoinedSubclassPart>, Error>)
    ensures r == Failure(NullAction)
  {
    JoinedSubClass(s, subtype, keyColumn, None)
  }

  /** `JoinedSubClass(type, keyColumn)`: as `SubClassOfType`, for the
      joined-subclass registry. */
  function JoinedSubClassOfType(s: Session, instantiable: set<TypeKey>, subtype: TypeKey, keyColumn: string)
    : (r: Result<Registration<JoinedSubclassPart>, Error>)
    ensures r.Failure? <==> subtype !in instantiable
    ensures r.Failure? ==> r.error == TypeNotInstantiable
    ensures r.Success? ==> JoinedSubclassRegistered(s, r.value, subtype)
    ensures r.Success? ==> r.value.part.keyColumn == keyColumn
    ensures r.Success? ==> r.value.part.body == []
  {
    if subtype !in instantiable then Failure(TypeNotInstantiable)
    else
      var part := JoinedSubclassPart(subtype, keyColumn, []);
      Success(Registration(s.(joinedSubclasses := s.joinedSubclasses[subtype := part]), part))
  }

  /** The one-argument typed overloads as they were evidently meant to work:
      a missing callback treated as one that does nothing, the way
      `Component` treats it. */
  function SubClassWithNoOpDefault(s: Session, subtype: TypeKey, discriminatorValue: string)
    : (r: Registration<SubclassPart>)
    ensures SubclassRegistered(s, r, subtype)
    ensures r.part.discriminatorValue == discriminatorValue && r.part.body == []
  {
    SubClass(s, subtype, discriminatorValue, Some(NoOp)).value
  }

  /** The joined-subclass counterpart of `SubClassWithNoOpDefault`. */
  function JoinedSubClassWithNoOpDefault(s: Session, subtype: TypeKey, keyColumn: string)
    : (r: Registration<JoinedSubclassPart>)
    ensures JoinedSubclassRegistered(s, r, subtype)
    ensures r.part.keyColumn == keyColumn && r.part.body == []
  {
    JoinedSubClass(s, subtype, keyColumn, Some(NoOp)).value
  }
}
