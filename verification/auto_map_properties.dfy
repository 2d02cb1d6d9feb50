/** Properties of the `AutoMap<T>` session across whole sequences of calls:
    the ledger, the merge into a target mapping, and the subclass
    registries. */
module AutoMapProperties {
  import opened Wrappers
  import opened MappingModel
  import opened AutoMap

  /** A property declaration: one of the intercepted builder calls, or
      `IgnoreProperty`. */
  datatype Declaration =
    | HasManyDecl(property: string)
    | IgnorePropertyDecl(property: string)
    | IdDecl(property: string)
    | IdWithColumnDecl(property: string, column: Option<string>)
    | MapDecl(property: string, columnName: Option<string>)
    | ReferencesDecl(property: string, columnName: Option<string>)
    | HasManyToManyDecl(property: string)
    | ComponentDecl(property: string, action: Option<Configure>)
    | HasOneDecl(property: string)
    | VersionDecl(property: string)

  /** A subclass registration, typed or by runtime type. */
  datatype RegistryCall =
    | SubClassCall(subtype: TypeKey, discriminatorValue: string, action: Option<Configure>)
    | SubClassOfTypeCall(subtype: TypeKey, discriminatorValue: string)
    | JoinedSubClassCall(subtype: TypeKey, keyColumn: string, action: Option<Configure>)
    | JoinedSubClassOfTypeCall(subtype: TypeKey, keyColumn: string)

  /** One call a mapping author makes on an `AutoMap<T>`. */
  datatype Op = PropertyOp(declaration: Declaration) | RegistryOp(call: RegistryCall)

  /** The ledger entries `op` appends: its property name for a property
      declaration, nothing for a registration. */
  function Consumed(op: Op): seq<string>
  {
    match op
    case PropertyOp(d) => [d.property]
    case RegistryOp(_) => []
  }

  /** The ledger entries a whole sequence of calls appends, in order. */
  function ConsumedAll(ops: seq<Op>): seq<string>
    decreases |ops|
  {
    if |ops| == 0 then [] else Consumed(ops[0]) + ConsumedAll(ops[1..])
  }

  /** A property declaration on the session. */
  function Declare(s: Session, d: Declaration): (r: Session)
    ensures r.ledger == s.ledger + [d.property]
  {
    match d
    case HasManyDecl(p) => HasMany(s, p).session
    case IgnorePropertyDecl(p) => IgnoreProperty(s, p)
    case IdDecl(p) => Id(s, p).session
    case IdWithColumnDecl(p, col) => IdWithColumn(s, p, col).session
    case MapDecl(p, col) => Map(s, p, col).session
    case ReferencesDecl(p, col) => AutoMap.References(s, p, col).session
    case HasManyToManyDecl(p) => HasManyToMany(s, p).session
    case ComponentDecl(p, action) => Component(s, p, action).session
    case HasOneDecl(p) => HasOne(s, p).session
    case VersionDecl(p) => Version(s, p).session
  }

  /** A registration on the session; `instantiable` are the runtime types
      the generic subclass parts can be closed over. */
  function Register(s: Session, instantiable: set<TypeKey>, call: RegistryCall): (r: Result<Session, Error>)
    ensures r.Success? ==> SameOutsideRegistries(s, r.value)
  {
    match call
    case SubClassCall(t, dv, action) =>
      (match SubClass(s, t, dv, action)
       case Success(reg) => Success(reg.session)
       case Failure(e) => Failure(e))
    case SubClassOfTypeCall(t, dv) =>
      (match SubClassOfType(s, instantiable, t, dv)
       case Success(reg) => Success(reg.session)
       case Failure(e) => Failure(e))
    case JoinedSubClassCall(t, key, action) =>
      (match JoinedSubClass(s, t, key, action)
       case Success(reg) => Success(reg.session)
       case Failure(e) => Failure(e))
    case JoinedSubClassOfTypeCall(t, key) =>
      (match JoinedSubClassOfType(s, instantiable, t, key)
       case Success(reg) => Success(reg.session)
       case Failure(e) => Failure(e))
  }

  /** One call on the session: a declaration never throws, a registration
      may. */
  function Apply(s: Session, instantiable: set<TypeKey>, op: Op): (r: Result<Session, Error>)
    ensures r.Success? ==> r.value.ledger == s.ledger + Consumed(op)
    ensures r.Failure? ==> op.RegistryOp?
  {
    match op
    case PropertyOp(d) => Success(Declare(s, d))
    case RegistryOp(call) => Register(s, instantiable, call)
  }

  /** Where a sequence of calls leaves the session: after all of them, or,
      when a registration throws (declarations are modelled as never
      throwing), as it was just before that call, with the error. */
  datatype Outcome = Outcome(session: Session, failure: Option<Error>)

  function Run(s: Session, instantiable: set<TypeKey>, ops: seq<Op>): Outcome
    decreases |ops|
  {
    if |ops| == 0 then Outcome(s, None)
    else
      match Apply(s, instantiable, ops[0])
      case Failure(e) => Outcome(s, Some(e))
      case Success(next) => Run(next, instantiable, ops[1..])
  }

  /** One step of `Run`: a call that returns moves on to the rest. */
  lemma RunStep(s: Session, instantiable: set<TypeKey>, ops: seq<Op>)
    requires |ops| > 0
    ensures Apply(s, instantiable, ops[0]).Failure? ==> Run(s, instantiable, ops).session == s
    ensures Apply(s, instantiable, ops[0]).Success? ==>
              && Run(s, instantiable, ops) == Run(Apply(s, instantiable, ops[0]).value, instantiable, ops[1..])
              && Apply(s, instantiable, ops[0]).value.ledger == s.ledger + Consumed(ops[0])
  {
  }

  /** The ledger only grows: whatever happens, even when a call throws
      part-way, the starting ledger is a prefix of the final one. */
  lemma {:induction false} RunLedgerGrows(s: Session, instantiable: set<TypeKey>, ops: seq<Op>)
    ensures s.ledger <= Run(s, instantiable, ops).session.ledger
    decreases |ops|
  {
    if |ops| > 0 {
      RunStep(s, instantiable, ops);
      var step := Apply(s, instantiable, ops[0]);
      if step.Success? {
        RunLedgerGrows(step.value, instantiable, ops[1..]);
      }
    }
  }

  /** A run that completes has appended exactly the declared names, in
      order, a name declared twice appearing twice. */
  lemma {:induction false} RunLedgerExact(s: Session, instantiable: set<TypeKey>, ops: seq<Op>)
    requires Run(s, instantiable, ops).failure.None?
    ensures Run(s, instantiable, ops).session.ledger == s.ledger + ConsumedAll(ops)
    decreases |ops|
  {
    if |ops| > 0 {
      RunStep(s, instantiable, ops);
      var step := Apply(s, instantiable, ops[0]);
      assert step.Success?;
      RunLedgerExact(step.value, instantiable, ops[1..]);
      AppendAssociates(s.ledger, Consumed(ops[0]), ConsumedAll(ops[1..]));
    }
  }

  /** Regrouping of ledger appends, stated on its own so that the inductive
      step of `RunLedgerExact` does not redo sequence extensionality in the
      context of `Run`'s unfolding. */
  lemma AppendAssociates<T>(a: seq<T>, b: seq<T>, c: seq<T>)
    ensures (a + b) + c == a + (b + c)
  {
  }

  /** `PropertiesMapped` after a completed run: the list handed to the
      constructor followed by every name declared since. */
  lemma PropertiesMappedAfterRun(mappedProperties: seq<string>, instantiable: set<TypeKey>, ops: seq<Op>)
    requires Run(New(mappedProperties), instantiable, ops).failure.None?
    ensures PropertiesMapped(Run(New(mappedProperties), instantiable, ops).session)
            == mappedProperties + ConsumedAll(ops)
  {
    RunLedgerExact(New(mappedProperties), instantiable, ops);
  }

  /** Every part the session holds maps a property named in the ledger, so
      the automapper, which skips ledger names, never maps it a second time. */
  predicate LedgerCovers(s: Session)
  {
    && (forall c, i :: 0 <= i < |s.parts.Get(c)| ==> s.parts.Get(c)[i].name in s.ledger)
    && (s.id.Some? ==> s.id.value.name in s.ledger)
    && (s.version.Some? ==> s.version.value.name in s.ledger)
  }

  /** A fresh class map holds no parts, so its ledger covers them. */
  lemma NewLedgerCovers(mappedProperties: seq<string>)
    ensures LedgerCovers(New(mappedProperties))
  {
  }

  /** An intercepted declaration keeps the ledger covering the parts: the
      one part it adds carries the name it appended. */
  lemma InterceptedKeepsLedgerCovers(s: Session, r: Declared, property: string, dest: Destination)
    requires LedgerCovers(s) && Intercepted(s, r, property, dest)
    ensures LedgerCovers(r.session)
  {
    forall c, i | 0 <= i < |r.session.parts.Get(c)|
      ensures r.session.parts.Get(c)[i].name in r.session.ledger
    {
      if i < |s.parts.Get(c)| {
        assert r.session.parts.Get(c)[i] == s.parts.Get(c)[i];
      }
    }
  }

  /** Every declaration keeps the ledger covering the session's parts. */
  lemma DeclareKeepsLedgerCovers(s: Session, d: Declaration)
    requires LedgerCovers(s)
    ensures LedgerCovers(Declare(s, d))
  {
    match d
    case HasManyDecl(p) => InterceptedKeepsLedgerCovers(s, HasMany(s, p), p, Keyed(Collections));
    case IgnorePropertyDecl(p) =>
    case IdDecl(p) => InterceptedKeepsLedgerCovers(s, Id(s, p), p, IdSlot);
    case IdWithColumnDecl(p, col) => InterceptedKeepsLedgerCovers(s, IdWithColumn(s, p, col), p, IdSlot);
    case MapDecl(p, col) => InterceptedKeepsLedgerCovers(s, Map(s, p, col), p, Keyed(Properties));
    case ReferencesDecl(p, col) =>
      InterceptedKeepsLedgerCovers(s, AutoMap.References(s, p, col), p, Keyed(Category.References));
    case HasManyToManyDecl(p) => InterceptedKeepsLedgerCovers(s, HasManyToMany(s, p), p, Keyed(Collections));
    case ComponentDecl(p, action) => InterceptedKeepsLedgerCovers(s, Component(s, p, action), p, Keyed(Components));
    case HasOneDecl(p) => InterceptedKeepsLedgerCovers(s, HasOne(s, p), p, Keyed(OneToOnes));
    case VersionDecl(p) => InterceptedKeepsLedgerCovers(s, Version(s, p), p, VersionSlot);
  }

  /** Every call keeps the ledger covering the session's parts. */
  lemma ApplyKeepsLedgerCovers(s: Session, instantiable: set<TypeKey>, op: Op)
    requires LedgerCovers(s)
    ensures Apply(s, instantiable, op).Success? ==> LedgerCovers(Apply(s, instantiable, op).value)
  {
    match op
    case PropertyOp(d) => DeclareKeepsLedgerCovers(s, d);
    case RegistryOp(call) =>
  }

  /** A session whose ledger covers its parts keeps it covering them through
      any run of the modelled calls (the intercepted builders, `IgnoreProperty`
      and the two registries); with `NewLedgerCovers` this holds for every
      run that starts from the constructor. */
  lemma {:induction false} RunKeepsLedgerCovers(s: Session, instantiable: set<TypeKey>, ops: seq<Op>)
    requires LedgerCovers(s)
    ensures LedgerCovers(Run(s, instantiable, ops).session)
    decreases |ops|
  {
    if |ops| > 0 {
      ApplyKeepsLedgerCovers(s, instantiable, ops[0]);
      match Apply(s, instantiable, ops[0])
      case Failure(e) =>
      case Success(next) => RunKeepsLedgerCovers(next, instantiable, ops[1..]);
    }
  }

  /** What `AlterModel` adds to a target is all under ledger names. */
  lemma AlterModelAddsOnlyConsumed(s: Session, target: ClassMappingBase)
    requires LedgerCovers(s)
    ensures forall c, k :: k in AlterModel(s, target).keyed.Get(c) && k !in target.keyed.Get(c) ==> k in s.ledger
    ensures AlterModel(s, target).id != target.id ==> AlterModel(s, target).id.value.name in s.ledger
    ensures AlterModel(s, target).version != target.version ==> AlterModel(s, target).version.value.name in s.ledger
  {
    AlterModelKeyed(s, target);
    forall c, k | k in AlterModel(s, target).keyed.Get(c) && k !in target.keyed.Get(c)
      ensures k in s.ledger
    {
      var n := LastWith(s.parts.Get(c), k).value;
      var i :| 0 <= i < |s.parts.Get(c)| && s.parts.Get(c)[i] == n;
    }
  }

  /** `IgnoreProperty` leaves nothing for `AlterModel` to add. */
  lemma IgnorePropertyAddsNothing(s: Session, property: string, target: ClassMappingBase)
    ensures AlterModel(IgnoreProperty(s, property), target) == AlterModel(s, target)
  {
  }

  /** A second `AlterModel` with the same session changes nothing. */
  lemma AlterModelIdempotent(s: Session, target: ClassMappingBase)
    ensures AlterModel(s, AlterModel(s, target)) == AlterModel(s, target)
  {
    MergeKeyedIdempotent(target.keyed, s.parts);
  }

  /** The node an intercepted declaration builds is the one `AlterModel`
      puts in the target for that name, whatever the session held before:
      under its key in a keyed category, or in the id or version slot of a
      root class mapping. */
  lemma DeclarationWins(s: Session, r: Declared, property: string, dest: Destination, target: ClassMappingBase)
    requires Intercepted(s, r, property, dest)
    ensures dest.Keyed? ==>
              && property in AlterModel(r.session, target).keyed.Get(dest.category)
              && AlterModel(r.session, target).keyed.Get(dest.category)[property] == r.part
    ensures dest == IdSlot && target.kind == RootClass ==> AlterModel(r.session, target).id == Some(r.part)
    ensures dest == VersionSlot && target.kind == RootClass ==> AlterModel(r.session, target).version == Some(r.part)
  {
    if dest.Keyed? {
      var c := dest.category;
      var ns := r.session.parts.Get(c);
      assert ns == s.parts.Get(c) + [r.part];
      assert ns[|ns| - 1] == r.part;
      assert LastWith(ns, property) == Some(r.part);
      MergeKeyedGet(target.keyed, r.session.parts, c);
    }
  }

  /** Declaring the same many-to-one twice leaves one node under its name in
      the merged mapping: the second declaration's. */
  lemma ReferencesRedeclaredReplaces(s: Session, property: string, first: Option<string>,
                                     second: Option<string>, target: ClassMappingBase)
    ensures var twice := AutoMap.References(AutoMap.References(s, property, first).session, property, second).session;
            var merged := AlterModel(twice, target).keyed.references;
            property in merged && merged[property].column == second
  {
    var twice := AutoMap.References(AutoMap.References(s, property, first).session, property, second).session;
    assert twice.parts.references == s.parts.references + [Node(property, ManyToOneNode, first, []), Node(property, ManyToOneNode, second, [])];
    assert LastWith(twice.parts.references, property) == Some(Node(property, ManyToOneNode, second, []));
  }

  /** The session the Id/Name/Temp declarations leave behind. */
  lemma IdNameTempSession()
    ensures IgnoreProperty(Map(Id(New([]), "Id").session, "Name", Some("nm")).session, "Temp")
            == Session(["Id", "Name", "Temp"], Some(Node("Id", IdNode, None, [])), None,
                       NoLists.(properties := [Node("Name", PropertyNode, Some("nm"), [])]), map[], map[])
  {
    var s0 := Id(New([]), "Id").session;
    assert s0.parts == NoLists;
    var s1 := Map(s0, "Name", Some("nm")).session;
    assert s1.parts.properties == [Node("Name", PropertyNode, Some("nm"), [])];
  }

  /** Declaring an identity on "Id", a property "Name" on column "nm" and
      ignoring "Temp", then merging into a root mapping with no keyed nodes. */
  lemma IdNameTempScenario(empty: ClassMappingBase)
    requires empty.kind == RootClass && forall c :: empty.keyed.Get(c) == map[]
    ensures var s := IgnoreProperty(Map(Id(New([]), "Id").session, "Name", Some("nm")).session, "Temp");
            var merged := AlterModel(s, empty);
            && PropertiesMapped(s) == ["Id", "Name", "Temp"]
            && merged.id == Some(Node("Id", IdNode, None, []))
            && merged.keyed.properties == map["Name" := Node("Name", PropertyNode, Some("nm"), [])]
            && forall c :: "Temp" !in merged.keyed.Get(c)
  {
    var name := Node("Name", PropertyNode, Some("nm"), []);
    var s := IgnoreProperty(Map(Id(New([]), "Id").session, "Name", Some("nm")).session, "Temp");
    IdNameTempSession();
    var merged := AlterModel(s, empty);
    forall c
      ensures merged.keyed.Get(c) == AddOrReplaceAll(map[], s.parts.Get(c))
    {
      MergeKeyedGet(empty.keyed, s.parts, c);
    }
    assert AddOrReplaceAll(map[], [name]) == map["Name" := name] by {
      assert [name][..0] == [];
    }
    assert merged.keyed.properties == merged.keyed.Get(Properties);
  }

  /** Registering twice for one type keeps only the second part; the runtime
      path shown, the typed path behaves alike (see `SubClass`). */
  lemma SubClassRedefinitionReplaces(s: Session, instantiable: set<TypeKey>, subtype: TypeKey,
                                     first: string, second: string)
    requires subtype in instantiable
    ensures var once := SubClassOfType(s, instantiable, subtype, first).value.session;
            var twice := SubClassOfType(once, instantiable, subtype, second).value.session;
            && twice.subclasses[subtype].discriminatorValue == second
            && twice.subclasses.Keys == s.subclasses.Keys + {subtype}
  {
  }

  /** The statically typed and the runtime-typed subclass paths agree: the
      runtime path is the typed path with a callback that does nothing. */
  lemma SubClassPathsAgree(s: Session, instantiable: set<TypeKey>, subtype: TypeKey, discriminatorValue: string)
    requires subtype in instantiable
    ensures SubClassOfType(s, instantiable, subtype, discriminatorValue)
            == SubClass(s, subtype, discriminatorValue, Some(NoOp))
  {
  }

  /** The joined-subclass counterpart of `SubClassPathsAgree`. */
  lemma JoinedSubClassPathsAgree(s: Session, instantiable: set<TypeKey>, subtype: TypeKey, keyColumn: string)
    requires subtype in instantiable
    ensures JoinedSubClassOfType(s, instantiable, subtype, keyColumn)
            == JoinedSubClass(s, subtype, keyColumn, Some(NoOp))
  {
  }

  /** With a missing callback read as a no-op, the one-argument typed
      overloads register exactly what the runtime-typed ones do. */
  lemma NoOpDefaultMatchesRuntimePath(s: Session, instantiable: set<TypeKey>, subtype: TypeKey, value: string)
    requires subtype in instantiable
    ensures Success(SubClassWithNoOpDefault(s, subtype, value)) == SubClassOfType(s, instantiable, subtype, value)
    ensures Success(JoinedSubClassWithNoOpDefault(s, subtype, value)) == JoinedSubClassOfType(s, instantiable, subtype, value)
  {
  }

  /** A null component callback is the callback that does nothing. */
  lemma ComponentNullActionIsNoOp(s: Session, property: string)
    ensures Component(s, property, None) == Component(s, property, Some(NoOp))
  {
  }

  /** Where a declaration's base builder stores its part, and the part. */
  datatype Placement = Placement(dest: Destination, node: Node)

  /** The part each declaration builds and where it goes, described per
      declaration; `IgnoreProperty` builds nothing. */
  function Placed(d: Declaration): Option<Placement>
  {
    match d
    case HasManyDecl(p) => Some(Placement(Keyed(Collections), Node(p, OneToManyNode, None, [])))
    case IgnorePropertyDecl(_) => None
    case IdDecl(p) => Some(Placement(IdSlot, Node(p, IdNode, None, [])))
    case IdWithColumnDecl(p, col) => Some(Placement(IdSlot, Node(p, IdNode, col, [])))
    case MapDecl(p, col) => Some(Placement(Keyed(Properties), Node(p, PropertyNode, col, [])))
    case ReferencesDecl(p, col) => Some(Placement(Keyed(Category.References), Node(p, ManyToOneNode, col, [])))
    case HasManyToManyDecl(p) => Some(Placement(Keyed(Collections), Node(p, ManyToManyNode, None, [])))
    case ComponentDecl(p, action) =>
      Some(Placement(Keyed(Components), Node(p, ComponentNode, None, action.GetOr(NoOp)([]))))
    case HasOneDecl(p) => Some(Placement(Keyed(OneToOnes), Node(p, OneToOneNode, None, [])))
    case VersionDecl(p) => Some(Placement(VersionSlot, Node(p, VersionNode, None, [])))
  }

  /** `Declare` does what `Placed` says: the part, named after the declared
      property, stored at its destination and nothing else; for an ignore,
      no change to the mapping at all. */
  lemma DeclarePlaces(s: Session, d: Declaration)
    ensures Placed(d).None? ==> SameMapping(s, Declare(s, d))
    ensures Placed(d).Some? ==> && Placed(d).value.node.name == d.property
                                && StoredOnly(s, Declare(s, d), Placed(d).value.dest, Placed(d).value.node)
  {
  }

  /** The nodes `op` declares into category `c`: one or none. */
  function DeclaredInto(op: Op, c: Category): seq<Node>
  {
    if op.PropertyOp? && Placed(op.declaration).Some? && Placed(op.declaration).value.dest == Keyed(c)
    then [Placed(op.declaration).value.node]
    else []
  }

  /** The nodes a sequence of calls declares into `c`, in call order. */
  function DeclaredAllInto(ops: seq<Op>, c: Category): seq<Node>
    decreases |ops|
  {
    if |ops| == 0 then [] else DeclaredInto(ops[0], c) + DeclaredAllInto(ops[1..], c)
  }

  /** The node the last call in `ops` that stores at `dest` (an id or
      version slot) put there, if any call does. */
  function LastPlacedAt(ops: seq<Op>, dest: Destination): Option<Node>
    decreases |ops|
  {
    if |ops| == 0 then None
    else
      var later := LastPlacedAt(ops[1..], dest);
      if later.Some? then later
      else if ops[0].PropertyOp? && Placed(ops[0].declaration).Some? && Placed(ops[0].declaration).value.dest == dest
      then Some(Placed(ops[0].declaration).value.node)
      else None
  }

  /** One call's effect on a category's list and on the two slots. */
  lemma ApplyPlaces(s: Session, instantiable: set<TypeKey>, op: Op, c: Category)
    requires Apply(s, instantiable, op).Success?
    ensures Apply(s, instantiable, op).value.parts.Get(c) == s.parts.Get(c) + DeclaredInto(op, c)
    ensures Apply(s, instantiable, op).value.id
            == if LastPlacedAt([op], IdSlot).Some? then LastPlacedAt([op], IdSlot) else s.id
    ensures Apply(s, instantiable, op).value.version
            == if LastPlacedAt([op], VersionSlot).Some? then LastPlacedAt([op], VersionSlot) else s.version
  {
    assert [op][1..] == [];
    match op
    case PropertyOp(d) => DeclarePlaces(s, d);
    case RegistryOp(_) =>
  }

  /** A completed run appends to each category exactly the nodes its calls
      declared into it, in call order. */
  lemma {:induction false} RunParts(s: Session, instantiable: set<TypeKey>, ops: seq<Op>, c: Category)
    requires Run(s, instantiable, ops).failure.None?
    ensures Run(s, instantiable, ops).session.parts.Get(c) == s.parts.Get(c) + DeclaredAllInto(ops, c)
    decreases |ops|
  {
    if |ops| > 0 {
      RunStep(s, instantiable, ops);
      var step := Apply(s, instantiable, ops[0]);
      assert step.Success?;
      ApplyPlaces(s, instantiable, ops[0], c);
      RunParts(step.value, instantiable, ops[1..], c);
      AppendAssociates(s.parts.Get(c), DeclaredInto(ops[0], c), DeclaredAllInto(ops[1..], c));
    }
  }

  /** A completed run leaves in the id and version slots the node of the
      last call that stored there, or what the session held before. */
  lemma {:induction false} RunSlots(s: Session, instantiable: set<TypeKey>, ops: seq<Op>)
    requires Run(s, instantiable, ops).failure.None?
    ensures Run(s, instantiable, ops).session.id
            == if LastPlacedAt(ops, IdSlot).Some? then LastPlacedAt(ops, IdSlot) else s.id
    ensures Run(s, instantiable, ops).session.version
            == if LastPlacedAt(ops, VersionSlot).Some? then LastPlacedAt(ops, VersionSlot) else s.version
    decreases |ops|
  {
    if |ops| > 0 {
      RunStep(s, instantiable, ops);
      var step := Apply(s, instantiable, ops[0]);
      assert step.Success?;
      ApplyPlaces(s, instantiable, ops[0], Properties);
      RunSlots(step.value, instantiable, ops[1..]);
      assert [ops[0]][1..] == [];
    }
  }

  /** The last node named `key` in `a + b` is the last in `b` if `b` has
      one, and otherwise the last in `a`. */
  lemma {:induction false} LastWithAppend(a: seq<Node>, b: seq<Node>, key: string)
    ensures LastWith(a + b, key) == if LastWith(b, key).Some? then LastWith(b, key) else LastWith(a, key)
    decreases |b|
  {
    if |b| == 0 {
      assert a + b == a;
    } else {
      assert (a + b)[..|a + b| - 1] == a + b[..|b| - 1];
      assert (a + b)[|a + b| - 1] == b[|b| - 1];
      LastWithAppend(a, b[..|b| - 1], key);
    }
  }

  /** After a completed run, `AlterModel` installs for each property, in
      each keyed category, the node of the last call that declared it into
      that category; a property no call declared there comes out as it
      would have before the run. */
  lemma RunLastDeclarationWins(s: Session, instantiable: set<TypeKey>, ops: seq<Op>,
                               target: ClassMappingBase, c: Category, property: string)
    requires Run(s, instantiable, ops).failure.None?
    ensures var last := LastWith(DeclaredAllInto(ops, c), property);
            var merged := AlterModel(Run(s, instantiable, ops).session, target).keyed.Get(c);
            last.Some? ==> property in merged && merged[property] == last.value
    ensures var last := LastWith(DeclaredAllInto(ops, c), property);
            var merged := AlterModel(Run(s, instantiable, ops).session, target).keyed.Get(c);
            var before := AlterModel(s, target).keyed.Get(c);
            last.None? ==> (property in merged <==> property in before)
                           && (property in merged ==> merged[property] == before[property])
  {
    var final := Run(s, instantiable, ops).session;
    RunParts(s, instantiable, ops, c);
    LastWithAppend(s.parts.Get(c), DeclaredAllInto(ops, c), property);
    AlterModelKeyed(final, target);
    AlterModelKeyed(s, target);
  }

  /** After a completed run, a root mapping's id and version are those of
      the last call that declared them, or as before the run. */
  lemma RunLastSlotDeclarationWins(s: Session, instantiable: set<TypeKey>, ops: seq<Op>, target: ClassMappingBase)
    requires Run(s, instantiable, ops).failure.None?
    requires target.kind == RootClass
    ensures LastPlacedAt(ops, IdSlot).Some? ==>
              AlterModel(Run(s, instantiable, ops).session, target).id == LastPlacedAt(ops, IdSlot)
    ensures LastPlacedAt(ops, IdSlot).None? ==>
              AlterModel(Run(s, instantiable, ops).session, target).id == AlterModel(s, target).id
    ensures LastPlacedAt(ops, VersionSlot).Some? ==>
              AlterModel(Run(s, instantiable, ops).session, target).version == LastPlacedAt(ops, VersionSlot)
    ensures LastPlacedAt(ops, VersionSlot).None? ==>
              AlterModel(Run(s, instantiable, ops).session, target).version == AlterModel(s, target).version
  {
    RunSlots(s, instantiable, ops);
  }
}
