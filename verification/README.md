# AutoMap merge engine, modelled in Dafny

This project models the override engine of Fluent NHibernate's `AutoMap<T>`
(`src/FluentNHibernate/AutoMap/AutoMap.cs`). An `AutoMap<T>` is a class map
used during automapping. It has three jobs:

- It keeps a **ledger** of consumed property names. The list is shared with
  the automapper, which skips every name it finds there. Each intercepted
  builder call (`HasMany`, `Id` twice, `Map`, `References`, `HasManyToMany`,
  `Component`, `HasOne`, `Version`) appends the property name and then
  delegates to the base `ClassMap<T>` builder. `IgnoreProperty` appends the
  name and builds nothing.
- `IAutoClasslike.AlterModel` **merges** what the class map holds into a target
  class mapping:
  - Id and version are written only into a root `ClassMapping`, and only when
    the class map holds them.
  - Each of the six keyed categories is copied with `AddOrReplace*`. The
    categories are properties, collections, components, one-to-ones,
    references and anys.
- It keeps two **type-keyed registries** of subclass parts: `subclasses` and
  `joinedSubclasses`. They are filled through statically typed generic
  overloads and through overloads that take a runtime `Type`. Registering a
  type again replaces its earlier part.

The session is an immutable value (`AutoMap.Session`). Every operation is a
pure function that returns the next session.

Files:

- `wrappers.dfy`: `Option` and `Result`.
- `mapping_model.dfy`: nodes keyed by property name, the six categories, the
  target `ClassMappingBase`, and the `AddOrReplace*` fold.
- `auto_map.dfy`: the session, the constructor, the intercepted builders,
  `AlterModel` and the registrations.
- `auto_map_properties.dfy`: the session across whole sequences of calls
  (`Run`), the ledger lemmas, the merge lemmas and the registry lemmas.

Modelling choices:

- A property is its name (`string`) and a runtime type is a `TypeKey`.
- A part is represented by the node it produces, so `Get*Mapping()` is the
  identity.
- `ClassMappingBase.AddOrReplace*` is a map update keyed by the node's name.
- The base `ClassMap<T>` keeps each category as a list, and `AlterModel`
  walks each list with `foreach`. The session therefore keeps each category
  as a sequence (`KeyedLists`), and the merge is a left fold
  (`AddOrReplaceAll`). When a name occurs twice, the later part wins.
- The base builders are not part of this model. The model assumes that a
  keyed builder appends its part to its category, and that `Id` and
  `Version` set their slot (`Session.Store`).
- A C# configuration callback (`Action<Part>`) is a function on the nodes
  declared inside the new part (`Configure`). A null callback is `None`.
- `Activator.CreateInstance` over `MakeGenericType(type)` fails for types the
  generic part cannot be closed over. The runtime-typed overloads take that
  set of types as the parameter `instantiable`. When the type is not in it,
  they return `Failure(TypeNotInstantiable)`. The typed overloads are
  constrained at compile time (`where TSubclass : T`), so they have no such
  failure.

Three points where the code behaves differently from what a reader might
expect, modelled as the code behaves:

- The ledger is a list (`IList<string>`), not a set. Declaring a name twice
  records it twice.
- The configuration callback of the typed `SubClass` and `JoinedSubClass` is
  not optional. A null callback is invoked and throws (see Findings).
- The model does not claim that every ledger name has exactly one node. A
  second `Id` call leaves the first name in the ledger with no node. A name
  declared in two categories gets a node in each. What the model does prove
  is the direction the automapper relies on, for every call this model
  covers (the intercepted builders, `IgnoreProperty` and the two
  registries): every node the class map holds has its name in the ledger
  (`LedgerCovers`). Base builders that `AutoMap<T>` does not override are
  outside that guarantee (see Left out).

## Model

| member | source | states |
|---|---|---|
| AutoMap.New | src/FluentNHibernate/AutoMap/AutoMap.cs:16-19 | The session's ledger is exactly the list handed to the constructor. It holds no id, no version, no keyed parts and no registrations. |
| AutoMapProperties.PropertiesMappedAfterRun | src/FluentNHibernate/AutoMap/AutoMap.cs:21-24 | After a run of calls that completes, `PropertiesMapped` is the constructor's list followed by every name declared since, in order. |
| AutoMap.AlterModel | src/FluentNHibernate/AutoMap/AutoMap.cs:31-40 | The target's id is replaced only when the target is a root class mapping and the session holds an id; version follows the same rule. Otherwise both are unchanged. The target's kind and all its other slots are unchanged. |
| AutoMap.AlterModelKeyed | src/FluentNHibernate/AutoMap/AutoMap.cs:42-58 | In each of the six categories, every name the session holds ends up in the target with the session's last node for that name. Target keys the session does not mention keep their node, and no other key appears. |
| AutoMapProperties.AlterModelIdempotent | src/FluentNHibernate/AutoMap/AutoMap.cs:31-61 | Running `AlterModel` a second time with the same session gives the same target. |
| AutoMapProperties.AlterModelAddsOnlyConsumed | src/FluentNHibernate/AutoMap/AutoMap.cs:31-58 | If the ledger covers the session's nodes, every key `AlterModel` adds to a target is a ledger name, and so is the name of any new id or new version. |
| AutoMapProperties.DeclarationWins | src/FluentNHibernate/AutoMap/AutoMap.cs:42-58 | The node an intercepted declaration builds is the node `AlterModel` installs for that name, whatever the session held before. Keyed nodes go under their key; id and version go into a root mapping's slot. |
| MappingModel.AddOrReplaceAll | src/FluentNHibernate/AutoMap/AutoMap.cs:42-43 | The `foreach ... AddOrReplace*` loop. A key is in the result exactly when it was in the target or some node carries it. A key some node carries holds the last such node. Any other key keeps its old node. |
| MappingModel.AddOrReplaceAllOverrides | src/FluentNHibernate/AutoMap/AutoMap.cs:42-58 | Merging nodes into a populated target equals overriding the target with the merge of those nodes into an empty map (last write wins). |
| MappingModel.AddOrReplaceAllIdempotent | src/FluentNHibernate/AutoMap/AutoMap.cs:42-58 | Merging the same nodes twice gives what merging them once gives. |
| MappingModel.MergeKeyedIdempotent | src/FluentNHibernate/AutoMap/AutoMap.cs:42-58 | Applied to all six categories at once, a second merge of the same parts changes nothing. |
| MappingModel.LastWith | src/FluentNHibernate/AutoMap/AutoMap.cs:42-58 | The winning node for a key: absent exactly when no node has that key. Otherwise it is a node with that key, and no later node has the same key. |
| AutoMap.HasMany | src/FluentNHibernate/AutoMap/AutoMap.cs:63-67 | The ledger grows by exactly the property's name. One one-to-many collection part keyed by that name is appended. Nothing else changes. |
| AutoMap.IgnoreProperty | src/FluentNHibernate/AutoMap/AutoMap.cs:69-72 | The ledger grows by exactly the property's name. No node, slot or registry changes. |
| AutoMap.Id | src/FluentNHibernate/AutoMap/AutoMap.cs:74-78 | The ledger grows by exactly the name. The id slot holds an identity part for that name with no column. Nothing else changes. |
| AutoMap.Map | src/FluentNHibernate/AutoMap/AutoMap.cs:80-84 | The ledger grows by exactly the name. One property part keyed by it, carrying the given column, is appended. Nothing else changes. |
| AutoMap.References | src/FluentNHibernate/AutoMap/AutoMap.cs:86-90 | The ledger grows by exactly the name. One many-to-one part keyed by it, carrying the given column, is appended. Nothing else changes. |
| AutoMap.HasManyToMany | src/FluentNHibernate/AutoMap/AutoMap.cs:92-96 | The ledger grows by exactly the name. One many-to-many collection part keyed by it is appended. Nothing else changes. |
| AutoMap.Component | src/FluentNHibernate/AutoMap/AutoMap.cs:98-106 | The ledger grows by exactly the name, and one component part keyed by it is appended. The component's contents are what the callback declares, or nothing for a null callback. |
| AutoMap.IdWithColumn | src/FluentNHibernate/AutoMap/AutoMap.cs:108-112 | The ledger grows by exactly the name. The id slot holds an identity part for that name with the given column, which may be null (`None`). Nothing else changes. |
| AutoMap.HasOne | src/FluentNHibernate/AutoMap/AutoMap.cs:114-118 | The ledger grows by exactly the name. One one-to-one part keyed by it is appended. Nothing else changes. |
| AutoMap.Version | src/FluentNHibernate/AutoMap/AutoMap.cs:120-124 | The ledger grows by exactly the name. The version slot holds a version part for that name. Nothing else changes. |
| AutoMap.JoinedSubClass | src/FluentNHibernate/AutoMap/AutoMap.cs:126-137 | It fails exactly when the callback is null. Otherwise the part stored for the type, with the key column, is the one the callback configured. It replaces any earlier entry for that type, keeps every other entry, and changes nothing else. |
| AutoMap.JoinedSubClassOfType | src/FluentNHibernate/AutoMap/AutoMap.cs:139-148 | It fails exactly when the generic part cannot be built for the type. Otherwise an unconfigured part with the key column replaces the type's entry, keeps every other entry, and changes nothing else. |
| AutoMap.JoinedSubClassWithoutAction | src/FluentNHibernate/AutoMap/AutoMap.cs:150-154 | The one-argument typed overload always fails with a null callback. |
| AutoMap.SubClass | src/FluentNHibernate/AutoMap/AutoMap.cs:156-168 | It fails exactly when the callback is null. Otherwise the part stored for the type, with the discriminator value, is the one the callback configured. It replaces any earlier entry for that type, keeps every other entry, and changes nothing else. |
| AutoMap.SubClassWithoutAction | src/FluentNHibernate/AutoMap/AutoMap.cs:170-174 | The one-argument typed overload always fails with a null callback. |
| AutoMap.SubClassOfType | src/FluentNHibernate/AutoMap/AutoMap.cs:176-185 | It fails exactly when the generic part cannot be built for the type. Otherwise an unconfigured part with the discriminator value replaces the type's entry, keeps every other entry, and changes nothing else. |
| AutoMap.SubClassWithNoOpDefault | src/FluentNHibernate/AutoMap/AutoMap.cs:170-174 | The corrected one-argument overload registers an empty part with the discriminator value under the type, with the same replace-and-keep behaviour. |
| AutoMap.JoinedSubClassWithNoOpDefault | src/FluentNHibernate/AutoMap/AutoMap.cs:150-154 | The corrected one-argument overload registers an empty part with the key column under the type, with the same replace-and-keep behaviour. |
| AutoMapProperties.Declare | src/FluentNHibernate/AutoMap/AutoMap.cs:63-124 | Any property declaration, ignore included, grows the ledger by exactly its property's name. |
| AutoMapProperties.Register | src/FluentNHibernate/AutoMap/AutoMap.cs:126-185 | A registration that succeeds leaves the ledger, the keyed parts, the id and the version unchanged. |
| AutoMapProperties.Apply | src/FluentNHibernate/AutoMap/AutoMap.cs:63-185 | A call that succeeds grows the ledger by exactly its consumed names. Only registrations can fail. |
| AutoMapProperties.RunLedgerGrows | src/FluentNHibernate/AutoMap/AutoMap.cs:65-122 | The ledger only grows: the starting ledger is a prefix of the final one, even when a call throws part-way. |
| AutoMapProperties.RunLedgerExact | src/FluentNHibernate/AutoMap/AutoMap.cs:65-122 | A completed run appends exactly the declared names, in call order, with repeats kept. |
| AutoMapProperties.NewLedgerCovers | src/FluentNHibernate/AutoMap/AutoMap.cs:16-19 | A freshly constructed class map holds no node, so every node's name is trivially in the ledger. |
| AutoMapProperties.InterceptedKeepsLedgerCovers | src/FluentNHibernate/AutoMap/AutoMap.cs:63-124 | An intercepted declaration keeps every node's name in the ledger. |
| AutoMapProperties.DeclareKeepsLedgerCovers | src/FluentNHibernate/AutoMap/AutoMap.cs:63-124 | Every property declaration keeps every node's name in the ledger. |
| AutoMapProperties.ApplyKeepsLedgerCovers | src/FluentNHibernate/AutoMap/AutoMap.cs:63-185 | Every modelled call (an intercepted builder, `IgnoreProperty` or a registration) keeps every node's name in the ledger. |
| AutoMapProperties.DeclarePlaces | src/FluentNHibernate/AutoMap/AutoMap.cs:63-124 | Every declaration does what a separate per-declaration table (`Placed`) says. The builder stores one part, named after the property, at its destination (a keyed category, the id slot or the version slot), and changes nothing else. `IgnoreProperty` changes nothing in the mapping. |
| AutoMapProperties.ApplyPlaces | src/FluentNHibernate/AutoMap/AutoMap.cs:63-185 | One successful call extends each category's list by exactly the node it declares there, if any. It replaces the id or version only when it declares one. Registrations leave all of these as they were. |
| AutoMapProperties.RunParts | src/FluentNHibernate/AutoMap/AutoMap.cs:63-124 | After a completed run, each category's list is the starting list followed by the nodes the calls declared into it, in call order. |
| AutoMapProperties.RunSlots | src/FluentNHibernate/AutoMap/AutoMap.cs:74-124 | After a completed run, the id and the version are those of the last call that declared them; if no call did, they are what the session held before. |
| AutoMapProperties.LastWithAppend | src/FluentNHibernate/AutoMap/AutoMap.cs:42-58 | Over the concatenation of two node lists, the last node with a key is the one in the later list if it has one, and otherwise the one in the earlier list. |
| AutoMapProperties.RunLastDeclarationWins | src/FluentNHibernate/AutoMap/AutoMap.cs:42-58 | After any completed run, `AlterModel` installs, for each property in each keyed category, the node of the last call that declared it there. Later calls on other properties do not disturb it. A property no call declared there comes out exactly as it would have before the run. |
| AutoMapProperties.RunLastSlotDeclarationWins | src/FluentNHibernate/AutoMap/AutoMap.cs:31-40 | After any completed run, a root mapping's id and version are those of the last call that declared them, or what merging the earlier session gives if no call did. |
| AutoMapProperties.RunKeepsLedgerCovers | src/FluentNHibernate/AutoMap/AutoMap.cs:63-185 | Any run of the modelled calls (intercepted builders, `IgnoreProperty`, the two registries) keeps every node's name in the ledger. |
| AutoMapProperties.IgnorePropertyAddsNothing | src/FluentNHibernate/AutoMap/AutoMap.cs:69-72 | Merging after `IgnoreProperty` gives exactly what merging without it gives. |
| AutoMapProperties.ReferencesRedeclaredReplaces | src/FluentNHibernate/AutoMap/AutoMap.cs:86-90 | After two many-to-one declarations of one property, the merged mapping holds that property with the second declaration's column: the later declaration replaces the earlier one. |
| AutoMapProperties.IdNameTempSession | src/FluentNHibernate/AutoMap/AutoMap.cs:69-84 | After `Id("Id")`, `Map("Name", "nm")` and `IgnoreProperty("Temp")` on a fresh class map, the ledger is ["Id", "Name", "Temp"], the id slot holds the "Id" identity part, the only keyed part is the "Name" property part, and there is no version and no registration. |
| AutoMapProperties.IdNameTempScenario | src/FluentNHibernate/AutoMap/AutoMap.cs:69-84 | Take an identity on "Id", a property "Name" on column "nm" and an ignored "Temp". The ledger is ["Id", "Name", "Temp"], the id is set, the properties map is {"Name"}, and no category has "Temp". |
| AutoMapProperties.SubClassRedefinitionReplaces | src/FluentNHibernate/AutoMap/AutoMap.cs:176-185 | If a type is registered twice, its entry carries the second discriminator value, and the registry's keys are the earlier keys plus that one type. |
| AutoMapProperties.SubClassPathsAgree | src/FluentNHibernate/AutoMap/AutoMap.cs:156-185 | For a type the runtime path can build, the runtime-typed subclass path equals the typed path with a callback that does nothing. |
| AutoMapProperties.JoinedSubClassPathsAgree | src/FluentNHibernate/AutoMap/AutoMap.cs:126-148 | The same equivalence holds for joined subclasses. |
| AutoMapProperties.NoOpDefaultMatchesRuntimePath | src/FluentNHibernate/AutoMap/AutoMap.cs:150-185 | The corrected one-argument overloads register exactly what the runtime-typed overloads register. |
| AutoMapProperties.ComponentNullActionIsNoOp | src/FluentNHibernate/AutoMap/AutoMap.cs:102-103 | A null component callback behaves exactly like a callback that does nothing. |

## Left out

- `DiscriminateSubClassesOnColumn` (lines 26-29) only forwards to a base `ClassMap<T>` method. That method is not part of this model.
- Reflection is left out: `ReflectionHelper.GetProperty`, `MakeGenericType` and `Activator.CreateInstance`. A property is its name. Which runtime types can be instantiated is the parameter `instantiable`.
- The base `ClassMap<T>` builders and `ClassMappingBase.AddOrReplace*` are not part of this model. They are assumed to append to a category list, to set the id or version slot, and to update a map by key.
- Node contents are left out: the model keeps only the key, the kind of part, the explicit column and a component's children. Cascade, lazy, access, types and the like are not modelled.
- Chained configuration after a builder returns is not modelled. In C# the returned part is a reference, and `AlterModel` reads its mapping later. Here the part is fixed when it is declared.
- Ledger aliasing is not modelled. In C# the caller sees appends through its own reference to the list; here `PropertiesMapped` returns the ledger value.
- A null ledger list is not modelled. With one, the first append would throw.
- Declarations inside a component's callback do not touch this ledger, because they go to `ComponentPart`, not to `AutoMap<T>`. The model's component callback acts only on the component's own nodes.
- The internals of `AutoSubClassPart` and `AutoJoinedSubClassPart` are not part of this model: their constructors, their own ledgers and their own `AlterModel`. A registered part is its type, its discriminator value or key column, and the nodes its callback declared.
- The typed `SubClass` overload takes any `object` as its discriminator value. The model uses a string, the type the runtime-typed overload takes.
- No intercepted builder adds to `anys` (`ReferencesAny` is not overridden). The model's session can hold any-nodes, and `AlterModel` merges them, but no modelled operation adds one.
- Base `ClassMap<T>` builders that `AutoMap<T>` does not override, such as `ReferencesAny`, are not modelled. In the code they store a node without writing a ledger entry, so the automapper can map that property a second time. `LedgerCovers` and the lemmas that keep it are stated only for the calls this model covers.
- AutoMap.Component: the configuration callback is assumed not to throw. In the code, line 100 appends the name before line 105 runs the callback through the base builder. If the callback throws, the name stays in the ledger and no component node is stored. The model has no such outcome: `Configure` is total and a declaration always succeeds.
- AutoMap.HasMany, AutoMap.Id, AutoMap.IdWithColumn, AutoMap.Map, AutoMap.References, AutoMap.HasManyToMany, AutoMap.HasOne and AutoMap.Version: the base builders these delegate to are assumed not to throw. In the code the name is appended first, so a throw would leave the name in the ledger with no node. Only registrations fail in `Run`.
- AutoMap.Id: the base `ClassMap<T>.Id(expression)` is assumed not to call the virtual `Id(expression, column)` overload. If it did, virtual dispatch would run the override at lines 108-112 as well, and the name would be appended twice. The base body is not part of this model.

## Findings

| source | as written | input that shows it | evidently intended | confidence | as-written member | corrected member |
|---|---|---|---|---|---|---|
| src/FluentNHibernate/AutoMap/AutoMap.cs:170-174 | `SubClass<TSubclass>(discriminatorValue)` passes `null` as the callback, and the two-argument overload calls it at line 162, so it always throws `NullReferenceException` | any call, e.g. `SubClass<Dog>("D")` | register a part with no configuration, treating a null callback as a no-op the way `Component` does at lines 102-103 | high; not executed | AutoMap.SubClassWithoutAction | AutoMap.SubClassWithNoOpDefault |
| src/FluentNHibernate/AutoMap/AutoMap.cs:150-154 | `JoinedSubClass<TSubclass>(keyColumn)` passes `null` as the callback, and the two-argument overload calls it at line 132, so it always throws `NullReferenceException` | any call, e.g. `JoinedSubClass<Dog>("dog_id")` | register a part with no configuration, as above | high; not executed | AutoMap.JoinedSubClassWithoutAction | AutoMap.JoinedSubClassWithNoOpDefault |

The as-written members are proved always to return `Failure(NullAction)`.
The corrected members are proved to register exactly what the runtime-typed
overloads register (`NoOpDefaultMatchesRuntimePath`). Call sequences (`Run`)
keep the code's behaviour: a typed registration with a missing callback fails
there, as it does in the code.
