/** The mapping document a class map writes into: nodes keyed by the name of
    the property they map, the six keyed categories, and the target class
    mapping with its identity and version slots. */
module MappingModel {
  import opened Wrappers

  /** One mapping node (a property, collection, component, one-to-one,
      many-to-one, any, identity or version mapping). Its `name` is the
      property it maps and is the key it is stored under; `kind` is the kind
      of mapping the base builder produces; `column` is the explicit column
      name the declaration supplied, if any; `children` are the nodes a
      component's configuration declared inside it. */
  datatype Node = Node(name: string, kind: NodeKind, column: Option<string>, children: seq<Node>)

  /** The mapping each base builder produces: `PropertyPart`, `OneToManyPart`,
      `ManyToManyPart`, `ManyToOnePart`, `ComponentPart`, `OneToOnePart`,
      `AnyPart`, `IdentityPart` and `VersionPart`. */
  datatype NodeKind = PropertyNode | OneToManyNode | ManyToManyNode | ManyToOneNode
                    | ComponentNode | OneToOneNode | AnyNode | IdNode | VersionNode

  /** A configuration callback (a C# `Action<Part>`) acting on the nodes
      declared inside a freshly built part. */
  type Configure = seq<Node> -> seq<Node>

  /** The callback that does nothing. */
  function NoOp(ns: seq<Node>): seq<Node> { ns }

  /** The six keyed categories, in the order the merge visits them. */
  datatype Category = Properties | Collections | Components | OneToOnes | References | Anys

  /** The parts a class map holds for each keyed category, in declaration
      order; a name may occur more than once. */
  datatype KeyedLists = KeyedLists(
    properties: seq<Node>,
    collections: seq<Node>,
    components: seq<Node>,
    oneToOnes: seq<Node>,
    references: seq<Node>,
    anys: seq<Node>)
  {
    function Get(c: Category): seq<Node> {
      match c
      case Properties => properties
      case Collections => collections
      case Components => components
      case OneToOnes => oneToOnes
      case References => references
      case Anys => anys
    }

    /** These lists with `n` appended to category `c`. */
    function Append(c: Category, n: Node): (r: KeyedLists)
      ensures r.Get(c) == Get(c) + [n]
      ensures forall d :: d != c ==> r.Get(d) == Get(d)
    {
      match c
      case Properties => this.(properties := properties + [n])
      case Collections => this.(collections := collections + [n])
      case Components => this.(components := components + [n])
      case OneToOnes => this.(oneToOnes := oneToOnes + [n])
      case References => this.(references := references + [n])
      case Anys => this.(anys := anys + [n])
    }
  }

  /** No parts in any category. */
  const NoLists := KeyedLists([], [], [], [], [], [])

  /** A mapping's node maps for each keyed category: one node per key. */
  datatype KeyedMaps = KeyedMaps(
    properties: map<string, Node>,
    collections: map<string, Node>,
    components: map<string, Node>,
    oneToOnes: map<string, Node>,
    references: map<string, Node>,
    anys: map<string, Node>)
  {
    function Get(c: Category): map<string, Node> {
      match c
      case Properties => properties
      case Collections => collections
      case Components => components
      case OneToOnes => oneToOnes
      case References => references
      case Anys => anys
    }
  }

  /** Which concrete `ClassMappingBase` a target is: only a root
      `ClassMapping` has identity and version slots that the merge writes. */
  datatype ClassKind = RootClass | SubclassKind | JoinedSubclassKind

  /** A target class mapping. `otherSlots` stands for every slot the merge
      does not touch (discriminator, cache, subclass lists, table, ...). */
  datatype ClassMappingBase = ClassMappingBase(
    kind: ClassKind,
    id: Option<Node>,
    version: Option<Node>,
    keyed: KeyedMaps,
    otherSlots: map<string, string>)

  /** The last node of `ns` whose key is `key`, if any. */
  function LastWith(ns: seq<Node>, key: string): (r: Option<Node>)
    ensures r.None? <==> forall i :: 0 <= i < |ns| ==> ns[i].name != key
    ensures r.Some? ==> r.value.name == key
    ensures r.Some? ==> exists i :: 0 <= i < |ns| && ns[i] == r.value
                                    && forall j :: i < j < |ns| ==> ns[j].name != key
    decreases |ns|
  {
    if |ns| == 0 then None
    else if ns[|ns| - 1].name == key then Some(ns[|ns| - 1])
    else LastWith(ns[..|ns| - 1], key)
  }

  /** `ClassMappingBase.AddOrReplace*`: store `n` under its key, replacing
      whatever node had that key. */
  function AddOrReplace(m: map<string, Node>, n: Node): map<string, Node>
  {
    m[n.name := n]
  }

  /** A `foreach ... AddOrReplace*` loop: every node of `ns`, in order. */
  function AddOrReplaceAll(m: map<string, Node>, ns: seq<Node>): (r: map<string, Node>)
    ensures forall k :: k in r <==> k in m || LastWith(ns, k).Some?
    ensures forall k :: LastWith(ns, k).Some? ==> r[k] == LastWith(ns, k).value
    ensures forall k :: k in m && LastWith(ns, k).None? ==> r[k] == m[k]
    decreases |ns|
  {
    if |ns| == 0 then m
    else AddOrReplace(AddOrReplaceAll(m, ns[..|ns| - 1]), ns[|ns| - 1])
  }

  /** Merging into a populated map is the same as overriding it with what the
      nodes alone merge into. */
  lemma AddOrReplaceAllOverrides(m: map<string, Node>, ns: seq<Node>)
    ensures AddOrReplaceAll(m, ns) == m + AddOrReplaceAll(map[], ns)
  {
    var a := AddOrReplaceAll(m, ns);
    var b := m + AddOrReplaceAll(map[], ns);
    assert a.Keys == b.Keys;
    forall k | k in a
      ensures a[k] == b[k]
    {
    }
  }

  /** Merging the same nodes a second time changes nothing. */
  lemma AddOrReplaceAllIdempotent(m: map<string, Node>, ns: seq<Node>)
    ensures AddOrReplaceAll(AddOrReplaceAll(m, ns), ns) == AddOrReplaceAll(m, ns)
  {
    var once := AddOrReplaceAll(m, ns);
    var twice := AddOrReplaceAll(once, ns);
    assert twice.Keys == once.Keys;
    forall k | k in twice
      ensures twice[k] == once[k]
    {
    }
  }

  /** The six `foreach ... AddOrReplace*` loops, one per category. */
  function MergeKeyed(maps: KeyedMaps, lists: KeyedLists): KeyedMaps
  {
    KeyedMaps(
      AddOrReplaceAll(maps.properties, lists.properties),
      AddOrReplaceAll(maps.collections, lists.collections),
      AddOrReplaceAll(maps.components, lists.components),
      AddOrReplaceAll(maps.oneToOnes, lists.oneToOnes),
      AddOrReplaceAll(maps.references, lists.references),
      AddOrReplaceAll(maps.anys, lists.anys))
  }

  /** Each category of `MergeKeyed` is that category's merge. */
  lemma MergeKeyedGet(maps: KeyedMaps, lists: KeyedLists, c: Category)
    ensures MergeKeyed(maps, lists).Get(c) == AddOrReplaceAll(maps.Get(c), lists.Get(c))
  {
  }

  /** Merging the same lists a second time changes nothing. */
  lemma MergeKeyedIdempotent(maps: KeyedMaps, lists: KeyedLists)
    ensures MergeKeyed(MergeKeyed(maps, lists), lists) == MergeKeyed(maps, lists)
  {
    AddOrReplaceAllIdempotent(maps.properties, lists.properties);
    AddOrReplaceAllIdempotent(maps.collections, lists.collections);
    AddOrReplaceAllIdempotent(maps.components, lists.components);
    AddOrReplaceAllIdempotent(maps.oneToOnes, lists.oneToOnes);
    AddOrReplaceAllIdempotent(maps.references, lists.references);
    AddOrReplaceAllIdempotent(maps.anys, lists.anys);
  }
}
