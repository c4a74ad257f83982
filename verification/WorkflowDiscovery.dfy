/**
 * Typed workflow properties: backend/workflow_discovery.py. A workflow document is normalized to typed node
 * properties, stored as rows, and queried by SQL predicates that must all hold on one node.
 */
module WorkflowDiscovery {
  import opened Prelude
  import opened Text
  import Like

  const MAX_NODES := 2048
  const MAX_PROPERTIES_PER_NODE := 32
  const MAX_PROPERTY_ROWS := 8192
  const MAX_IDENTIFIER := 128
  const MAX_TEXT := 512
  const INT64_MIN := -0x8000_0000_0000_0000
  const INT64_MAX := 0x7FFF_FFFF_FFFF_FFFF
  const UINT64_MAX := 0xFFFF_FFFF_FFFF_FFFF

  // ---------------------------------------------------------------- typed values

  /** A decoded JSON value; containers and non-finite numbers matter only by being refused. */
  datatype Json = JNull | JBool(b: bool) | JInt(i: int) | JReal(r: real) | JNonFinite | JString(s: string) | JContainer

  datatype ValueType = TextType | IntegerType | RealType | BooleanType | TokenType

  datatype Op = OpEq | OpPrefix | OpContains | OpGt | OpGte | OpLt | OpLte

  datatype Definition = Definition(valueType: ValueType, operators: set<Op>)

  /** The searchable properties of each node type, in the order they are read. */
  type Registry = map<string, seq<(string, Definition)>>

  /** Property names do not repeat, and no node type has more of them than a node may store. */
  ghost predicate FitsLimits(registry: Registry) {
    forall t :: t in registry ==>
      && |registry[t]| <= MAX_PROPERTIES_PER_NODE
      && forall i, j :: 0 <= i < j < |registry[t]| ==> registry[t][i].0 != registry[t][j].0
  }

  /** What a property value means. */
  datatype Value =
    | TextValue(s: string) | IntegerValue(i: int) | RealValue(r: real) | BooleanValue(b: bool) | TokenValue(n: nat)

  function TypeOf(v: Value): ValueType {
    match v
    case TextValue(_) => TextType
    case IntegerValue(_) => IntegerType
    case RealValue(_) => RealType
    case BooleanValue(_) => BooleanType
    case TokenValue(_) => TokenType
  }

  function Digit(c: char): Option<nat> {
    if '0' <= c <= '9' then Some(c as int - '0' as int) else None
  }

  function Decimal(n: nat): string {
    if n < 10 then [(n + '0' as int) as char] else Decimal(n / 10) + [(n % 10 + '0' as int) as char]
  }

  /** A canonical decimal numeral: "0", or digits that do not start with zero. */
  function ParseDecimal(s: string): Option<nat> {
    if s == [] || Digit(s[|s| - 1]).None? then None
    else if |s| == 1 then Digit(s[0])
    else if s[0] == '0' then None
    else
      match ParseDecimal(s[..|s| - 1])
      case None => None
      case Some(n) => Some(10 * n + Digit(s[|s| - 1]).value)
  }

  /** Numerals are written without loss, so equal stored text means equal tokens. */
  lemma {:induction false} DecimalParsesBack(n: nat)
    ensures ParseDecimal(Decimal(n)) == Some(n) && (n > 0 ==> Decimal(n)[0] != '0')
  {
    if n >= 10 {
      DecimalParsesBack(n / 10);
      assert Decimal(n)[..|Decimal(n)| - 1] == Decimal(n / 10);
    }
  }

  /** A numeral that is read is the one that is written. */
  lemma {:induction false} ParsedIsDecimal(s: string)
    requires ParseDecimal(s).Some?
    ensures s == Decimal(ParseDecimal(s).value) && (|s| > 1 ==> ParseDecimal(s).value > 0)
  {
    if |s| > 1 {
      var front, d := s[..|s| - 1], Digit(s[|s| - 1]).value;
      ParsedIsDecimal(front);
      assert s == front + [s[|s| - 1]];
      var n := ParseDecimal(front).value;
      assert |front| == 1 ==> front[0] != '0';
      assert (10 * n + d) / 10 == n && (10 * n + d) % 10 == d;
    }
  }

  lemma ParseDecimalIff(s: string, n: nat)
    ensures ParseDecimal(s) == Some(n) <==> s == Decimal(n)
  {
    DecimalParsesBack(n);
    if ParseDecimal(s) == Some(n) {
      ParsedIsDecimal(s);
    }
  }

  function TypedToken(v: Json): Option<Value> {
    var parsed := match v
      case JInt(i) => if i >= 0 then Some(i) else None
      case JString(s) => ParseDecimal(s)
      case _ => None;
    if parsed.Some? && parsed.value <= UINT64_MAX then Some(TokenValue(parsed.value)) else None
  }

  function TypedInteger(v: Json): Option<Value> {
    var whole := match v
      case JInt(i) => Some(i)
      case JReal(r) => if r.Floor as real == r then Some(r.Floor) else None
      case _ => None;
    if whole.Some? && INT64_MIN <= whole.value <= INT64_MAX then Some(IntegerValue(whole.value)) else None
  }

  /** The value as its definition types it, or None when it does not fit. */
  function Typed(v: Json, t: ValueType): (r: Option<Value>)
    ensures r.Some? ==> TypeOf(r.value) == t
  {
    match t
    case TextType => if v.JString? && |v.s| <= MAX_TEXT then Some(TextValue(v.s)) else None
    case BooleanType => if v.JBool? then Some(BooleanValue(v.b)) else None
    case TokenType => TypedToken(v)
    case IntegerType => TypedInteger(v)
    case RealType => if v.JInt? then Some(RealValue(v.i as real)) else if v.JReal? then Some(RealValue(v.r)) else None
  }

  /** Which values a definition takes: short text, 64-bit numbers in any spelling, truth values, finite numbers. */
  predicate Fits(v: Json, t: ValueType, w: Value) {
    match (t, w)
    case (TextType, TextValue(s)) => v == JString(s) && |s| <= 512
    case (BooleanType, BooleanValue(b)) => v == JBool(b)
    case (IntegerType, IntegerValue(i)) =>
      (v == JInt(i) || v == JReal(i as real)) && -0x8000_0000_0000_0000 <= i < 0x8000_0000_0000_0000
    case (TokenType, TokenValue(n)) => (v == JInt(n) || v == JString(Decimal(n))) && n < 0x1_0000_0000_0000_0000
    case (RealType, RealValue(r)) => v == JReal(r) || (v.JInt? && r == v.i as real)
    case _ => false
  }

  lemma TypedIff(v: Json, t: ValueType, w: Value)
    ensures Typed(v, t) == Some(w) <==> Fits(v, t, w)
  {
    if v.JString? && w.TokenValue? {
      ParseDecimalIff(v.s, w.n);
    }
    hide ParseDecimal, Decimal;
  }

  // ---------------------------------------------------------------- documents

  /** A node of the source graph; nodeType is class_type, or type when that is empty. */
  datatype RawNode = RawNode(nodeType: Json, inputs: map<string, Json>, title: Option<string>)

  datatype Node = Node(key: string, nodeType: string, title: Option<string>, properties: map<string, Value>)

  datatype Error = NodeLimit | PropertyLimit | DuplicateNodeKey | InvalidGroup
  datatype Result<+T> = Ok(value: T) | Err(error: Error)

  /** The typed properties of a node, by the definitions of its type. */
  function Properties(defs: seq<(string, Definition)>, inputs: map<string, Json>): map<string, Value> {
    if defs == [] then map[]
    else
      var rest, d := Properties(defs[..|defs| - 1], inputs), defs[|defs| - 1];
      if d.0 in inputs && Typed(inputs[d.0], d.1.valueType).Some?
      then rest[d.0 := Typed(inputs[d.0], d.1.valueType).value]
      else rest
  }

  /** None for an item that is not a dictionary, has no usable key, or has no usable type. */
  function Normalized(registry: Registry, key: string, raw: Option<RawNode>): Option<Node> {
    if raw.None? || key == [] || |key| > MAX_IDENTIFIER || !raw.value.nodeType.JString? then None
    else
      var t := raw.value.nodeType.s;
      if t == [] || |t| > MAX_IDENTIFIER then None
      else
        var properties := if t in registry then Properties(registry[t], raw.value.inputs) else map[];
        Some(Node(key, t, raw.value.title, properties))
  }

  /** A node is kept iff it is a dictionary with a key and a type of 1 to 128 characters; its parts stay as they are. */
  lemma NormalizedIff(registry: Registry, key: string, raw: Option<RawNode>, n: Node)
    ensures Normalized(registry, key, raw) == Some(n) <==>
              && raw.Some? && 1 <= |key| <= 128 && 1 <= |n.nodeType| <= 128
              && raw.value.nodeType == JString(n.nodeType) && n.key == key && n.title == raw.value.title
              && n.properties == if n.nodeType in registry then Properties(registry[n.nodeType], raw.value.inputs)
                                 else map[]
  {
    hide Properties;
  }

  type Items = seq<(string, Option<RawNode>)>

  function Nodes(registry: Registry, items: Items): seq<Node> {
    if items == [] then []
    else
      var rest, item := Nodes(registry, items[..|items| - 1]), items[|items| - 1];
      match Normalized(registry, item.0, item.1)
      case None => rest
      case Some(n) => rest + [n]
  }

  function PropertyCount(nodes: seq<Node>): nat {
    if nodes == [] then 0 else PropertyCount(nodes[..|nodes| - 1]) + |nodes[|nodes| - 1].properties|
  }

  /** A property is stored iff its definition is known and the input has a value that fits it. */
  lemma {:induction false} PropertiesAreTyped(defs: seq<(string, Definition)>, inputs: map<string, Json>, k: string)
    requires forall i, j :: 0 <= i < j < |defs| ==> defs[i].0 != defs[j].0
    ensures var p := Properties(defs, inputs);
      && |p| <= |defs|
      && (k in p <==>
          exists i :: 0 <= i < |defs| && defs[i].0 == k && k in inputs && Typed(inputs[k], defs[i].1.valueType).Some?)
      && (forall i :: 0 <= i < |defs| && defs[i].0 == k && k in p ==>
          Some(p[k]) == Typed(inputs[k], defs[i].1.valueType))
  {
    if defs != [] {
      PropertiesAreTyped(defs[..|defs| - 1], inputs, k);
      var d := defs[|defs| - 1];
      PropertiesAreTyped(defs[..|defs| - 1], inputs, d.0);
      assert forall i :: 0 <= i < |defs| - 1 ==> defs[..|defs| - 1][i] == defs[i];
    }
  }

  /** Collects the properties of one node, up to the per-node limit. */
  method CollectProperties(defs: seq<(string, Definition)>, inputs: map<string, Json>)
    returns (properties: map<string, Value>)
    requires |defs| <= MAX_PROPERTIES_PER_NODE && forall i, j :: 0 <= i < j < |defs| ==> defs[i].0 != defs[j].0
    ensures properties == Properties(defs, inputs)
  {
    properties := map[];
    var i := 0;
    while i < |defs|
      invariant 0 <= i <= |defs| && properties == Properties(defs[..i], inputs) && |properties| <= i
    {
      assert defs[..i + 1][..i] == defs[..i];
      PropertiesAreTyped(defs[..i], inputs, defs[i].0);
      var (key, definition) := defs[i];
      if key in inputs && Typed(inputs[key], definition.valueType).Some? {
        properties := properties[key := Typed(inputs[key], definition.valueType).value];
      }
      i := i + 1;
      if |properties| >= MAX_PROPERTIES_PER_NODE {
        break;
      }
    }
    assert i == |defs| && defs[..i] == defs;
  }

  /** A document is accepted iff the node limit is not reached before its last item and all properties fit. */
  method NormalizeDocument(registry: Registry, items: Items) returns (r: Result<seq<Node>>)
    requires FitsLimits(registry)
    ensures r.Ok? <==>
              && (items != [] ==> |Nodes(registry, items[..|items| - 1])| < MAX_NODES)
              && PropertyCount(Nodes(registry, items)) <= MAX_PROPERTY_ROWS
    ensures r.Ok? ==> r.value == Nodes(registry, items) && |r.value| <= MAX_NODES
  {
    hide Nodes, PropertyCount, Normalized;
    var nodes, propertyRows := [], 0;
    NoNodes(registry);
    var i := 0;
    while i < |items|
      invariant 0 <= i <= |items|
      invariant nodes == Nodes(registry, items[..i]) && propertyRows == PropertyCount(nodes) <= MAX_PROPERTY_ROWS
      invariant i > 0 ==> |Nodes(registry, items[..i - 1])| < MAX_NODES
      invariant i == 0 ==> nodes == []
      invariant |nodes| <= MAX_NODES
    {
      NodesGrow(registry, items, i, |items| - 1);
      NodesGrow(registry, items, i + 1, |items|);
      NodesStep(registry, items, i);
      assert items[..|items|] == items;
      if |nodes| >= MAX_NODES {
        return Err(NodeLimit);
      }
      var (key, raw) := items[i];
      var normalized := Normalized(registry, key, raw);
      if normalized.Some? {
        propertyRows := propertyRows + |normalized.value.properties|;
        if propertyRows > MAX_PROPERTY_ROWS {
          return Err(PropertyLimit);
        }
        nodes := nodes + [normalized.value];
      }
      i := i + 1;
    }
    assert items[..|items|] == items;
    r := Ok(nodes);
  }

  lemma NoNodes(registry: Registry)
    ensures Nodes(registry, []) == [] && PropertyCount([]) == 0
  {
  }

  lemma NodesStep(registry: Registry, items: Items, i: nat)
    requires i < |items|
    ensures var before, item := Nodes(registry, items[..i]), items[i];
      var n := Normalized(registry, item.0, item.1);
      var after := Nodes(registry, items[..i + 1]);
      if n.None? then after == before
      else after == before + [n.value] && PropertyCount(after) == PropertyCount(before) + |n.value.properties|
  {
    assert items[..i + 1][..i] == items[..i];
    var before := Nodes(registry, items[..i]);
    match Normalized(registry, items[i].0, items[i].1)
    case None =>
    case Some(node) => assert (before + [node])[..|before|] == before;
  }

  lemma {:induction false} NodesGrow(registry: Registry, items: Items, i: nat, n: int)
    requires i <= n <= |items| || n < i
    ensures i <= n ==> |Nodes(registry, items[..i])| <= |Nodes(registry, items[..n])|
    ensures i <= n ==> PropertyCount(Nodes(registry, items[..i])) <= PropertyCount(Nodes(registry, items[..n]))
    decreases n - i
  {
    if i < n {
      NodesGrow(registry, items, i, n - 1);
      NodesStep(registry, items, n - 1);
    }
  }

  // ---------------------------------------------------------------- tables

  datatype NodeRow = NodeRow(asset: int, key: string, nodeType: string, title: Option<string>)

  /** A workflow_property_values row below its key; unused value columns are NULL. */
  datatype Columns = Columns(
    valueType: ValueType, text: Option<string>, folded: Option<string>, integer: Option<int>, number: Option<real>,
    boolean: Option<int>)

  /** workflow_nodes by id, and workflow_property_values by node id and property. */
  datatype Tables = Tables(nodes: map<int, NodeRow>, values: map<(int, string), Columns>, nextId: int)

  /** What is left open: Unicode case folding, which at least leaves no ASCII capital. */
  ghost predicate FoldsCapitals(fold: string -> string) {
    forall s :: NoCapitals(fold(s))
  }

  function Stored(fold: string -> string, v: Value): Columns {
    match v
    case TextValue(s) => Columns(TextType, Some(s), Some(fold(s)), None, None, None)
    case IntegerValue(i) => Columns(IntegerType, None, None, Some(i), None, None)
    case RealValue(r) => Columns(RealType, None, None, None, Some(r), None)
    case BooleanValue(b) => Columns(BooleanType, None, None, None, None, Some(if b then 1 else 0))
    case TokenValue(n) => Columns(TokenType, Some(Decimal(n)), None, None, None, None)
  }

  /** Each type of value has a column of its own; text is stored twice, truth values as 0 and 1, tokens as numerals. */
  lemma StoredIs(fold: string -> string, v: Value)
    ensures var c := Stored(fold, v);
      && c.valueType == TypeOf(v)
      && c.text == (if v.TextValue? then Some(v.s) else if v.TokenValue? then Some(Decimal(v.n)) else None)
      && c.folded == (if v.TextValue? then Some(fold(v.s)) else None)
      && c.integer == (if v.IntegerValue? then Some(v.i) else None)
      && c.number == (if v.RealValue? then Some(v.r) else None)
      && (c.boolean == Some(1) <==> v == BooleanValue(true)) && (c.boolean == Some(0) <==> v == BooleanValue(false))
  {
    hide Decimal;
  }

  /** DELETE FROM workflow_nodes of one asset; the values go with their nodes. */
  function DeleteAsset(t: Tables, asset: int): Tables {
    t.(nodes := map id | id in t.nodes && t.nodes[id].asset != asset :: t.nodes[id],
       values := map k | k in t.values && !(k.0 in t.nodes && t.nodes[k.0].asset == asset) :: t.values[k])
  }

  function PropertyRows(fold: string -> string, id: int, n: Node): map<(int, string), Columns> {
    map p | p in n.properties :: (id, p) := Stored(fold, n.properties[p])
  }

  function InsertNode(t: Tables, fold: string -> string, asset: int, n: Node): Tables {
    Tables(t.nodes[t.nextId := NodeRow(asset, n.key, n.nodeType, n.title)],
           t.values + PropertyRows(fold, t.nextId, n),
           t.nextId + 1)
  }

  function InsertNodes(t: Tables, fold: string -> string, asset: int, nodes: seq<Node>): Tables {
    if nodes == [] then t
    else InsertNode(InsertNodes(t, fold, asset, nodes[..|nodes| - 1]), fold, asset, nodes[|nodes| - 1])
  }

  predicate DistinctKeys(nodes: seq<Node>) {
    forall i, j :: 0 <= i < j < |nodes| ==> nodes[i].key != nodes[j].key
  }

  datatype Write = Persist(asset: int, nodes: seq<Node>) | Invalidate(asset: int)

  /** One write transaction; a repeated node key violates UNIQUE(asset_id, node_key) and changes nothing. */
  function Step(t: Tables, fold: string -> string, w: Write): Tables {
    match w
    case Persist(asset, nodes) =>
      if DistinctKeys(nodes) then InsertNodes(DeleteAsset(t, asset), fold, asset, nodes) else t
    case Invalidate(asset) => DeleteAsset(t, asset)
  }

  function Run(t: Tables, fold: string -> string, writes: seq<Write>): Tables {
    if writes == [] then t else Step(Run(t, fold, writes[..|writes| - 1]), fold, writes[|writes| - 1])
  }

  /** The document last stored for an asset. */
  function Document(writes: seq<Write>, asset: int): seq<Node> {
    if writes == [] then []
    else
      var rest := Document(writes[..|writes| - 1], asset);
      match writes[|writes| - 1]
      case Persist(a, nodes) => if a == asset && DistinctKeys(nodes) then nodes else rest
      case Invalidate(a) => if a == asset then [] else rest
  }

  /** Row id stands for node n: same type, and exactly its typed properties. */
  ghost predicate RowIs(t: Tables, fold: string -> string, id: int, asset: int, n: Node) {
    && id in t.nodes && t.nodes[id] == NodeRow(asset, n.key, n.nodeType, n.title)
    && (forall p :: (id, p) in t.values <==> p in n.properties)
    && (forall p :: p in n.properties ==> (id, p) in t.values && t.values[(id, p)] == Stored(fold, n.properties[p]))
  }

  ghost predicate HasRow(t: Tables, fold: string -> string, asset: int, n: Node) {
    exists id :: RowIs(t, fold, id, asset, n)
  }

  ghost predicate IsOneOf(t: Tables, fold: string -> string, id: int, asset: int, nodes: seq<Node>) {
    exists i :: 0 <= i < |nodes| && RowIs(t, fold, id, asset, nodes[i])
  }

  /** The rows of the asset are the nodes of its document. */
  ghost predicate Represents(t: Tables, fold: string -> string, asset: int, nodes: seq<Node>) {
    && (forall i :: 0 <= i < |nodes| ==> HasRow(t, fold, asset, nodes[i]))
    && (forall id :: id in t.nodes && t.nodes[id].asset == asset ==> IsOneOf(t, fold, id, asset, nodes))
  }

  ghost predicate Valid(t: Tables) {
    && (forall id :: id in t.nodes ==> id < t.nextId)
    && (forall k :: k in t.values ==> k.0 in t.nodes)
  }

  /** The rows of asset a, and the values under them, are the same in both tables. */
  ghost predicate SameRows(t: Tables, u: Tables, a: int) {
    && (forall id :: (id in t.nodes && t.nodes[id].asset == a) <==> (id in u.nodes && u.nodes[id].asset == a))
    && (forall id :: id in t.nodes && t.nodes[id].asset == a ==> SameRow(t, u, id))
  }

  ghost predicate SameRow(t: Tables, u: Tables, id: int)
    requires id in t.nodes
  {
    && id in u.nodes && u.nodes[id] == t.nodes[id]
    && (forall p :: (id, p) in t.values <==> (id, p) in u.values)
    && (forall p :: (id, p) in t.values ==> (id, p) in u.values && u.values[(id, p)] == t.values[(id, p)])
  }

  lemma SameRowIs(t: Tables, u: Tables, fold: string -> string, id: int, a: int, n: Node)
    requires RowIs(t, fold, id, a, n) && SameRow(t, u, id)
    ensures RowIs(u, fold, id, a, n)
  {
  }

  lemma SameRowHas(t: Tables, u: Tables, fold: string -> string, a: int, n: Node)
    requires HasRow(t, fold, a, n) && forall id :: id in t.nodes && t.nodes[id].asset == a ==> SameRow(t, u, id)
    ensures HasRow(u, fold, a, n)
  {
    var id :| RowIs(t, fold, id, a, n);
    SameRowIs(t, u, fold, id, a, n);
  }

  lemma SameRowIsOneOf(t: Tables, u: Tables, fold: string -> string, id: int, a: int, nodes: seq<Node>)
    requires id in t.nodes && SameRow(t, u, id) && IsOneOf(t, fold, id, a, nodes)
    ensures IsOneOf(u, fold, id, a, nodes)
  {
    var i :| 0 <= i < |nodes| && RowIs(t, fold, id, a, nodes[i]);
    SameRowIs(t, u, fold, id, a, nodes[i]);
  }

  lemma SameRowsRepresent(t: Tables, u: Tables, fold: string -> string, a: int, nodes: seq<Node>)
    requires SameRows(t, u, a) && Represents(t, fold, a, nodes)
    ensures Represents(u, fold, a, nodes)
  {
    hide HasRow, IsOneOf, SameRow;
    forall i | 0 <= i < |nodes|
      ensures HasRow(u, fold, a, nodes[i])
    {
      SameRowHas(t, u, fold, a, nodes[i]);
    }
    forall id | id in u.nodes && u.nodes[id].asset == a
      ensures IsOneOf(u, fold, id, a, nodes)
    {
      SameRowIsOneOf(t, u, fold, id, a, nodes);
    }
  }

  lemma RowOfAsset(t: Tables, fold: string -> string, id: int, a: int, n: Node)
    requires RowIs(t, fold, id, a, n)
    ensures id in t.nodes && t.nodes[id].asset == a && t.nodes[id].nodeType == n.nodeType
  {
  }

  /** u is t with one more row. */
  ghost predicate AddsRow(t: Tables, u: Tables, newId: int) {
    && newId !in t.nodes
    && (forall id :: id in u.nodes <==> id == newId || id in t.nodes)
    && (forall id :: id in t.nodes ==> SameRow(t, u, id))
  }

  lemma InsertAddsRow(t: Tables, fold: string -> string, asset: int, n: Node)
    requires Valid(t)
    ensures var u := InsertNode(t, fold, asset, n);
      Valid(u) && RowIs(u, fold, t.nextId, asset, n) && AddsRow(t, u, t.nextId)
  {
    var u := InsertNode(t, fold, asset, n);
    assert forall p :: (t.nextId, p) !in t.values;
    forall id | id in t.nodes
      ensures SameRow(t, u, id)
    {
      assert id != t.nextId;
    }
    assert forall k :: k in u.values ==> k.0 in u.nodes;
  }

  lemma AddedRowRepresents(
    t: Tables, u: Tables, newId: int, fold: string -> string, asset: int, front: seq<Node>, last: Node)
    requires AddsRow(t, u, newId) && RowIs(u, fold, newId, asset, last) && Represents(t, fold, asset, front)
    ensures Represents(u, fold, asset, front + [last])
  {
    var nodes := front + [last];
    RowOfAsset(u, fold, newId, asset, last);
    forall i | 0 <= i < |nodes|
      ensures HasRow(u, fold, asset, nodes[i])
    {
      if i < |front| {
        assert HasRow(t, fold, asset, front[i]);
        SameRowHas(t, u, fold, asset, front[i]);
      }
    }
    forall id | id in u.nodes && u.nodes[id].asset == asset
      ensures IsOneOf(u, fold, id, asset, nodes)
    {
      if id == newId {
        assert RowIs(u, fold, id, asset, nodes[|front|]);
      } else {
        assert SameRow(t, u, id) && IsOneOf(t, fold, id, asset, front);
        SameRowIsOneOf(t, u, fold, id, asset, front);
        LongerIsOneOf(u, fold, id, asset, front, last);
      }
    }
  }

  lemma LongerIsOneOf(u: Tables, fold: string -> string, id: int, asset: int, front: seq<Node>, last: Node)
    requires IsOneOf(u, fold, id, asset, front)
    ensures IsOneOf(u, fold, id, asset, front + [last])
  {
    var i :| 0 <= i < |front| && RowIs(u, fold, id, asset, front[i]);
    assert (front + [last])[i] == front[i];
  }

  lemma AddedRowIsOthers(t: Tables, u: Tables, newId: int, asset: int, a: int)
    requires AddsRow(t, u, newId) && newId in u.nodes && u.nodes[newId].asset == asset != a
    ensures SameRows(t, u, a)
  {
  }

  lemma InsertOne(t: Tables, fold: string -> string, asset: int, front: seq<Node>, last: Node, a: int)
    requires Valid(t) && Represents(t, fold, asset, front)
    ensures var u := InsertNode(t, fold, asset, last);
      Valid(u) && Represents(u, fold, asset, front + [last]) && (a != asset ==> SameRows(t, u, a))
  {
    var u := InsertNode(t, fold, asset, last);
    InsertAddsRow(t, fold, asset, last);
    hide InsertNode, RowIs, Represents, AddsRow, SameRows;
    RowOfAsset(u, fold, t.nextId, asset, last);
    AddedRowRepresents(t, u, t.nextId, fold, asset, front, last);
    if a != asset {
      AddedRowIsOthers(t, u, t.nextId, asset, a);
    }
  }

  lemma SameRowsTransitive(t: Tables, u: Tables, v: Tables, a: int)
    requires SameRows(t, u, a) && SameRows(u, v, a)
    ensures SameRows(t, v, a)
  {
  }

  lemma {:induction false} InsertsRepresent(t: Tables, fold: string -> string, asset: int, nodes: seq<Node>, other: int)
    requires Valid(t) && Represents(t, fold, asset, [])
    ensures var u := InsertNodes(t, fold, asset, nodes);
      Valid(u) && Represents(u, fold, asset, nodes) && (other != asset ==> SameRows(t, u, other))
  {
    hide Represents, SameRows, Valid, InsertNode, InsertNodes;
    if nodes == [] {
      InsertNone(t, fold, asset);
      SameRowsReflexive(t, other);
    } else {
      var front, last := nodes[..|nodes| - 1], nodes[|nodes| - 1];
      InsertLast(t, fold, asset, nodes);
      InsertsRepresent(t, fold, asset, front, other);
      var s := InsertNodes(t, fold, asset, front);
      InsertOne(s, fold, asset, front, last, other);
      if other != asset {
        SameRowsTransitive(t, s, InsertNode(s, fold, asset, last), other);
      }
      assert nodes == front + [last];
    }
  }

  lemma InsertNone(t: Tables, fold: string -> string, asset: int)
    ensures InsertNodes(t, fold, asset, []) == t
  {
  }

  lemma InsertLast(t: Tables, fold: string -> string, asset: int, nodes: seq<Node>)
    requires nodes != []
    ensures InsertNodes(t, fold, asset, nodes)
         == InsertNode(InsertNodes(t, fold, asset, nodes[..|nodes| - 1]), fold, asset, nodes[|nodes| - 1])
  {
  }

  lemma SameRowsReflexive(t: Tables, a: int)
    ensures SameRows(t, t, a)
  {
  }

  lemma DeleteRepresents(t: Tables, fold: string -> string, asset: int, other: int)
    requires Valid(t)
    ensures var u := DeleteAsset(t, asset);
      Valid(u) && Represents(u, fold, asset, []) && (other != asset ==> SameRows(t, u, other))
  {
  }

  ghost predicate OthersKeepRows(t: Tables, u: Tables, asset: int) {
    forall a :: a != asset ==> SameRows(t, u, a)
  }

  lemma PersistRepresents(t: Tables, fold: string -> string, asset: int, nodes: seq<Node>)
    ensures Valid(t) ==>
              var u := InsertNodes(DeleteAsset(t, asset), fold, asset, nodes);
              Valid(u) && Represents(u, fold, asset, nodes) && OthersKeepRows(t, u, asset)
  {
    if Valid(t) {
      var s := DeleteAsset(t, asset);
      var u := InsertNodes(s, fold, asset, nodes);
      DeleteRepresents(t, fold, asset, asset);
      InsertsRepresent(s, fold, asset, nodes, asset);
      forall a | a != asset
        ensures SameRows(t, u, a)
      {
        DeleteRepresents(t, fold, asset, a);
        InsertsRepresent(s, fold, asset, nodes, a);
        SameRowsTransitive(t, s, u, a);
      }
    }
  }

  lemma InvalidateRepresents(t: Tables, fold: string -> string, asset: int)
    ensures Valid(t) ==>
              var u := DeleteAsset(t, asset);
              && Valid(u) && OthersKeepRows(t, u, asset)
              && forall id :: id in u.nodes ==> u.nodes[id].asset != asset
  {
    if Valid(t) {
      forall a | a != asset
        ensures SameRows(t, DeleteAsset(t, asset), a)
      {
        DeleteRepresents(t, fold, asset, a);
      }
    }
  }

  /** Over every run of writes, the rows of every asset are the document last stored for it. */
  lemma {:induction false} RunRepresents(t: Tables, fold: string -> string, writes: seq<Write>, asset: int)
    requires t == Tables(map[], map[], 1)
    ensures Valid(Run(t, fold, writes)) && Represents(Run(t, fold, writes), fold, asset, Document(writes, asset))
  {
    if writes != [] {
      var s, w := Run(t, fold, writes[..|writes| - 1]), writes[|writes| - 1];
      var document := Document(writes[..|writes| - 1], asset);
      RunRepresents(t, fold, writes[..|writes| - 1], asset);
      var u := DeleteAsset(s, w.asset);
      DeleteRepresents(s, fold, w.asset, asset);
      if w.Persist? {
        InsertsRepresent(u, fold, w.asset, w.nodes, asset);
      }
      hide Represents, SameRows, Valid, DistinctKeys;
      if w.asset != asset {
        SameRowsRepresent(s, u, fold, asset, document);
        if w.Persist? {
          SameRowsRepresent(u, InsertNodes(u, fold, w.asset, w.nodes), fold, asset, document);
        }
      }
    }
  }

  // ---------------------------------------------------------------- queries

  datatype Predicate = Predicate(property: string, op: Op, value: Json)

  datatype Group = Group(nodeType: string, predicates: seq<Predicate>)

  /** What a predicate says of a value: text up to case folding, numbers by order, tokens by number. */
  ghost predicate Holds(fold: string -> string, op: Op, v: Value, wanted: Value) {
    match (v, wanted)
    case (TextValue(a), TextValue(b)) =>
      var (x, y) := (fold(a), fold(b));
      (op == OpEq && x == y) || (op == OpPrefix && y <= x) || (op == OpContains && exists i :: StandsAt(y, x, i))
    case (IntegerValue(a), IntegerValue(b)) =>
      || (op == OpEq && a == b) || (op == OpGt && a > b) || (op == OpGte && a >= b)
      || (op == OpLt && a < b) || (op == OpLte && a <= b)
    case (RealValue(a), RealValue(b)) =>
      || (op == OpEq && a == b) || (op == OpGt && a > b) || (op == OpGte && a >= b)
      || (op == OpLt && a < b) || (op == OpLte && a <= b)
    case (BooleanValue(a), BooleanValue(b)) => op == OpEq && a == b
    case (TokenValue(a), TokenValue(b)) => op == OpEq && a == b
    case _ => false
  }

  function FindProperty(defs: seq<(string, Definition)>, property: string): Option<Definition> {
    if defs == [] then None
    else if defs[|defs| - 1].0 == property then Some(defs[|defs| - 1].1)
    else FindProperty(defs[..|defs| - 1], property)
  }

  function Lookup(registry: Registry, nodeType: string, property: string): Option<Definition> {
    if nodeType in registry then FindProperty(registry[nodeType], property) else None
  }

  predicate ValidPredicate(registry: Registry, nodeType: string, p: Predicate) {
    var d := Lookup(registry, nodeType, p.property);
    d.Some? && p.op in d.value.operators && Typed(p.value, d.value.valueType).Some?
  }

  lemma {:induction false} FoundIs(defs: seq<(string, Definition)>, property: string, d: Definition)
    requires forall i, j :: 0 <= i < j < |defs| ==> defs[i].0 != defs[j].0
    ensures FindProperty(defs, property) == Some(d) <==> (property, d) in defs
  {
    if defs != [] {
      FoundIs(defs[..|defs| - 1], property, d);
      assert defs == defs[..|defs| - 1] + [defs[|defs| - 1]];
    }
  }

  ghost predicate Allows(defs: seq<(string, Definition)>, p: Predicate, d: Definition) {
    (p.property, d) in defs && p.op in d.operators && exists w :: Fits(p.value, d.valueType, w)
  }

  /** A predicate is valid iff a definition of the node type allows its operator and takes its value. */
  lemma ValidPredicateIff(registry: Registry, nodeType: string, p: Predicate)
    requires FitsLimits(registry)
    ensures ValidPredicate(registry, nodeType, p) <==>
              nodeType in registry && exists d :: Allows(registry[nodeType], p, d)
  {
    forall d: Definition
      ensures Typed(p.value, d.valueType).Some? <==> exists w :: Fits(p.value, d.valueType, w)
      ensures nodeType in registry ==>
                (FindProperty(registry[nodeType], p.property) == Some(d) <==> (p.property, d) in registry[nodeType])
    {
      FitsSome(p.value, d.valueType);
      if nodeType in registry {
        FoundIs(registry[nodeType], p.property, d);
      }
    }
    hide Typed, Fits, FindProperty;
    if ValidPredicate(registry, nodeType, p) {
      assert Allows(registry[nodeType], p, Lookup(registry, nodeType, p.property).value);
    }
  }

  lemma FitsSome(v: Json, t: ValueType)
    ensures Typed(v, t).Some? <==> exists w :: Fits(v, t, w)
  {
    if Typed(v, t).Some? {
      TypedIff(v, t, Typed(v, t).value);
    }
    if w :| Fits(v, t, w) {
      TypedIff(v, t, w);
    }
  }

  predicate ValidGroup(registry: Registry, g: Group) {
    && g.nodeType in registry
    && forall i :: 0 <= i < |g.predicates| ==> ValidPredicate(registry, g.nodeType, g.predicates[i])
  }

  predicate OpFits(op: Op, t: ValueType) {
    match t
    case TextType => op in {OpEq, OpPrefix, OpContains}
    case BooleanType => op == OpEq
    case TokenType => op == OpEq
    case _ => op in {OpEq, OpGt, OpGte, OpLt, OpLte}
  }

  ghost predicate DefinitionFits(d: Definition) {
    forall op :: op in d.operators ==> OpFits(op, d.valueType)
  }

  /** Text compares by equality and pattern, booleans and tokens by equality, numbers by order. */
  ghost predicate OperatorsFit(registry: Registry) {
    forall t :: t in registry ==> forall i :: 0 <= i < |registry[t]| ==> DefinitionFits(registry[t][i].1)
  }

  /** The document itself has a node of the group's type on which every predicate holds. */
  ghost predicate NodeMatches(registry: Registry, fold: string -> string, n: Node, g: Group)
    requires ValidGroup(registry, g)
  {
    && n.nodeType == g.nodeType
    && forall i :: 0 <= i < |g.predicates| ==> PropertyMatches(registry, fold, n, g.nodeType, g.predicates[i])
  }

  ghost predicate PropertyMatches(registry: Registry, fold: string -> string, n: Node, nodeType: string, p: Predicate)
    requires ValidPredicate(registry, nodeType, p)
  {
    p.property in n.properties
    && Holds(fold, p.op, n.properties[p.property],
             Typed(p.value, Lookup(registry, nodeType, p.property).value.valueType).value)
  }

  const TEXT := Definition(TextType, {OpEq, OpPrefix, OpContains})
  const INTEGER := Definition(IntegerType, {OpEq, OpGt, OpGte, OpLt, OpLte})
  const REAL := Definition(RealType, {OpEq, OpGt, OpGte, OpLt, OpLte})
  const BOOLEAN := Definition(BooleanType, {OpEq})
  const UINT64 := Definition(TokenType, {OpEq})

  /** The definitions of the source's registry, one entry per node type. */
  const KSAMPLER := [
    ("seed", UINT64), ("steps", INTEGER), ("cfg", REAL), ("sampler_name", TEXT), ("scheduler", TEXT), ("denoise", REAL)]
  const KSAMPLER_ADVANCED := [
    ("noise_seed", UINT64), ("steps", INTEGER), ("start_at_step", INTEGER), ("end_at_step", INTEGER), ("cfg", REAL),
    ("sampler_name", TEXT), ("scheduler", TEXT), ("add_noise", BOOLEAN), ("return_with_leftover_noise", BOOLEAN)]
  const LORA := [("lora_name", TEXT), ("strength_model", REAL), ("strength_clip", REAL)]
  const LATENT := [("width", INTEGER), ("height", INTEGER), ("batch_size", INTEGER)]
  const UNET := [("unet_name", TEXT), ("weight_dtype", TEXT)]
  const CLIP := [("clip_name", TEXT), ("clip_name1", TEXT), ("clip_name2", TEXT), ("type", TEXT)]

  const REGISTRY: Registry := map[
    "KSampler" := KSAMPLER, "KSamplerAdvanced" := KSAMPLER_ADVANCED, "CheckpointLoaderSimple" := [("ckpt_name", TEXT)],
    "LoraLoader" := LORA, "LoraLoaderModelOnly" := LORA, "EmptyLatentImage" := LATENT,
    "VAELoader" := [("vae_name", TEXT)],
    "ControlNetLoader" := [("control_net_name", TEXT)], "UNETLoader" := UNET, "CLIPLoader" := CLIP,
    "DualCLIPLoader" := CLIP,
    "SaveImage" := [("filename_prefix", TEXT)]]

  ghost predicate DefinitionsFit(defs: seq<(string, Definition)>) {
    && |defs| <= MAX_PROPERTIES_PER_NODE
    && (forall i, j :: 0 <= i < j < |defs| ==> defs[i].0 != defs[j].0)
    && (forall i :: 0 <= i < |defs| ==> DefinitionFits(defs[i].1))
  }

  lemma LongDefinitionsFit()
    ensures DefinitionsFit(KSAMPLER) && DefinitionsFit(KSAMPLER_ADVANCED)
  {
  }

  lemma ShortDefinitionsFit()
    ensures DefinitionsFit(LORA) && DefinitionsFit(LATENT) && DefinitionsFit(UNET) && DefinitionsFit(CLIP)
    ensures forall name :: DefinitionsFit([(name, TEXT)])
  {
  }

  /** The source's registry meets what the theorems ask of one. */
  lemma SourceRegistryFits()
    ensures FitsLimits(REGISTRY) && OperatorsFit(REGISTRY)
  {
    LongDefinitionsFit();
    ShortDefinitionsFit();
    forall t | t in REGISTRY
      ensures DefinitionsFit(REGISTRY[t])
    {
      hide DefinitionsFit;
    }
  }

  // ---------------------------------------------------------------- the compiled form

  datatype Comparison = Equal | Greater | GreaterEqual | Less | LessEqual | LikePattern

  datatype Param = TextParam(s: string) | IntegerParam(i: int) | RealParam(r: real)

  datatype Column = TextColumn | FoldedColumn | IntegerColumn | RealColumn | BooleanColumn

  /** property_key = :property AND value_type = :type AND column comparison :value */
  datatype Compiled = Compiled(
    property: string, valueType: ValueType, column: Column, comparison: Comparison, param: Param)

  datatype CompiledGroup = CompiledGroup(nodeType: string, predicates: seq<Compiled>)

  function ComparisonOf(op: Op): Comparison {
    match op
    case OpGt => Greater
    case OpGte => GreaterEqual
    case OpLt => Less
    case OpLte => LessEqual
    case _ => Equal
  }

  function Compile(fold: string -> string, property: string, op: Op, wanted: Value): Compiled {
    match wanted
    case TextValue(s) =>
      var folded := fold(s);
      (match op
       case OpPrefix => Compiled(property, TextType, FoldedColumn, LikePattern, TextParam(Like.Escape(folded) + "%"))
       case OpContains =>
         Compiled(property, TextType, FoldedColumn, LikePattern, TextParam("%" + Like.Escape(folded) + "%"))
       case _ => Compiled(property, TextType, FoldedColumn, Equal, TextParam(folded)))
    case IntegerValue(i) => Compiled(property, IntegerType, IntegerColumn, ComparisonOf(op), IntegerParam(i))
    case RealValue(r) => Compiled(property, RealType, RealColumn, ComparisonOf(op), RealParam(r))
    case BooleanValue(b) => Compiled(property, BooleanType, BooleanColumn, Equal, IntegerParam(if b then 1 else 0))
    case TokenValue(n) => Compiled(property, TokenType, TextColumn, Equal, TextParam(Decimal(n)))
  }

  predicate CompareText(v: Option<string>, c: Comparison, p: Param) {
    v.Some? && p.TextParam? && ((c == Equal && v.value == p.s) || (c == LikePattern && Like.Matches(p.s, v.value)))
  }

  predicate CompareInteger(v: Option<int>, c: Comparison, p: Param) {
    v.Some? && p.IntegerParam?
    && ((c == Equal && v.value == p.i) || (c == Greater && v.value > p.i) || (c == GreaterEqual && v.value >= p.i)
        || (c == Less && v.value < p.i) || (c == LessEqual && v.value <= p.i))
  }

  predicate CompareReal(v: Option<real>, c: Comparison, p: Param) {
    v.Some? && p.RealParam?
    && ((c == Equal && v.value == p.r) || (c == Greater && v.value > p.r) || (c == GreaterEqual && v.value >= p.r)
        || (c == Less && v.value < p.r) || (c == LessEqual && v.value <= p.r))
  }

  predicate RowSatisfies(row: Columns, c: Compiled) {
    row.valueType == c.valueType
    && match c.column
       case TextColumn => CompareText(row.text, c.comparison, c.param)
       case FoldedColumn => CompareText(row.folded, c.comparison, c.param)
       case IntegerColumn => CompareInteger(row.integer, c.comparison, c.param)
       case RealColumn => CompareReal(row.number, c.comparison, c.param)
       case BooleanColumn => CompareInteger(row.boolean, c.comparison, c.param)
  }

  /** EXISTS over the nodes of the asset, with one EXISTS over the node's values per predicate. */
  ghost predicate Selects(t: Tables, asset: int, c: CompiledGroup) {
    exists id :: NodeSelected(t, id, asset, c)
  }

  ghost predicate NodeSelected(t: Tables, id: int, asset: int, c: CompiledGroup) {
    && id in t.nodes && t.nodes[id].asset == asset && t.nodes[id].nodeType == c.nodeType
    && forall i :: 0 <= i < |c.predicates| ==>
         && (id, c.predicates[i].property) in t.values
         && RowSatisfies(t.values[(id, c.predicates[i].property)], c.predicates[i])
  }

  lemma FoldedTextCompares(fold: string -> string, property: string, op: Op, a: string, b: string)
    requires FoldsCapitals(fold) && op in {OpEq, OpPrefix, OpContains}
    ensures RowSatisfies(Stored(fold, TextValue(a)), Compile(fold, property, op, TextValue(b))) <==>
            Holds(fold, op, TextValue(a), TextValue(b))
  {
    var x, y := fold(a), fold(b);
    Like.PrefixPattern(y, x);
    Like.ContainsPattern(y, x);
    forall i: nat
      ensures OccursAt(y, x, i) <==> StandsAt(y, x, i)
    {
      ExactWithoutCapitals(y, x, i);
    }
    assert StandsAt(y, x, 0) <==> y <= x;
  }

  /** A stored value satisfies a compiled predicate iff the predicate holds of the value. */
  lemma CompiledPredicateIsExact(fold: string -> string, property: string, op: Op, v: Value, wanted: Value)
    requires FoldsCapitals(fold) && OpFits(op, TypeOf(wanted))
    ensures RowSatisfies(Stored(fold, v), Compile(fold, property, op, wanted)) <==> Holds(fold, op, v, wanted)
  {
    if v.TextValue? && wanted.TextValue? {
      FoldedTextCompares(fold, property, op, v.s, wanted.s);
    } else if v.TokenValue? && wanted.TokenValue? {
      DecimalParsesBack(v.n);
      DecimalParsesBack(wanted.n);
    }
  }

  function CompileGroup(registry: Registry, fold: string -> string, g: Group): (c: CompiledGroup)
    requires ValidGroup(registry, g)
    ensures |c.predicates| == |g.predicates|
  {
    CompiledGroup(g.nodeType, seq(|g.predicates|, i requires 0 <= i < |g.predicates| =>
      var p := g.predicates[i];
      Compile(fold, p.property, p.op, Typed(p.value, Lookup(registry, g.nodeType, p.property).value.valueType).value)))
  }

  lemma CompiledProperty(fold: string -> string, property: string, op: Op, wanted: Value)
    ensures Compile(fold, property, op, wanted).property == property
  {
  }

  lemma {:induction false} FoundOperatorFits(registry: Registry, t: string, n: nat, property: string)
    requires OperatorsFit(registry) && t in registry && n <= |registry[t]|
    ensures var d := FindProperty(registry[t][..n], property); d.Some? ==> DefinitionFits(d.value)
  {
    if n > 0 {
      var defs := registry[t][..n];
      assert defs[..n - 1] == registry[t][..n - 1] && defs[n - 1] == registry[t][n - 1];
      FoundOperatorFits(registry, t, n - 1, property);
    }
  }

  lemma ValidOperatorFits(registry: Registry, t: string, p: Predicate)
    requires OperatorsFit(registry) && ValidPredicate(registry, t, p)
    ensures OpFits(p.op, Lookup(registry, t, p.property).value.valueType)
  {
    FoundOperatorFits(registry, t, |registry[t]|, p.property);
    assert registry[t][..|registry[t]|] == registry[t];
  }

  lemma RowMatches(registry: Registry, fold: string -> string, t: Tables, id: int, asset: int, n: Node, g: Group)
    requires FoldsCapitals(fold) && OperatorsFit(registry) && ValidGroup(registry, g) && RowIs(t, fold, id, asset, n)
    ensures NodeSelected(t, id, asset, CompileGroup(registry, fold, g)) <==> NodeMatches(registry, fold, n, g)
  {
    var c := CompileGroup(registry, fold, g);
    forall i | 0 <= i < |g.predicates|
      ensures c.predicates[i].property == g.predicates[i].property
      ensures g.predicates[i].property in n.properties ==>
        (RowSatisfies(t.values[(id, c.predicates[i].property)], c.predicates[i]) <==>
            PropertyMatches(registry, fold, n, g.nodeType, g.predicates[i]))
    {
      var p := g.predicates[i];
      var wanted := Typed(p.value, Lookup(registry, g.nodeType, p.property).value.valueType).value;
      CompiledProperty(fold, p.property, p.op, wanted);
      ValidOperatorFits(registry, g.nodeType, p);
      if p.property in n.properties {
        CompiledPredicateIsExact(fold, p.property, p.op, n.properties[p.property], wanted);
      }
    }
  }

  /** The compiled group selects an asset iff its document has one node on which every predicate holds. */
  lemma CompiledGroupIsExact(
    registry: Registry, fold: string -> string, t: Tables, asset: int, nodes: seq<Node>, g: Group)
    requires FoldsCapitals(fold) && OperatorsFit(registry) && ValidGroup(registry, g)
             && Represents(t, fold, asset, nodes)
    ensures Selects(t, asset, CompileGroup(registry, fold, g)) <==>
            exists i :: 0 <= i < |nodes| && NodeMatches(registry, fold, nodes[i], g)
  {
    var c := CompileGroup(registry, fold, g);
    hide RowIs, NodeMatches, CompileGroup, ValidGroup;
    if Selects(t, asset, c) {
      var id :| NodeSelected(t, id, asset, c);
      assert IsOneOf(t, fold, id, asset, nodes);
      var i :| 0 <= i < |nodes| && RowIs(t, fold, id, asset, nodes[i]);
      RowMatches(registry, fold, t, id, asset, nodes[i], g);
    }
    if i :| 0 <= i < |nodes| && NodeMatches(registry, fold, nodes[i], g) {
      assert HasRow(t, fold, asset, nodes[i]);
      var id :| RowIs(t, fold, id, asset, nodes[i]);
      RowMatches(registry, fold, t, id, asset, nodes[i], g);
    }
  }

  /** The same over every history of writes. */
  lemma QueryAnswersTheLastDocument(
    registry: Registry, fold: string -> string, writes: seq<Write>, asset: int, g: Group)
    requires FoldsCapitals(fold) && OperatorsFit(registry) && ValidGroup(registry, g)
    ensures var nodes := Document(writes, asset);
      Selects(Run(Tables(map[], map[], 1), fold, writes), asset, CompileGroup(registry, fold, g))
      <==> exists i :: 0 <= i < |nodes| && NodeMatches(registry, fold, nodes[i], g)
  {
    var t := Tables(map[], map[], 1);
    RunRepresents(t, fold, writes, asset);
    CompiledGroupIsExact(registry, fold, Run(t, fold, writes), asset, Document(writes, asset), g);
  }

  /** Groups compile iff every one of them passes validation. */
  method BuildGroupConditions(registry: Registry, fold: string -> string, groups: seq<Group>)
    returns (r: Result<seq<CompiledGroup>>)
    ensures r.Ok? <==> forall i :: 0 <= i < |groups| ==> ValidGroup(registry, groups[i])
    ensures r.Ok? ==> |r.value| == |groups|
    ensures r.Ok? ==> forall i :: 0 <= i < |groups| ==> r.value[i] == CompileGroup(registry, fold, groups[i])
  {
    hide ValidGroup, CompileGroup;
    for i := 0 to |groups|
      invariant forall k :: 0 <= k < i ==> ValidGroup(registry, groups[k])
    {
      if !ValidGroup(registry, groups[i]) {
        return Err(InvalidGroup);
      }
    }
    var conditions := [];
    for i := 0 to |groups|
      invariant |conditions| == i && forall k :: 0 <= k < i ==> conditions[k] == CompileGroup(registry, fold, groups[k])
    {
      conditions := conditions + [CompileGroup(registry, fold, groups[i])];
    }
    r := Ok(conditions);
  }

  // ---------------------------------------------------------------- the store

  class WorkflowStore {
    var nodes: map<int, NodeRow>
    var values: map<(int, string), Columns>
    var nextId: int
    const fold: string -> string

    function Rows(): Tables
      reads this
    {
      Tables(nodes, values, nextId)
    }

    constructor (fold: string -> string)
      ensures Rows() == Tables(map[], map[], 1) && this.fold == fold
    {
      nodes, values, nextId, this.fold := map[], map[], 1, fold;
    }

    method DeleteRows(asset: int)
      modifies this
      ensures Rows() == DeleteAsset(old(Rows()), asset)
    {
      values := map k | k in values && !(k.0 in nodes && nodes[k.0].asset == asset) :: values[k];
      nodes := map id | id in nodes && nodes[id].asset != asset :: nodes[id];
    }

    /** Replaces the rows of one asset; a repeated node key aborts the transaction. */
    method PersistProperties(asset: int, document: seq<Node>) returns (r: Result<()>)
      modifies this
      ensures Rows() == Step(old(Rows()), fold, Persist(asset, document))
      ensures r.Ok? <==> DistinctKeys(document)
      ensures r.Err? ==> Rows() == old(Rows())
      ensures r.Ok? && Valid(old(Rows())) ==>
                Valid(Rows()) && Represents(Rows(), fold, asset, document) && OthersKeepRows(old(Rows()), Rows(), asset)
    {
      if i, j :| 0 <= i < j < |document| && document[i].key == document[j].key {
        return Err(DuplicateNodeKey);
      }
      PersistRepresents(Rows(), fold, asset, document);
      DeleteRows(asset);
      ghost var before := Rows();
      for i := 0 to |document|
        invariant Rows() == InsertNodes(before, fold, asset, document[..i])
      {
        assert document[..i + 1][..i] == document[..i];
        InsertRow(asset, document[i]);
      }
      assert document[..|document|] == document;
      r := Ok(());
    }

    method InsertRow(asset: int, n: Node)
      modifies this
      ensures Rows() == InsertNode(old(Rows()), fold, asset, n)
    {
      nodes := nodes[nextId := NodeRow(asset, n.key, n.nodeType, n.title)];
      values := values + PropertyRows(fold, nextId, n);
      nextId := nextId + 1;
    }

    method InvalidateProperties(asset: int)
      modifies this
      ensures Rows() == Step(old(Rows()), fold, Invalidate(asset))
      ensures Valid(old(Rows())) ==>
                && Valid(Rows()) && OthersKeepRows(old(Rows()), Rows(), asset)
                && forall id :: id in nodes ==> nodes[id].asset != asset
    {
      InvalidateRepresents(Rows(), fold, asset);
      DeleteRows(asset);
    }
  }
}
