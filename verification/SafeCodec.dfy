/** The wire codec (neurahash/safe_codec.py): values to a JSON tree plus raw buffers and back, within depth, node and
    element budgets.  JSON text and the HMAC are parameters. */
module SafeCodec {
  import opened Prelude

  type Byte = x: nat | x < 256
  type Bytes = seq<Byte>

  const DOUBLE_SIGN: nat := 0x8000_0000_0000_0000
  const DOUBLE_INFINITY: nat := 0x7FF0_0000_0000_0000
  const DOUBLE_NAN: nat := 0x7FF8_0000_0000_0000

  /** A Python float: the pattern of a binary64 (IEEE 754-2019, section 3.4), infinities included, with all NaNs
      one, since JSON text has one word for them. */
  type Double = b: nat | b < 2 * DOUBLE_SIGN && (b % DOUBLE_SIGN > DOUBLE_INFINITY ==> b == DOUBLE_NAN)

  /** A JSON document; objects are lists of fields in order. */
  datatype Json = JNull | JBool(b: bool) | JInt(i: int) | JFloat(d: Double) | JStr(s: string)
                | JArr(items: seq<Json>) | JObj(fields: seq<Field>)

  datatype Field = Field(key: string, val: Json)

  /** What the wire carries.  Decoding a `$v` node yields its payload as it stands, so a scalar holds any JSON. */
  datatype Value =
    | Scalar(json: Json)
    | Array(dtype: string, shape: seq<nat>, bytes: Bytes)
    | Dict(entries: seq<Entry>)
    | Tuple(parts: seq<Value>)
    | List(parts: seq<Value>)
    | Model(hyper: Hyper, params: Value)

  datatype Entry = Entry(key: string, val: Value)

  datatype Hyper = Hyper(c: int, demb: int, h: int, out: int, experts: int)

  /** The configurable allocation guards. */
  datatype Caps = Caps(nodes: nat, elems: nat, modelParams: nat)

  const MAX_DEPTH: nat := 64

  /** NumPy's limit on the dimensions of an array (NPY_MAXDIMS since NumPy 2; 32 before). */
  const MAX_DIMENSIONS: nat := 64

  const VOCAB: nat := 43
  const MAX_HYPER: int := 100000

  /** Bytes per element; zero for a dtype that is not allowed. */
  function ItemSize(dtype: string): nat {
    if dtype == "float64" || dtype == "int64" then 8
    else if dtype == "float32" || dtype == "int32" then 4
    else if dtype == "float16" || dtype == "int16" then 2
    else if dtype == "int8" || dtype == "uint8" || dtype == "bool" then 1
    else 0
  }

  predicate Allowed(dtype: string) { ItemSize(dtype) > 0 }

  function ParamEstimate(hp: Hyper): int {
    var din := hp.c * hp.demb;
    VOCAB * hp.demb + din * hp.experts
    + hp.experts * (din * hp.h + hp.h + hp.h * hp.out + hp.out) + hp.out * VOCAB
  }

  predicate HyperInRange(hp: Hyper) {
    && 1 <= hp.c <= MAX_HYPER && 1 <= hp.demb <= MAX_HYPER && 1 <= hp.h <= MAX_HYPER
    && 1 <= hp.out <= MAX_HYPER && 1 <= hp.experts <= MAX_HYPER
  }

  predicate HyperOk(hp: Hyper, c: Caps) { HyperInRange(hp) && ParamEstimate(hp) <= c.modelParams }

  // ---------------------------------------------------------------- children

  predicate Atom(j: Json) { !j.JArr? && !j.JObj? }

  function JArity(j: Json): nat {
    match j
    case JArr(items) => |items|
    case JObj(fields) => |fields|
    case _ => 0
  }

  function JItem(j: Json, i: nat): (r: Json)
    requires i < JArity(j)
    ensures r < j
  {
    match j
    case JArr(items) => items[i]
    case JObj(fields) => fields[i].val
  }

  function Arity(v: Value): nat {
    match v
    case Dict(entries) => |entries|
    case Tuple(parts) => |parts|
    case List(parts) => |parts|
    case Model(_, _) => 1
    case _ => 0
  }

  function Item(v: Value, i: nat): (r: Value)
    requires i < Arity(v)
    ensures r < v
  {
    match v
    case Dict(entries) => entries[i].val
    case Tuple(parts) => parts[i]
    case List(parts) => parts[i]
    case Model(_, params) => params
  }

  /** The value of a field; a parsed object has each key once. */
  function FindFrom(j: Json, key: string, n: nat): (r: Option<Json>)
    requires j.JObj? && n <= |j.fields|
    ensures r.Some? ==> r.value < j
    decreases n
  {
    if n == 0 then None
    else if j.fields[n - 1].key == key then Some(j.fields[n - 1].val)
    else FindFrom(j, key, n - 1)
  }

  function Find(j: Json, key: string): (r: Option<Json>)
    ensures r.Some? ==> r.value < j
  {
    if j.JObj? then FindFrom(j, key, |j.fields|) else None
  }

  // ---------------------------------------------------------------- encoding

  datatype Encoded = Encoded(node: Json, buffers: seq<Bytes>)
  datatype EncodedItems = EncodedItems(nodes: seq<Json>, buffers: seq<Bytes>)

  function JNats(shape: seq<nat>): (r: seq<Json>)
    ensures |r| == |shape|
  {
    seq(|shape|, i requires 0 <= i < |shape| => JInt(shape[i]))
  }

  function ArrayNode(idx: nat, dtype: string, shape: seq<nat>): Json {
    JObj([Field("$nd", JInt(idx)), Field("shape", JArr(JNats(shape))), Field("dtype", JStr(dtype))])
  }

  function HyperNode(hp: Hyper): Json {
    JObj([Field("C", JInt(hp.c)), Field("Demb", JInt(hp.demb)), Field("H", JInt(hp.h)), Field("Do", JInt(hp.out)),
          Field("E", JInt(hp.experts))])
  }

  function Keyed(entries: seq<Entry>, nodes: seq<Json>): (r: seq<Field>)
    requires |nodes| == |entries|
    ensures |r| == |entries|
  {
    seq(|entries|, i requires 0 <= i < |entries| => Field(entries[i].key, nodes[i]))
  }

  /** The node of a container, from the nodes of its children. */
  function Wrap(v: Value, nodes: seq<Json>): Json
    requires |nodes| == Arity(v) && (v.Dict? || v.Tuple? || v.List? || v.Model?)
  {
    match v
    case Dict(entries) => JObj([Field("$d", JObj(Keyed(entries, nodes)))])
    case Tuple(_) => JObj([Field("$t", JArr(nodes))])
    case List(_) => JObj([Field("$l", JArr(nodes))])
    case Model(hp, _) => JObj([Field("$moelm", JObj([Field("hp", HyperNode(hp)), Field("p", nodes[0])]))])
  }

  /** A model's parameters are a dict. */
  predicate ModelDict(v: Value) { v.Model? ==> v.params.Dict? }

  /** `_enc`: the node of a value, appending its array buffers. */
  function Enc(v: Value, buffers: seq<Bytes>): Result<Encoded>
    decreases v
  {
    match v
    case Scalar(j) => if Atom(j) then Ok(Encoded(JObj([Field("$v", j)]), buffers)) else Err("unserializable type")
    case Array(dtype, shape, bytes) =>
      if Allowed(dtype) then Ok(Encoded(ArrayNode(|buffers|, dtype, Contiguous(shape)), buffers + [bytes]))
      else Err("disallowed array dtype")
    case _ =>
      if !ModelDict(v) then Err("model parameters are a dict")
      else
        match EncItems(v, Arity(v), buffers)
        case Err(e) => Err(e)
        case Ok(r) => Ok(Encoded(Wrap(v, r.nodes), r.buffers))
  }

  function EncItems(v: Value, n: nat, buffers: seq<Bytes>): (r: Result<EncodedItems>)
    requires n <= Arity(v)
    ensures r.Ok? ==> |r.value.nodes| == n
    decreases v, n
  {
    if n == 0 then Ok(EncodedItems([], buffers))
    else
      match EncItems(v, n - 1, buffers)
      case Err(e) => Err(e)
      case Ok(r) =>
        match Enc(Item(v, n - 1), r.buffers)
        case Err(e) => Err(e)
        case Ok(x) => Ok(EncodedItems(r.nodes + [x.node], x.buffers))
  }

  /** The shared list of raw buffers that encoding appends to. */
  class BufferList {
    var items: seq<Bytes>

    constructor ()
      ensures items == []
    {
      items := [];
    }
  }

  lemma {:induction false} EncFailsEarly(v: Value, n: nat, m: nat, buffers: seq<Bytes>)
    requires n <= m <= Arity(v) && EncItems(v, n, buffers).Err?
    ensures EncItems(v, m, buffers).Err?
  {
    if n < m {
      EncFailsEarly(v, n, m - 1, buffers);
    }
  }

  lemma EncItemsNext(v: Value, i: nat, buffers: seq<Bytes>, done: EncodedItems)
    requires i < Arity(v) && EncItems(v, i, buffers) == Ok(done)
    ensures match Enc(Item(v, i), done.buffers)
            case Ok(e) => EncItems(v, i + 1, buffers) == Ok(EncodedItems(done.nodes + [e.node], e.buffers))
            case Err(_) => EncItems(v, Arity(v), buffers).Err?
  {
    hide Enc;
    if Enc(Item(v, i), done.buffers).Err? {
      EncFailsEarly(v, i + 1, Arity(v), buffers);
    }
  }

  lemma NoneEncoded(v: Value, buffers: seq<Bytes>)
    ensures EncItems(v, 0, buffers) == Ok(EncodedItems([], buffers))
  {
  }

  method EncodeItems(v: Value, buffers: BufferList) returns (r: Result<seq<Json>>)
    modifies buffers
    ensures match EncItems(v, Arity(v), old(buffers.items))
            case Ok(e) => r == Ok(e.nodes) && buffers.items == e.buffers
            case Err(_) => r.Err?
    decreases v, 0
  {
    hide Enc, EncItems;
    var nodes := [];
    NoneEncoded(v, buffers.items);
    for i := 0 to Arity(v)
      invariant EncItems(v, i, old(buffers.items)) == Ok(EncodedItems(nodes, buffers.items))
    {
      EncItemsNext(v, i, old(buffers.items), EncodedItems(nodes, buffers.items));
      var x := EncodeValue(Item(v, i), buffers);
      if x.Err? {
        return Err(x.reason);
      }
      nodes := nodes + [x.value];
    }
    return Ok(nodes);
  }

  method EncodeValue(v: Value, buffers: BufferList) returns (r: Result<Json>)
    modifies buffers
    ensures match Enc(v, old(buffers.items))
            case Ok(e) => r == Ok(e.node) && buffers.items == e.buffers
            case Err(_) => r.Err?
    decreases v, 1
  {
    hide EncItems;
    match v
    case Scalar(j) =>
      r := if Atom(j) then Ok(JObj([Field("$v", j)])) else Err("unserializable type");
    case Array(dtype, shape, bytes) =>
      if !Allowed(dtype) {
        return Err("disallowed array dtype");
      }
      buffers.items := buffers.items + [bytes];
      r := Ok(ArrayNode(|buffers.items| - 1, dtype, Contiguous(shape)));
    case _ =>
      if !ModelDict(v) {
        return Err("model parameters are a dict");
      }
      var nodes := EncodeItems(v, buffers);
      r := if nodes.Err? then Err(nodes.reason) else Ok(Wrap(v, nodes.value));
  }

  // ---------------------------------------------------------------- decoding

  datatype Budget = Budget(nodes: nat, elems: nat)
  datatype Decoded = Decoded(value: Value, budget: Budget)
  datatype DecodedItems = DecodedItems(values: seq<Value>, budget: Budget)

  /** isinstance(x, int): booleans are ints. */
  function IntOf(j: Option<Json>): Option<int> {
    match j
    case Some(JInt(i)) => Some(i)
    case Some(JBool(b)) => Some(if b then 1 else 0)
    case _ => None
  }

  /** The dimensions of a shape, if they are all non-negative ints. */
  function Dims(items: seq<Json>): Option<seq<nat>> {
    if items == [] then Some([])
    else
      var rest, d := Dims(items[..|items| - 1]), IntOf(Some(items[|items| - 1]));
      if rest.Some? && d.Some? && d.value >= 0 then Some(rest.value + [d.value]) else None
  }

  function DecArray(c: Caps, node: Json, buffers: seq<Bytes>, b: Budget): Result<Decoded> {
    var dtype, shape, idx := Find(node, "dtype"), Find(node, "shape"), IntOf(Find(node, "$nd"));
    if dtype.None? || !dtype.value.JStr? || !Allowed(dtype.value.s) then Err("disallowed array dtype")
    else if shape.None? || !shape.value.JArr? || idx.None? || !(0 <= idx.value < |buffers|) then
      Err("malformed $nd metadata")
    else
      var dims := Dims(shape.value.items);
      if dims.None? then Err("invalid array shape")
      else
        var buf, size, count := buffers[idx.value], ItemSize(dtype.value.s), Product(dims.value);
        if |buf| % size != 0 then Err("buffer size must be a multiple of element size")
        else if count != |buf| / size then Err("shape/buffer size mismatch")
        else if b.elems + count > c.elems then Err("element budget exceeded")
        else if |dims.value| > MAX_DIMENSIONS then Err("maximum supported dimension exceeded")
        else Ok(Decoded(Array(dtype.value.s, dims.value, buf), b.(elems := b.elems + count)))
  }

  function HyperOf(hp: Json): Option<Hyper> {
    var c, demb, h, out, e := IntOf(Find(hp, "C")), IntOf(Find(hp, "Demb")), IntOf(Find(hp, "H")), IntOf(Find(hp, "Do")),
                              IntOf(Find(hp, "E"));
    if c.Some? && demb.Some? && h.Some? && out.Some? && e.Some?
    then Some(Hyper(c.value, demb.value, h.value, out.value, e.value)) else None
  }

  /** An empty string or object iterates like an empty list. */
  predicate EmptyIterable(j: Json) { j == JStr("") || j == JObj([]) || j == JArr([]) }

  function Entries(fields: seq<Field>, values: seq<Value>): (r: seq<Entry>)
    requires |values| == |fields|
    ensures |r| == |fields|
  {
    seq(|fields|, i requires 0 <= i < |fields| => Entry(fields[i].key, values[i]))
  }

  /** `_dec` */
  function Dec(c: Caps, node: Json, buffers: seq<Bytes>, depth: nat, b: Budget): Result<Decoded>
    decreases node
  {
    if depth > MAX_DEPTH then Err("max nesting depth exceeded")
    else if b.nodes + 1 > c.nodes then Err("node budget exceeded")
    else if !node.JObj? || node.fields == [] then Err("malformed node")
    else
      var b1 := b.(nodes := b.nodes + 1);
      var v, d, t, l, m := Find(node, "$v"), Find(node, "$d"), Find(node, "$t"), Find(node, "$l"), Find(node, "$moelm");
      if v.Some? then Ok(Decoded(Scalar(v.value), b1))
      else if Find(node, "$nd").Some? then DecArray(c, node, buffers, b1)
      else if d.Some? then
        if !d.value.JObj? then Err("not a dict")
        else
          match DecItems(c, d.value, |d.value.fields|, buffers, depth + 1, b1)
          case Err(e) => Err(e)
          case Ok(r) => Ok(Decoded(Dict(Entries(d.value.fields, r.values)), r.budget))
      else if t.Some? then
        if EmptyIterable(t.value) then Ok(Decoded(Tuple([]), b1))
        else if !t.value.JArr? then Err("malformed node")
        else
          match DecItems(c, t.value, |t.value.items|, buffers, depth + 1, b1)
          case Err(e) => Err(e)
          case Ok(r) => Ok(Decoded(Tuple(r.values), r.budget))
      else if l.Some? then
        if EmptyIterable(l.value) then Ok(Decoded(List([]), b1))
        else if !l.value.JArr? then Err("malformed node")
        else
          match DecItems(c, l.value, |l.value.items|, buffers, depth + 1, b1)
          case Err(e) => Err(e)
          case Ok(r) => Ok(Decoded(List(r.values), r.budget))
      else if m.Some? then
        var hp, p := Find(m.value, "hp"), Find(m.value, "p");
        var hyper := if hp.Some? then HyperOf(hp.value) else None;
        if hyper.None? || !HyperInRange(hyper.value) then Err("invalid MoELM hyperparameter")
        else if ParamEstimate(hyper.value) > c.modelParams then Err("MoELM too large to reconstruct")
        else if p.None? then Err("missing model parameters")
        else
          match Dec(c, p.value, buffers, depth + 1, b1)
          case Err(e) => Err(e)
          case Ok(r) => Ok(Decoded(Model(hyper.value, r.value), r.budget))
      else Err("unknown tag")
  }

  function DecItems(c: Caps, j: Json, n: nat, buffers: seq<Bytes>, depth: nat, b: Budget): (r: Result<DecodedItems>)
    requires n <= JArity(j)
    ensures r.Ok? ==> |r.value.values| == n
    decreases j, n
  {
    if n == 0 then Ok(DecodedItems([], b))
    else
      match DecItems(c, j, n - 1, buffers, depth, b)
      case Err(e) => Err(e)
      case Ok(r) =>
        match Dec(c, JItem(j, n - 1), buffers, depth, r.budget)
        case Err(e) => Err(e)
        case Ok(x) => Ok(DecodedItems(r.values + [x.value], x.budget))
  }

  /** The counters every node of one message is charged to. */
  class Counter {
    var nodes: nat
    var elems: nat

    constructor ()
      ensures Value() == Budget(0, 0)
    {
      nodes, elems := 0, 0;
    }

    function Value(): Budget
      reads this
    {
      Budget(nodes, elems)
    }
  }

  lemma {:induction false} DecFailsEarly(c: Caps, j: Json, n: nat, m: nat, buffers: seq<Bytes>, depth: nat, b: Budget)
    requires n <= m <= JArity(j) && DecItems(c, j, n, buffers, depth, b).Err?
    ensures DecItems(c, j, m, buffers, depth, b).Err?
  {
    if n < m {
      DecFailsEarly(c, j, n, m - 1, buffers, depth, b);
    }
  }

  ghost predicate DidDecode(spec: Result<Decoded>, r: Result<Value>, after: Budget) {
    match spec
    case Ok(d) => r == Ok(d.value) && after == d.budget
    case Err(_) => r.Err?
  }

  lemma DecItemsNext(c: Caps, j: Json, i: nat, buffers: seq<Bytes>, depth: nat, b: Budget, done: DecodedItems)
    requires i < JArity(j) && DecItems(c, j, i, buffers, depth, b) == Ok(done)
    ensures match Dec(c, JItem(j, i), buffers, depth, done.budget)
            case Ok(d) => DecItems(c, j, i + 1, buffers, depth, b) == Ok(DecodedItems(done.values + [d.value], d.budget))
            case Err(_) => DecItems(c, j, JArity(j), buffers, depth, b).Err?
  {
    hide Dec;
    if Dec(c, JItem(j, i), buffers, depth, done.budget).Err? {
      DecFailsEarly(c, j, i + 1, JArity(j), buffers, depth, b);
    }
  }

  method DecodeItems(c: Caps, j: Json, buffers: seq<Bytes>, depth: nat, budget: Counter) returns (r: Result<seq<Value>>)
    modifies budget
    ensures match DecItems(c, j, JArity(j), buffers, depth, old(budget.Value()))
            case Ok(d) => r == Ok(d.values) && budget.Value() == d.budget
            case Err(_) => r.Err?
    decreases j
  {
    hide Dec, DecItems;
    var values := [];
    NoItems(c, j, buffers, depth, budget.Value());
    for i := 0 to JArity(j)
      invariant DecItems(c, j, i, buffers, depth, old(budget.Value())) == Ok(DecodedItems(values, budget.Value()))
    {
      DecItemsNext(c, j, i, buffers, depth, old(budget.Value()), DecodedItems(values, budget.Value()));
      var x := DecodeNode(c, JItem(j, i), buffers, depth, budget);
      if x.Err? {
        return Err(x.reason);
      }
      values := values + [x.value];
    }
    return Ok(values);
  }

  method DecodeNode(c: Caps, node: Json, buffers: seq<Bytes>, depth: nat, budget: Counter) returns (r: Result<Value>)
    modifies budget
    ensures DidDecode(Dec(c, node, buffers, depth, old(budget.Value())), r, budget.Value())
    decreases node
  {
    hide FindFrom, DecArray, ParamEstimate, HyperInRange, HyperOf, DecItems;
    if depth > MAX_DEPTH {
      return Err("max nesting depth exceeded");
    }
    if budget.nodes + 1 > c.nodes {
      return Err("node budget exceeded");
    }
    budget.nodes := budget.nodes + 1;
    if !node.JObj? || node.fields == [] {
      return Err("malformed node");
    }
    var v, d, t, l, m := Find(node, "$v"), Find(node, "$d"), Find(node, "$t"), Find(node, "$l"), Find(node, "$moelm");
    if v.Some? {
      return Ok(Scalar(v.value));
    }
    if Find(node, "$nd").Some? {
      var a := DecArray(c, node, buffers, budget.Value());
      if a.Err? {
        return Err(a.reason);
      }
      budget.nodes, budget.elems := a.value.budget.nodes, a.value.budget.elems;
      return Ok(a.value.value);
    }
    if d.Some? {
      if !d.value.JObj? {
        return Err("not a dict");
      }
      var values := DecodeItems(c, d.value, buffers, depth + 1, budget);
      return if values.Err? then Err(values.reason) else Ok(Dict(Entries(d.value.fields, values.value)));
    }
    if t.Some? {
      if EmptyIterable(t.value) {
        return Ok(Tuple([]));
      }
      if !t.value.JArr? {
        return Err("malformed node");
      }
      var values := DecodeItems(c, t.value, buffers, depth + 1, budget);
      return if values.Err? then Err(values.reason) else Ok(Tuple(values.value));
    }
    if l.Some? {
      if EmptyIterable(l.value) {
        return Ok(List([]));
      }
      if !l.value.JArr? {
        return Err("malformed node");
      }
      var values := DecodeItems(c, l.value, buffers, depth + 1, budget);
      return if values.Err? then Err(values.reason) else Ok(List(values.value));
    }
    if m.None? {
      return Err("unknown tag");
    }
    var hp, p := Find(m.value, "hp"), Find(m.value, "p");
    var hyper := if hp.Some? then HyperOf(hp.value) else None;
    if hyper.None? || !HyperInRange(hyper.value) {
      return Err("invalid MoELM hyperparameter");
    }
    if ParamEstimate(hyper.value) > c.modelParams {
      return Err("MoELM too large to reconstruct");
    }
    if p.None? {
      return Err("missing model parameters");
    }
    var x := DecodeNode(c, p.value, buffers, depth + 1, budget);
    return if x.Err? then Err(x.reason) else Ok(Model(hyper.value, x.value));
  }

  // ---------------------------------------------------------------- sizes

  function Nodes(v: Value): nat
    decreases v
  {
    1 + NodesUpTo(v, Arity(v))
  }

  function NodesUpTo(v: Value, n: nat): nat
    requires n <= Arity(v)
    decreases v, n
  {
    if n == 0 then 0 else NodesUpTo(v, n - 1) + Nodes(Item(v, n - 1))
  }

  function Elems(v: Value): nat
    decreases v
  {
    if v.Array? then Product(v.shape) else ElemsUpTo(v, Arity(v))
  }

  function ElemsUpTo(v: Value, n: nat): nat
    requires n <= Arity(v)
    decreases v, n
  {
    if n == 0 then 0 else ElemsUpTo(v, n - 1) + Elems(Item(v, n - 1))
  }

  /** Levels below the value itself. */
  function Height(v: Value): nat
    decreases v
  {
    HeightUpTo(v, Arity(v))
  }

  function HeightUpTo(v: Value, n: nat): nat
    requires n <= Arity(v)
    decreases v, n
  {
    if n == 0 then 0 else Max(HeightUpTo(v, n - 1), 1 + Height(Item(v, n - 1)))
  }

  // ---------------------------------------------------------------- every decoded value is within budget

  /** What decoding charged for a value, and that it fits. */
  ghost predicate Charged(c: Caps, v: Value, depth: nat, before: Budget, after: Budget) {
    && after.nodes == before.nodes + Nodes(v) <= c.nodes
    && after.elems == before.elems + Elems(v)
    && (before.elems <= c.elems ==> after.elems <= c.elems)
    && depth + Height(v) <= MAX_DEPTH
  }

  ghost predicate ChargedItems(c: Caps, values: seq<Value>, depth: nat, before: Budget, after: Budget) {
    && after.nodes == before.nodes + SeqNodes(values)
    && (before.nodes <= c.nodes ==> after.nodes <= c.nodes)
    && after.elems == before.elems + SeqElems(values)
    && (before.elems <= c.elems ==> after.elems <= c.elems)
    && (values != [] ==> depth + SeqHeight(values) <= MAX_DEPTH)
  }

  function SeqNodes(s: seq<Value>): nat { if s == [] then 0 else SeqNodes(s[..|s| - 1]) + Nodes(s[|s| - 1]) }

  function SeqElems(s: seq<Value>): nat { if s == [] then 0 else SeqElems(s[..|s| - 1]) + Elems(s[|s| - 1]) }

  function SeqHeight(s: seq<Value>): nat {
    if s == [] then 0 else Max(SeqHeight(s[..|s| - 1]), Height(s[|s| - 1]))
  }

  /** A container's sizes from its children's. */
  lemma {:induction false} SizesUpTo(v: Value, values: seq<Value>, n: nat)
    requires n <= Arity(v) == |values| && forall i :: 0 <= i < |values| ==> Item(v, i) == values[i]
    ensures NodesUpTo(v, n) == SeqNodes(values[..n]) && ElemsUpTo(v, n) == SeqElems(values[..n])
    ensures HeightUpTo(v, n) == if n == 0 then 0 else 1 + SeqHeight(values[..n])
  {
    hide Nodes, Elems, Height, Item;
    if n > 0 {
      SizesUpTo(v, values, n - 1);
      assert values[..n][..n - 1] == values[..n - 1];
    }
  }

  lemma ContainerSizes(v: Value, values: seq<Value>)
    requires !v.Array? && Arity(v) == |values| && forall i :: 0 <= i < |values| ==> Item(v, i) == values[i]
    ensures Nodes(v) == 1 + SeqNodes(values) && Elems(v) == SeqElems(values)
    ensures Height(v) == if values == [] then 0 else 1 + SeqHeight(values)
  {
    SizesUpTo(v, values, |values|);
    assert values[..|values|] == values;
    hide NodesUpTo, ElemsUpTo, HeightUpTo, SeqNodes, SeqElems, SeqHeight, Item;
  }

  lemma ContainerCharged(c: Caps, v: Value, values: seq<Value>, depth: nat, b: Budget, after: Budget)
    requires !v.Array? && Arity(v) == |values| && forall i :: 0 <= i < |values| ==> Item(v, i) == values[i]
    requires depth <= MAX_DEPTH && b.nodes + 1 <= c.nodes
    requires ChargedItems(c, values, depth + 1, b.(nodes := b.nodes + 1), after)
    ensures Charged(c, v, depth, b, after)
  {
    ContainerSizes(v, values);
    hide Nodes, Elems, Height, SeqNodes, SeqElems, SeqHeight, Item;
  }

  lemma SnocCharged(c: Caps, values: seq<Value>, x: Value, depth: nat, b: Budget, mid: Budget, after: Budget)
    requires ChargedItems(c, values, depth, b, mid) && Charged(c, x, depth, mid, after)
    ensures ChargedItems(c, values + [x], depth, b, after)
  {
    SnocSizes(values, x);
    hide Nodes, Elems, Height, SeqNodes, SeqElems;
    assert values == [] ==> SeqHeight(values) == 0;
  }

  lemma SnocSizes(values: seq<Value>, x: Value)
    ensures SeqNodes(values + [x]) == SeqNodes(values) + Nodes(x)
    ensures SeqElems(values + [x]) == SeqElems(values) + Elems(x)
    ensures SeqHeight(values + [x]) == Max(SeqHeight(values), Height(x))
  {
    assert (values + [x])[..|values + [x]| - 1] == values;
    hide Nodes, Elems, Height;
  }

  lemma LeafSizes(v: Value)
    requires v.Scalar? || v.Array?
    ensures Nodes(v) == 1 && Height(v) == 0 && Elems(v) == if v.Array? then Product(v.shape) else 0
  {
  }

  lemma NoItemsCharged(c: Caps, depth: nat, b: Budget)
    ensures ChargedItems(c, [], depth, b, b)
  {
  }

  lemma ArrayCharged(c: Caps, node: Json, buffers: seq<Bytes>, b: Budget)
    ensures var r := DecArray(c, node, buffers, b);
            r.Ok? ==> && r.value.value.Array?
                      && r.value.budget == b.(elems := b.elems + Product(r.value.value.shape))
                      && r.value.budget.elems <= c.elems
  {
    hide Find, IntOf, Dims, Product, ItemSize;
  }

  /** Whatever frame arrives, a decoded value was charged in full, node by node and element by element, however often
      it refers to one buffer, and lies within every cap. */
  lemma {:induction false} DecodedWithinBudget(c: Caps, node: Json, buffers: seq<Bytes>, depth: nat, b: Budget)
    requires Dec(c, node, buffers, depth, b).Ok?
    ensures var d := Dec(c, node, buffers, depth, b).value;
            Charged(c, d.value, depth, b, d.budget)
    decreases node
  {
    hide Find, DecArray, HyperOf, ParamEstimate, HyperInRange, Charged, ChargedItems, DecItems;
    var b1 := b.(nodes := b.nodes + 1);
    var v, d, t, l, m := Find(node, "$v"), Find(node, "$d"), Find(node, "$t"), Find(node, "$l"), Find(node, "$moelm");
    var got := Dec(c, node, buffers, depth, b).value;
    NoItemsCharged(c, depth + 1, b1);
    if v.Some? {
      LeafSizes(got.value);
      LeafCharged(c, got.value, depth, b, got.budget);
    } else if Find(node, "$nd").Some? {
      ArrayCharged(c, node, buffers, b1);
      LeafSizes(got.value);
      LeafCharged(c, got.value, depth, b, got.budget);
    } else if d.Some? {
      ItemsWithinBudget(c, d.value, JArity(d.value), buffers, depth + 1, b1);
      ContainerCharged(c, got.value, DecItems(c, d.value, |d.value.fields|, buffers, depth + 1, b1).value.values, depth, b,
                       got.budget);
    } else if t.Some? {
      if !EmptyIterable(t.value) {
        ItemsWithinBudget(c, t.value, JArity(t.value), buffers, depth + 1, b1);
      }
      ContainerCharged(c, got.value, got.value.parts, depth, b, got.budget);
    } else if l.Some? {
      if !EmptyIterable(l.value) {
        ItemsWithinBudget(c, l.value, JArity(l.value), buffers, depth + 1, b1);
      }
      ContainerCharged(c, got.value, got.value.parts, depth, b, got.budget);
    } else {
      var p := Find(m.value, "p").value;
      DecodedWithinBudget(c, p, buffers, depth + 1, b1);
      var x := Dec(c, p, buffers, depth + 1, b1).value;
      SnocCharged(c, [], x.value, depth + 1, b1, b1, x.budget);
      assert [] + [x.value] == [x.value];
      ContainerCharged(c, got.value, [x.value], depth, b, got.budget);
    }
  }

  lemma LeafCharged(c: Caps, v: Value, depth: nat, b: Budget, after: Budget)
    requires depth <= MAX_DEPTH && b.nodes + 1 <= c.nodes && Nodes(v) == 1 && Height(v) == 0
    requires after == Budget(b.nodes + 1, b.elems + Elems(v)) && (Elems(v) > 0 ==> after.elems <= c.elems)
    ensures Charged(c, v, depth, b, after)
  {
    hide Nodes, Elems, Height;
  }

  lemma {:induction false} ItemsWithinBudget(c: Caps, j: Json, n: nat, buffers: seq<Bytes>, depth: nat, b: Budget)
    requires n <= JArity(j) && DecItems(c, j, n, buffers, depth, b).Ok?
    ensures var d := DecItems(c, j, n, buffers, depth, b).value;
            ChargedItems(c, d.values, depth, b, d.budget)
    decreases j, n
  {
    hide Dec, Charged, ChargedItems, JItem;
    if n == 0 {
      NoItemsCharged(c, depth, b);
    } else {
      ItemsWithinBudget(c, j, n - 1, buffers, depth, b);
      var r := DecItems(c, j, n - 1, buffers, depth, b).value;
      DecodedWithinBudget(c, JItem(j, n - 1), buffers, depth, r.budget);
      var x := Dec(c, JItem(j, n - 1), buffers, depth, r.budget).value;
      SnocCharged(c, r.values, x.value, depth, b, r.budget, x.budget);
    }
  }

  // ---------------------------------------------------------------- what the node budget does not see

  /** The objects inside a payload. */
  function JsonNodes(j: Json): nat
    decreases j
  {
    1 + JsonNodesUpTo(j, JArity(j))
  }

  function JsonNodesUpTo(j: Json, n: nat): nat
    requires n <= JArity(j)
    decreases j, n
  {
    if n == 0 then 0 else JsonNodesUpTo(j, n - 1) + JsonNodes(JItem(j, n - 1))
  }

  /** The objects of a decoded value, payloads included. */
  function TrueNodes(v: Value): nat
    decreases v
  {
    if v.Scalar? then JsonNodes(v.json) else 1 + TrueNodesUpTo(v, Arity(v))
  }

  function TrueNodesUpTo(v: Value, n: nat): nat
    requires n <= Arity(v)
    decreases v, n
  {
    if n == 0 then 0 else TrueNodesUpTo(v, n - 1) + TrueNodes(Item(v, n - 1))
  }

  /** No scalar holds a container with something in it. */
  predicate Plain(v: Value)
    decreases v
  {
    if v.Scalar? then JArity(v.json) == 0 else PlainUpTo(v, Arity(v))
  }

  predicate PlainUpTo(v: Value, n: nat)
    requires n <= Arity(v)
    decreases v, n
  {
    n == 0 || (PlainUpTo(v, n - 1) && Plain(Item(v, n - 1)))
  }

  lemma {:induction false} JsonNodesPositive(j: Json, n: nat)
    requires n <= JArity(j)
    ensures JsonNodesUpTo(j, n) >= n
    decreases j, n
  {
    if n > 0 {
      JsonNodesPositive(j, n - 1);
    }
  }

  lemma {:induction false} TrueNodesAtLeast(v: Value)
    ensures TrueNodes(v) >= Nodes(v) && (TrueNodes(v) == Nodes(v) <==> Plain(v))
    decreases v
  {
    if v.Scalar? {
      JsonNodesPositive(v.json, JArity(v.json));
      LeafSizes(v);
    } else {
      TrueNodesAtLeastUpTo(v, Arity(v));
    }
  }

  lemma {:induction false} TrueNodesAtLeastUpTo(v: Value, n: nat)
    requires n <= Arity(v)
    ensures TrueNodesUpTo(v, n) >= NodesUpTo(v, n) && (TrueNodesUpTo(v, n) == NodesUpTo(v, n) <==> PlainUpTo(v, n))
    decreases v, n
  {
    hide Nodes, TrueNodes, Plain, Item;
    if n > 0 {
      TrueNodesAtLeastUpTo(v, n - 1);
      TrueNodesAtLeast(Item(v, n - 1));
    }
  }

  /** The same condition read off the frame, before decoding it. */
  predicate AtomicPayloads(node: Json)
    decreases node
  {
    var v, d, t, l, m := Find(node, "$v"), Find(node, "$d"), Find(node, "$t"), Find(node, "$l"), Find(node, "$moelm");
    if v.Some? then JArity(v.value) == 0
    else if Find(node, "$nd").Some? then true
    else if d.Some? then AtomicItems(d.value, JArity(d.value))
    else if t.Some? then AtomicItems(t.value, JArity(t.value))
    else if l.Some? then AtomicItems(l.value, JArity(l.value))
    else if m.Some? then
      var p := Find(m.value, "p");
      p.Some? ==> AtomicPayloads(p.value)
    else true
  }

  predicate AtomicItems(j: Json, n: nat)
    requires n <= JArity(j)
    decreases j, n
  {
    n == 0 || (AtomicItems(j, n - 1) && AtomicPayloads(JItem(j, n - 1)))
  }

  predicate AllPlain(values: seq<Value>) { values == [] || (AllPlain(values[..|values| - 1]) && Plain(values[|values| - 1])) }

  lemma {:induction false} PlainItems(v: Value, values: seq<Value>, n: nat)
    requires n <= Arity(v) == |values| && forall i :: 0 <= i < |values| ==> Item(v, i) == values[i]
    ensures PlainUpTo(v, n) <==> AllPlain(values[..n])
  {
    hide Plain, Item;
    if n > 0 {
      PlainItems(v, values, n - 1);
      assert values[..n][..n - 1] == values[..n - 1];
    }
  }

  lemma ContainerPlain(v: Value, values: seq<Value>)
    requires !v.Scalar? && Arity(v) == |values| && forall i :: 0 <= i < |values| ==> Item(v, i) == values[i]
    ensures Plain(v) <==> AllPlain(values)
  {
    PlainItems(v, values, |values|);
    assert values[..|values|] == values;
    hide PlainUpTo, AllPlain;
  }

  lemma {:induction false} PlainExactly(c: Caps, node: Json, buffers: seq<Bytes>, depth: nat, b: Budget)
    requires Dec(c, node, buffers, depth, b).Ok?
    ensures Plain(Dec(c, node, buffers, depth, b).value.value) <==> AtomicPayloads(node)
    decreases node
  {
    hide Find, DecArray, HyperOf, ParamEstimate, HyperInRange, DecItems, Plain, AtomicItems, AllPlain;
    var b1 := b.(nodes := b.nodes + 1);
    var v, d, t, l, m := Find(node, "$v"), Find(node, "$d"), Find(node, "$t"), Find(node, "$l"), Find(node, "$moelm");
    var got := Dec(c, node, buffers, depth, b).value.value;
    NonePlain();
    if v.Some? {
      LeafPlain(got);
    } else if Find(node, "$nd").Some? {
      ArrayCharged(c, node, buffers, b1);
      LeafPlain(got);
    } else if d.Some? {
      PlainItemsExactly(c, d.value, JArity(d.value), buffers, depth + 1, b1);
      ContainerPlain(got, DecItems(c, d.value, |d.value.fields|, buffers, depth + 1, b1).value.values);
    } else if t.Some? {
      if EmptyIterable(t.value) {
        NoAtomicItems(t.value);
      } else {
        PlainItemsExactly(c, t.value, JArity(t.value), buffers, depth + 1, b1);
      }
      ContainerPlain(got, got.parts);
    } else if l.Some? {
      if EmptyIterable(l.value) {
        NoAtomicItems(l.value);
      } else {
        PlainItemsExactly(c, l.value, JArity(l.value), buffers, depth + 1, b1);
      }
      ContainerPlain(got, got.parts);
    } else {
      var p := Find(m.value, "p").value;
      PlainExactly(c, p, buffers, depth + 1, b1);
      var x := Dec(c, p, buffers, depth + 1, b1).value.value;
      OnePlain(x);
      ContainerPlain(got, [x]);
    }
  }

  lemma LeafPlain(v: Value)
    ensures v.Scalar? ==> (Plain(v) <==> JArity(v.json) == 0)
    ensures v.Array? ==> Plain(v)
  {
  }

  lemma NonePlain()
    ensures AllPlain([])
  {
  }

  lemma OnePlain(x: Value)
    ensures AllPlain([x]) <==> Plain(x)
  {
    assert [x][..0] == [];
    hide Plain;
  }

  lemma NoAtomicItems(j: Json)
    requires EmptyIterable(j)
    ensures AtomicItems(j, JArity(j))
  {
  }

  lemma {:induction false} PlainItemsExactly(c: Caps, j: Json, n: nat, buffers: seq<Bytes>, depth: nat, b: Budget)
    requires n <= JArity(j) && DecItems(c, j, n, buffers, depth, b).Ok?
    ensures AllPlain(DecItems(c, j, n, buffers, depth, b).value.values) <==> AtomicItems(j, n)
    decreases j, n
  {
    hide Dec, JItem, Plain, AtomicPayloads;
    if n > 0 {
      PlainItemsExactly(c, j, n - 1, buffers, depth, b);
      var r := DecItems(c, j, n - 1, buffers, depth, b).value;
      PlainExactly(c, JItem(j, n - 1), buffers, depth, r.budget);
      var all := DecItems(c, j, n, buffers, depth, b).value.values;
      assert all[..n - 1] == r.values;
    }
  }

  /** The node budget bounds every object of the decoded value exactly when no `$v` payload of the frame is a
      container with content; then the charge is the true count. */
  lemma NodeBudgetExactly(c: Caps, node: Json, buffers: seq<Bytes>)
    requires Dec(c, node, buffers, 0, Budget(0, 0)).Ok?
    ensures var d := Dec(c, node, buffers, 0, Budget(0, 0)).value;
            && (TrueNodes(d.value) == d.budget.nodes <==> AtomicPayloads(node))
            && (AtomicPayloads(node) ==> TrueNodes(d.value) <= c.nodes)
  {
    hide Dec, Nodes, TrueNodes, Elems, Height, Plain, AtomicPayloads;
    DecodedWithinBudget(c, node, buffers, 0, Budget(0, 0));
    PlainExactly(c, node, buffers, 0, Budget(0, 0));
    TrueNodesAtLeast(Dec(c, node, buffers, 0, Budget(0, 0)).value.value);
  }

  /** A list in a `$v` payload costs one node whatever its length, so the budget alone does not bound it. */
  lemma PayloadsAreNotCounted(c: Caps)
    requires c.nodes >= 1
    ensures var node := JObj([Field("$v", JArr(seq(c.nodes, _ => JNull)))]);
            && !AtomicPayloads(node)
            && Dec(c, node, [], 0, Budget(0, 0)).Ok?
            && TrueNodes(Dec(c, node, [], 0, Budget(0, 0)).value.value) > c.nodes
  {
    var payload := JArr(seq(c.nodes, _ => JNull));
    var node := JObj([Field("$v", payload)]);
    FindOnly("$v", payload);
    JsonNodesPositive(payload, c.nodes);
    assert Dec(c, node, [], 0, Budget(0, 0)) == Ok(Decoded(Scalar(payload), Budget(1, 0)));
  }

  lemma FindOnly(key: string, j: Json)
    ensures Find(JObj([Field(key, j)]), key) == Some(j)
  {
  }

  // ---------------------------------------------------------------- round trip

  /** What any Python value satisfies: a dict has each key once. */
  predicate DistinctEntries(entries: seq<Entry>) {
    forall i, j :: 0 <= i < j < |entries| ==> entries[i].key != entries[j].key
  }

  /** and an array holds as many bytes as its shape says, in no more dimensions than there can be. */
  predicate WellFormed(v: Value)
    decreases v
  {
    if v.Array? then |v.bytes| == ItemSize(v.dtype) * Product(v.shape) && |v.shape| <= MAX_DIMENSIONS
    else (v.Dict? ==> DistinctEntries(v.entries)) && WellFormedUpTo(v, Arity(v))
  }

  predicate WellFormedUpTo(v: Value, n: nat)
    requires n <= Arity(v)
    decreases v, n
  {
    n == 0 || (WellFormedUpTo(v, n - 1) && WellFormed(Item(v, n - 1)))
  }

  predicate ModelsOk(c: Caps, v: Value)
    decreases v
  {
    (v.Model? ==> HyperOk(v.hyper, c)) && ModelsUpTo(c, v, Arity(v))
  }

  predicate ModelsUpTo(c: Caps, v: Value, n: nat)
    requires n <= Arity(v)
    decreases v, n
  {
    n == 0 || (ModelsUpTo(c, v, n - 1) && ModelsOk(c, Item(v, n - 1)))
  }

  function Rebuild(v: Value, items: seq<Value>): Value
    requires |items| == Arity(v)
  {
    match v
    case Dict(entries) => Dict(seq(|entries|, i requires 0 <= i < |entries| => Entry(entries[i].key, items[i])))
    case Tuple(_) => Tuple(items)
    case List(_) => List(items)
    case Model(hp, _) => Model(hp, items[0])
    case _ => v
  }

  /** The value as it arrives: the same, but for arrays of no dimensions. */
  function Arrived(v: Value): Value
    decreases v
  {
    if v.Array? then v.(shape := Contiguous(v.shape)) else Rebuild(v, ArrivedUpTo(v, Arity(v)))
  }

  function ArrivedUpTo(v: Value, n: nat): (r: seq<Value>)
    requires n <= Arity(v)
    ensures |r| == n
    decreases v, n
  {
    if n == 0 then [] else ArrivedUpTo(v, n - 1) + [Arrived(Item(v, n - 1))]
  }

  /** Whether any array has no dimensions. */
  predicate AllShaped(v: Value)
    decreases v
  {
    if v.Array? then v.shape != [] else AllShapedUpTo(v, Arity(v))
  }

  predicate AllShapedUpTo(v: Value, n: nat)
    requires n <= Arity(v)
    decreases v, n
  {
    n == 0 || (AllShapedUpTo(v, n - 1) && AllShaped(Item(v, n - 1)))
  }

  /** It arrives unchanged exactly when every array has a dimension. */
  lemma {:induction false} ArrivesUnchanged(v: Value)
    ensures Arrived(v) == v <==> AllShaped(v)
    decreases v
  {
    if !v.Array? {
      ArrivesUnchangedUpTo(v, Arity(v));
      hide Arrived, AllShaped, ArrivedUpTo, AllShapedUpTo;
      RebuildSame(v, ArrivedUpTo(v, Arity(v)));
      ArrivedIs(v);
    }
  }

  lemma ArrivedIs(v: Value)
    requires !v.Array?
    ensures Arrived(v) == Rebuild(v, ArrivedUpTo(v, Arity(v)))
    ensures AllShaped(v) <==> AllShapedUpTo(v, Arity(v))
  {
    hide Rebuild, ArrivedUpTo, AllShapedUpTo;
  }

  lemma {:induction false} ArrivesUnchangedUpTo(v: Value, n: nat)
    requires n <= Arity(v)
    ensures (forall i :: 0 <= i < n ==> ArrivedUpTo(v, n)[i] == Item(v, i)) <==> AllShapedUpTo(v, n)
    decreases v, n
  {
    hide Arrived, AllShaped, Item;
    if n > 0 {
      ArrivesUnchangedUpTo(v, n - 1);
      ArrivesUnchanged(Item(v, n - 1));
      var a := ArrivedUpTo(v, n);
      assert a[n - 1] == Arrived(Item(v, n - 1));
      assert forall i :: 0 <= i < n - 1 ==> a[i] == ArrivedUpTo(v, n - 1)[i];
    }
  }

  lemma RebuildSame(v: Value, items: seq<Value>)
    requires !v.Array? && |items| == Arity(v)
    ensures Rebuild(v, items) == v <==> forall i :: 0 <= i < |items| ==> items[i] == Item(v, i)
  {
    match v
    case Dict(entries) =>
      var r := Rebuild(v, items).entries;
      if r == entries {
        forall i | 0 <= i < |items| ensures items[i] == Item(v, i) {
          assert r[i] == entries[i];
        }
      }
      if forall i :: 0 <= i < |items| ==> items[i] == Item(v, i) {
        forall i | 0 <= i < |items| ensures r[i] == entries[i] {
          assert items[i] == Item(v, i);
        }
        assert r == entries;
      }
    case Tuple(parts) => SeqSame(v, items, parts);
    case List(parts) => SeqSame(v, items, parts);
    case _ =>
  }

  lemma SeqSame(v: Value, items: seq<Value>, parts: seq<Value>)
    requires |items| == |parts| == Arity(v) && forall i :: 0 <= i < |parts| ==> Item(v, i) == parts[i]
    ensures items == parts <==> forall i :: 0 <= i < |items| ==> items[i] == Item(v, i)
  {
  }

  /** Whether a value fits what is left of the caps. */
  ghost predicate Fits(c: Caps, v: Value, depth: nat, b: Budget) {
    && depth + Height(v) <= 64 && b.nodes + Nodes(v) <= c.nodes && b.elems + Elems(v) <= c.elems
    && ModelsOk(c, v)
  }

  ghost predicate FitsUpTo(c: Caps, v: Value, n: nat, depth: nat, b: Budget)
    requires n <= Arity(v)
  {
    && depth + HeightUpTo(v, n) <= MAX_DEPTH + 1 && b.nodes + NodesUpTo(v, n) <= c.nodes
    && b.elems + ElemsUpTo(v, n) <= c.elems && ModelsUpTo(c, v, n)
  }

  ghost predicate Outcome(c: Caps, v: Value, depth: nat, b: Budget, r: Result<Decoded>) {
    if Fits(c, v, depth, b) then r == Ok(Decoded(Arrived(v), Budget(b.nodes + Nodes(v), b.elems + Elems(v)))) else r.Err?
  }

  ghost predicate OutcomeUpTo(c: Caps, v: Value, n: nat, depth: nat, b: Budget, r: Result<DecodedItems>)
    requires n <= Arity(v)
  {
    if FitsUpTo(c, v, n, depth, b)
    then r == Ok(DecodedItems(ArrivedUpTo(v, n), Budget(b.nodes + NodesUpTo(v, n), b.elems + ElemsUpTo(v, n))))
    else r.Err?
  }

  // ---- buffers only grow

  predicate IsPrefix(a: seq<Bytes>, b: seq<Bytes>) { |a| <= |b| && b[..|a|] == a }

  lemma PrefixTrans(a: seq<Bytes>, b: seq<Bytes>, c: seq<Bytes>)
    requires IsPrefix(a, b) && IsPrefix(b, c)
    ensures IsPrefix(a, c)
  {
    assert c[..|a|] == c[..|b|][..|a|];
  }

  lemma {:induction false} EncAppends(v: Value, b: seq<Bytes>)
    requires Enc(v, b).Ok?
    ensures IsPrefix(b, Enc(v, b).value.buffers)
    decreases v
  {
    if !v.Scalar? && !v.Array? {
      EncItemsAppends(v, Arity(v), b);
    }
  }

  lemma {:induction false} EncItemsAppends(v: Value, n: nat, b: seq<Bytes>)
    requires n <= Arity(v) && EncItems(v, n, b).Ok?
    ensures IsPrefix(b, EncItems(v, n, b).value.buffers)
    decreases v, n
  {
    hide Enc, Item;
    if n > 0 {
      EncItemsAppends(v, n - 1, b);
      var r := EncItems(v, n - 1, b).value;
      EncAppends(Item(v, n - 1), r.buffers);
      PrefixTrans(b, r.buffers, Enc(Item(v, n - 1), r.buffers).value.buffers);
    }
  }

  // ---- leaves

  lemma {:induction false} DimsOfNats(shape: seq<nat>)
    ensures Dims(JNats(shape)) == Some(shape)
  {
    if shape != [] {
      var n := |shape| - 1;
      DimsOfNats(shape[..n]);
      assert JNats(shape)[..n] == JNats(shape[..n]);
      assert shape == shape[..n] + [shape[n]];
    }
  }

  lemma FindUnfolds(j: Json, key: string, n: nat)
    requires j.JObj? && 0 < n <= |j.fields|
    ensures FindFrom(j, key, n) == if j.fields[n - 1].key == key then Some(j.fields[n - 1].val) else FindFrom(j, key, n - 1)
    ensures FindFrom(j, key, 0) == None
  {
  }

  lemma FindInArrayNode(idx: nat, dtype: string, shape: seq<nat>, key: string)
    ensures Find(ArrayNode(idx, dtype, shape), key) ==
            if key == "dtype" then Some(JStr(dtype)) else if key == "shape" then Some(JArr(JNats(shape)))
            else if key == "$nd" then Some(JInt(idx)) else None
  {
    var j := ArrayNode(idx, dtype, shape);
    hide FindFrom, JNats;
    FindUnfolds(j, key, 3);
    FindUnfolds(j, key, 2);
    FindUnfolds(j, key, 1);
  }

  lemma Divides(size: nat, count: nat)
    requires size > 0
    ensures (size * count) % size == 0 && size * count / size == count
  {
    DivModUnique(size * count, count, 0, size);
  }

  lemma ArrayArrives(c: Caps, v: Value, b0: seq<Bytes>, buffers: seq<Bytes>, depth: nat, b: Budget)
    requires v.Array? && WellFormed(v) && Allowed(v.dtype) && IsPrefix(b0 + [v.bytes], buffers)
    requires depth <= MAX_DEPTH + 1 && b.nodes <= c.nodes && b.elems <= c.elems
    ensures Outcome(c, v, depth, b, Dec(c, ArrayNode(|b0|, v.dtype, Contiguous(v.shape)), buffers, depth, b))
  {
    hide Find, Dims, JNats, Product, ItemSize, ArrayNode;
    var shape := Contiguous(v.shape);
    var node := ArrayNode(|b0|, v.dtype, shape);
    forall key ensures Find(node, key) ==
                       if key == "dtype" then Some(JStr(v.dtype)) else if key == "shape" then Some(JArr(JNats(shape)))
                       else if key == "$nd" then Some(JInt(|b0|)) else None
    {
      FindInArrayNode(|b0|, v.dtype, shape, key);
    }
    DimsOfNats(shape);
    ContiguousProduct(v.shape);
    Divides(ItemSize(v.dtype), Product(v.shape));
    assert buffers[|b0|] == v.bytes by {
      assert buffers[..|b0| + 1][|b0|] == (b0 + [v.bytes])[|b0|];
    }
    LeafSizes(v);
    ArrayNodeShape(|b0|, v.dtype, shape);
    LeafModels(c, v);
    hide Nodes, Elems, Height, ModelsOk;
  }

  lemma ArrayNodeShape(idx: nat, dtype: string, shape: seq<nat>)
    ensures ArrayNode(idx, dtype, shape).JObj? && ArrayNode(idx, dtype, shape).fields != []
  {
  }

  lemma LeafModels(c: Caps, v: Value)
    requires v.Scalar? || v.Array?
    ensures ModelsOk(c, v)
  {
  }

  // ---- containers

  lemma FindOne(key: string, j: Json, other: string)
    ensures Find(JObj([Field(key, j)]), other) == if other == key then Some(j) else None
  {
    hide FindFrom;
    FindUnfolds(JObj([Field(key, j)]), other, 1);
  }

  /** The tags decoding looks for, in a node that has just one field. */
  lemma OneTag(key: string, j: Json)
    ensures var node := JObj([Field(key, j)]);
            && node.JObj? && node.fields != []
            && Find(node, "$v") == (if key == "$v" then Some(j) else None)
            && Find(node, "$nd") == (if key == "$nd" then Some(j) else None)
            && Find(node, "$d") == (if key == "$d" then Some(j) else None)
            && Find(node, "$t") == (if key == "$t" then Some(j) else None)
            && Find(node, "$l") == (if key == "$l" then Some(j) else None)
            && Find(node, "$moelm") == (if key == "$moelm" then Some(j) else None)
  {
    FindOne(key, j, "$v");
    FindOne(key, j, "$nd");
    FindOne(key, j, "$d");
    FindOne(key, j, "$t");
    FindOne(key, j, "$l");
    FindOne(key, j, "$moelm");
    hide Find;
  }

  lemma HyperArrives(hp: Hyper)
    ensures HyperOf(HyperNode(hp)) == Some(hp)
  {
    hide FindFrom;
    var j := HyperNode(hp);
    FindInHyper(hp, "C");
    FindInHyper(hp, "Demb");
    FindInHyper(hp, "H");
    FindInHyper(hp, "Do");
    FindInHyper(hp, "E");
    hide Find, HyperNode;
  }

  lemma FindInHyper(hp: Hyper, key: string)
    ensures Find(HyperNode(hp), key) ==
            if key == "E" then Some(JInt(hp.experts)) else if key == "Do" then Some(JInt(hp.out))
            else if key == "H" then Some(JInt(hp.h)) else if key == "Demb" then Some(JInt(hp.demb))
            else if key == "C" then Some(JInt(hp.c)) else None
  {
    hide FindFrom;
    var j := HyperNode(hp);
    FindUnfolds(j, key, 5);
    FindUnfolds(j, key, 4);
    FindUnfolds(j, key, 3);
    FindUnfolds(j, key, 2);
    FindUnfolds(j, key, 1);
  }

  lemma FindInModel(hp: Json, p: Json)
    ensures var m := JObj([Field("hp", hp), Field("p", p)]);
            Find(m, "hp") == Some(hp) && Find(m, "p") == Some(p)
  {
    hide FindFrom;
    var m := JObj([Field("hp", hp), Field("p", p)]);
    FindUnfolds(m, "hp", 2);
    FindUnfolds(m, "hp", 1);
    FindUnfolds(m, "p", 2);
  }

  lemma ScalarArrives(c: Caps, v: Value, buffers: seq<Bytes>, depth: nat, b: Budget)
    requires v.Scalar? && Atom(v.json)
    requires depth <= MAX_DEPTH + 1 && b.nodes <= c.nodes && b.elems <= c.elems
    ensures Outcome(c, v, depth, b, Dec(c, JObj([Field("$v", v.json)]), buffers, depth, b))
  {
    OneTag("$v", v.json);
    LeafSizes(v);
    LeafModels(c, v);
    LeafArrives(v);
    hide Nodes, Elems, Height, ModelsOk, Find, Arrived;
  }

  lemma LeafArrives(v: Value)
    requires v.Scalar?
    ensures Arrived(v) == v
  {
  }

  /** Sizes of a container, through its first-n sums. */
  lemma ContainerUnfolds(c: Caps, v: Value)
    requires !v.Scalar? && !v.Array?
    ensures Nodes(v) == 1 + NodesUpTo(v, Arity(v)) && Elems(v) == ElemsUpTo(v, Arity(v))
    ensures Height(v) == HeightUpTo(v, Arity(v))
    ensures Arrived(v) == Rebuild(v, ArrivedUpTo(v, Arity(v)))
    ensures ModelsOk(c, v) <==> (v.Model? ==> HyperOk(v.hyper, c)) && ModelsUpTo(c, v, Arity(v))
    ensures WellFormed(v) ==> WellFormedUpTo(v, Arity(v)) && (v.Dict? ==> DistinctEntries(v.entries))
  {
    hide NodesUpTo, ElemsUpTo, HeightUpTo, ArrivedUpTo, ModelsUpTo, WellFormedUpTo, Rebuild, HyperOk, DistinctEntries;
  }

  /** Whatever payload carries these nodes, its children arrive, one level down and with the container charged. */
  ghost predicate PayloadsArrive(c: Caps, v: Value, nodes: seq<Json>, buffers: seq<Bytes>, depth: nat, b: Budget)
    requires (v.Dict? || v.Tuple? || v.List?) && |nodes| == Arity(v)
    requires depth <= MAX_DEPTH + 1 && b.nodes <= c.nodes && b.elems <= c.elems
  {
    forall payload: Json :: PayloadOf(v, nodes, payload) && depth <= MAX_DEPTH && b.nodes < c.nodes ==>
      OutcomeUpTo(c, v, Arity(v), depth + 1, b.(nodes := b.nodes + 1),
                  DecItems(c, payload, JArity(payload), buffers, depth + 1, b.(nodes := b.nodes + 1)))
  }

  lemma DictArrives(c: Caps, v: Value, nodes: seq<Json>, buffers: seq<Bytes>, depth: nat, b: Budget)
    requires v.Dict? && |nodes| == Arity(v)
    requires depth <= MAX_DEPTH + 1 && b.nodes <= c.nodes && b.elems <= c.elems
    requires PayloadsArrive(c, v, nodes, buffers, depth, b)
    ensures Outcome(c, v, depth, b, Dec(c, Wrap(v, nodes), buffers, depth, b))
  {
    hide Find, DecItems, NodesUpTo, ElemsUpTo, HeightUpTo, ArrivedUpTo, ModelsUpTo, Keyed, HyperOk;
    hide Nodes, Elems, Height, Arrived, ModelsOk;
    ContainerUnfolds(c, v);
    NoneUpTo(c, v);
    OneTag("$d", JObj(Keyed(v.entries, nodes)));
    KeyedPayload(v, nodes);
    EntriesRebuild(v, nodes, ArrivedUpTo(v, Arity(v)));
  }

  lemma ListArrives(c: Caps, v: Value, nodes: seq<Json>, buffers: seq<Bytes>, depth: nat, b: Budget)
    requires (v.Tuple? || v.List?) && |nodes| == Arity(v)
    requires depth <= MAX_DEPTH + 1 && b.nodes <= c.nodes && b.elems <= c.elems
    requires PayloadsArrive(c, v, nodes, buffers, depth, b)
    ensures Outcome(c, v, depth, b, Dec(c, Wrap(v, nodes), buffers, depth, b))
  {
    hide Find, DecItems, NodesUpTo, ElemsUpTo, HeightUpTo, ArrivedUpTo, ModelsUpTo, Keyed, HyperOk;
    hide Nodes, Elems, Height, Arrived, ModelsOk;
    ContainerUnfolds(c, v);
    NoneUpTo(c, v);
    OneTag(if v.Tuple? then "$t" else "$l", JArr(nodes));
    assert PayloadOf(v, nodes, JArr(nodes));
    NoItems(c, JArr([]), buffers, depth + 1, b.(nodes := b.nodes + 1));
  }

  /** A container arrives when its children do: the payload is what Wrap puts there. */
  lemma ContainerArrives(c: Caps, v: Value, nodes: seq<Json>, buffers: seq<Bytes>, depth: nat, b: Budget)
    requires (v.Dict? || v.Tuple? || v.List?) && |nodes| == Arity(v)
    requires depth <= MAX_DEPTH + 1 && b.nodes <= c.nodes && b.elems <= c.elems
    requires PayloadsArrive(c, v, nodes, buffers, depth, b)
    ensures Outcome(c, v, depth, b, Dec(c, Wrap(v, nodes), buffers, depth, b))
  {
    hide *;
    if v.Dict? {
      DictArrives(c, v, nodes, buffers, depth, b);
    } else {
      ListArrives(c, v, nodes, buffers, depth, b);
    }
  }

  lemma NoItems(c: Caps, j: Json, buffers: seq<Bytes>, depth: nat, b: Budget)
    ensures DecItems(c, j, 0, buffers, depth, b) == Ok(DecodedItems([], b))
  {
  }

  lemma NoneUpTo(c: Caps, v: Value)
    ensures NodesUpTo(v, 0) == 0 && ElemsUpTo(v, 0) == 0 && HeightUpTo(v, 0) == 0 && ArrivedUpTo(v, 0) == []
    ensures ModelsUpTo(c, v, 0)
  {
  }

  /** The payload whose children are these nodes. */
  ghost predicate PayloadOf(v: Value, nodes: seq<Json>, payload: Json) {
    JArity(payload) == |nodes| && forall i :: 0 <= i < |nodes| ==> JItem(payload, i) == nodes[i]
  }

  lemma KeyedPayload(v: Value, nodes: seq<Json>)
    requires v.Dict? && |nodes| == |v.entries|
    ensures PayloadOf(v, nodes, JObj(Keyed(v.entries, nodes)))
  {
  }

  lemma EntriesRebuild(v: Value, nodes: seq<Json>, items: seq<Value>)
    requires v.Dict? && |nodes| == |items| == |v.entries|
    ensures Dict(Entries(Keyed(v.entries, nodes), items)) == Rebuild(v, items)
  {
    assert Entries(Keyed(v.entries, nodes), items) == Rebuild(v, items).entries;
  }

  lemma OneUpTo(c: Caps, v: Value)
    requires v.Model?
    ensures NodesUpTo(v, 1) == Nodes(v.params) && ElemsUpTo(v, 1) == Elems(v.params)
    ensures HeightUpTo(v, 1) == 1 + Height(v.params) && ArrivedUpTo(v, 1) == [Arrived(v.params)]
    ensures ModelsUpTo(c, v, 1) <==> ModelsOk(c, v.params)
  {
    NoneUpTo(c, v);
    assert Item(v, 0) == v.params;
    hide Nodes, Elems, Height, Arrived, ModelsOk;
  }

  lemma ModelArrives(c: Caps, v: Value, node: Json, buffers: seq<Bytes>, depth: nat, b: Budget)
    requires v.Model?
    requires depth <= MAX_DEPTH + 1 && b.nodes <= c.nodes && b.elems <= c.elems
    requires depth <= MAX_DEPTH && b.nodes < c.nodes ==>
               Outcome(c, v.params, depth + 1, b.(nodes := b.nodes + 1),
                       Dec(c, node, buffers, depth + 1, b.(nodes := b.nodes + 1)))
    ensures Outcome(c, v, depth, b, Dec(c, Wrap(v, [node]), buffers, depth, b))
  {
    hide Find, DecItems, NodesUpTo, ElemsUpTo, HeightUpTo, ArrivedUpTo, ModelsUpTo, Keyed;
    hide Nodes, Elems, Height, Arrived, ModelsOk, HyperOf, HyperNode, ParamEstimate, HyperInRange, DecArray;
    ContainerUnfolds(c, v);
    OneUpTo(c, v);
    var m := JObj([Field("hp", HyperNode(v.hyper)), Field("p", node)]);
    OneTag("$moelm", m);
    FindInModel(HyperNode(v.hyper), node);
    HyperArrives(v.hyper);
  }

  lemma ItemArrives(c: Caps, v: Value, n: nat, payload: Json, buffers: seq<Bytes>, depth: nat, b: Budget)
    requires 0 < n <= Arity(v) && n <= JArity(payload)
    requires depth <= MAX_DEPTH + 1 && b.nodes <= c.nodes && b.elems <= c.elems
    requires OutcomeUpTo(c, v, n - 1, depth, b, DecItems(c, payload, n - 1, buffers, depth, b))
    requires FitsUpTo(c, v, n - 1, depth, b) ==>
               var mid := Budget(b.nodes + NodesUpTo(v, n - 1), b.elems + ElemsUpTo(v, n - 1));
               Outcome(c, Item(v, n - 1), depth, mid, Dec(c, JItem(payload, n - 1), buffers, depth, mid))
    ensures OutcomeUpTo(c, v, n, depth, b, DecItems(c, payload, n, buffers, depth, b))
  {
    hide NodesUpTo, ElemsUpTo, HeightUpTo, ArrivedUpTo, ModelsUpTo, Nodes, Elems, Height, Arrived, ModelsOk, Dec, DecItems;
    hide Item, JItem, Arity, JArity;
    StepUpTo(c, v, n);
    DecItemsStep(c, payload, n, buffers, depth, b);
  }

  lemma DecItemsStep(c: Caps, j: Json, n: nat, buffers: seq<Bytes>, depth: nat, b: Budget)
    requires 0 < n <= JArity(j)
    ensures var r := DecItems(c, j, n - 1, buffers, depth, b);
            && (r.Err? ==> DecItems(c, j, n, buffers, depth, b).Err?)
            && (r.Ok? ==>
                  var x := Dec(c, JItem(j, n - 1), buffers, depth, r.value.budget);
                  DecItems(c, j, n, buffers, depth, b)
                  == if x.Err? then Err(x.reason) else Ok(DecodedItems(r.value.values + [x.value.value], x.value.budget)))
  {
    hide Dec, JItem;
  }

  lemma StepUpTo(c: Caps, v: Value, n: nat)
    requires 0 < n <= Arity(v)
    ensures NodesUpTo(v, n) == NodesUpTo(v, n - 1) + Nodes(Item(v, n - 1))
    ensures ElemsUpTo(v, n) == ElemsUpTo(v, n - 1) + Elems(Item(v, n - 1))
    ensures HeightUpTo(v, n) == Max(HeightUpTo(v, n - 1), 1 + Height(Item(v, n - 1)))
    ensures ArrivedUpTo(v, n) == ArrivedUpTo(v, n - 1) + [Arrived(Item(v, n - 1))]
    ensures ModelsUpTo(c, v, n) <==> ModelsUpTo(c, v, n - 1) && ModelsOk(c, Item(v, n - 1))
    ensures WellFormedUpTo(v, n) <==> WellFormedUpTo(v, n - 1) && WellFormed(Item(v, n - 1))
  {
    hide Nodes, Elems, Height, Arrived, ModelsOk, WellFormed, Item;
  }

  // ---- the main induction

  lemma {:induction false} NodeArrives(c: Caps, v: Value, b0: seq<Bytes>, buffers: seq<Bytes>, depth: nat, b: Budget)
    requires WellFormed(v) && Enc(v, b0).Ok? && IsPrefix(Enc(v, b0).value.buffers, buffers)
    requires depth <= MAX_DEPTH + 1 && b.nodes <= c.nodes && b.elems <= c.elems
    ensures Outcome(c, v, depth, b, Dec(c, Enc(v, b0).value.node, buffers, depth, b))
    decreases v
  {
    hide Dec, Outcome, OutcomeUpTo, WellFormed, EncItems, Wrap;
    match v
    case Scalar(_) => ScalarArrives(c, v, buffers, depth, b);
    case Array(_, _, _) => ArrayArrives(c, v, b0, buffers, depth, b);
    case Model(_, params) =>
      ContainerUnfolds(c, v);
      StepUpTo(c, v, 1);
      EncOne(v, b0);
      if depth <= MAX_DEPTH && b.nodes < c.nodes {
        NodeArrives(c, params, b0, buffers, depth + 1, b.(nodes := b.nodes + 1));
      }
      ModelArrives(c, v, Enc(params, b0).value.node, buffers, depth, b);
    case Dict(_) => ChildrenArrive(c, v, b0, buffers, depth, b);
    case Tuple(_) => ChildrenArrive(c, v, b0, buffers, depth, b);
    case List(_) => ChildrenArrive(c, v, b0, buffers, depth, b);
  }

  lemma EncOne(v: Value, b0: seq<Bytes>)
    requires v.Model? && EncItems(v, 1, b0).Ok?
    ensures Enc(v.params, b0).Ok?
    ensures EncItems(v, 1, b0).value == EncodedItems([Enc(v.params, b0).value.node], Enc(v.params, b0).value.buffers)
  {
    assert EncItems(v, 0, b0) == Ok(EncodedItems([], b0));
    assert Item(v, 0) == v.params;
    hide Enc;
  }

  lemma {:induction false} ChildrenArrive(c: Caps, v: Value, b0: seq<Bytes>, buffers: seq<Bytes>, depth: nat, b: Budget)
    requires v.Dict? || v.Tuple? || v.List?
    requires WellFormed(v) && EncItems(v, Arity(v), b0).Ok? && IsPrefix(EncItems(v, Arity(v), b0).value.buffers, buffers)
    requires depth <= MAX_DEPTH + 1 && b.nodes <= c.nodes && b.elems <= c.elems
    ensures Outcome(c, v, depth, b, Dec(c, Wrap(v, EncItems(v, Arity(v), b0).value.nodes), buffers, depth, b))
    decreases v, Arity(v) + 1
  {
    hide Dec, Outcome, OutcomeUpTo, WellFormed, EncItems, Wrap, DecItems;
    ContainerUnfolds(c, v);
    var nodes := EncItems(v, Arity(v), b0).value.nodes;
    forall payload: Json | PayloadOf(v, nodes, payload) && depth <= MAX_DEPTH && b.nodes < c.nodes
      ensures OutcomeUpTo(c, v, Arity(v), depth + 1, b.(nodes := b.nodes + 1),
                          DecItems(c, payload, JArity(payload), buffers, depth + 1, b.(nodes := b.nodes + 1)))
    {
      ItemsArrive(c, v, Arity(v), payload, b0, buffers, depth + 1, b.(nodes := b.nodes + 1));
    }
    ContainerArrives(c, v, nodes, buffers, depth, b);
  }

  lemma {:induction false} ItemsArrive(c: Caps, v: Value, n: nat, payload: Json, b0: seq<Bytes>, buffers: seq<Bytes>,
                                       depth: nat, b: Budget)
    requires n <= Arity(v) && n <= JArity(payload)
    requires WellFormedUpTo(v, n) && EncItems(v, n, b0).Ok? && IsPrefix(EncItems(v, n, b0).value.buffers, buffers)
    requires forall i :: 0 <= i < n ==> JItem(payload, i) == EncItems(v, n, b0).value.nodes[i]
    requires depth <= MAX_DEPTH + 1 && b.nodes <= c.nodes && b.elems <= c.elems
    ensures OutcomeUpTo(c, v, n, depth, b, DecItems(c, payload, n, buffers, depth, b))
    decreases v, n
  {
    hide Dec, Outcome, WellFormed, Item, JItem, Enc, OutcomeUpTo, DecItems, FitsUpTo;
    if n == 0 {
      NothingArrives(c, v, payload, buffers, depth, b);
    } else {
      var r := EncItems(v, n - 1, b0).value;
      EncAppends(Item(v, n - 1), r.buffers);
      PrefixTrans(r.buffers, EncItems(v, n, b0).value.buffers, buffers);
      ItemsArrive(c, v, n - 1, payload, b0, buffers, depth, b);
      if FitsUpTo(c, v, n - 1, depth, b) {
        var mid := Budget(b.nodes + NodesUpTo(v, n - 1), b.elems + ElemsUpTo(v, n - 1));
        FitsCaps(c, v, n - 1, depth, b);
        NodeArrives(c, Item(v, n - 1), r.buffers, buffers, depth, mid);
      }
      ItemArrives(c, v, n, payload, buffers, depth, b);
    }
  }

  lemma FitsCaps(c: Caps, v: Value, n: nat, depth: nat, b: Budget)
    requires n <= Arity(v) && FitsUpTo(c, v, n, depth, b)
    ensures b.nodes + NodesUpTo(v, n) <= c.nodes && b.elems + ElemsUpTo(v, n) <= c.elems
  {
    hide NodesUpTo, ElemsUpTo, HeightUpTo, ModelsUpTo;
  }

  lemma NothingArrives(c: Caps, v: Value, payload: Json, buffers: seq<Bytes>, depth: nat, b: Budget)
    requires depth <= MAX_DEPTH + 1 && b.nodes <= c.nodes && b.elems <= c.elems
    ensures OutcomeUpTo(c, v, 0, depth, b, DecItems(c, payload, 0, buffers, depth, b))
  {
    NoneUpTo(c, v);
    NoItems(c, payload, buffers, depth, b);
  }

  // ---------------------------------------------------------------- encodings are printable

  predicate DistinctFields(fields: seq<Field>) {
    forall i, j :: 0 <= i < j < |fields| ==> fields[i].key != fields[j].key
  }

  /** Every object of the document has each key once: the documents that are Python values. */
  predicate Printable(j: Json)
    decreases j
  {
    (j.JObj? ==> DistinctFields(j.fields)) && PrintableUpTo(j, JArity(j))
  }

  predicate PrintableUpTo(j: Json, n: nat)
    requires n <= JArity(j)
    decreases j, n
  {
    n == 0 || (PrintableUpTo(j, n - 1) && Printable(JItem(j, n - 1)))
  }

  lemma {:induction false} AllPrintable(j: Json, n: nat)
    requires n <= JArity(j) && forall i :: 0 <= i < n ==> Printable(JItem(j, i))
    ensures PrintableUpTo(j, n)
  {
    hide Printable, JItem;
    if n > 0 {
      AllPrintable(j, n - 1);
    }
  }

  lemma ArrayPrintable(items: seq<Json>)
    requires forall i :: 0 <= i < |items| ==> Printable(items[i])
    ensures Printable(JArr(items))
  {
    AllPrintable(JArr(items), |items|);
    hide PrintableUpTo;
  }

  lemma ObjectPrintable(fields: seq<Field>)
    requires DistinctFields(fields) && forall i :: 0 <= i < |fields| ==> Printable(fields[i].val)
    ensures Printable(JObj(fields))
  {
    AllPrintable(JObj(fields), |fields|);
    hide PrintableUpTo, DistinctFields;
  }

  lemma AtomPrintable(j: Json)
    requires Atom(j)
    ensures Printable(j)
  {
  }

  lemma OneFieldPrintable(key: string, j: Json)
    requires Printable(j)
    ensures Printable(JObj([Field(key, j)]))
  {
    hide Printable;
    ObjectPrintable([Field(key, j)]);
  }

  lemma ArrayNodePrintable(idx: nat, dtype: string, shape: seq<nat>)
    ensures Printable(ArrayNode(idx, dtype, shape))
  {
    hide Printable, JNats;
    AtomPrintable(JInt(idx));
    AtomPrintable(JStr(dtype));
    NatsPrintable(shape);
    ObjectPrintable(ArrayNode(idx, dtype, shape).fields);
  }

  lemma NatsPrintable(shape: seq<nat>)
    ensures Printable(JArr(JNats(shape)))
  {
    forall i | 0 <= i < |shape| ensures Printable(JNats(shape)[i]) {
      AtomPrintable(JInt(shape[i]));
    }
    ArrayPrintable(JNats(shape));
  }

  lemma HyperPrintable(hp: Hyper)
    ensures Printable(HyperNode(hp))
  {
    hide Printable;
    var fields := HyperNode(hp).fields;
    forall i | 0 <= i < |fields| ensures Printable(fields[i].val) {
      AtomPrintable(fields[i].val);
    }
    ObjectPrintable(fields);
  }

  lemma WrapPrintable(v: Value, nodes: seq<Json>)
    requires |nodes| == Arity(v) && (v.Dict? || v.Tuple? || v.List? || v.Model?)
    requires v.Dict? ==> DistinctEntries(v.entries)
    requires forall i :: 0 <= i < |nodes| ==> Printable(nodes[i])
    ensures Printable(Wrap(v, nodes))
  {
    hide Printable, HyperNode;
    match v
    case Dict(entries) =>
      ObjectPrintable(Keyed(entries, nodes));
      OneFieldPrintable("$d", JObj(Keyed(entries, nodes)));
    case Tuple(_) =>
      ArrayPrintable(nodes);
      OneFieldPrintable("$t", JArr(nodes));
    case List(_) =>
      ArrayPrintable(nodes);
      OneFieldPrintable("$l", JArr(nodes));
    case Model(hp, _) =>
      HyperPrintable(hp);
      var fields := [Field("hp", HyperNode(hp)), Field("p", nodes[0])];
      ObjectPrintable(fields);
      OneFieldPrintable("$moelm", JObj(fields));
  }

  /** What encoding writes is always a document that Python can print and read back. */
  lemma {:induction false} EncPrintable(v: Value, b: seq<Bytes>)
    requires WellFormed(v) && Enc(v, b).Ok?
    ensures Printable(Enc(v, b).value.node)
    decreases v
  {
    hide Printable, WellFormed, Wrap, EncItems, ArrayNode;
    match v
    case Scalar(j) =>
      AtomPrintable(j);
      OneFieldPrintable("$v", j);
    case Array(dtype, shape, _) => ArrayNodePrintable(|b|, dtype, Contiguous(shape));
    case _ => ContainerPrintable(v, b);
  }

  lemma {:induction false} ContainerPrintable(v: Value, b: seq<Bytes>)
    requires (v.Dict? || v.Tuple? || v.List? || v.Model?) && WellFormed(v) && EncItems(v, Arity(v), b).Ok?
    ensures Printable(Wrap(v, EncItems(v, Arity(v), b).value.nodes))
    decreases v, Arity(v) + 1
  {
    hide Printable, WellFormed, Wrap, EncItems;
    ContainerUnfolds(Caps(0, 0, 0), v);
    ItemsPrintable(v, Arity(v), b);
    WrapPrintable(v, EncItems(v, Arity(v), b).value.nodes);
  }

  lemma {:induction false} ItemsPrintable(v: Value, n: nat, b: seq<Bytes>)
    requires n <= Arity(v) && WellFormedUpTo(v, n) && EncItems(v, n, b).Ok?
    ensures forall i :: 0 <= i < n ==> Printable(EncItems(v, n, b).value.nodes[i])
    decreases v, n
  {
    hide Printable, WellFormed, Enc, Item;
    if n > 0 {
      ItemsPrintable(v, n - 1, b);
      EncPrintable(Item(v, n - 1), EncItems(v, n - 1, b).value.buffers);
    }
  }

  // ---------------------------------------------------------------- bytes

  function Pow256(w: nat): (p: nat)
    ensures p >= 1
  {
    if w == 0 then 1 else 256 * Pow256(w - 1)
  }

  /** Big-endian, w bytes. */
  function BigEndian(n: nat, w: nat): (r: Bytes)
    requires n < Pow256(w)
    ensures |r| == w
  {
    if w == 0 then [] else BigEndian(n / 256, w - 1) + [n % 256]
  }

  function Number(b: Bytes): nat { if b == [] then 0 else Number(b[..|b| - 1]) * 256 + b[|b| - 1] }

  lemma {:induction false} NumberOfBigEndian(n: nat, w: nat)
    requires n < Pow256(w)
    ensures Number(BigEndian(n, w)) == n
  {
    if w > 0 {
      NumberOfBigEndian(n / 256, w - 1);
      assert BigEndian(n, w)[..w - 1] == BigEndian(n / 256, w - 1);
    }
  }

  // ---------------------------------------------------------------- frames

  const META_LIMIT: nat := 0x1_0000_0000
  const BUFFER_LIMIT: nat := 0x1_0000_0000_0000_0000
  const MAC_SIZE: nat := 32

  /** The JSON text and the keyed hash. */
  datatype Wire = Wire(dumps: Json -> Bytes, loads: Bytes -> Option<Json>, mac: (Bytes, Bytes) -> Bytes)

  /** Printing and parsing a document gives it back, for the documents a Python value can be; a parsed object never
      repeats a key, so nothing is said of others. */
  ghost predicate Faithful(w: Wire) {
    && (forall j :: Printable(j) ==> w.loads(w.dumps(j)) == Some(j))
    && (forall k, d :: |w.mac(k, d)| == MAC_SIZE)
  }

  lemma Widths()
    ensures Pow256(4) == META_LIMIT && Pow256(8) == BUFFER_LIMIT
  {
    assert Pow256(2) == 65536;
    assert Pow256(4) == 256 * (256 * Pow256(2));
    assert Pow256(6) == 256 * (256 * Pow256(4));
    assert Pow256(8) == 256 * (256 * Pow256(6));
  }

  predicate BuffersFit(buffers: seq<Bytes>) { forall i :: 0 <= i < |buffers| ==> |buffers[i]| < BUFFER_LIMIT }

  function FrameBuffers(buffers: seq<Bytes>): Bytes
    requires BuffersFit(buffers)
  {
    if buffers == [] then []
    else
      Widths();
      BigEndian(|buffers[0]|, 8) + buffers[0] + FrameBuffers(buffers[1..])
  }

  /** [4-byte meta length][meta][8-byte length and bytes per buffer] */
  function Frame(meta: Bytes, buffers: seq<Bytes>): Bytes
    requires |meta| < META_LIMIT && BuffersFit(buffers)
  {
    Widths();
    BigEndian(|meta|, 4) + meta + FrameBuffers(buffers)
  }

  /** The buffers of a frame from `off` on; up to seven trailing bytes are ignored. */
  function ParseBuffers(data: Bytes, off: nat): Result<seq<Bytes>>
    requires off <= |data|
    decreases |data| - off
  {
    if off + 8 > |data| then Ok([])
    else
      var n := Number(data[off..off + 8]);
      if n > |data| - (off + 8) then Err("buffer length exceeds frame")
      else
        Before([data[off + 8..off + 8 + n]], ParseBuffers(data, off + 8 + n))
  }

  function Before(first: seq<Bytes>, rest: Result<seq<Bytes>>): Result<seq<Bytes>> {
    match rest
    case Err(e) => Err(e)
    case Ok(bs) => Ok(first + bs)
  }

  lemma BeforeJoins(first: seq<Bytes>, x: Bytes, rest: Result<seq<Bytes>>)
    ensures Before(first + [x], rest) == Before(first, Before([x], rest))
    ensures Before([], rest) == rest
    ensures Before(first, Ok([])) == Ok(first)
  {
    if rest.Ok? {
      assert first + [x] + rest.value == first + ([x] + rest.value);
      assert [] + rest.value == rest.value;
    }
    assert first + [] == first;
  }

  function WithMac(w: Wire, frame: Bytes, key: Option<Bytes>): Bytes {
    if key.Some? then w.mac(key.value, frame) + frame else frame
  }

  /** `encode_msg`; a length that does not fit its field is an error. */
  function Encode(w: Wire, v: Value, key: Option<Bytes>): Result<Bytes> {
    match Enc(v, [])
    case Err(e) => Err(e)
    case Ok(e) =>
      var meta := w.dumps(e.node);
      if |meta| >= META_LIMIT || !BuffersFit(e.buffers) then Err("length does not fit its field")
      else Ok(WithMac(w, Frame(meta, e.buffers), key))
  }

  /** The authenticated part of a frame. */
  function Authenticated(w: Wire, data: Bytes, key: Option<Bytes>): Result<Bytes> {
    if key.None? then Ok(data)
    else if |data| < MAC_SIZE then Err("frame too short for HMAC")
    else if data[..MAC_SIZE] != w.mac(key.value, data[MAC_SIZE..]) then Err("HMAC authentication failed")
    else Ok(data[MAC_SIZE..])
  }

  datatype Parsed = Parsed(node: Json, buffers: seq<Bytes>)

  function ParseFrame(w: Wire, data: Bytes): Result<Parsed> {
    if |data| < 4 then Err("frame too short")
    else
      var n := Number(data[..4]);
      if n > |data| - 4 then Err("meta length exceeds frame")
      else
        match w.loads(data[4..4 + n])
        case None => Err("malformed frame")
        case Some(node) =>
          match ParseBuffers(data, 4 + n)
          case Err(e) => Err(e)
          case Ok(buffers) => Ok(Parsed(node, buffers))
  }

  /** `decode_msg`: authenticate, split, decode. */
  function Decode(w: Wire, c: Caps, data: Bytes, key: Option<Bytes>): Result<Value> {
    match Authenticated(w, data, key)
    case Err(e) => Err(e)
    case Ok(body) =>
      match ParseFrame(w, body)
      case Err(e) => Err(e)
      case Ok(p) =>
        match Dec(c, p.node, p.buffers, 0, Budget(0, 0))
        case Err(e) => Err(e)
        case Ok(d) => Ok(d.value)
  }

  method EncodeMsg(w: Wire, v: Value, key: Option<Bytes>) returns (r: Result<Bytes>)
    ensures match Encode(w, v, key) case Ok(f) => r == Ok(f) case Err(_) => r.Err?
  {
    hide Enc, BuffersFit, FrameBuffers;
    var buffers := new BufferList();
    var node := EncodeValue(v, buffers);
    if node.Err? {
      return Err(node.reason);
    }
    var meta := w.dumps(node.value);
    var fits := CheckBuffers(buffers.items);
    if |meta| >= META_LIMIT || !fits {
      return Err("length does not fit its field");
    }
    Widths();
    var tail := JoinBuffers(buffers.items);
    var frame := BigEndian(|meta|, 4) + meta + tail;
    return Ok(WithMac(w, frame, key));
  }

  method CheckBuffers(buffers: seq<Bytes>) returns (ok: bool)
    ensures ok <==> BuffersFit(buffers)
  {
    for i := 0 to |buffers|
      invariant forall k :: 0 <= k < i ==> |buffers[k]| < BUFFER_LIMIT
    {
      if |buffers[i]| >= BUFFER_LIMIT {
        return false;
      }
    }
    return true;
  }

  method JoinBuffers(buffers: seq<Bytes>) returns (out: Bytes)
    requires BuffersFit(buffers)
    ensures out == FrameBuffers(buffers)
  {
    out := [];
    Widths();
    for i := 0 to |buffers|
      invariant out + FrameBuffers(buffers[i..]) == FrameBuffers(buffers)
    {
      hide Pow256;
      assert buffers[i..][1..] == buffers[i + 1..];
      out := out + (BigEndian(|buffers[i]|, 8) + buffers[i]);
    }
    assert FrameBuffers(buffers[|buffers|..]) == [];
  }

  /** The loop that cuts the buffers off the frame. */
  method SplitBuffers(data: Bytes, start: nat) returns (r: Result<seq<Bytes>>)
    requires start <= |data|
    ensures match ParseBuffers(data, start) case Ok(bs) => r == Ok(bs) case Err(_) => r.Err?
  {
    var buffers: seq<Bytes> := [];
    var off := start;
    BeforeJoins([], [], ParseBuffers(data, start));
    while off + 8 <= |data|
      invariant start <= off <= |data|
      invariant Before(buffers, ParseBuffers(data, off)) == ParseBuffers(data, start)
      decreases |data| - off
    {
      var n := Number(data[off..off + 8]);
      off := off + 8;
      if n > |data| - off {
        return Err("buffer length exceeds frame");
      }
      BeforeJoins(buffers, data[off..off + n], ParseBuffers(data, off + n));
      buffers := buffers + [data[off..off + n]];
      off := off + n;
    }
    BeforeJoins(buffers, [], Ok([]));
    return Ok(buffers);
  }

  method DecodeMsg(w: Wire, c: Caps, data: Bytes, key: Option<Bytes>) returns (r: Result<Value>)
    ensures match Decode(w, c, data, key) case Ok(v) => r == Ok(v) case Err(_) => r.Err?
  {
    hide Dec, ParseBuffers, Number;
    var body := data;
    if key.Some? {
      if |data| < MAC_SIZE {
        return Err("frame too short for HMAC");
      }
      body := data[MAC_SIZE..];
      if data[..MAC_SIZE] != w.mac(key.value, body) {
        return Err("HMAC authentication failed");
      }
    }
    if |body| < 4 {
      return Err("frame too short");
    }
    var n := Number(body[..4]);
    if n > |body| - 4 {
      return Err("meta length exceeds frame");
    }
    var meta := w.loads(body[4..4 + n]);
    if meta.None? {
      return Err("malformed frame");
    }
    var buffers := SplitBuffers(body, 4 + n);
    if buffers.Err? {
      return Err(buffers.reason);
    }
    var counter := new Counter();
    r := DecodeNode(c, meta.value, buffers.value, 0, counter);
  }

  // ---- frames come apart as they were put together

  lemma {:induction false} BuffersArrive(data: Bytes, off: nat, buffers: seq<Bytes>)
    requires off <= |data| && BuffersFit(buffers) && data[off..] == FrameBuffers(buffers)
    ensures ParseBuffers(data, off) == Ok(buffers)
    decreases |buffers|
  {
    if buffers == [] {
      assert |data[off..]| == 0;
    } else {
      Widths();
      var b, rest := buffers[0], FrameBuffers(buffers[1..]);
      var head := BigEndian(|b|, 8);
      assert data[off..] == head + b + rest;
      assert data[off..off + 8] == data[off..][..8] == head;
      NumberOfBigEndian(|b|, 8);
      assert data[off + 8..off + 8 + |b|] == data[off..][8..8 + |b|] == b;
      assert data[off + 8 + |b|..] == data[off..][8 + |b|..] == rest;
      hide Number, FrameBuffers, Pow256;
      BuffersArrive(data, off + 8 + |b|, buffers[1..]);
      assert [b] + buffers[1..] == buffers;
    }
  }

  lemma FrameArrives(w: Wire, node: Json, buffers: seq<Bytes>)
    requires Faithful(w) && Printable(node) && |w.dumps(node)| < META_LIMIT && BuffersFit(buffers)
    ensures ParseFrame(w, Frame(w.dumps(node), buffers)) == Ok(Parsed(node, buffers))
  {
    Widths();
    var meta := w.dumps(node);
    var head, tail := BigEndian(|meta|, 4), FrameBuffers(buffers);
    var data := Frame(meta, buffers);
    assert data == head + meta + tail;
    NumberOfBigEndian(|meta|, 4);
    assert data[..4] == head && data[4..4 + |meta|] == meta && data[4 + |meta|..] == tail;
    BuffersArrive(data, 4 + |meta|, buffers);
    hide Frame, FrameBuffers, ParseBuffers, Number, Pow256, BigEndian;
  }

  lemma MacArrives(w: Wire, frame: Bytes, key: Option<Bytes>)
    requires Faithful(w)
    ensures Authenticated(w, WithMac(w, frame, key), key) == Ok(frame)
  {
    if key.Some? {
      var data := w.mac(key.value, frame) + frame;
      assert data[..MAC_SIZE] == w.mac(key.value, frame) && data[MAC_SIZE..] == frame;
    }
  }

  /** Round trip, with or without a key: an encoded value decodes exactly when it is within the caps, and then to
      itself but for arrays of no dimensions, which arrive with one. */
  lemma MessageArrives(w: Wire, c: Caps, v: Value, key: Option<Bytes>)
    requires Faithful(w) && WellFormed(v) && Encode(w, v, key).Ok?
    ensures var r := Decode(w, c, Encode(w, v, key).value, key);
            && (r.Ok? <==> Fits(c, v, 0, Budget(0, 0)))
            && (r.Ok? ==> r.value == Arrived(v))
            && (r == Ok(v) <==> Fits(c, v, 0, Budget(0, 0)) && AllShaped(v))
  {
    hide Enc, Dec, Fits, WellFormed, Frame, Authenticated, ParseFrame, Arrived, AllShaped, BuffersFit, Printable, Faithful;
    var e := Enc(v, []).value;
    EncPrintable(v, []);
    MacArrives(w, Frame(w.dumps(e.node), e.buffers), key);
    FrameArrives(w, e.node, e.buffers);
    assert IsPrefix(e.buffers, e.buffers);
    NodeArrives(c, v, [], e.buffers, 0, Budget(0, 0));
    ArrivesUnchanged(v);
  }

  /** Whatever bytes arrive, with or without a key, what they decode to lies within every cap. */
  lemma MessageWithinCaps(w: Wire, c: Caps, data: Bytes, key: Option<Bytes>)
    requires Decode(w, c, data, key).Ok?
    ensures var v := Decode(w, c, data, key).value;
            Nodes(v) <= c.nodes && Elems(v) <= c.elems && Height(v) <= 64
  {
    hide Authenticated, ParseFrame, Dec, Nodes, Elems, Height;
    var p := ParseFrame(w, Authenticated(w, data, key).value).value;
    DecodedWithinBudget(c, p.node, p.buffers, 0, Budget(0, 0));
  }

  /** With a key, only frames that carry that key's code over their whole content are ever looked into. */
  lemma OnlyAuthenticFramesDecode(w: Wire, c: Caps, data: Bytes, key: Bytes)
    requires Decode(w, c, data, Some(key)).Ok?
    ensures |data| >= MAC_SIZE && data[..MAC_SIZE] == w.mac(key, data[MAC_SIZE..])
    ensures Decode(w, c, data, Some(key)) == Decode(w, c, data[MAC_SIZE..], None)
  {
    hide ParseFrame, Dec;
  }

  // ---------------------------------------------------------------- what the bytes are

  /** The first byte of a number is its most significant one. */
  lemma {:induction false} MostSignificantFirst(b: Bytes)
    requires b != []
    ensures Number(b) == b[0] * Pow256(|b| - 1) + Number(b[1..])
  {
    var n := |b| - 1;
    if n == 0 {
      assert b[..0] == [] && b[1..] == [];
    } else {
      MostSignificantFirst(b[..n]);
      assert b[1..][..n - 1] == b[..n][1..] && b[1..][n - 1] == b[n];
      Shift(b[0], Pow256(n - 1), Number(b[..n][1..]), b[n]);
    }
  }

  lemma Shift(x: nat, p: nat, y: nat, z: nat)
    ensures (x * p + y) * 256 + z == x * (256 * p) + (y * 256 + z)
  {
  }

  /** And every byte string is the writing of its number. */
  lemma {:induction false} BigEndianOfNumber(b: Bytes)
    ensures Number(b) < Pow256(|b|)
    ensures BigEndian(Number(b), |b|) == b
  {
    if b != [] {
      var n := |b| - 1;
      BigEndianOfNumber(b[..n]);
      DivModUnique(Number(b), Number(b[..n]), b[n], 256);
    }
  }

  lemma Cut(head: Bytes, x: Bytes, tail: Bytes)
    ensures var f, n := head + x + tail, |head| + |x|;
            f[..|head|] == head && f[|head|..n] == x && f[n..] == tail
  {
  }

  lemma FrameIs(meta: Bytes, buffers: seq<Bytes>)
    requires |meta| < META_LIMIT && BuffersFit(buffers)
    ensures Pow256(4) == META_LIMIT && Pow256(8) == BUFFER_LIMIT
    ensures Frame(meta, buffers) == BigEndian(|meta|, 4) + meta + FrameBuffers(buffers)
    ensures buffers == [] ==> FrameBuffers(buffers) == []
    ensures buffers != [] ==>
              FrameBuffers(buffers) == BigEndian(|buffers[0]|, 8) + buffers[0] + FrameBuffers(buffers[1..])
  {
    Widths();
    hide Pow256, BigEndian;
  }

  /** A frame is four bytes of length and the meta text, then eight bytes of length and the content of every buffer. */
  lemma FrameLayout(meta: Bytes, buffers: seq<Bytes>)
    requires |meta| < META_LIMIT && BuffersFit(buffers)
    ensures var f := Frame(meta, buffers);
            && |f| >= 4 + |meta| && Number(f[..4]) == |meta| && f[4..4 + |meta|] == meta
            && f[4 + |meta|..] == FrameBuffers(buffers)
    ensures buffers == [] ==> FrameBuffers(buffers) == []
    ensures buffers != [] ==>
              var f, n := FrameBuffers(buffers), |buffers[0]|;
              && |f| >= 8 + n && Number(f[..8]) == n && f[8..8 + n] == buffers[0] && f[8 + n..] == FrameBuffers(buffers[1..])
  {
    hide *;
    FrameIs(meta, buffers);
    NumberOfBigEndian(|meta|, 4);
    Cut(BigEndian(|meta|, 4), meta, FrameBuffers(buffers));
    if buffers != [] {
      FirstFits(buffers);
      NumberOfBigEndian(|buffers[0]|, 8);
      Cut(BigEndian(|buffers[0]|, 8), buffers[0], FrameBuffers(buffers[1..]));
    }
  }

  lemma FirstFits(buffers: seq<Bytes>)
    requires BuffersFit(buffers) && buffers != []
    ensures |buffers[0]| < BUFFER_LIMIT && BuffersFit(buffers[1..])
  {
  }

  /** Splitting takes a frame apart without loss: whatever bytes were split were the framing of the buffers that came out,
      but for fewer than eight left over. */
  lemma {:induction false} SplitLosesNothing(data: Bytes, off: nat) returns (tail: Bytes)
    requires off <= |data| && ParseBuffers(data, off).Ok?
    ensures BuffersFit(ParseBuffers(data, off).value)
    ensures |tail| < 8 && data[off..] == FrameBuffers(ParseBuffers(data, off).value) + tail
    decreases |data| - off
  {
    hide *;
    Widths();
    ParseIs(data, off);
    if off + 8 > |data| {
      tail := data[off..];
      NoBuffersFit();
      FrameIs([], []);
      assert [] + tail == tail;
    } else {
      var head := data[off..off + 8];
      var n := Number(head);
      BigEndianOfNumber(head);
      var next := off + 8 + n;
      tail := SplitLosesNothing(data, next);
      var rest := ParseBuffers(data, next).value;
      var bs := [data[off + 8..next]] + rest;
      assert bs[1..] == rest;
      FitsWithFirst(data[off + 8..next], rest);
      FrameIs([], bs);
      JoinTail(head, data[off + 8..next], FrameBuffers(rest), tail);
      SliceInThree(data, off, off + 8, next);
    }
  }

  lemma ParseIs(data: Bytes, off: nat)
    requires off <= |data| && ParseBuffers(data, off).Ok?
    ensures off + 8 > |data| ==> ParseBuffers(data, off) == Ok([])
    ensures off + 8 <= |data| ==>
              var next := off + 8 + Number(data[off..off + 8]);
              && next <= |data| && ParseBuffers(data, next).Ok?
              && ParseBuffers(data, off) == Ok([data[off + 8..next]] + ParseBuffers(data, next).value)
  {
    hide Number;
  }

  lemma NoBuffersFit()
    ensures BuffersFit([])
  {
  }

  lemma FitsWithFirst(x: Bytes, rest: seq<Bytes>)
    requires |x| < BUFFER_LIMIT && BuffersFit(rest)
    ensures BuffersFit([x] + rest)
  {
  }

  lemma JoinTail(a: Bytes, b: Bytes, c: Bytes, d: Bytes)
    ensures a + b + c + d == a + b + (c + d)
  {
  }

  lemma SliceInThree(data: Bytes, i: nat, j: nat, k: nat)
    requires i <= j <= k <= |data|
    ensures data[i..] == data[i..j] + data[j..k] + data[k..]
  {
  }

  // ---------------------------------------------------------------- what is allowed

  /** The nine dtypes, by the size of their elements. */
  lemma DtypesExactly(dtype: string)
    ensures Allowed(dtype) <==> ItemSize(dtype) in {1, 2, 4, 8}
    ensures ItemSize(dtype) == 8 <==> dtype in {"float64", "int64"}
    ensures ItemSize(dtype) == 4 <==> dtype in {"float32", "int32"}
    ensures ItemSize(dtype) == 2 <==> dtype in {"float16", "int16"}
    ensures ItemSize(dtype) == 1 <==> dtype in {"int8", "uint8", "bool"}
  {
  }

  /** What can be sent at all: atoms, arrays of an allowed dtype, containers of such, models whose parameters are a dict. */
  predicate Encodable(v: Value)
    decreases v
  {
    && (v.Scalar? ==> !v.json.JArr? && !v.json.JObj?)
    && (v.Array? ==> Allowed(v.dtype))
    && (v.Model? ==> v.params.Dict?)
    && EncodableUpTo(v, Arity(v))
  }

  predicate EncodableUpTo(v: Value, n: nat)
    requires n <= Arity(v)
    decreases v, n
  {
    n == 0 || (EncodableUpTo(v, n - 1) && Encodable(Item(v, n - 1)))
  }

  /** Encoding fails on nothing else. */
  lemma {:induction false} EncodesExactly(v: Value, buffers: seq<Bytes>)
    ensures Enc(v, buffers).Ok? <==> Encodable(v)
    decreases v
  {
    hide EncItems, EncodableUpTo, Allowed;
    if v.Scalar? || v.Array? {
      NothingInside(v);
    } else {
      ItemsEncodeExactly(v, Arity(v), buffers);
    }
  }

  lemma NothingInside(v: Value)
    requires v.Scalar? || v.Array?
    ensures EncodableUpTo(v, Arity(v))
  {
  }

  lemma {:induction false} ItemsEncodeExactly(v: Value, n: nat, buffers: seq<Bytes>)
    requires n <= Arity(v)
    ensures EncItems(v, n, buffers).Ok? <==> EncodableUpTo(v, n)
    decreases v, n
  {
    hide Enc, Encodable, Item;
    if n > 0 {
      ItemsEncodeExactly(v, n - 1, buffers);
      if EncItems(v, n - 1, buffers).Ok? {
        EncodesExactly(Item(v, n - 1), EncItems(v, n - 1, buffers).value.buffers);
      }
    }
  }

  /** How the documents are tagged. */
  lemma NodesAreTagged(v: Value, buffers: seq<Bytes>)
    requires Enc(v, buffers).Ok?
    ensures var r := Enc(v, buffers).value;
            && r.node.JObj? && |r.node.fields| == (if v.Array? then 3 else 1)
            && var key, val := r.node.fields[0].key, r.node.fields[0].val;
               && (v.Scalar? ==> key == "$v" && val == v.json && r.buffers == buffers)
               && (v.Array? ==>
                     && key == "$nd" && val == JInt(|buffers|) && r.buffers == buffers + [v.bytes]
                     && r.node.fields[1] == Field("shape", JArr(JNats(Contiguous(v.shape))))
                     && r.node.fields[2] == Field("dtype", JStr(v.dtype)))
               && (v.Dict? ==>
                     && key == "$d" && val.JObj? && |val.fields| == |v.entries|
                     && forall i :: 0 <= i < |v.entries| ==> val.fields[i].key == v.entries[i].key)
               && (v.Tuple? ==> key == "$t" && val.JArr? && |val.items| == |v.parts|)
               && (v.List? ==> key == "$l" && val.JArr? && |val.items| == |v.parts|)
               && (v.Model? ==>
                     && key == "$moelm" && val.JObj? && |val.fields| == 2
                     && val.fields[0] == Field("hp", JObj([Field("C", JInt(v.hyper.c)), Field("Demb", JInt(v.hyper.demb)),
                                                          Field("H", JInt(v.hyper.h)), Field("Do", JInt(v.hyper.out)),
                                                          Field("E", JInt(v.hyper.experts))]))
                     && val.fields[1].key == "p")
  {
    hide EncItems, JNats, Allowed;
  }

  // ---------------------------------------------------------------- what arrives is sound

  /** Every array holds what its shape and dtype say, taken from a buffer of the frame, and every model is within range. */
  predicate Sane(c: Caps, v: Value, buffers: seq<Bytes>)
    decreases v
  {
    && (v.Array? ==>
          && Allowed(v.dtype) && |v.bytes| == ItemSize(v.dtype) * Product(v.shape) && |v.shape| <= 64
          && v.bytes in buffers)
    && (v.Model? ==>
          && 1 <= v.hyper.c <= 100000 && 1 <= v.hyper.demb <= 100000 && 1 <= v.hyper.h <= 100000
          && 1 <= v.hyper.out <= 100000 && 1 <= v.hyper.experts <= 100000
          && ModelSize(v.hyper) <= c.modelParams + v.hyper.experts + VOCAB)
    && SaneUpTo(c, v, Arity(v), buffers)
  }

  predicate SaneUpTo(c: Caps, v: Value, n: nat, buffers: seq<Bytes>)
    requires n <= Arity(v)
    decreases v, n
  {
    n == 0 || (SaneUpTo(c, v, n - 1, buffers) && Sane(c, Item(v, n - 1), buffers))
  }

  function SumSizes(shapes: seq<seq<nat>>): nat {
    if shapes == [] then 0 else SumSizes(shapes[..|shapes| - 1]) + Product(shapes[|shapes| - 1])
  }

  /** The tensors of n experts. */
  function ExpertShapes(din: nat, h: nat, out: nat, n: nat): seq<seq<nat>> {
    if n == 0 then [] else ExpertShapes(din, h, out, n - 1) + [[din, h], [h], [h, out], [out]]
  }

  /** The tensors of a model, and how many numbers they hold. */
  function ModelShapes(hp: Hyper): seq<seq<nat>>
    requires hp.c >= 0 && hp.demb >= 0 && hp.h >= 0 && hp.out >= 0 && hp.experts >= 0
  {
    var din := hp.c * hp.demb;
    [[VOCAB, hp.demb], [din, hp.experts], [hp.experts]] + ExpertShapes(din, hp.h, hp.out, hp.experts) + [[hp.out, VOCAB], [VOCAB]]
  }

  function ModelSize(hp: Hyper): nat
    requires hp.c >= 0 && hp.demb >= 0 && hp.h >= 0 && hp.out >= 0 && hp.experts >= 0
  {
    SumSizes(ModelShapes(hp))
  }

  lemma {:induction false} SumSizesJoin(a: seq<seq<nat>>, b: seq<seq<nat>>)
    ensures SumSizes(a + b) == SumSizes(a) + SumSizes(b)
  {
    if b == [] {
      assert a + b == a;
    } else {
      assert (a + b)[..|a + b| - 1] == a + b[..|b| - 1];
      SumSizesJoin(a, b[..|b| - 1]);
    }
  }

  lemma ShapeSizes(x: nat, y: nat)
    ensures Product([x]) == x && Product([x, y]) == x * y
  {
    assert [x][1..] == [] && [x, y][1..] == [y] && [y][1..] == [];
  }

  lemma SumOne(s: seq<nat>)
    ensures SumSizes([s]) == Product(s)
  {
    assert [s][..0] == [];
  }

  lemma OneExpert(din: nat, h: nat, out: nat)
    ensures SumSizes([[din, h], [h], [h, out], [out]]) == din * h + h + h * out + out
  {
    hide SumSizes, Product;
    ShapeSizes(din, h);
    ShapeSizes(h, out);
    ShapeSizes(out, 0);
    SumOne([din, h]);
    SumOne([h]);
    SumOne([h, out]);
    SumOne([out]);
    SumSizesJoin([[din, h]], [[h]]);
    SumSizesJoin([[h, out]], [[out]]);
    SumSizesJoin([[din, h], [h]], [[h, out], [out]]);
    assert [[din, h]] + [[h]] == [[din, h], [h]] && [[h, out]] + [[out]] == [[h, out], [out]];
    assert [[din, h], [h]] + [[h, out], [out]] == [[din, h], [h], [h, out], [out]];
  }

  lemma {:induction false} ExpertSizes(din: nat, h: nat, out: nat, n: nat)
    ensures SumSizes(ExpertShapes(din, h, out, n)) == n * (din * h + h + h * out + out)
  {
    if n > 0 {
      hide SumSizes;
      ExpertSizes(din, h, out, n - 1);
      OneExpert(din, h, out);
      SumSizesJoin(ExpertShapes(din, h, out, n - 1), [[din, h], [h], [h, out], [out]]);
      OneMore(n, din * h + h + h * out + out);
    }
  }

  lemma OneMore(n: int, x: int)
    ensures n * x == (n - 1) * x + x
  {
  }

  /** The estimate a model is admitted by counts every parameter but the router's and the output's biases. */
  lemma EstimateMissesBiases(hp: Hyper)
    requires hp.c >= 0 && hp.demb >= 0 && hp.h >= 0 && hp.out >= 0 && hp.experts >= 0
    ensures ModelSize(hp) == ParamEstimate(hp) + hp.experts + VOCAB
  {
    hide SumSizes, Product, ExpertShapes;
    var din, e := hp.c * hp.demb, hp.experts;
    var first, middle, last := [[VOCAB, hp.demb], [din, e], [e]], ExpertShapes(din, hp.h, hp.out, e), [[hp.out, VOCAB], [VOCAB]];
    SharedSizes(hp, din);
    ExpertSizes(din, hp.h, hp.out, e);
    SumSizesJoin(first + middle, last);
    SumSizesJoin(first, middle);
  }

  lemma SharedSizes(hp: Hyper, din: nat)
    requires hp.demb >= 0 && hp.out >= 0 && hp.experts >= 0
    ensures SumSizes([[VOCAB, hp.demb], [din, hp.experts], [hp.experts]])
         == VOCAB * hp.demb + din * hp.experts + hp.experts
    ensures SumSizes([[hp.out, VOCAB], [VOCAB]]) == hp.out * VOCAB + VOCAB
  {
    hide SumSizes, Product;
    var a, b, r: seq<nat> := [VOCAB, hp.demb], [din, hp.experts], [hp.experts];
    ShapeSizes(VOCAB, hp.demb);
    ShapeSizes(din, hp.experts);
    ShapeSizes(hp.experts, 0);
    ShapeSizes(hp.out, VOCAB);
    SumOne(a);
    SumOne(b);
    SumOne(r);
    SumOne([hp.out, VOCAB]);
    SumOne([VOCAB]);
    SumSizesJoin([a], [b]);
    SumSizesJoin([a] + [b], [r]);
    SumSizesJoin([[hp.out, VOCAB]], [[VOCAB]]);
    assert [a] + [b] + [r] == [a, b, r];
    assert [[hp.out, VOCAB]] + [[VOCAB]] == [[hp.out, VOCAB], [VOCAB]];
  }

  lemma ArraySane(c: Caps, node: Json, buffers: seq<Bytes>, b: Budget)
    requires DecArray(c, node, buffers, b).Ok?
    ensures DecArray(c, node, buffers, b).value.value.Array? && Sane(c, DecArray(c, node, buffers, b).value.value, buffers)
  {
    hide Find, IntOf, Dims, Product, ItemSize;
    var v := DecArray(c, node, buffers, b).value.value;
    var idx := IntOf(Find(node, "$nd")).value;
    assert v.bytes == buffers[idx];
    WholeElements(|v.bytes|, ItemSize(v.dtype), Product(v.shape));
  }

  lemma WholeElements(n: nat, size: nat, count: nat)
    requires size > 0 && n % size == 0 && count == n / size
    ensures n == size * count
  {
  }

  lemma ModelSane(c: Caps, v: Value, buffers: seq<Bytes>)
    requires v.Model? && HyperInRange(v.hyper) && ParamEstimate(v.hyper) <= c.modelParams && Sane(c, v.params, buffers)
    ensures Sane(c, v, buffers)
  {
    EstimateMissesBiases(v.hyper);
    assert SaneUpTo(c, v, 0, buffers) && Item(v, 0) == v.params;
    hide ModelSize, ParamEstimate;
  }

  predicate AllSane(c: Caps, values: seq<Value>, buffers: seq<Bytes>) {
    values == [] || (AllSane(c, values[..|values| - 1], buffers) && Sane(c, values[|values| - 1], buffers))
  }

  lemma {:induction false} PartsSane(c: Caps, v: Value, values: seq<Value>, n: nat, buffers: seq<Bytes>)
    requires n <= Arity(v) == |values| && forall i :: 0 <= i < |values| ==> Item(v, i) == values[i]
    requires AllSane(c, values[..n], buffers)
    ensures SaneUpTo(c, v, n, buffers)
  {
    hide Sane, Item;
    if n > 0 {
      assert values[..n][..n - 1] == values[..n - 1];
      PartsSane(c, v, values, n - 1, buffers);
    }
  }

  lemma ContainerSane(c: Caps, v: Value, values: seq<Value>, buffers: seq<Bytes>)
    requires v.Dict? || v.Tuple? || v.List?
    requires Arity(v) == |values| && forall i :: 0 <= i < |values| ==> Item(v, i) == values[i]
    requires AllSane(c, values, buffers)
    ensures Sane(c, v, buffers)
  {
    assert values[..|values|] == values;
    PartsSane(c, v, values, |values|, buffers);
    hide SaneUpTo, AllSane, Item;
  }

  /** Whatever bytes arrive, no array comes out of them but whole elements of an allowed dtype, as many as its shape says,
      and no model but one in range and within the cap, biases aside. */
  lemma {:induction false} DecodedSane(c: Caps, node: Json, buffers: seq<Bytes>, depth: nat, b: Budget)
    requires Dec(c, node, buffers, depth, b).Ok?
    ensures Sane(c, Dec(c, node, buffers, depth, b).value.value, buffers)
    decreases node
  {
    hide Find, DecArray, HyperOf, ParamEstimate, HyperInRange, Sane, AllSane, DecItems;
    var b1 := b.(nodes := b.nodes + 1);
    var v, d, t, l, m := Find(node, "$v"), Find(node, "$d"), Find(node, "$t"), Find(node, "$l"), Find(node, "$moelm");
    var got := Dec(c, node, buffers, depth, b).value.value;
    NoneSane(c, buffers);
    if v.Some? {
      ScalarSane(c, got, buffers);
    } else if Find(node, "$nd").Some? {
      ArraySane(c, node, buffers, b1);
    } else if d.Some? {
      ItemsSane(c, d.value, JArity(d.value), buffers, depth + 1, b1);
      ContainerSane(c, got, DecItems(c, d.value, |d.value.fields|, buffers, depth + 1, b1).value.values, buffers);
    } else if t.Some? {
      if !EmptyIterable(t.value) {
        ItemsSane(c, t.value, JArity(t.value), buffers, depth + 1, b1);
      }
      ContainerSane(c, got, got.parts, buffers);
    } else if l.Some? {
      if !EmptyIterable(l.value) {
        ItemsSane(c, l.value, JArity(l.value), buffers, depth + 1, b1);
      }
      ContainerSane(c, got, got.parts, buffers);
    } else {
      DecodedSane(c, Find(m.value, "p").value, buffers, depth + 1, b1);
      ModelSane(c, got, buffers);
    }
  }

  lemma NoneSane(c: Caps, buffers: seq<Bytes>)
    ensures AllSane(c, [], buffers)
  {
  }

  lemma ScalarSane(c: Caps, v: Value, buffers: seq<Bytes>)
    requires v.Scalar?
    ensures Sane(c, v, buffers)
  {
  }

  lemma {:induction false} ItemsSane(c: Caps, j: Json, n: nat, buffers: seq<Bytes>, depth: nat, b: Budget)
    requires n <= JArity(j) && DecItems(c, j, n, buffers, depth, b).Ok?
    ensures AllSane(c, DecItems(c, j, n, buffers, depth, b).value.values, buffers)
    decreases j, n
  {
    hide Dec, Sane, JItem;
    if n > 0 {
      ItemsSane(c, j, n - 1, buffers, depth, b);
      var r := DecItems(c, j, n - 1, buffers, depth, b).value;
      DecodedSane(c, JItem(j, n - 1), buffers, depth, r.budget);
      var x := Dec(c, JItem(j, n - 1), buffers, depth, r.budget).value.value;
      assert (r.values + [x])[..n - 1] == r.values;
    }
  }
}
