/** A document encoding that meets the condition module SafeCodec puts on its wire, so that condition is not empty. */
module PlainWire {
  import opened Prelude
  import opened SafeCodec

  function Unary(n: nat): Bytes { if n == 0 then [0] else [1] + Unary(n - 1) }

  lemma {:induction false} UnaryPrefix(m: nat, n: nat, x: Bytes, y: Bytes)
    requires Unary(m) + x == Unary(n) + y
    ensures m == n && x == y
  {
    if m == 0 || n == 0 {
      assert (Unary(m) + x)[0] == Unary(m)[0] && (Unary(n) + y)[0] == Unary(n)[0];
      assert m == n == 0;
      assert x == ([0] + x)[1..] == ([0] + y)[1..] == y;
    } else {
      var a, b := Unary(m - 1), Unary(n - 1);
      assert a + x == ([1] + a + x)[1..] == ([1] + b + y)[1..] == b + y;
      UnaryPrefix(m - 1, n - 1, x, y);
    }
  }

  /** The first n characters of a text. */
  function CodeChars(s: string, n: nat): Bytes
    requires n <= |s|
  {
    if n == 0 then [] else CodeChars(s, n - 1) + Unary(s[n - 1] as int)
  }

  function CodeStr(s: string): Bytes { Unary(|s|) + CodeChars(s, |s|) }

  function CodeKeys(j: Json, n: nat): Bytes
    requires j.JObj? && n <= |j.fields|
  {
    if n == 0 then [] else CodeKeys(j, n - 1) + CodeStr(j.fields[n - 1].key)
  }

  /** A simple self-delimiting encoding of documents. */
  function Code(j: Json): Bytes
    decreases j
  {
    match j
    case JNull => [0]
    case JBool(b) => [1] + Unary(if b then 1 else 0)
    case JInt(i) => [2] + Unary(if i < 0 then 1 else 0) + Unary(if i < 0 then -i else i)
    case JFloat(d) => [3] + Unary(d)
    case JStr(s) => [4] + CodeStr(s)
    case JArr(items) => [5] + Unary(|items|) + CodeItems(j, |items|)
    case JObj(fields) => [6] + Unary(|fields|) + CodeKeys(j, |fields|) + CodeItems(j, |fields|)
  }

  function CodeItems(j: Json, n: nat): Bytes
    requires n <= JArity(j)
    decreases j, n
  {
    if n == 0 then [] else CodeItems(j, n - 1) + Code(JItem(j, n - 1))
  }

  lemma {:induction false} CharsPrefix(s: string, t: string, n: nat, x: Bytes, y: Bytes)
    requires n <= |s| && n <= |t| && CodeChars(s, n) + x == CodeChars(t, n) + y
    ensures s[..n] == t[..n] && x == y
  {
    if n > 0 {
      var a, b := Unary(s[n - 1] as int), Unary(t[n - 1] as int);
      assert CodeChars(s, n - 1) + (a + x) == CodeChars(s, n) + x;
      assert CodeChars(t, n - 1) + (b + y) == CodeChars(t, n) + y;
      CharsPrefix(s, t, n - 1, a + x, b + y);
      UnaryPrefix(s[n - 1] as int, t[n - 1] as int, x, y);
      assert s[..n] == s[..n - 1] + [s[n - 1]] && t[..n] == t[..n - 1] + [t[n - 1]];
    } else {
      assert [] + x == x && [] + y == y;
    }
  }

  lemma StrPrefix(s: string, t: string, x: Bytes, y: Bytes)
    requires CodeStr(s) + x == CodeStr(t) + y
    ensures s == t && x == y
  {
    hide Unary, CodeChars;
    assert Unary(|s|) + (CodeChars(s, |s|) + x) == CodeStr(s) + x;
    assert Unary(|t|) + (CodeChars(t, |t|) + y) == CodeStr(t) + y;
    UnaryPrefix(|s|, |t|, CodeChars(s, |s|) + x, CodeChars(t, |t|) + y);
    CharsPrefix(s, t, |s|, x, y);
    assert s[..|s|] == s && t[..|t|] == t;
  }

  lemma {:induction false} KeysPrefix(a: Json, b: Json, n: nat, x: Bytes, y: Bytes)
    requires a.JObj? && b.JObj? && n <= |a.fields| && n <= |b.fields| && CodeKeys(a, n) + x == CodeKeys(b, n) + y
    ensures x == y && forall i :: 0 <= i < n ==> a.fields[i].key == b.fields[i].key
  {
    hide CodeStr;
    if n > 0 {
      var s, t := a.fields[n - 1].key, b.fields[n - 1].key;
      assert CodeKeys(a, n - 1) + (CodeStr(s) + x) == CodeKeys(a, n) + x;
      assert CodeKeys(b, n - 1) + (CodeStr(t) + y) == CodeKeys(b, n) + y;
      KeysPrefix(a, b, n - 1, CodeStr(s) + x, CodeStr(t) + y);
      StrPrefix(s, t, x, y);
    } else {
      assert [] + x == x && [] + y == y;
    }
  }

  lemma {:induction false} ItemsPrefix(a: Json, b: Json, n: nat, x: Bytes, y: Bytes)
    requires n <= JArity(a) && n <= JArity(b) && CodeItems(a, n) + x == CodeItems(b, n) + y
    ensures x == y && forall i :: 0 <= i < n ==> JItem(a, i) == JItem(b, i)
    decreases a, n
  {
    hide Code, JItem;
    if n > 0 {
      var s, t := JItem(a, n - 1), JItem(b, n - 1);
      assert CodeItems(a, n - 1) + (Code(s) + x) == CodeItems(a, n) + x;
      assert CodeItems(b, n - 1) + (Code(t) + y) == CodeItems(b, n) + y;
      ItemsPrefix(a, b, n - 1, Code(s) + x, Code(t) + y);
      CodePrefix(s, t, x, y);
    } else {
      assert [] + x == x && [] + y == y;
    }
  }

  /** What follows the first byte of an encoding. */
  function CodeTail(j: Json): Bytes {
    match j
    case JNull => []
    case JBool(b) => Unary(if b then 1 else 0)
    case JInt(i) => Unary(if i < 0 then 1 else 0) + Unary(if i < 0 then -i else i)
    case JFloat(d) => Unary(d)
    case JStr(s) => CodeStr(s)
    case JArr(items) => Unary(|items|) + CodeItems(j, |items|)
    case JObj(fields) => Unary(|fields|) + CodeKeys(j, |fields|) + CodeItems(j, |fields|)
  }

  function Tag(j: Json): Byte {
    match j
    case JNull => 0
    case JBool(_) => 1
    case JInt(_) => 2
    case JFloat(_) => 3
    case JStr(_) => 4
    case JArr(_) => 5
    case JObj(_) => 6
  }

  lemma CodeSplits(j: Json)
    ensures Code(j) == [Tag(j)] + CodeTail(j)
  {
    hide Unary, CodeStr, CodeKeys, CodeItems;
  }

  lemma TagsAgree(a: Json, b: Json, x: Bytes, y: Bytes)
    requires Code(a) + x == Code(b) + y
    ensures Tag(a) == Tag(b) && CodeTail(a) + x == CodeTail(b) + y
  {
    CodeSplits(a);
    CodeSplits(b);
    hide Code, Tag, CodeTail;
    var s, t := [Tag(a)] + CodeTail(a) + x, [Tag(b)] + CodeTail(b) + y;
    assert s == t && s[0] == Tag(a) && t[0] == Tag(b);
    assert s[1..] == CodeTail(a) + x && t[1..] == CodeTail(b) + y;
  }

  lemma IntPrefix(i: int, k: int, x: Bytes, y: Bytes)
    requires CodeTail(JInt(i)) + x == CodeTail(JInt(k)) + y
    ensures i == k && x == y
  {
    hide Unary;
    var si, sk := if i < 0 then 1 else 0, if k < 0 then 1 else 0;
    var mi, mk := if i < 0 then -i else i, if k < 0 then -k else k;
    assert Unary(si) + (Unary(mi) + x) == CodeTail(JInt(i)) + x;
    assert Unary(sk) + (Unary(mk) + y) == CodeTail(JInt(k)) + y;
    UnaryPrefix(si, sk, Unary(mi) + x, Unary(mk) + y);
    UnaryPrefix(mi, mk, x, y);
  }

  lemma {:induction false} ArrPrefix(a: Json, b: Json, x: Bytes, y: Bytes)
    requires a.JArr? && b.JArr? && CodeTail(a) + x == CodeTail(b) + y
    ensures a == b && x == y
    decreases a, JArity(a) + 1
  {
    hide Unary, CodeItems;
    var m, n := |a.items|, |b.items|;
    assert Unary(m) + (CodeItems(a, m) + x) == CodeTail(a) + x;
    assert Unary(n) + (CodeItems(b, n) + y) == CodeTail(b) + y;
    UnaryPrefix(m, n, CodeItems(a, m) + x, CodeItems(b, n) + y);
    ItemsPrefix(a, b, m, x, y);
    forall i | 0 <= i < m ensures a.items[i] == b.items[i] {
      assert JItem(a, i) == JItem(b, i);
    }
    assert a.items == b.items;
  }

  lemma {:induction false} ObjPrefix(a: Json, b: Json, x: Bytes, y: Bytes)
    requires a.JObj? && b.JObj? && CodeTail(a) + x == CodeTail(b) + y
    ensures a == b && x == y
    decreases a, JArity(a) + 1
  {
    hide Unary, CodeItems, CodeKeys;
    var m, n := |a.fields|, |b.fields|;
    assert Unary(m) + (CodeKeys(a, m) + (CodeItems(a, m) + x)) == CodeTail(a) + x;
    assert Unary(n) + (CodeKeys(b, n) + (CodeItems(b, n) + y)) == CodeTail(b) + y;
    UnaryPrefix(m, n, CodeKeys(a, m) + (CodeItems(a, m) + x), CodeKeys(b, n) + (CodeItems(b, n) + y));
    KeysPrefix(a, b, m, CodeItems(a, m) + x, CodeItems(b, m) + y);
    ItemsPrefix(a, b, m, x, y);
    forall i | 0 <= i < m ensures a.fields[i] == b.fields[i] {
      assert JItem(a, i) == JItem(b, i);
    }
    assert a.fields == b.fields;
  }

  /** No encoding is a proper prefix of another, so different documents have different encodings. */
  lemma {:induction false} CodePrefix(a: Json, b: Json, x: Bytes, y: Bytes)
    requires Code(a) + x == Code(b) + y
    ensures a == b && x == y
    decreases a, JArity(a) + 2
  {
    TagsAgree(a, b, x, y);
    hide Code, Unary, CodeStr, CodeItems, CodeKeys;
    match a
    case JNull =>
      assert [] + x == x && [] + y == y;
    case JBool(p) => UnaryPrefix(if p then 1 else 0, if b.b then 1 else 0, x, y);
    case JInt(i) => IntPrefix(i, b.i, x, y);
    case JFloat(d) => UnaryPrefix(d, b.d, x, y);
    case JStr(s) => StrPrefix(s, b.s, x, y);
    case JArr(_) => ArrPrefix(a, b, x, y);
    case JObj(_) => ObjPrefix(a, b, x, y);
  }

  ghost function Uncode(b: Bytes): Option<Json> {
    if exists j :: Code(j) == b then
      var j :| Code(j) == b;
      Some(j)
    else None
  }

  ghost function SomeWire(): Wire {
    Wire(j => Code(j), b => Uncode(b), (k, d) => seq(MAC_SIZE, _ => 0))
  }

  /** The condition the round trip rests on can be met. */
  lemma FaithfulWireExists()
    ensures Faithful(SomeWire())
  {
    var w := SomeWire();
    hide Code;
    forall j ensures w.loads(w.dumps(j)) == Some(j) {
      var back := Uncode(Code(j)).value;
      assert Code(back) + [] == Code(back) && Code(j) + [] == Code(j);
      CodePrefix(back, j, [], []);
    }
  }
}
