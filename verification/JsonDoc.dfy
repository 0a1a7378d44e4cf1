/**
 JSON documents, JSON pointers (section 4 of RFC 6901) and the add and replace operations of
 sections 4.1 and 4.3 of RFC 6902.
 */
module JsonDoc {
  import opened Prelude
  import opened Text
  import opened Decimals

  datatype Json =
    | Null
    | Bool(b: bool)
    | Num(n: int)
    | Str(s: string)
    | List(items: seq<Json>)
    | Obj(fields: map<string, Json>)

  const EMPTY := Obj(map[])

  /** A path of keys from the top of a document. */
  datatype Path = Top | At(key: string, rest: Path)

  function Len(p: Path): nat { if p.Top? then 0 else 1 + Len(p.rest) }

  function Cat(p: Path, q: Path): Path { if p.Top? then q else At(p.key, Cat(p.rest, q)) }

  // ----- Pointers

  function ReplaceChar(d: char, c: char, instead: string): string { if d == c then instead else [d] }

  function ReplaceFrom(s: string, i: nat, c: char, instead: string): string
    requires i <= |s|
    decreases |s| - i
  {
    if i == |s| then [] else ReplaceChar(s[i], c, instead) + ReplaceFrom(s, i + 1, c, instead)
  }

  /** `strings.ReplaceAll` of one byte. */
  function Replace(s: string, c: char, instead: string): string { ReplaceFrom(s, 0, c, instead) }

  function Escape(s: string): string { Replace(Replace(s, '~', "~0"), '/', "~1") }

  function Ptr(p: Path): (s: string)
    ensures s == [] || s[0] == '/'
  {
    match p
    case Top => []
    case At(k, rest) => ['/'] + Escape(k) + Ptr(rest)
  }

  /** A pointer's token, from `i` to `n`, read back; "~" must be followed by "0" or "1". */
  function UnescapeIn(s: string, i: nat, n: nat): Option<string>
    requires i <= n <= |s|
    decreases n - i
  {
    if i == n then Some([])
    else if s[i] != '~' then Prepend(s[i], UnescapeIn(s, i + 1, n))
    else if i + 1 < n && s[i + 1] == '0' then Prepend('~', UnescapeIn(s, i + 2, n))
    else if i + 1 < n && s[i + 1] == '1' then Prepend('/', UnescapeIn(s, i + 2, n))
    else None
  }

  function Unescape(t: string): Option<string> { UnescapeIn(t, 0, |t|) }

  function Prepend(c: char, s: Option<string>): Option<string> { if s.None? then None else Some([c] + s.value) }

  /** The path that `s` spells from `i` on. */
  function PathFrom(s: string, i: nat): Option<Path>
    requires i <= |s|
    decreases |s| - i
  {
    if i == |s| then Some(Top)
    else if s[i] != '/' then None
    else
      var n := IndexFrom(s, '/', i + 1);
      var key, rest := UnescapeIn(s, i + 1, n), PathFrom(s, n);
      if key.None? || rest.None? then None else Some(At(key.value, rest.value))
  }

  function PathOf(s: string): Option<Path> { PathFrom(s, 0) }

  lemma {:induction false} ReplaceTail(a: string, b: string, j: nat, c: char, instead: string)
    requires j <= |b|
    ensures ReplaceFrom(a + b, |a| + j, c, instead) == ReplaceFrom(b, j, c, instead)
    decreases |b| - j
  {
    if j < |b| { ReplaceTail(a, b, j + 1, c, instead); }
  }

  lemma {:induction false} ReplaceHead(a: string, b: string, i: nat, c: char, instead: string)
    requires i <= |a|
    ensures ReplaceFrom(a + b, i, c, instead) == ReplaceFrom(a, i, c, instead) + Replace(b, c, instead)
    decreases |a| - i
  {
    if i == |a| {
      ReplaceTail(a, b, 0, c, instead);
      NothingBefore(Replace(b, c, instead));
    } else {
      ReplaceHead(a, b, i + 1, c, instead);
      Regroup(ReplaceChar(a[i], c, instead), ReplaceFrom(a, i + 1, c, instead), Replace(b, c, instead));
    }
  }

  lemma ReplaceSum(a: string, b: string, c: char, instead: string)
    ensures Replace(a + b, c, instead) == Replace(a, c, instead) + Replace(b, c, instead)
  {
    ReplaceHead(a, b, 0, c, instead);
  }

  function EscapedChar(c: char): string { if c == '~' then "~0" else if c == '/' then "~1" else [c] }

  lemma ReplaceOne(d: char, c: char, instead: string)
    ensures Replace([d], c, instead) == if d == c then instead else [d]
  {
    assert ReplaceFrom([d], 1, c, instead) == [];
    NothingAfter(ReplaceChar(d, c, instead));
  }

  lemma EscapeStep(s: string)
    requires s != []
    ensures Escape(s) == EscapedChar(s[0]) + Escape(s[1..])
  {
    var one := Replace([s[0]], '~', "~0");
    assert s == [s[0]] + s[1..];
    ReplaceSum([s[0]], s[1..], '~', "~0");
    ReplaceSum(one, Replace(s[1..], '~', "~0"), '/', "~1");
    EscapeChar(s[0]);
  }

  lemma EscapeChar(c: char)
    ensures Escape([c]) == EscapedChar(c)
  {
    ReplaceOne(c, '~', "~0");
    if c == '~' {
      assert "~0" == ['~'] + ['0'];
      ReplaceSum(['~'], ['0'], '/', "~1");
      ReplaceOne('~', '/', "~1");
      ReplaceOne('0', '/', "~1");
    } else {
      ReplaceOne(c, '/', "~1");
    }
  }

  /** `t` stands in `s` from `i` on. */
  ghost predicate Holds(s: string, i: nat, t: string)
  {
    i + |t| <= |s| && forall k {:trigger s[i + k]} {:trigger t[k]} :: 0 <= k < |t| ==> s[i + k] == t[k]
  }

  lemma HoldsTwo(s: string, i: nat, a: string, b: string)
    requires Holds(s, i, a + b)
    ensures Holds(s, i, a) && Holds(s, i + |a|, b)
  {
    forall k | 0 <= k < |a| ensures s[i + k] == a[k] { assert s[i + k] == (a + b)[k]; }
    forall k | 0 <= k < |b| ensures s[i + |a| + k] == b[k] { assert s[i + (|a| + k)] == (a + b)[|a| + k]; }
  }

  lemma UnescapeStep(s: string, i: nat, n: nat, c: char)
    requires Holds(s, i, EscapedChar(c)) && i + |EscapedChar(c)| <= n <= |s|
    ensures UnescapeIn(s, i, n) == Prepend(c, UnescapeIn(s, i + |EscapedChar(c)|, n))
  {
    var e := EscapedChar(c);
    assert s[i + 0] == e[0];
    if |e| == 2 { assert s[i + 1] == e[1]; }
  }

  lemma {:induction false} UnescapeAt(s: string, i: nat, k: string)
    requires Holds(s, i, Escape(k))
    ensures UnescapeIn(s, i, i + |Escape(k)|) == Some(k)
    decreases |k|
  {
    if k == [] { return; }
    var n, e := i + |Escape(k)|, EscapedChar(k[0]);
    EscapeStep(k);
    HoldsTwo(s, i, e, Escape(k[1..]));
    UnescapeAt(s, i + |e|, k[1..]);
    UnescapeStep(s, i, n, k[0]);
    assert k == [k[0]] + k[1..];
  }

  lemma {:induction false} NoSlash(s: string)
    ensures '/' !in Escape(s)
  {
    if s != [] {
      NoSlash(s[1..]);
      EscapeStep(s);
    }
  }

  lemma UnescapeEscape(s: string)
    ensures Unescape(Escape(s)) == Some(s) && '/' !in Escape(s)
  {
    UnescapeAt(Escape(s), 0, s);
    NoSlash(s);
  }

  lemma TokenEnds(s: string, i: nat, token: string, more: string)
    requires Holds(s, i, token) && '/' !in token && Holds(s, i + |token|, more) && |s| == i + |token| + |more|
    requires more == [] || more[0] == '/'
    ensures IndexFrom(s, '/', i) == i + |token|
  {
    forall k | i <= k < i + |token| ensures s[k] != '/' { assert s[i + (k - i)] == token[k - i]; }
    if more != [] { assert s[i + |token| + 0] == more[0]; }
  }

  lemma PathFromStep(s: string, i: nat, n: nat, key: string, rest: Path)
    requires i < n <= |s| && s[i] == '/' && IndexFrom(s, '/', i + 1) == n
    requires UnescapeIn(s, i + 1, n) == Some(key) && PathFrom(s, n) == Some(rest)
    ensures PathFrom(s, i) == Some(At(key, rest))
  {
  }

  lemma TokenParts(s: string, i: nat, token: string, more: string)
    requires Holds(s, i, ['/'] + token + more)
    ensures i + 1 + |token| + |more| <= |s| && s[i] == '/'
    ensures Holds(s, i + 1, token) && Holds(s, i + 1 + |token|, more)
  {
    HoldsTwo(s, i, ['/'] + token, more);
    HoldsTwo(s, i, ['/'], token);
    assert s[i + 0] == ['/'][0];
  }

  lemma ReadToken(s: string, i: nat, key: string, more: string, rest: Path)
    requires i < |s| && s[i] == '/' && Holds(s, i + 1, Escape(key)) && (more == [] || more[0] == '/')
    requires |s| == i + 1 + |Escape(key)| + |more| && Holds(s, i + 1 + |Escape(key)|, more)
    requires PathFrom(s, i + 1 + |Escape(key)|) == Some(rest)
    ensures PathFrom(s, i) == Some(At(key, rest))
  {
    var token := Escape(key);
    NoSlash(key);
    TokenEnds(s, i + 1, token, more);
    UnescapeAt(s, i + 1, key);
    PathFromStep(s, i, i + 1 + |token|, key, rest);
  }

  lemma {:induction false} PathFromPtr(s: string, i: nat, p: Path)
    requires Holds(s, i, Ptr(p)) && |s| == i + |Ptr(p)|
    ensures PathFrom(s, i) == Some(p)
    decreases p
  {
    match p
    case Top =>
    case At(k, rest) =>
      TokenParts(s, i, Escape(k), Ptr(rest));
      PathFromPtr(s, i + 1 + |Escape(k)|, rest);
      ReadToken(s, i, k, Ptr(rest), rest);
  }

  /** Pointers are read back as the path they were written for; so no two paths share one. */
  lemma PathOfPtr(p: Path)
    ensures PathOf(Ptr(p)) == Some(p)
  {
    PathFromPtr(Ptr(p), 0, p);
  }

  lemma PtrInjective(p: Path, q: Path)
    ensures Ptr(p) == Ptr(q) <==> p == q
  {
    PathOfPtr(p);
    PathOfPtr(q);
  }

  lemma {:induction false} PtrOfCat(p: Path, q: Path)
    ensures Ptr(Cat(p, q)) == Ptr(p) + Ptr(q)
  {
    match p
    case Top =>
    case At(k, rest) => PtrOfCat(rest, q);
  }

  // ----- Reading and writing along a path of objects

  function Get(doc: Json, p: Path): Option<Json>
  {
    match p
    case Top => Some(doc)
    case At(k, rest) => if doc.Obj? && k in doc.fields then Get(doc.fields[k], rest) else None
  }

  function Child(doc: Json, k: string): Json { if doc.Obj? && k in doc.fields then doc.fields[k] else EMPTY }

  /** `doc` with `v` at `p`, missing parents made as empty objects. */
  function Put(doc: Json, p: Path, v: Json): Json
    decreases p
  {
    match p
    case Top => v
    case At(k, rest) => Obj((if doc.Obj? then doc.fields else map[])[k := Put(Child(doc, k), rest, v)])
  }

  /** Every parent on the way to `p` that exists is an object. */
  ghost predicate Walkable(doc: Json, p: Path)
  {
    match p
    case Top => true
    case At(k, rest) => doc.Obj? && (k in doc.fields ==> Walkable(doc.fields[k], rest))
  }

  /** Every parent on the way to `p` exists and is an object. */
  ghost predicate Open(doc: Json, p: Path)
  {
    match p
    case Top => true
    case At(k, rest) => doc.Obj? && (rest.Top? || (k in doc.fields && Open(doc.fields[k], rest)))
  }

  predicate ProperPrefix(p: Path, q: Path)
  {
    q.At? && (p.Top? || (p.key == q.key && ProperPrefix(p.rest, q.rest)))
  }

  predicate Apart(p: Path, q: Path) { p != q && !ProperPrefix(p, q) && !ProperPrefix(q, p) }

  lemma {:induction false} GetPut(doc: Json, p: Path, v: Json)
    ensures Get(Put(doc, p, v), p) == Some(v)
    decreases p
  {
    match p
    case Top =>
    case At(k, rest) => GetPut(Child(doc, k), rest, v);
  }

  lemma {:induction false} GetPutApart(doc: Json, p: Path, v: Json, q: Path)
    requires Apart(p, q)
    ensures Get(Put(doc, p, v), q) == Get(doc, q)
    decreases p
  {
    if p.key == q.key {
      var child := Child(doc, p.key);
      GetPutApart(child, p.rest, v, q.rest);
      if !(doc.Obj? && p.key in doc.fields) { assert q.rest.At?; }
    }
  }

  lemma {:induction false} GetPutAbove(doc: Json, p: Path, v: Json, q: Path)
    requires ProperPrefix(q, p)
    ensures Get(Put(doc, p, v), q).Some?
    ensures Open(doc, p) ==> Get(doc, q).Some?
    decreases p
  {
    if q.At? { GetPutAbove(Child(doc, p.key), p.rest, v, q.rest); }
  }

  lemma {:induction false} GetPutBelow(doc: Json, p: Path, q: Path)
    requires ProperPrefix(p, q)
    ensures Get(Put(doc, p, EMPTY), q) == None
    ensures Get(doc, p) == None ==> Get(doc, q) == None
    decreases p
  {
    if p.At? { GetPutBelow(Child(doc, p.key), p.rest, q.rest); }
  }

  lemma {:induction false} PutSame(doc: Json, p: Path, v: Json)
    requires Get(doc, p) == Some(v)
    ensures Put(doc, p, v) == doc
  {
    if p.At? {
      PutSame(doc.fields[p.key], p.rest, v);
      assert doc.fields[p.key := doc.fields[p.key]] == doc.fields;
    }
  }

  lemma SetTwice<V>(m: map<string, V>, k: string, v: V, w: V)
    ensures m[k := v][k := w] == m[k := w]
  {
  }

  lemma {:induction false} PutTwice(doc: Json, p: Path, v: Json, w: Json)
    ensures Put(Put(doc, p, v), p, w) == Put(doc, p, w)
    decreases p
  {
    if p.At? {
      var fields := if doc.Obj? then doc.fields else map[];
      var child := Child(doc, p.key);
      PutTwice(child, p.rest, v, w);
      SetTwice(fields, p.key, Put(child, p.rest, v), Put(child, p.rest, w));
    }
  }

  /** Making a missing parent first changes nothing about where the value goes. */
  lemma {:induction false} PutThroughNew(doc: Json, p: Path, q: Path, v: Json)
    requires ProperPrefix(p, q) && Get(doc, p) == None && Walkable(doc, q)
    ensures Put(Put(doc, p, EMPTY), q, v) == Put(doc, q, v)
    decreases p
  {
    var fields := doc.fields;
    var child := if p.key in fields then fields[p.key] else EMPTY;
    if p.rest.At? && p.key in fields {
      PutThroughNew(child, p.rest, q.rest, v);
    } else if p.rest.At? {
      PutThroughNew(EMPTY, p.rest, q.rest, v);
    }
    SetTwice(fields, p.key, Put(child, p.rest, EMPTY), Put(child, q.rest, v));
  }

  lemma {:induction false} WalkableAfterPut(doc: Json, p: Path, v: Json, q: Path)
    requires Walkable(doc, p) && Walkable(doc, q) && !ProperPrefix(p, q)
    ensures Walkable(Put(doc, p, v), q)
    decreases p
  {
    if p.At? && q.At? && p.key == q.key {
      var child := if p.key in doc.fields then doc.fields[p.key] else EMPTY;
      EmptyWalkable(p.rest);
      EmptyWalkable(q.rest);
      if p.rest.At? || q.rest.Top? { WalkableAfterPut(child, p.rest, v, q.rest); }
    }
  }

  lemma EmptyWalkable(p: Path)
    ensures Walkable(EMPTY, p)
  {
  }

  lemma {:induction false} OpenWalkable(doc: Json, p: Path)
    requires Open(doc, p)
    ensures p.At? && p.rest.At? ==> Walkable(doc, p)
    ensures Walkable(doc, p)
  {
    if p.At? && p.rest.At? { OpenWalkable(doc.fields[p.key], p.rest); }
  }

  // ----- RFC 6902

  datatype Op = Op(add: bool, path: string, value: Json)

  predicate IsIndex(t: string) { t == Decimal(Number(t)) }

  /** Section 4.1 (add) and section 4.3 (replace) of RFC 6902. */
  function EditAt(add: bool, doc: Json, p: Path, v: Json): Option<Json>
  {
    if p.Top? then Some(v)
    else
      match doc
      case Obj(fields) =>
        if p.rest.Top? then
          if add || p.key in fields then Some(Obj(fields[p.key := v])) else None
        else if p.key !in fields then None
        else
          var child := EditAt(add, fields[p.key], p.rest, v);
          if child.None? then None else Some(Obj(fields[p.key := child.value]))
      case List(items) => EditItem(add, items, p, v)
      case _ => None
  }

  /** `items` with `v` at position `i`, what stood there and after it moved on. */
  function Inserted(items: seq<Json>, i: nat, v: Json): seq<Json>
    requires i <= |items|
  {
    seq(|items| + 1, k requires 0 <= k <= |items| => if k < i then items[k] else if k == i then v else items[k - 1])
  }

  function EditItem(add: bool, items: seq<Json>, p: Path, v: Json): Option<Json>
    requires p.At?
  {
    var i := if IsIndex(p.key) then Number(p.key) else |items| + 1;
    if p.rest.Top? && add then
      if p.key == "-" then Some(List(items + [v]))
      else if i <= |items| then Some(List(Inserted(items, i, v)))
      else None
    else if i >= |items| then None
    else
      var child := EditAt(add, items[i], p.rest, v);
      if child.None? then None else Some(List(items[i := child.value]))
  }

  function Apply(doc: Json, op: Op): Option<Json>
  {
    var p := PathOf(op.path);
    if p.None? then None else EditAt(op.add, doc, p.value, op.value)
  }

  /** The document after the first `n` operations. */
  function ApplyFirst(doc: Json, ops: seq<Op>, n: nat): Option<Json>
    requires n <= |ops|
  {
    if n == 0 then Some(doc)
    else
      var before := ApplyFirst(doc, ops, n - 1);
      if before.None? then None else Apply(before.value, ops[n - 1])
  }

  function ApplyAll(doc: Json, ops: seq<Op>): Option<Json> { ApplyFirst(doc, ops, |ops|) }

  lemma {:induction false} ApplyFirstOf(doc: Json, ops: seq<Op>, op: Op, n: nat)
    requires n <= |ops|
    ensures ApplyFirst(doc, ops + [op], n) == ApplyFirst(doc, ops, n)
  {
    if n > 0 {
      ApplyFirstOf(doc, ops, op, n - 1);
      assert (ops + [op])[n - 1] == ops[n - 1];
    }
  }

  lemma ApplyOneMore(doc: Json, ops: seq<Op>, op: Op)
    requires ApplyAll(doc, ops).Some?
    ensures ApplyAll(doc, ops + [op]) == Apply(ApplyAll(doc, ops).value, op)
  {
    ApplyFirstOf(doc, ops, op, |ops|);
    assert (ops + [op])[|ops|] == op;
  }

  lemma {:induction false} EditIsPut(add: bool, doc: Json, p: Path, v: Json)
    requires p.At? && Open(doc, p) && (add || Get(doc, p).Some?)
    ensures Apply(doc, Op(add, Ptr(p), v)) == Some(Put(doc, p, v))
  {
    PathOfPtr(p);
    EditAtIsPut(add, doc, p, v);
  }

  lemma {:induction false} EditAtIsPut(add: bool, doc: Json, p: Path, v: Json)
    requires p.At? && Open(doc, p) && (add || Get(doc, p).Some?)
    ensures EditAt(add, doc, p, v) == Some(Put(doc, p, v))
  {
    if p.rest.At? { EditAtIsPut(add, doc.fields[p.key], p.rest, v); }
  }

  const LAST := At("-", Top)

  lemma {:induction false} AppendAtIsPut(doc: Json, p: Path, items: seq<Json>, v: Json)
    requires Get(doc, p) == Some(List(items))
    ensures EditAt(true, doc, Cat(p, LAST), v) == Some(Put(doc, p, List(items + [v])))
  {
    if p.At? { AppendAtIsPut(doc.fields[p.key], p.rest, items, v); }
  }

  lemma AppendIsPut(doc: Json, p: Path, items: seq<Json>, v: Json)
    requires Get(doc, p) == Some(List(items))
    ensures Apply(doc, Op(true, Ptr(p) + "/-", v)) == Some(Put(doc, p, List(items + [v])))
  {
    PtrOfCat(p, LAST);
    EscapeStep("-");
    assert "-"[1..] == "";
    assert Ptr(LAST) == "/-";
    PathOfPtr(Cat(p, LAST));
    AppendAtIsPut(doc, p, items, v);
  }
}
