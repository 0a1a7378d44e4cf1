/**
 Which parts of a native config string are credentials: a string is cut into literal text and
 secrets to seal. What a credential looks like is a parameter.
 */
module Classify {
  import opened Prelude
  import opened Text

  datatype Part = Part(text: string, secret: bool)

  /** Whether a name, and whether a value, looks like a credential. */
  datatype Shape = Shape(name: string -> bool, value: string -> bool)

  datatype Loc = InEnv | InHeader | InUrl | InCommand | InArg

  function Lit(s: string): Part { Part(s, false) }
  function Sealed(s: string): Part { Part(s, true) }

  function Concat(ps: seq<Part>): string { if ps == [] then "" else ps[0].text + Concat(ps[1..]) }

  function LowerByte(c: char): char { if 'A' <= c <= 'Z' then (c as int + 32) as char else c }

  function Lower(s: string): string { seq(|s|, i requires 0 <= i < |s| => LowerByte(s[i])) }

  predicate SafeHeader(name: string)
  {
    Lower(name) in {"accept", "content-type", "user-agent", "mcp-protocol-version"}
  }

  predicate Contains(s: string, sub: string) { exists i :: 0 <= i <= |s| && HasPrefix(s[i..], sub) }

  function TrimDashes(s: string): string { if s != [] && s[0] == '-' then TrimDashes(s[1..]) else s }

  const SCHEMES := ["Bearer ", "Basic ", "token "]

  /** `strings.Cut` at one byte: what is before and after it, or everything and nothing. */
  function Before(s: string, c: char): string { s[..IndexOf(s, c)] }

  function After(s: string, c: char): string { var k := IndexOf(s, c); if k < |s| then s[k + 1..] else "" }

  // ----- Cutting

  function SplitScheme(value: string): seq<Part>
  {
    if HasPrefix(value, SCHEMES[0]) && value != SCHEMES[0] then [Lit(SCHEMES[0]), Sealed(value[|SCHEMES[0]|..])]
    else if HasPrefix(value, SCHEMES[1]) && value != SCHEMES[1] then [Lit(SCHEMES[1]), Sealed(value[|SCHEMES[1]|..])]
    else if HasPrefix(value, SCHEMES[2]) && value != SCHEMES[2] then [Lit(SCHEMES[2]), Sealed(value[|SCHEMES[2]|..])]
    else [Sealed(value)]
  }

  function Add(out: seq<Part>, p: Part): seq<Part>
  {
    var n := |out| - 1;
    if n >= 0 && !p.secret && !out[n].secret then out[..n] + [Lit(out[n].text + p.text)]
    else if p.text != "" then out + [p]
    else out
  }

  /** Neighbouring literals joined, empty parts dropped. */
  function Merge(ps: seq<Part>): seq<Part>
  {
    if ps == [] then [] else Add(Merge(ps[..|ps| - 1]), ps[|ps| - 1])
  }

  method MergeLiterals(ps: seq<Part>) returns (out: seq<Part>)
    ensures out == Merge(ps)
  {
    out := [];
    for i := 0 to |ps|
      invariant out == Merge(ps[..i])
    {
      assert ps[..i + 1][..i] == ps[..i];
      var n := |out|;
      if n > 0 && !ps[i].secret && !out[n - 1].secret {
        out := out[..n - 1] + [Lit(out[n - 1].text + ps[i].text)];
      } else if ps[i].text != "" {
        out := out + [ps[i]];
      }
    }
    assert ps[..|ps|] == ps;
  }

  /** Path segments; the first one is a host and never a credential. */
  function SegParts(segs: seq<string>, first: bool, shape: Shape): seq<Part>
  {
    if segs == [] then []
    else
      (if first then [] else [Lit("/")]) +
      [Part(segs[0], !first && shape.value(segs[0]))] + SegParts(segs[1..], false, shape)
  }

  predicate SealsParam(k: string, v: string, shape: Shape)
  {
    v != "" && (shape.name(k) || Lower(k) == "key" || shape.value(v))
  }

  function ParamParts(kv: string, shape: Shape): seq<Part>
  {
    if '=' in kv && SealsParam(Before(kv, '='), After(kv, '='), shape)
    then [Lit(Before(kv, '=') + "="), Sealed(After(kv, '='))]
    else [Lit(kv)]
  }

  function QueryParts(kvs: seq<string>, first: bool, shape: Shape): seq<Part>
  {
    if kvs == [] then []
    else (if first then [] else [Lit("&")]) + ParamParts(kvs[0], shape) + QueryParts(kvs[1..], false, shape)
  }

  predicate SchemeAt(u: string, i: nat) { i + 3 <= |u| && u[i] == ':' && u[i + 1] == '/' && u[i + 2] == '/' }

  function SchemeFrom(u: string, i: nat): (k: nat)
    requires i <= |u|
    ensures i <= k <= |u|
    ensures k < |u| ==> SchemeAt(u, k)
    ensures forall j {:trigger SchemeAt(u, j)} :: i <= j < k ==> !SchemeAt(u, j)
    decreases |u| - i
  {
    if i == |u| || SchemeAt(u, i) then i else SchemeFrom(u, i + 1)
  }

  /** First offset of "://", or |u|. */
  function SchemeEnd(u: string): (k: nat)
    ensures k <= |u|
    ensures k < |u| ==> SchemeAt(u, k)
    ensures forall j {:trigger SchemeAt(u, j)} :: 0 <= j < k ==> !SchemeAt(u, j)
  {
    SchemeFrom(u, 0)
  }

  predicate EndsAuthority(c: char) { c == '/' || c == '?' || c == '#' }

  function EndFrom(s: string, i: nat): (k: nat)
    requires i <= |s|
    ensures i <= k <= |s|
    ensures k < |s| ==> EndsAuthority(s[k])
    ensures forall j :: i <= j < k ==> !EndsAuthority(s[j])
    decreases |s| - i
  {
    if i == |s| || EndsAuthority(s[i]) then i else EndFrom(s, i + 1)
  }

  /** `strings.IndexAny(s, "/?#")`, or |s|. */
  function AuthorityEnd(s: string): (k: nat)
    ensures k <= |s|
    ensures k < |s| ==> EndsAuthority(s[k])
    ensures forall j :: 0 <= j < k ==> !EndsAuthority(s[j])
  {
    EndFrom(s, 0)
  }

  function LastAtBefore(s: string, n: nat): (k: int)
    requires n <= |s|
    ensures -1 <= k < n && (k >= 0 ==> s[k] == '@')
    ensures forall j :: k < j < n ==> s[j] != '@'
  {
    if n == 0 then -1 else if s[n - 1] == '@' then n - 1 else LastAtBefore(s, n - 1)
  }

  /** `strings.LastIndex(s, "@")`, or -1. */
  function LastAt(s: string): (k: int)
    ensures -1 <= k < |s| && (k >= 0 ==> s[k] == '@')
    ensures forall j :: k < j < |s| ==> s[j] != '@'
  {
    LastAtBefore(s, |s|)
  }

  /** Scheme and userinfo, and where the rest begins. */
  function HeadParts(u: string): (r: (seq<Part>, nat))
    ensures r.1 <= |u|
  {
    var k := SchemeEnd(u);
    if k == |u| then ([], 0)
    else
      var rest := u[k + 3..];
      var at := LastAt(rest[..AuthorityEnd(rest)]);
      if at > 0 then ([Lit(u[..k + 3]), Sealed(rest[..at]), Lit("@")], k + 4 + at)
      else ([Lit(u[..k + 3])], k + 3)
  }

  function TailParts(rest: string, shape: Shape): seq<Part>
  {
    SegParts(Split(Before(rest, '?'), '/'), true, shape) +
    if '?' in rest then [Lit("?")] + QueryParts(Split(After(rest, '?'), '&'), true, shape) else []
  }

  function UrlParts(u: string, shape: Shape): seq<Part>
  {
    var (head, at) := HeadParts(u);
    Merge(head + TailParts(u[at..], shape))
  }

  lemma SegStep(segs: seq<string>, i: nat, shape: Shape)
    requires i < |segs|
    ensures var one := Part(segs[i], i > 0 && shape.value(segs[i]));
            SegParts(segs[i..], i == 0, shape) ==
            (if i > 0 then [Lit("/")] + [one] else [one]) + SegParts(segs[i + 1..], false, shape)
  {
    var rest := segs[i..];
    assert rest[0] == segs[i] && rest[1..] == segs[i + 1..];
    NothingAfter([Part(segs[i], i > 0 && shape.value(segs[i]))]);
  }

  method AddSegments(before: seq<Part>, segs: seq<string>, shape: Shape) returns (out: seq<Part>)
    ensures out == before + SegParts(segs, true, shape)
  {
    out := before;
    assert segs[0..] == segs;
    for i := 0 to |segs|
      invariant before + SegParts(segs, true, shape) == out + SegParts(segs[i..], i == 0, shape)
    {
      SegStep(segs, i, shape);
      var one := [Part(segs[i], i > 0 && shape.value(segs[i]))];
      if i > 0 { one := [Lit("/")] + one; }
      Regroup(out, one, SegParts(segs[i + 1..], false, shape));
      out := out + one;
    }
  }

  lemma QueryStep(kvs: seq<string>, i: nat, shape: Shape)
    requires i < |kvs|
    ensures QueryParts(kvs[i..], i == 0, shape) ==
            (if i > 0 then [Lit("&")] + ParamParts(kvs[i], shape) else ParamParts(kvs[i], shape)) +
            QueryParts(kvs[i + 1..], false, shape)
  {
    var rest := kvs[i..];
    assert rest[0] == kvs[i] && rest[1..] == kvs[i + 1..];
    NothingAfter(ParamParts(kvs[i], shape));
  }

  method AddQuery(before: seq<Part>, kvs: seq<string>, shape: Shape) returns (out: seq<Part>)
    ensures out == before + QueryParts(kvs, true, shape)
  {
    out := before;
    assert kvs[0..] == kvs;
    for i := 0 to |kvs|
      invariant before + QueryParts(kvs, true, shape) == out + QueryParts(kvs[i..], i == 0, shape)
    {
      QueryStep(kvs, i, shape);
      var one := ParamParts(kvs[i], shape);
      if i > 0 { one := [Lit("&")] + one; }
      Regroup(out, one, QueryParts(kvs[i + 1..], false, shape));
      out := out + one;
    }
  }

  /** The URL cut as the source runs it: two loops appending to one list, then the merge. */
  method CutUrl(u: string, shape: Shape) returns (parts: seq<Part>)
    ensures parts == UrlParts(u, shape)
  {
    var (head, at) := HeadParts(u);
    var rest := u[at..];
    var path := AddSegments([], Split(Before(rest, '?'), '/'), shape);
    var out := head + path;
    if '?' in rest {
      var query := AddQuery([Lit("?")], Split(After(rest, '?'), '&'), shape);
      out := head + (path + query);
    }
    assert path == SegParts(Split(Before(rest, '?'), '/'), true, shape);
    assert '?' !in rest ==> TailParts(rest, shape) == path + [] == path;
    parts := MergeLiterals(out);
  }

  function UrlValue(v: string, shape: Shape): seq<Part>
  {
    if SchemeEnd(v) < |v| then UrlParts(v, shape) else [Lit(v)]
  }

  /** One argument, after `prev`: --flag=value, a value after a secret flag, else by its look. */
  function ArgParts(prev: string, v: string, shape: Shape): seq<Part>
  {
    if HasPrefix(v, "-") then
      if '=' in v && After(v, '=') != "" && shape.name(TrimDashes(Before(v, '=')))
      then [Lit(Before(v, '=') + "=")] + SplitScheme(After(v, '='))
      else [Lit(v)]
    else if HasPrefix(prev, "-") && '=' !in prev && shape.name(TrimDashes(prev)) then SplitScheme(v)
    else if shape.value(v) then [Sealed(v)]
    else UrlValue(v, shape)
  }

  predicate Untouched(value: string) { value == "" || Contains(value, "${") || Contains(value, "{env:") }

  function Parts(l: Loc, name: string, value: string, shape: Shape): seq<Part>
  {
    if Untouched(value) then [Lit(value)]
    else match l
      case InEnv => if shape.name(name) || shape.value(value) then SplitScheme(value) else UrlValue(value, shape)
      case InHeader => if SafeHeader(name) then [Lit(value)] else SplitScheme(value)
      case InUrl => UrlParts(value, shape)
      case InCommand => [Part(value, shape.value(value))]
      case InArg => ArgParts(name, value, shape)
  }

  predicate HasSecret(ps: seq<Part>) { exists i :: 0 <= i < |ps| && ps[i].secret }

  // ----- Nothing is lost, and a reference can stand in for every secret

  /** Literal text right before a secret that a following `${` cannot turn into an escape. */
  predicate EndsSafely(s: string) { s != "" && s[|s| - 1] in {'/', '=', ' '} }

  predicate SafeLiteral(p: Part) { !p.secret && EndsSafely(p.text) }

  predicate GuardedAt(ps: seq<Part>, i: nat)
    requires 0 < i < |ps|
  {
    ps[i].secret ==> SafeLiteral(ps[i - 1])
  }

  /** Before every secret stands nothing, or a literal that ends safely. */
  ghost predicate Guarded(ps: seq<Part>) { forall i {:trigger GuardedAt(ps, i)} :: 0 < i < |ps| ==> GuardedAt(ps, i) }

  lemma {:induction false} ConcatSplit(a: seq<Part>, b: seq<Part>)
    ensures Concat(a + b) == Concat(a) + Concat(b)
  {
    if a == [] {
      assert a + b == b;
    } else {
      assert (a + b)[1..] == a[1..] + b;
      ConcatSplit(a[1..], b);
      Regroup(a[0].text, Concat(a[1..]), Concat(b));
    }
  }

  lemma ConcatOne(p: Part)
    ensures Concat([p]) == p.text
  {
    assert [p][1..] == [];
  }

  lemma {:induction false} MergeKeeps(ps: seq<Part>)
    ensures Concat(Merge(ps)) == Concat(ps)
  {
    if ps != [] {
      var n := |ps| - 1;
      MergeKeeps(ps[..n]);
      ConcatSplit(ps[..n], [ps[n]]);
      assert ps == ps[..n] + [ps[n]];
      ConcatOne(ps[n]);
      AddKeeps(Merge(ps[..n]), ps[n]);
    }
  }

  lemma AddKeeps(out: seq<Part>, p: Part)
    ensures Concat(Add(out, p)) == Concat(out) + p.text
  {
    var n := |out| - 1;
    if n >= 0 && !p.secret && !out[n].secret {
      assert out == out[..n] + [out[n]];
      ConcatSplit(out[..n], [out[n]]);
      ConcatSplit(out[..n], [Lit(out[n].text + p.text)]);
      ConcatOne(out[n]);
      ConcatOne(Lit(out[n].text + p.text));
    } else {
      ConcatSplit(out, [p]);
      ConcatOne(p);
    }
  }

  lemma ConcatTwo(p: Part, q: Part)
    ensures Concat([p, q]) == p.text + q.text
  {
    assert [p, q] == [p] + [q];
    ConcatSplit([p], [q]);
    ConcatOne(p);
    ConcatOne(q);
  }

  lemma ConcatThree(p: Part, q: Part, r: Part)
    ensures Concat([p, q, r]) == p.text + (q.text + r.text)
  {
    assert [p, q, r] == [p] + [q, r];
    ConcatSplit([p], [q, r]);
    ConcatOne(p);
    ConcatTwo(q, r);
  }

  /** Text before the parts after the first: the separator, unless nothing came before or nothing comes. */
  function Between(first: bool, items: seq<string>, sep: char): string { if first || items == [] then "" else [sep] }

  /** One item, then the rest with its separator in front, is the joined text. */
  lemma JoinStep(items: seq<string>, first: bool, sep: char)
    requires items != []
    ensures Between(first, items, sep) + items[0] + (Between(false, items[1..], sep) + Join(items[1..], sep)) ==
            Between(first, items, sep) + Join(items, sep)
  {
    var rest := items[1..];
    if rest == [] {
      assert items == [items[0]];
    } else {
      Regroup(items[0], [sep], Join(rest, sep));
    }
    Regroup(Between(first, items, sep), items[0], Between(false, rest, sep) + Join(rest, sep));
  }

  lemma HeadTextIs(first: bool, items: seq<string>, sep: char, one: seq<Part>)
    requires items != []
    ensures Concat((if first then [] else [Lit([sep])]) + one) == Between(first, items, sep) + Concat(one)
  {
    ConcatSplit(if first then [] else [Lit([sep])], one);
    ConcatOne(Lit([sep]));
  }

  lemma {:induction false} SegsKeep(segs: seq<string>, first: bool, shape: Shape)
    ensures Concat(SegParts(segs, first, shape)) == Between(first, segs, '/') + Join(segs, '/')
  {
    if segs != [] {
      SegsKeep(segs[1..], false, shape);
      var one := [Part(segs[0], !first && shape.value(segs[0]))];
      ConcatSplit((if first then [] else [Lit("/")]) + one, SegParts(segs[1..], false, shape));
      HeadTextIs(first, segs, '/', one);
      ConcatOne(one[0]);
      JoinStep(segs, first, '/');
    }
  }

  lemma ParamKeeps(kv: string, shape: Shape)
    ensures Concat(ParamParts(kv, shape)) == kv
  {
    ConcatOne(Lit(kv));
    if '=' in kv {
      CutKeeps(kv, '=');
      ConcatTwo(Lit(Before(kv, '=') + "="), Sealed(After(kv, '=')));
      Regroup(Before(kv, '='), "=", After(kv, '='));
    }
  }

  lemma {:induction false} QueryKeeps(kvs: seq<string>, first: bool, shape: Shape)
    ensures Concat(QueryParts(kvs, first, shape)) == Between(first, kvs, '&') + Join(kvs, '&')
  {
    if kvs != [] {
      QueryKeeps(kvs[1..], false, shape);
      var one := ParamParts(kvs[0], shape);
      ConcatSplit((if first then [] else [Lit("&")]) + one, QueryParts(kvs[1..], false, shape));
      HeadTextIs(first, kvs, '&', one);
      ParamKeeps(kvs[0], shape);
      JoinStep(kvs, first, '&');
    }
  }

  lemma CutKeeps(s: string, c: char)
    ensures s == Before(s, c) + if c in s then [c] + After(s, c) else ""
  {
    var k := IndexOf(s, c);
    if k == |s| { assert s[..k] == s; } else { assert s == s[..k] + [c] + s[k + 1..]; }
  }

  lemma QueryTailKeeps(q: string, shape: Shape)
    ensures Concat([Lit("?")] + QueryParts(Split(q, '&'), true, shape)) == "?" + q
  {
    QueryKeeps(Split(q, '&'), true, shape);
    ConcatSplit([Lit("?")], QueryParts(Split(q, '&'), true, shape));
    ConcatOne(Lit("?"));
  }

  lemma TailKeeps(rest: string, shape: Shape)
    ensures Concat(TailParts(rest, shape)) == rest
  {
    var segs := Split(Before(rest, '?'), '/');
    SegsKeep(segs, true, shape);
    CutKeeps(rest, '?');
    if '?' in rest {
      QueryTailKeeps(After(rest, '?'), shape);
      ConcatSplit(SegParts(segs, true, shape), [Lit("?")] + QueryParts(Split(After(rest, '?'), '&'), true, shape));
      Regroup(Before(rest, '?'), "?", After(rest, '?'));
    } else {
      NothingAfter(SegParts(segs, true, shape));
    }
  }

  lemma HeadKeeps(u: string)
    ensures Concat(HeadParts(u).0) == u[..HeadParts(u).1]
  {
    var k := SchemeEnd(u);
    if k < |u| {
      var rest := u[k + 3..];
      var at := LastAt(rest[..AuthorityEnd(rest)]);
      ConcatOne(Lit(u[..k + 3]));
      if at > 0 {
        ConcatThree(Lit(u[..k + 3]), Sealed(rest[..at]), Lit("@"));
        UserInText(u, k + 3, at);
      }
    }
  }

  lemma UserInText(u: string, k: nat, at: nat)
    requires k <= |u| && at < |u[k..]| && u[k..][at] == '@'
    ensures u[..k + at + 1] == u[..k] + (u[k..][..at] + "@")
  {
    assert u[..k + at + 1] == u[..k] + u[k..k + at] + [u[k + at]];
    assert u[k..][..at] == u[k..k + at];
  }

  lemma UrlKeeps(u: string, shape: Shape)
    ensures Concat(UrlParts(u, shape)) == u
  {
    var (head, at) := HeadParts(u);
    HeadKeeps(u);
    TailKeeps(u[at..], shape);
    MergeBoth(head, TailParts(u[at..], shape));
    CutInTwo(u, at);
  }

  lemma MergeBoth(head: seq<Part>, tail: seq<Part>)
    ensures Concat(Merge(head + tail)) == Concat(head) + Concat(tail)
  {
    ConcatSplit(head, tail);
    MergeKeeps(head + tail);
  }

  lemma SchemeKeeps(value: string)
    ensures Concat(SplitScheme(value)) == value
  {
    var ps := SplitScheme(value);
    if |ps| == 2 {
      assert ps == [ps[0], ps[1]];
      ConcatTwo(ps[0], ps[1]);
      assert value == ps[0].text + ps[1].text;
    } else {
      ConcatOne(Sealed(value));
    }
  }

  lemma FlagKeeps(v: string)
    requires '=' in v
    ensures Concat([Lit(Before(v, '=') + "=")] + SplitScheme(After(v, '='))) == v
  {
    CutKeeps(v, '=');
    SchemeKeeps(After(v, '='));
    ConcatSplit([Lit(Before(v, '=') + "=")], SplitScheme(After(v, '=')));
    ConcatOne(Lit(Before(v, '=') + "="));
  }

  lemma UrlValueKeeps(v: string, shape: Shape)
    ensures Concat(UrlValue(v, shape)) == v
  {
    if SchemeEnd(v) < |v| { UrlKeeps(v, shape); } else { ConcatOne(Lit(v)); }
  }

  lemma ArgKeeps(prev: string, v: string, shape: Shape)
    ensures Concat(ArgParts(prev, v, shape)) == v
  {
    ConcatOne(Lit(v));
    ConcatOne(Sealed(v));
    if HasPrefix(v, "-") {
      if '=' in v { FlagKeeps(v); }
    } else {
      SchemeKeeps(v);
      UrlValueKeeps(v, shape);
    }
  }

  /** The parts of a string, put back together, are the string. */
  lemma PartsKeep(l: Loc, name: string, value: string, shape: Shape)
    ensures Concat(Parts(l, name, value, shape)) == value
  {
    if Untouched(value) {
      ConcatOne(Lit(value));
      return;
    }
    match l
    case InEnv =>
      SchemeKeeps(value);
      UrlValueKeeps(value, shape);
    case InHeader =>
      ConcatOne(Lit(value));
      SchemeKeeps(value);
    case InUrl => UrlKeeps(value, shape);
    case InCommand => ConcatOne(Part(value, shape.value(value)));
    case InArg => ArgKeeps(name, value, shape);
  }

  predicate StartsLiteral(ps: seq<Part>) { ps == [] || !ps[0].secret }

  lemma GuardedConcat(a: seq<Part>, b: seq<Part>)
    requires Guarded(a) && Guarded(b) && StartsLiteral(b)
    ensures Guarded(a + b)
  {
    var r := a + b;
    forall i | 0 < i < |r| ensures GuardedAt(r, i) {
      if i < |a| { assert GuardedAt(a, i); } else if i > |a| { assert GuardedAt(b, i - |a|); }
    }
  }

  lemma OneGuarded(p: Part)
    ensures Guarded([p]) && (!p.secret ==> StartsLiteral([p]))
  {
  }

  lemma TwoGuarded(p: Part, q: Part)
    requires !p.secret && (q.secret ==> EndsSafely(p.text))
    ensures Guarded([p, q]) && StartsLiteral([p, q])
  {
    assert GuardedAt([p, q], 1);
  }

  lemma {:induction false} SegsGuarded(segs: seq<string>, first: bool, shape: Shape)
    ensures Guarded(SegParts(segs, first, shape)) && StartsLiteral(SegParts(segs, first, shape))
  {
    if segs != [] {
      var one := Part(segs[0], !first && shape.value(segs[0]));
      SegsGuarded(segs[1..], false, shape);
      var more := SegParts(segs[1..], false, shape);
      if first {
        OneGuarded(one);
        GuardedConcat([one], more);
        assert [] + [one] == [one];
      } else {
        TwoGuarded(Lit("/"), one);
        GuardedConcat([Lit("/"), one], more);
        assert [Lit("/")] + [one] == [Lit("/"), one];
      }
    }
  }

  lemma ParamGuarded(kv: string, shape: Shape)
    ensures Guarded(ParamParts(kv, shape)) && StartsLiteral(ParamParts(kv, shape)) && ParamParts(kv, shape) != []
  {
    if '=' in kv && SealsParam(Before(kv, '='), After(kv, '='), shape) {
      TwoGuarded(Lit(Before(kv, '=') + "="), Sealed(After(kv, '=')));
    } else {
      OneGuarded(Lit(kv));
    }
  }

  lemma {:induction false} QueryGuarded(kvs: seq<string>, first: bool, shape: Shape)
    ensures Guarded(QueryParts(kvs, first, shape)) && StartsLiteral(QueryParts(kvs, first, shape))
  {
    if kvs != [] {
      var head, one := if first then [] else [Lit("&")], ParamParts(kvs[0], shape);
      QueryGuarded(kvs[1..], false, shape);
      ParamGuarded(kvs[0], shape);
      OneGuarded(Lit("&"));
      GuardedConcat(head, one);
      GuardedConcat(head + one, QueryParts(kvs[1..], false, shape));
    }
  }

  lemma TailGuarded(rest: string, shape: Shape)
    ensures Guarded(TailParts(rest, shape)) && StartsLiteral(TailParts(rest, shape))
  {
    var segs, kvs := Split(Before(rest, '?'), '/'), Split(After(rest, '?'), '&');
    var path, query := SegParts(segs, true, shape), QueryParts(kvs, true, shape);
    SegsGuarded(segs, true, shape);
    QueryGuarded(kvs, true, shape);
    OneGuarded(Lit("?"));
    GuardedConcat([Lit("?")], query);
    GuardedConcat(path, if '?' in rest then [Lit("?")] + query else []);
  }

  lemma AddLast(out: seq<Part>, p: Part)
    requires SafeLiteral(p)
    ensures var r := Add(out, p); r != [] && SafeLiteral(r[|r| - 1])
  {
    var n := |out| - 1;
    if n >= 0 && !out[n].secret {
      var t := out[n].text + p.text;
      assert t[|t| - 1] == p.text[|p.text| - 1];
    }
  }

  lemma GuardedFront(ps: seq<Part>)
    requires Guarded(ps) && ps != []
    ensures Guarded(ps[..|ps| - 1]) && (|ps| > 1 && ps[|ps| - 1].secret ==> SafeLiteral(ps[|ps| - 2]))
  {
    var n := |ps| - 1;
    var front := ps[..n];
    forall i | 0 < i < |front| ensures GuardedAt(front, i) { assert GuardedAt(ps, i); }
    if n > 0 { assert GuardedAt(ps, n); }
  }

  lemma MergeOne(ps: seq<Part>)
    requires ps != []
    ensures Merge(ps) == Add(Merge(ps[..|ps| - 1]), ps[|ps| - 1])
  {
  }

  lemma {:induction false} MergeGuarded(ps: seq<Part>)
    requires Guarded(ps)
    ensures Guarded(Merge(ps))
  {
    if ps != [] {
      var n := |ps| - 1;
      var front := ps[..n];
      GuardedFront(ps);
      MergeGuarded(front);
      if n > 0 && ps[n].secret {
        AddLast(Merge(front[..n - 1]), front[n - 1]);
        MergeOne(front);
      }
      AddGuarded(Merge(front), ps[n]);
    }
  }

  lemma AddGuarded(out: seq<Part>, p: Part)
    requires Guarded(out) && (p.secret && out != [] ==> SafeLiteral(out[|out| - 1]))
    ensures Guarded(Add(out, p))
  {
    var r := Add(out, p);
    forall i | 0 < i < |r| ensures GuardedAt(r, i) { if i < |out| { assert GuardedAt(out, i); } }
  }

  lemma HeadGuarded(u: string)
    ensures Guarded(HeadParts(u).0)
  {
    var head := HeadParts(u).0;
    var k := SchemeEnd(u);
    if k < |u| {
      var scheme := u[..k + 3];
      assert scheme[k + 2] == u[k + 2] == '/';
      assert EndsSafely(scheme);
    }
    forall i | 0 < i < |head| ensures GuardedAt(head, i) {}
  }

  lemma UrlGuarded(u: string, shape: Shape)
    ensures Guarded(UrlParts(u, shape))
  {
    var (head, at) := HeadParts(u);
    HeadGuarded(u);
    TailGuarded(u[at..], shape);
    GuardedConcat(head, TailParts(u[at..], shape));
    MergeGuarded(head + TailParts(u[at..], shape));
  }

  predicate AlternatesAt(ps: seq<Part>, i: nat)
    requires 0 < i < |ps|
  {
    ps[i].secret || ps[i - 1].secret
  }

  /** No two literals side by side. */
  ghost predicate Alternates(ps: seq<Part>)
  {
    forall i {:trigger AlternatesAt(ps, i)} :: 0 < i < |ps| ==> AlternatesAt(ps, i)
  }

  lemma AddAlternates(out: seq<Part>, p: Part)
    requires Alternates(out)
    ensures Alternates(Add(out, p))
  {
    var r := Add(out, p);
    forall i | 0 < i < |r| ensures AlternatesAt(r, i) { if i < |out| { assert AlternatesAt(out, i); } }
  }

  lemma {:induction false} MergeAlternates(ps: seq<Part>)
    ensures Alternates(Merge(ps))
  {
    if ps != [] {
      MergeAlternates(ps[..|ps| - 1]);
      AddAlternates(Merge(ps[..|ps| - 1]), ps[|ps| - 1]);
    }
  }

  /** Literal text ends safely unless it is the last part. */
  ghost predicate Framed(ps: seq<Part>)
  {
    forall i {:trigger ps[i]} :: 0 <= i < |ps| - 1 && !ps[i].secret ==> EndsSafely(ps[i].text)
  }

  lemma FramedIfMerged(ps: seq<Part>)
    requires Guarded(ps) && Alternates(ps)
    ensures Framed(ps)
  {
    forall i {:trigger ps[i]} | 0 <= i < |ps| - 1 && !ps[i].secret ensures EndsSafely(ps[i].text) {
      assert AlternatesAt(ps, i + 1) && GuardedAt(ps, i + 1);
    }
  }

  lemma UrlFramed(u: string, shape: Shape)
    ensures Framed(UrlParts(u, shape))
  {
    UrlGuarded(u, shape);
    var (head, at) := HeadParts(u);
    MergeAlternates(head + TailParts(u[at..], shape));
    FramedIfMerged(UrlParts(u, shape));
  }

  lemma FlagFramed(v: string)
    requires '=' in v
    ensures Framed([Lit(Before(v, '=') + "=")] + SplitScheme(After(v, '=')))
  {
  }

  lemma SchemeFramed(value: string)
    ensures Framed(SplitScheme(value))
  {
  }

  lemma ArgFramed(prev: string, v: string, shape: Shape)
    ensures Framed(ArgParts(prev, v, shape))
  {
    SchemeFramed(v);
    UrlFramed(v, shape);
    if '=' in v { FlagFramed(v); }
  }

  /** Before every secret stands literal text that ends safely, or nothing. */
  lemma PartsFramed(l: Loc, name: string, value: string, shape: Shape)
    ensures Framed(Parts(l, name, value, shape))
  {
    if Untouched(value) { return; }
    match l
    case InEnv =>
      SchemeFramed(value);
      UrlFramed(value, shape);
    case InHeader => SchemeFramed(value);
    case InUrl => UrlFramed(value, shape);
    case InCommand =>
    case InArg => ArgFramed(name, value, shape);
  }
}
