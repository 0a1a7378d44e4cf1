/**
 What cutting a URL seals, said about URLs and not about offsets: the userinfo, the path segments
 that look like credentials, and the values of credential parameters - those and nothing else.
 */
module UrlSecrets {
  import opened Prelude
  import opened Text
  import opened Classify

  /**
   A URL as its writer thinks of it. `user` is "" without userinfo, and a fragment that follows the
   authority at once belongs to `host`.
   */
  datatype Url = Url(scheme: string, user: string, host: string, path: seq<string>, hasQuery: bool, params: seq<string>)

  predicate Free(s: string, cs: set<char>) { forall i :: 0 <= i < |s| ==> s[i] !in cs }

  /** The part of the host that belongs to the authority. */
  function Authority(host: string): string { host[..IndexOf(host, '#')] }

  /** The scheme ends at the first "://", and the last @ of the authority is the one after the userinfo. */
  ghost predicate Proper(u: Url)
  {
    && SchemeEnd(u.scheme + "://") == |u.scheme|
    && Free(u.user, {'/', '?', '#'})
    && LastAt(Authority(u.host)) <= (if u.user == "" then 0 else -1)
    && ProperTail(u)
  }

  /** The pieces from the host on are free of what separates them. */
  ghost predicate ProperTail(u: Url)
  {
    && Free(u.host, {'/', '?'}) && (forall i :: 0 <= i < |u.path| ==> Free(u.path[i], {'/', '?'}))
    && (u.hasQuery ==> u.params != []) && forall i :: 0 <= i < |u.params| ==> Free(u.params[i], {'&'})
  }

  function Slashed(path: seq<string>): string { if path == [] then "" else "/" + path[0] + Slashed(path[1..]) }

  function Query(u: Url): string { if u.hasQuery then "?" + Join(u.params, '&') else "" }

  function Written(u: Url): string { u.scheme + ("://" + (UserHost(u.user, u.host) + (Slashed(u.path) + Query(u)))) }

  /** The texts of the secret parts, in order. */
  function Secrets(ps: seq<Part>): seq<string>
  {
    if ps == [] then []
    else if ps[0].secret then [ps[0].text] + Secrets(ps[1..])
    else Secrets(ps[1..])
  }

  function Credentials(path: seq<string>, shape: Shape): seq<string>
  {
    if path == [] then [] else (if shape.value(path[0]) then [path[0]] else []) + Credentials(path[1..], shape)
  }

  function ParamSecrets(params: seq<string>, shape: Shape): seq<string>
  {
    if params == [] then []
    else
      var kv := params[0];
      (if '=' in kv && SealsParam(Before(kv, '='), After(kv, '='), shape) then [After(kv, '=')] else []) +
      ParamSecrets(params[1..], shape)
  }

  lemma {:induction false} SecretsConcat(a: seq<Part>, b: seq<Part>)
    ensures Secrets(a + b) == Secrets(a) + Secrets(b)
  {
    if a == [] {
      NothingBefore(b);
      NothingBefore(Secrets(b));
      return;
    }
    SecretsConcat(a[1..], b);
    assert (a + b)[1..] == a[1..] + b;
    if a[0].secret { Regroup([a[0].text], Secrets(a[1..]), Secrets(b)); }
  }

  lemma SecretsOne(p: Part)
    ensures Secrets([p]) == if p.secret then [p.text] else []
  {
    assert [p][1..] == [];
  }

  ghost predicate NoEmptySecret(ps: seq<Part>) { forall i :: 0 <= i < |ps| && ps[i].secret ==> ps[i].text != "" }

  lemma AddSecrets(out: seq<Part>, p: Part)
    requires p.secret ==> p.text != ""
    ensures Secrets(Add(out, p)) == Secrets(out) + if p.secret then [p.text] else []
  {
    SecretsConcat(out, [p]);
    SecretsOne(p);
    var n := |out| - 1;
    if n >= 0 && !p.secret && !out[n].secret {
      var joined := Lit(out[n].text + p.text);
      assert out == out[..n] + [out[n]];
      SecretsConcat(out[..n], [out[n]]);
      SecretsConcat(out[..n], [joined]);
      SecretsOne(out[n]);
      SecretsOne(joined);
    }
  }

  lemma {:induction false} MergeSecrets(ps: seq<Part>)
    requires NoEmptySecret(ps)
    ensures Secrets(Merge(ps)) == Secrets(ps)
  {
    if ps != [] {
      var n := |ps| - 1;
      MergeSecrets(ps[..n]);
      AddSecrets(Merge(ps[..n]), ps[n]);
      assert ps == ps[..n] + [ps[n]];
      SecretsConcat(ps[..n], [ps[n]]);
      SecretsOne(ps[n]);
    }
  }

  lemma {:induction false} SegSecrets(segs: seq<string>, shape: Shape)
    ensures Secrets(SegParts(segs, false, shape)) == Credentials(segs, shape)
  {
    if segs != [] {
      SegSecrets(segs[1..], shape);
      var one := Part(segs[0], shape.value(segs[0]));
      SecretsConcat([Lit("/")] + [one], SegParts(segs[1..], false, shape));
      SecretsConcat([Lit("/")], [one]);
      SecretsOne(one);
      SecretsOne(Lit("/"));
    }
  }

  lemma HostAndPath(host: string, path: seq<string>, shape: Shape)
    ensures Secrets(SegParts([host] + path, true, shape)) == Credentials(path, shape)
  {
    assert ([host] + path)[1..] == path;
    SegSecrets(path, shape);
    SecretsConcat([Lit(host)], SegParts(path, false, shape));
    SecretsOne(Lit(host));
    assert [] + [Lit(host)] + SegParts(path, false, shape) == [Lit(host)] + SegParts(path, false, shape);
  }

  lemma OneParamSecrets(kv: string, shape: Shape)
    ensures Secrets(ParamParts(kv, shape)) ==
            if '=' in kv && SealsParam(Before(kv, '='), After(kv, '='), shape) then [After(kv, '=')] else []
  {
    var k, v := Lit(Before(kv, '=') + "="), Sealed(After(kv, '='));
    SecretsOne(Lit(kv));
    SecretsOne(k);
    SecretsOne(v);
    SecretsConcat([k], [v]);
  }

  lemma {:induction false} QuerySecrets(kvs: seq<string>, first: bool, shape: Shape)
    ensures Secrets(QueryParts(kvs, first, shape)) == ParamSecrets(kvs, shape)
  {
    if kvs == [] { return; }
    QuerySecrets(kvs[1..], false, shape);
    var head, one := if first then [] else [Lit("&")], ParamParts(kvs[0], shape);
    SecretsConcat(head + one, QueryParts(kvs[1..], false, shape));
    SecretsConcat(head, one);
    SecretsOne(Lit("&"));
    NothingAfter(Secrets(one));
    OneParamSecrets(kvs[0], shape);
  }

  // ----- Reading the written URL back

  lemma SchemeEndIs(u: string, k: nat)
    requires SchemeAt(u, k) && forall j {:trigger SchemeAt(u, j)} :: 0 <= j < k ==> !SchemeAt(u, j)
    ensures SchemeEnd(u) == k
  {
  }

  /** Whether "://" stands at a place does not depend on what follows it. */
  lemma SchemeAtStays(s: string, rest: string, j: nat)
    requires j + 3 <= |s|
    ensures SchemeAt(s + rest, j) <==> SchemeAt(s, j)
  {
    var t := s + rest;
    assert t[j] == s[j] && t[j + 1] == s[j + 1] && t[j + 2] == s[j + 2];
  }

  /** The first "://" is found by what precedes it. */
  lemma SchemeEndStays(s: string, rest: string)
    requires SchemeEnd(s) < |s|
    ensures SchemeEnd(s + rest) == SchemeEnd(s)
  {
    var k := SchemeEnd(s);
    SchemeAtStays(s, rest, k);
    forall j | 0 <= j < k ensures !SchemeAt(s + rest, j) {
      SchemeAtStays(s, rest, j);
      assert !SchemeAt(s, j);
    }
    SchemeEndIs(s + rest, k);
  }

  predicate Ends(rest: string) { rest == "" || EndsAuthority(rest[0]) }

  lemma AuthorityEndAt(a: string, rest: string)
    requires Free(a, {'/', '?', '#'}) && Ends(rest)
    ensures AuthorityEnd(a + rest) == |a|
  {
    var s, n := a + rest, |a|;
    forall j | 0 <= j < n ensures !EndsAuthority(s[j]) { assert s[j] == a[j]; }
    assert n < |s| ==> s[n] == rest[0];
    AuthorityEndWhere(s, n);
  }

  lemma AuthorityEndWhere(s: string, n: nat)
    requires n <= |s| && (n < |s| ==> EndsAuthority(s[n])) && forall j :: 0 <= j < n ==> !EndsAuthority(s[j])
    ensures AuthorityEnd(s) == n
  {
  }

  lemma LastAtIs(user: string, host: string)
    requires LastAt(host) == -1
    ensures LastAt(user + "@" + host) == |user|
  {
    var s, n := user + "@" + host, |user|;
    assert s[n] == '@';
    forall j | n < j < |s| ensures s[j] != '@' { assert s[j] == host[j - n - 1]; }
  }

  function UserHost(user: string, host: string): string { if user == "" then host else user + "@" + host }

  /** The host is its part of the authority, then nothing or a fragment. */
  lemma HostSplits(host: string)
    requires Free(host, {'/', '?'})
    ensures var a := Authority(host);
            host == a + host[|a|..] && Free(a, {'/', '?', '#'}) && Ends(host[|a|..])
  {
    var k := IndexOf(host, '#');
    forall i | 0 <= i < k ensures host[..k][i] !in {'/', '?', '#'} { assert host[..k][i] == host[i]; }
  }

  lemma UserHostSplits(user: string, a: string, b: string)
    ensures UserHost(user, a + b) == UserHost(user, a) + b
  {
    if user != "" { Regroup(user + "@", a, b); }
  }

  /** The authority of what follows the scheme, and its last @. */
  lemma AuthorityIsRead(rest: string, user: string, host: string, tail: string)
    requires rest == UserHost(user, host) + tail && Free(user, {'/', '?', '#'}) && Free(host, {'/', '?'}) && Ends(tail)
    requires LastAt(Authority(host)) <= (if user == "" then 0 else -1)
    ensures rest[..AuthorityEnd(rest)] == UserHost(user, Authority(host))
  {
    var a := Authority(host);
    var frag := host[|a|..];
    var auth := UserHost(user, a);
    HostSplits(host);
    UserHostSplits(user, a, frag);
    Regroup(auth, frag, tail);
    FreeAuthority(user, a);
    EndsWith(frag, tail);
    AuthorityEndAt(auth, frag + tail);
  }

  lemma EndsWith(frag: string, tail: string)
    requires Ends(frag) && Ends(tail)
    ensures Ends(frag + tail)
  {
    if frag == "" { NothingAfter(tail); }
  }

  lemma FreeAuthority(user: string, a: string)
    requires Free(user, {'/', '?', '#'}) && Free(a, {'/', '?', '#'})
    ensures Free(UserHost(user, a), {'/', '?', '#'})
  {
  }

  /** Where the userinfo ends. */
  lemma UserEnds(user: string, a: string)
    requires LastAt(a) <= (if user == "" then 0 else -1)
    ensures if user == "" then LastAt(UserHost(user, a)) <= 0 else LastAt(UserHost(user, a)) == |user|
  {
    if user != "" { LastAtIs(user, a); }
  }

  lemma AfterScheme(w: string, scheme: string, rest: string)
    requires w == scheme + ("://" + rest)
    ensures |scheme| + 3 <= |w| && w[..|scheme| + 3] == scheme + "://" && w[|scheme| + 3..] == rest
  {
    Regroup(scheme, "://", rest);
  }

  lemma HeadPartsIs(w: string, k: nat, lit: string, rest: string, at: int)
    requires k + 3 <= |w| && SchemeEnd(w) == k && w[..k + 3] == lit && w[k + 3..] == rest
    requires at == LastAt(rest[..AuthorityEnd(rest)])
    ensures HeadParts(w) ==
            if at > 0 then ([Lit(lit), Sealed(rest[..at]), Lit("@")], k + 4 + at) else ([Lit(lit)], k + 3)
  {
  }

  lemma SchemeOfWritten(scheme: string, rest: string)
    requires SchemeEnd(scheme + "://") == |scheme|
    ensures SchemeEnd(scheme + ("://" + rest)) == |scheme|
  {
    SchemeEndStays(scheme + "://", rest);
    Regroup(scheme, "://", rest);
  }

  /** The pieces of a URL up to its host. */
  ghost predicate HeadFits(scheme: string, user: string, host: string, tail: string)
  {
    && SchemeEnd(scheme + "://") == |scheme| && Free(user, {'/', '?', '#'}) && Free(host, {'/', '?'}) && Ends(tail)
    && LastAt(Authority(host)) <= (if user == "" then 0 else -1)
  }

  /** What the scheme and the userinfo are cut into, and how long they are. */
  function HeadOf(scheme: string, user: string): seq<Part>
  {
    if user == "" then [Lit(scheme + "://")] else [Lit(scheme + "://"), Sealed(user), Lit("@")]
  }

  function HeadLen(scheme: string, user: string): nat { if user == "" then |scheme| + 3 else |scheme| + 4 + |user| }

  /** `rest` begins with the userinfo `user`, or has none. */
  ghost predicate UserRead(rest: string, user: string)
  {
    var at := LastAt(rest[..AuthorityEnd(rest)]);
    if user == "" then at <= 0 else at == |user| && |user| <= |rest| && rest[..|user|] == user
  }

  lemma UserIsRead(rest: string, user: string, host: string, tail: string)
    requires rest == UserHost(user, host) + tail && Free(user, {'/', '?', '#'}) && Free(host, {'/', '?'}) && Ends(tail)
    requires LastAt(Authority(host)) <= (if user == "" then 0 else -1)
    ensures UserRead(rest, user)
  {
    AuthorityIsRead(rest, user, host, tail);
    UserEnds(user, Authority(host));
    AfterUser(rest, user, host, tail);
  }

  /** The scheme is read as literal, the userinfo as secret, and the rest begins at the host. */
  lemma HeadIsRead(w: string, scheme: string, user: string, host: string, tail: string)
    requires HeadFits(scheme, user, host, tail) && w == scheme + ("://" + (UserHost(user, host) + tail))
    ensures HeadParts(w) == (HeadOf(scheme, user), HeadLen(scheme, user))
    ensures HeadLen(scheme, user) <= |w| && w[HeadLen(scheme, user)..] == host + tail
  {
    var rest := UserHost(user, host) + tail;
    UserIsRead(rest, user, host, tail);
    HeadBeforeRest(w, scheme, user, rest);
    RestAfterHead(w, scheme, user, rest, host, tail);
  }

  lemma HeadBeforeRest(w: string, scheme: string, user: string, rest: string)
    requires SchemeEnd(scheme + "://") == |scheme| && UserRead(rest, user) && w == scheme + ("://" + rest)
    ensures HeadParts(w) == (HeadOf(scheme, user), HeadLen(scheme, user))
  {
    SchemeOfWritten(scheme, rest);
    AfterScheme(w, scheme, rest);
    HeadPartsAre(w, scheme, user, rest);
  }

  lemma RestAfterHead(w: string, scheme: string, user: string, rest: string, host: string, tail: string)
    requires w == scheme + ("://" + rest) && rest == UserHost(user, host) + tail
    ensures HeadLen(scheme, user) <= |w| && w[HeadLen(scheme, user)..] == host + tail
  {
    AfterScheme(w, scheme, rest);
    AfterUser(rest, user, host, tail);
    DropMore(w, |scheme| + 3, rest, if user == "" then 0 else |user| + 1);
  }

  lemma HeadPartsAre(w: string, scheme: string, user: string, rest: string)
    requires |scheme| + 3 <= |w| && SchemeEnd(w) == |scheme| && w[..|scheme| + 3] == scheme + "://"
    requires w[|scheme| + 3..] == rest
    requires UserRead(rest, user)
    ensures HeadParts(w) == (HeadOf(scheme, user), HeadLen(scheme, user))
  {
    HeadPartsIs(w, |scheme|, scheme + "://", rest, LastAt(rest[..AuthorityEnd(rest)]));
  }

  lemma DropMore(w: string, k: nat, rest: string, n: nat)
    requires k <= |w| && w[k..] == rest && n <= |rest|
    ensures k + n <= |w| && w[k + n..] == rest[n..]
  {
  }

  lemma AfterUser(rest: string, user: string, host: string, tail: string)
    requires rest == UserHost(user, host) + tail
    ensures if user == "" then rest[0..] == host + tail
            else |user| < |rest| && rest[..|user|] == user && rest[|user| + 1..] == host + tail
  {
    if user != "" {
      var t := user + ("@" + (host + tail));
      Regroup(user + "@", host, tail);
      Regroup(user, "@", host + tail);
      assert rest == t && t[..|user|] == user && t[|user| + 1..] == host + tail;
    }
  }

  lemma TailStart(u: Url)
    ensures Ends(Slashed(u.path) + Query(u))
  {
  }

  lemma HeadSecrets(scheme: string, user: string)
    ensures Secrets(if user == "" then [Lit(scheme)] else [Lit(scheme), Sealed(user), Lit("@")]) ==
            if user == "" then [] else [user]
  {
    SecretsOne(Lit(scheme));
    if user != "" {
      assert [Lit(scheme), Sealed(user), Lit("@")] == [Lit(scheme)] + ([Sealed(user)] + [Lit("@")]);
      SecretsConcat([Lit(scheme)], [Sealed(user)] + [Lit("@")]);
      SecretsConcat([Sealed(user)], [Lit("@")]);
      SecretsOne(Sealed(user));
      SecretsOne(Lit("@"));
    }
  }

  lemma {:induction false} JoinIsSlashed(host: string, path: seq<string>)
    ensures Join([host] + path, '/') == host + Slashed(path)
    decreases path
  {
    if path != [] {
      assert ([host] + path)[1..] == [path[0]] + path[1..];
      JoinIsSlashed(path[0], path[1..]);
      assert host + ['/'] + (path[0] + Slashed(path[1..])) == host + ("/" + path[0] + Slashed(path[1..]));
    }
  }

  lemma {:induction false} SlashedFree(path: seq<string>)
    requires forall i :: 0 <= i < |path| ==> Free(path[i], {'/', '?'})
    ensures '?' !in Slashed(path)
  {
    if path != [] { SlashedFree(path[1..]); }
  }

  lemma NotFound(a: string, c: char)
    requires c !in a
    ensures IndexOf(a, c) == |a|
  {
  }

  lemma CutAt(a: string, c: char, b: string)
    requires c !in a
    ensures Before(a + ([c] + b), c) == a && After(a + ([c] + b), c) == b && c in a + ([c] + b)
  {
    assert a + ([c] + b) == a + [c] + b;
    IndexOfAppend(a, c, b);
  }

  lemma PathIsRead(u: Url)
    requires ProperTail(u)
    ensures '?' !in u.host + Slashed(u.path) && Split(u.host + Slashed(u.path), '/') == [u.host] + u.path
  {
    SlashedFree(u.path);
    JoinIsSlashed(u.host, u.path);
    SplitJoin([u.host] + u.path, '/');
  }

  lemma QueryIsRead(base: string, query: string, hasQuery: bool)
    requires '?' !in base
    ensures var rest := base + if hasQuery then "?" + query else "";
            && ('?' in rest <==> hasQuery) && Before(rest, '?') == base
            && (hasQuery ==> After(rest, '?') == query)
  {
    if hasQuery {
      CutAt(base, '?', query);
    } else {
      assert base + "" == base;
      NotFound(base, '?');
      assert base[..|base|] == base;
    }
  }

  lemma TailIsRead(u: Url, shape: Shape)
    requires ProperTail(u)
    ensures Secrets(TailParts(u.host + (Slashed(u.path) + Query(u)), shape)) ==
            Credentials(u.path, shape) + if u.hasQuery then ParamSecrets(u.params, shape) else []
  {
    var base := u.host + Slashed(u.path);
    PathIsRead(u);
    QueryIsRead(base, Join(u.params, '&'), u.hasQuery);
    if u.hasQuery { SplitJoin(u.params, '&'); }
    TailSecrets(base + Query(u), [u.host] + u.path, u.params, shape);
    HostAndPath(u.host, u.path, shape);
    Regroup(u.host, Slashed(u.path), Query(u));
  }

  lemma TailSecrets(rest: string, segs: seq<string>, kvs: seq<string>, shape: Shape)
    requires Split(Before(rest, '?'), '/') == segs && ('?' in rest ==> Split(After(rest, '?'), '&') == kvs)
    ensures Secrets(TailParts(rest, shape)) ==
            Secrets(SegParts(segs, true, shape)) + if '?' in rest then ParamSecrets(kvs, shape) else []
  {
    var path, query := SegParts(segs, true, shape), QueryParts(kvs, true, shape);
    QuerySecrets(kvs, true, shape);
    SecretsConcat([Lit("?")], query);
    SecretsOne(Lit("?"));
    SecretsConcat(path, if '?' in rest then [Lit("?")] + query else []);
  }

  // ----- No empty secret

  lemma {:induction false} SegsNotEmpty(segs: seq<string>, first: bool, shape: Shape)
    requires !shape.value("")
    ensures NoEmptySecret(SegParts(segs, first, shape))
  {
    if segs != [] { SegsNotEmpty(segs[1..], false, shape); }
  }

  lemma {:induction false} QueryNotEmpty(kvs: seq<string>, first: bool, shape: Shape)
    ensures NoEmptySecret(QueryParts(kvs, first, shape))
  {
    if kvs != [] { QueryNotEmpty(kvs[1..], false, shape); }
  }

  lemma TailNotEmpty(rest: string, shape: Shape)
    requires !shape.value("")
    ensures NoEmptySecret(TailParts(rest, shape))
  {
    SegsNotEmpty(Split(Before(rest, '?'), '/'), true, shape);
    QueryNotEmpty(Split(After(rest, '?'), '&'), true, shape);
  }

  lemma HeadHasNoEmptySecret(scheme: string, user: string)
    ensures NoEmptySecret(HeadOf(scheme, user))
  {
  }

  lemma UrlPartsAre(w: string, shape: Shape, head: seq<Part>, at: nat, rest: string)
    requires HeadParts(w) == (head, at) && at <= |w| && w[at..] == rest
    ensures UrlParts(w, shape) == Merge(head + TailParts(rest, shape))
  {
  }

  lemma MergedSecrets(head: seq<Part>, tail: seq<Part>)
    requires NoEmptySecret(head) && NoEmptySecret(tail)
    ensures Secrets(Merge(head + tail)) == Secrets(head) + Secrets(tail)
  {
    assert NoEmptySecret(head + tail);
    MergeSecrets(head + tail);
    SecretsConcat(head, tail);
  }

  /** Exactly the userinfo, the credential-looking segments and the credential parameters are sealed. */
  lemma UrlSealsExactly(u: Url, shape: Shape)
    requires Proper(u) && !shape.value("")
    ensures Secrets(UrlParts(Written(u), shape)) ==
            (if u.user == "" then [] else [u.user]) +
            (Credentials(u.path, shape) + if u.hasQuery then ParamSecrets(u.params, shape) else [])
  {
    var rest := u.host + (Slashed(u.path) + Query(u));
    TailStart(u);
    HeadIsRead(Written(u), u.scheme, u.user, u.host, Slashed(u.path) + Query(u));
    UrlPartsAre(Written(u), shape, HeadOf(u.scheme, u.user), HeadLen(u.scheme, u.user), rest);
    HeadHasNoEmptySecret(u.scheme, u.user);
    TailNotEmpty(rest, shape);
    MergedSecrets(HeadOf(u.scheme, u.user), TailParts(rest, shape));
    HeadSecrets(u.scheme + "://", u.user);
    TailIsRead(u, shape);
  }

  // ----- Every text with a "://" is such a URL

  lemma SchemePrefix(w: string)
    requires SchemeEnd(w) < |w|
    ensures var k := SchemeEnd(w);
            w[..k + 3] == w[..k] + "://" && SchemeEnd(w[..k + 3]) == k && w == w[..k] + ("://" + w[k + 3..])
  {
    var k := SchemeEnd(w);
    var p, rest := w[..k + 3], w[k + 3..];
    assert w == p + rest;
    forall j | 0 <= j <= k ensures SchemeAt(p, j) <==> SchemeAt(w, j) { SchemeAtStays(p, rest, j); }
    forall j | 0 <= j < k ensures !SchemeAt(p, j) { assert !SchemeAt(w, j); }
    SchemeEndIs(p, k);
    assert w[k..k + 3] == [w[k], w[k + 1], w[k + 2]] == "://";
    assert p == w[..k] + w[k..k + 3];
    Regroup(w[..k], "://", rest);
  }

  lemma AuthorityIsFree(s: string)
    ensures Free(s[..AuthorityEnd(s)], {'/', '?', '#'}) && Ends(s[AuthorityEnd(s)..])
  {
    var n := AuthorityEnd(s);
    forall i | 0 <= i < n ensures s[..n][i] !in {'/', '?', '#'} { assert !EndsAuthority(s[i]); }
    assert n < |s| ==> s[n..][0] == s[n];
  }

  /** The authority is the one prefix without /, ? and # that cannot be longer. */
  lemma AuthorityEndIs(s: string, n: nat)
    requires n <= |s| && Free(s[..n], {'/', '?', '#'}) && Ends(s[n..])
    ensures AuthorityEnd(s) == n
  {
    assert s == s[..n] + s[n..];
    AuthorityEndAt(s[..n], s[n..]);
  }

  lemma NoneAfterLast(s: string)
    requires LastAt(s) >= 0
    ensures LastAt(s[LastAt(s) + 1..]) == -1
  {
    var at := LastAt(s);
    var t := s[at + 1..];
    assert forall j :: 0 <= j < |t| ==> t[j] == s[at + 1 + j];
  }

  /** What the first segment shares with the authority is all of the authority. */
  lemma FirstSegment(r: string)
    ensures Authority(Split(Before(r, '?'), '/')[0]) == r[..AuthorityEnd(r)]
  {
    var base := Before(r, '?');
    var host := Split(base, '/')[0];
    var n := IndexOf(host, '#');
    assert host == base[..IndexOf(base, '/')];
    assert host == r[..|host|] && host[..n] == r[..n];
    assert Ends(r[n..]) by {
      if n < |host| { assert r[n] == host[n]; }
      else if n < |base| { assert r[n] == base[n]; }
    }
    assert Free(r[..n], {'/', '?', '#'}) by {
      forall i | 0 <= i < n ensures host[i] !in {'/', '?', '#'} {
        assert host[..n][i] == host[i];
        assert base[i] == r[i] && r[..|base|][i] == base[i];
      }
    }
    AuthorityEndIs(r, n);
  }

  /** The path before the query, taken apart. */
  lemma PathSplits(base: string) returns (host: string, path: seq<string>)
    requires '?' !in base
    ensures base == host + Slashed(path) && host == Split(base, '/')[0]
    ensures Free(host, {'/', '?'}) && forall i :: 0 <= i < |path| ==> Free(path[i], {'/', '?'})
  {
    var segs := Split(base, '/');
    host, path := segs[0], segs[1..];
    assert segs == [host] + path;
    JoinIsSlashed(host, path);
    SegmentsFree(base, segs);
  }

  /** The query after the path, taken apart. */
  lemma QuerySplits(r: string) returns (params: seq<string>)
    ensures params != [] && (forall i :: 0 <= i < |params| ==> Free(params[i], {'&'}))
    ensures Join(params, '&') == After(r, '?')
  {
    params := Split(After(r, '?'), '&');
  }

  /** The part from the host on, taken apart. */
  lemma TailSplits(r: string) returns (host: string, path: seq<string>, hasQuery: bool, params: seq<string>)
    ensures r == host + (Slashed(path) + if hasQuery then "?" + Join(params, '&') else "")
    ensures Free(host, {'/', '?'}) && (forall i :: 0 <= i < |path| ==> Free(path[i], {'/', '?'}))
    ensures (hasQuery ==> params != []) && forall i :: 0 <= i < |params| ==> Free(params[i], {'&'})
    ensures Authority(host) == r[..AuthorityEnd(r)]
  {
    QueryRest(r);
    host, path := PathSplits(Before(r, '?'));
    hasQuery := '?' in r;
    params := QuerySplits(r);
    FirstSegment(r);
    Regroup(host, Slashed(path), if hasQuery then "?" + Join(params, '&') else "");
  }

  lemma QueryRest(r: string)
    ensures r == Before(r, '?') + if '?' in r then "?" + After(r, '?') else ""
    ensures '?' !in Before(r, '?')
  {
    var k := IndexOf(r, '?');
    if '?' in r {
      assert r == r[..k] + [r[k]] + r[k + 1..];
    } else {
      assert r[..|r|] == r;
    }
  }

  lemma {:induction false} SegmentsFree(base: string, segs: seq<string>)
    requires '?' !in base && segs == Split(base, '/')
    ensures forall i :: 0 <= i < |segs| ==> Free(segs[i], {'/', '?'})
    decreases |base|
  {
    var k := IndexOf(base, '/');
    if k < |base| {
      assert segs == [base[..k]] + Split(base[k + 1..], '/');
      SegmentsFree(base[k + 1..], Split(base[k + 1..], '/'));
    }
  }

  /** Userinfo and what follows it: the last @ of the authority divides them, unless it comes first. */
  lemma HeadSplits(rest: string) returns (user: string, r: string)
    ensures rest == (if user == "" then r else user + "@" + r) && Free(user, {'/', '?', '#'})
    ensures LastAt(r[..AuthorityEnd(r)]) <= (if user == "" then 0 else -1)
  {
    var end := AuthorityEnd(rest);
    var at := LastAt(rest[..end]);
    AuthorityIsFree(rest);
    if at <= 0 { return "", rest; }
    user, r := rest[..at], rest[at + 1..];
    assert rest[..end][at] == rest[at] == '@';
    assert rest == user + [rest[at]] + r;
    UserIsFree(rest, at, end);
    AuthorityAfterUser(rest, at, end);
  }

  lemma AuthorityAfterUser(rest: string, at: nat, end: nat)
    requires end <= |rest| && end == AuthorityEnd(rest) && at == LastAt(rest[..end])
    ensures var r := rest[at + 1..]; LastAt(r[..AuthorityEnd(r)]) == -1
  {
    var r, n := rest[at + 1..], end - at - 1;
    forall j | 0 <= j < n ensures !EndsAuthority(r[j]) { assert r[j] == rest[at + 1 + j]; }
    assert n < |r| ==> r[n] == rest[end];
    AuthorityEndWhere(r, n);
    NoneAfterLast(rest[..end]);
    assert rest[..end][at + 1..] == r[..n];
  }

  lemma UserIsFree(rest: string, at: nat, end: nat)
    requires at <= end <= |rest| && Free(rest[..end], {'/', '?', '#'})
    ensures Free(rest[..at], {'/', '?', '#'})
  {
    forall i | 0 <= i < at ensures rest[..at][i] !in {'/', '?', '#'} { assert rest[..end][i] == rest[..at][i]; }
  }

  /** So nothing that the cut is used on is left out. */
  lemma EveryUrlIsProper(w: string) returns (u: Url)
    requires SchemeEnd(w) < |w|
    ensures Proper(u) && Written(u) == w
  {
    SchemePrefix(w);
    var k := SchemeEnd(w);
    var user, r := HeadSplits(w[k + 3..]);
    var host, path, hasQuery, params := TailSplits(r);
    u := Url(w[..k], user, host, path, hasQuery, params);
    UserHostSplits(user, host, Slashed(path) + Query(u));
  }

  // ----- A text without a scheme

  /** From the host on: the credential-looking segments and the credential parameters. */
  function TailCredentials(u: Url, shape: Shape): seq<string>
  {
    Credentials(u.path, shape) + if u.hasQuery then ParamSecrets(u.params, shape) else []
  }

  /** The same without a "://": the text is all host, path and query. */
  lemma BareSealsExactly(u: Url, shape: Shape)
    requires ProperTail(u) && !shape.value("")
    requires var w := u.host + (Slashed(u.path) + Query(u)); SchemeEnd(w) == |w|
    ensures Secrets(UrlParts(u.host + (Slashed(u.path) + Query(u)), shape)) == TailCredentials(u, shape)
  {
    var w := u.host + (Slashed(u.path) + Query(u));
    assert w[0..] == w;
    UrlPartsAre(w, shape, [], 0, w);
    TailNotEmpty(w, shape);
    MergedSecrets([], TailParts(w, shape));
    NothingBefore(Secrets(TailParts(w, shape)));
    TailIsRead(u, shape);
  }

  lemma EveryBareIsProper(w: string) returns (u: Url)
    ensures ProperTail(u) && w == u.host + (Slashed(u.path) + Query(u))
  {
    var host, path, hasQuery, params := TailSplits(w);
    u := Url("", "", host, path, hasQuery, params);
  }
}
