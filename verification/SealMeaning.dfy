/**
 Which parts of a native config string are sealed, place by place, said of the strings themselves: a
 reference for the cutting that names none of its functions.
 */
module SealMeaning {
  import opened Prelude
  import opened Text
  import opened Classify
  import opened UrlSecrets

  predicate SubAt(s: string, i: nat, sub: string) { i + |sub| <= |s| && s[i..i + |sub|] == sub }

  /** `sub` stands somewhere in `s`. */
  ghost predicate Holds(s: string, sub: string) { exists i: nat :: SubAt(s, i, sub) }

  /** What is sealed of a credential: all of it but a scheme in front. */
  ghost predicate SealedOf(value: string, secret: string)
  {
    || (secret != "" && exists p :: p in {"Bearer ", "Basic ", "token "} && value == p + secret)
    || (secret == value && forall p, rest :: p in {"Bearer ", "Basic ", "token "} && value == p + rest ==> rest == "")
  }

  ghost predicate SealsOne(value: string, secrets: seq<string>) { exists x :: secrets == [x] && SealedOf(value, x) }

  /** `bare` is `flag` without the dashes in front. */
  ghost predicate Undashed(flag: string, bare: string)
  {
    && (bare == "" || bare[0] != '-') && |bare| <= |flag| && flag[|flag| - |bare|..] == bare
    && forall i :: 0 <= i < |flag| - |bare| ==> flag[i] == '-'
  }

  ghost predicate CredentialFlag(flag: string, shape: Shape) { exists b :: Undashed(flag, b) && shape.name(b) }

  /** The argument is a credential flag with its value. */
  ghost predicate FlagWith(v: string, flag: string, val: string, shape: Shape)
  {
    v == flag + "=" + val && '=' !in flag && val != "" && CredentialFlag(flag, shape)
  }

  ghost predicate UrlSecretsAre(value: string, shape: Shape, secrets: seq<string>, u: Url)
  {
    Proper(u) && Written(u) == value && secrets == (if u.user == "" then [] else [u.user]) + TailCredentials(u, shape)
  }

  ghost predicate BareSecretsAre(value: string, shape: Shape, secrets: seq<string>, u: Url)
  {
    ProperTail(u) && value == u.host + (Slashed(u.path) + Query(u)) && secrets == TailCredentials(u, shape)
  }

  /** A URL's userinfo, credential segments and credential parameters; without a "://" there is no userinfo. */
  ghost predicate SealsUrl(value: string, shape: Shape, secrets: seq<string>)
  {
    if Holds(value, "://") then exists u :: UrlSecretsAre(value, shape, secrets, u)
    else exists u :: BareSecretsAre(value, shape, secrets, u)
  }

  /** A value that is no credential itself may be a URL with credentials. */
  ghost predicate SealsUrlIn(value: string, shape: Shape, secrets: seq<string>)
  {
    if Holds(value, "://") then SealsUrl(value, shape, secrets) else secrets == []
  }

  /** An argument: a flag with its value, the value of the flag before it, or by its look. */
  ghost predicate SealsArg(prev: string, v: string, shape: Shape, secrets: seq<string>)
  {
    if v != "" && v[0] == '-' then
      if exists flag, val :: FlagWith(v, flag, val, shape)
      then exists flag, val :: FlagWith(v, flag, val, shape) && SealsOne(val, secrets)
      else secrets == []
    else if prev != "" && prev[0] == '-' && '=' !in prev && CredentialFlag(prev, shape) then SealsOne(v, secrets)
    else if shape.value(v) then secrets == [v]
    else SealsUrlIn(v, shape, secrets)
  }

  /** The same letters, small or capital. */
  ghost predicate SameLetters(name: string, small: string)
  {
    |name| == |small| && forall i :: 0 <= i < |name| ==>
      if 'A' <= name[i] <= 'Z' then name[i] as int + 32 == small[i] as int else name[i] == small[i]
  }

  ghost predicate HarmlessHeader(name: string)
  {
    exists h :: h in {"accept", "content-type", "user-agent", "mcp-protocol-version"} && SameLetters(name, h)
  }

  /** The secrets of a string, in order, by the place it stands at. */
  ghost predicate SealsAs(l: Loc, name: string, value: string, shape: Shape, secrets: seq<string>)
  {
    if value == "" || Holds(value, "${") || Holds(value, "{env:") then secrets == []
    else
      match l
      case InEnv =>
        if shape.name(name) || shape.value(value) then SealsOne(value, secrets) else SealsUrlIn(value, shape, secrets)
      case InHeader => if HarmlessHeader(name) then secrets == [] else SealsOne(value, secrets)
      case InUrl => SealsUrl(value, shape, secrets)
      case InCommand => secrets == if shape.value(value) then [value] else []
      case InArg => SealsArg(name, value, shape, secrets)
  }

  // ----- The cutting does just that

  lemma ContainsMeans(s: string, sub: string)
    ensures Contains(s, sub) <==> Holds(s, sub)
  {
    if Contains(s, sub) {
      var i :| 0 <= i <= |s| && HasPrefix(s[i..], sub);
      assert s[i..][..|sub|] == s[i..i + |sub|];
      assert SubAt(s, i, sub);
    }
    if Holds(s, sub) {
      var i: nat :| SubAt(s, i, sub);
      assert s[i..][..|sub|] == s[i..i + |sub|];
      assert HasPrefix(s[i..], sub);
    }
  }

  lemma SchemeMeans(v: string)
    ensures SchemeEnd(v) < |v| <==> Holds(v, "://")
  {
    if SchemeEnd(v) < |v| {
      var k := SchemeEnd(v);
      assert v[k..k + 3] == [v[k], v[k + 1], v[k + 2]];
      assert SubAt(v, k, "://");
    }
    if Holds(v, "://") {
      var i: nat :| SubAt(v, i, "://");
      assert v[i..i + 3][0] == v[i] && v[i..i + 3][1] == v[i + 1] && v[i..i + 3][2] == v[i + 2];
      assert SchemeAt(v, i);
    }
  }

  lemma PrefixMeans(value: string, p: string)
    ensures HasPrefix(value, p) ==> value == p + value[|p|..]
    ensures forall rest :: value == p + rest ==> HasPrefix(value, p) && value[|p|..] == rest
  {
    forall rest | value == p + rest ensures HasPrefix(value, p) && value[|p|..] == rest {
      assert value[..|p|] == p;
    }
  }

  lemma SplitSeals(value: string)
    ensures SealsOne(value, Secrets(SplitScheme(value)))
  {
    var a, b, c := "Bearer ", "Basic ", "token ";
    PrefixMeans(value, a);
    PrefixMeans(value, b);
    PrefixMeans(value, c);
    if HasPrefix(value, a) && value != a {
      TwoParts(Lit(a), value[|a|..]);
    } else if HasPrefix(value, b) && value != b {
      TwoParts(Lit(b), value[|b|..]);
    } else if HasPrefix(value, c) && value != c {
      TwoParts(Lit(c), value[|c|..]);
    } else {
      SecretsOne(Sealed(value));
      forall p, rest | p in {a, b, c} && value == p + rest ensures rest == "" { NothingAfter(p); }
      assert SealedOf(value, value);
    }
  }

  lemma TwoParts(p: Part, x: string)
    requires !p.secret
    ensures Secrets([p, Sealed(x)]) == [x]
  {
    assert [p, Sealed(x)] == [p] + [Sealed(x)];
    SecretsConcat([p], [Sealed(x)]);
    SecretsOne(p);
    SecretsOne(Sealed(x));
  }

  lemma UrlSeals(value: string, shape: Shape)
    requires !shape.value("")
    ensures SealsUrl(value, shape, Secrets(UrlParts(value, shape)))
  {
    SchemeMeans(value);
    if Holds(value, "://") {
      var u := EveryUrlIsProper(value);
      UrlSealsExactly(u, shape);
      assert UrlSecretsAre(value, shape, Secrets(UrlParts(value, shape)), u);
    } else {
      var u := EveryBareIsProper(value);
      BareSealsExactly(u, shape);
      assert BareSecretsAre(value, shape, Secrets(UrlParts(value, shape)), u);
    }
  }

  lemma UrlValueSeals(value: string, shape: Shape)
    requires !shape.value("")
    ensures SealsUrlIn(value, shape, Secrets(UrlValue(value, shape)))
  {
    SchemeMeans(value);
    if Holds(value, "://") { UrlSeals(value, shape); } else { SecretsOne(Lit(value)); }
  }

  lemma {:induction false} UndashedIs(flag: string)
    ensures Undashed(flag, TrimDashes(flag))
    ensures forall b :: Undashed(flag, b) ==> b == TrimDashes(flag)
  {
    if flag != [] && flag[0] == '-' {
      UndashedIs(flag[1..]);
      var t := TrimDashes(flag[1..]);
      assert flag[|flag| - |t|..] == flag[1..][|flag| - 1 - |t|..];
      forall b | Undashed(flag, b) ensures b == t {
        assert |b| < |flag|;
        assert flag[|flag| - |b|..] == flag[1..][|flag| - 1 - |b|..];
        assert Undashed(flag[1..], b);
      }
    } else {
      assert flag[0..] == flag;
      forall b | Undashed(flag, b) ensures b == flag { }
    }
  }

  lemma FlagMeans(flag: string, shape: Shape)
    ensures CredentialFlag(flag, shape) <==> shape.name(TrimDashes(flag))
  {
    UndashedIs(flag);
  }

  lemma CutMeans(v: string, flag: string, val: string)
    requires v == flag + "=" + val && '=' !in flag
    ensures '=' in v && Before(v, '=') == flag && After(v, '=') == val
  {
    assert v == flag + ['='] + val;
    IndexOfAppend(flag, '=', val);
    assert v[|flag|] == '=';
    assert v[..|flag|] == flag && v[|flag| + 1..] == val;
  }

  lemma CutIs(v: string)
    requires '=' in v
    ensures v == Before(v, '=') + "=" + After(v, '=') && '=' !in Before(v, '=')
  {
    var k := IndexOf(v, '=');
    assert v == v[..k] + [v[k]] + v[k + 1..];
  }

  lemma FlagSeals(v: string, shape: Shape)
    requires v != "" && v[0] == '-'
    ensures SealsArg("", v, shape, Secrets(ArgParts("", v, shape)))
  {
    assert v[..1] == "-";
    if flag, val :| FlagWith(v, flag, val, shape) {
      CutMeans(v, flag, val);
      FlagMeans(flag, shape);
      SplitSeals(val);
      SecretsConcat([Lit(flag + "=")], SplitScheme(val));
      SecretsOne(Lit(flag + "="));
      NothingBefore(Secrets(SplitScheme(val)));
    } else {
      if '=' in v {
        CutIs(v);
        FlagMeans(Before(v, '='), shape);
        assert !FlagWith(v, Before(v, '='), After(v, '='), shape);
      }
      SecretsOne(Lit(v));
    }
  }

  lemma ArgSeals(prev: string, v: string, shape: Shape)
    requires !shape.value("") && v != ""
    ensures SealsArg(prev, v, shape, Secrets(ArgParts(prev, v, shape)))
  {
    if v[0] == '-' {
      assert v[..1] == "-";
      FlagSeals(v, shape);
      return;
    }
    assert v[..1] != "-" by { assert v[..1][0] == v[0]; }
    FlagMeans(prev, shape);
    if prev != "" { assert (prev[..1] == "-") == (prev[0] == '-') by { assert prev[..1] == [prev[0]]; } }
    SplitSeals(v);
    SecretsOne(Sealed(v));
    UrlValueSeals(v, shape);
  }

  lemma LowerMeans(name: string, small: string)
    requires forall i :: 0 <= i < |small| ==> !('A' <= small[i] <= 'Z')
    ensures Lower(name) == small <==> SameLetters(name, small)
  {
    if Lower(name) == small {
      forall i | 0 <= i < |name| ensures LowerByte(name[i]) == small[i] { assert Lower(name)[i] == small[i]; }
    }
  }

  lemma HeaderMeans(name: string)
    ensures SafeHeader(name) <==> HarmlessHeader(name)
  {
    LowerMeans(name, "accept");
    LowerMeans(name, "content-type");
    LowerMeans(name, "user-agent");
    LowerMeans(name, "mcp-protocol-version");
  }

  /** The secrets of any string are those of its place: no credential is left in it, and nothing else is sealed. */
  lemma PartsSeal(l: Loc, name: string, value: string, shape: Shape)
    requires !shape.value("")
    ensures SealsAs(l, name, value, shape, Secrets(Parts(l, name, value, shape)))
  {
    ContainsMeans(value, "${");
    ContainsMeans(value, "{env:");
    SecretsOne(Lit(value));
    if Untouched(value) { return; }
    match l
    case InEnv =>
      SplitSeals(value);
      UrlValueSeals(value, shape);
    case InHeader =>
      HeaderMeans(name);
      SplitSeals(value);
    case InUrl => UrlSeals(value, shape);
    case InCommand => SecretsOne(Part(value, shape.value(value)));
    case InArg => ArgSeals(name, value, shape);
  }
}
