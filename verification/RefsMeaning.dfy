/**
 What a settings text stands for, said of texts and of the two maps alone: which reference reads from
 where, and how the rest of the text comes through.
 */
module RefsMeaning {
  import opened Prelude
  import opened Refs

  /** The name is that of a variable: letters, digits and underscores, no digit first. */
  predicate VariableName(n: string)
  {
    n != "" && !('0' <= n[0] <= '9') &&
    forall i :: 0 <= i < |n| ==> 'a' <= n[i] <= 'z' || 'A' <= n[i] <= 'Z' || '0' <= n[i] <= '9' || n[i] == '_'
  }

  /** The name is that of a secret: 1 to 64 of small letters, digits and "_.-", a letter or digit first. */
  predicate NameOfSecret(n: string)
  {
    1 <= |n| <= 64 && ('a' <= n[0] <= 'z' || '0' <= n[0] <= '9') &&
    forall i :: 0 <= i < |n| ==> 'a' <= n[i] <= 'z' || '0' <= n[i] <= '9' || n[i] in {'_', '.', '-'}
  }

  lemma NamesMean(n: string)
    ensures VariableName(n) <==> IsEnvName(n)
    ensures NameOfSecret(n) <==> IsSecretName(n)
  {
    if IsEnvName(n) { forall i | 0 <= i < |n| ensures IsVarChar(n[i]) { } }
    if IsSecretName(n) { forall i | 0 <= i < |n| ensures IsNameChar(n[i]) { } }
  }

  lemma OneReference(kind: Kind, n: string, vars: Values, secrets: Values)
    requires ValidName(kind, n)
    ensures Meaning(RefText(kind, n), vars, secrets) == MeaningOf(Cons(Reference(kind, n), End), vars, secrets)
  {
    var ps := Cons(Reference(kind, n), End);
    NothingAfter(RefText(kind, n));
    ReadSources(ps);
  }

  /** A variable's reference means what the variables say, whatever the secrets are. */
  lemma VariableMeans(n: string, vars: Values, secrets: Values)
    requires VariableName(n)
    ensures Meaning("${" + n + "}", vars, secrets) == if n in vars then Some(vars[n]) else None
  {
    NamesMean(n);
    OneReference(Env, n, vars, secrets);
    if n in vars { NothingAfter(vars[n]); }
  }

  /** A secret's reference means what the secrets say, whatever the variables are. */
  lemma SecretMeans(n: string, vars: Values, secrets: Values)
    requires NameOfSecret(n)
    ensures Meaning("${" + ("secret:" + n) + "}", vars, secrets) == if n in secrets then Some(secrets[n]) else None
  {
    NamesMean(n);
    OneReference(Secret, n, vars, secrets);
    if n in secrets { NothingAfter(secrets[n]); }
  }

  // ----- Whole texts

  /** A reference written out where the scan found it, in one of the two forms. */
  predicate Stands(text: string, r: Ref)
  {
    r.start <= r.end <= |text| &&
    match r.kind
    case Env => VariableName(r.name) && text[r.start..r.end] == "${" + r.name + "}"
    case Secret => NameOfSecret(r.name) && text[r.start..r.end] == "${" + ("secret:" + r.name) + "}"
  }

  /** From `last` on the references stand in the text one after the other. */
  ghost predicate InOrder(text: string, last: nat, refs: seq<Ref>)
    decreases |refs|
  {
    refs != [] ==> last <= refs[0].start && Stands(text, refs[0]) && InOrder(text, refs[0].end, refs[1..])
  }

  /** The value of a reference: variables and secrets are apart. */
  function Value(r: Ref, vars: Values, secrets: Values): Option<string>
  {
    match r.kind
    case Env => if r.name in vars then Some(vars[r.name]) else None
    case Secret => if r.name in secrets then Some(secrets[r.name]) else None
  }

  ghost predicate AllKnown(refs: seq<Ref>, vars: Values, secrets: Values)
  {
    forall r :: r in refs ==> if r.kind == Env then r.name in vars else r.name in secrets
  }

  /** Gap, value, gap, value and the last gap, in order. */
  ghost function Filled(text: string, last: nat, refs: seq<Ref>, vars: Values, secrets: Values): string
    requires last <= |text| && InOrder(text, last, refs) && AllKnown(refs, vars, secrets)
    decreases |refs|
  {
    if refs == [] then Unescape(text[last..])
    else
      Unescape(text[last..refs[0].start]) + Value(refs[0], vars, secrets).value +
      Filled(text, refs[0].end, refs[1..], vars, secrets)
  }

  lemma RefStands(text: string, r: Ref)
    requires r.start <= r.end <= |text| && ValidName(r.kind, r.name) && text[r.start..r.end] == RefText(r.kind, r.name)
    ensures Stands(text, r)
  {
    NamesMean(r.name);
  }

  lemma {:induction false} FoundInOrder(text: string, last: nat, ps: Pieces, refs: seq<Ref>)
    requires Remaining(text, last, ps, refs)
    ensures InOrder(text, last, refs)
    decreases |refs|
  {
    if refs != [] {
      CutAtRef(text, last, ps, refs);
      GoodRef(ps, last);
      RefStands(text, refs[0]);
      FoundInOrder(text, refs[0].end, FromRef(ps).tail, refs[1..]);
    }
  }

  lemma GoodRef(ps: Pieces, at: nat)
    requires Good(ps)
    ensures FromRef(ps).Cons? ==> FromRef(ps).head.Reference? && ValidName(FromRef(ps).head.kind, FromRef(ps).head.name)
  {
    GapSplits(ps, at);
  }

  lemma {:induction false} FilledIsMeaning(text: string, last: nat, ps: Pieces, refs: seq<Ref>, vars: Values,
                                           secrets: Values)
    requires Remaining(text, last, ps, refs) && InOrder(text, last, refs)
    ensures MeaningOf(ps, vars, secrets) ==
            if AllKnown(refs, vars, secrets) then Some(Filled(text, last, refs, vars, secrets)) else None
    decreases |refs|
  {
    if refs == [] {
      ResolveEnd(text, last, ps, "", vars, secrets);
      PrependTwice("", "", MeaningOf(ps, vars, secrets));
      NothingBefore(Unescape(text[last..]));
      return;
    }
    ResolveStep(text, last, ps, refs, "", vars, secrets);
    PrependTwice("", "", MeaningOf(ps, vars, secrets));
    assert refs == [refs[0]] + refs[1..];
    FilledIsMeaning(text, refs[0].end, FromRef(ps).tail, refs[1..], vars, secrets);
    NothingBefore(Unescape(text[last..refs[0].start]));
  }

  /**
   A text whose references are well formed means its gaps, unescaped, and the values of its references,
   in order; it means nothing exactly when one of them has no value.
   */
  lemma TextMeans(text: string, vars: Values, secrets: Values)
    requires References(text).Found?
    ensures InOrder(text, 0, References(text).refs)
    ensures Meaning(text, vars, secrets) ==
            if AllKnown(References(text).refs, vars, secrets)
            then Some(Filled(text, 0, References(text).refs, vars, secrets)) else None
  {
    var ps := StartReading(text);
    FoundInOrder(text, 0, ps, References(text).refs);
    FilledIsMeaning(text, 0, ps, References(text).refs, vars, secrets);
  }

  lemma {:induction false} UsedMeans(refs: seq<Ref>, n: string)
    ensures n in SecretsUsed(refs) <==> exists r :: r in refs && r.kind == Secret && r.name == n
  {
    if refs != [] {
      var k := |refs| - 1;
      UsedMeans(refs[..k], n);
      assert refs == refs[..k] + [refs[k]];
      if refs[k].kind == Secret && refs[k].name == n { assert refs[k] in refs; }
      if r :| r in refs[..k] && r.kind == Secret && r.name == n { assert r in refs; }
    }
  }

  /** A text is malformed exactly when no good pieces spell it. */
  lemma MalformedIff(text: string)
    ensures References(text).BadRef? <==> !exists ps :: Good(ps) && Sources(ps) == text
  {
    if Read(text).Parsed? { ReadIsGood(text); }
    if ps :| Good(ps) && Sources(ps) == text { ReadSources(ps); }
  }

  // ----- Escapes

  /** `$${` stands at position `i`. */
  predicate Escaped(s: string, i: nat) { i + 3 <= |s| && s[i] == '$' && s[i + 1] == '$' && s[i + 2] == '{' }

  /** Text without an escape comes through as it is. */
  lemma {:induction false} NothingToUnescape(s: string)
    requires forall i :: 0 <= i < |s| ==> !Escaped(s, i)
    ensures Unescape(s) == s
  {
    if s != [] {
      forall i | 0 <= i < |s[1..]| ensures !Escaped(s[1..], i) { assert !Escaped(s, i + 1); }
      assert !Escaped(s, 0);
      NothingToUnescape(s[1..]);
      assert s == [s[0]] + s[1..];
    }
  }

  /** The first escape loses its first `$`, and what follows it is unescaped in turn. */
  lemma {:induction false} FirstUnescaped(a: string, b: string)
    requires forall i :: 0 <= i < |a| ==> !Escaped(a + "$${" + b, i)
    ensures Unescape(a + "$${" + b) == a + "${" + Unescape(b)
  {
    var s := a + "$${" + b;
    if a == [] {
      assert s[3..] == b;
      NothingBefore("${");
      return;
    }
    var t := a[1..] + "$${" + b;
    assert s[1..] == t;
    forall i | 0 <= i < |a[1..]| ensures !Escaped(t, i) { assert !Escaped(s, i + 1); }
    assert !Escaped(s, 0);
    FirstUnescaped(a[1..], b);
    assert a == [a[0]] + a[1..];
    Regroup([a[0]], a[1..] + "${", Unescape(b));
  }
}
