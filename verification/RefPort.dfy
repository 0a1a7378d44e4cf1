/**
 Settings text travelling through another agent's config: an export writes ${secret:x} as a shell
 variable ${KIRA_SECRET_X}, an import turns such variables back into the saved secret they came from.
 */
module RefPort {
  import opened Prelude
  import opened Text
  import opened Refs

  const PREFIX := "KIRA_SECRET_"

  function EnvByte(c: char): char
  {
    if IsUpper(c) || IsDigit(c) then c else if IsLower(c) then (c as int - 32) as char else '_'
  }

  /** The shell variable an exported secret travels as. */
  function SecretEnvName(name: string): string
  {
    if name == "" then PREFIX else SecretEnvName(name[..|name| - 1]) + [EnvByte(name[|name| - 1])]
  }

  method DeriveEnvName(name: string) returns (out: string)
    ensures out == SecretEnvName(name) && IsEnvName(out)
  {
    out := PREFIX;
    for i := 0 to |name|
      invariant out == SecretEnvName(name[..i])
    {
      assert name[..i + 1][..i] == name[..i];
      out := out + [EnvByte(name[i])];
    }
    assert name[..|name|] == name;
    DerivedIsEnvName(name);
  }

  lemma PrefixIsEnvName()
    ensures IsEnvName(PREFIX)
  {
    forall i | 0 <= i < |PREFIX| ensures IsVarChar(PREFIX[i]) {}
  }

  lemma OneMoreVarChar(s: string, c: char)
    requires IsEnvName(s) && IsVarChar(c)
    ensures IsEnvName(s + [c])
  {
    var t := s + [c];
    forall i | 0 <= i < |t| ensures IsVarChar(t[i]) { assert i < |s| ==> IsVarChar(s[i]); }
  }

  lemma {:induction false} DerivedIsEnvName(name: string)
    ensures IsEnvName(SecretEnvName(name)) && HasPrefix(SecretEnvName(name), PREFIX)
  {
    if name == "" {
      PrefixIsEnvName();
    } else {
      var n := |name| - 1;
      DerivedIsEnvName(name[..n]);
      OneMoreVarChar(SecretEnvName(name[..n]), EnvByte(name[n]));
    }
  }

  /** What a byte of a secret's name becomes: letters go upper, digits stay, the rest is `_`. */
  predicate TravelsAs(c: char, d: char)
  {
    if 'a' <= c <= 'z' then d as int - 'A' as int == c as int - 'a' as int
    else d == if 'A' <= c <= 'Z' || '0' <= c <= '9' then c else '_'
  }

  /** The derived name is the prefix and one byte for each byte of the secret's name. */
  lemma {:induction false} DerivedMeans(name: string)
    ensures var env := SecretEnvName(name);
            && |env| == 12 + |name| && env[..12] == "KIRA_SECRET_"
            && forall i :: 0 <= i < |name| ==> TravelsAs(name[i], env[12 + i])
  {
    if name != "" {
      var n := |name| - 1;
      DerivedMeans(name[..n]);
      var front := SecretEnvName(name[..n]);
      assert SecretEnvName(name)[..12] == front[..12];
      forall i | 0 <= i < n ensures TravelsAs(name[i], SecretEnvName(name)[12 + i]) {
        assert TravelsAs(name[..n][i], front[12 + i]);
      }
    }
  }

  // ----- Texts of one shape

  /** Equal bytes and escapes, references in the same places. */
  ghost predicate SameShape(ps: Pieces, qs: Pieces)
  {
    match (ps, qs)
    case (End, End) => true
    case (Cons(p, pt), Cons(q, qt)) => (p == q || (p.Reference? && q.Reference?)) && SameShape(pt, qt)
    case _ => false
  }

  ghost predicate Named(ps: Pieces)
  {
    ps.Cons? ==> (ps.head.Reference? ==> ValidName(ps.head.kind, ps.head.name)) && Named(ps.tail)
  }

  /** Strings that no test of the next two bytes can tell apart. */
  predicate SameFront(a: string, b: string)
  {
    (|a| == 0 <==> |b| == 0) && (|a| <= 1 <==> |b| <= 1) && (|a| > 0 ==> |b| > 0 && a[0] == b[0]) &&
    (|a| > 1 ==> |b| > 1 && a[1] == b[1])
  }

  lemma {:induction false} ShapeFront(ps: Pieces, qs: Pieces)
    requires SameShape(ps, qs)
    ensures SameFront(Sources(ps), Sources(qs))
    decreases ps
  {
    if ps.Cons? {
      ShapeFront(ps.tail, qs.tail);
      if ps.head.Reference? {
        RefFront(ps.head.kind, ps.head.name, Sources(ps.tail));
        RefFront(qs.head.kind, qs.head.name, Sources(qs.tail));
      }
    }
  }

  lemma RefFront(kind: Kind, name: string, rest: string)
    ensures var s := RefText(kind, name) + rest; |s| > 2 && s[0] == '$' && s[1] == '{'
  {
  }

  lemma {:induction false} ShapeGood(ps: Pieces, qs: Pieces)
    requires Good(ps) && SameShape(ps, qs) && Named(qs)
    ensures Good(qs)
    decreases ps
  {
    if ps.Cons? {
      ShapeGood(ps.tail, qs.tail);
      ShapeFront(ps.tail, qs.tail);
      assert Stands(ps.head, Sources(ps.tail));
    }
  }

  lemma {:induction false} GoodNamed(ps: Pieces)
    requires Good(ps)
    ensures Named(ps)
  {
    if ps.Cons? { GoodNamed(ps.tail); }
  }

  /** Good pieces with equal text are equal. */
  lemma SourcesInjective(ps: Pieces, qs: Pieces)
    requires Good(ps) && Good(qs) && Sources(ps) == Sources(qs)
    ensures ps == qs
  {
    ReadSources(ps);
    ReadSources(qs);
  }

  // ----- Export

  function Exported(p: Piece): Piece
  {
    if p.Reference? && p.kind == Secret then Reference(Env, SecretEnvName(p.name)) else p
  }

  function ExportOf(ps: Pieces): Pieces { if ps.End? then End else Cons(Exported(ps.head), ExportOf(ps.tail)) }

  lemma {:induction false} ExportShape(ps: Pieces)
    requires Named(ps)
    ensures SameShape(ps, ExportOf(ps)) && Named(ExportOf(ps))
  {
    if ps.Cons? {
      ExportShape(ps.tail);
      if ps.head.Reference? { DerivedIsEnvName(ps.head.name); }
    }
  }

  predicate ContainsEscape(s: string) { exists i :: 0 <= i < |s| && EscapeAt(s, i) }

  ghost predicate NoEscapes(ps: Pieces) { ps.Cons? ==> !ps.head.Esc? && NoEscapes(ps.tail) }

  lemma {:induction false} EscapesAreSeen(ps: Pieces)
    requires !NoEscapes(ps)
    ensures ContainsEscape(Sources(ps))
  {
    if ps.head.Esc? {
      assert EscapeAt(Sources(ps), 0);
    } else {
      EscapesAreSeen(ps.tail);
      EscapeLater(Source(ps.head), Sources(ps.tail));
    }
  }

  lemma EscapeLater(head: string, rest: string)
    requires ContainsEscape(rest)
    ensures ContainsEscape(head + rest)
  {
    var i :| 0 <= i < |rest| && EscapeAt(rest, i);
    var s, k := head + rest, |head| + i;
    assert s[k] == rest[i] && s[k + 1] == rest[i + 1] && s[k + 2] == rest[i + 2];
    assert EscapeAt(s, k);
  }

  lemma {:induction false} ExportGap(ps: Pieces)
    ensures Sources(ExportOf(ps)) == Gap(ps) + Sources(ExportOf(FromRef(ps)))
  {
    if ps.End? || ps.head.Reference? {
      NothingAfter(Sources(ExportOf(ps)));
    } else {
      ExportGap(ps.tail);
      Regroup(Source(ps.head), Gap(ps.tail), Sources(ExportOf(FromRef(ps.tail))));
    }
  }

  /** One round of the export: the gap as it is, then the reference under its exported name. */
  lemma ExportStep(text: string, last: nat, ps: Pieces, refs: seq<Ref>, b: string, name: string) returns (rest: Pieces)
    requires Remaining(text, last, ps, refs) && refs != []
    requires Reference(Env, name) == Exported(Reference(refs[0].kind, refs[0].name))
    ensures last <= refs[0].start <= refs[0].end <= |text|
    ensures Remaining(text, refs[0].end, rest, refs[1..])
    ensures b + Sources(ExportOf(ps)) ==
            (b + (text[last..refs[0].start] + ("${" + name + "}"))) + Sources(ExportOf(rest))
  {
    CutAtRef(text, last, ps, refs);
    ExportGap(ps);
    rest := FromRef(ps).tail;
    var gap, ref, tail := Gap(ps), "${" + name + "}", Sources(ExportOf(rest));
    Regroup(gap, ref, tail);
    Regroup(b, gap + ref, tail);
  }

  lemma ExportEnd(text: string, last: nat, ps: Pieces)
    requires Remaining(text, last, ps, [])
    ensures Sources(ExportOf(ps)) == text[last..]
  {
    NoRefLeft(text, last, ps);
    ExportGap(ps);
    assert Gap(ps) + "" == Gap(ps);
  }

  /** No two of the secrets travel as one variable. */
  ghost predicate DeriveApart(names: set<string>)
  {
    forall m, n {:trigger SecretEnvName(m), SecretEnvName(n)} ::
      m in names && n in names && SecretEnvName(m) == SecretEnvName(n) ==> m == n
  }

  /** Two secrets that derive one variable. */
  datatype Collision = Collision(first: string, second: string, env: string)

  ghost predicate Collides(c: Collision, names: set<string>)
  {
    && c.first in names && c.second in names && c.first != c.second
    && SecretEnvName(c.first) == SecretEnvName(c.second) == c.env
  }

  class Exporter {
    /** Variable to the secret that last took it. */
    var secrets: map<string, string>
    var collision: Option<Collision>
    ghost var asked: set<string>

    /** A collision is on record exactly when two asked secrets derive one variable. */
    ghost predicate Valid()
      reads this
    {
      Holders() && (collision.None? <==> DeriveApart(asked)) && (collision.Some? ==> Collides(collision.value, asked))
    }

    /** Every variable is held by an asked secret that derives it, and every asked secret's is held. */
    ghost predicate Holders()
      reads this
    {
      && (forall env :: env in secrets ==> secrets[env] in asked && SecretEnvName(secrets[env]) == env)
      && (forall n {:trigger SecretEnvName(n)} {:trigger n in asked} :: n in asked ==> SecretEnvName(n) in secrets)
    }

    constructor ()
      ensures Valid() && asked == {} && collision.None?
    {
      secrets, collision, asked := map[], None, {};
    }

    /** A new name keeps the derivations apart unless another secret holds its variable. */
    lemma ApartMore(name: string)
      requires Holders()
      ensures var env := SecretEnvName(name);
              DeriveApart(asked + {name}) <==> DeriveApart(asked) && (env in secrets ==> secrets[env] == name)
    {
      var env := SecretEnvName(name);
      if DeriveApart(asked + {name}) {
        forall m, n | m in asked && n in asked && SecretEnvName(m) == SecretEnvName(n) ensures m == n {
          assert m in asked + {name} && n in asked + {name};
        }
        if env in secrets { assert secrets[env] in asked + {name} && name in asked + {name}; }
      }
      if DeriveApart(asked) && (env in secrets ==> secrets[env] == name) {
        forall m | m in asked && SecretEnvName(m) == env ensures m == name { assert secrets[env] in asked; }
      }
    }

    method SecretEnv(name: string) returns (env: string)
      requires Valid()
      modifies this
      ensures Valid() && env == SecretEnvName(name) && asked == old(asked) + {name}
    {
      env := DeriveEnvName(name);
      ApartMore(name);
      if env in secrets && secrets[env] != name { collision := Some(Collision(secrets[env], name, env)); }
      secrets := secrets[env := name];
      asked := asked + {name};
    }

    /** The exported name of every reference, each secret taking its variable. */
    method ExportNames(refs: seq<Ref>) returns (names: seq<string>)
      requires Valid()
      modifies this
      ensures Valid() && ExportsAs(refs, names) && asked == old(asked) + SecretNames(refs)
    {
      names := [];
      for i := 0 to |refs|
        invariant Valid() && ExportsAs(refs[..i], names) && asked == old(asked) + SecretNames(refs[..i])
      {
        var name := refs[i].name;
        if refs[i].kind == Secret { name := SecretEnv(refs[i].name); }
        ExportsMore(refs, i, names, name);
        names := names + [name];
      }
      assert refs[..|refs|] == refs;
    }

    /** Settings text as Claude config text; None when the text has no form there. */
    method ClaudeRefs(text: string) returns (out: Option<string>)
      requires Valid()
      modifies this
      ensures Valid() && old(asked) <= asked
      ensures out.None? <==> ContainsEscape(text) || Read(text).Problem?
      ensures out.Some? ==> out.value == Sources(ExportOf(Read(text).pieces))
      ensures out.Some? ==> asked == old(asked) + SecretNames(References(text).refs)
    {
      if ContainsEscape(text) { return None; }
      var scan := ScanRefs(text);
      if scan.BadRef? { return None; }
      ghost var all := StartReading(text);
      var names := ExportNames(scan.refs);
      var b := WriteRefs(text, scan.refs, names, all);
      return Some(b);
    }
  }

  ghost predicate ExportsAs(refs: seq<Ref>, names: seq<string>)
  {
    |names| == |refs| &&
    forall i :: 0 <= i < |refs| ==> Reference(Env, names[i]) == Exported(Reference(refs[i].kind, refs[i].name))
  }

  lemma ExportsMore(refs: seq<Ref>, i: nat, names: seq<string>, name: string)
    requires i < |refs| && ExportsAs(refs[..i], names)
    requires name == if refs[i].kind == Secret then SecretEnvName(refs[i].name) else refs[i].name
    ensures ExportsAs(refs[..i + 1], names + [name])
    ensures SecretNames(refs[..i + 1]) == SecretNames(refs[..i]) + if refs[i].kind == Secret then {refs[i].name} else {}
  {
    var some, more := refs[..i], refs[..i + 1];
    assert more == some + [refs[i]];
    assert forall r :: r in more <==> r in some || r == refs[i];
    forall k | 0 <= k < |more|
      ensures Reference(Env, (names + [name])[k]) == Exported(Reference(more[k].kind, more[k].name)) {
      if k < i { assert more[k] == some[k]; }
    }
  }

  ghost function SecretNames(refs: seq<Ref>): set<string> { set r | r in refs && r.kind == Secret :: r.name }

  /** Writes the text out: gaps as they are, each reference under its exported name. */
  method WriteRefs(text: string, refs: seq<Ref>, names: seq<string>, ghost all: Pieces) returns (b: string)
    requires Remaining(text, 0, all, refs) && ExportsAs(refs, names)
    ensures b == Sources(ExportOf(all))
  {
    ghost var ps := all;
    var last: nat := 0;
    b := "";
    assert refs[0..] == refs;
    NothingAfter(Sources(ExportOf(all)));
    for i := 0 to |refs|
      invariant Remaining(text, last, ps, refs[i..])
      invariant Sources(ExportOf(all)) == b + Sources(ExportOf(ps))
    {
      RestOf(refs, i);
      ps := ExportStep(text, last, ps, refs[i..], b, names[i]);
      b := b + (text[last..refs[i].start] + ("${" + names[i] + "}"));
      last := refs[i].end;
    }
    assert refs[|refs|..] == [];
    ExportEnd(text, last, ps);
    b := b + text[last..];
  }

  // ----- Import

  /** A reference after an import that may have picked a saved secret for it. */
  function Imported(p: Piece, pick: Option<string>): Piece { if pick.Some? then Reference(Secret, pick.value) else p }

  /** `picks` has one choice per reference, in order. */
  function ImportOf(ps: Pieces, picks: seq<Option<string>>): Pieces
  {
    if ps.End? then End
    else if ps.head.Reference? && picks != [] then Cons(Imported(ps.head, picks[0]), ImportOf(ps.tail, picks[1..]))
    else Cons(ps.head, ImportOf(ps.tail, picks))
  }

  /** What a walk over the saved names may pick for a reference: any name that derives it. */
  ghost predicate MayPick(kind: Kind, name: string, saved: set<string>, pick: Option<string>)
  {
    if kind == Secret then pick.None?
    else if pick.Some? then pick.value in saved && SecretEnvName(pick.value) == name
    else forall n :: n in saved ==> SecretEnvName(n) != name
  }

  ghost predicate IsChoice(ps: Pieces, saved: set<string>, picks: seq<Option<string>>)
  {
    if ps.End? then picks == []
    else if ps.head.Reference? then
      picks != [] && MayPick(ps.head.kind, ps.head.name, saved, picks[0]) && IsChoice(ps.tail, saved, picks[1..])
    else IsChoice(ps.tail, saved, picks)
  }

  /** The inner walk: some saved name deriving the variable, in no particular order. */
  method PickSaved(r: Ref, saved: set<string>) returns (pick: Option<string>)
    ensures MayPick(r.kind, r.name, saved, pick)
  {
    if r.kind != Env || !HasPrefix(r.name, PREFIX) {
      forall n | n in saved ensures r.kind == Env ==> SecretEnvName(n) != r.name { DerivedIsEnvName(n); }
      return None;
    }
    var todo := saved;
    while todo != {}
      invariant todo <= saved
      invariant forall n :: n in saved - todo ==> SecretEnvName(n) != r.name
      decreases todo
    {
      var n :| n in todo;
      var env := DeriveEnvName(n);
      if env == r.name { return Some(n); }
      todo := todo - {n};
    }
    return None;
  }

  /** Where each reference's turn begins: offsets and pieces from there on. */
  ghost predicate Turns(text: string, refs: seq<Ref>, lasts: seq<nat>, pss: seq<Pieces>)
  {
    && |lasts| == |pss| == |refs| + 1
    && (forall i {:trigger Turn(text, refs, lasts, pss, i)} :: 0 <= i <= |refs| ==> Turn(text, refs, lasts, pss, i))
  }

  ghost predicate Turn(text: string, refs: seq<Ref>, lasts: seq<nat>, pss: seq<Pieces>, i: nat)
    requires |lasts| == |pss| == |refs| + 1 && i <= |refs|
  {
    && Remaining(text, lasts[i], pss[i], refs[i..])
    && (i < |refs| ==> FromRef(pss[i]).Cons? && pss[i + 1] == FromRef(pss[i]).tail && lasts[i + 1] == refs[i].end)
  }

  lemma {:induction false} FindTurns(text: string, last: nat, ps: Pieces, refs: seq<Ref>)
    returns (lasts: seq<nat>, pss: seq<Pieces>)
    requires Remaining(text, last, ps, refs)
    ensures Turns(text, refs, lasts, pss) && lasts[0] == last && pss[0] == ps
    decreases |refs|
  {
    if refs == [] {
      lasts, pss := [last], [ps];
      assert refs[0..] == refs;
    } else {
      CutAtRef(text, last, ps, refs);
      var l, p := FindTurns(text, refs[0].end, FromRef(ps).tail, refs[1..]);
      lasts, pss := [last] + l, [ps] + p;
      assert Turn(text, refs, lasts, pss, 0) by { assert refs[0..] == refs; }
      forall i | 0 < i <= |refs| ensures Turn(text, refs, lasts, pss, i) {
        LaterTurn(text, refs, l, p, last, ps, i - 1);
      }
    }
  }

  lemma LaterTurn(text: string, refs: seq<Ref>, l: seq<nat>, p: seq<Pieces>, last: nat, ps: Pieces, i: nat)
    requires refs != [] && Turns(text, refs[1..], l, p) && i < |refs|
    ensures Turn(text, refs, [last] + l, [ps] + p, i + 1)
  {
    assert Turn(text, refs[1..], l, p, i);
    assert refs[1..][i..] == refs[i + 1..];
  }

  lemma {:induction false} ImportGap(ps: Pieces, picks: seq<Option<string>>)
    ensures Sources(ImportOf(ps, picks)) == Gap(ps) + Sources(ImportOf(FromRef(ps), picks))
  {
    if ps.End? || ps.head.Reference? {
      NothingAfter(Sources(ImportOf(ps, picks)));
    } else {
      ImportGap(ps.tail, picks);
      Regroup(Source(ps.head), Gap(ps.tail), Sources(ImportOf(FromRef(ps.tail), picks)));
    }
  }

  lemma {:induction false} ChoiceGap(ps: Pieces, saved: set<string>, picks: seq<Option<string>>)
    ensures IsChoice(ps, saved, picks) <==> IsChoice(FromRef(ps), saved, picks)
  {
    if ps.Cons? && !ps.head.Reference? { ChoiceGap(ps.tail, saved, picks); }
  }

  /** `v` is the text with every reference from turn `i` on imported. */
  ghost predicate ImportedFrom(text: string, last: nat, ps: Pieces, saved: set<string>, picks: seq<Option<string>>,
                               v: string)
  {
    last <= |text| && IsChoice(ps, saved, picks) && v == text[..last] + Sources(ImportOf(ps, picks))
  }

  lemma Splice(text: string, last: nat, start: nat, end: nat, put: string, rest: string, v: string)
    requires last <= start <= end <= |text| && v == text[..end] + rest
    ensures end <= |v| && v[..start] + put + v[end..] == text[..last] + (text[last..start] + (put + rest))
    ensures put == text[start..end] ==> v == text[..last] + (text[last..start] + (put + rest))
  {
    assert v[..start] == text[..last] + text[last..start] && v[end..] == rest;
    assert text[..end] == text[..last] + text[last..start] + text[start..end];
  }

  lemma ImportStep(text: string, last: nat, ps: Pieces, refs: seq<Ref>, saved: set<string>,
                   picks: seq<Option<string>>, v: string, pick: Option<string>)
    requires Remaining(text, last, ps, refs) && refs != [] && FromRef(ps).Cons?
    requires ImportedFrom(text, refs[0].end, FromRef(ps).tail, saved, picks, v)
    requires MayPick(refs[0].kind, refs[0].name, saved, pick)
    ensures refs[0].start <= refs[0].end <= |v|
    ensures ImportedFrom(text, last, ps, saved, [pick] + picks,
                         if pick.Some? then v[..refs[0].start] + RefText(Secret, pick.value) + v[refs[0].end..] else v)
  {
    CutAtRef(text, last, ps, refs);
    var r, all := refs[0], [pick] + picks;
    ImportGap(ps, all);
    ChoiceGap(ps, saved, all);
    assert all[1..] == picks;
    Splice(text, last, r.start, r.end, Source(Imported(FromRef(ps).head, pick)),
      Sources(ImportOf(FromRef(ps).tail, picks)), v);
  }

  /**
   Turns variables back into the secrets they came from, rewriting right to left so that earlier
   offsets stay true. Which of several deriving names is taken is not determined.
   */
  method MapSecretRefs(text: string, saved: set<string>) returns (v: string, ghost picks: seq<Option<string>>)
    ensures Read(text).Problem? ==> v == text
    ensures Read(text).Parsed? ==>
      IsChoice(Read(text).pieces, saved, picks) && v == Sources(ImportOf(Read(text).pieces, picks))
  {
    picks := [];
    var scan := ScanRefs(text);
    if scan.BadRef? { return text, []; }
    var refs := scan.refs;
    ghost var all := StartReading(text);
    ghost var lasts, pss := FindTurns(text, 0, all, refs);
    v := text;
    ImportEnd(text, refs, lasts, pss, saved);
    var i := |refs|;
    while i > 0
      invariant 0 <= i <= |refs|
      invariant ImportedFrom(text, lasts[i], pss[i], saved, picks, v)
    {
      i := i - 1;
      assert Turn(text, refs, lasts, pss, i) && refs[i..][0] == refs[i];
      var pick := PickSaved(refs[i], saved);
      ImportStep(text, lasts[i], pss[i], refs[i..], saved, picks, v, pick);
      if pick.Some? { v := v[..refs[i].start] + RefText(Secret, pick.value) + v[refs[i].end..]; }
      picks := [pick] + picks;
    }
    assert text[..0] + Sources(ImportOf(all, picks)) == Sources(ImportOf(all, picks));
  }

  lemma ImportEnd(text: string, refs: seq<Ref>, lasts: seq<nat>, pss: seq<Pieces>, saved: set<string>)
    requires Turns(text, refs, lasts, pss)
    ensures ImportedFrom(text, lasts[|refs|], pss[|refs|], saved, [], text)
  {
    var last, ps := lasts[|refs|], pss[|refs|];
    assert Turn(text, refs, lasts, pss, |refs|) && refs[|refs|..] == [];
    NoRefLeft(text, last, ps);
    ImportGap(ps, []);
    ChoiceGap(ps, saved, []);
    assert Gap(ps) + "" == Gap(ps);
    assert text == text[..last] + text[last..];
  }

  // ----- There and back

  /** No walk over the saved names can pick anything else than what undoes the reference. */
  ghost predicate Settled(p: Piece, saved: set<string>)
  {
    p.Reference? ==>
      if p.kind == Secret then
        p.name in saved && forall n :: n in saved && SecretEnvName(n) == SecretEnvName(p.name) ==> n == p.name
      else forall n :: n in saved ==> SecretEnvName(n) != p.name
  }

  /** A caller can check this: each secret is saved and alone on its variable, no plain variable is derived. */
  ghost predicate AllSettled(ps: Pieces, saved: set<string>)
  {
    ps.Cons? ==> Settled(ps.head, saved) && AllSettled(ps.tail, saved)
  }

  lemma {:induction false} SettledComesBack(ps: Pieces, saved: set<string>, picks: seq<Option<string>>)
    requires AllSettled(ps, saved) && IsChoice(ExportOf(ps), saved, picks)
    ensures ImportOf(ExportOf(ps), picks) == ps
    decreases ps
  {
    if ps.Cons? {
      if ps.head.Reference? { SettledComesBack(ps.tail, saved, picks[1..]); }
      else { SettledComesBack(ps.tail, saved, picks); }
    }
  }

  lemma SomePick(kind: Kind, name: string, saved: set<string>) returns (pick: Option<string>)
    ensures MayPick(kind, name, saved, pick)
  {
    if kind == Env && exists n :: n in saved && SecretEnvName(n) == name {
      var n :| n in saved && SecretEnvName(n) == name;
      pick := Some(n);
    } else {
      pick := None;
    }
  }

  lemma {:induction false} SomeChoice(ps: Pieces, saved: set<string>) returns (picks: seq<Option<string>>)
    ensures IsChoice(ps, saved, picks)
  {
    if ps.End? {
      picks := [];
    } else {
      picks := SomeChoice(ps.tail, saved);
      if ps.head.Reference? {
        var pick := SomePick(ps.head.kind, ps.head.name, saved);
        assert ([pick] + picks)[1..] == picks;
        picks := [pick] + picks;
      }
    }
  }

  lemma WrongPick(p: Piece, saved: set<string>) returns (pick: Option<string>)
    requires p.Reference? && !Settled(p, saved)
    ensures MayPick(Exported(p).kind, Exported(p).name, saved, pick) && Imported(Exported(p), pick) != p
  {
    if p.kind == Secret && p.name in saved {
      var n :| n in saved && SecretEnvName(n) == SecretEnvName(p.name) && n != p.name;
      pick := Some(n);
    } else if p.kind == Secret {
      pick := SomePick(Env, SecretEnvName(p.name), saved);
    } else {
      var n :| n in saved && SecretEnvName(n) == p.name;
      pick := Some(n);
    }
  }

  lemma {:induction false} UnsettledCanDiffer(ps: Pieces, saved: set<string>) returns (picks: seq<Option<string>>)
    requires !AllSettled(ps, saved)
    ensures IsChoice(ExportOf(ps), saved, picks) && ImportOf(ExportOf(ps), picks) != ps
    decreases ps
  {
    if !Settled(ps.head, saved) {
      var rest := SomeChoice(ExportOf(ps.tail), saved);
      var pick := WrongPick(ps.head, saved);
      picks := [pick] + rest;
      assert picks[1..] == rest;
    } else {
      picks := UnsettledCanDiffer(ps.tail, saved);
      if ps.head.Reference? {
        var pick := SomePick(Exported(ps.head).kind, Exported(ps.head).name, saved);
        assert ([pick] + picks)[1..] == picks;
        picks := [pick] + picks;
      }
    }
  }

  lemma {:induction false} ImportShape(ps: Pieces, saved: set<string>, picks: seq<Option<string>>)
    requires Named(ps) && IsChoice(ps, saved, picks) && forall n :: n in saved ==> IsSecretName(n)
    ensures SameShape(ps, ImportOf(ps, picks)) && Named(ImportOf(ps, picks))
    decreases ps
  {
    if ps.Cons? {
      if ps.head.Reference? { ImportShape(ps.tail, saved, picks[1..]); } else { ImportShape(ps.tail, saved, picks); }
    }
  }

  /** The exported text of good pieces is read as the exported pieces. */
  lemma ExportIsRead(ps: Pieces)
    requires Good(ps)
    ensures Good(ExportOf(ps)) && Read(Sources(ExportOf(ps))) == Parsed(ExportOf(ps))
  {
    GoodNamed(ps);
    ExportShape(ps);
    ShapeGood(ps, ExportOf(ps));
    ReadSources(ExportOf(ps));
  }

  /** Equal as text is equal as pieces, for everything an import of an export can give. */
  lemma ImportDecides(ps: Pieces, saved: set<string>, picks: seq<Option<string>>)
    requires Good(ps) && IsChoice(ExportOf(ps), saved, picks) && forall n :: n in saved ==> IsSecretName(n)
    ensures Sources(ImportOf(ExportOf(ps), picks)) == Sources(ps) <==> ImportOf(ExportOf(ps), picks) == ps
  {
    ExportIsRead(ps);
    GoodNamed(ExportOf(ps));
    ImportShape(ExportOf(ps), saved, picks);
    ShapeGood(ExportOf(ps), ImportOf(ExportOf(ps), picks));
    if Sources(ImportOf(ExportOf(ps), picks)) == Sources(ps) { SourcesInjective(ImportOf(ExportOf(ps), picks), ps); }
  }

  /** Whatever the walk over the saved names picks, the import of `qs` is `text`. */
  ghost predicate AlwaysImportsAs(qs: Pieces, saved: set<string>, text: string)
  {
    forall picks {:trigger IsChoice(qs, saved, picks)} :: IsChoice(qs, saved, picks) ==>
      Sources(ImportOf(qs, picks)) == text
  }

  /**
   Exporting a text and importing the result gives the text back, whatever the walk over the saved
   names picks, exactly when every reference is settled.
   */
  lemma RoundTripIff(text: string, saved: set<string>)
    requires Read(text).Parsed? && forall n :: n in saved ==> IsSecretName(n)
    ensures var ps := Read(text).pieces;
            var out := Sources(ExportOf(ps));
            && Read(out) == Parsed(ExportOf(ps))
            && (AlwaysImportsAs(ExportOf(ps), saved, text) <==> AllSettled(ps, saved))
  {
    var ps := Read(text).pieces;
    ReadIsGood(text);
    ExportIsRead(ps);
    if AllSettled(ps, saved) {
      forall picks | IsChoice(ExportOf(ps), saved, picks) ensures Sources(ImportOf(ExportOf(ps), picks)) == text {
        SettledComesBack(ps, saved, picks);
      }
    } else {
      var picks := UnsettledCanDiffer(ps, saved);
      ImportDecides(ps, saved, picks);
    }
  }
}
