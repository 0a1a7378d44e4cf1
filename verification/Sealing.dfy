/**
 Importing native config: credentials are sealed under names the importer picks, and the settings
 text names them. What was imported means, under the saved and picked secrets, what it said.
 */
module Sealing {
  import opened Prelude
  import opened Refs
  import opened RefPort
  import opened Decimals
  import C = Classify
  import UrlSecrets
  import SealMeaning

  // ----- Names

  predicate IsLead(c: char) { c == '-' || c == '_' || c == '.' }

  function NameByte(c: char): char { var l := C.LowerByte(c); if IsNameChar(l) then l else '-' }

  function NameBytes(s: string): string { seq(|s|, i requires 0 <= i < |s| => NameByte(s[i])) }

  function TrimLead(s: string): (r: string)
    ensures |r| <= |s| && (r != [] ==> !IsLead(r[0]))
    ensures forall i :: 0 <= i < |r| ==> r[i] in s
  {
    if s != [] && IsLead(s[0]) then TrimLead(s[1..]) else s
  }

  const BASE_LEN := 56

  /** At most the length of a base, and never nothing. */
  function Shortened(t: string): string
  {
    var cut := if |t| > BASE_LEN then t[..BASE_LEN] else t;
    if cut == "" then "secret" else cut
  }

  /** A secret name made of what the string offers. */
  function Sanitized(s: string): (r: string)
    ensures IsSecretName(r) && |r| <= BASE_LEN
  {
    var t := TrimLead(NameBytes(s));
    assert forall i :: 0 <= i < |t| ==> IsNameChar(t[i]);
    Shortened(t)
  }

  predicate IsAlnum(c: char) { 'a' <= c <= 'z' || 'A' <= c <= 'Z' || '0' <= c <= '9' }

  /** What a byte of the base becomes in a name: lower-case letters, digits, `_`, `.` and else `-`. */
  predicate WrittenAs(c: char, d: char)
  {
    if 'A' <= c <= 'Z' then d as int - 'a' as int == c as int - 'A' as int
    else d == if IsAlnum(c) || c == '_' || c == '.' then c else '-'
  }

  lemma {:induction false} TrimLeadAt(s: string, k: nat)
    requires k <= |s| && (forall i :: 0 <= i < k ==> IsLead(s[i])) && (k < |s| ==> !IsLead(s[k]))
    ensures TrimLead(s) == s[k..]
  {
    if k > 0 { TrimLeadAt(s[1..], k - 1); }
  }

  lemma NameByteMeans(c: char)
    ensures WrittenAs(c, NameByte(c)) && (IsLead(NameByte(c)) <==> !IsAlnum(c))
  {
  }

  /** The base from its first letter or digit on, byte by byte, at most 56 of them; "secret" without any. */
  lemma SanitizedMeans(s: string, k: nat)
    requires k <= |s| && (forall i :: 0 <= i < k ==> !IsAlnum(s[i])) && (k < |s| ==> IsAlnum(s[k]))
    ensures k == |s| ==> Sanitized(s) == "secret"
    ensures k < |s| ==>
              && |Sanitized(s)| == (if |s| - k > 56 then 56 else |s| - k)
              && forall i :: 0 <= i < |Sanitized(s)| ==> WrittenAs(s[k + i], Sanitized(s)[i])
  {
    var b := NameBytes(s);
    forall i | 0 <= i < |s| ensures WrittenAs(s[i], b[i]) && (IsLead(b[i]) <==> !IsAlnum(s[i])) {
      NameByteMeans(s[i]);
    }
    TrimLeadAt(b, k);
    CutMeans(s, b, k, Sanitized(s));
  }

  lemma CutMeans(s: string, b: string, k: nat, r: string)
    requires k <= |s| == |b| && forall i :: 0 <= i < |s| ==> WrittenAs(s[i], b[i])
    requires r == Shortened(b[k..])
    ensures k == |s| ==> r == "secret"
    ensures k < |s| ==>
              && |r| == (if |s| - k > 56 then 56 else |s| - k)
              && forall i :: 0 <= i < |r| ==> WrittenAs(s[k + i], r[i])
  {
    if k < |s| {
      forall i | 0 <= i < |r| ensures WrittenAs(s[k + i], r[i]) { assert r[i] == b[k + i]; }
    }
  }

  /** The k-th name tried for a base: the base, then -2, -3 and so on. */
  function Candidate(base: string, k: nat): string { if k < 2 then base else base + "-" + Decimal(k) }

  /** From the second on, a dash and the number follow the base. */
  lemma CandidateMeans(base: string, k: nat)
    ensures var name := Candidate(base, k);
            if k < 2 then name == base
            else |name| > |base| && name[..|base|] == base && name[|base|] == '-' && Number(name[|base| + 1..]) == k
  {
    if k >= 2 {
      NumberOfDecimal(k);
      assert Candidate(base, k)[|base| + 1..] == Decimal(k);
    }
  }

  lemma CandidatesDiffer(base: string, j: nat, k: nat)
    requires 1 <= j < k
    ensures Candidate(base, j) != Candidate(base, k)
  {
    var a, b := Candidate(base, j), Candidate(base, k);
    if j >= 2 && a == b {
      assert a[|base| + 1..] == Decimal(j) && b[|base| + 1..] == Decimal(k);
      NumberOfDecimal(j);
      NumberOfDecimal(k);
    }
  }

  /** Below ten million a suffix leaves the name within the 64 bytes of the grammar. */
  lemma CandidateIsName(base: string, k: nat)
    requires IsSecretName(base) && |base| <= BASE_LEN && k < 10_000_000
    ensures IsSecretName(Candidate(base, k))
  {
    if k >= 2 {
      assert Pow10(7) == 10_000_000 by {
        assert Pow10(1) == 10 && Pow10(2) == 100 && Pow10(3) == 1000;
        assert Pow10(4) == 10_000 && Pow10(5) == 100_000 && Pow10(6) == 1_000_000;
      }
      DecimalLength(k, 7);
      var c := Candidate(base, k);
      forall i | 0 <= i < |c| ensures IsNameChar(c[i]) {
        if i > |base| { assert c[i] == Decimal(k)[i - |base| - 1]; }
      }
    }
  }

  lemma {:induction false} TriedAreTaken(base: string, n: nat, taken: set<string>)
    requires forall j :: 1 <= j <= n ==> Candidate(base, j) in taken
    ensures n <= |taken|
  {
    if n > 0 {
      var c := Candidate(base, n);
      forall j | 1 <= j <= n - 1 ensures Candidate(base, j) in taken - {c} { CandidatesDiffer(base, j, n); }
      TriedAreTaken(base, n - 1, taken - {c});
    }
  }

  // ----- Texts with secrets sealed

  /** Literal bytes in front of further pieces. */
  function Bytes(s: string, rest: Pieces): Pieces { if s == [] then rest else Cons(Byte(s[0]), Bytes(s[1..], rest)) }

  function SecretCount(ps: seq<C.Part>): nat
  {
    if ps == [] then 0 else (if ps[0].secret then 1 else 0) + SecretCount(ps[1..])
  }

  /** The pieces of the settings text; `names` has one name per secret part. */
  function SealedPieces(ps: seq<C.Part>, names: seq<string>): Pieces
    requires |names| == SecretCount(ps)
  {
    if ps == [] then End
    else if ps[0].secret then Cons(Reference(Secret, names[0]), SealedPieces(ps[1..], names[1..]))
    else Bytes(ps[0].text, SealedPieces(ps[1..], names))
  }

  predicate NoOpening(s: string) { forall i :: 0 <= i < |s| - 1 ==> !(s[i] == '$' && s[i + 1] == '{') }

  lemma {:induction false} BytesSources(s: string, rest: Pieces)
    ensures Sources(Bytes(s, rest)) == s + Sources(rest)
  {
    if s == [] {
      NothingAfter(Sources(rest));
    } else {
      BytesSources(s[1..], rest);
      assert s == [s[0]] + s[1..];
      Regroup([s[0]], s[1..], Sources(rest));
    }
  }

  /** Bytes without an opening stand as they are, unless a `$` at their end meets what follows. */
  lemma {:induction false} BytesGood(s: string, rest: Pieces)
    requires Good(rest) && NoOpening(s) && (rest.End? || s == "" || s[|s| - 1] != '$')
    ensures Good(Bytes(s, rest))
  {
    if s != [] {
      var t := s[1..];
      assert s == [s[0]] + t;
      NoOpeningIn([s[0]], t);
      assert t != "" ==> t[|t| - 1] == s[|s| - 1];
      BytesGood(t, rest);
      BytesSources(t, rest);
      FirstByteStands(s, Sources(rest));
    }
  }

  lemma FirstByteStands(s: string, after: string)
    requires s != [] && NoOpening(s) && (after == "" || s[|s| - 1] != '$')
    ensures Stands(Byte(s[0]), s[1..] + after)
  {
    var r := [s[0]] + (s[1..] + after);
    if |s| >= 2 { assert r[1] == s[1]; }
    if |s| >= 3 { assert r[2] == s[2]; }
  }

  lemma NoOpeningIn(a: string, b: string)
    requires NoOpening(a + b)
    ensures NoOpening(a) && NoOpening(b)
  {
    var r := a + b;
    forall i | 0 <= i < |a| - 1 ensures !(a[i] == '$' && a[i + 1] == '{') {
      assert r[i] == a[i] && r[i + 1] == a[i + 1];
    }
    forall i | 0 <= i < |b| - 1 ensures !(b[i] == '$' && b[i + 1] == '{') {
      assert r[|a| + i] == b[i] && r[|a| + i + 1] == b[i + 1];
    }
  }

  ghost predicate ValidNames(names: seq<string>) { forall i :: 0 <= i < |names| ==> IsSecretName(names[i]) }

  lemma FramedTail(ps: seq<C.Part>)
    requires ps != [] && C.Framed(ps)
    ensures C.Framed(ps[1..])
  {
    forall i {:trigger ps[1..][i]} | 0 <= i < |ps[1..]| - 1 && !ps[1..][i].secret
      ensures C.EndsSafely(ps[1..][i].text) {
      assert !ps[i + 1].secret;
    }
  }

  /** A sealed text reads as its literals and its secret references. */
  lemma {:induction false} SealedIsGood(ps: seq<C.Part>, names: seq<string>)
    requires |names| == SecretCount(ps) && ValidNames(names) && C.Framed(ps) && NoOpening(C.Concat(ps))
    ensures Good(SealedPieces(ps, names))
    decreases |ps|
  {
    if ps != [] {
      NoOpeningIn(ps[0].text, C.Concat(ps[1..]));
      FramedTail(ps);
      if ps[0].secret {
        SealedIsGood(ps[1..], names[1..]);
      } else {
        SealedIsGood(ps[1..], names);
        if |ps| == 1 { assert SealedPieces(ps[1..], names) == End; } else { assert C.EndsSafely(ps[0].text); }
        BytesGood(ps[0].text, SealedPieces(ps[1..], names));
      }
    }
  }

  /** Each secret part's name leads to its text. */
  ghost predicate Resolves(ps: seq<C.Part>, names: seq<string>, secrets: Values)
    requires |names| == SecretCount(ps)
  {
    ps != [] ==>
      if ps[0].secret then
        names[0] in secrets && secrets[names[0]] == ps[0].text && Resolves(ps[1..], names[1..], secrets)
      else Resolves(ps[1..], names, secrets)
  }

  lemma {:induction false} BytesMean(s: string, rest: Pieces, vars: Values, secrets: Values)
    ensures MeaningOf(Bytes(s, rest), vars, secrets) == Prepend(s, MeaningOf(rest, vars, secrets))
  {
    var r := MeaningOf(rest, vars, secrets);
    if s == [] {
      PrependTwice("", "", r);
    } else {
      BytesMean(s[1..], rest, vars, secrets);
      PrependTwice([s[0]], s[1..], r);
      assert s == [s[0]] + s[1..];
    }
  }

  lemma {:induction false} SealedMeans(ps: seq<C.Part>, names: seq<string>, vars: Values, secrets: Values)
    requires |names| == SecretCount(ps) && Resolves(ps, names, secrets)
    ensures MeaningOf(SealedPieces(ps, names), vars, secrets) == Some(C.Concat(ps))
    decreases |ps|
  {
    if ps != [] {
      if ps[0].secret {
        SealedMeans(ps[1..], names[1..], vars, secrets);
      } else {
        SealedMeans(ps[1..], names, vars, secrets);
        BytesMean(ps[0].text, SealedPieces(ps[1..], names), vars, secrets);
      }
    }
  }

  /** A sealed text resolves to the string it was cut from. */
  lemma SealedResolves(ps: seq<C.Part>, names: seq<string>, vars: Values, secrets: Values)
    requires |names| == SecretCount(ps) && ValidNames(names) && C.Framed(ps) && NoOpening(C.Concat(ps))
    requires Resolves(ps, names, secrets)
    ensures Meaning(Sources(SealedPieces(ps, names)), vars, secrets) == Some(C.Concat(ps))
  {
    SealedIsGood(ps, names);
    ReadSources(SealedPieces(ps, names));
    SealedMeans(ps, names, vars, secrets);
  }

  // ----- The importer

  lemma ReadsPlain(s: string)
    requires NoOpening(s)
    ensures Read(s) == Parsed(Bytes(s, End))
  {
    BytesGood(s, End);
    BytesSources(s, End);
    ReadSources(Bytes(s, End));
    assert s + "" == s;
  }

  lemma {:induction false} PlainImports(s: string, picks: seq<Option<string>>)
    ensures ImportOf(Bytes(s, End), picks) == Bytes(s, End)
  {
    if s != [] { PlainImports(s[1..], picks); }
  }

  lemma PlainMeans(s: string, vars: Values, secrets: Values)
    requires NoOpening(s)
    ensures Meaning(s, vars, secrets) == Some(s)
  {
    ReadsPlain(s);
    BytesMean(s, End, vars, secrets);
    assert s + "" == s;
  }

  /** More secrets do not change what a text that resolves means. */
  lemma {:induction false} MeaningGrows(ps: Pieces, vars: Values, a: Values, b: Values)
    requires Extends(a, b) && MeaningOf(ps, vars, a).Some?
    ensures MeaningOf(ps, vars, b) == MeaningOf(ps, vars, a)
  {
    if ps.Cons? { MeaningGrows(ps.tail, vars, a, b); }
  }

  ghost predicate Extends(a: Values, b: Values) { forall n :: n in a ==> n in b && b[n] == a[n] }

  lemma TextGrows(text: string, vars: Values, a: Values, b: Values)
    requires Extends(a, b) && Meaning(text, vars, a).Some?
    ensures Meaning(text, vars, b) == Meaning(text, vars, a)
  {
    MeaningGrows(Read(text).pieces, vars, a, b);
  }

  lemma {:induction false} ResolvesGrows(ps: seq<C.Part>, names: seq<string>, a: Values, b: Values)
    requires |names| == SecretCount(ps) && Resolves(ps, names, a) && Extends(a, b)
    ensures Resolves(ps, names, b)
    decreases |ps|
  {
    if ps != [] { ResolvesGrows(ps[1..], if ps[0].secret then names[1..] else names, a, b); }
  }

  /** As many names as suffixes of seven digits can tell apart. */
  const NAMES := 9_999_999

  class Importer {
    /** Secrets of the store, names it holds but cannot read, and names this import picked. */
    const saved: Values
    const unreadable: set<string>
    var reserved: Values

    constructor (saved: Values, unreadable: set<string>)
      ensures this.saved == saved && this.unreadable == unreadable && reserved == map[] && Valid()
    {
      this.saved, this.unreadable, reserved := saved, unreadable, map[];
    }

    /** A picked name is never one the store already uses. */
    ghost predicate Valid()
      reads this
    {
      reserved.Keys !! saved.Keys && reserved.Keys !! unreadable
    }

    ghost function Taken(): set<string>
      reads this
    {
      saved.Keys + unreadable + reserved.Keys
    }

    /** What names stand for once the import is applied. */
    ghost function Secrets(): Values
      reads this
    {
      saved + reserved
    }

    /** A name the value may have: it is free, or stands for the same value already. */
    predicate Fits(name: string, value: string)
      reads this
    {
      if name in saved then saved[name] == value
      else name !in unreadable && (name in reserved ==> reserved[name] == value)
    }

    /** Of the names tried in turn, `name` is the first that fits. */
    ghost predicate FirstFit(base: string, value: string, name: string)
      reads this
    {
      exists k :: 1 <= k && name == Candidate(base, k) && Fits(name, value) && NoneBefore(base, value, k)
    }

    ghost predicate NoneBefore(base: string, value: string, k: nat)
      reads this
    {
      forall j {:trigger Candidate(base, j)} :: 1 <= j < k ==> !Fits(Candidate(base, j), value)
    }

    /** The first candidate that fits; there is one after at most every taken name. */
    method Pick(base: string, value: string) returns (name: string)
      requires Valid() && IsSecretName(base) && |base| <= BASE_LEN
      ensures FirstFit(base, value, name)
      ensures |Taken()| < NAMES ==> IsSecretName(name)
    {
      name := base;
      var i := 2;
      while !Fits(name, value)
        invariant 2 <= i && name == Candidate(base, i - 1)
        invariant NoneBefore(base, value, i - 1)
        decreases |Taken()| + 2 - i
      {
        NoneBeforeNext(base, value, i - 1);
        TriedTaken(base, value, i);
        name := Candidate(base, i);
        i := i + 1;
      }
      TriedTaken(base, value, i - 1);
      if |Taken()| < NAMES { CandidateIsName(base, i - 1); }
    }

    lemma NoneBeforeNext(base: string, value: string, k: nat)
      requires NoneBefore(base, value, k) && !Fits(Candidate(base, k), value)
      ensures NoneBefore(base, value, k + 1)
    {
    }

    /** Names that do not fit are taken, so no more were tried than are taken. */
    lemma TriedTaken(base: string, value: string, k: nat)
      requires 1 <= k && NoneBefore(base, value, k)
      ensures k - 1 <= |Taken()|
    {
      forall j | 1 <= j <= k - 1 ensures Candidate(base, j) in Taken() { assert !Fits(Candidate(base, j), value); }
      TriedAreTaken(base, k - 1, Taken());
    }

    /** The secret name for a value: an equal one is reused, another one under the base takes -2, -3. */
    method Assign(base: string, value: string) returns (name: string, reuse: bool)
      requires Valid()
      modifies this
      ensures Valid() && Extends(old(Secrets()), Secrets())
      ensures name in Secrets() && Secrets()[name] == value
      ensures old(FirstFit(Sanitized(base), value, name))
      ensures reuse <==> name in saved
      ensures reserved == old(reserved) || (name !in old(Taken()) && reserved == old(reserved)[name := value])
      ensures |old(Taken())| < NAMES ==> IsSecretName(name)
    {
      name := Pick(Sanitized(base), value);
      reuse := name in saved;
      if !reuse {
        ReserveExtends(saved, reserved, name, value);
        reserved := reserved[name := value];
      }
    }

    ghost predicate Grown(before: Values, taken: set<string>)
      reads this
    {
      Extends(before, Secrets()) && taken <= Taken()
    }

    /** One more name beside those already picked for the same text. */
    method AssignNext(base: string, value: string, ghost names: seq<string>) returns (n: string)
      requires Valid() && (|Taken()| < NAMES ==> ValidNames(names))
      modifies this
      ensures Valid() && Grown(old(Secrets()), old(Taken()))
      ensures n in Secrets() && Secrets()[n] == value
      ensures |Taken()| < NAMES ==> ValidNames(names + [n])
    {
      ghost var taken := Taken();
      var name, _ := Assign(base, value);
      n := name;
      SubsetSize(taken, Taken());
    }

    /** The parts so far are written, under names of the grammar while there is room. */
    ghost predicate Written(ps: seq<C.Part>, names: seq<string>, text: string)
      reads this
    {
      SealedAs(ps, names, text, Secrets()) && (|Taken()| < NAMES ==> ValidNames(names))
    }

    /** One part written after the parts before it. */
    method SealPart(base: string, p: C.Part, ghost ps: seq<C.Part>, ghost names: seq<string>, ghost text: string)
      returns (word: string, more: seq<string>)
      requires Valid() && Written(ps, names, text)
      modifies this
      ensures Valid() && Grown(old(Secrets()), old(Taken())) && Written(ps + [p], names + more, text + word)
    {
      if p.secret {
        ghost var before := Secrets();
        var n := AssignNext(base, p.text, names);
        ResolvesGrows(ps, names, before, Secrets());
        word, more := RefText(Secret, n), [n];
      } else {
        word, more := p.text, [];
        assert names + more == names;
      }
      SealedOne(p, more, Secrets());
      SealedConcat(ps, names, text, [p], more, word, Secrets());
    }

    ghost predicate Sealing(ps: seq<C.Part>, names: seq<string>, text: string, start: Values, taken: set<string>)
      reads this
    {
      Valid() && Written(ps, names, text) && Grown(start, taken)
    }

    /** The next part, within an import that began with the secrets `start` and the names `taken`. */
    method SealNext(base: string, ps: seq<C.Part>, i: nat, text: string, names: seq<string>,
                    ghost start: Values, ghost taken: set<string>)
      returns (longer: string, more: seq<string>)
      requires i < |ps| && Sealing(ps[..i], names, text, start, taken)
      modifies this
      ensures Sealing(ps[..i + 1], more, longer, start, taken)
    {
      ghost var before := Secrets();
      var word, picked := SealPart(base, ps[i], ps[..i], names, text);
      ExtendsOn(start, before, Secrets());
      assert ps[..i + 1] == ps[..i] + [ps[i]];
      return text + word, names + picked;
    }

    /** Writes the parts out: literals as they are, each secret as a reference to its name. */
    method Seal(base: string, ps: seq<C.Part>) returns (text: string, names: seq<string>)
      requires Valid()
      modifies this
      ensures Valid() && Grown(old(Secrets()), old(Taken()))
      ensures Written(ps, names, text)
    {
      ghost var start, taken := Secrets(), Taken();
      text, names := [], [];
      SealedNothing(start);
      assert ps[..0] == [];
      for i := 0 to |ps|
        invariant Sealing(ps[..i], names, text, start, taken)
      {
        text, names := SealNext(base, ps, i, text, names, start, taken);
      }
      assert ps[..|ps|] == ps;
    }

    /**
     One native string as settings text: references mapped, credentials sealed. None when the string
     has a reference form that cannot be expressed.
     */
    method Value(l: C.Loc, name: string, raw: string, base: string, shape: C.Shape) returns (text: Option<string>)
      requires Valid()
      modifies this
      ensures Valid() && Grown(old(Secrets()), old(Taken()))
      ensures NoOpening(raw) ==> text.Some?
      ensures NoOpening(raw) && |Taken()| < NAMES ==> forall vars :: Meaning(text.value, vars, Secrets()) == Some(raw)
      ensures NoOpening(raw) && !shape.value("") ==> ImportedAs(l, name, raw, shape, text.value, Secrets())
    {
      var txt, _ := MapSecretRefs(raw, saved.Keys);
      if NoOpening(raw) { PlainIsKept(raw); assert txt == raw; }
      var scan := ScanRefs(txt);
      if scan.BadRef? { return None; }
      var parts := C.Parts(l, name, txt, shape);
      if !C.HasSecret(parts) {
        if NoOpening(raw) && !shape.value("") { PlainImported(l, name, raw, shape, Secrets()); }
        if NoOpening(raw) {
          forall vars ensures Meaning(raw, vars, Secrets()) == Some(raw) { PlainMeans(raw, vars, Secrets()); }
        }
        return Some(txt);
      }
      var sealed, names := Seal(base, parts);
      if NoOpening(raw) && !shape.value("") { SealedImported(l, name, raw, shape, names, sealed, Secrets()); }
      if NoOpening(raw) && |Taken()| < NAMES {
        C.PartsKeep(l, name, raw, shape);
        C.PartsFramed(l, name, raw, shape);
        forall vars ensures Meaning(sealed, vars, Secrets()) == Some(raw) {
          SealedResolves(parts, names, vars, Secrets());
        }
      }
      return Some(sealed);
    }
  }

  lemma {:induction false} SubsetSize(a: set<string>, b: set<string>)
    requires a <= b
    ensures |a| <= |b|
  {
    if a != {} {
      var x :| x in a;
      SubsetSize(a - {x}, b - {x});
    }
  }

  /** An import leaves a string without references alone. */
  lemma PlainIsKept(raw: string)
    requires NoOpening(raw)
    ensures Read(raw).Parsed? && References(raw).Found?
    ensures forall picks :: Sources(ImportOf(Read(raw).pieces, picks)) == raw
  {
    ReadsPlain(raw);
    BytesSources(raw, End);
    assert raw + "" == raw;
    forall picks ensures Sources(ImportOf(Read(raw).pieces, picks)) == raw { PlainImports(raw, picks); }
  }

  /** `text` is the parts written out under `names`, which lead to their texts. */
  ghost predicate SealedAs(ps: seq<C.Part>, names: seq<string>, text: string, secrets: Values)
  {
    |names| == SecretCount(ps) && text == Sources(SealedPieces(ps, names)) && Resolves(ps, names, secrets)
  }

  function WordOf(p: C.Part, names: seq<string>): string
    requires p.secret ==> names != []
  {
    if p.secret then RefText(Secret, names[0]) else p.text
  }

  lemma SealedCons(p: C.Part, more: seq<string>, ps: seq<C.Part>, names: seq<string>, text: string, secrets: Values)
    requires SealedAs(ps, names, text, secrets) && |more| == (if p.secret then 1 else 0)
    requires p.secret ==> more[0] in secrets && secrets[more[0]] == p.text
    ensures SealedAs([p] + ps, more + names, WordOf(p, more) + text, secrets)
  {
    assert ([p] + ps)[1..] == ps;
    if p.secret {
      assert (more + names)[1..] == names;
    } else {
      assert more + names == names;
      BytesSources(p.text, SealedPieces(ps, names));
    }
  }

  lemma SealedTail(ps: seq<C.Part>, names: seq<string>, text: string, secrets: Values) returns (k: nat, tail: string)
    requires ps != [] && SealedAs(ps, names, text, secrets)
    ensures k == (if ps[0].secret then 1 else 0) && k <= |names|
    ensures ps[0].secret ==> names[0] in secrets && secrets[names[0]] == ps[0].text
    ensures text == WordOf(ps[0], names[..k]) + tail && SealedAs(ps[1..], names[k..], tail, secrets)
  {
    if ps[0].secret {
      k, tail := 1, Sources(SealedPieces(ps[1..], names[1..]));
    } else {
      assert names[0..] == names;
      k, tail := 0, Sources(SealedPieces(ps[1..], names));
      BytesSources(ps[0].text, SealedPieces(ps[1..], names));
    }
  }

  lemma {:induction false} SealedConcat(a: seq<C.Part>, m: seq<string>, ta: string,
                                        b: seq<C.Part>, n: seq<string>, tb: string, secrets: Values)
    requires SealedAs(a, m, ta, secrets) && SealedAs(b, n, tb, secrets)
    ensures SealedAs(a + b, m + n, ta + tb, secrets)
    decreases |a|
  {
    if a == [] {
      NothingBefore(b);
      NothingBefore(n);
      NothingBefore(tb);
      return;
    }
    var p := a[0];
    var k, tail := SealedTail(a, m, ta, secrets);
    SealedConcat(a[1..], m[k..], tail, b, n, tb, secrets);
    SealedCons(p, m[..k], a[1..] + b, m[k..] + n, tail + tb, secrets);
    Regroup([p], a[1..], b);
    Regroup(m[..k], m[k..], n);
    Regroup(WordOf(p, m[..k]), tail, tb);
    assert a == [p] + a[1..] && m == m[..k] + m[k..];
  }

  // ----- What was imported, said of the string

  /** The literals as they are, each secret as a reference to the next of the names. */
  ghost function Spelled(ps: seq<C.Part>, names: seq<string>): string
    requires |names| == |UrlSecrets.Secrets(ps)|
    decreases |ps|
  {
    if ps == [] then ""
    else if ps[0].secret then "${" + ("secret:" + names[0]) + "}" + Spelled(ps[1..], names[1..])
    else ps[0].text + Spelled(ps[1..], names)
  }

  /** The names stand for the secrets, one for one. */
  ghost predicate Names(names: seq<string>, texts: seq<string>, secrets: Values)
  {
    |names| == |texts| && forall i :: 0 <= i < |names| ==> names[i] in secrets && secrets[names[i]] == texts[i]
  }

  lemma {:induction false} CountIsSecrets(ps: seq<C.Part>)
    ensures SecretCount(ps) == |UrlSecrets.Secrets(ps)|
  {
    if ps != [] { CountIsSecrets(ps[1..]); }
  }

  lemma {:induction false} SealedSpells(ps: seq<C.Part>, names: seq<string>, secrets: Values)
    requires |names| == SecretCount(ps) && Resolves(ps, names, secrets)
    ensures Names(names, UrlSecrets.Secrets(ps), secrets)
    ensures Sources(SealedPieces(ps, names)) == Spelled(ps, names)
    decreases |ps|
  {
    CountIsSecrets(ps);
    if ps == [] { return; }
    if ps[0].secret {
      SealedSpells(ps[1..], names[1..], secrets);
      var texts := UrlSecrets.Secrets(ps[1..]);
      forall i | 0 <= i < |names| ensures names[i] in secrets && secrets[names[i]] == UrlSecrets.Secrets(ps)[i] {
        if i > 0 { assert names[i] == names[1..][i - 1] && UrlSecrets.Secrets(ps)[i] == texts[i - 1]; }
      }
    } else {
      SealedSpells(ps[1..], names, secrets);
      BytesSources(ps[0].text, SealedPieces(ps[1..], names));
    }
  }

  lemma {:induction false} PlainSpells(ps: seq<C.Part>)
    requires !C.HasSecret(ps)
    ensures UrlSecrets.Secrets(ps) == [] && Spelled(ps, []) == C.Concat(ps)
  {
    if ps != [] {
      assert !ps[0].secret;
      forall i | 0 <= i < |ps[1..]| ensures !ps[1..][i].secret { assert !ps[i + 1].secret; }
      PlainSpells(ps[1..]);
    }
  }

  /** The text is the string with every secret of its place, and nothing else, turned into a reference to it. */
  ghost predicate ImportedAs(l: C.Loc, name: string, raw: string, shape: C.Shape, text: string, secrets: Values)
  {
    exists ps, names ::
      && C.Concat(ps) == raw && SealMeaning.SealsAs(l, name, raw, shape, UrlSecrets.Secrets(ps))
      && Names(names, UrlSecrets.Secrets(ps), secrets) && text == Spelled(ps, names)
  }

  lemma ImportedGrows(l: C.Loc, name: string, raw: string, shape: C.Shape, text: string, a: Values, b: Values)
    requires ImportedAs(l, name, raw, shape, text, a) && Extends(a, b)
    ensures ImportedAs(l, name, raw, shape, text, b)
  {
    var ps, names :|
      && C.Concat(ps) == raw && SealMeaning.SealsAs(l, name, raw, shape, UrlSecrets.Secrets(ps))
      && Names(names, UrlSecrets.Secrets(ps), a) && text == Spelled(ps, names);
    assert Names(names, UrlSecrets.Secrets(ps), b);
  }

  lemma PlainImported(l: C.Loc, name: string, raw: string, shape: C.Shape, secrets: Values)
    requires !shape.value("") && !C.HasSecret(C.Parts(l, name, raw, shape))
    ensures ImportedAs(l, name, raw, shape, raw, secrets)
  {
    var ps := C.Parts(l, name, raw, shape);
    C.PartsKeep(l, name, raw, shape);
    SealMeaning.PartsSeal(l, name, raw, shape);
    PlainSpells(ps);
    assert Names([], UrlSecrets.Secrets(ps), secrets);
  }

  lemma SealedImported(l: C.Loc, name: string, raw: string, shape: C.Shape, names: seq<string>, text: string,
                       secrets: Values)
    requires !shape.value("") && SealedAs(C.Parts(l, name, raw, shape), names, text, secrets)
    ensures ImportedAs(l, name, raw, shape, text, secrets)
  {
    var ps := C.Parts(l, name, raw, shape);
    C.PartsKeep(l, name, raw, shape);
    SealMeaning.PartsSeal(l, name, raw, shape);
    SealedSpells(ps, names, secrets);
  }

  lemma SealedNothing(secrets: Values)
    ensures SealedAs([], [], [], secrets)
  {
  }

  lemma SealedOne(p: C.Part, more: seq<string>, secrets: Values)
    requires |more| == (if p.secret then 1 else 0)
    requires p.secret ==> more[0] in secrets && secrets[more[0]] == p.text
    ensures SealedAs([p], more, WordOf(p, more), secrets)
  {
    SealedNothing(secrets);
    SealedCons(p, more, [], [], [], secrets);
    NothingAfter([p]);
    NothingAfter(more);
    NothingAfter(WordOf(p, more));
  }

  lemma ExtendsOn(a: Values, b: Values, c: Values)
    requires Extends(a, b) && Extends(b, c)
    ensures Extends(a, c)
  {
  }

  lemma ReserveExtends(saved: Values, reserved: Values, name: string, value: string)
    requires name in reserved ==> reserved[name] == value
    requires name !in saved
    ensures Extends(saved + reserved, saved + reserved[name := value])
  {
  }

  // ----- A whole import

  datatype Native = Native(loc: C.Loc, name: string, raw: string, base: string)

  /** The text resolves to the string. */
  ghost predicate ResolvesTo(text: Option<string>, raw: string, secrets: Values)
  {
    text.Some? && forall vars :: Meaning(text.value, vars, secrets) == Some(raw)
  }

  /** The text has a reference for every secret of the string's place. */
  ghost predicate Hides(n: Native, text: Option<string>, shape: C.Shape, secrets: Values)
  {
    text.Some? && ImportedAs(n.loc, n.name, n.raw, shape, text.value, secrets)
  }

  /** What an import promises of one string; the first only while there is `room` for names. */
  ghost predicate Fits(n: Native, text: Option<string>, shape: C.Shape, secrets: Values, room: bool)
  {
    NoOpening(n.raw) ==>
      (room ==> ResolvesTo(text, n.raw, secrets)) && (!shape.value("") ==> Hides(n, text, shape, secrets))
  }

  lemma FitsGrows(n: Native, text: Option<string>, shape: C.Shape, a: Values, b: Values, room: bool, less: bool)
    requires Extends(a, b) && Fits(n, text, shape, a, room) && (less ==> room)
    ensures Fits(n, text, shape, b, less)
  {
    if NoOpening(n.raw) && !shape.value("") { ImportedGrows(n.loc, n.name, n.raw, shape, text.value, a, b); }
    if NoOpening(n.raw) && less {
      forall vars ensures Meaning(text.value, vars, b) == Some(n.raw) { TextGrows(text.value, vars, a, b); }
    }
  }

  ghost predicate AllFit(natives: seq<Native>, texts: seq<Option<string>>, shape: C.Shape, secrets: Values, room: bool)
  {
    |texts| <= |natives| && forall i :: 0 <= i < |texts| ==> Fits(natives[i], texts[i], shape, secrets, room)
  }

  lemma AllFitMore(natives: seq<Native>, texts: seq<Option<string>>, t: Option<string>, shape: C.Shape, a: Values,
                   b: Values, room: bool, less: bool)
    requires AllFit(natives, texts, shape, a, room) && |texts| < |natives| && Extends(a, b) && (less ==> room)
    requires Fits(natives[|texts|], t, shape, b, less)
    ensures AllFit(natives, texts + [t], shape, b, less)
  {
    forall i | 0 <= i < |texts| ensures Fits(natives[i], texts[i], shape, b, less) {
      FitsGrows(natives[i], texts[i], shape, a, b, room, less);
    }
  }

  method ImportOne(im: Importer, n: Native, shape: C.Shape) returns (text: Option<string>)
    requires im.Valid()
    modifies im
    ensures im.Valid() && Extends(old(im.Secrets()), im.Secrets())
    ensures |im.Taken()| < NAMES ==> |old(im.Taken())| < NAMES
    ensures Fits(n, text, shape, im.Secrets(), |im.Taken()| < NAMES)
  {
    ghost var taken := im.Taken();
    text := im.Value(n.loc, n.name, n.raw, n.base, shape);
    SubsetSize(taken, im.Taken());
  }

  /**
   Every string of an import without references resolves to itself under the secrets the whole
   import leaves, whatever was picked for the others, and keeps no credential in its text.
   */
  method ImportAll(im: Importer, natives: seq<Native>, shape: C.Shape) returns (texts: seq<Option<string>>)
    requires im.Valid()
    modifies im
    ensures im.Valid() && |texts| == |natives| && Extends(old(im.Secrets()), im.Secrets())
    ensures AllFit(natives, texts, shape, im.Secrets(), |im.Taken()| < NAMES)
  {
    texts := [];
    for k := 0 to |natives|
      invariant im.Valid() && |texts| == k && Extends(old(im.Secrets()), im.Secrets())
      invariant AllFit(natives, texts, shape, im.Secrets(), |im.Taken()| < NAMES)
    {
      ghost var before, room := im.Secrets(), |im.Taken()| < NAMES;
      var t := ImportOne(im, natives[k], shape);
      AllFitMore(natives, texts, t, shape, before, im.Secrets(), room, |im.Taken()| < NAMES);
      ExtendsOn(old(im.Secrets()), before, im.Secrets());
      texts := texts + [t];
    }
  }
}
