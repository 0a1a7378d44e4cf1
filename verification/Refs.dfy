/**
 The reference language of settings text: ${NAME} reads a variable, ${secret:name} a secret, and
 $${ is a literal ${. A text is read as pieces: single bytes, escapes and references. The scanner
 and the resolver are loops over byte offsets, proved against that reading.
 */
module Refs {
  import opened Prelude

  datatype Kind = Env | Secret

  datatype Ref = Ref(kind: Kind, name: string, start: nat, end: nat)

  predicate IsLower(c: char) { 'a' <= c <= 'z' }
  predicate IsUpper(c: char) { 'A' <= c <= 'Z' }
  predicate IsDigit(c: char) { '0' <= c <= '9' }
  predicate IsNameChar(c: char) { IsLower(c) || IsDigit(c) || c == '_' || c == '.' || c == '-' }
  predicate IsVarChar(c: char) { IsLower(c) || IsUpper(c) || IsDigit(c) || c == '_' }

  /** ^[A-Za-z_][A-Za-z0-9_]*$ */
  predicate IsEnvName(s: string)
  {
    s != "" && !IsDigit(s[0]) && forall i {:trigger IsVarChar(s[i])} :: 0 <= i < |s| ==> IsVarChar(s[i])
  }

  /** ^[a-z0-9][a-z0-9_.-]{0,63}$ */
  predicate IsSecretName(s: string)
  {
    && 1 <= |s| <= 64 && (IsLower(s[0]) || IsDigit(s[0]))
    && forall i {:trigger IsNameChar(s[i])} :: 0 <= i < |s| ==> IsNameChar(s[i])
  }

  const SECRET := "secret:"

  /** What stands at the front of a text. `Whole` counts the bytes of the ${...}. */
  datatype Head = Plain | Escape | Whole(kind: Kind, name: string, len: nat) | Malformed

  predicate Closes(c: char) { c == '}' || c == '$' }

  function CloseFrom(s: string, i: nat): (k: nat)
    requires i <= |s|
    ensures i <= k <= |s|
    ensures k < |s| ==> Closes(s[k])
    ensures forall j {:trigger Closes(s[j])} :: i <= j < k ==> !Closes(s[j])
    decreases |s| - i
  {
    if i == |s| || Closes(s[i]) then i else CloseFrom(s, i + 1)
  }

  /** The bytes from `a` to `b` are a variable's name. */
  predicate VarNameAt(s: string, a: nat, b: nat)
  {
    a < b <= |s| && !IsDigit(s[a]) && forall j {:trigger IsVarChar(s[j])} :: a <= j < b ==> IsVarChar(s[j])
  }

  /** The bytes from `a` to `b` are a secret's name. */
  predicate SecretNameAt(s: string, a: nat, b: nat)
  {
    && a < b <= |s| && b - a <= 64 && (IsLower(s[a]) || IsDigit(s[a]))
    && forall j {:trigger IsNameChar(s[j])} :: a <= j < b ==> IsNameChar(s[j])
  }

  /** "secret:" stands at `a`. */
  predicate SecretAt(s: string, a: nat)
  {
    && a + 7 <= |s| && s[a] == 's' && s[a + 1] == 'e' && s[a + 2] == 'c' && s[a + 3] == 'r' && s[a + 4] == 'e'
    && s[a + 5] == 't' && s[a + 6] == ':'
  }

  /** The reference whose body lies from `a` to `b`. */
  function RefHead(s: string, a: nat, b: nat): Head
    requires a <= b <= |s|
  {
    if SecretAt(s, a) && SecretNameAt(s, a + 7, b) then Whole(Secret, s[a + 7..b], b - a + 3)
    else if VarNameAt(s, a, b) then Whole(Env, s[a..b], b - a + 3)
    else Malformed
  }

  /** $${ stands at `i`. */
  predicate EscapeAt(s: string, i: nat) { i + 3 <= |s| && s[i] == '$' && s[i + 1] == '$' && s[i + 2] == '{' }

  /** ${ stands at `i`. */
  predicate OpensAt(s: string, i: nat) { i + 2 <= |s| && s[i] == '$' && s[i + 1] == '{' }

  function HeadAt(s: string, i: nat): (h: Head)
    requires i < |s|
    ensures h.Escape? <==> EscapeAt(s, i)
    ensures h.Plain? <==> !EscapeAt(s, i) && !OpensAt(s, i)
    ensures h.Whole? ==> 3 <= h.len <= |s| - i && OpensAt(s, i)
  {
    if EscapeAt(s, i) then Escape
    else if !OpensAt(s, i) then Plain
    else
      var k := CloseFrom(s, i + 2);
      if k == |s| || s[k] == '$' then Malformed else RefHead(s, i + 2, k)
  }

  // ----- Reading a text as pieces

  datatype Piece = Byte(c: char) | Esc | Reference(kind: Kind, name: string)

  datatype Pieces = End | Cons(head: Piece, tail: Pieces)

  function Body(kind: Kind, name: string): string { if kind == Secret then SECRET + name else name }

  function RefText(kind: Kind, name: string): string { "${" + Body(kind, name) + "}" }

  function Source(p: Piece): string
  {
    match p
    case Byte(c) => [c]
    case Esc => "$${"
    case Reference(kind, name) => RefText(kind, name)
  }

  function Sources(ps: Pieces): string { if ps.End? then "" else Source(ps.head) + Sources(ps.tail) }

  datatype Parse = Problem(at: nat) | Parsed(pieces: Pieces)

  function Then(p: Piece, rest: Parse): Parse { if rest.Problem? then rest else Parsed(Cons(p, rest.pieces)) }

  /** How far one round of the scan moves. */
  function Advance(h: Head): nat { match h case Escape => 3 case Whole(_, _, len) => len case _ => 1 }

  function PieceOf(h: Head, c: char): Piece
  {
    match h
    case Escape => Esc
    case Whole(kind, name, _) => Reference(kind, name)
    case _ => Byte(c)
  }

  /** The scanner's left-to-right reading of `s` from `i` on. */
  function ReadFrom(s: string, i: nat): Parse
    requires i <= |s|
    decreases |s| - i
  {
    if i == |s| then Parsed(End)
    else
      var h := HeadAt(s, i);
      if h.Malformed? then Problem(i) else Then(PieceOf(h, s[i]), ReadFrom(s, i + Advance(h)))
  }

  function Read(s: string): Parse { ReadFrom(s, 0) }

  predicate ValidName(kind: Kind, name: string) { if kind == Secret then IsSecretName(name) else IsEnvName(name) }

  predicate Starts(s: string, i: nat, c: char) { i < |s| && s[i] == c }

  /** A piece that reads as itself before `rest`: no byte starts an escape or a reference. */
  predicate Stands(p: Piece, rest: string)
  {
    match p
    case Byte(c) => c != '$' || !(Starts(rest, 0, '{') || (Starts(rest, 0, '$') && Starts(rest, 1, '{')))
    case Esc => true
    case Reference(kind, name) => ValidName(kind, name)
  }

  /** Pieces a reading can give. */
  predicate Good(ps: Pieces)
  {
    ps.Cons? ==> Stands(ps.head, Sources(ps.tail)) && Good(ps.tail)
  }

  // ----- Pieces at offsets

  function SourceLen(p: Piece): nat
  {
    match p
    case Byte(_) => 1
    case Esc => 3
    case Reference(kind, name) => if kind == Secret then |name| + 10 else |name| + 3
  }

  /** The body of a reference stands at `a`. */
  predicate BodyAt(s: string, a: nat, kind: Kind, name: string)
  {
    if kind == Secret then SecretAt(s, a) && a + 7 + |name| <= |s| && s[a + 7..a + 7 + |name|] == name
    else a + |name| <= |s| && s[a..a + |name|] == name
  }

  /** `p` stands at `i`, and nothing else does. */
  predicate PieceAt(s: string, i: nat, p: Piece)
  {
    && i + SourceLen(p) <= |s|
    && match p
       case Byte(c) => s[i] == c && !EscapeAt(s, i) && !OpensAt(s, i)
       case Esc => EscapeAt(s, i)
       case Reference(kind, name) =>
         ValidName(kind, name) && OpensAt(s, i) && BodyAt(s, i + 2, kind, name) && s[i + SourceLen(p) - 1] == '}'
  }

  lemma VarNameIs(s: string, a: nat, b: nat)
    requires a <= b <= |s|
    ensures VarNameAt(s, a, b) <==> IsEnvName(s[a..b])
  {
    var t := s[a..b];
    if IsEnvName(t) { forall j | a <= j < b ensures IsVarChar(s[j]) { assert IsVarChar(t[j - a]); } }
    if VarNameAt(s, a, b) { forall j | 0 <= j < |t| ensures IsVarChar(t[j]) { assert IsVarChar(s[a + j]); } }
  }

  lemma SecretNameIs(s: string, a: nat, b: nat)
    requires a <= b <= |s|
    ensures SecretNameAt(s, a, b) <==> IsSecretName(s[a..b])
  {
    var t := s[a..b];
    if IsSecretName(t) { forall j | a <= j < b ensures IsNameChar(s[j]) { assert IsNameChar(t[j - a]); } }
    if SecretNameAt(s, a, b) { forall j | 0 <= j < |t| ensures IsNameChar(t[j]) { assert IsNameChar(s[a + j]); } }
  }

  lemma CloseIs(s: string, i: nat, k: nat)
    requires i <= k < |s| && Closes(s[k]) && forall j {:trigger Closes(s[j])} :: i <= j < k ==> !Closes(s[j])
    ensures CloseFrom(s, i) == k
  {
  }

  /** A secret's reference is read as itself. */
  lemma SecretIsRead(s: string, i: nat, name: string)
    requires PieceAt(s, i, Reference(Secret, name))
    ensures HeadAt(s, i) == Whole(Secret, name, |name| + 10)
  {
    var a := i + 9;
    var k := a + |name|;
    SecretNameIs(s, a, k);
    forall j | i + 2 <= j < k ensures !Closes(s[j]) {
      if j >= a { assert IsNameChar(s[j]); } else { assert SecretAt(s, i + 2); }
    }
    assert Closes(s[k]);
    CloseIs(s, i + 2, k);
  }

  /** A variable's reference is read as itself. */
  lemma VarIsRead(s: string, i: nat, name: string)
    requires PieceAt(s, i, Reference(Env, name))
    ensures HeadAt(s, i) == Whole(Env, name, |name| + 3)
  {
    var a := i + 2;
    var k := a + |name|;
    VarNameIs(s, a, k);
    forall j | a <= j < k ensures !Closes(s[j]) { assert IsVarChar(s[j]); }
    assert Closes(s[k]);
    CloseIs(s, a, k);
    assert a + 7 < k ==> IsVarChar(s[a + 6]);
  }

  lemma ReferenceOfHead(s: string, i: nat, h: Head)
    requires i < |s| && h == HeadAt(s, i) && h.Whole?
    ensures PieceAt(s, i, Reference(h.kind, h.name)) && h.len == SourceLen(Reference(h.kind, h.name))
  {
    var k := CloseFrom(s, i + 2);
    if h.kind == Secret { SecretNameIs(s, i + 9, k); } else { VarNameIs(s, i + 2, k); }
  }

  /** The piece at the front of what is left, whichever way it is asked for. */
  lemma PieceAtIff(s: string, i: nat, p: Piece)
    requires i < |s|
    ensures PieceAt(s, i, p) <==> !HeadAt(s, i).Malformed? && PieceOf(HeadAt(s, i), s[i]) == p
    ensures PieceAt(s, i, p) ==> Advance(HeadAt(s, i)) == SourceLen(p)
  {
    var h := HeadAt(s, i);
    if h.Whole? { ReferenceOfHead(s, i, h); }
    if p.Reference? && PieceAt(s, i, p) {
      if p.kind == Secret { SecretIsRead(s, i, p.name); } else { VarIsRead(s, i, p.name); }
    }
  }

  // ----- The reading, piece by piece

  ghost predicate PiecesAt(s: string, i: nat, ps: Pieces)
    decreases ps
  {
    if ps.End? then i == |s| else PieceAt(s, i, ps.head) && PiecesAt(s, i + SourceLen(ps.head), ps.tail)
  }

  lemma ReadStep(s: string, i: nat, p: Piece)
    requires PieceAt(s, i, p)
    ensures ReadFrom(s, i) == Then(p, ReadFrom(s, i + SourceLen(p)))
  {
    PieceAtIff(s, i, p);
  }

  /** Pieces that stand are the ones read. */
  lemma {:induction false} PiecesAreRead(s: string, i: nat, ps: Pieces)
    requires i <= |s| && PiecesAt(s, i, ps)
    ensures ReadFrom(s, i) == Parsed(ps)
    decreases ps
  {
    if ps.Cons? {
      ReadStep(s, i, ps.head);
      PiecesAreRead(s, i + SourceLen(ps.head), ps.tail);
    }
  }

  lemma ReadHere(s: string, i: nat) returns (p: Piece)
    requires i < |s| && ReadFrom(s, i).Parsed?
    ensures PieceAt(s, i, p) && SourceLen(p) > 0
    ensures ReadFrom(s, i) == Then(p, ReadFrom(s, i + SourceLen(p)))
  {
    p := PieceOf(HeadAt(s, i), s[i]);
    PieceAtIff(s, i, p);
  }

  /** What is read stands there. */
  lemma {:induction false} ReadStands(s: string, i: nat) returns (ps: Pieces)
    requires i <= |s| && ReadFrom(s, i).Parsed?
    ensures ReadFrom(s, i) == Parsed(ps) && PiecesAt(s, i, ps)
    decreases |s| - i
  {
    if i == |s| { return End; }
    var p := ReadHere(s, i);
    var tail := ReadStands(s, i + SourceLen(p));
    ps := Cons(p, tail);
  }

  // ----- Pieces and the text they spell

  predicate TextAt(s: string, i: nat, a: string) { i + |a| <= |s| && s[i..i + |a|] == a }

  lemma TextsAt(s: string, i: nat, a: string, b: string)
    ensures TextAt(s, i, a + b) <==> TextAt(s, i, a) && TextAt(s, i + |a|, b)
  {
    if i + |a| + |b| <= |s| {
      var n := |a|;
      var u := s[i..i + n + |b|];
      assert u[..n] == s[i..i + n] && u[n..] == s[i + n..i + n + |b|];
      assert (a + b)[..n] == a && (a + b)[n..] == b;
      assert u == u[..n] + u[n..];
    }
  }

  lemma CharAt(s: string, i: nat, c: char)
    ensures TextAt(s, i, [c]) <==> i < |s| && s[i] == c
  {
    if i < |s| { assert s[i..i + 1] == [s[i]]; }
  }

  lemma TwoAt(s: string, i: nat, c: char, d: char)
    ensures TextAt(s, i, [c, d]) <==> i + 2 <= |s| && s[i] == c && s[i + 1] == d
  {
    if i + 2 <= |s| { assert s[i..i + 2] == [s[i], s[i + 1]]; }
  }

  lemma EscapeText(s: string, i: nat)
    ensures TextAt(s, i, "$${") <==> EscapeAt(s, i)
  {
    if i + 3 <= |s| { assert s[i..i + 3] == [s[i], s[i + 1], s[i + 2]]; }
  }

  lemma SecretText(s: string, a: nat)
    ensures TextAt(s, a, SECRET) <==> SecretAt(s, a)
  {
    if a + 7 <= |s| {
      assert s[a..a + 7] == [s[a], s[a + 1], s[a + 2], s[a + 3], s[a + 4], s[a + 5], s[a + 6]];
    }
  }

  lemma RefTextIs(s: string, i: nat, kind: Kind, name: string)
    ensures TextAt(s, i, RefText(kind, name)) <==>
            && OpensAt(s, i) && BodyAt(s, i + 2, kind, name)
            && i + SourceLen(Reference(kind, name)) <= |s| && s[i + SourceLen(Reference(kind, name)) - 1] == '}'
  {
    var body := Body(kind, name);
    TextsAt(s, i, "${" + body, "}");
    TextsAt(s, i, "${", body);
    TwoAt(s, i, '$', '{');
    CharAt(s, i + 2 + |body|, '}');
    if kind == Secret {
      TextsAt(s, i + 2, SECRET, name);
      SecretText(s, i + 2);
    }
  }

  lemma SourceLength(p: Piece)
    ensures |Source(p)| == SourceLen(p)
  {
  }

  ghost predicate WrittenAt(s: string, i: nat, p: Piece)
  {
    TextAt(s, i, Source(p)) && i + SourceLen(p) <= |s| && Stands(p, s[i + SourceLen(p)..])
  }

  lemma ByteStandsAt(s: string, i: nat, c: char)
    requires i < |s|
    ensures PieceAt(s, i, Byte(c)) <==> WrittenAt(s, i, Byte(c))
  {
    CharAt(s, i, c);
    if s[i] == c { ByteStands(s, i, c); }
  }

  lemma RefStandsAt(s: string, i: nat, kind: Kind, name: string)
    requires i < |s|
    ensures PieceAt(s, i, Reference(kind, name)) <==> WrittenAt(s, i, Reference(kind, name))
  {
    RefTextIs(s, i, kind, name);
  }

  /** Standing at a position is being written there before what follows. */
  lemma StandsAt(s: string, i: nat, p: Piece)
    requires i < |s|
    ensures PieceAt(s, i, p) <==> WrittenAt(s, i, p)
  {
    match p
    case Byte(c) => ByteStandsAt(s, i, c);
    case Esc => EscapeText(s, i);
    case Reference(kind, name) => RefStandsAt(s, i, kind, name);
  }

  lemma ByteStands(s: string, i: nat, c: char)
    requires i < |s| && s[i] == c
    ensures Stands(Byte(c), s[i + 1..]) <==> !EscapeAt(s, i) && !OpensAt(s, i)
  {
    var rest := s[i + 1..];
    assert |rest| > 0 ==> rest[0] == s[i + 1];
    assert |rest| > 1 ==> rest[1] == s[i + 2];
  }

  /** What is left of `s` from `i` on, cut in two and put together. */
  lemma CutAt(s: string, i: nat, a: string, rest: string)
    requires i <= |s|
    ensures s[i..] == a + rest <==> TextAt(s, i, a) && s[i + |a|..] == rest
  {
    var t, n := s[i..], |a|;
    if i + n <= |s| {
      assert t[..n] == s[i..i + n] && t[n..] == s[i + n..];
      assert t == t[..n] + t[n..];
      assert (a + rest)[..n] == a && (a + rest)[n..] == rest;
    } else {
      assert |t| < |a + rest|;
    }
  }

  lemma PieceSpells(s: string, i: nat, p: Piece, rest: string)
    requires PieceAt(s, i, p) && s[i + SourceLen(p)..] == rest
    ensures s[i..] == Source(p) + rest && Stands(p, rest)
  {
    SourceLength(p);
    StandsAt(s, i, p);
    CutAt(s, i, Source(p), rest);
  }

  lemma SpelledIsAt(s: string, i: nat, p: Piece, rest: string)
    requires i <= |s| && s[i..] == Source(p) + rest && Stands(p, rest)
    ensures PieceAt(s, i, p) && s[i + SourceLen(p)..] == rest
  {
    SourceLength(p);
    CutAt(s, i, Source(p), rest);
    StandsAt(s, i, p);
  }

  /** Pieces that are read at `i` spell what is left, and are good. */
  lemma {:induction false} PiecesSpell(s: string, i: nat, ps: Pieces)
    requires i <= |s| && PiecesAt(s, i, ps)
    ensures s[i..] == Sources(ps) && Good(ps)
    decreases ps
  {
    if ps.Cons? {
      PiecesSpell(s, i + SourceLen(ps.head), ps.tail);
      PieceSpells(s, i, ps.head, Sources(ps.tail));
    }
  }

  /** The text from `i` on is that of good pieces. */
  ghost predicate SpelledAt(s: string, i: nat, ps: Pieces) { i <= |s| && s[i..] == Sources(ps) && Good(ps) }

  lemma SpelledHead(s: string, i: nat, ps: Pieces)
    requires SpelledAt(s, i, ps) && ps.Cons?
    ensures PieceAt(s, i, ps.head) && SpelledAt(s, i + SourceLen(ps.head), ps.tail)
  {
    SpelledIsAt(s, i, ps.head, Sources(ps.tail));
  }

  lemma SpelledEnd(s: string, i: nat)
    requires SpelledAt(s, i, End)
    ensures i == |s|
  {
    assert |s[i..]| == |s| - i;
  }

  lemma PiecesAtCons(s: string, i: nat, ps: Pieces, next: nat)
    requires ps.Cons? && PieceAt(s, i, ps.head) && next == i + SourceLen(ps.head) && PiecesAt(s, next, ps.tail)
    ensures PiecesAt(s, i, ps)
  {
  }

  lemma {:induction false} SpelledAreAt(s: string, i: nat, ps: Pieces)
    requires SpelledAt(s, i, ps)
    ensures PiecesAt(s, i, ps)
    decreases ps
  {
    if ps.End? {
      SpelledEnd(s, i);
      return;
    }
    var next := i + SourceLen(ps.head);
    SpelledHead(s, i, ps);
    SpelledAreAt(s, next, ps.tail);
    PiecesAtCons(s, i, ps, next);
  }

  /** Good pieces are read back from their own text: the reading is unambiguous. */
  lemma ReadSources(ps: Pieces)
    requires Good(ps)
    ensures Read(Sources(ps)) == Parsed(ps)
  {
    var s := Sources(ps);
    assert s[0..] == s;
    SpelledAreAt(s, 0, ps);
    PiecesAreRead(s, 0, ps);
  }

  /** A reading loses nothing. */
  lemma ReadIsGood(s: string)
    requires Read(s).Parsed?
    ensures Sources(Read(s).pieces) == s && Good(Read(s).pieces)
  {
    var ps := ReadStands(s, 0);
    PiecesSpell(s, 0, ps);
    assert s[0..] == s;
  }

  function FoundAt(h: Head, i: nat): seq<Ref> { if h.Whole? then [Ref(h.kind, h.name, i, i + h.len)] else [] }

  function RefAt(p: Piece, at: nat): seq<Ref>
  {
    if p.Reference? then [Ref(p.kind, p.name, at, at + SourceLen(p))] else []
  }

  // ----- References with their offsets

  function RefsOf(ps: Pieces, at: nat): seq<Ref>
  {
    if ps.End? then []
    else
      var end := at + SourceLen(ps.head);
      if ps.head.Reference? then RefAt(ps.head, at) + RefsOf(ps.tail, end) else RefsOf(ps.tail, end)
  }

  datatype Scan = BadRef(at: nat) | Found(refs: seq<Ref>)

  function ScanOf(before: seq<Ref>, p: Parse, at: nat): Scan
  {
    if p.Problem? then BadRef(p.at) else Found(before + RefsOf(p.pieces, at))
  }

  function References(text: string): Scan { ScanOf([], Read(text), 0) }

  lemma ScanOfThen(before: seq<Ref>, p: Piece, rest: Parse, at: nat)
    ensures ScanOf(before, Then(p, rest), at) == ScanOf(before + RefAt(p, at), rest, at + SourceLen(p))
  {
    if rest.Parsed? {
      var more := RefsOf(rest.pieces, at + SourceLen(p));
      Regroup(before, RefAt(p, at), more);
      assert RefsOf(Cons(p, rest.pieces), at) == if p.Reference? then RefAt(p, at) + more else more;
    }
  }

  /** Midway to the scan `goal`: `out` is found, the text from `i` on is still to be read. */
  ghost predicate Scanning(goal: Scan, text: string, i: nat, out: seq<Ref>)
  {
    i <= |text| && goal == ScanOf(out, ReadFrom(text, i), i)
  }

  /** One round of the scan: past one piece, with its reference if it is one. */
  lemma ScanningStep(goal: Scan, text: string, i: nat, out: seq<Ref>, h: Head)
    requires Scanning(goal, text, i, out) && i < |text| && h == HeadAt(text, i) && !h.Malformed?
    ensures Scanning(goal, text, i + Advance(h), out + FoundAt(h, i))
  {
    var p := PieceOf(h, text[i]);
    PieceAtIff(text, i, p);
    ScanOfThen(out, p, ReadFrom(text, i + Advance(h)), i);
  }

  lemma ScanningEnd(goal: Scan, text: string, out: seq<Ref>)
    requires Scanning(goal, text, |text|, out)
    ensures goal == Found(out)
  {
    NothingAfter(out);
  }

  method ScanRefs(text: string) returns (r: Scan)
    ensures r == References(text)
  {
    var out, i: nat := [], 0;
    ghost var goal := References(text);
    while i < |text|
      invariant Scanning(goal, text, i, out)
      decreases |text| - i
    {
      var h := HeadAt(text, i);
      if h.Malformed? { return BadRef(i); }
      ScanningStep(goal, text, i, out, h);
      out, i := out + FoundAt(h, i), i + Advance(h);
    }
    ScanningEnd(goal, text, out);
    return Found(out);
  }

  // ----- Resolving

  /** `strings.ReplaceAll(s, "$${", "${")`. */
  function Unescape(s: string): string
  {
    if s == [] then []
    else if EscapeAt(s, 0) then "${" + Unescape(s[3..])
    else [s[0]] + Unescape(s[1..])
  }

  type Values = map<string, string>

  function Prepend(a: string, r: Option<string>): Option<string> { if r.None? then None else Some(a + r.value) }

  function ValueOf(p: Piece, vars: Values, secrets: Values): Option<string>
  {
    match p
    case Byte(c) => Some([c])
    case Esc => Some("${")
    case Reference(kind, name) =>
      var from := if kind == Env then vars else secrets;
      if name in from then Some(from[name]) else None
  }

  /** What pieces stand for; None when a value is missing. */
  function MeaningOf(ps: Pieces, vars: Values, secrets: Values): Option<string>
  {
    if ps.End? then Some("")
    else
      var v := ValueOf(ps.head, vars, secrets);
      if v.None? then None else Prepend(v.value, MeaningOf(ps.tail, vars, secrets))
  }

  /** What a text stands for; None also when it is malformed. */
  function Meaning(s: string, vars: Values, secrets: Values): Option<string>
  {
    var r := Read(s);
    if r.Problem? then None else MeaningOf(r.pieces, vars, secrets)
  }

  lemma PrependTwice(a: string, b: string, r: Option<string>)
    ensures Prepend(a, Prepend(b, r)) == Prepend(a + b, r)
    ensures Prepend("", r) == r
  {
    if r.Some? { assert a + (b + r.value) == (a + b) + r.value; assert "" + r.value == r.value; }
  }

  /** The text before the first reference, and the pieces from it on. */
  function Gap(ps: Pieces): string
  {
    if ps.End? || ps.head.Reference? then "" else Source(ps.head) + Gap(ps.tail)
  }

  function FromRef(ps: Pieces): Pieces
  {
    if ps.End? || ps.head.Reference? then ps else FromRef(ps.tail)
  }

  function GapLen(ps: Pieces): nat
  {
    if ps.End? || ps.head.Reference? then 0 else SourceLen(ps.head) + GapLen(ps.tail)
  }

  lemma {:induction false} GapSpells(ps: Pieces)
    ensures Sources(ps) == Gap(ps) + Sources(FromRef(ps)) && |Gap(ps)| == GapLen(ps)
    decreases ps
  {
    if ps.End? || ps.head.Reference? {
      NothingAfter(Sources(ps));
    } else {
      GapSpells(ps.tail);
      SourceLength(ps.head);
      Regroup(Source(ps.head), Gap(ps.tail), Sources(FromRef(ps.tail)));
    }
  }

  lemma {:induction false} GapSplits(ps: Pieces, at: nat)
    ensures RefsOf(ps, at) == RefsOf(FromRef(ps), at + GapLen(ps))
    ensures Good(ps) ==> Good(FromRef(ps))
    ensures FromRef(ps).Cons? ==> FromRef(ps).head.Reference?
    decreases ps
  {
    if ps.Cons? && !ps.head.Reference? { GapSplits(ps.tail, at + SourceLen(ps.head)); }
  }

  lemma UnescapeHead(p: Piece, gap: string, rest: string)
    requires !p.Reference? && Stands(p, gap + rest)
    ensures Unescape(Source(p) + gap) == (if p.Esc? then "${" else [p.c]) + Unescape(gap)
  {
    var s := Source(p) + gap;
    if p.Esc? {
      assert s[3..] == gap;
    } else {
      var c := p.c;
      assert s[1..] == gap;
      assert |gap| > 0 ==> (gap + rest)[0] == gap[0] == s[1];
      assert |gap| > 1 ==> (gap + rest)[1] == gap[1] == s[2];
    }
  }

  /**
   Unescaping a gap on its own agrees with the scanner's reading of it: a gap never ends inside an
   escape, since no reference directly follows a `$`.
   */
  lemma {:induction false} GapMeaning(ps: Pieces, vars: Values, secrets: Values)
    requires Good(ps)
    ensures MeaningOf(ps, vars, secrets) == Prepend(Unescape(Gap(ps)), MeaningOf(FromRef(ps), vars, secrets))
    decreases ps
  {
    if ps.End? || ps.head.Reference? {
      PrependTwice("", "", MeaningOf(ps, vars, secrets));
    } else {
      GapMeaning(ps.tail, vars, secrets);
      GapSpells(ps.tail);
      UnescapeHead(ps.head, Gap(ps.tail), Sources(FromRef(ps.tail)));
      PrependTwice(if ps.head.Esc? then "${" else [ps.head.c], Unescape(Gap(ps.tail)),
                   MeaningOf(FromRef(ps.tail), vars, secrets));
    }
  }

  /** The secrets a resolved text used, in order. */
  function SecretsUsed(refs: seq<Ref>): seq<string>
  {
    if refs == [] then []
    else SecretsUsed(refs[..|refs| - 1]) + if refs[|refs| - 1].kind == Secret then [refs[|refs| - 1].name] else []
  }

  datatype Resolved = Failed | Text(text: string, used: seq<string>)

  /** What is left to resolve from offset `last` on: pieces, and the references among them. */
  ghost predicate Remaining(text: string, last: nat, ps: Pieces, refs: seq<Ref>)
  {
    last <= |text| && Good(ps) && text[last..] == Sources(ps) && RefsOf(ps, last) == refs
  }

  /** The next reference, and what surrounds it. */
  lemma NextRef(ps: Pieces, at: nat, refs: seq<Ref>)
    requires Good(ps) && RefsOf(ps, at) == refs && refs != []
    ensures var rest := FromRef(ps);
            && rest.Cons? && rest.head == Reference(refs[0].kind, refs[0].name) && Good(rest.tail)
            && Sources(ps) == Gap(ps) + (Source(rest.head) + Sources(rest.tail))
            && refs[0].start == at + |Gap(ps)| && refs[0].end == refs[0].start + |Source(rest.head)|
            && refs[1..] == RefsOf(rest.tail, refs[0].end)
  {
    GapSplits(ps, at);
    GapSpells(ps);
    var rest, start := FromRef(ps), at + GapLen(ps);
    SourceLength(rest.head);
    AfterFirst(RefAt(rest.head, start), RefsOf(rest.tail, start + SourceLen(rest.head)), refs);
  }

  /** The offsets of the next reference cut the text where the pieces are. */
  lemma CutAtRef(text: string, last: nat, ps: Pieces, refs: seq<Ref>)
    requires Remaining(text, last, ps, refs) && refs != []
    ensures FromRef(ps).Cons? && FromRef(ps).head == Reference(refs[0].kind, refs[0].name)
    ensures last <= refs[0].start <= refs[0].end <= |text|
    ensures text[last..refs[0].start] == Gap(ps)
    ensures text[refs[0].start..refs[0].end] == RefText(refs[0].kind, refs[0].name)
    ensures Remaining(text, refs[0].end, FromRef(ps).tail, refs[1..])
  {
    NextRef(ps, last, refs);
    var rest := FromRef(ps);
    CutTwice(text, last, Gap(ps), Source(rest.head), Sources(rest.tail));
  }

  lemma CutTwice(s: string, i: nat, a: string, b: string, c: string)
    requires i <= |s| && s[i..] == a + (b + c)
    ensures TextAt(s, i, a) && TextAt(s, i + |a|, b) && s[i + |a| + |b|..] == c
  {
    CutAt(s, i, a, b + c);
    CutAt(s, i + |a|, b, c);
  }

  lemma AfterFirst(one: seq<Ref>, more: seq<Ref>, all: seq<Ref>)
    requires |one| == 1 && all == one + more
    ensures all[0] == one[0] && all[1..] == more
  {
  }

  lemma NoRefLeft(text: string, last: nat, ps: Pieces)
    requires Remaining(text, last, ps, [])
    ensures FromRef(ps).End? && text[last..] == Gap(ps)
  {
    GapSplits(ps, last);
    GapSpells(ps);
    NothingAfter(Gap(ps));
  }

  method Lookup(ref: Ref, vars: Values, secrets: Values) returns (v: Option<string>)
    ensures v == ValueOf(Reference(ref.kind, ref.name), vars, secrets)
  {
    match ref.kind
    case Env => v := if ref.name in vars then Some(vars[ref.name]) else None;
    case Secret => v := if ref.name in secrets then Some(secrets[ref.name]) else None;
  }

  /** Past the gap and the next reference, its value stands between them. */
  lemma ResolveStep(text: string, last: nat, ps: Pieces, refs: seq<Ref>, b: string, vars: Values, secrets: Values)
    requires Remaining(text, last, ps, refs) && refs != []
    ensures FromRef(ps).Cons? && last <= refs[0].start <= refs[0].end <= |text|
    ensures Remaining(text, refs[0].end, FromRef(ps).tail, refs[1..])
    ensures var v := ValueOf(Reference(refs[0].kind, refs[0].name), vars, secrets);
            Prepend(b, MeaningOf(ps, vars, secrets)) ==
            if v.None? then None
            else Prepend(b + Unescape(text[last..refs[0].start]) + v.value, MeaningOf(FromRef(ps).tail, vars, secrets))
  {
    CutAtRef(text, last, ps, refs);
    GapMeaning(ps, vars, secrets);
    var gap := Unescape(text[last..refs[0].start]);
    PrependTwice(b, gap, MeaningOf(FromRef(ps), vars, secrets));
    var v := ValueOf(Reference(refs[0].kind, refs[0].name), vars, secrets);
    if v.Some? { PrependTwice(b + gap, v.value, MeaningOf(FromRef(ps).tail, vars, secrets)); }
  }

  lemma ResolveEnd(text: string, last: nat, ps: Pieces, b: string, vars: Values, secrets: Values)
    requires Remaining(text, last, ps, [])
    ensures Prepend(b, MeaningOf(ps, vars, secrets)) == Some(b + Unescape(text[last..]))
  {
    NoRefLeft(text, last, ps);
    GapMeaning(ps, vars, secrets);
    PrependTwice(b, Unescape(text[last..]), Some(""));
    assert (b + Unescape(text[last..])) + "" == b + Unescape(text[last..]);
  }

  /** Midway: `b` is written, the pieces `ps` from `last` on are not. */
  ghost predicate Resolving(text: string, vars: Values, secrets: Values, b: string, last: nat, ps: Pieces,
                            refs: seq<Ref>)
  {
    Remaining(text, last, ps, refs) && Meaning(text, vars, secrets) == Prepend(b, MeaningOf(ps, vars, secrets))
  }

  lemma RestOf(refs: seq<Ref>, i: nat)
    requires i < |refs|
    ensures refs[i..] != [] && refs[i..][0] == refs[i] && refs[i..][1..] == refs[i + 1..]
  {
  }

  lemma ResolvingStep(text: string, vars: Values, secrets: Values, b: string, last: nat, ps: Pieces, refs: seq<Ref>,
                      i: nat)
    requires i < |refs| && Resolving(text, vars, secrets, b, last, ps, refs[i..])
    ensures last <= refs[i].start <= refs[i].end <= |text| && FromRef(ps).Cons?
    ensures var v := ValueOf(Reference(refs[i].kind, refs[i].name), vars, secrets);
            if v.None? then Meaning(text, vars, secrets) == None
            else Resolving(text, vars, secrets, b + Unescape(text[last..refs[i].start]) + v.value, refs[i].end,
                           FromRef(ps).tail, refs[i + 1..])
  {
    RestOf(refs, i);
    ResolveStep(text, last, ps, refs[i..], b, vars, secrets);
  }

  lemma UsedMore(refs: seq<Ref>, i: nat)
    requires i < |refs|
    ensures SecretsUsed(refs[..i + 1]) ==
            if refs[i].kind == Secret then SecretsUsed(refs[..i]) + [refs[i].name] else SecretsUsed(refs[..i])
  {
    assert refs[..i + 1][..i] == refs[..i];
    NothingAfter(SecretsUsed(refs[..i]));
  }

  lemma ResolvingEnd(text: string, vars: Values, secrets: Values, b: string, last: nat, ps: Pieces)
    requires Resolving(text, vars, secrets, b, last, ps, [])
    ensures last <= |text| && Meaning(text, vars, secrets) == Some(b + Unescape(text[last..]))
  {
    ResolveEnd(text, last, ps, b, vars, secrets);
  }

  /** One pass over the references gives exactly the text's meaning and names the secrets it read. */
  method Resolve(text: string, vars: Values, secrets: Values) returns (r: Resolved)
    ensures r.Failed? <==> Meaning(text, vars, secrets).None?
    ensures r.Text? ==> Meaning(text, vars, secrets) == Some(r.text)
    ensures r.Text? ==> References(text).Found? && r.used == SecretsUsed(References(text).refs)
  {
    var scan := ScanRefs(text);
    if scan.BadRef? { return Failed; }
    var refs := scan.refs;
    ghost var ps := StartReading(text);
    var b, used, last: nat := "", [], 0;
    PrependTwice("", "", Meaning(text, vars, secrets));
    assert refs[0..] == refs;
    for i := 0 to |refs|
      invariant Resolving(text, vars, secrets, b, last, ps, refs[i..])
      invariant used == SecretsUsed(refs[..i])
    {
      var ref := refs[i];
      ResolvingStep(text, vars, secrets, b, last, ps, refs, i);
      UsedMore(refs, i);
      var v := Lookup(ref, vars, secrets);
      if v.None? { return Failed; }
      b := b + Unescape(text[last..ref.start]) + v.value;
      last := ref.end;
      ps := FromRef(ps).tail;
      if ref.kind == Secret { used := used + [ref.name]; }
    }
    assert refs[|refs|..] == [] && refs[..|refs|] == refs;
    ResolvingEnd(text, vars, secrets, b, last, ps);
    return Text(b + Unescape(text[last..]), used);
  }

  lemma StartReading(text: string) returns (ps: Pieces)
    requires References(text).Found?
    ensures Read(text) == Parsed(ps) && Remaining(text, 0, ps, References(text).refs)
  {
    ReadIsGood(text);
    ps := Read(text).pieces;
    assert text[0..] == text;
    NothingAfter(RefsOf(ps, 0));
  }
}
