/** The patcher object: its maps filled from the document, and its methods step by step. */
module Patcher {
  import opened Prelude
  import opened JsonDoc
  import opened JsonPatch

  /** `x` with the leading keys `p` taken off. */
  function Under(p: Path, x: Path): Option<Path>
  {
    if p.Top? then Some(x)
    else if x.Top? || p.key != x.key then None
    else Under(p.rest, x.rest)
  }

  function Snoc(p: Path, k: string): Path { Cat(p, At(k, Top)) }

  lemma {:induction false} UnderSnoc(p: Path, k: string, x: Path)
    ensures Under(Snoc(p, k), x).Some? <==> Under(p, x).Some? && Under(p, x).value.At? && Under(p, x).value.key == k
    ensures Under(Snoc(p, k), x).Some? ==> Under(Snoc(p, k), x).value == Under(p, x).value.rest
  {
    if p.At? && x.At? && p.key == x.key { UnderSnoc(p.rest, k, x.rest); }
  }

  lemma {:induction false} UnderSelf(p: Path, x: Path)
    ensures Under(p, x) == Some(Top) <==> x == p
  {
    if p.At? && x.At? { UnderSelf(p.rest, x.rest); }
  }

  /** Inside `v`, which stands at `p`, the path `x` names a value at most `d` keys deep, by one of `keys`. */
  ghost predicate Within(v: Json, d: nat, p: Path, keys: set<string>, x: Path)
  {
    && Under(p, x).Some?
    && var u := Under(p, x).value;
       u.Top? || (u.key in keys && Len(u) <= d && Get(v, u).Some?)
  }

  ghost function KeysOf(v: Json): set<string> { if v.Obj? then v.fields.Keys else {} }

  ghost predicate Marked(v: Json, d: nat, p: Path, keys: set<string>,
                         have0: set<string>, ex0: map<string, Json>, have: set<string>, ex: map<string, Json>)
  {
    && (forall x {:trigger Within(v, d, p, keys, x)} :: Ptr(x) in have <==> Ptr(x) in have0 || Within(v, d, p, keys, x))
    && (forall x {:trigger Within(v, d, p, keys, x)} ::
      Lookup(ex, Ptr(x)) == if Within(v, d, p, keys, x) then Get(v, Under(p, x).value) else Lookup(ex0, Ptr(x)))
  }

  lemma MarkedHere(v: Json, d: nat, p: Path, have0: set<string>, ex0: map<string, Json>)
    ensures Marked(v, d, p, {}, have0, ex0, have0 + {Ptr(p)}, ex0[Ptr(p) := v])
  {
    forall x ensures Ptr(x) in have0 + {Ptr(p)} <==> Ptr(x) in have0 || Within(v, d, p, {}, x) {
      PtrInjective(x, p);
      UnderSelf(p, x);
    }
    forall x ensures Lookup(ex0[Ptr(p) := v], Ptr(x)) ==
      if Within(v, d, p, {}, x) then Get(v, Under(p, x).value) else Lookup(ex0, Ptr(x)) {
      PtrInjective(x, p);
      UnderSelf(p, x);
    }
  }

  /** A value without fields to go into is recorded alone. */
  lemma MarkedAll(v: Json, d: nat, p: Path,
                  have0: set<string>, ex0: map<string, Json>, have: set<string>, ex: map<string, Json>)
    requires (d == 0 || !v.Obj?) && Marked(v, d, p, {}, have0, ex0, have, ex)
    ensures Marked(v, d, p, KeysOf(v), have0, ex0, have, ex)
  {
    forall x ensures Within(v, d, p, KeysOf(v), x) == Within(v, d, p, {}, x) {
      if Under(p, x).Some? && d == 0 { assert Len(Under(p, x).value) == 0 <==> Under(p, x).value.Top?; }
    }
  }

  lemma WithinMore(v: Json, d: nat, p: Path, keys: set<string>, k: string, x: Path)
    requires d > 0 && v.Obj? && k in v.fields && k !in keys
    ensures var inner := Within(v.fields[k], d - 1, Snoc(p, k), KeysOf(v.fields[k]), x);
            && (Within(v, d, p, keys + {k}, x) <==> Within(v, d, p, keys, x) || inner)
            && (inner ==> !Within(v, d, p, keys, x))
            && (inner ==> Get(v, Under(p, x).value) == Get(v.fields[k], Under(Snoc(p, k), x).value))
  {
    UnderSnoc(p, k, x);
    if Under(p, x).Some? && Under(p, x).value.At? && Under(p, x).value.key == k {
      var rest := Under(p, x).value.rest;
      assert Get(v, At(k, rest)) == Get(v.fields[k], rest);
      assert Len(At(k, rest)) == 1 + Len(rest);
    }
  }

  lemma MarkedNext(v: Json, d: nat, p: Path, todo: set<string>, k: string,
                   have0: set<string>, ex0: map<string, Json>, have1: set<string>, ex1: map<string, Json>,
                   have2: set<string>, ex2: map<string, Json>)
    requires d > 0 && v.Obj? && todo <= v.fields.Keys && k in todo
    requires Marked(v, d, p, v.fields.Keys - todo, have0, ex0, have1, ex1)
    requires Marked(v.fields[k], d - 1, Snoc(p, k), KeysOf(v.fields[k]), have1, ex1, have2, ex2)
    ensures Marked(v, d, p, v.fields.Keys - (todo - {k}), have0, ex0, have2, ex2)
  {
    MarkedMore(v, d, p, v.fields.Keys - todo, k, have0, ex0, have1, ex1, have2, ex2);
    assert v.fields.Keys - (todo - {k}) == v.fields.Keys - todo + {k};
  }

  lemma MarkedMore(v: Json, d: nat, p: Path, keys: set<string>, k: string,
                   have0: set<string>, ex0: map<string, Json>, have1: set<string>, ex1: map<string, Json>,
                   have2: set<string>, ex2: map<string, Json>)
    requires d > 0 && v.Obj? && k in v.fields && k !in keys
    requires Marked(v, d, p, keys, have0, ex0, have1, ex1)
    requires Marked(v.fields[k], d - 1, Snoc(p, k), KeysOf(v.fields[k]), have1, ex1, have2, ex2)
    ensures Marked(v, d, p, keys + {k}, have0, ex0, have2, ex2)
  {
    forall x ensures Ptr(x) in have2 <==> Ptr(x) in have0 || Within(v, d, p, keys + {k}, x) {
      WithinMore(v, d, p, keys, k, x);
    }
    forall x ensures Lookup(ex2, Ptr(x)) ==
      if Within(v, d, p, keys + {k}, x) then Get(v, Under(p, x).value) else Lookup(ex0, Ptr(x)) {
      WithinMore(v, d, p, keys, k, x);
    }
  }

  class Patcher {
    var ops: seq<Op>
    var have: set<string>
    var existing: map<string, Json>

    ghost function State(): Builder
      reads this
    {
      Builder(ops, have, existing)
    }

    /** Records `v`, which stands at `p`, and its fields down to the third level. */
    method Mark(p: Path, v: Json, depth: nat)
      requires depth <= 3
      modifies this`have, this`existing
      ensures Marked(v, 3 - depth, p, KeysOf(v), old(have), old(existing), have, existing)
      decreases 3 - depth
    {
      have, existing := have + {Ptr(p)}, existing[Ptr(p) := v];
      MarkedHere(v, 3 - depth, p, old(have), old(existing));
      if v.Obj? && depth < 3 {
        var todo := v.fields.Keys;
        assert v.fields.Keys - todo == {};
        while todo != {}
          invariant todo <= v.fields.Keys
          invariant Marked(v, 3 - depth, p, v.fields.Keys - todo, old(have), old(existing), have, existing)
          decreases todo
        {
          var k :| k in todo;
          ghost var have1, ex1 := have, existing;
          Mark(Snoc(p, k), v.fields[k], depth + 1);
          MarkedNext(v, 3 - depth, p, todo, k, old(have), old(existing), have1, ex1, have, existing);
          todo := todo - {k};
        }
        assert v.fields.Keys - {} == v.fields.Keys;
      } else {
        MarkedAll(v, 3 - depth, p, old(have), old(existing), have, existing);
      }
    }

    /** Knows the document's other top-level keys, and the managed subtrees with their values. */
    constructor (found: map<string, Json>, others: seq<string>)
      ensures ops == [] && Loaded(found, found.Keys, others, have, existing)
    {
      ops, have, existing := [], {}, map[];
      new;
      for i := 0 to |others|
        invariant ops == [] && Loaded(found, {}, others[..i], have, existing)
      {
        LoadedOther(found, others[..i], others[i], have, existing);
        have := have + {Ptr(At(others[i], Top))};
        assert others[..i + 1] == others[..i] + [others[i]];
      }
      assert others[..|others|] == others;
      var todo := found.Keys;
      assert found.Keys - todo == {};
      while todo != {}
        invariant todo <= found.Keys && ops == []
        invariant Loaded(found, found.Keys - todo, others, have, existing)
        decreases todo
      {
        var k :| k in todo;
        ghost var have1, ex1 := have, existing;
        Mark(At(k, Top), found[k], 0);
        LoadedFound(found, found.Keys - todo, k, others, have1, ex1, have, existing);
        assert found.Keys - (todo - {k}) == found.Keys - todo + {k};
        todo := todo - {k};
      }
      assert found.Keys - {} == found.Keys;
    }

    method Ensure(path: Path)
      modifies this`ops, this`have
      ensures State() == Ensured(old(State()), path)
    {
      var i := 1;
      while i < Len(path)
        invariant 1 <= i && (i > 1 ==> i <= Len(path))
        invariant State() == EnsuredTo(old(State()), path, i - 1)
      {
        var at := Ptr(Take(path, i));
        if at !in have {
          ops := ops + [Op(true, at, EMPTY)];
          have := have + {at};
        }
        i := i + 1;
      }
    }

    method Set(path: Path, v: Json)
      modifies this`ops, this`have
      ensures State() == SetStep(old(State()), path, v)
    {
      var at := Ptr(path);
      if at in existing && existing[at] == v { return; }
      var add := at !in have;
      if add { Ensure(path); }
      ops := ops + [Op(add, at, v)];
      have := have + {at};
    }

    method AppendTo(path: Path, v: Json)
      modifies this
      ensures State() == AppendStep(old(State()), path, v)
    {
      var at := Ptr(path);
      if at in existing && existing[at].List? {
        if v in existing[at].items { return; }
        existing := existing[at := List(existing[at].items + [v])];
      }
      if at !in have {
        Ensure(path);
        ops := ops + [Op(true, at, List([]))];
        have := have + {at};
        existing := existing[at := List([v])];
      }
      ops := ops + [Op(true, at + "/-", v)];
    }

    method FindHook(path: Path, matcher: string, command: string) returns (found: bool)
      ensures found <==> HasHook(KnownItems(State(), path), matcher, command)
    {
      var at := Ptr(path);
      var list := if at in existing && existing[at].List? then existing[at].items else [];
      for i := 0 to |list|
        invariant !HasHook(list[..i], matcher, command)
      {
        assert list[..i + 1] == list[..i] + [list[i]];
        if (if Field(list[i], "matcher").Str? then Field(list[i], "matcher").s else "") != matcher { continue; }
        var hooks := ItemsOf(Field(list[i], "hooks"));
        for j := 0 to |hooks|
          invariant forall k :: 0 <= k < j ==> Field(hooks[k], "command") != Str(command)
        {
          if hooks[j].Obj? && Field(hooks[j], "command") == Str(command) {
            assert Matches(list[i], matcher, command);
            return true;
          }
        }
      }
      assert list[..|list|] == list;
      return false;
    }
  }

  /** The maps after loading the subtrees `keys` of `found` beside the names `others`. */
  ghost predicate Loaded(found: map<string, Json>, keys: set<string>, others: seq<string>, have: set<string>,
                         existing: map<string, Json>)
  {
    && keys <= found.Keys
    && (forall x: Path {:trigger InLoaded(found, keys, x)} :: x.At? ==>
          (Ptr(x) in have <==> (x.rest.Top? && x.key in others) || InLoaded(found, keys, x).Some?))
    && (forall x: Path {:trigger InLoaded(found, keys, x)} :: x.At? ==>
          Lookup(existing, Ptr(x)) == InLoaded(found, keys, x))
  }

  ghost function InLoaded(found: map<string, Json>, keys: set<string>, x: Path): Option<Json>
    requires x.At? && keys <= found.Keys
  {
    if x.key in keys && Len(x.rest) <= 3 then Get(found[x.key], x.rest) else None
  }

  lemma LoadedOther(found: map<string, Json>, others: seq<string>, k: string,
                    have: set<string>, existing: map<string, Json>)
    requires Loaded(found, {}, others, have, existing)
    ensures Loaded(found, {}, others + [k], have + {Ptr(At(k, Top))}, existing)
  {
    forall x: Path | x.At? ensures Ptr(x) == Ptr(At(k, Top)) <==> x == At(k, Top) { PtrInjective(x, At(k, Top)); }
  }

  lemma LoadedFound(found: map<string, Json>, keys: set<string>, k: string, others: seq<string>,
                    have1: set<string>, ex1: map<string, Json>, have2: set<string>, ex2: map<string, Json>)
    requires Loaded(found, keys, others, have1, ex1) && k in found && k !in keys
    requires Marked(found[k], 3, At(k, Top), KeysOf(found[k]), have1, ex1, have2, ex2)
    ensures Loaded(found, keys + {k}, others, have2, ex2)
  {
    forall x: Path | x.At?
      ensures Within(found[k], 3, At(k, Top), KeysOf(found[k]), x) <==>
              x.key == k && InLoaded(found, keys + {k}, x).Some?
      ensures x.key == k ==> Under(At(k, Top), x) == Some(x.rest)
      ensures InLoaded(found, keys, x) == if x.key == k then None else InLoaded(found, keys + {k}, x)
    {
      assert x.key == k ==> Under(At(k, Top), x) == Under(Top, x.rest);
    }
  }

  /** A freshly made patcher tracks the document it was made from. */
  lemma LoadedTracks(m: set<string>, fields: map<string, Json>, found: map<string, Json>, others: seq<string>,
                     b: Builder)
    requires Loaded(found, found.Keys, others, b.have, b.existing) && b.ops == []
    requires TopLevel(m, fields, found, others)
    ensures Tracks(Scope(m, Obj(fields)), b, Obj(fields), [])
  {
    var sc := Scope(m, Obj(fields));
    forall q | InSight(sc, q) ensures InLoaded(found, found.Keys, q) == Get(sc.doc, q) && q.key !in others {}
    forall q | UnderManaged(sc, q) && Len(q) > 4 ensures InLoaded(found, found.Keys, q) == None && q.key !in others {}
  }

  /** The document's keys, parted into the managed ones with their values and the names of the rest. */
  ghost predicate TopLevel(m: set<string>, fields: map<string, Json>, found: map<string, Json>, others: seq<string>)
  {
    && found == (map k | k in fields && k in m :: fields[k])
    && (forall k :: k in others <==> k in fields && k !in m)
  }
}
