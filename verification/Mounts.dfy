/**
 The mount rows of the container editor: what rows a host config shows, and the host config a
 recreate builds from the rows the user left.
 */
module Mounts {
  import opened Prelude
  import opened Text
  import opened Decimals

  /** A mount entry; `options` stands for everything the editor does not show. */
  datatype Mount = Mount(kind: string, source: string, target: string, readOnly: bool, options: string)

  datatype HostConfig = HostConfig(binds: seq<string>, mounts: seq<Mount>)

  /** What a row says, apart from its key. */
  datatype Content = Content(kind: string, source: string, target: string, readOnly: bool)

  datatype Row = Row(key: string, content: Content)

  function BindType(src: string): string
  {
    if '/' in src || '\\' in src || HasPrefix(src, ".") then "bind" else "volume"
  }

  /** A "src:dst[:opts]" bind string as a row; a string without a colon is a target alone. */
  function BindContent(b: string): Content
  {
    var parts := Split(b, ':');
    if |parts| < 2 then Content(BindType(""), "", b, false)
    else Content(BindType(parts[0]), parts[0], parts[1], |parts| > 2 && "ro" in Split(parts[2], ','))
  }

  /** A source that is a path and not the name of a volume. */
  ghost predicate IsPath(src: string)
  {
    (src != "" && src[0] == '.') || exists i :: 0 <= i < |src| && (src[i] == '/' || src[i] == '\\')
  }

  /** The row of a bind: where it comes from, where it goes, and whether it is read-only. */
  ghost predicate SaysBind(c: Content, src: string, dst: string, readOnly: bool)
  {
    && c.source == src && c.target == dst && (c.readOnly <==> readOnly)
    && (c.kind == "bind" <==> IsPath(src)) && (c.kind == "volume" <==> !IsPath(src))
  }

  lemma KindMeans(src: string)
    ensures BindType(src) == if IsPath(src) then "bind" else "volume"
  {
    if src != "" && src[0] == '.' { assert src[..1] == "."; }
    if HasPrefix(src, ".") { assert src[..1][0] == '.'; }
    if i :| 0 <= i < |src| && (src[i] == '/' || src[i] == '\\') { assert src[i] in src; }
  }

  /** A bind string read: a target alone, a source and a target, or these with options after them. */
  lemma BindMeans(src: string, dst: string, opts: string, more: string)
    requires ':' !in src && ':' !in dst && ':' !in opts && (more == "" || more[0] == ':')
    ensures SaysBind(BindContent(dst), "", dst, false)
    ensures SaysBind(BindContent(src + ":" + dst), src, dst, false)
    ensures SaysBind(BindContent(src + ":" + (dst + ":" + (opts + more))), src, dst, HasField(opts, ',', "ro"))
  {
    KindMeans("");
    KindMeans(src);
    SplitWhole(dst, ':');
    SplitSum(src, ':', dst);
    SplitSum(src, ':', dst + ":" + (opts + more));
    SplitSum(dst, ':', opts + more);
    OptionsFirst(opts, more);
    SplitHasFields(opts, ',', "ro");
  }

  lemma OptionsFirst(opts: string, more: string)
    requires ':' !in opts && (more == "" || more[0] == ':')
    ensures Split(opts + more, ':')[0] == opts
  {
    if more == "" {
      SplitWhole(opts, ':');
      NothingAfter(opts);
    } else {
      var rest := more[1..];
      SplitSum(opts, ':', rest);
      Regroup(opts, ":", rest);
      assert more == ":" + rest;
    }
  }

  /** Mounts the editor shows. */
  predicate Shown(m: Mount) { (m.kind == "bind" || m.kind == "volume") && m.source != "" }

  function MountContent(m: Mount): Content { Content(m.kind, m.source, m.target, m.readOnly) }

  function BindKey(i: nat): string { "bind:" + Decimal(i) }
  function MountKey(i: nat): string { "mount:" + Decimal(i) }

  function BindRow(binds: seq<string>, i: nat): Row requires i < |binds| { Row(BindKey(i), BindContent(binds[i])) }
  function MountRow(mounts: seq<Mount>, i: nat): Row requires i < |mounts| { Row(MountKey(i), MountContent(mounts[i])) }

  function BindRows(binds: seq<string>): seq<Row>
  {
    if binds == [] then []
    else var n := |binds| - 1; BindRows(binds[..n]) + [BindRow(binds, n)]
  }

  function MountRows(mounts: seq<Mount>): seq<Row>
  {
    if mounts == [] then []
    else
      var n := |mounts| - 1;
      MountRows(mounts[..n]) + if Shown(mounts[n]) then [MountRow(mounts, n)] else []
  }

  /** The editable rows of a host config. */
  function RowsOf(hc: HostConfig): seq<Row> { BindRows(hc.binds) + MountRows(hc.mounts) }

  lemma BindRowsStep(binds: seq<string>, i: nat)
    requires i < |binds|
    ensures BindRows(binds[..i + 1]) == BindRows(binds[..i]) + [BindRow(binds, i)]
  {
    assert binds[..i + 1][..i] == binds[..i];
  }

  lemma MountRowsStep(mounts: seq<Mount>, i: nat)
    requires i < |mounts|
    ensures MountRows(mounts[..i + 1]) ==
            MountRows(mounts[..i]) + if Shown(mounts[i]) then [MountRow(mounts, i)] else []
  {
    assert mounts[..i + 1][..i] == mounts[..i];
  }

  method EditRows(hc: HostConfig) returns (rows: seq<Row>)
    ensures rows == RowsOf(hc)
  {
    rows := [];
    for i := 0 to |hc.binds|
      invariant rows == BindRows(hc.binds[..i])
    {
      BindRowsStep(hc.binds, i);
      rows := rows + [BindRow(hc.binds, i)];
    }
    assert hc.binds[..|hc.binds|] == hc.binds;
    ghost var binds := rows;
    NothingAfter(binds);
    for i := 0 to |hc.mounts|
      invariant rows == binds + MountRows(hc.mounts[..i])
    {
      MountRowsStep(hc.mounts, i);
      ghost var more := if Shown(hc.mounts[i]) then [MountRow(hc.mounts, i)] else [];
      Regroup(binds, MountRows(hc.mounts[..i]), more);
      NothingAfter(rows);
      if Shown(hc.mounts[i]) { rows := rows + [MountRow(hc.mounts, i)]; }
    }
    assert hc.mounts[..|hc.mounts|] == hc.mounts;
  }

  /** A mount that the editor lists: a bind or a volume with a source. */
  predicate Listed(m: Mount) { (m.kind == "bind" || m.kind == "volume") && |m.source| > 0 }

  ghost predicate FromBind(hc: HostConfig, row: Row, i: nat)
  {
    i < |hc.binds| && row.key == "bind:" + Decimal(i) && row.content == BindContent(hc.binds[i])
  }

  ghost predicate FromMount(hc: HostConfig, row: Row, i: nat)
  {
    && i < |hc.mounts| && Listed(hc.mounts[i]) && row.key == "mount:" + Decimal(i)
    && var (c, m) := (row.content, hc.mounts[i]);
       c.kind == m.kind && c.source == m.source && c.target == m.target && c.readOnly == m.readOnly
  }

  /** The rows are one for each bind and for each mount that the editor lists. */
  lemma RowsMean(hc: HostConfig, row: Row)
    ensures row in RowsOf(hc) <==> (exists i: nat :: FromBind(hc, row, i)) || (exists i: nat :: FromMount(hc, row, i))
  {
    if row in BindRows(hc.binds) {
      var i := BindRowAt(hc.binds, row);
      assert FromBind(hc, row, i);
    } else if row in MountRows(hc.mounts) {
      var i := MountRowAt(hc.mounts, row);
      assert FromMount(hc, row, i);
    }
    if i: nat :| FromBind(hc, row, i) { BindRowIn(hc.binds, i); }
    if i: nat :| FromMount(hc, row, i) { MountRowIn(hc.mounts, i); }
  }

  lemma {:induction false} BindRowIn(binds: seq<string>, i: nat)
    requires i < |binds|
    ensures BindRow(binds, i) in BindRows(binds)
  {
    var n := |binds| - 1;
    if i < n {
      BindRowIn(binds[..n], i);
      assert BindRow(binds[..n], i) == BindRow(binds, i);
    }
  }

  lemma {:induction false} MountRowIn(mounts: seq<Mount>, i: nat)
    requires i < |mounts| && Shown(mounts[i])
    ensures MountRow(mounts, i) in MountRows(mounts)
  {
    var n := |mounts| - 1;
    if i < n {
      MountRowIn(mounts[..n], i);
      assert MountRow(mounts[..n], i) == MountRow(mounts, i);
    }
  }

  // ----- Which entry a row came from

  function KindOf(key: string): string { key[..IndexOf(key, ':')] }

  function IndexOfKey(key: string): nat { var k := IndexOf(key, ':'); if k < |key| then Number(key[k + 1..]) else 0 }

  lemma KeyReads(kind: string, i: nat)
    requires ':' !in kind
    ensures KindOf(kind + ":" + Decimal(i)) == kind && IndexOfKey(kind + ":" + Decimal(i)) == i
  {
    var key := kind + ":" + Decimal(i);
    IndexOfAppend(kind, ':', Decimal(i));
    assert key[|kind| + 1..] == Decimal(i);
    NumberOfDecimal(i);
  }

  /** The row is unchanged: an entry of the config has its key and says the same. */
  ghost predicate Unchanged(hc: HostConfig, row: Row) { row in RowsOf(hc) }

  lemma {:induction false} BindRowAt(binds: seq<string>, row: Row) returns (i: nat)
    requires row in BindRows(binds)
    ensures i < |binds| && row == BindRow(binds, i)
  {
    var n := |binds| - 1;
    if row == BindRow(binds, n) { i := n; }
    else { i := BindRowAt(binds[..n], row); }
  }

  lemma {:induction false} MountRowAt(mounts: seq<Mount>, row: Row) returns (i: nat)
    requires row in MountRows(mounts)
    ensures i < |mounts| && Shown(mounts[i]) && row == MountRow(mounts, i)
  {
    var n := |mounts| - 1;
    if Shown(mounts[n]) && row == MountRow(mounts, n) { i := n; }
    else { i := MountRowAt(mounts[..n], row); }
  }

  lemma BindKeyReads(i: nat)
    ensures KindOf(BindKey(i)) == "bind" && IndexOfKey(BindKey(i)) == i
  {
    KeyReads("bind", i);
    assert BindKey(i) == "bind" + ":" + Decimal(i);
  }

  lemma MountKeyReads(i: nat)
    ensures KindOf(MountKey(i)) != "bind" && IndexOfKey(MountKey(i)) == i
  {
    KeyReads("mount", i);
    assert MountKey(i) == "mount" + ":" + Decimal(i);
    assert |"mount"| == 5;
  }

  /** The entry behind an unchanged row, found from its key alone. */
  lemma UnchangedEntry(hc: HostConfig, row: Row)
    requires Unchanged(hc, row)
    ensures var n := IndexOfKey(row.key);
            if KindOf(row.key) == "bind" then n < |hc.binds| && BindContent(hc.binds[n]) == row.content
            else n < |hc.mounts| && Shown(hc.mounts[n]) && MountContent(hc.mounts[n]) == row.content
  {
    if row in BindRows(hc.binds) {
      var i := BindRowAt(hc.binds, row);
      BindKeyReads(i);
    } else {
      var i := MountRowAt(hc.mounts, row);
      MountKeyReads(i);
    }
  }

  // ----- Rebuilding

  datatype Built = Built(binds: seq<string>, mounts: seq<Mount>)

  function Hidden(mounts: seq<Mount>): seq<Mount>
  {
    if mounts == [] then []
    else
      var n := |mounts| - 1;
      Hidden(mounts[..n]) + if Shown(mounts[n]) then [] else [mounts[n]]
  }

  /** A row's own mount entry when it is new or changed. */
  function Fresh(c: Content): Mount { Mount(c.kind, c.source, c.target, c.readOnly, "") }

  ghost function AddRow(hc: HostConfig, b: Built, row: Row): Built
  {
    if Unchanged(hc, row) then
      UnchangedEntry(hc, row);
      if KindOf(row.key) == "bind" then b.(binds := b.binds + [hc.binds[IndexOfKey(row.key)]])
      else b.(mounts := b.mounts + [hc.mounts[IndexOfKey(row.key)]])
    else b.(mounts := b.mounts + [Fresh(row.content)])
  }

  ghost function Rebuilt(hc: HostConfig, rows: seq<Row>): Built
  {
    if rows == [] then Built([], Hidden(hc.mounts))
    else AddRow(hc, Rebuilt(hc, rows[..|rows| - 1]), rows[|rows| - 1])
  }

  /** Keeps unchanged rows verbatim, rebuilds changed or new ones, and keeps what is not shown. */
  method MountsFor(hc: HostConfig, rows: seq<Row>) returns (b: Built)
    ensures b == Rebuilt(hc, rows)
  {
    var current := EditRows(hc);
    var orig: map<string, Row> := map[];
    for i := 0 to |current|
      invariant forall k :: k in orig ==> orig[k].key == k && orig[k] in current[..i]
      invariant forall j :: 0 <= j < i ==> current[j].key in orig
    {
      orig := orig[current[i].key := current[i]];
    }
    var binds: seq<string>, mounts: seq<Mount> := [], [];
    for i := 0 to |hc.mounts|
      invariant mounts == Hidden(hc.mounts[..i])
    {
      assert hc.mounts[..i + 1][..i] == hc.mounts[..i];
      if !Shown(hc.mounts[i]) { mounts := mounts + [hc.mounts[i]]; }
    }
    assert hc.mounts[..|hc.mounts|] == hc.mounts;
    b := Built(binds, mounts);
    for i := 0 to |rows|
      invariant b == Rebuilt(hc, rows[..i])
    {
      var row := rows[i];
      assert rows[..i + 1][..i] == rows[..i];
      KeyDecides(hc, current, orig, row);
      var kind, n := KindOf(row.key), IndexOfKey(row.key);
      if row.key in orig && orig[row.key].content == row.content {
        UnchangedEntry(hc, row);
        if kind == "bind" { b := b.(binds := b.binds + [hc.binds[n]]); }
        else { b := b.(mounts := b.mounts + [hc.mounts[n]]); }
        continue;
      }
      b := b.(mounts := b.mounts + [Fresh(row.content)]);
    }
    assert rows[..|rows|] == rows;
  }

  lemma SameKeySameRow(hc: HostConfig, a: Row, b: Row)
    requires a in RowsOf(hc) && b in RowsOf(hc) && a.key == b.key
    ensures a == b
  {
    UnchangedEntry(hc, a);
    UnchangedEntry(hc, b);
  }

  lemma KeyDecides(hc: HostConfig, current: seq<Row>, orig: map<string, Row>, row: Row)
    requires current == RowsOf(hc)
    requires forall k :: k in orig ==> orig[k].key == k && orig[k] in current
    requires forall j :: 0 <= j < |current| ==> current[j].key in orig
    ensures Unchanged(hc, row) <==> row.key in orig && orig[row.key].content == row.content
  {
    if Unchanged(hc, row) {
      var j :| 0 <= j < |current| && current[j] == row;
      assert row.key in orig;
      SameKeySameRow(hc, row, orig[row.key]);
    }
  }

  // ----- What the rebuilt config shows and keeps

  ghost function Contents(rows: seq<Row>): multiset<Content>
  {
    if rows == [] then multiset{}
    else Contents(rows[..|rows| - 1]) + multiset{rows[|rows| - 1].content}
  }

  lemma {:induction false} ContentsOfSum(a: seq<Row>, b: seq<Row>)
    ensures Contents(a + b) == Contents(a) + Contents(b)
  {
    if b == [] {
      assert a + b == a;
    } else {
      var front, last := b[..|b| - 1], b[|b| - 1];
      ContentsOfSum(a, front);
      assert (a + b)[..|a + b| - 1] == a + front && (a + b)[|a + b| - 1] == last;
    }
  }

  /** Everything the editor would show of a built pair. */
  ghost function View(b: Built): multiset<Content> { Contents(RowsOf(HostConfig(b.binds, b.mounts))) }

  lemma ViewAddsBind(b: Built, bind: string)
    ensures View(b.(binds := b.binds + [bind])) == View(b) + multiset{BindContent(bind)}
  {
    var more := b.binds + [bind];
    assert more[..|b.binds|] == b.binds;
    ContentsOfSum(BindRows(b.binds), MountRows(b.mounts));
    ContentsOfSum(BindRows(more), MountRows(b.mounts));
    ContentsOfSum(BindRows(b.binds), [BindRow(more, |b.binds|)]);
    ContentsOfOne(BindRow(more, |b.binds|));
  }

  lemma ContentsOfOne(row: Row)
    ensures Contents([row]) == multiset{row.content}
  {
    assert [row][..0] == [];
  }

  lemma ViewAddsMount(b: Built, m: Mount)
    ensures View(b.(mounts := b.mounts + [m])) == View(b) + if Shown(m) then multiset{MountContent(m)} else multiset{}
  {
    var more := b.mounts + [m];
    assert more[..|b.mounts|] == b.mounts;
    ContentsOfSum(BindRows(b.binds), MountRows(b.mounts));
    ContentsOfSum(BindRows(b.binds), MountRows(more));
    if Shown(m) {
      ContentsOfSum(MountRows(b.mounts), [MountRow(more, |b.mounts|)]);
      ContentsOfOne(MountRow(more, |b.mounts|));
    } else {
      assert MountRows(more) == MountRows(b.mounts);
    }
  }

  lemma {:induction false} HiddenShowsNothing(mounts: seq<Mount>)
    ensures MountRows(Hidden(mounts)) == [] && Hidden(Hidden(mounts)) == Hidden(mounts)
  {
    if mounts != [] {
      var n := |mounts| - 1;
      HiddenShowsNothing(mounts[..n]);
      var h := Hidden(mounts[..n]);
      if !Shown(mounts[n]) {
        assert (h + [mounts[n]])[..|h|] == h;
      } else {
        assert h + [] == h;
      }
    }
  }

  /** A row the editor can show again: an entry of the config as it was, or a bind or a named volume. */
  ghost predicate Showable(hc: HostConfig, row: Row) { Unchanged(hc, row) || Shown(Fresh(row.content)) }

  lemma AddRowShows(hc: HostConfig, b: Built, row: Row)
    ensures View(AddRow(hc, b, row)) == View(b) + if Showable(hc, row) then multiset{row.content} else multiset{}
    ensures Showable(hc, row) ==> Hidden(AddRow(hc, b, row).mounts) == Hidden(b.mounts)
  {
    if Unchanged(hc, row) {
      UnchangedEntry(hc, row);
      var n := IndexOfKey(row.key);
      if KindOf(row.key) == "bind" {
        ViewAddsBind(b, hc.binds[n]);
      } else {
        ViewAddsMount(b, hc.mounts[n]);
        ShownIsNotHidden(b.mounts, hc.mounts[n]);
      }
    } else {
      ViewAddsMount(b, Fresh(row.content));
      if Showable(hc, row) { ShownIsNotHidden(b.mounts, Fresh(row.content)); }
    }
  }

  lemma ShownIsNotHidden(mounts: seq<Mount>, m: Mount)
    requires Shown(m)
    ensures Hidden(mounts + [m]) == Hidden(mounts)
  {
    assert (mounts + [m])[..|mounts|] == mounts;
    assert Hidden(mounts) + [] == Hidden(mounts);
  }

  ghost predicate AllShowable(hc: HostConfig, rows: seq<Row>) { forall row :: row in rows ==> Showable(hc, row) }

  lemma CountsStep(view: multiset<Content>, asked: multiset<Content>, c: Content, shown: bool)
    requires view <= asked
    ensures var more := view + if shown then multiset{c} else multiset{};
            more <= asked + multiset{c} && (more == asked + multiset{c} <==> shown && view == asked)
  {
    if shown {
      assert view + multiset{c} - multiset{c} == view && asked + multiset{c} - multiset{c} == asked;
    } else {
      assert view[c] < (asked + multiset{c})[c];
    }
  }

  lemma AllShowableStep(hc: HostConfig, front: seq<Row>, last: Row)
    ensures AllShowable(hc, front + [last]) <==> AllShowable(hc, front) && Showable(hc, last)
  {
    assert last in front + [last];
  }

  /** `b`, built from `rows`, shows those of them that can be shown. */
  ghost predicate ShowsRows(hc: HostConfig, rows: seq<Row>, b: Built)
  {
    && View(b) <= Contents(rows)
    && (AllShowable(hc, rows) <==> View(b) == Contents(rows))
    && (AllShowable(hc, rows) ==> Hidden(b.mounts) == Hidden(hc.mounts))
  }

  lemma ShowsRowsStep(hc: HostConfig, front: seq<Row>, last: Row, b: Built)
    requires ShowsRows(hc, front, b)
    ensures ShowsRows(hc, front + [last], AddRow(hc, b, last))
  {
    AddRowShows(hc, b, last);
    CountsStep(View(b), Contents(front), last.content, Showable(hc, last));
    AllShowableStep(hc, front, last);
    assert (front + [last])[..|front|] == front;
  }

  lemma HiddenView(mounts: seq<Mount>)
    ensures View(Built([], Hidden(mounts))) == multiset{} && Hidden(Hidden(mounts)) == Hidden(mounts)
  {
    HiddenShowsNothing(mounts);
    assert RowsOf(HostConfig([], Hidden(mounts))) == [];
  }

  lemma {:induction false} RebuiltView(hc: HostConfig, rows: seq<Row>)
    ensures ShowsRows(hc, rows, Rebuilt(hc, rows))
  {
    if rows == [] {
      HiddenView(hc.mounts);
    } else {
      var front, last := rows[..|rows| - 1], rows[|rows| - 1];
      RebuiltView(hc, front);
      ShowsRowsStep(hc, front, last, Rebuilt(hc, front));
      assert rows == front + [last];
    }
  }

  /**
   A recreate shows the rows that were asked for, no more and no fewer, exactly when each row is
   an untouched entry or names a bind or a volume with a source. It then also keeps, in place and
   in order, every mount that the editor does not show.
   */
  lemma RecreateShowsRequested(hc: HostConfig, rows: seq<Row>)
    ensures View(Rebuilt(hc, rows)) == Contents(rows) <==> AllShowable(hc, rows)
    ensures ValidRows(rows) ==>
              View(Rebuilt(hc, rows)) == Contents(rows) && Hidden(Rebuilt(hc, rows).mounts) == Hidden(hc.mounts)
  {
    RebuiltView(hc, rows);
    if ValidRows(rows) {
      forall row | row in rows ensures Showable(hc, row) {
        var i :| 0 <= i < |rows| && rows[i] == row;
        assert Sound(rows[i]);
      }
    }
  }

  /** Unchanged rows keep their entry as it was, options included. */
  lemma {:induction false} UnchangedKeptVerbatim(hc: HostConfig, rows: seq<Row>, row: Row)
    requires row in rows && Unchanged(hc, row)
    ensures var n := IndexOfKey(row.key);
            if KindOf(row.key) == "bind" then n < |hc.binds| && hc.binds[n] in Rebuilt(hc, rows).binds
            else n < |hc.mounts| && hc.mounts[n] in Rebuilt(hc, rows).mounts
  {
    UnchangedEntry(hc, row);
    var front, last := rows[..|rows| - 1], rows[|rows| - 1];
    if row != last {
      assert rows == front + [last];
      UnchangedKeptVerbatim(hc, front, row);
    }
  }

  /** The mount that a row of a recreate stands for: its entry as it was, or one with these fields alone. */
  ghost predicate StandsFor(hc: HostConfig, row: Row, m: Mount)
  {
    if row in RowsOf(hc) then exists i: nat :: FromMount(hc, row, i) && hc.mounts[i] == m
    else
      var c := row.content;
      m.kind == c.kind && m.source == c.source && m.target == c.target && m.readOnly == c.readOnly && m.options == ""
  }

  ghost predicate StandsForBind(hc: HostConfig, row: Row, bind: string)
  {
    row in RowsOf(hc) && exists i: nat :: FromBind(hc, row, i) && hc.binds[i] == bind
  }

  lemma UnchangedBind(hc: HostConfig, row: Row, bind: string)
    requires Unchanged(hc, row)
    ensures StandsForBind(hc, row, bind) <==>
              KindOf(row.key) == "bind" && IndexOfKey(row.key) < |hc.binds| && hc.binds[IndexOfKey(row.key)] == bind
  {
    RowsMean(hc, row);
    forall i: nat | FromBind(hc, row, i) ensures KindOf(row.key) == "bind" && IndexOfKey(row.key) == i {
      BindKeyReads(i);
    }
    forall i: nat | FromMount(hc, row, i) ensures KindOf(row.key) != "bind" { MountKeyReads(i); }
  }

  lemma UnchangedMount(hc: HostConfig, row: Row, m: Mount)
    requires Unchanged(hc, row)
    ensures StandsFor(hc, row, m) <==>
              KindOf(row.key) != "bind" && IndexOfKey(row.key) < |hc.mounts| && hc.mounts[IndexOfKey(row.key)] == m
  {
    RowsMean(hc, row);
    forall i: nat | FromBind(hc, row, i) ensures KindOf(row.key) == "bind" { BindKeyReads(i); }
    forall i: nat | FromMount(hc, row, i) ensures KindOf(row.key) != "bind" && IndexOfKey(row.key) == i {
      MountKeyReads(i);
    }
  }

  lemma {:induction false} HiddenHolds(mounts: seq<Mount>, m: Mount)
    ensures m in Hidden(mounts) <==> m in mounts && !Listed(m)
  {
    if mounts != [] {
      var n := |mounts| - 1;
      HiddenHolds(mounts[..n], m);
      assert mounts == mounts[..n] + [mounts[n]];
    }
  }

  ghost predicate SomeRow(hc: HostConfig, rows: seq<Row>, m: Mount)
  {
    exists row :: row in rows && StandsFor(hc, row, m)
  }

  ghost predicate SomeRowBind(hc: HostConfig, rows: seq<Row>, bind: string)
  {
    exists row :: row in rows && StandsForBind(hc, row, bind)
  }

  lemma AddRowHolds(hc: HostConfig, b: Built, row: Row, m: Mount, bind: string)
    ensures m in AddRow(hc, b, row).mounts <==> m in b.mounts || StandsFor(hc, row, m)
    ensures bind in AddRow(hc, b, row).binds <==> bind in b.binds || StandsForBind(hc, row, bind)
  {
    if Unchanged(hc, row) {
      UnchangedEntry(hc, row);
      UnchangedBind(hc, row, bind);
      UnchangedMount(hc, row, m);
    }
  }

  /** Exactly what a recreate's config holds: what the editor does not list, and what the rows stand for. */
  lemma {:induction false} RebuiltHolds(hc: HostConfig, rows: seq<Row>, m: Mount, bind: string)
    ensures m in Rebuilt(hc, rows).mounts <==> (m in hc.mounts && !Listed(m)) || SomeRow(hc, rows, m)
    ensures bind in Rebuilt(hc, rows).binds <==> SomeRowBind(hc, rows, bind)
  {
    HiddenHolds(hc.mounts, m);
    if rows != [] {
      var n := |rows| - 1;
      RebuiltHolds(hc, rows[..n], m, bind);
      AddRowHolds(hc, Rebuilt(hc, rows[..n]), rows[n], m, bind);
      OneRowMore(hc, rows, m, bind);
    }
  }

  lemma OneRowMore(hc: HostConfig, rows: seq<Row>, m: Mount, bind: string)
    requires rows != []
    ensures var (front, last) := (rows[..|rows| - 1], rows[|rows| - 1]);
            && (SomeRow(hc, rows, m) <==> SomeRow(hc, front, m) || StandsFor(hc, last, m))
            && (SomeRowBind(hc, rows, bind) <==> SomeRowBind(hc, front, bind) || StandsForBind(hc, last, bind))
  {
    var front, last := rows[..|rows| - 1], rows[|rows| - 1];
    assert rows == front + [last];
    assert last in rows && forall row :: row in rows <==> row in front || row == last;
  }

  // ----- Row validation

  datatype RowError = NoError | BadType | TargetNotAbsolute | DuplicateTarget | SourceRequired

  /** What is wrong with row `i`, its earlier rows being given. */
  ghost function Fault(rows: seq<Row>, i: nat): RowError
    requires i < |rows|
  {
    var c := rows[i].content;
    if c.kind != "bind" && c.kind != "volume" then BadType
    else if !HasPrefix(c.target, "/") then TargetNotAbsolute
    else if exists j :: 0 <= j < i && rows[j].content.target == c.target then DuplicateTarget
    else if c.source == "" then SourceRequired
    else NoError
  }

  predicate Sound(row: Row)
  {
    && (row.content.kind == "bind" || row.content.kind == "volume")
    && HasPrefix(row.content.target, "/") && row.content.source != ""
  }

  predicate ValidRows(rows: seq<Row>)
  {
    && (forall i :: 0 <= i < |rows| ==> Sound(rows[i]))
    && (forall i, j :: 0 <= i < j < |rows| ==> rows[i].content.target != rows[j].content.target)
  }

  /** No message exactly for valid rows; otherwise the message of the first row at fault. */
  method ValidateRows(rows: seq<Row>) returns (err: RowError)
    ensures err == NoError <==> ValidRows(rows)
    ensures err != NoError ==> exists i :: 0 <= i < |rows| && ValidRows(rows[..i]) && Fault(rows, i) == err
  {
    var targets: set<string> := {};
    for i := 0 to |rows|
      invariant ValidRows(rows[..i])
      invariant targets == set j | 0 <= j < i :: rows[j].content.target
    {
      var c := rows[i].content;
      assert rows[..i + 1][i] == rows[i];
      if c.kind != "bind" && c.kind != "volume" { err := BadType; }
      else if !HasPrefix(c.target, "/") { err := TargetNotAbsolute; }
      else if c.target in targets { err := DuplicateTarget; }
      else if c.source == "" { err := SourceRequired; }
      else { err := NoError; }
      assert err == Fault(rows, i);
      if err != NoError { return; }
      targets := targets + {c.target};
    }
    assert rows[..|rows|] == rows;
    return NoError;
  }
}
