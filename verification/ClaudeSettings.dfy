/** The settings patch of `internal/agentport/claude_export.go`, the patcher's caller. */
module ClaudeSettings {
  import opened Prelude
  import Keys
  import opened JsonDoc
  import opened JsonPatch
  import opened Patcher

  const MANAGED := {"env", "permissions", "model", "statusLine", "hooks"}

  datatype Permissions = Permissions(defaultMode: string, allow: seq<Json>, deny: seq<Json>)

  /** A hook group as written to the file, with the matcher and the command it is recognised by. */
  datatype Hook = Hook(event: string, matcher: string, command: string, group: Json)

  /** A variable, and whether it is left out because its value is a secret or needs expansion. */
  datatype EnvVar = EnvVar(name: string, value: string, skipped: bool)

  /** `hooks` lists the groups event by event. */
  datatype Settings = Settings(
    model: string, permissions: Option<Permissions>, hooks: seq<Hook>, statusLine: Option<Json>, env: seq<EnvVar>)

  function Key(k: string): Path { At(k, Top) }
  function Key2(k: string, l: string): Path { At(k, At(l, Top)) }

  function ModelRequests(model: string): seq<Request> { if model == "" then [] else [SetTo(Key("model"), Str(model))] }

  function ListRequests(key: string, entries: seq<Json>): seq<Request>
  {
    seq(|entries|, i requires 0 <= i < |entries| => AddTo(Key2("permissions", key), entries[i]))
  }

  function PermissionRequests(p: Option<Permissions>): seq<Request>
  {
    if p.None? then []
    else
      (if p.value.defaultMode == "" then [] else [SetTo(Key2("permissions", "defaultMode"), Str(p.value.defaultMode))])
      + ListRequests("allow", p.value.allow) + ListRequests("deny", p.value.deny)
  }

  function HookRequest(h: Hook): Request { AddHook(Key2("hooks", h.event), h.matcher, h.command, h.group) }

  function HookRequests(hooks: seq<Hook>): seq<Request>
  {
    seq(|hooks|, i requires 0 <= i < |hooks| => HookRequest(hooks[i]))
  }

  function StatusRequests(status: Option<Json>): seq<Request>
  {
    if status.None? then [] else [SetTo(Key("statusLine"), status.value)]
  }

  function EnvRequests(env: seq<EnvVar>): seq<Request>
  {
    if env == [] then []
    else
      var n := |env| - 1;
      EnvRequests(env[..n]) + if env[n].skipped then [] else [SetTo(Key2("env", env[n].name), Str(env[n].value))]
  }

  /** The patcher calls, in order. */
  function Requests(s: Settings): seq<Request>
  {
    ModelRequests(s.model) +
      (PermissionRequests(s.permissions) +
        (HookRequests(s.hooks) + (StatusRequests(s.statusLine) + EnvRequests(s.env))))
  }

  // ----- The requests never get in each other's way, unless a variable is given twice

  predicate UnderKey(rs: seq<Request>, k: string)
  {
    forall i :: 0 <= i < |rs| ==> rs[i].path.At? && rs[i].path.key == k
  }

  predicate AvoidsKey(rs: seq<Request>, k: string)
  {
    forall i :: 0 <= i < |rs| ==> rs[i].path.At? && rs[i].path.key != k
  }

  lemma CompatibleSum(a: seq<Request>, b: seq<Request>, k: string)
    requires UnderKey(a, k) && AvoidsKey(b, k)
    ensures AllCompatible(a + b) <==> AllCompatible(a) && AllCompatible(b)
  {
    var c := a + b;
    assert forall i :: 0 <= i < |a| ==> c[i] == a[i];
    assert forall i :: 0 <= i < |b| ==> c[|a| + i] == b[i];
    if AllCompatible(c) {
      forall i, j | 0 <= i < j < |b| ensures Compatible(b[i], b[j]) { assert Compatible(c[|a| + i], c[|a| + j]); }
    }
    if AllCompatible(a) && AllCompatible(b) {
      forall i, j | 0 <= i < j < |c| ensures Compatible(c[i], c[j]) {
        if i >= |a| { assert Compatible(b[i - |a|], b[j - |a|]); }
        else if j < |a| { assert Compatible(a[i], a[j]); }
      }
    }
  }

  predicate DistinctNames(env: seq<EnvVar>)
  {
    forall i, j :: 0 <= i < j < |env| && !env[i].skipped && !env[j].skipped ==> env[i].name != env[j].name
  }

  predicate Free(env: seq<EnvVar>, name: string)
  {
    forall i :: 0 <= i < |env| && !env[i].skipped ==> env[i].name != name
  }

  lemma OneMoreCompatible(rs: seq<Request>, r: Request)
    ensures AllCompatible(rs + [r]) <==> AllCompatible(rs) && AllCompatibleWith(rs, r)
  {
    var c := rs + [r];
    assert forall i :: 0 <= i < |rs| ==> c[i] == rs[i];
    if AllCompatible(c) {
      forall i | 0 <= i < |rs| ensures Compatible(rs[i], r) { assert Compatible(c[i], c[|rs|]); }
    }
  }

  function EnvRequest(e: EnvVar): Request { SetTo(Key2("env", e.name), Str(e.value)) }

  lemma {:induction false} EnvFree(env: seq<EnvVar>, e: EnvVar)
    ensures AllCompatibleWith(EnvRequests(env), EnvRequest(e)) <==> Free(env, e.name)
    ensures UnderKey(EnvRequests(env), "env")
  {
    if env != [] {
      var n := |env| - 1;
      EnvFree(env[..n], e);
      var a, b := EnvRequests(env[..n]), EnvRequests(env);
      assert forall i :: 0 <= i < n ==> env[..n][i] == env[i];
      assert forall i :: 0 <= i < |a| ==> b[i] == a[i];
      if env[n].skipped {
        assert b == a;
      } else {
        assert b == a + [EnvRequest(env[n])];
        assert b[|a|] == EnvRequest(env[n]);
        TwoKeys("env", env[n].name, "env", e.name);
        TwoKeys("env", e.name, "env", env[n].name);
      }
    }
  }

  lemma {:induction false} EnvCompatible(env: seq<EnvVar>)
    ensures AllCompatible(EnvRequests(env)) <==> DistinctNames(env)
  {
    if env != [] {
      var n := |env| - 1;
      EnvCompatible(env[..n]);
      EnvFree(env[..n], env[n]);
      OneMoreCompatible(EnvRequests(env[..n]), EnvRequest(env[n]));
      assert EnvRequests(env[..n]) + [] == EnvRequests(env[..n]);
      assert forall i :: 0 <= i < n ==> env[..n][i] == env[i];
      assert DistinctNames(env) <==> DistinctNames(env[..n]) && (env[n].skipped || Free(env[..n], env[n].name));
    }
  }

  /** The mode is set first and once; everything else joins the two lists. */
  predicate PermissionShape(rs: seq<Request>, i: nat)
    requires i < |rs|
  {
    if rs[i].SetTo? then i == 0 && rs[i].path == Key2("permissions", "defaultMode")
    else rs[i].path == Key2("permissions", "allow") || rs[i].path == Key2("permissions", "deny")
  }

  lemma PermissionsCompatible(p: Option<Permissions>)
    ensures AllCompatible(PermissionRequests(p)) && UnderKey(PermissionRequests(p), "permissions")
    ensures forall i :: 0 <= i < |PermissionRequests(p)| ==> Len(PermissionRequests(p)[i].path) == 2
  {
    var rs := PermissionRequests(p);
    assert forall i :: 0 <= i < |rs| ==> PermissionShape(rs, i);
    forall i, j | 0 <= i < j < |rs| ensures Compatible(rs[i], rs[j]) {
      assert PermissionShape(rs, i) && PermissionShape(rs, j);
      assert "defaultMode"[0] != "allow"[0] && |"defaultMode"| != |"deny"|;
    }
    forall i | 0 <= i < |rs| ensures rs[i].path.At? && rs[i].path.key == "permissions" && Len(rs[i].path) == 2 {
      assert PermissionShape(rs, i);
    }
  }

  lemma HooksCompatible(hooks: seq<Hook>)
    ensures AllCompatible(HookRequests(hooks)) && UnderKey(HookRequests(hooks), "hooks")
  {
    forall i, j | 0 <= i < j < |hooks| ensures Compatible(HookRequest(hooks[i]), HookRequest(hooks[j])) {
      TwoKeys("hooks", hooks[i].event, "hooks", hooks[j].event);
      TwoKeys("hooks", hooks[j].event, "hooks", hooks[i].event);
    }
  }

  lemma TwoKeys(k: string, l: string, m: string, n: string)
    ensures !ProperPrefix(Key2(k, l), Key2(m, n)) && (Key2(k, l) == Key2(m, n) <==> k == m && l == n)
  {
    assert !ProperPrefix(At(l, Top), At(n, Top));
  }

  lemma FiveKeys()
    ensures "env" != "permissions" && "env" != "model" && "env" != "statusLine" && "env" != "hooks"
    ensures "permissions" != "model" && "permissions" != "statusLine" && "permissions" != "hooks"
    ensures "model" != "statusLine" && "model" != "hooks" && "statusLine" != "hooks"
  {
    assert |"env"| == 3 && |"permissions"| == 11 && |"model"| == 5 && |"statusLine"| == 10;
    assert "model"[0] != "hooks"[0];
  }

  lemma StatusEnvCompatible(status: Option<Json>, env: seq<EnvVar>)
    ensures var tail := StatusRequests(status) + EnvRequests(env);
            && (AllCompatible(tail) <==> DistinctNames(env))
            && AvoidsKey(tail, "hooks") && AvoidsKey(tail, "permissions") && AvoidsKey(tail, "model")
  {
    FiveKeys();
    EnvFree(env, EnvVar("", "", true));
    EnvCompatible(env);
    CompatibleSum(StatusRequests(status), EnvRequests(env), "statusLine");
  }

  lemma TailCompatible(hooks: seq<Hook>, status: Option<Json>, env: seq<EnvVar>)
    ensures var tail := HookRequests(hooks) + (StatusRequests(status) + EnvRequests(env));
            && (AllCompatible(tail) <==> DistinctNames(env))
            && AvoidsKey(tail, "permissions") && AvoidsKey(tail, "model")
  {
    FiveKeys();
    StatusEnvCompatible(status, env);
    HooksCompatible(hooks);
    CompatibleSum(HookRequests(hooks), StatusRequests(status) + EnvRequests(env), "hooks");
  }

  /** The settings requests are compatible exactly when no variable is exported twice. */
  lemma RequestsCompatible(s: Settings)
    ensures AllCompatible(Requests(s)) <==> DistinctNames(s.env)
  {
    FiveKeys();
    var tail := HookRequests(s.hooks) + (StatusRequests(s.statusLine) + EnvRequests(s.env));
    TailCompatible(s.hooks, s.statusLine, s.env);
    PermissionsCompatible(s.permissions);
    CompatibleSum(PermissionRequests(s.permissions), tail, "permissions");
    CompatibleSum(ModelRequests(s.model), PermissionRequests(s.permissions) + tail, "model");
  }

  /** At most two keys, the first one managed. */
  predicate Short(p: Path) { p.At? && p.key in MANAGED && Len(p) <= 2 }

  /** Every path is one or two keys long and begins with a managed key. */
  lemma RequestsManaged(s: Settings)
    ensures forall i :: 0 <= i < |Requests(s)| ==> Short(Requests(s)[i].path)
  {
    PermissionsCompatible(s.permissions);
    EnvManaged(s.env);
    var rs := Requests(s);
    assert forall k :: k in MANAGED ==> Short(Key(k));
    forall r | r in rs ensures Short(r.path) {
      if r in HookRequests(s.hooks) {
        var i :| 0 <= i < |s.hooks| && r == HookRequest(s.hooks[i]);
        TwoKeyManaged("hooks", s.hooks[i].event);
      }
    }
  }

  lemma TwoKeyManaged(k: string, l: string)
    requires k in MANAGED
    ensures Short(Key2(k, l))
  {
    assert Len(At(l, Top)) == 1;
  }

  lemma {:induction false} EnvManaged(env: seq<EnvVar>)
    ensures forall r :: r in EnvRequests(env) ==> Short(r.path)
  {
    if env != [] {
      EnvManaged(env[..|env| - 1]);
      TwoKeyManaged("env", env[|env| - 1].name);
    }
  }

  // ----- The export itself

  lemma {:induction false} StepsSum(b: Builder, rs: seq<Request>, more: seq<Request>)
    ensures Steps(b, rs + more) == Steps(Steps(b, rs), more)
  {
    if more == [] {
      NothingAfter(rs);
      return;
    }
    var n := |more| - 1;
    StepsSum(b, rs, more[..n]);
    assert more == more[..n] + [more[n]];
    Regroup(rs, more[..n], [more[n]]);
    OneMoreStep(b, rs + more[..n], more[n]);
    OneMoreStep(Steps(b, rs), more[..n], more[n]);
  }

  lemma OneMoreStep(b: Builder, rs: seq<Request>, r: Request)
    ensures Steps(b, rs + [r]) == Step(Steps(b, rs), r)
  {
    assert (rs + [r])[..|rs|] == rs;
  }

  method AddEntries(p: Patcher, key: string, entries: seq<Json>)
    modifies p
    ensures p.State() == Steps(old(p.State()), ListRequests(key, entries))
  {
    for i := 0 to |entries|
      invariant p.State() == Steps(old(p.State()), ListRequests(key, entries)[..i])
    {
      OneMoreStep(old(p.State()), ListRequests(key, entries)[..i], ListRequests(key, entries)[i]);
      assert ListRequests(key, entries)[..i + 1] == ListRequests(key, entries)[..i] + [ListRequests(key, entries)[i]];
      p.AppendTo(Key2("permissions", key), entries[i]);
    }
    assert ListRequests(key, entries)[..|entries|] == ListRequests(key, entries);
  }

  method SetPermissions(p: Patcher, perm: Permissions)
    modifies p
    ensures p.State() == Steps(old(p.State()), PermissionRequests(Some(perm)))
  {
    ghost var b := p.State();
    ghost var mode := [SetTo(Key2("permissions", "defaultMode"), Str(perm.defaultMode))];
    ghost var first := if perm.defaultMode == "" then [] else mode;
    if perm.defaultMode != "" {
      OneMoreStep(b, [], first[0]);
      p.Set(Key2("permissions", "defaultMode"), Str(perm.defaultMode));
    }
    AddEntries(p, "allow", perm.allow);
    AddEntries(p, "deny", perm.deny);
    StepsSum(b, first, ListRequests("allow", perm.allow));
    StepsSum(b, first + ListRequests("allow", perm.allow), ListRequests("deny", perm.deny));
  }

  lemma HookStep(b: Builder, rs: seq<Request>, i: nat)
    requires i < |rs|
    ensures Steps(b, rs[..i + 1]) == Step(Steps(b, rs[..i]), rs[i])
  {
    assert rs[..i + 1] == rs[..i] + [rs[i]];
    OneMoreStep(b, rs[..i], rs[i]);
  }

  method AddHooks(p: Patcher, hooks: seq<Hook>)
    modifies p
    ensures p.State() == Steps(old(p.State()), HookRequests(hooks))
  {
    for i := 0 to |hooks|
      invariant p.State() == Steps(old(p.State()), HookRequests(hooks)[..i])
    {
      HookStep(old(p.State()), HookRequests(hooks), i);
      var path := Key2("hooks", hooks[i].event);
      var has := p.FindHook(path, hooks[i].matcher, hooks[i].command);
      if !has { p.AppendTo(path, hooks[i].group); }
    }
    assert HookRequests(hooks)[..|hooks|] == HookRequests(hooks);
  }

  method SetEnv(p: Patcher, env: seq<EnvVar>)
    modifies p
    ensures p.State() == Steps(old(p.State()), EnvRequests(env))
  {
    for i := 0 to |env|
      invariant p.State() == Steps(old(p.State()), EnvRequests(env[..i]))
    {
      assert env[..i + 1][..i] == env[..i];
      OneMoreStep(old(p.State()), EnvRequests(env[..i]), EnvRequest(env[i]));
      assert EnvRequests(env[..i]) + [] == EnvRequests(env[..i]);
      if !env[i].skipped { p.Set(Key2("env", env[i].name), Str(env[i].value)); }
    }
    assert env[..|env|] == env;
  }

  /** All of the settings, in the order of the export. */
  method Drive(p: Patcher, s: Settings)
    modifies p
    ensures p.State() == Steps(old(p.State()), Requests(s))
  {
    ghost var b := p.State();
    if s.model != "" {
      OneMoreStep(b, [], SetTo(Key("model"), Str(s.model)));
      p.Set(Key("model"), Str(s.model));
    }
    if s.permissions.Some? { SetPermissions(p, s.permissions.value); }
    AddHooks(p, s.hooks);
    ghost var st := p.State();
    if s.statusLine.Some? {
      OneMoreStep(st, [], SetTo(Key("statusLine"), s.statusLine.value));
      p.Set(Key("statusLine"), s.statusLine.value);
    }
    SetEnv(p, s.env);
    DriveSum(b, s);
  }

  lemma DriveSum(b: Builder, s: Settings)
    ensures Steps(b, Requests(s)) ==
            Steps(Steps(Steps(Steps(Steps(b, ModelRequests(s.model)),
                                    PermissionRequests(s.permissions)),
                              HookRequests(s.hooks)),
                        StatusRequests(s.statusLine)),
                  EnvRequests(s.env))
  {
    var m, p, h, st, e := ModelRequests(s.model), PermissionRequests(s.permissions), HookRequests(s.hooks),
      StatusRequests(s.statusLine), EnvRequests(s.env);
    StepsSum(b, m, p + (h + (st + e)));
    StepsSum(Steps(b, m), p, h + (st + e));
    StepsSum(Steps(Steps(b, m), p), h, st + e);
    StepsSum(Steps(Steps(Steps(b, m), p), h), st, e);
  }

  /** What the export needs of the file and of the settings. */
  ghost predicate Exportable(doc: Json, s: Settings)
  {
    doc.Obj? && DistinctNames(s.env) && forall i :: 0 <= i < |Requests(s)| ==> Fits(doc, Requests(s)[i])
  }

  lemma ExportAcceptable(doc: Json, s: Settings)
    requires Exportable(doc, s)
    ensures Acceptable(Scope(MANAGED, doc), Requests(s)) && AllDecoded(Scope(MANAGED, doc), Requests(s))
  {
    RequestsCompatible(s);
    RequestsManaged(s);
    var sc, rs := Scope(MANAGED, doc), Requests(s);
    forall i | 0 <= i < |rs| ensures Decoded(sc, rs[i].path) { assert Short(rs[i].path); }
  }

  // ----- What the file holds afterwards, said of the settings and of paths

  /** A list grew by the entries it did not have, each once, and by nothing else. */
  ghost predicate Joined(was: seq<Json>, now: seq<Json>, entries: seq<Json>)
  {
    && was <= now && (forall e :: e in entries ==> e in now)
    && forall k :: |was| <= k < |now| ==> now[k] in entries && now[k] !in now[..k]
  }

  /** The list at a path; anything but a list has no entries. */
  function ListAt(doc: Json, p: Path): seq<Json>
  {
    var v := Get(doc, p);
    if v.Some? && v.value.List? then v.value.items else []
  }

  /** The value at a path is the one given, or the file's own where none is. */
  ghost predicate Given(doc: Json, after: Json, p: Path, v: Option<Json>)
  {
    Get(after, p) == if v.Some? then v else Get(doc, p)
  }

  function Text(s: string): Option<Json> { if s == "" then None else Some(Str(s)) }

  ghost predicate HoldsPermissions(doc: Json, after: Json, p: Option<Permissions>)
  {
    var mode, allow, deny := At("permissions", At("defaultMode", Top)), At("permissions", At("allow", Top)),
      At("permissions", At("deny", Top));
    && Given(doc, after, mode, if p.Some? then Text(p.value.defaultMode) else None)
    && Joined(ListAt(doc, allow), ListAt(after, allow), if p.Some? then p.value.allow else [])
    && Joined(ListAt(doc, deny), ListAt(after, deny), if p.Some? then p.value.deny else [])
  }

  /** The event's list has the hook's group, or a group that does the same. */
  ghost predicate HoldsHook(after: Json, h: Hook)
  {
    exists g :: g in ListAt(after, At("hooks", At(h.event, Top))) && (g == h.group || DoesSame(g, h))
  }

  /** A group with the hook's matcher, a missing one being empty, that runs its command. */
  ghost predicate DoesSame(g: Json, h: Hook)
  {
    && g.Obj?
    && (if "matcher" in g.fields && g.fields["matcher"].Str?
        then g.fields["matcher"].s == h.matcher else h.matcher == "")
    && "hooks" in g.fields && g.fields["hooks"].List?
    && exists c ::
         c in g.fields["hooks"].items && c.Obj? && "command" in c.fields && c.fields["command"] == Str(h.command)
  }

  ghost predicate HoldsHooks(doc: Json, after: Json, hooks: seq<Hook>)
  {
    && (forall h :: h in hooks ==> HoldsHook(after, h))
    && forall event {:trigger EventGains(doc, after, hooks, event)} :: EventGains(doc, after, hooks, event)
  }

  /** The event's list keeps its groups in place and gains only groups of its hooks. */
  ghost predicate EventGains(doc: Json, after: Json, hooks: seq<Hook>, event: string)
  {
    var was, now := ListAt(doc, At("hooks", At(event, Top))), ListAt(after, At("hooks", At(event, Top)));
    was <= now && forall k :: |was| <= k < |now| ==> IsGroup(hooks, event, now[k])
  }

  ghost predicate IsGroup(hooks: seq<Hook>, event: string, g: Json)
  {
    exists h :: h in hooks && h.event == event && h.group == g
  }

  /** Exported variables have their value; what is not exported, skipped ones included, is as it was. */
  ghost predicate HoldsEnv(doc: Json, after: Json, env: seq<EnvVar>)
  {
    && (forall v :: v in env && !v.skipped ==> Get(after, At("env", At(v.name, Top))) == Some(Str(v.value)))
    && forall name {:trigger NotSet(env, name)} :: NotSet(env, name) ==>
         Get(after, At("env", At(name, Top))) == Get(doc, At("env", At(name, Top)))
  }

  ghost predicate NotSet(env: seq<EnvVar>, name: string) { forall v :: v in env && !v.skipped ==> v.name != name }

  /** The file after the export, setting by setting. */
  ghost predicate Exported(doc: Json, after: Json, s: Settings)
  {
    && Given(doc, after, At("model", Top), Text(s.model))
    && HoldsPermissions(doc, after, s.permissions)
    && HoldsHooks(doc, after, s.hooks)
    && Given(doc, after, At("statusLine", Top), s.statusLine)
    && HoldsEnv(doc, after, s.env)
    && forall k :: k !in {"env", "permissions", "model", "statusLine", "hooks"} ==>
         Get(after, At(k, Top)) == Get(doc, At(k, Top))
  }

  /** What can be asked, setting by setting. */
  ghost predicate Asked(s: Settings, r: Request)
  {
    || (s.model != "" && r == SetTo(Key("model"), Str(s.model)))
    || (s.permissions.Some? && PermissionAsked(s.permissions.value, r))
    || (exists h :: h in s.hooks && r == HookRequest(h))
    || (s.statusLine.Some? && r == SetTo(Key("statusLine"), s.statusLine.value))
    || EnvAsked(s.env, r)
  }

  ghost predicate PermissionAsked(p: Permissions, r: Request)
  {
    || (p.defaultMode != "" && r == SetTo(Key2("permissions", "defaultMode"), Str(p.defaultMode)))
    || (exists e :: e in p.allow && r == AddTo(Key2("permissions", "allow"), e))
    || (exists e :: e in p.deny && r == AddTo(Key2("permissions", "deny"), e))
  }

  ghost predicate EnvAsked(env: seq<EnvVar>, r: Request) { exists v :: v in env && !v.skipped && r == EnvRequest(v) }

  lemma {:induction false} EnvRequestsAre(env: seq<EnvVar>, r: Request)
    ensures r in EnvRequests(env) <==> EnvAsked(env, r)
  {
    if env != [] {
      var n := |env| - 1;
      EnvRequestsAre(env[..n], r);
      assert env == env[..n] + [env[n]];
      if r in EnvRequests(env) && r !in EnvRequests(env[..n]) { assert env[n] in env; }
      if v :| v in env[..n] && !v.skipped && r == EnvRequest(v) { assert v in env; }
    }
  }

  lemma ListRequestsAre(key: string, entries: seq<Json>, r: Request)
    ensures r in ListRequests(key, entries) <==> exists e :: e in entries && r == AddTo(Key2("permissions", key), e)
  {
    var rs := ListRequests(key, entries);
    if r in rs {
      var i :| 0 <= i < |rs| && rs[i] == r;
      assert entries[i] in entries;
    }
    if e :| e in entries && r == AddTo(Key2("permissions", key), e) {
      var i :| 0 <= i < |entries| && entries[i] == e;
      assert rs[i] == r;
    }
  }

  lemma PermissionRequestsAre(p: Option<Permissions>, r: Request)
    ensures r in PermissionRequests(p) <==> p.Some? && PermissionAsked(p.value, r)
  {
    if p.Some? {
      ListRequestsAre("allow", p.value.allow, r);
      ListRequestsAre("deny", p.value.deny, r);
    }
  }

  lemma HookRequestsAre(hooks: seq<Hook>, r: Request)
    ensures r in HookRequests(hooks) <==> exists h :: h in hooks && r == HookRequest(h)
  {
    var rs := HookRequests(hooks);
    if r in rs {
      var i :| 0 <= i < |rs| && rs[i] == r;
      assert hooks[i] in hooks;
    }
    if h :| h in hooks && r == HookRequest(h) {
      var i :| 0 <= i < |hooks| && hooks[i] == h;
      assert rs[i] == r;
    }
  }

  lemma RequestsAre(s: Settings, r: Request)
    ensures r in Requests(s) <==> Asked(s, r)
  {
    PermissionRequestsAre(s.permissions, r);
    HookRequestsAre(s.hooks, r);
    EnvRequestsAre(s.env, r);
  }

  lemma RequestAt(s: Settings, r: Request) returns (i: nat)
    requires Asked(s, r)
    ensures i < |Requests(s)| && Requests(s)[i] == r
  {
    RequestsAre(s, r);
    i :| 0 <= i < |Requests(s)| && Requests(s)[i] == r;
  }

  /** What was asked is there. */
  lemma AskedIsDone(doc: Json, s: Settings, r: Request)
    requires Exportable(doc, s) && Asked(s, r)
    ensures Satisfied(WantAll(doc, Requests(s)), r)
  {
    ExportAcceptable(doc, s);
    var i := RequestAt(s, r);
    AllSatisfied(doc, Requests(s), i);
  }

  /** What nothing asks for, above, below or at the path, is as it was. */
  lemma NotAskedStays(doc: Json, s: Settings, q: Path)
    requires forall r :: Asked(s, r) ==> Apart(r.path, q)
    ensures Get(WantAll(doc, Requests(s)), q) == Get(doc, q)
  {
    var rs := Requests(s);
    forall i | 0 <= i < |rs| ensures Apart(rs[i].path, q) { RequestsAre(s, rs[i]); }
    OthersUnchanged(doc, rs, q);
  }

  ghost predicate AskedFor(s: Settings, q: Path, v: Json) { exists r :: Asked(s, r) && r.path == q && r.v == v }

  /** A list only gains what is asked for at its path. */
  lemma ListGains(doc: Json, s: Settings, q: Path)
    requires forall r :: Asked(s, r) ==> (r.path == q && !r.SetTo?) || Apart(r.path, q)
    ensures ItemsAt(doc, q) <= ItemsAt(WantAll(doc, Requests(s)), q)
    ensures var was, now := ItemsAt(doc, q), ItemsAt(WantAll(doc, Requests(s)), q);
            forall k :: |was| <= k < |now| ==> now[k] !in now[..k] && AskedFor(s, q, now[k])
  {
    var rs := Requests(s);
    forall i | 0 <= i < |rs| ensures (rs[i].path == q && !rs[i].SetTo?) || Apart(rs[i].path, q) {
      RequestsAre(s, rs[i]);
    }
    ListsAreUnions(doc, rs, q);
    var was, now := ItemsAt(doc, q), ItemsAt(WantAll(doc, rs), q);
    forall k | |was| <= k < |now| ensures AskedFor(s, q, now[k]) {
      assert Requested(rs, q, now[k]);
      var i :| 0 <= i < |rs| && rs[i].path == q && rs[i].v == now[k];
      RequestsAre(s, rs[i]);
    }
  }

  lemma KeysApart(k: string, l: string, m: string, n: string)
    ensures Apart(Key(k), Key(l)) <==> k != l
    ensures Apart(Key(k), Key2(m, n)) <==> k != m
    ensures Apart(Key2(m, n), Key(k)) <==> k != m
    ensures Apart(Key2(k, l), Key2(m, n)) <==> k != m || l != n
  {
    assert ProperPrefix(Top, At(n, Top)) && !ProperPrefix(At(n, Top), Top);
    assert !ProperPrefix(At(l, Top), At(n, Top)) && !ProperPrefix(At(n, Top), At(l, Top));
  }

  /** The keys under which something is asked for. */
  lemma AskedUnder(s: Settings, r: Request)
    requires Asked(s, r)
    ensures r.path == Key("model") || r.path == Key("statusLine") ||
            (exists l :: r.path == Key2("permissions", l)) || (exists l :: r.path == Key2("hooks", l)) ||
            (exists l :: r.path == Key2("env", l))
  {
    if h :| h in s.hooks && r == HookRequest(h) { assert r.path == Key2("hooks", h.event); }
    if v :| v in s.env && !v.skipped && r == EnvRequest(v) { assert r.path == Key2("env", v.name); }
  }

  lemma ThreeNames()
    ensures "defaultMode" != "allow" && "defaultMode" != "deny" && "allow" != "deny"
  {
    assert |"defaultMode"| == 11 && |"allow"| == 5 && |"deny"| == 4;
  }

  lemma ModelHolds(doc: Json, s: Settings)
    requires Exportable(doc, s)
    ensures Given(doc, WantAll(doc, Requests(s)), At("model", Top), Text(s.model))
  {
    if s.model != "" {
      AskedIsDone(doc, s, SetTo(Key("model"), Str(s.model)));
    } else {
      FiveKeys();
      forall r | Asked(s, r) ensures Apart(r.path, Key("model")) {
        AskedUnder(s, r);
        OneKeyApart("model", r.path);
      }
      NotAskedStays(doc, s, Key("model"));
    }
  }

  lemma OneKeyApart(k: string, p: Path)
    ensures p == Key("model") || p == Key("statusLine") ==> (Apart(p, Key(k)) <==> p.key != k)
    ensures (exists m, n :: p == Key2(m, n)) ==> (Apart(p, Key(k)) <==> p.key != k)
  {
    KeysApart("model", k, "", "");
    KeysApart("statusLine", k, "", "");
    if m, n :| p == Key2(m, n) { KeysApart(k, k, m, n); }
  }

  lemma StatusHolds(doc: Json, s: Settings)
    requires Exportable(doc, s)
    ensures Given(doc, WantAll(doc, Requests(s)), At("statusLine", Top), s.statusLine)
  {
    if s.statusLine.Some? {
      AskedIsDone(doc, s, SetTo(Key("statusLine"), s.statusLine.value));
    } else {
      FiveKeys();
      forall r | Asked(s, r) ensures Apart(r.path, Key("statusLine")) {
        AskedUnder(s, r);
        OneKeyApart("statusLine", r.path);
      }
      NotAskedStays(doc, s, Key("statusLine"));
    }
  }

  lemma OthersHold(doc: Json, s: Settings, k: string)
    requires k !in {"env", "permissions", "model", "statusLine", "hooks"}
    ensures Get(WantAll(doc, Requests(s)), At(k, Top)) == Get(doc, At(k, Top))
  {
    forall r | Asked(s, r) ensures Apart(r.path, Key(k)) {
      AskedUnder(s, r);
      OneKeyApart(k, r.path);
    }
    NotAskedStays(doc, s, Key(k));
  }

  /** A request that is not at the two keys given is apart from them. */
  lemma TwoKeysApart(s: Settings, r: Request, m: string, n: string)
    requires Asked(s, r) && m in {"permissions", "hooks", "env"}
    ensures r.path == Key2(m, n) || Apart(r.path, Key2(m, n))
  {
    FiveKeys();
    AskedUnder(s, r);
    KeysApart("model", "", m, n);
    KeysApart("statusLine", "", m, n);
    if l :| r.path == Key2("permissions", l) { KeysApart("permissions", l, m, n); }
    if l :| r.path == Key2("hooks", l) { KeysApart("hooks", l, m, n); }
    if l :| r.path == Key2("env", l) { KeysApart("env", l, m, n); }
  }

  /** Which request is at a path below permissions. */
  lemma PermissionAt(s: Settings, r: Request, n: string)
    requires Asked(s, r) && r.path == Key2("permissions", n)
    ensures s.permissions.Some? && PermissionAsked(s.permissions.value, r)
  {
    FiveKeys();
  }

  lemma ModeHolds(doc: Json, s: Settings)
    requires Exportable(doc, s)
    ensures Given(doc, WantAll(doc, Requests(s)), Key2("permissions", "defaultMode"),
                  if s.permissions.Some? then Text(s.permissions.value.defaultMode) else None)
  {
    if s.permissions.Some? && s.permissions.value.defaultMode != "" {
      AskedIsDone(doc, s, SetTo(Key2("permissions", "defaultMode"), Str(s.permissions.value.defaultMode)));
    } else {
      ThreeNames();
      forall r | Asked(s, r) ensures Apart(r.path, Key2("permissions", "defaultMode")) {
        TwoKeysApart(s, r, "permissions", "defaultMode");
        if r.path == Key2("permissions", "defaultMode") { PermissionAt(s, r, "defaultMode"); }
      }
      NotAskedStays(doc, s, Key2("permissions", "defaultMode"));
    }
  }

  function Entries(p: Option<Permissions>, key: string): seq<Json>
  {
    if p.None? then [] else if key == "allow" then p.value.allow else p.value.deny
  }

  lemma ListHolds(doc: Json, s: Settings, key: string)
    requires Exportable(doc, s) && key in {"allow", "deny"}
    ensures var p := Key2("permissions", key);
            Joined(ListAt(doc, p), ListAt(WantAll(doc, Requests(s)), p), Entries(s.permissions, key))
  {
    ThreeNames();
    var p, after, entries := Key2("permissions", key), WantAll(doc, Requests(s)), Entries(s.permissions, key);
    forall r | Asked(s, r)
      ensures (r.path == p && !r.SetTo?) || Apart(r.path, p)
      ensures r.path == p ==> r.v in entries
    {
      TwoKeysApart(s, r, "permissions", key);
      if r.path == p { PermissionAt(s, r, key); }
    }
    ListGains(doc, s, p);
    var was, now := ListAt(doc, p), ListAt(after, p);
    forall k | |was| <= k < |now| ensures now[k] in entries { assert AskedFor(s, p, now[k]); }
    forall e | e in entries ensures e in ListAt(after, p) {
      var r := AddTo(p, e);
      assert PermissionAsked(s.permissions.value, r);
      AskedIsDone(doc, s, r);
    }
  }

  lemma SameHook(g: Json, h: Hook)
    ensures Matches(g, h.matcher, h.command) <==> DoesSame(g, h)
  {
    if Matches(g, h.matcher, h.command) {
      var hooks := ItemsOf(Field(g, "hooks"));
      var i :| 0 <= i < |hooks| && Field(hooks[i], "command") == Str(h.command);
      assert hooks[i] in hooks;
    }
    if DoesSame(g, h) {
      var c :| c in g.fields["hooks"].items && c.Obj? && "command" in c.fields && c.fields["command"] == Str(h.command);
      var hooks := ItemsOf(Field(g, "hooks"));
      var i :| 0 <= i < |hooks| && hooks[i] == c;
    }
  }

  lemma HookHolds(doc: Json, s: Settings, h: Hook)
    requires Exportable(doc, s) && h in s.hooks
    ensures HoldsHook(WantAll(doc, Requests(s)), h)
  {
    var after := WantAll(doc, Requests(s));
    AskedIsDone(doc, s, HookRequest(h));
    var items := ItemsAt(after, Key2("hooks", h.event));
    assert items == ListAt(after, At("hooks", At(h.event, Top)));
    if h.group !in items {
      var i :| 0 <= i < |items| && Matches(items[i], h.matcher, h.command);
      SameHook(items[i], h);
      assert items[i] in items && DoesSame(items[i], h);
    }
  }

  lemma HookAt(s: Settings, r: Request, event: string)
    requires Asked(s, r) && r.path == Key2("hooks", event)
    ensures !r.SetTo? && IsGroup(s.hooks, event, r.v)
  {
    FiveKeys();
    var h :| h in s.hooks && r == HookRequest(h);
  }

  lemma EventHolds(doc: Json, s: Settings, event: string)
    ensures EventGains(doc, WantAll(doc, Requests(s)), s.hooks, event)
  {
    var p := Key2("hooks", event);
    forall r | Asked(s, r) ensures (r.path == p && !r.SetTo?) || Apart(r.path, p) {
      TwoKeysApart(s, r, "hooks", event);
      if r.path == p { HookAt(s, r, event); }
    }
    ListGains(doc, s, p);
    var was, now := ItemsAt(doc, p), ItemsAt(WantAll(doc, Requests(s)), p);
    forall k | |was| <= k < |now| ensures IsGroup(s.hooks, event, now[k]) {
      assert AskedFor(s, p, now[k]);
      var r :| Asked(s, r) && r.path == p && r.v == now[k];
      HookAt(s, r, event);
    }
  }

  lemma EnvHolds(doc: Json, s: Settings)
    requires Exportable(doc, s)
    ensures HoldsEnv(doc, WantAll(doc, Requests(s)), s.env)
  {
    forall v | v in s.env && !v.skipped
      ensures Get(WantAll(doc, Requests(s)), At("env", At(v.name, Top))) == Some(Str(v.value))
    {
      AskedIsDone(doc, s, EnvRequest(v));
    }
    forall name | NotSet(s.env, name)
      ensures Get(WantAll(doc, Requests(s)), At("env", At(name, Top))) == Get(doc, At("env", At(name, Top)))
    {
      FiveKeys();
      forall r | Asked(s, r) ensures Apart(r.path, Key2("env", name)) { TwoKeysApart(s, r, "env", name); }
      NotAskedStays(doc, s, Key2("env", name));
    }
  }

  lemma PermissionsHold(doc: Json, s: Settings)
    requires Exportable(doc, s)
    ensures HoldsPermissions(doc, WantAll(doc, Requests(s)), s.permissions)
  {
    ThreeNames();
    ModeHolds(doc, s);
    ListHolds(doc, s, "allow");
    ListHolds(doc, s, "deny");
  }

  lemma HooksHold(doc: Json, s: Settings)
    requires Exportable(doc, s)
    ensures HoldsHooks(doc, WantAll(doc, Requests(s)), s.hooks)
  {
    forall h | h in s.hooks ensures HoldsHook(WantAll(doc, Requests(s)), h) { HookHolds(doc, s, h); }
    forall event ensures EventGains(doc, WantAll(doc, Requests(s)), s.hooks, event) { EventHolds(doc, s, event); }
  }

  /** The wanted document holds the settings, each in its place, and nothing else of it changed. */
  lemma WantedIsExported(doc: Json, s: Settings)
    requires Exportable(doc, s)
    ensures Exported(doc, WantAll(doc, Requests(s)), s)
  {
    ModelHolds(doc, s);
    PermissionsHold(doc, s);
    HooksHold(doc, s);
    StatusHolds(doc, s);
    EnvHolds(doc, s);
    forall k | k !in {"env", "permissions", "model", "statusLine", "hooks"}
      ensures Get(WantAll(doc, Requests(s)), At(k, Top)) == Get(doc, At(k, Top))
    {
      OthersHold(doc, s, k);
    }
  }

  // ----- Which files the export is for

  ghost predicate ListOrAbsent(doc: Json, p: Path) { Get(doc, p).Some? ==> Get(doc, p).value.List? }

  ghost predicate ObjectOrAbsent(doc: Json, k: string)
  {
    Get(doc, At(k, Top)).Some? ==> Get(doc, At(k, Top)).value.Obj?
  }

  /** A settings file whose managed keys hold what they should. */
  ghost predicate InShape(doc: Json)
  {
    && doc.Obj? && ObjectOrAbsent(doc, "permissions") && ObjectOrAbsent(doc, "hooks") && ObjectOrAbsent(doc, "env")
    && ListOrAbsent(doc, At("permissions", At("allow", Top))) && ListOrAbsent(doc, At("permissions", At("deny", Top)))
    && forall event {:trigger Key2("hooks", event)} :: ListOrAbsent(doc, Key2("hooks", event))
  }

  lemma TwoKeyWalkable(doc: Json, k: string, l: string)
    requires doc.Obj? && ObjectOrAbsent(doc, k)
    ensures Walkable(doc, Key2(k, l)) && Walkable(doc, Key(k))
  {
    if k in doc.fields { assert Get(doc, At(k, Top)) == Some(doc.fields[k]); }
  }

  /** Settings that name no exported variable twice can be exported to every such file. */
  lemma ShapeSuffices(doc: Json, s: Settings)
    requires InShape(doc) && DistinctNames(s.env)
    ensures Exportable(doc, s)
  {
    var rs := Requests(s);
    forall i | 0 <= i < |rs| ensures Fits(doc, rs[i]) {
      var r := rs[i];
      RequestsAre(s, r);
      AskedUnder(s, r);
      if l :| r.path == Key2("permissions", l) {
        TwoKeyWalkable(doc, "permissions", l);
        PermissionAt(s, r, l);
      } else if l :| r.path == Key2("hooks", l) {
        TwoKeyWalkable(doc, "hooks", l);
      } else if l :| r.path == Key2("env", l) {
        TwoKeyWalkable(doc, "env", l);
        EnvAt(s, r, l);
      } else {
        TopAt(s, r);
      }
    }
  }

  lemma EnvAt(s: Settings, r: Request, n: string)
    requires Asked(s, r) && r.path == Key2("env", n)
    ensures r.SetTo?
  {
    FiveKeys();
  }

  lemma TopAt(s: Settings, r: Request)
    requires Asked(s, r) && (r.path == Key("model") || r.path == Key("statusLine"))
    ensures r.SetTo?
  {
    FiveKeys();
  }

  /** The operations turn the file into one that holds the settings. */
  ghost predicate Makes(doc: Json, ops: seq<Op>, s: Settings)
  {
    var after := ApplyAll(doc, ops);
    after.Some? && Exported(doc, after.value, s)
  }

  /** The operations on a settings file with the given top-level fields. */
  method ClaudeSettingsPatch(fields: map<string, Json>, s: Settings) returns (ops: seq<Op>)
    ensures Exportable(Obj(fields), s) ==> ApplyAll(Obj(fields), ops) == Some(WantAll(Obj(fields), Requests(s)))
    ensures InShape(Obj(fields)) && DistinctNames(s.env) ==> Makes(Obj(fields), ops, s)
    ensures (exists before :: Exportable(before, s) && Obj(fields) == WantAll(before, Requests(s))) ==> ops == []
  {
    var found := map k | k in fields && k in MANAGED :: fields[k];
    var others := Keys.Sorted(fields.Keys - MANAGED);
    var p := new Patcher(found, others);
    ghost var b := p.State();
    LoadedTracks(MANAGED, fields, found, others, b);
    Drive(p, s);
    ExportWorks(Obj(fields), s, b);
    ops := p.ops;
    if InShape(Obj(fields)) && DistinctNames(s.env) {
      ShapeSuffices(Obj(fields), s);
      WantedIsExported(Obj(fields), s);
    }
  }

  lemma ExportWorks(doc: Json, s: Settings, b: Builder)
    requires Tracks(Scope(MANAGED, doc), b, doc, []) && b.ops == []
    ensures Exportable(doc, s) ==> ApplyAll(doc, Steps(b, Requests(s)).ops) == Some(WantAll(doc, Requests(s)))
    ensures (exists before :: Exportable(before, s) && doc == WantAll(before, Requests(s))) ==>
            Steps(b, Requests(s)).ops == []
  {
    if Exportable(doc, s) {
      ExportAcceptable(doc, s);
      PatchMakesWanted(Scope(MANAGED, doc), b, Requests(s));
    }
    if before :| Exportable(before, s) && doc == WantAll(before, Requests(s)) {
      ExportAcceptable(before, s);
      SecondExportSilentIff(Scope(MANAGED, before), Requests(s), b);
    }
  }
}
