/** `_perform_mockings`: the directories, stub files and self-collection link planned for a
    configuration, in the order the source creates them. File-system effects are returned as
    actions instead of being performed. */
module Mockings {
  import opened Results
  import opened Text
  import opened Patterns
  import opened ModuleStub

  /** The options consulted; `projectDirAbsolute` is `project_dir` already made absolute. */
  datatype Config = Config(
    cacheDir: string,
    projectDirAbsolute: string,
    mockRoles: seq<string>,
    mockModules: seq<string>)

  /** The loaded `galaxy.yml`: `None` when the file does not exist; an empty map stands for
      any document that loads as a falsy value. */
  type GalaxyDoc = Option<map<string, string>>

  datatype Action =
    | MakeDirs(path: string)                        // `os.makedirs(path, exist_ok=True)` / `mkdir(parents=True, exist_ok=True)`
    | WriteStub(file: string, args: TemplateArgs)   // `_write_module_stub`
    | Relink(link: string, target: string)          // the check-and-relink of `link` to `target` at line 119

  /** Every planned action, or the actions taken before the fatal configuration error. */
  datatype Outcome = Completed(actions: seq<Action>) | Exited(actions: seq<Action>, error: ConfigError)

  // ---- roles ----

  /** The mock directory of a configured role: `ns.coll.role` goes into the collection tree,
      anything else verbatim under `roles/`. */
  function RolePath(cacheDir: string, role: string): (path: string)
    ensures forall i, j :: RoleShapeAt(role, i, j) ==>
              path == cacheDir + CollectionsRoot + role[..i] + "/" + role[i + 1..j] + "/roles/" + role[j + 1..] + "/"
    ensures !RoleShape(role) ==> path == cacheDir + "/roles/" + role
  {
    CollectionRoleMatches(role);
    RoleShapeSplits(role);
    if IsCollectionRole(role) then
      var p := Split(role, '.');
      CollectionRoleDir(cacheDir, p[0], p[1], p[2])
    else
      cacheDir + "/roles/" + role
  }

  lemma RoleShapeSplits(s: string)
    ensures forall i, j :: RoleShapeAt(s, i, j) ==> Split(s, '.') == [s[..i], s[i + 1..j], s[j + 1..]]
  {
    forall i, j | RoleShapeAt(s, i, j) ensures Split(s, '.') == [s[..i], s[i + 1..j], s[j + 1..]] {
      RoleShapeParts(s, i, j);
    }
  }

  /** Names with other than three dot-separated pieces (`a.b`, `a.b.c.d`) are bare roles. */
  lemma NonTripleRoleIsBare(cacheDir: string, role: string)
    requires |Split(role, '.')| != 3
    ensures RolePath(cacheDir, role) == cacheDir + "/roles/" + role
  {
  }

  /** The directory below the cache directory. */
  function RoleKey(cacheDir: string, role: string): (key: string)
    ensures RolePath(cacheDir, role) == cacheDir + key
  {
    RolePath(cacheDir, role)[|cacheDir|..]
  }

  /** The directory of role `role` in collection `ns.coll` below the cache directory. */
  function CollectionRoleDir(cacheDir: string, ns: string, coll: string, role: string): string {
    cacheDir + CollectionsRoot + ns + "/" + coll + "/roles/" + role + "/"
  }

  lemma CollectionRoleDirGrouping(cacheDir: string, ns: string, coll: string, role: string)
    ensures CollectionRoleDir(cacheDir, ns, coll, role)[|cacheDir| + |CollectionsRoot|..]
            == ns + ['/'] + (coll + ['/'] + ("roles/" + role + "/"))
    ensures CollectionRoleDir(cacheDir, ns, coll, role)[|cacheDir| + 1] == 'c'
  {
  }

  lemma CollectionRoleKey(cacheDir: string, role: string)
    requires IsCollectionRole(role)
    ensures var p := Split(role, '.');
            RoleKey(cacheDir, role)[|CollectionsRoot|..] == p[0] + ['/'] + (p[1] + ['/'] + ("roles/" + p[2] + "/"))
            && role == Dotted3(p[0], p[1], p[2])
            && '/' !in p[0] && '/' !in p[1]
            && RoleKey(cacheDir, role)[1] == 'c'
  {
    var p := Split(role, '.');
    assert RolePath(cacheDir, role) == CollectionRoleDir(cacheDir, p[0], p[1], p[2]);
    CollectionRoleDirGrouping(cacheDir, p[0], p[1], p[2]);
    JoinSplit(role, '.');
    assert p[1..][1..] == [p[2]];
    assert Join(p[1..], '.') == p[1] + ['.'] + p[2];
    WordCharsExclude(p[0]);
    WordCharsExclude(p[1]);
  }

  /** Distinct configured roles get distinct mock path strings. */
  lemma RolePathInjective(cacheDir: string, role1: string, role2: string)
    requires RolePath(cacheDir, role1) == RolePath(cacheDir, role2)
    ensures role1 == role2
  {
    var k1, k2 := RoleKey(cacheDir, role1), RoleKey(cacheDir, role2);
    assert k1 == k2;
    if IsCollectionRole(role1) && IsCollectionRole(role2) {
      CollectionRolesInjective(cacheDir, role1, role2);
    } else if IsCollectionRole(role1) {
      CollectionRoleKey(cacheDir, role1);
    } else if IsCollectionRole(role2) {
      CollectionRoleKey(cacheDir, role2);
    } else {
      assert k1 == "/roles/" + role1;
      assert k2 == "/roles/" + role2;
      assert role1 == k1[7..];
    }
  }

  /** Two collection roles with the same mock directory are the same role. */
  lemma CollectionRolesInjective(cacheDir: string, role1: string, role2: string)
    requires IsCollectionRole(role1) && IsCollectionRole(role2)
    requires RoleKey(cacheDir, role1) == RoleKey(cacheDir, role2)
    ensures role1 == role2
  {
    CollectionRoleKey(cacheDir, role1);
    CollectionRoleKey(cacheDir, role2);
    var p1, p2 := Split(role1, '.'), Split(role2, '.');
    CancelAtSeparator(p1[0], p1[1] + ['/'] + ("roles/" + p1[2] + "/"),
                      p2[0], p2[1] + ['/'] + ("roles/" + p2[2] + "/"), '/');
    CancelAtSeparator(p1[1], "roles/" + p1[2] + "/", p2[1], "roles/" + p2[2] + "/", '/');
    assert p1[2] == ("roles/" + p1[2] + "/")[6..|"roles/" + p1[2] + "/"| - 1];
    assert p2[2] == ("roles/" + p2[2] + "/")[6..|"roles/" + p2[2] + "/"| - 1];
  }

  // ---- self-collection link ----

  /** Where the project is linked into the collection tree, and what it links to. */
  datatype LinkPlan = LinkPlan(dir: string, link: string, target: string)

  /** `yaml.get(key)` is present and a non-empty string. */
  predicate Truthy(doc: map<string, string>, key: string) {
    key in doc && |doc[key]| > 0
  }

  /** The link step: skipped without `galaxy.yml`, for a falsy document, or when `namespace` or
      `name` is missing or empty; otherwise `<cache>/collections/ansible_collections/<namespace>/<name>`
      is linked to the absolute project directory. */
  function SelfLink(cacheDir: string, projectDirAbsolute: string, galaxy: GalaxyDoc): (r: Option<LinkPlan>)
    ensures r.Some? <==> galaxy.Some? && Truthy(galaxy.value, "namespace") && Truthy(galaxy.value, "name")
    ensures r.Some? ==>
              && r.value.dir == cacheDir + CollectionsRoot + galaxy.value["namespace"]
              && r.value.link == r.value.dir + "/" + galaxy.value["name"]
              && r.value.target == projectDirAbsolute
  {
    match galaxy
    case None => None
    case Some(doc) =>
      if |doc| == 0 then None
      else
        var namespace := if "namespace" in doc then doc["namespace"] else "";
        var collection := if "name" in doc then doc["name"] else "";
        if |namespace| == 0 || |collection| == 0 then None
        else
          var dir := cacheDir + CollectionsRoot + namespace;
          Some(LinkPlan(dir, dir + "/" + collection, projectDirAbsolute))
  }

  /** The link path clashes with mocks of the project's own collection: a mocked role
      `namespace.name.r` is created as `<link>/roles/r/`, and a mocked module `namespace.name.m`
      in `<link>/plugins/modules/`, both before the link step. Those steps leave a real directory
      at the link path, where the link step expects a symlink or nothing. */
  lemma OwnMocksUnderLinkPath(cacheDir: string, projectDirAbsolute: string, galaxy: GalaxyDoc, r: string)
    requires SelfLink(cacheDir, projectDirAbsolute, galaxy).Some?
    requires IsWordRun(galaxy.value["namespace"]) && IsWordRun(galaxy.value["name"]) && IsWordRun(r)
    ensures var link := SelfLink(cacheDir, projectDirAbsolute, galaxy).value.link;
            var ns, name := galaxy.value["namespace"], galaxy.value["name"];
            && RolePath(cacheDir, Dotted3(ns, name, r)) == link + "/roles/" + r + "/"
            && PlanStub(cacheDir, Dotted3(ns, name, r)).Success?
            && PlanStub(cacheDir, Dotted3(ns, name, r)).value.dir == link + "/plugins/modules/"
  {
    var ns, name := galaxy.value["namespace"], galaxy.value["name"];
    var s := Dotted3(ns, name, r);
    WordCharsExclude(ns);
    WordCharsExclude(name);
    WordCharsExclude(r);
    SplitDotted3(ns, name, r);
    assert s[..|ns|] == ns;
    assert s[|ns| + 1..|ns| + 1 + |name|] == name;
    assert s[|ns| + 1 + |name| + 1..] == r;
    assert RoleShapeAt(s, |ns|, |ns| + 1 + |name|);
    assert forall x :: 0 <= x < |r| ==> IsWordOrDot(r[x]);
    assert QualifiedShapeAt(s, |ns|, |ns| + 1 + |name|);
    QualifiedStub(cacheDir, s);
    assert Split(s, '.')[2..2] == [];
  }

  // ---- the whole pass ----

  function StubActions(st: StubWrite): seq<Action> {
    [MakeDirs(st.dir), WriteStub(st.file, st.args)]
  }

  function LinkActions(plan: Option<LinkPlan>): seq<Action> {
    match plan
    case None => []
    case Some(p) => [MakeDirs(p.dir), Relink(p.link, p.target)]
  }

  /** The first configured module name that fails validation is at index `k`. */
  ghost predicate FirstInvalid(mods: seq<string>, k: int) {
    0 <= k < |mods| && !ModuleShape(mods[k]) && forall m :: 0 <= m < k ==> ModuleShape(mods[m])
  }

  /** One directory per configured role, in configured order. */
  method PlanRoles(cacheDir: string, roles: seq<string>) returns (actions: seq<Action>)
    ensures |actions| == |roles|
    ensures forall k :: 0 <= k < |roles| ==> actions[k] == MakeDirs(RolePath(cacheDir, roles[k]))
  {
    actions := [];
    var i := 0;
    while i < |roles|
      invariant 0 <= i <= |roles|
      invariant |actions| == i
      invariant forall k :: 0 <= k < i ==> actions[k] == MakeDirs(RolePath(cacheDir, roles[k]))
    {
      actions := actions + [MakeDirs(RolePath(cacheDir, roles[i]))];
      i := i + 1;
    }
  }

  /** The `k`-th module's directory and stub sit at positions `2k` and `2k + 1`. */
  ghost predicate StubStepAt(cacheDir: string, mods: seq<string>, actions: seq<Action>, offset: int, k: int)
    requires 0 <= k < |mods| && 0 <= offset && offset + 2 * k + 1 < |actions|
  {
    && ModuleShape(mods[k])
    && actions[offset + 2 * k] == MakeDirs(PlanStub(cacheDir, mods[k]).value.dir)
    && actions[offset + 2 * k + 1] ==
         WriteStub(PlanStub(cacheDir, mods[k]).value.file, PlanStub(cacheDir, mods[k]).value.args)
  }

  lemma ExtendStubSteps(cacheDir: string, mods: seq<string>, prev: seq<Action>, next: seq<Action>, j: int)
    requires 0 <= j < |mods| && |prev| == 2 * j && ModuleShape(mods[j])
    requires forall k :: 0 <= k < j ==> StubStepAt(cacheDir, mods, prev, 0, k)
    requires next == prev + StubActions(PlanStub(cacheDir, mods[j]).value)
    ensures |next| == 2 * (j + 1)
    ensures forall k :: 0 <= k < j + 1 ==> StubStepAt(cacheDir, mods, next, 0, k)
  {
    forall k | 0 <= k < j + 1 ensures StubStepAt(cacheDir, mods, next, 0, k) {
      if k < j {
        assert StubStepAt(cacheDir, mods, prev, 0, k);
        assert next[2 * k] == prev[2 * k] && next[2 * k + 1] == prev[2 * k + 1];
      }
    }
  }

  /** Module steps planned from offset 0 stay in place when actions are put before and after them. */
  lemma ShiftStubSteps(cacheDir: string, mods: seq<string>, steps: seq<Action>,
                       before: seq<Action>, after: seq<Action>, all: seq<Action>)
    requires |steps| % 2 == 0 && |steps| <= 2 * |mods|
    requires forall k :: 0 <= k < |steps| / 2 ==> StubStepAt(cacheDir, mods, steps, 0, k)
    requires |after| == 0 || |steps| == 2 * |mods|
    requires all == before + steps + after
    ensures forall k :: 0 <= k < |mods| && |before| + 2 * k + 1 < |all| ==>
              StubStepAt(cacheDir, mods, all, |before|, k)
  {
    var n := |before|;
    assert forall i :: 0 <= i < |steps| ==> all[n + i] == steps[i];
    forall k | 0 <= k < |mods| && n + 2 * k + 1 < |all|
      ensures StubStepAt(cacheDir, mods, all, n, k)
    {
      assert 2 * k + 1 < |steps|;
      assert StubStepAt(cacheDir, mods, steps, 0, k);
    }
  }

  /** Every module with a planned step is valid. */
  lemma StepsValid(cacheDir: string, mods: seq<string>, actions: seq<Action>, j: int)
    requires 0 <= j <= |mods| && |actions| == 2 * j
    requires forall k :: 0 <= k < j ==> StubStepAt(cacheDir, mods, actions, 0, k)
    ensures forall k :: 0 <= k < j ==> ModuleShape(mods[k])
  {
    forall k | 0 <= k < j ensures ModuleShape(mods[k]) {
      assert StubStepAt(cacheDir, mods, actions, 0, k);
    }
  }

  /** Directory and stub for each configured module in order, stopping at the first invalid name. */
  method PlanModules(cacheDir: string, mods: seq<string>) returns (actions: seq<Action>, failure: Option<ConfigError>)
    ensures |actions| % 2 == 0 && |actions| <= 2 * |mods|
    ensures forall k :: 0 <= k < |actions| / 2 ==> StubStepAt(cacheDir, mods, actions, 0, k)
    ensures failure.None? <==> forall k :: 0 <= k < |mods| ==> ModuleShape(mods[k])
    ensures failure.None? ==> |actions| == 2 * |mods|
    ensures failure.Some? ==> FirstInvalid(mods, |actions| / 2)
                              && failure.value == InvalidModuleName(mods[|actions| / 2])
  {
    actions := [];
    var j := 0;
    while j < |mods|
      invariant 0 <= j <= |mods|
      invariant |actions| == 2 * j
      invariant forall k :: 0 <= k < j ==> StubStepAt(cacheDir, mods, actions, 0, k)
    {
      var plan := PlanStub(cacheDir, mods[j]);
      if plan.Failure? {
        StepsValid(cacheDir, mods, actions, j);
        return actions, Some(plan.error);
      }
      var next := actions + StubActions(plan.value);
      ExtendStubSteps(cacheDir, mods, actions, next, j);
      actions, j := next, j + 1;
    }
    StepsValid(cacheDir, mods, actions, j);
    failure := None;
  }

  /** Role directories in configured order, then each module's directory and stub in configured
      order, then the self-collection link. An invalid module name stops the run right after the
      modules before it. */
  method PerformMockings(cfg: Config, galaxy: GalaxyDoc) returns (out: Outcome)
    ensures |out.actions| >= |cfg.mockRoles|
    ensures forall k :: 0 <= k < |cfg.mockRoles| ==>
              out.actions[k] == MakeDirs(RolePath(cfg.cacheDir, cfg.mockRoles[k]))
    ensures forall k :: 0 <= k < |cfg.mockModules| && |cfg.mockRoles| + 2 * k + 1 < |out.actions| ==>
              StubStepAt(cfg.cacheDir, cfg.mockModules, out.actions, |cfg.mockRoles|, k)
    ensures out.Exited? <==> exists k :: 0 <= k < |cfg.mockModules| && !ModuleShape(cfg.mockModules[k])
    ensures out.Exited? ==> exists k :: FirstInvalid(cfg.mockModules, k)
                                        && out.error == InvalidModuleName(cfg.mockModules[k])
                                        && |out.actions| == |cfg.mockRoles| + 2 * k
    ensures out.Completed? ==>
              var link := LinkActions(SelfLink(cfg.cacheDir, cfg.projectDirAbsolute, galaxy));
              && |out.actions| == |cfg.mockRoles| + 2 * |cfg.mockModules| + |link|
              && out.actions[|cfg.mockRoles| + 2 * |cfg.mockModules|..] == link
  {
    var roleActions := PlanRoles(cfg.cacheDir, cfg.mockRoles);
    var moduleActions, failure := PlanModules(cfg.cacheDir, cfg.mockModules);
    var actions := roleActions + moduleActions;
    var n := |cfg.mockRoles|;
    if failure.Some? {
      out := Exited(actions, failure.value);
      ShiftStubSteps(cfg.cacheDir, cfg.mockModules, moduleActions, roleActions, [], actions);
      assert FirstInvalid(cfg.mockModules, |moduleActions| / 2);
    } else {
      var link := LinkActions(SelfLink(cfg.cacheDir, cfg.projectDirAbsolute, galaxy));
      out := Completed(actions + link);
      assert out.actions[n + 2 * |cfg.mockModules|..] == link;
      ShiftStubSteps(cfg.cacheDir, cfg.mockModules, moduleActions, roleActions, link, out.actions);
    }
  }
}
