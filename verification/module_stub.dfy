/** Mocked modules: classifying a configured module identifier and computing where its
    placeholder source file goes and what the template is given. */
module ModuleStub {
  import opened Results
  import opened Text
  import opened Patterns

  /** The only fatal configuration error; the process exits with `INVALID_CONFIG_RC`. */
  datatype ConfigError = InvalidModuleName(name: string)

  /** An accepted module identifier: a bare name, or `namespace.collection.[subpath.]stem`. */
  datatype ModuleId =
    | Bare(name: string)
    | Qualified(namespace: string, collection: string, subpath: seq<string>, stem: string)
  {
    /** The dot-separated pieces of the identifier, in order. */
    function Pieces(): seq<string> {
      match this
      case Bare(n) => [n]
      case Qualified(ns, coll, sub, stem) => [ns, coll] + sub + [stem]
    }

    /** The identifier as written in the configuration. */
    function Render(): string {
      Join(Pieces(), '.')
    }

    /** The identifiers the module-name regex admits. */
    ghost predicate Valid() {
      match this
      case Bare(n) => IsWordRun(n)
      case Qualified(ns, coll, sub, stem) =>
        && IsWordRun(ns) && IsWordRun(coll)
        && (forall k :: 0 <= k < |sub| ==> AllWordChars(sub[k]))
        && AllWordChars(stem)
        && (|sub| > 0 || |stem| > 0)
    }
  }

  /** Validates `name` against the module-name regex and sorts it by its number of pieces. */
  function Classify(name: string): (r: Result<ModuleId, ConfigError>)
    ensures r.Success? <==> ModuleShape(name)
    ensures r.Failure? ==> r.error == InvalidModuleName(name)
  {
    ModuleNameMatches(name);
    if !IsModuleName(name) then Failure(InvalidModuleName(name))
    else
      var p := Split(name, '.');
      if |p| < 3 then Success(Bare(name))
      else Success(Qualified(p[0], p[1], p[2..|p| - 1], p[|p| - 1]))
  }

  /** An accepted identifier is valid, its pieces are those of the name, and it renders back
      to the name it came from. */
  lemma ClassifySound(name: string)
    requires ModuleShape(name)
    ensures Classify(name).Success?
    ensures Classify(name).value.Valid()
    ensures Classify(name).value.Pieces() == Split(name, '.')
    ensures Classify(name).value.Render() == name
  {
    if |Split(name, '.')| < 3 {
      ClassifyBareSound(name);
    } else {
      ClassifyQualifiedSound(name);
    }
  }

  /** `ClassifySound` for a name with fewer than three pieces. */
  lemma ClassifyBareSound(name: string)
    requires ModuleShape(name) && |Split(name, '.')| < 3
    ensures Classify(name) == Success(Bare(name))
    ensures Bare(name).Valid() && Bare(name).Pieces() == Split(name, '.')
  {
    ModuleNameMatches(name);
    ModuleNamePieceCount(name);
    JoinSplit(name, '.');
  }

  /** `ClassifySound` for a name with three or more pieces. */
  lemma ClassifyQualifiedSound(name: string)
    requires ModuleShape(name) && |Split(name, '.')| >= 3
    ensures Classify(name).Success? && Classify(name).value.Qualified?
    ensures Classify(name).value.Valid()
    ensures Classify(name).value.Pieces() == Split(name, '.')
    ensures Classify(name).value.Render() == name
  {
    ModuleNameMatches(name);
    var p := Split(name, '.');
    var id := Qualified(p[0], p[1], p[2..|p| - 1], p[|p| - 1]);
    assert Classify(name) == Success(id);
    PiecesAreWords(name);
    forall k | 0 <= k < |id.subpath| ensures AllWordChars(id.subpath[k]) {
      assert id.subpath[k] == p[k + 2];
    }
    Regroup(p);
    JoinSplit(name, '.');
  }

  /** A sequence of at least three pieces is its first two, its middle and its last. */
  lemma Regroup(p: seq<string>)
    requires |p| >= 3
    ensures [p[0], p[1]] + p[2..|p| - 1] + [p[|p| - 1]] == p
  {
    assert p == p[..2] + p[2..|p| - 1] + p[|p| - 1..];
  }

  /** Every dot piece of a string of word characters and dots is made of word characters. */
  lemma PiecesAreWords(name: string)
    requires AllWordOrDot(name)
    ensures forall k :: 0 <= k < |Split(name, '.')| ==> AllWordChars(Split(name, '.')[k])
  {
    JoinSplit(name, '.');
    JoinWordOrDot(Split(name, '.'));
  }

  /** Every valid identifier is accepted and classified as itself. */
  lemma ClassifyRender(id: ModuleId)
    requires id.Valid()
    ensures Classify(id.Render()) == Success(id)
  {
    var p := id.Pieces();
    var s := id.Render();
    forall k | 0 <= k < |p| ensures AllWordChars(p[k]) && '.' !in p[k] {
      if id.Qualified? && 2 <= k < |p| - 1 {
        assert p[k] == id.subpath[k - 2];
      }
      WordCharsExclude(p[k]);
    }
    SplitJoin(p, '.');
    JoinWordOrDot(p);
    ModuleNameMatches(s);
    if id.Qualified? {
      assert p[2..|p| - 1] == id.subpath;
      if |id.subpath| == 0 {
        assert p[2] == id.stem;
      }
    }
  }

  /** What `_write_module_stub` receives besides the file name: the keyword arguments
      given to the stub template. */
  datatype TemplateArgs = TemplateArgs(name: string, namespace: Option<string>, collection: Option<string>)

  /** Directory to create, file to write, and template arguments for one mocked module. */
  datatype StubWrite = StubWrite(dir: string, file: string, args: TemplateArgs)

  const CollectionsRoot: string := "/collections/ansible_collections/"

  /** The stub directory below the cache directory. */
  function StubDirTail(id: ModuleId): (t: string)
    ensures |t| > 0 && t[0] == '/'
  {
    match id
    case Bare(_) => "/modules"
    case Qualified(ns, coll, sub, _) =>
      CollectionsRoot + (ns + "/" + (coll + "/plugins/modules/" + Join(sub, '/')))
  }

  /** The file stem: the whole bare name, or the last piece of a qualified one. */
  function Stem(id: ModuleId): string {
    match id
    case Bare(n) => n
    case Qualified(_, _, _, stem) => stem
  }

  function StubFor(cacheDir: string, id: ModuleId): StubWrite {
    var dir := cacheDir + StubDirTail(id);
    var file := dir + "/" + Stem(id) + ".py";
    match id
    case Bare(_) => StubWrite(dir, file, TemplateArgs(file, None, None))
    case Qualified(ns, coll, _, _) => StubWrite(dir, file, TemplateArgs(file, Some(ns), Some(coll)))
  }

  /** `_make_module_stub` up to its file-system calls: the planned stub, or the
      configuration error that ends the run. */
  function PlanStub(cacheDir: string, name: string): (r: Result<StubWrite, ConfigError>)
    ensures r.Success? <==> ModuleShape(name)
    ensures r.Failure? ==> r.error == InvalidModuleName(name)
    ensures r.Success? ==>
              var p := Split(name, '.');
              && StartsWith(r.value.dir, cacheDir + "/")
              && r.value.file == r.value.dir + "/" + p[|p| - 1] + ".py"
              && r.value.args.name == r.value.file
              && (r.value.args.namespace.None? <==> |p| == 1)
              && (r.value.args.collection.None? <==> |p| == 1)
              && (r.value.args.namespace.Some? ==>
                    r.value.args.namespace.value == p[0] && r.value.args.collection == Some(p[1]))
  {
    match Classify(name)
    case Failure(e) => Failure(e)
    case Success(id) =>
      ClassifySound(name);
      assert (cacheDir + StubDirTail(id))[..|cacheDir| + 1] == cacheDir + "/";
      Success(StubFor(cacheDir, id))
  }

  /** A bare name `m` is stubbed as `<cache>/modules/m.py` with no namespace or collection. */
  lemma BareStub(cacheDir: string, name: string)
    requires IsWordRun(name)
    ensures PlanStub(cacheDir, name) ==
            Success(StubWrite(cacheDir + "/modules", cacheDir + "/modules/" + name + ".py",
                              TemplateArgs(cacheDir + "/modules/" + name + ".py", None, None)))
  {
    ClassifySound(name);
    ModuleNamePieceCount(name);
    assert Classify(name) == Success(Bare(name));
    assert cacheDir + "/modules" + "/" + name + ".py" == cacheDir + "/modules/" + name + ".py";
  }

  /** A qualified name `ns.coll.p2...pn` is stubbed in
      `<cache>/collections/ansible_collections/ns/coll/plugins/modules/p2/.../p(n-1)` as `pn.py`. */
  lemma QualifiedStub(cacheDir: string, name: string)
    requires ModuleShape(name) && |Split(name, '.')| >= 3
    ensures var p := Split(name, '.');
            var dir := cacheDir + CollectionsRoot + p[0] + "/" + p[1] + "/plugins/modules/"
                       + Join(p[2..|p| - 1], '/');
            var file := dir + "/" + p[|p| - 1] + ".py";
            PlanStub(cacheDir, name) == Success(StubWrite(dir, file, TemplateArgs(file, Some(p[0]), Some(p[1]))))
  {
    ClassifySound(name);
    var p := Split(name, '.');
    var ns, coll, j := p[0], p[1], Join(p[2..|p| - 1], '/');
    Regroup6(cacheDir, CollectionsRoot, ns, "/", coll, "/plugins/modules/", j);
  }

  /** Regrouping a right-nested concatenation of seven strings to the left. */
  lemma Regroup6(a: string, b: string, c: string, d: string, e: string, f: string, g: string)
    ensures a + (b + (c + d + (e + f + g))) == a + b + c + d + e + f + g
  {
    assert c + d + (e + f + g) == c + d + e + f + g;
  }

  // ---- distinct identifiers and their stub files ----

  /** No piece of the identifier is empty: no leading, trailing or doubled dot. */
  ghost predicate NoEmptyPieces(name: string) {
    forall k :: 0 <= k < |Split(name, '.')| ==> |Split(name, '.')[k]| > 0
  }

  /** The stub file path between the cache directory and the `.py` suffix. */
  function StubKey(id: ModuleId): string {
    StubDirTail(id) + "/" + Stem(id)
  }

  lemma StubFileKey(cacheDir: string, id: ModuleId)
    ensures StubFor(cacheDir, id).file == cacheDir + StubKey(id) + ".py"
  {
    var t, m := StubDirTail(id), Stem(id);
    assert cacheDir + t + "/" + m + ".py" == cacheDir + (t + "/" + m) + ".py";
  }

  /** The second character of the key tells the two layouts apart (`/modules` versus `/collections`). */
  lemma StubKeyKind(id: ModuleId)
    ensures |StubKey(id)| > 1
    ensures StubKey(id)[1] == (if id.Bare? then 'm' else 'c')
  {
  }

  /** The subpath pieces and the stem as one slash-joined list: a 3-piece identifier has an
      empty subpath, which leaves an empty piece before the stem. */
  function Trail(sub: seq<string>, stem: string): seq<string> {
    if |sub| == 0 then ["", stem] else sub + [stem]
  }

  lemma TrailJoin(sub: seq<string>, stem: string)
    ensures Join(sub, '/') + "/" + stem == Join(Trail(sub, stem), '/')
  {
    if |sub| > 0 {
      JoinSnoc(sub, stem, '/');
    } else {
      assert Trail(sub, stem)[1..] == [stem];
    }
  }

  /** With non-empty, slash-free pieces, the subpath and stem are recovered from the joined path. */
  lemma TrailInjective(sub1: seq<string>, stem1: string, sub2: seq<string>, stem2: string)
    requires forall k :: 0 <= k < |sub1| ==> |sub1[k]| > 0 && '/' !in sub1[k]
    requires forall k :: 0 <= k < |sub2| ==> |sub2[k]| > 0 && '/' !in sub2[k]
    requires '/' !in stem1 && '/' !in stem2
    requires Join(sub1, '/') + "/" + stem1 == Join(sub2, '/') + "/" + stem2
    ensures sub1 == sub2 && stem1 == stem2
  {
    var t1, t2 := Trail(sub1, stem1), Trail(sub2, stem2);
    TrailJoin(sub1, stem1);
    TrailJoin(sub2, stem2);
    SplitJoin(t1, '/');
    SplitJoin(t2, '/');
    assert t1 == t2;
    assert |sub1| == 0 <==> t1[0] == "";
    assert |sub2| == 0 <==> t2[0] == "";
    if |sub1| > 0 {
      assert sub1 == t1[..|t1| - 1];
      assert sub2 == t2[..|t2| - 1];
    }
  }

  /** The key of a qualified identifier, grouped at its separators. */
  lemma QualifiedKeyShape(id: ModuleId)
    requires id.Qualified?
    ensures StubKey(id)[|CollectionsRoot|..] ==
            id.namespace + ['/'] + (id.collection + ['/'] +
              ("plugins/modules/" + (Join(id.subpath, '/') + "/" + id.stem)))
  {
  }

  /** The subpath pieces of a valid qualified identifier without empty pieces are non-empty and slash-free. */
  lemma SubpathPieces(id: ModuleId)
    requires id.Valid() && id.Qualified?
    requires forall k :: 0 <= k < |id.Pieces()| ==> |id.Pieces()[k]| > 0
    ensures forall k :: 0 <= k < |id.subpath| ==> |id.subpath[k]| > 0 && '/' !in id.subpath[k]
    ensures '/' !in id.stem && '/' !in id.namespace && '/' !in id.collection
  {
    forall k | 0 <= k < |id.subpath| ensures |id.subpath[k]| > 0 && '/' !in id.subpath[k] {
      assert id.subpath[k] == id.Pieces()[k + 2];
      WordCharsExclude(id.subpath[k]);
    }
    WordCharsExclude(id.stem);
    WordCharsExclude(id.namespace);
    WordCharsExclude(id.collection);
  }

  lemma QualifiedKeyInjective(id1: ModuleId, id2: ModuleId)
    requires id1.Valid() && id2.Valid() && id1.Qualified? && id2.Qualified?
    requires forall k :: 0 <= k < |id1.Pieces()| ==> |id1.Pieces()[k]| > 0
    requires forall k :: 0 <= k < |id2.Pieces()| ==> |id2.Pieces()[k]| > 0
    requires StubKey(id1) == StubKey(id2)
    ensures id1 == id2
  {
    var z1 := Join(id1.subpath, '/') + "/" + id1.stem;
    var z2 := Join(id2.subpath, '/') + "/" + id2.stem;
    QualifiedKeyShape(id1);
    QualifiedKeyShape(id2);
    SubpathPieces(id1);
    SubpathPieces(id2);
    CancelAtSeparator(id1.namespace, id1.collection + ['/'] + ("plugins/modules/" + z1),
                      id2.namespace, id2.collection + ['/'] + ("plugins/modules/" + z2), '/');
    CancelAtSeparator(id1.collection, "plugins/modules/" + z1,
                      id2.collection, "plugins/modules/" + z2, '/');
    assert z1 == ("plugins/modules/" + z1)[16..];
    assert z2 == ("plugins/modules/" + z2)[16..];
    TrailInjective(id1.subpath, id1.stem, id2.subpath, id2.stem);
  }

  /** A valid identifier whose pieces are all non-empty has a distinct stub key. */
  lemma StubKeyInjective(id1: ModuleId, id2: ModuleId)
    requires id1.Valid() && id2.Valid()
    requires forall k :: 0 <= k < |id1.Pieces()| ==> |id1.Pieces()[k]| > 0
    requires forall k :: 0 <= k < |id2.Pieces()| ==> |id2.Pieces()[k]| > 0
    requires StubKey(id1) == StubKey(id2)
    ensures id1 == id2
  {
    StubKeyKind(id1);
    StubKeyKind(id2);
    if id1.Bare? {
      assert StubKey(id1)[9..] == id1.name;
      assert StubKey(id2)[9..] == id2.name;
    } else {
      QualifiedKeyInjective(id1, id2);
    }
  }

  /** Distinct accepted identifiers without empty pieces get distinct stub files. */
  lemma StubFileInjective(cacheDir: string, name1: string, name2: string)
    requires ModuleShape(name1) && ModuleShape(name2)
    requires NoEmptyPieces(name1) && NoEmptyPieces(name2)
    requires PlanStub(cacheDir, name1).value.file == PlanStub(cacheDir, name2).value.file
    ensures name1 == name2
  {
    ClassifySound(name1);
    ClassifySound(name2);
    var id1, id2 := Classify(name1).value, Classify(name2).value;
    StubFileKey(cacheDir, id1);
    StubFileKey(cacheDir, id2);
    var f := cacheDir + StubKey(id1) + ".py";
    assert StubKey(id1) == f[|cacheDir|..|f| - 3];
    assert StubKey(id2) == f[|cacheDir|..|f| - 3];
    StubKeyInjective(id1, id2);
  }

  // ---- worked identifiers ----

  lemma SplitABC()
    ensures Split("a.b.c", '.') == ["a", "b", "c"]
  {
    SplitDotted3("a", "b", "c");
    assert Dotted3("a", "b", "c") == "a.b.c";
  }

  lemma SplitABDotC()
    ensures Split("a.b..c", '.') == ["a", "b", "", "c"]
  {
    SplitAtFirst("a", '.', "b..c");
    SplitAtFirst("b", '.', ".c");
    SplitAtFirst("", '.', "c");
    SplitWithoutSeparator("c", '.');
    assert "a" + ['.'] + "b..c" == "a.b..c";
    assert "b" + ['.'] + ".c" == "b..c";
    assert "" + ['.'] + "c" == ".c";
  }

  /** The stub file of an identifier `ns.coll.x` with an empty subpath. */
  lemma EmptySubpathFile(cacheDir: string, name: string, ns: string, coll: string, stem: string)
    requires ModuleShape(name)
    requires |Split(name, '.')| >= 3
    requires Split(name, '.')[0] == ns && Split(name, '.')[1] == coll
    requires Split(name, '.')[|Split(name, '.')| - 1] == stem
    requires Join(Split(name, '.')[2..|Split(name, '.')| - 1], '/') == ""
    ensures PlanStub(cacheDir, name).value.file
            == cacheDir + CollectionsRoot + ns + "/" + coll + "/plugins/modules/" + "/" + stem + ".py"
  {
  }

  /** The file path of the two colliding identifiers below. */
  function DoubleSlashFile(cacheDir: string): string {
    cacheDir + CollectionsRoot + "a" + "/" + "b" + "/plugins/modules/" + "/" + "c" + ".py"
  }

  lemma ThreePieceStub(cacheDir: string)
    ensures ModuleShape("a.b.c")
    ensures PlanStub(cacheDir, "a.b.c").value.file == DoubleSlashFile(cacheDir)
  {
    assert QualifiedShapeAt("a.b.c", 1, 3);
    SplitABC();
    assert Split("a.b.c", '.')[2..2] == [];
    EmptySubpathFile(cacheDir, "a.b.c", "a", "b", "c");
  }

  lemma EmptyPieceStub(cacheDir: string)
    ensures ModuleShape("a.b..c")
    ensures PlanStub(cacheDir, "a.b..c").value.file == DoubleSlashFile(cacheDir)
  {
    assert QualifiedShapeAt("a.b..c", 1, 3);
    SplitABDotC();
    assert Split("a.b..c", '.')[2..3] == [""];
    EmptySubpathFile(cacheDir, "a.b..c", "a", "b", "c");
  }

  /** `a.b.c` and `a.b..c` are both accepted and share one stub file: the empty subpath of a
      three-piece identifier and the empty piece of `a.b..c` both leave `modules//c.py`. */
  lemma StubFileCollision(cacheDir: string)
    ensures ModuleShape("a.b.c") && ModuleShape("a.b..c")
    ensures PlanStub(cacheDir, "a.b.c").value.file == PlanStub(cacheDir, "a.b..c").value.file
  {
    ThreePieceStub(cacheDir);
    EmptyPieceStub(cacheDir);
  }

  /** A module identifier with an invalid character is refused. */
  lemma InvalidCharacterRefused(cacheDir: string)
    ensures PlanStub(cacheDir, "1bad!name") == Failure(InvalidModuleName("1bad!name"))
  {
    assert !IsWordOrDot("1bad!name"[4]);
    assert !IsModuleName("1bad!name");
    ModuleNameMatches("1bad!name");
  }
}
