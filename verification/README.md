# Mock setup for ansible-lint, modelled in Dafny

Before linting, ansible-lint builds a fake install tree under its cache directory so that
references to roles, modules and collections that are not installed still resolve. The helpers
in `src/ansiblelint/prerun.py` decide what goes into that tree:

- a role's fully qualified name (FQRN) from its `galaxy_info` metadata and the working
  directory's name (`_get_galaxy_role_ns`, `_get_galaxy_role_name`, `_get_role_fqrn`);
- for each mocked module, whether its identifier is valid, whether it is bare or
  collection-qualified, which directory to create, which stub file to write and which
  arguments the stub template receives (`_make_module_stub`, `_write_module_stub`);
- for each mocked role, which directory to create (`_perform_mockings`);
- whether to link the project into the collection tree as its own collection, and where.

The model keeps all of this decision logic and replaces each file-system call with an
`Action` value. `Mockings.PerformMockings` returns the actions in the order the source performs
them, or the actions taken before an invalid module name ends the run. The configuration comes
in as parameters: the cache directory, the absolute project directory, the role and module
lists, and the loaded `galaxy.yml`.

Layout:

- `results.dfy` (`Results`): `Option` and `Result`.
- `text.dfy` (`Text`): the `\w` class, Python's `str.split` / `str.join` for one-character
  separators, and their round-trip lemmas.
- `patterns.dfy` (`Patterns`): the three regular expressions. Each one appears twice: as a
  ghost "shape" predicate that spells out the decomposition the regex describes, and as an
  executable matcher. A lemma proves that the two agree.
- `galaxy_role.dfy` (`GalaxyRole`): namespace, role name and FQRN.
- `module_stub.dfy` (`ModuleStub`): module-identifier classification and stub planning.
- `mockings.dfy` (`Mockings`): role directories, the self-collection link and the whole pass.

## Behaviour as written

These points differ from what the names and comments suggest. The model follows the code.

- Without `namespace` or `author`, the namespace part is `"."`, so the FQRN is `".myrole"`, not
  `"myrole"` (`GalaxyRole.FqrnNoMetadataInDirectory`).
- Removing the pattern `(ansible-|ansible-role-)` from the directory name never uses the second alternative, because
  `ansible-` is tried first. `ansible-role-web` therefore becomes `role-web`, not `web`
  (`GalaxyRole.StripAnsibleRemovesAnsibleDash`, `GalaxyRole.FqrnFullNameInRoleDirectory`).
- The module regex ends in `[\.\w]+`, which admits empty pieces (`a.b..c`, `a.b.c.`). Distinct
  accepted identifiers can therefore share a stub file: `a.b.c` and `a.b..c` both map to
  `.../plugins/modules//c.py` (`ModuleStub.StubFileCollision`). Among identifiers without
  empty pieces, distinct identifiers get distinct stub paths (`ModuleStub.StubFileInjective`).
- Mocking a role or module of the project's own collection (say `acme.tools.r` when
  `galaxy.yml` names `acme` and `tools`) creates real directories under the path where the
  project is later linked. On an empty cache, `os.readlink` then fails on that directory at
  line 119 (`Mockings.OwnMocksUnderLinkPath`; see "## Left out").
- A three-piece identifier has an empty subpath, so its stub file contains `modules//`
  (`ModuleStub.ThreePieceStub`).
- `_get_galaxy_role_ns` always returns a string, so its `RuntimeError` branch is unreachable.
  The model's result type is `string`.

## Model

| member | source | states |
|---|---|---|
| `Text.Split` | src/ansiblelint/prerun.py:51 | `str.split` on one separator returns at least one piece, and no piece contains the separator |
| `Text.JoinSplit` | src/ansiblelint/prerun.py:51 | joining the pieces of a split with the same separator gives back the original string |
| `Text.SplitJoin` | src/ansiblelint/prerun.py:60 | splitting a join of separator-free pieces gives back exactly those pieces |
| `Patterns.AuthorLikeMatches` | src/ansiblelint/prerun.py:23 | the scanner accepts a string exactly when it starts with word characters, one space and a word character (`^\w+ \w+`) |
| `Patterns.CollectionRoleMatches` | src/ansiblelint/prerun.py:91 | a role name has exactly three dot-separated non-empty word pieces iff it matches `\w+\.\w+\.\w+$` from the start |
| `Patterns.ModuleNameMatches` | src/ansiblelint/prerun.py:50 | the piece-based matcher accepts exactly the strings that are one word, or two dotted words, a dot and one or more word-or-dot characters, as the anchored module regex does |
| `Patterns.ModuleNamePieceCount` | src/ansiblelint/prerun.py:50-52 | an accepted module name has 1 piece or at least 3, never 2, and it has 1 piece exactly when it is a bare word |
| `GalaxyRole.GalaxyRoleNs` | src/ansiblelint/prerun.py:16-29 | the namespace is `""` or ends in `.`; it is `""` exactly when the `namespace`-else-`author` value looks like a full name; otherwise it is that value followed by `.` |
| `GalaxyRole.StripAnsibleRemovesAnsibleDash` | src/ansiblelint/prerun.py:43 | the two-way substitution removes exactly the occurrences of `ansible-` found in one left-to-right pass; the `ansible-role-` alternative never fires |
| `GalaxyRole.StripAnsibleUnchanged` | src/ansiblelint/prerun.py:43 | the directory name is unchanged iff it contains no `ansible-`; otherwise it shrinks by at least the length of `ansible-` |
| `GalaxyRole.ChosenRoleName` | src/ansiblelint/prerun.py:40-43 | the role name is `role_name` when that is non-empty; otherwise it is the working directory's name with every `ansible-` removed in one left-to-right pass |
| `GalaxyRole.RoleFqrn` | src/ansiblelint/prerun.py:37-45 | when the namespace source looks like a full name the FQRN is the bare role name; otherwise it is the namespace source, a dot and the role name, whatever dots either contains |
| `GalaxyRole.FqrnSplitsIntoNamespaceAndName` | src/ansiblelint/prerun.py:37-45 | when the namespace value is kept and neither it nor the role name (`role_name`, else the stripped directory name) contains a dot, the FQRN splits on `.` into exactly that value and that name |
| `GalaxyRole.FqrnWithoutNamespace` | src/ansiblelint/prerun.py:18-26 | with neither namespace nor author, the FQRN is `"."` followed by the role name, never the bare name |
| `GalaxyRole.FqrnFullNameAuthor` | src/ansiblelint/prerun.py:23-24 | when the namespace source looks like a full name, the FQRN is the bare role name |
| `GalaxyRole.FqrnExplicitNamespace` | src/ansiblelint/prerun.py:37-45 | namespace `acme` and role name `web` give `acme.web` |
| `GalaxyRole.FqrnFullNameInRoleDirectory` | src/ansiblelint/prerun.py:37-45 | author `Jane Doe` with no role name, inside `ansible-role-web`, gives `role-web` |
| `GalaxyRole.FqrnNoMetadataInDirectory` | src/ansiblelint/prerun.py:37-45 | empty metadata inside `myrole` gives `.myrole` |
| `GalaxyRole.StripRoleWeb` | src/ansiblelint/prerun.py:43 | the substitution turns `ansible-role-web` into `role-web` |
| `ModuleStub.Classify` | src/ansiblelint/prerun.py:50-61 | classification succeeds iff the name matches the module regex; on failure the error names the module |
| `ModuleStub.ClassifySound` | src/ansiblelint/prerun.py:50-61 | an accepted name classifies to a valid identifier whose pieces are the name's dot pieces and which renders back to the name |
| `ModuleStub.ClassifyRender` | src/ansiblelint/prerun.py:50-61 | every valid bare or qualified identifier, once rendered, classifies back to itself |
| `ModuleStub.PlanStub` | src/ansiblelint/prerun.py:48-71 | succeeds iff the name is valid; the directory is under `cache_dir/`; the file is the directory plus `/<last piece>.py`; the template `name` is the file; namespace and collection are each unset iff the name has one piece, and are otherwise the first two pieces |
| `ModuleStub.BareStub` | src/ansiblelint/prerun.py:52-56 | a bare name `m` plans directory `cache/modules`, file `cache/modules/m.py` and no namespace or collection |
| `ModuleStub.QualifiedStub` | src/ansiblelint/prerun.py:57-68 | a qualified name plans `cache/collections/ansible_collections/ns/coll/plugins/modules/` plus the middle pieces joined by `/`, the file `<dir>/<last>.py`, and template arguments naming the namespace and the collection |
| `ModuleStub.StubFileInjective` | src/ansiblelint/prerun.py:53-61 | two accepted names without empty pieces that get the same stub file are the same name |
| `ModuleStub.StubFileCollision` | src/ansiblelint/prerun.py:50-61 | `a.b.c` and `a.b..c` are both accepted and get the same stub file |
| `ModuleStub.ThreePieceStub` | src/ansiblelint/prerun.py:60-61 | `a.b.c` is stubbed at `.../a/b/plugins/modules//c.py` |
| `ModuleStub.InvalidCharacterRefused` | src/ansiblelint/prerun.py:69-71 | `1bad!name` is refused with the invalid-module-name error |
| `Mockings.RolePath` | src/ansiblelint/prerun.py:90-95 | a role name of three dotted words maps to `cache/collections/ansible_collections/ns/coll/roles/role/`; any other name maps to `cache/roles/<name>` verbatim |
| `Mockings.NonTripleRoleIsBare` | src/ansiblelint/prerun.py:91-95 | names with other than three dot pieces, such as `a.b` and `a.b.c.d`, go under `cache/roles/` |
| `Mockings.RolePathInjective` | src/ansiblelint/prerun.py:90-95 | distinct role names get distinct mock path strings (the file system may still treat two of them as one directory, such as `x` and `x/`) |
| `Mockings.SelfLink` | src/ansiblelint/prerun.py:102-118 | a link is planned iff `galaxy.yml` exists and has non-empty `namespace` and `name`; it is `<cache>/collections/ansible_collections/<namespace>/<name>`, in the directory created for it, and points at the absolute project directory |
| `Mockings.OwnMocksUnderLinkPath` | src/ansiblelint/prerun.py:90-96 | a mocked role or module of the project's own collection is created under the link path (as `<link>/roles/r/` or `<link>/plugins/modules/`), so a real directory sits where line 119 expects a symlink or nothing |
| `Mockings.PlanRoles` | src/ansiblelint/prerun.py:90-96 | one directory action per configured role, in configured order |
| `Mockings.PlanModules` | src/ansiblelint/prerun.py:98-100 | a directory and a stub for each module in order; stops at the first invalid name and reports it; otherwise covers every module |
| `Mockings.PerformMockings` | src/ansiblelint/prerun.py:88-122 | all role directories come first; then module stubs in order; the run exits iff some module name is invalid, right after the valid names before the first invalid one; a completed run ends with exactly the self-link actions |

## Left out

- File-system effects (`os.makedirs`, `open`/`write`, `mkdir`, `exists`, `readlink`, `unlink`,
  `symlink_to`) are returned as `MakeDirs`, `WriteStub` and `Relink` actions. They are not
  performed.
- Mockings.SelfLink: the decision at line 119 is not modelled. It depends on the file system and
  on comparing a `str` from `os.readlink` with a `pathlib.Path`. `Relink` only records that the
  source reaches line 119 for this link path and target; it does not promise that the link gets
  made. When the link path exists and is not a symlink, `os.readlink` raises `OSError` at line
  119 and the run crashes. The plan produces exactly this whenever a mocked role or module
  belongs to the project's own collection: its `MakeDirs` creates real directories under the
  link path before `Relink` (see `Mockings.OwnMocksUnderLinkPath`). If a symlink is already
  there, those directories are written through it into the project directory. The model makes
  no claim of idempotence or self-healing.
- Mockings.SelfLink: paths are plain string concatenations. pathlib's normalisation is not
  modelled: collapsing repeated slashes, and an absolute `name` replacing the directory.
- `yaml_from_file`, the global `options`, `pathlib.Path(".").absolute()` (line 42) and
  `pathlib.Path(options.project_dir).absolute()` (line 118) are parameters. They are the
  `GalaxyDoc` value, the `Config` fields, the `cwdName` argument (the name of the current
  directory) and `projectDirAbsolute` respectively.
- Mockings.SelfLink: `galaxy.yml` values are strings. Non-string YAML values are not modelled.
  Neither are other falsy documents; an empty map stands for any falsy document.
- GalaxyRole.RoleMeta: metadata values are optional strings. A non-string `namespace` or
  `author` would raise a `TypeError` in `len` or `re.match`. That case is not modelled.
- `_logger.error` and `sys.exit(INVALID_CONFIG_RC)` become the `Exited` outcome carrying
  `InvalidModuleName`. The numeric value of `INVALID_CONFIG_RC` lives in
  `src/ansiblelint/constants.py`, which is not part of this model.
- The text of `ANSIBLE_MOCKED_MODULE` is not modelled, only the keyword arguments passed to
  `.format`.
- Regex details: `\w` is ASCII `[A-Za-z0-9_]`, not Unicode. `$` anchors at the end of the
  string, not before a trailing newline.
- ModuleStub.StubFileInjective: proved only for identifiers without empty pieces, because the
  code admits colliding identifiers (see `ModuleStub.StubFileCollision`).
