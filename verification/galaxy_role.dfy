/** Fully qualified role names computed from a role's `meta/main.yml`
    `galaxy_info` block and from the name of the working directory. */
module GalaxyRole {
  import opened Results
  import opened Text
  import opened Patterns

  /** The `galaxy_info` keys consulted; `None` is a missing key. */
  datatype RoleMeta = RoleMeta(namespace: Option<string>, author: Option<string>, roleName: Option<string>)

  /** The value the namespace is derived from: `namespace` when non-empty, else `author`, else "". */
  function NamespaceSource(meta: RoleMeta): string {
    var ns := meta.namespace.GetOr("");
    if |ns| == 0 then meta.author.GetOr("") else ns
  }

  /** The namespace part of a role name, with its trailing dot. A value that looks like a
      person's full name (a word, a space, a word) is treated as no namespace at all. */
  function GalaxyRoleNs(meta: RoleMeta): (r: string)
    ensures r == "" || r[|r| - 1] == '.'
    ensures r == "" <==> AuthorShape(NamespaceSource(meta))
    ensures r != "" ==> r == NamespaceSource(meta) + "."
  {
    var ns := NamespaceSource(meta);
    AuthorLikeMatches(ns);
    if IsAuthorLike(ns) then "" else ns + "."
  }

  /** The role name recorded in the metadata, or "". */
  function GalaxyRoleName(meta: RoleMeta): string {
    meta.roleName.GetOr("")
  }

  const AnsibleDash: string := "ansible-"
  const AnsibleRoleDash: string := "ansible-role-"

  /** `pat` occurs in `s` starting at index `i`. */
  ghost predicate OccursAt(s: string, pat: string, i: int) {
    0 <= i && i + |pat| <= |s| && s[i..i + |pat|] == pat
  }

  /** An occurrence at index 0 is the same thing as a prefix. */
  lemma OccursAtStart(s: string, pat: string)
    ensures OccursAt(s, pat, 0) <==> StartsWith(s, pat)
  {
  }

  /** `s` contains `pat` somewhere. */
  ghost predicate Occurs(s: string, pat: string) {
    exists i :: OccursAt(s, pat, i)
  }

  /** Substitution of the pattern `(ansible-|ansible-role-)` by nothing: a left-to-right scan that drops every
      match of the alternation, trying `ansible-` before `ansible-role-`. */
  function StripAnsible(s: string): (r: string)
    ensures |r| <= |s|
    decreases |s|
  {
    if |s| == 0 then ""
    else if StartsWith(s, AnsibleDash) then StripAnsible(s[|AnsibleDash|..])
    else if StartsWith(s, AnsibleRoleDash) then StripAnsible(s[|AnsibleRoleDash|..])
    else [s[0]] + StripAnsible(s[1..])
  }

  /** Every occurrence of `pat` removed in one left-to-right pass. */
  function RemoveAll(s: string, pat: string): string
    requires |pat| > 0
    decreases |s|
  {
    if |s| == 0 then ""
    else if StartsWith(s, pat) then RemoveAll(s[|pat|..], pat)
    else [s[0]] + RemoveAll(s[1..], pat)
  }

  /** The `ansible-role-` alternative never fires: `ansible-` is its prefix and is tried first,
      so the substitution only ever removes `ansible-`. */
  lemma {:induction false} StripAnsibleRemovesAnsibleDash(s: string)
    ensures StripAnsible(s) == RemoveAll(s, AnsibleDash)
    decreases |s|
  {
    if |s| > 0 {
      if StartsWith(s, AnsibleDash) {
        StripAnsibleRemovesAnsibleDash(s[|AnsibleDash|..]);
      } else {
        RoleDashStartsWithDash(s);
        StripAnsibleRemovesAnsibleDash(s[1..]);
      }
    }
  }

  /** Anything that starts with `ansible-role-` starts with `ansible-`. */
  lemma RoleDashStartsWithDash(s: string)
    ensures StartsWith(s, AnsibleRoleDash) ==> StartsWith(s, AnsibleDash)
  {
  }

  /** The directory name is returned unchanged exactly when it does not contain `ansible-`;
      otherwise at least one whole `ansible-` is removed. */
  lemma {:induction false} StripAnsibleUnchanged(s: string)
    ensures !Occurs(s, AnsibleDash) <==> StripAnsible(s) == s
    ensures Occurs(s, AnsibleDash) ==> |StripAnsible(s)| <= |s| - |AnsibleDash|
    decreases |s|
  {
    if |s| > 0 {
      if StartsWith(s, AnsibleDash) {
        assert OccursAt(s, AnsibleDash, 0);
        StripAnsibleUnchanged(s[|AnsibleDash|..]);
      } else {
        RoleDashStartsWithDash(s);
        var t := s[1..];
        StripAnsibleUnchanged(t);
        assert StripAnsible(s) == [s[0]] + StripAnsible(t);
        if Occurs(t, AnsibleDash) {
          var i :| OccursAt(t, AnsibleDash, i);
          assert s[i + 1..i + 1 + |AnsibleDash|] == t[i..i + |AnsibleDash|];
          assert OccursAt(s, AnsibleDash, i + 1);
        }
        if Occurs(s, AnsibleDash) {
          var i :| OccursAt(s, AnsibleDash, i);
          assert i != 0;
          assert t[i - 1..i - 1 + |AnsibleDash|] == s[i..i + |AnsibleDash|];
          assert OccursAt(t, AnsibleDash, i - 1);
        } else {
          assert [s[0]] + t == s;
        }
      }
    }
  }

  /** The role name: `role_name` when non-empty, else the working directory's name with
      `ansible-` removed. */
  function ChosenRoleName(meta: RoleMeta, cwdName: string): (r: string)
    ensures |GalaxyRoleName(meta)| > 0 ==> r == GalaxyRoleName(meta)
    ensures |GalaxyRoleName(meta)| == 0 ==> r == RemoveAll(cwdName, AnsibleDash)
  {
    StripAnsibleRemovesAnsibleDash(cwdName);
    var name := GalaxyRoleName(meta);
    if |name| == 0 then StripAnsible(cwdName) else name
  }

  /** The fully qualified role name: the namespace part (with its dot, or nothing) followed
      directly by the role name. */
  function RoleFqrn(meta: RoleMeta, cwdName: string): (r: string)
    ensures AuthorShape(NamespaceSource(meta)) ==> r == ChosenRoleName(meta, cwdName)
    ensures !AuthorShape(NamespaceSource(meta)) ==>
              r == NamespaceSource(meta) + "." + ChosenRoleName(meta, cwdName)
  {
    GalaxyRoleNs(meta) + ChosenRoleName(meta, cwdName)
  }

  /** When the namespace value is kept and neither it nor the role name contains a dot, the FQRN
      splits back into exactly those two pieces; an empty namespace value gives an empty first
      piece, so the FQRN is "." followed by the role name. */
  lemma FqrnSplitsIntoNamespaceAndName(meta: RoleMeta, cwdName: string)
    requires !AuthorShape(NamespaceSource(meta))
    requires '.' !in NamespaceSource(meta) && '.' !in ChosenRoleName(meta, cwdName)
    ensures Split(RoleFqrn(meta, cwdName), '.') == [NamespaceSource(meta), ChosenRoleName(meta, cwdName)]
  {
    var v, name := NamespaceSource(meta), ChosenRoleName(meta, cwdName);
    assert RoleFqrn(meta, cwdName) == v + ['.'] + name;
    SplitAtFirst(v, '.', name);
    SplitWithoutSeparator(name, '.');
  }

  /** Metadata without a usable namespace or author still contributes the dot: the result is
      "." followed by the role name, never the bare role name. */
  lemma FqrnWithoutNamespace(meta: RoleMeta, cwdName: string)
    requires meta.namespace.GetOr("") == "" && meta.author.GetOr("") == ""
    ensures RoleFqrn(meta, cwdName) == "." + ChosenRoleName(meta, cwdName)
  {
    AuthorLikeMatches("");
  }

  /** A namespace or author that looks like a full name contributes nothing, not even the dot. */
  lemma FqrnFullNameAuthor(meta: RoleMeta, cwdName: string)
    requires AuthorShape(NamespaceSource(meta))
    ensures RoleFqrn(meta, cwdName) == ChosenRoleName(meta, cwdName)
  {
  }

  /** An explicit namespace and role name are joined with a dot. */
  lemma FqrnExplicitNamespace()
    ensures RoleFqrn(RoleMeta(Some("acme"), None, Some("web")), "ignored") == "acme.web"
  {
    assert LeadingWordLength("acme") == 4 by {
      assert LeadingWordLength("acme"[1..][1..][1..][1..]) == 0;
    }
    AuthorLikeMatches("acme");
  }

  /** An author given as a full name inside directory `ansible-role-web`: only `ansible-` is
      stripped from the directory name, giving `role-web`. */
  lemma FqrnFullNameInRoleDirectory()
    ensures RoleFqrn(RoleMeta(Some(""), Some("Jane Doe"), None), "ansible-role-web") == "role-web"
  {
    assert LeadingWordLength("Jane Doe") == 4 by {
      assert LeadingWordLength("Jane Doe"[1..][1..][1..][1..]) == 0;
    }
    AuthorLikeMatches("Jane Doe");
    FqrnFullNameAuthor(RoleMeta(Some(""), Some("Jane Doe"), None), "ansible-role-web");
    StripRoleWeb();
  }

  /** The substitution turns `ansible-role-web` into `role-web`. */
  lemma StripRoleWeb()
    ensures StripAnsible("ansible-role-web") == "role-web"
  {
    assert StartsWith("ansible-role-web", AnsibleDash);
    assert "ansible-role-web"[8..] == "role-web";
    StripAnsibleUnchanged("role-web");
  }

  /** Neither namespace nor author inside directory `myrole`: the dot is still emitted. */
  lemma FqrnNoMetadataInDirectory()
    ensures RoleFqrn(RoleMeta(None, None, None), "myrole") == ".myrole"
  {
    FqrnWithoutNamespace(RoleMeta(None, None, None), "myrole");
    StripAnsibleUnchanged("myrole");
  }
}
