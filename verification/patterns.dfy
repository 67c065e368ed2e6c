/** The three regular expressions of the mock setup, each given twice: as a
    reference "shape" (the decomposition the regex describes, with `^` and `$`
    anchored at the ends of the string) and as an executable matcher, with a
    lemma that the two agree. */
module Patterns {
  import opened Text

  // ---- `^\w+ \w+` (a prefix match): a leading word, one space, a word ----

  /** `s[..i]` is `\w+`, `s[i]` is the space and `s[i+1..j]` is `\w+`; the rest is unconstrained. */
  ghost predicate AuthorShapeAt(s: string, i: int, j: int) {
    0 < i && i + 1 < j <= |s| && AllWordChars(s[..i]) && s[i] == ' ' && AllWordChars(s[i + 1..j])
  }

  ghost predicate AuthorShape(s: string) {
    exists i, j :: AuthorShapeAt(s, i, j)
  }

  /** Length of the longest prefix of `s` made of word characters. */
  function LeadingWordLength(s: string): (k: nat)
    ensures k <= |s| && AllWordChars(s[..k])
    ensures k < |s| ==> !IsWordChar(s[k])
    decreases |s|
  {
    if |s| == 0 || !IsWordChar(s[0]) then 0
    else
      var k := 1 + LeadingWordLength(s[1..]);
      assert s[..k] == [s[0]] + s[1..][..k - 1];
      k
  }

  /** Executable matcher for `^\w+ \w+`. */
  predicate IsAuthorLike(s: string) {
    var k := LeadingWordLength(s);
    0 < k && k + 1 < |s| && s[k] == ' ' && IsWordChar(s[k + 1])
  }

  lemma AuthorLikeMatches(s: string)
    ensures IsAuthorLike(s) <==> AuthorShape(s)
  {
    var k := LeadingWordLength(s);
    if IsAuthorLike(s) {
      assert AuthorShapeAt(s, k, k + 2);
    }
    if AuthorShape(s) {
      var i, j :| AuthorShapeAt(s, i, j);
      assert k == i;
      assert s[i + 1..j][0] == s[k + 1];
    }
  }

  // ---- `\w+\.\w+\.\w+$` matched from the start: exactly three dotted words ----

  ghost predicate RoleShapeAt(s: string, i: int, j: int) {
    0 < i && i + 1 < j && j + 1 < |s|
    && AllWordChars(s[..i]) && s[i] == '.'
    && AllWordChars(s[i + 1..j]) && s[j] == '.'
    && AllWordChars(s[j + 1..])
  }

  ghost predicate RoleShape(s: string) {
    exists i, j :: RoleShapeAt(s, i, j)
  }

  /** Executable matcher for `\w+\.\w+\.\w+$`. */
  predicate IsCollectionRole(s: string) {
    var p := Split(s, '.');
    |p| == 3 && IsWordRun(p[0]) && IsWordRun(p[1]) && IsWordRun(p[2])
  }

  /** `a + "." + b + "." + c` as a single expression, used for dotted identifiers. */
  function Dotted3(a: string, b: string, c: string): string {
    a + ['.'] + (b + ['.'] + c)
  }

  /** `Dotted3` is the three-piece case of joining with dots. */
  lemma Dotted3IsJoin(a: string, b: string, c: string)
    ensures Dotted3(a, b, c) == Join([a, b, c], '.')
  {
    assert [b, c][1..] == [c];
    assert Join([b, c], '.') == b + ['.'] + c;
    assert [a, b, c][1..] == [b, c];
  }

  /** A dotted identifier of three dot-free pieces splits into exactly those pieces. */
  lemma SplitDotted3(a: string, b: string, c: string)
    requires '.' !in a && '.' !in b && '.' !in c
    ensures Split(Dotted3(a, b, c), '.') == [a, b, c]
  {
    SplitAtFirst(a, '.', b + ['.'] + c);
    SplitAtFirst(b, '.', c);
    SplitWithoutSeparator(c, '.');
  }

  /** The pieces of a `RoleShapeAt` decomposition. */
  lemma RoleShapeParts(s: string, i: int, j: int)
    requires RoleShapeAt(s, i, j)
    ensures s == Dotted3(s[..i], s[i + 1..j], s[j + 1..])
    ensures Split(s, '.') == [s[..i], s[i + 1..j], s[j + 1..]]
  {
    assert s == Dotted3(s[..i], s[i + 1..j], s[j + 1..]);
    WordCharsExclude(s[..i]);
    WordCharsExclude(s[i + 1..j]);
    WordCharsExclude(s[j + 1..]);
    SplitDotted3(s[..i], s[i + 1..j], s[j + 1..]);
  }

  lemma CollectionRoleMatches(s: string)
    ensures IsCollectionRole(s) <==> RoleShape(s)
  {
    if IsCollectionRole(s) {
      var p := Split(s, '.');
      JoinSplit(s, '.');
      assert p[1..][1..] == [p[2]];
      assert Join(p[1..], '.') == p[1] + ['.'] + p[2];
      assert s == Dotted3(p[0], p[1], p[2]);
      var i := |p[0]|;
      var j := |p[0]| + 1 + |p[1]|;
      assert s[..i] == p[0];
      assert s[i + 1..j] == p[1];
      assert s[j + 1..] == p[2];
      assert RoleShapeAt(s, i, j);
    }
    if RoleShape(s) {
      var i, j :| RoleShapeAt(s, i, j);
      RoleShapeParts(s, i, j);
    }
  }

  // ---- `^(\w+|\w+\.\w+\.[\.\w]+)$`: module identifiers ----

  /** The qualified alternative: two dotted words, then one or more word-or-dot characters. */
  ghost predicate QualifiedShapeAt(s: string, i: int, j: int) {
    0 < i && i + 1 < j && j + 1 < |s|
    && AllWordChars(s[..i]) && s[i] == '.'
    && AllWordChars(s[i + 1..j]) && s[j] == '.'
    && AllWordOrDot(s[j + 1..])
  }

  ghost predicate ModuleShape(s: string) {
    IsWordRun(s) || exists i, j :: QualifiedShapeAt(s, i, j)
  }

  /** Executable matcher for the module-name regex, phrased over the dot-separated pieces. */
  predicate IsModuleName(s: string) {
    var p := Split(s, '.');
    AllWordOrDot(s)
    && ((|p| == 1 && |s| > 0)
        || (|p| >= 3 && |p[0]| > 0 && |p[1]| > 0 && (|p| > 3 || |p[2]| > 0)))
  }

  /** The text after the second dot of a qualified identifier. */
  lemma QualifiedParts(s: string, i: int, j: int)
    requires QualifiedShapeAt(s, i, j)
    ensures s == s[..i] + ['.'] + (s[i + 1..j] + ['.'] + s[j + 1..])
    ensures Split(s, '.') == [s[..i], s[i + 1..j]] + Split(s[j + 1..], '.')
  {
    var a, b, c := s[..i], s[i + 1..j], s[j + 1..];
    assert s == a + ['.'] + (b + ['.'] + c);
    WordCharsExclude(a);
    WordCharsExclude(b);
    SplitAtFirst(a, '.', b + ['.'] + c);
    SplitAtFirst(b, '.', c);
  }

  lemma ModuleNameMatches(s: string)
    ensures IsModuleName(s) <==> ModuleShape(s)
  {
    if IsModuleName(s) {
      MatcherImpliesShape(s);
    }
    if ModuleShape(s) {
      ShapeImpliesMatcher(s);
    }
  }

  /** The piece-based matcher only accepts strings of the regex's shape. */
  lemma MatcherImpliesShape(s: string)
    requires IsModuleName(s)
    ensures ModuleShape(s)
  {
    var p := Split(s, '.');
    JoinSplit(s, '.');
    if |p| == 1 {
      WordOrDotWithoutDot(s);
    } else {
      var rest := Join(p[2..], '.');
      assert p[1..][1..] == p[2..];
      assert s == p[0] + ['.'] + (p[1] + ['.'] + rest);
      var i := |p[0]|;
      var j := |p[0]| + 1 + |p[1]|;
      assert s[..i] == p[0];
      assert s[i + 1..j] == p[1];
      assert s[j + 1..] == rest;
      assert forall x :: 0 <= x < |s[..i]| ==> s[..i][x] == s[x];
      assert forall x :: 0 <= x < |rest| ==> rest[x] == s[j + 1 + x];
      WordOrDotWithoutDot(p[0]);
      WordOrDotWithoutDot(p[1]);
      if |p| == 3 {
        assert p[2..] == [p[2]];
      } else {
        assert |rest| > 0;
      }
      assert QualifiedShapeAt(s, i, j);
    }
  }

  /** Every string of the regex's shape is accepted by the piece-based matcher. */
  lemma ShapeImpliesMatcher(s: string)
    requires ModuleShape(s)
    ensures IsModuleName(s)
  {
    if IsWordRun(s) {
      WordCharsExclude(s);
      SplitWithoutSeparator(s, '.');
    } else {
      var i, j :| QualifiedShapeAt(s, i, j);
      QualifiedParts(s, i, j);
      var c := s[j + 1..];
      var q := Split(c, '.');
      assert Split(s, '.') == [s[..i], s[i + 1..j]] + q;
      if |q| == 1 {
        JoinSplit(c, '.');
      }
      QualifiedAllWordOrDot(s, i, j);
    }
  }

  /** A string of the qualified shape consists of word characters and dots. */
  lemma QualifiedAllWordOrDot(s: string, i: int, j: int)
    requires QualifiedShapeAt(s, i, j)
    ensures AllWordOrDot(s)
  {
    var c := s[j + 1..];
    forall x | 0 <= x < |s| ensures IsWordOrDot(s[x]) {
      if x < i { assert s[..i][x] == s[x]; }
      else if i < x < j { assert s[i + 1..j][x - i - 1] == s[x]; }
      else if j < x { assert c[x - j - 1] == s[x]; }
    }
  }

  /** Accepted module identifiers have one dot-separated piece or at least three, never two. */
  lemma ModuleNamePieceCount(s: string)
    requires ModuleShape(s)
    ensures |Split(s, '.')| == 1 || |Split(s, '.')| >= 3
    ensures |Split(s, '.')| == 1 <==> IsWordRun(s)
  {
    ModuleNameMatches(s);
    if |Split(s, '.')| == 1 {
      JoinSplit(s, '.');
      WordOrDotWithoutDot(s);
    }
    if IsWordRun(s) {
      WordCharsExclude(s);
      SplitWithoutSeparator(s, '.');
    }
  }
}
