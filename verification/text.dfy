/** Character classes and the two string primitives the mock setup relies on:
    Python's `str.split(sep)` and `sep.join(parts)` for a one-character separator. */
module Text {

  /** The regex class `\w`, restricted to ASCII. */
  predicate IsWordChar(c: char) {
    ('a' <= c <= 'z') || ('A' <= c <= 'Z') || ('0' <= c <= '9') || c == '_'
  }

  /** Every character of `s` is in `\w` (the empty string qualifies). */
  predicate AllWordChars(s: string) {
    forall i :: 0 <= i < |s| ==> IsWordChar(s[i])
  }

  /** `s` matches `\w+` as a whole. */
  predicate IsWordRun(s: string) {
    |s| > 0 && AllWordChars(s)
  }

  /** The regex class `[\.\w]`. */
  predicate IsWordOrDot(c: char) {
    IsWordChar(c) || c == '.'
  }

  predicate AllWordOrDot(s: string) {
    forall i :: 0 <= i < |s| ==> IsWordOrDot(s[i])
  }

  /** `s` begins with `prefix`. */
  predicate StartsWith(s: string, prefix: string) {
    |prefix| <= |s| && s[..|prefix|] == prefix
  }

  /** Separators never occur inside a run of word characters. */
  lemma WordCharsExclude(s: string)
    requires AllWordChars(s)
    ensures '.' !in s && ' ' !in s && '/' !in s
  {
  }

  /** A word-or-dot string without dots is made of word characters. */
  lemma WordOrDotWithoutDot(s: string)
    requires AllWordOrDot(s) && '.' !in s
    ensures AllWordChars(s)
  {
  }

  /** Python's `s.split(d)`: the maximal pieces of `s` between occurrences of `d`,
      in order, keeping empty pieces. */
  function Split(s: string, d: char): (parts: seq<string>)
    ensures |parts| >= 1
    ensures forall k :: 0 <= k < |parts| ==> d !in parts[k]
    decreases |s|
  {
    if |s| == 0 then [""]
    else
      var rest := Split(s[1..], d);
      if s[0] == d then [""] + rest
      else [[s[0]] + rest[0]] + rest[1..]
  }

  /** Python's `d.join(parts)`. */
  function Join(parts: seq<string>, d: char): string
    decreases |parts|
  {
    if |parts| == 0 then ""
    else if |parts| == 1 then parts[0]
    else parts[0] + [d] + Join(parts[1..], d)
  }

  /** A string without the separator splits into itself alone. */
  lemma {:induction false} SplitWithoutSeparator(s: string, d: char)
    requires d !in s
    ensures Split(s, d) == [s]
    decreases |s|
  {
    if |s| > 0 {
      SplitWithoutSeparator(s[1..], d);
      assert [s[0]] + s[1..] == s;
    }
  }

  /** Splitting at the first separator: the piece before it comes first. */
  lemma {:induction false} SplitAtFirst(a: string, d: char, b: string)
    requires d !in a
    ensures Split(a + [d] + b, d) == [a] + Split(b, d)
    decreases |a|
  {
    var s := a + [d] + b;
    if |a| == 0 {
      assert s[0] == d && s[1..] == b;
    } else {
      assert s[0] == a[0] && s[1..] == a[1..] + [d] + b;
      SplitAtFirst(a[1..], d, b);
      assert [a[0]] + a[1..] == a;
    }
  }

  /** Joining the pieces of a split gives back the original string. */
  lemma {:induction false} JoinSplit(s: string, d: char)
    ensures Join(Split(s, d), d) == s
    decreases |s|
  {
    if |s| > 0 {
      var rest := Split(s[1..], d);
      JoinSplit(s[1..], d);
      if s[0] == d {
        assert Split(s, d) == [""] + rest;
        assert ([""] + rest)[1..] == rest;
        assert [d] + s[1..] == s;
      } else {
        var parts := Split(s, d);
        assert parts == [[s[0]] + rest[0]] + rest[1..];
        if |rest| == 1 {
          assert [s[0]] + s[1..] == s;
        } else {
          assert parts[1..] == rest[1..];
          assert Join(rest, d) == rest[0] + [d] + Join(rest[1..], d);
          assert [s[0]] + s[1..] == s;
        }
      }
    }
  }

  /** Splitting a join of separator-free pieces gives back the pieces. */
  lemma {:induction false} SplitJoin(parts: seq<string>, d: char)
    requires |parts| >= 1
    requires forall k :: 0 <= k < |parts| ==> d !in parts[k]
    ensures Split(Join(parts, d), d) == parts
    decreases |parts|
  {
    if |parts| == 1 {
      SplitWithoutSeparator(parts[0], d);
    } else {
      SplitJoin(parts[1..], d);
      SplitAtFirst(parts[0], d, Join(parts[1..], d));
      assert [parts[0]] + parts[1..] == parts;
    }
  }

  /** Joining with one more piece at the end appends the separator and the piece. */
  lemma {:induction false} JoinSnoc(parts: seq<string>, last: string, d: char)
    requires |parts| >= 1
    ensures Join(parts + [last], d) == Join(parts, d) + [d] + last
    decreases |parts|
  {
    if |parts| == 1 {
      assert (parts + [last])[1..] == [last];
    } else {
      assert (parts + [last])[1..] == parts[1..] + [last];
      JoinSnoc(parts[1..], last, d);
    }
  }

  /** A dot-join of dot-free pieces consists of word characters and dots exactly
      when every piece consists of word characters. */
  lemma {:induction false} JoinWordOrDot(parts: seq<string>)
    requires forall k :: 0 <= k < |parts| ==> '.' !in parts[k]
    ensures AllWordOrDot(Join(parts, '.')) <==>
            (forall k :: 0 <= k < |parts| ==> AllWordChars(parts[k]))
    decreases |parts|
  {
    if |parts| == 1 {
      if AllWordOrDot(parts[0]) { WordOrDotWithoutDot(parts[0]); }
    } else if |parts| > 1 {
      var p := parts[0];
      var t := Join(parts[1..], '.');
      var s := p + ['.'] + t;
      JoinWordOrDot(parts[1..]);
      if AllWordOrDot(s) {
        assert forall i :: 0 <= i < |p| ==> s[i] == p[i];
        assert forall i :: 0 <= i < |t| ==> s[|p| + 1 + i] == t[i];
        WordOrDotWithoutDot(p);
      }
      if forall k :: 0 <= k < |parts| ==> AllWordChars(parts[k]) {
        assert AllWordChars(p);
        assert forall k :: 0 <= k < |parts[1..]| ==> AllWordChars(parts[1..][k]) by {
          forall k | 0 <= k < |parts[1..]| ensures AllWordChars(parts[1..][k]) {
            assert parts[1..][k] == parts[k + 1];
          }
        }
      }
      assert forall k :: 0 <= k < |parts[1..]| ==> parts[1..][k] == parts[k + 1];
    }
  }

  /** The text before the first separator, and the text after it, are determined by the string. */
  lemma CancelAtSeparator(a: string, x: string, b: string, y: string, d: char)
    requires d !in a && d !in b
    requires a + [d] + x == b + [d] + y
    ensures a == b && x == y
  {
    SplitAtFirst(a, d, x);
    SplitAtFirst(b, d, y);
    var s := a + [d] + x;
    assert Split(s, d)[0] == a;
    assert Split(b + [d] + y, d)[0] == b;
    assert x == s[|a| + 1..];
    assert y == (b + [d] + y)[|b| + 1..];
  }
}
