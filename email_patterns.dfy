/** The two e-mail regular expressions of the system, both of the shape
    `^X+@X+\.X+$` for a character class X: the registration guard uses
    `^\S+@\S+\.\S+$` (X = not whitespace) and the user schema uses
    `^.+@.+\..+$` (X = not a line terminator; no dotAll flag). */
module EmailPatterns {
  /** The class `\s` of JavaScript regular expressions. */
  predicate IsWhitespace(c: char) {
    || c == '\t' || c == '\n' || c == '\U{000B}' || c == '\U{000C}' || c == '\r' || c == ' '
    || c == '\U{00A0}' || c == '\U{1680}' || ('\U{2000}' <= c <= '\U{200A}')
    || c == '\U{2028}' || c == '\U{2029}' || c == '\U{202F}' || c == '\U{205F}'
    || c == '\U{3000}' || c == '\U{FEFF}'
  }

  /** The characters `.` does not match. */
  predicate IsLineTerminator(c: char) {
    c == '\n' || c == '\r' || c == '\U{2028}' || c == '\U{2029}'
  }

  /** The class `\S`. */
  predicate NonSpace(c: char) { !IsWhitespace(c) }

  /** The class `.`. */
  predicate NotLineTerminator(c: char) { !IsLineTerminator(c) }

  /** A non-empty run of characters of class cls: what `X+` matches. */
  ghost predicate Run(s: string, cls: char -> bool) {
    |s| > 0 && forall k :: 0 <= k < |s| ==> cls(s[k])
  }

  /** The language of `^X+@X+\.X+$`, read off the regular expression. */
  ghost predicate RegexMatches(s: string, cls: char -> bool) {
    exists a, b, c :: Run(a, cls) && Run(b, cls) && Run(c, cls) && s == a + "@" + b + "." + c
  }

  /** The same language stated by positions: every character is in the class,
      an '@' stands at some i >= 1 and a '.' at some j with i + 2 <= j <= |s| - 2. */
  ghost predicate ShapeAt(s: string, cls: char -> bool, i: int, j: int) {
    1 <= i && i + 2 <= j <= |s| - 2 && s[i] == '@' && s[j] == '.'
  }

  /** Whether every character of s is in the class. */
  function AllIn(s: string, cls: char -> bool): (r: bool)
    ensures r <==> forall k :: 0 <= k < |s| ==> cls(s[k])
  {
    if |s| == 0 then true else cls(s[0]) && AllIn(s[1..], cls)
  }

  /** The first position of c in s, or -1 when c does not occur. */
  function FirstIndex(s: string, c: char): (r: int)
    ensures -1 <= r < |s|
    ensures r >= 0 ==> s[r] == c && forall k :: 0 <= k < r ==> s[k] != c
    ensures r == -1 ==> forall k :: 0 <= k < |s| ==> s[k] != c
  {
    if |s| == 0 then -1
    else if s[0] == c then 0
    else
      var i := FirstIndex(s[1..], c);
      if i == -1 then -1 else i + 1
  }

  /** The last position of c in s, or -1 when c does not occur. */
  function LastIndex(s: string, c: char): (r: int)
    ensures -1 <= r < |s|
    ensures r >= 0 ==> s[r] == c && forall k :: r < k < |s| ==> s[k] != c
    ensures r == -1 ==> forall k :: 0 <= k < |s| ==> s[k] != c
  {
    if |s| == 0 then -1
    else if s[|s| - 1] == c then |s| - 1
    else LastIndex(s[..|s| - 1], c)
  }

  /** `regex.test(s)`: the first '@' after the first character and the last
      '.' before the last character decide, provided every character is in
      the class. */
  predicate Test(s: string, cls: char -> bool) {
    if |s| < 2 || !AllIn(s, cls) then false
    else
      var i := FirstIndex(s[1..], '@') + 1;
      var j := LastIndex(s[..|s| - 1], '.');
      i >= 1 && j >= 0 && i + 2 <= j
  }

  /** The test accepts exactly the language of the regular expression, and
      that language is the positional shape over the class. */
  lemma TestDecides(s: string, cls: char -> bool)
    requires cls('@') && cls('.')
    ensures Test(s, cls) <==> RegexMatches(s, cls)
    ensures Test(s, cls) <==> (forall k :: 0 <= k < |s| ==> cls(s[k])) && exists i, j :: ShapeAt(s, cls, i, j)
  {
    if RegexMatches(s, cls) {
      var a, b, c :| Run(a, cls) && Run(b, cls) && Run(c, cls) && s == a + "@" + b + "." + c;
      SplitShape(s, a, b, c, cls);
    }
    if |s| >= 2 && AllIn(s, cls) {
      var i := FirstIndex(s[1..], '@') + 1;
      var j := LastIndex(s[..|s| - 1], '.');
      if i >= 1 && j >= 0 && i + 2 <= j {
        assert s[1..][i - 1] == s[i];
        assert s[..|s| - 1][j] == s[j];
        ShapeSplit(s, cls, i, j);
      }
    }
  }

  /** A string of the regular expression's form has the positional shape. */
  lemma SplitShape(s: string, a: string, b: string, c: string, cls: char -> bool)
    requires cls('@') && cls('.')
    requires Run(a, cls) && Run(b, cls) && Run(c, cls) && s == a + "@" + b + "." + c
    ensures ShapeAt(s, cls, |a|, |a| + 1 + |b|)
    ensures forall k :: 0 <= k < |s| ==> cls(s[k])
  {
    forall k | 0 <= k < |s| ensures cls(s[k]) {
      if k < |a| {
        assert s[k] == a[k];
      } else if k == |a| {
      } else if k < |a| + 1 + |b| {
        assert s[k] == b[k - |a| - 1];
      } else if k == |a| + 1 + |b| {
      } else {
        assert s[k] == c[k - |a| - 2 - |b|];
      }
    }
  }

  /** A string of the positional shape splits as the regular expression reads it. */
  lemma ShapeSplit(s: string, cls: char -> bool, i: int, j: int)
    requires ShapeAt(s, cls, i, j)
    requires forall k :: 0 <= k < |s| ==> cls(s[k])
    ensures RegexMatches(s, cls)
  {
    var a, b, c := s[..i], s[i + 1..j], s[j + 1..];
    assert s == a + "@" + b + "." + c;
    assert Run(a, cls) && Run(b, cls) && Run(c, cls);
  }

  /** Whatever passes the registration check also passes the schema's:
      `^\S+@\S+\.\S+$` accepts a subset of what `^.+@.+\..+$` accepts. */
  lemma GuardImpliesSchema(s: string)
    requires Test(s, NonSpace)
    ensures Test(s, NotLineTerminator)
  {
    TestDecides(s, NonSpace);
    var i, j :| ShapeAt(s, NonSpace, i, j);
    assert ShapeAt(s, NotLineTerminator, i, j);
    TestDecides(s, NotLineTerminator);
  }
}
