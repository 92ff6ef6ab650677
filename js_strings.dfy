/** The JavaScript string operations the core uses: `trim`, `split` on a
    one-character separator (with `join`, its inverse) and `toUpperCase`. */
module JsStrings {

  /** The characters `String.prototype.trim` strips: WhiteSpace and
      LineTerminator of ECMAScript (tab, vertical tab, form feed, space,
      no-break space, byte order mark, the Unicode space separators, line
      feed, carriage return, line and paragraph separators). */
  predicate IsWhitespace(c: char) {
    c == '\t' || c == '\n' || c == '\U{000B}' || c == '\U{000C}' || c == '\r' ||
    c == ' ' || c == '\U{00A0}' || c == '\U{1680}' ||
    ('\U{2000}' <= c <= '\U{200A}') ||
    c == '\U{2028}' || c == '\U{2029}' || c == '\U{202F}' || c == '\U{205F}' ||
    c == '\U{3000}' || c == '\U{FEFF}'
  }

  predicate AllWhitespace(s: string) {
    forall k :: 0 <= k < |s| ==> IsWhitespace(s[k])
  }

  /** Drops the leading whitespace: the result is a suffix of `s` that does
      not start with whitespace, and what was dropped is all whitespace. */
  function TrimStart(s: string): (r: string)
    ensures |r| <= |s| && r == s[|s| - |r|..]
    ensures r == [] || !IsWhitespace(r[0])
    ensures AllWhitespace(s[..|s| - |r|])
  {
    if s != [] && IsWhitespace(s[0]) then TrimStart(s[1..]) else s
  }

  /** Drops the trailing whitespace: the result is a prefix of `s` that does
      not end with whitespace, and what was dropped is all whitespace. */
  function TrimEnd(s: string): (r: string)
    ensures |r| <= |s| && r == s[..|r|]
    ensures r == [] || !IsWhitespace(r[|r| - 1])
    ensures AllWhitespace(s[|r|..])
  {
    if s != [] && IsWhitespace(s[|s| - 1]) then TrimEnd(s[..|s| - 1]) else s
  }

  /** `s.trim()`. */
  function Trim(s: string): (r: string)
    ensures r == [] || (!IsWhitespace(r[0]) && !IsWhitespace(r[|r| - 1]))
  {
    TrimEnd(TrimStart(s))
  }

  /** A string trims to the empty string exactly when it is all whitespace;
      this is the test behind `!s.trim()`. */
  lemma TrimEmptyIff(s: string)
    ensures Trim(s) == [] <==> AllWhitespace(s)
  {
    var t := TrimStart(s);
    if Trim(s) == [] {
      assert AllWhitespace(t[0..]);
      assert t == [];
      assert s[..|s|] == s;
    }
  }

  /** `s.trim()` keeps everything between the first and the last
      non-whitespace character: it is the infix `s[i..j]` with only
      whitespace outside it. */
  lemma TrimIsInfix(s: string) returns (i: nat, j: nat)
    ensures i <= j <= |s| && Trim(s) == s[i..j]
    ensures AllWhitespace(s[..i]) && AllWhitespace(s[j..])
  {
    var t := TrimStart(s);
    var u := TrimEnd(t);
    i := |s| - |t|;
    j := i + |u|;
    SliceOfSuffix(s, i, |u|);
  }

  /** Slicing a suffix is slicing the whole. */
  lemma SliceOfSuffix(s: string, i: nat, n: nat)
    requires i + n <= |s|
    ensures s[i..][..n] == s[i..i + n] && s[i..][n..] == s[i + n..]
  {
  }

  /** Trimming adds no character. */
  lemma TrimSubset(s: string)
    ensures forall c :: c in Trim(s) ==> c in s
  {
    var i, j := TrimIsInfix(s);
    forall c | c in Trim(s) ensures c in s {
      var k :| 0 <= k < |Trim(s)| && Trim(s)[k] == c;
      assert s[i + k] == c;
    }
  }

  /** Number of occurrences of `c` in `s`. */
  function Occurrences(s: string, c: char): nat {
    if s == [] then 0 else (if s[0] == c then 1 else 0) + Occurrences(s[1..], c)
  }

  /** A character occurs nowhere exactly when it is not in the string. */
  lemma {:induction false} OccurrencesZero(s: string, c: char)
    ensures Occurrences(s, c) == 0 <==> c !in s
  {
    if s != [] {
      OccurrencesZero(s[1..], c);
      assert s == [s[0]] + s[1..];
    }
  }

  /** `s.split(c)` for a one-character separator: the pieces between the
      occurrences of `c`, so there is always at least one piece (`"".split(c)`
      is `[""]`), one more than there are separators, and no piece contains
      the separator. */
  function Split(s: string, c: char): (r: seq<string>)
    ensures |r| == Occurrences(s, c) + 1
    ensures forall k :: 0 <= k < |r| ==> c !in r[k]
  {
    if s == [] then [[]]
    else
      var rest := Split(s[1..], c);
      assert s == [s[0]] + s[1..];
      if s[0] == c then [[]] + rest
      else [[s[0]] + rest[0]] + rest[1..]
  }

  /** `parts.join(c)`: the pieces with one `c` between neighbours. */
  function Join(parts: seq<string>, c: char): string
    requires |parts| >= 1
  {
    if |parts| == 1 then parts[0] else parts[0] + [c] + Join(parts[1..], c)
  }

  /** Joining the pieces of a split with the same separator gives back the
      original string. */
  lemma {:induction false} JoinSplit(s: string, c: char)
    ensures Join(Split(s, c), c) == s
  {
    if s != [] {
      JoinSplit(s[1..], c);
      var rest := Split(s[1..], c);
      if s[0] != c && |rest| > 1 {
        assert Split(s, c)[1..] == rest[1..];
      }
    }
  }

  /** Splitting a join of separator-free pieces gives the pieces back. */
  lemma {:induction false} SplitJoin(parts: seq<string>, c: char)
    requires |parts| >= 1
    requires forall k :: 0 <= k < |parts| ==> c !in parts[k]
    ensures Split(Join(parts, c), c) == parts
  {
    if |parts| == 1 {
      SplitSeparatorFree(parts[0], c);
    } else {
      SplitJoin(parts[1..], c);
      SplitConcat(parts[0], Join(parts[1..], c), c);
      assert parts == [parts[0]] + parts[1..];
    }
  }

  /** A string without the separator is a single piece. */
  lemma {:induction false} SplitSeparatorFree(s: string, c: char)
    requires c !in s
    ensures Split(s, c) == [s]
  {
    if s != [] {
      SplitSeparatorFree(s[1..], c);
      assert s[0] != c;
      assert [s[0]] + s[1..] == s;
    }
  }

  /** Splitting `w + [c] + rest`, where `w` holds no separator, gives `w`
      followed by the pieces of `rest`. */
  lemma {:induction false} SplitConcat(w: string, rest: string, c: char)
    requires c !in w
    ensures Split(w + [c] + rest, c) == [w] + Split(rest, c)
  {
    if w == [] {
      assert [c] + rest == w + [c] + rest;
      assert ([c] + rest)[1..] == rest;
    } else {
      SplitConcat(w[1..], rest, c);
      var whole := w + [c] + rest;
      assert whole[0] == w[0] && whole[0] != c;
      assert whole[1..] == w[1..] + [c] + rest;
      assert [w[0]] + w[1..] == w;
    }
  }

  /** `c.toUpperCase()` for the characters a Latin-script keyboard types:
      the ASCII letters, the Latin-1 letters (with sharp s becoming `SS`, y with
      diaeresis becoming its capital U+0178 and the micro sign becoming
      capital mu). Other characters
      are returned unchanged. */
  function UpperChar(c: char): (r: string)
    ensures 1 <= |r| <= 2
    ensures |r| == 2 <==> c == '\U{00DF}'
    ensures 'a' <= c <= 'z' ==> r == [(c as int - 32) as char]
    ensures c < '\U{0080}' && !('a' <= c <= 'z') ==> r == [c]
  {
    if 'a' <= c <= 'z' then [(c as int - 32) as char]
    else if '\U{00E0}' <= c <= '\U{00FE}' && c != '\U{00F7}' then [(c as int - 32) as char]
    else if c == '\U{00DF}' then "SS"
    else if c == '\U{00FF}' then "\U{0178}"
    else if c == '\U{00B5}' then "\U{039C}"
    else [c]
  }

  /** Replaces each character of `s` by the string `f` gives for it. */
  function MapChars(s: string, f: char -> string): string {
    if s == [] then [] else f(s[0]) + MapChars(s[1..], f)
  }

  /** Mapping characters works piecewise. */
  lemma {:induction false} MapCharsConcat(a: string, b: string, f: char -> string)
    ensures MapChars(a + b, f) == MapChars(a, f) + MapChars(b, f)
  {
    if a == [] {
      assert a + b == b;
    } else {
      MapCharsConcat(a[1..], b, f);
      assert (a + b)[0] == a[0];
      assert (a + b)[1..] == a[1..] + b;
    }
  }

  /** A mapping that gives one character for each character of `s` keeps
      the length. */
  lemma {:induction false} MapCharsLength(s: string, f: char -> string)
    requires forall k :: 0 <= k < |s| ==> |f(s[k])| == 1
    ensures |MapChars(s, f)| == |s|
  {
    if s != [] {
      MapCharsLength(s[1..], f);
    }
  }

  /** `s.toUpperCase()`, character by character; only the sharp s changes
      the length. */
  function ToUpperCase(s: string): (r: string)
    ensures '\U{00DF}' !in s ==> |r| == |s|
  {
    if '\U{00DF}' !in s then
      MapCharsLength(s, UpperChar);
      MapChars(s, UpperChar)
    else
      MapChars(s, UpperChar)
  }

  /** The result of `toUpperCase` holds no lower-case ASCII letter. */
  lemma {:induction false} ToUpperCaseNoLower(s: string)
    ensures forall k :: 0 <= k < |ToUpperCase(s)| ==> !('a' <= ToUpperCase(s)[k] <= 'z')
  {
    if s != [] {
      ToUpperCaseNoLower(s[1..]);
      var u, rest := UpperChar(s[0]), ToUpperCase(s[1..]);
      assert ToUpperCase(s) == u + rest;
      forall k | 0 <= k < |u + rest| ensures !('a' <= (u + rest)[k] <= 'z') {
        if k >= |u| {
          assert (u + rest)[k] == rest[k - |u|];
        }
      }
    }
  }

  /** Upper-casing is idempotent: re-typing an already upper-cased value
      leaves it unchanged. */
  lemma {:induction false} ToUpperCaseIdempotent(s: string)
    ensures ToUpperCase(ToUpperCase(s)) == ToUpperCase(s)
  {
    if s != [] {
      ToUpperCaseIdempotent(s[1..]);
      var u := UpperChar(s[0]);
      assert ToUpperCase(s) == u + ToUpperCase(s[1..]);
      MapCharsConcat(u, ToUpperCase(s[1..]), UpperChar);
      UpperCharFixed(s[0]);
    }
  }

  /** What `UpperChar` produces is already upper case. */
  lemma UpperCharFixed(c: char)
    ensures ToUpperCase(UpperChar(c)) == UpperChar(c)
  {
    var u := UpperChar(c);
    assert UpperChar(u[0]) == [u[0]];
    if |u| == 2 {
      assert u == "SS";
      assert MapChars(u[1..], UpperChar) == UpperChar(u[1]) + MapChars([], UpperChar);
    } else {
      assert u[1..] == [];
    }
  }
}
