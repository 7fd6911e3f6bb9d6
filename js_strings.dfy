/**
 * The JavaScript string builtins the create flow chains together:
 * `indexOf`, `substr` with one argument, `split` on a one-character
 * separator, `Array.prototype.join`, `trim` and `replace` with a string
 * pattern. Each is defined the way the language specifies it and carries
 * the property a caller relies on.
 */
module JsStrings {

  /** The characters `String.prototype.trim` removes: JavaScript's WhiteSpace and LineTerminator. */
  predicate IsJsWhitespace(c: char) {
    || c == '\t' || c == '\n' || c == '\U{000B}' || c == '\U{000C}' || c == '\r' || c == ' '
    || c == '\U{00A0}' || c == '\U{1680}' || ('\U{2000}' <= c <= '\U{200A}')
    || c == '\U{2028}' || c == '\U{2029}' || c == '\U{202F}' || c == '\U{205F}'
    || c == '\U{3000}' || c == '\U{FEFF}'
  }

  predicate AllWhitespace(s: string) {
    forall i :: 0 <= i < |s| ==> IsJsWhitespace(s[i])
  }

  /** `p` occurs in `s` starting at position `i`. */
  predicate OccursAt(s: string, p: string, i: int) {
    0 <= i && i + |p| <= |s| && s[i..i + |p|] == p
  }

  // ---------------------------------------------------------------- indexOf

  /** `s.indexOf(p)`: the position of the first occurrence of `p` in `s`, or -1 when there is none. */
  function IndexOf(s: string, p: string): (r: int)
    ensures -1 <= r
    ensures r >= 0 ==> OccursAt(s, p, r)
  {
    IndexFrom(s, p, 0)
  }

  /** No occurrence comes before the one `indexOf` reports, and -1 means there is none at all. */
  lemma IndexOfIsFirst(s: string, p: string)
    ensures forall j :: 0 <= j && (IndexOf(s, p) < 0 || j < IndexOf(s, p)) ==> !OccursAt(s, p, j)
    ensures IndexOf(s, p) == -1 <==> forall j :: !OccursAt(s, p, j)
  {
    IndexFromIsFirst(s, p, 0);
  }

  /** The first occurrence of `p` in `s` at or after `from`, or -1. */
  function IndexFrom(s: string, p: string, from: nat): (r: int)
    requires from <= |s|
    ensures r == -1 || (from <= r && OccursAt(s, p, r))
    decreases |s| - from
  {
    if from + |p| > |s| then -1
    else if s[from..from + |p|] == p then from
    else
      assert p != [];
      IndexFrom(s, p, from + 1)
  }

  /** The search from `from` skips no occurrence: none lies between `from` and the one found. */
  lemma {:induction false} IndexFromIsFirst(s: string, p: string, from: nat)
    requires from <= |s|
    ensures forall j :: from <= j && (IndexFrom(s, p, from) < 0 || j < IndexFrom(s, p, from)) ==> !OccursAt(s, p, j)
    decreases |s| - from
  {
    if from + |p| > |s| {
    } else if s[from..from + |p|] != p {
      assert p != [];
      IndexFromIsFirst(s, p, from + 1);
    }
  }

  // ----------------------------------------------------------------- substr

  /**
   * `s.substr(start)` with the length left out: a negative start counts back
   * from the end (clamped to the beginning), a start past the end gives "".
   */
  function Substr(s: string, start: int): (r: string)
    ensures |r| <= |s|
    ensures start >= 0 ==> |r| == (if start <= |s| then |s| - start else 0)
    ensures start < 0 ==> |r| == (if -start <= |s| then -start else |s|)
  {
    if start < 0 then
      (if -start <= |s| then s[|s| + start..] else s)
    else if start <= |s| then s[start..]
    else ""
  }

  /** What `substr` keeps is the end of the string. */
  lemma SubstrIsSuffix(s: string, start: int)
    ensures Substr(s, start) == s[|s| - |Substr(s, start)|..]
  {
  }

  // ------------------------------------------------------------ split, join

  /**
   * `s.split(c)` for a one-character separator: the pieces of `s` between the
   * occurrences of `c`, in order; there is always at least one piece.
   */
  function Split(s: string, c: char): (r: seq<string>)
    ensures |r| >= 1
    decreases |s|
  {
    if s == [] then [""]
    else
      var rest := Split(s[1..], c);
      if s[0] == c then [""] + rest
      else [[s[0]] + rest[0]] + rest[1..]
  }

  /** No piece of a split holds the separator. */
  lemma {:induction false} SplitPiecesAvoidSeparator(s: string, c: char)
    ensures forall i :: 0 <= i < |Split(s, c)| ==> c !in Split(s, c)[i]
    decreases |s|
  {
    if s != [] {
      SplitPiecesAvoidSeparator(s[1..], c);
      var rest := Split(s[1..], c);
      if s[0] != c {
        var r := Split(s, c);
        assert r[0] == [s[0]] + rest[0];
        forall i | 0 < i < |r| ensures c !in r[i] { assert r[i] == rest[i]; }
      }
    }
  }

  /** The total length of the pieces. */
  function LengthSum(parts: seq<string>): nat
    decreases |parts|
  {
    if parts == [] then 0 else |parts[0]| + LengthSum(parts[1..])
  }

  /** `parts.join(c)`: one separator between each two neighbouring pieces. */
  function Join(parts: seq<string>, c: char): (r: string)
    ensures parts != [] ==> |r| == LengthSum(parts) + |parts| - 1
    decreases |parts|
  {
    if |parts| == 0 then ""
    else if |parts| == 1 then parts[0]
    else parts[0] + [c] + Join(parts[1..], c)
  }

  /** Joining the pieces of a split with the same separator gives back the string. */
  lemma {:induction false} JoinSplit(s: string, c: char)
    ensures Join(Split(s, c), c) == s
    decreases |s|
  {
    if s != [] {
      var rest := Split(s[1..], c);
      JoinSplit(s[1..], c);
      if s[0] == c {
        assert Split(s, c) == [""] + rest;
        assert ([""] + rest)[1..] == rest;
      } else {
        var r := [[s[0]] + rest[0]] + rest[1..];
        assert Split(s, c) == r;
        if |rest| == 1 {
          assert Join(r, c) == [s[0]] + rest[0];
        } else {
          assert r[1..] == rest[1..];
          assert Join(r, c) == [s[0]] + rest[0] + [c] + Join(rest[1..], c);
          assert Join(rest, c) == rest[0] + [c] + Join(rest[1..], c);
        }
        assert s == [s[0]] + s[1..];
      }
    }
  }

  /** A string without the separator splits into itself alone. */
  lemma {:induction false} SplitWithoutSeparator(s: string, c: char)
    requires c !in s
    ensures Split(s, c) == [s]
    decreases |s|
  {
    if s != [] {
      assert c !in s[1..];
      SplitWithoutSeparator(s[1..], c);
      assert s == [s[0]] + s[1..];
    }
  }

  /** Splitting at the first separator: the piece before it, then the split of what follows. */
  lemma {:induction false} SplitAtFirst(p: string, c: char, t: string)
    requires c !in p
    ensures Split(p + [c] + t, c) == [p] + Split(t, c)
    decreases |p|
  {
    if p == [] {
      assert p + [c] + t == [c] + t;
      assert ([c] + t)[1..] == t;
    } else {
      assert (p + [c] + t)[1..] == p[1..] + [c] + t;
      assert c !in p[1..];
      SplitAtFirst(p[1..], c, t);
      assert p == [p[0]] + p[1..];
    }
  }

  /** Splitting the join of separator-free pieces gives back the pieces. */
  lemma {:induction false} SplitJoin(parts: seq<string>, c: char)
    requires |parts| >= 1
    requires forall i :: 0 <= i < |parts| ==> c !in parts[i]
    ensures Split(Join(parts, c), c) == parts
    decreases |parts|
  {
    if |parts| == 1 {
      SplitWithoutSeparator(parts[0], c);
    } else {
      SplitJoin(parts[1..], c);
      SplitAtFirst(parts[0], c, Join(parts[1..], c));
      assert parts == [parts[0]] + parts[1..];
    }
  }

  /**
   * The first piece of a split is the text before the first separator, and
   * joining the other pieces back gives the text after it, further
   * separators included.
   */
  lemma HeadAndTailOfSplit(p: string, c: char, t: string)
    requires c !in p
    ensures Split(p + [c] + t, c)[0] == p
    ensures Join(Split(p + [c] + t, c)[1..], c) == t
  {
    SplitAtFirst(p, c, t);
    assert ([p] + Split(t, c))[1..] == Split(t, c);
    JoinSplit(t, c);
  }

  // ------------------------------------------------------------------- trim

  /** How many whitespace characters `s` starts with. */
  function LeadingWhitespace(s: string): (n: nat)
    ensures n <= |s|
    ensures AllWhitespace(s[..n])
    ensures n == |s| || !IsJsWhitespace(s[n])
    decreases |s|
  {
    if |s| > 0 && IsJsWhitespace(s[0]) then
      var n := LeadingWhitespace(s[1..]);
      assert s[..n + 1] == [s[0]] + s[1..][..n];
      n + 1
    else 0
  }

  /** Where the whitespace `s` ends with begins. */
  function TrailingWhitespace(s: string): (n: nat)
    ensures n <= |s|
    ensures AllWhitespace(s[n..])
    ensures n == 0 || !IsJsWhitespace(s[n - 1])
    decreases |s|
  {
    if |s| > 0 && IsJsWhitespace(s[|s| - 1]) then
      var n := TrailingWhitespace(s[..|s| - 1]);
      assert s[n..] == s[..|s| - 1][n..] + [s[|s| - 1]];
      n
    else |s|
  }

  /** Drops the leading whitespace. */
  function TrimStart(s: string): (r: string)
    ensures r == [] || !IsJsWhitespace(r[0])
    ensures |r| <= |s|
  {
    s[LeadingWhitespace(s)..]
  }

  /** Drops the trailing whitespace. */
  function TrimEnd(s: string): (r: string)
    ensures r == [] || !IsJsWhitespace(r[|r| - 1])
    ensures |r| <= |s|
  {
    s[..TrailingWhitespace(s)]
  }

  /** `s.trim()`. */
  function Trim(s: string): (r: string)
    ensures r == [] || (!IsJsWhitespace(r[0]) && !IsJsWhitespace(r[|r| - 1]))
    ensures |r| <= |s|
  {
    var t := TrimStart(s);
    var n := TrailingWhitespace(t);
    assert n > 0 ==> t[0] == s[LeadingWhitespace(s)];
    TrimEnd(t)
  }

  /** Whitespace before a text that starts with something else is exactly what is counted. */
  lemma {:induction false} LeadingWhitespacePadded(a: string, x: string)
    requires AllWhitespace(a)
    requires x == [] || !IsJsWhitespace(x[0])
    ensures LeadingWhitespace(a + x) == |a|
    decreases |a|
  {
    if a == [] {
      assert a + x == x;
    } else {
      assert (a + x)[0] == a[0];
      assert (a + x)[1..] == a[1..] + x;
      LeadingWhitespacePadded(a[1..], x);
    }
  }

  /** Whitespace after a text that ends with something else is exactly what is counted. */
  lemma {:induction false} TrailingWhitespacePadded(x: string, b: string)
    requires AllWhitespace(b)
    requires x == [] || !IsJsWhitespace(x[|x| - 1])
    ensures TrailingWhitespace(x + b) == |x|
    decreases |b|
  {
    if b == [] {
      assert x + b == x;
    } else {
      assert (x + b)[|x + b| - 1] == b[|b| - 1];
      assert (x + b)[..|x + b| - 1] == x + b[..|b| - 1];
      TrailingWhitespacePadded(x, b[..|b| - 1]);
    }
  }

  /**
   * Trimming a text padded on both sides with whitespace gives the text back,
   * whatever it holds in between, as long as its own ends are not whitespace.
   */
  lemma TrimPadded(a: string, x: string, b: string)
    requires AllWhitespace(a) && AllWhitespace(b)
    requires x == [] || (!IsJsWhitespace(x[0]) && !IsJsWhitespace(x[|x| - 1]))
    ensures Trim(a + x + b) == x
  {
    if x == [] {
      assert a + x + b == (a + b) + [];
      assert AllWhitespace(a + b) by {
        forall i | 0 <= i < |a + b| ensures IsJsWhitespace((a + b)[i]) {
          if i >= |a| { assert (a + b)[i] == b[i - |a|]; }
        }
      }
      LeadingWhitespacePadded(a + b, []);
      assert TrimStart(a + x + b) == [];
    } else {
      assert a + x + b == a + (x + b);
      assert (x + b)[0] == x[0];
      LeadingWhitespacePadded(a, x + b);
      assert TrimStart(a + x + b) == x + b;
      TrailingWhitespacePadded(x, b);
      assert (x + b)[..|x|] == x;
    }
  }

  /** One space before a text that does not start or end with whitespace is trimmed away. */
  lemma TrimLeadingSpace(x: string)
    requires x == [] || (!IsJsWhitespace(x[0]) && !IsJsWhitespace(x[|x| - 1]))
    ensures Trim(" " + x) == x
  {
    assert AllWhitespace(" ");
    TrimPadded(" ", x, "");
    assert " " + x + "" == " " + x;
  }

  // ---------------------------------------------------------------- replace

  /**
   * `s.replace(pat, rep)` with a string pattern and a replacement that holds
   * no `$`: only the first occurrence of `pat` is replaced.
   */
  function ReplaceFirst(s: string, pat: string, rep: string): (r: string)
    ensures IndexOf(s, pat) < 0 ==> r == s
    ensures IndexOf(s, pat) >= 0 ==> |r| == |s| - |pat| + |rep| && OccursAt(r, rep, IndexOf(s, pat))
  {
    var i := IndexOf(s, pat);
    if i < 0 then s else s[..i] + rep + s[i + |pat|..]
  }

  /** A string without the pattern is left as it is. */
  lemma ReplaceAbsent(s: string, pat: string, rep: string)
    requires forall j :: !OccursAt(s, pat, j)
    ensures ReplaceFirst(s, pat, rep) == s
  {
  }

  /** A string that starts with the pattern has exactly that prefix replaced; later occurrences stay. */
  lemma ReplacePrefix(pat: string, rest: string, rep: string)
    ensures ReplaceFirst(pat + rest, pat, rep) == rep + rest
  {
    var s := pat + rest;
    assert OccursAt(s, pat, 0) by { assert s[0..|pat|] == pat; }
    assert IndexOf(s, pat) == 0;
    assert s[..0] == [];
    assert s[|pat|..] == rest;
  }
}
