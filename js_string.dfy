/**
 * The ECMAScript built-ins the form relies on, over strings as sequences of
 * code points: `String.prototype.split` with a one-character separator,
 * `String.prototype.trim` and `Array.prototype.join`.
 */
module JsString {

  /** WhiteSpace (section 12.2 of ECMA-262) or LineTerminator (section 12.3):
      the code points `trim` strips. */
  predicate IsWhiteSpace(c: char) {
    // WhiteSpace: TAB, VT, FF, ZWNBSP and the Unicode category Zs
    c == '\t' || c == '\U{B}' || c == '\U{C}' || c == '\U{FEFF}' ||
    c == ' ' || c == '\U{A0}' || c == '\U{1680}' || ('\U{2000}' <= c <= '\U{200A}') ||
    c == '\U{202F}' || c == '\U{205F}' || c == '\U{3000}' ||
    // LineTerminator: LF, CR, LINE SEPARATOR, PARAGRAPH SEPARATOR
    c == '\n' || c == '\r' || c == '\U{2028}' || c == '\U{2029}'
  }

  predicate AllWhiteSpace(s: string) {
    forall i :: 0 <= i < |s| ==> IsWhiteSpace(s[i])
  }

  /** Neither starts nor ends with white space: what `trim` leaves behind. */
  predicate IsTrimmed(s: string) {
    s == [] || (!IsWhiteSpace(s[0]) && !IsWhiteSpace(s[|s| - 1]))
  }

  /** Number of occurrences of `d` in `s`. */
  function Count(s: string, d: char): nat {
    if s == [] then 0 else (if s[0] == d then 1 else 0) + Count(s[1..], d)
  }

  lemma {:induction false} CountZero(s: string, d: char)
    ensures Count(s, d) == 0 <==> d !in s
  {
    if s != [] {
      CountZero(s[1..], d);
      assert s == [s[0]] + s[1..];
    }
  }

  /** `s.split(d)`: the maximal `d`-free pieces of `s`, in order; `"".split(d)`
      is `[""]`, and every separator adds one piece. */
  function Split(s: string, d: char): (pieces: seq<string>)
    ensures |pieces| == Count(s, d) + 1
  {
    if s == [] then [""]
    else
      var rest := Split(s[1..], d);
      if s[0] == d then [""] + rest
      else [[s[0]] + rest[0]] + rest[1..]
  }

  /** No piece contains the separator. */
  lemma {:induction false} SplitPiecesFree(s: string, d: char)
    ensures forall k :: 0 <= k < |Split(s, d)| ==> d !in Split(s, d)[k]
  {
    if s != [] {
      SplitPiecesFree(s[1..], d);
      var rest := Split(s[1..], d);
      if s[0] != d {
        assert d !in [s[0]] + rest[0];
      }
    }
  }

  /** `xs.join(sep)`. */
  function Join(xs: seq<string>, sep: string): string {
    if |xs| == 0 then ""
    else if |xs| == 1 then xs[0]
    else xs[0] + sep + Join(xs[1..], sep)
  }

  /** Joining the pieces back with the separator gives the original string. */
  lemma {:induction false} JoinSplit(s: string, d: char)
    ensures Join(Split(s, d), [d]) == s
  {
    if s != [] {
      var rest := Split(s[1..], d);
      JoinSplit(s[1..], d);
      if s[0] == d {
        assert Split(s, d) == [""] + rest;
        assert Split(s, d)[1..] == rest;
        assert s == [d] + s[1..];
      } else {
        if |rest| == 1 {
          assert s == [s[0]] + s[1..];
        } else {
          assert Join(rest, [d]) == rest[0] + [d] + Join(rest[1..], [d]);
          assert Split(s, d)[1..] == rest[1..];
          assert s == [s[0]] + s[1..];
        }
      }
    }
  }

  /** A string without the separator splits into itself alone. */
  lemma {:induction false} SplitNoSeparator(s: string, d: char)
    requires d !in s
    ensures Split(s, d) == [s]
  {
    CountZero(s, d);
    if s != [] {
      SplitNoSeparator(s[1..], d);
      assert s == [s[0]] + s[1..];
    }
  }

  /** Splitting distributes over a separator placed between two strings. */
  lemma {:induction false} SplitAround(a: string, b: string, d: char)
    ensures Split(a + [d] + b, d) == Split(a, d) + Split(b, d)
  {
    var s := a + [d] + b;
    if a == [] {
      assert s == [d] + b;
      assert s[1..] == b;
    } else {
      assert s[1..] == a[1..] + [d] + b;
      SplitAround(a[1..], b, d);
    }
  }

  /** Splitting undoes joining, for separator-free pieces. */
  lemma {:induction false} SplitJoin(xs: seq<string>, d: char)
    requires |xs| > 0
    requires forall k :: 0 <= k < |xs| ==> d !in xs[k]
    ensures Split(Join(xs, [d]), d) == xs
  {
    if |xs| == 1 {
      SplitNoSeparator(xs[0], d);
    } else {
      SplitJoin(xs[1..], d);
      SplitAround(xs[0], Join(xs[1..], [d]), d);
      SplitNoSeparator(xs[0], d);
      assert [xs[0]] + xs[1..] == xs;
    }
  }

  /** `s.trimStart()`: no longer than `s`, and not starting with white space. */
  function TrimStart(s: string): (r: string)
    ensures |r| <= |s|
    ensures r == [] || !IsWhiteSpace(r[0])
  {
    if s != [] && IsWhiteSpace(s[0]) then TrimStart(s[1..]) else s
  }

  /** `trimStart` keeps a suffix of `s`... */
  lemma {:induction false} TrimStartSuffix(s: string)
    ensures TrimStart(s) == s[|s| - |TrimStart(s)|..]
  {
    if s != [] && IsWhiteSpace(s[0]) {
      TrimStartSuffix(s[1..]);
      assert s[1..][|s| - 1 - |TrimStart(s)|..] == s[|s| - |TrimStart(s)|..];
    }
  }

  /** ... and drops only white space. */
  lemma {:induction false} TrimStartDropsWhiteSpace(s: string)
    ensures AllWhiteSpace(s[..|s| - |TrimStart(s)|])
  {
    if s != [] && IsWhiteSpace(s[0]) {
      TrimStartDropsWhiteSpace(s[1..]);
      var k := |s| - |TrimStart(s)|;
      forall j | 0 <= j < k ensures IsWhiteSpace(s[..k][j]) {
        if j > 0 { assert s[..k][j] == s[1..][..k - 1][j - 1]; }
      }
    }
  }

  /** `s.trimEnd()`: no longer than `s`, and not ending with white space. */
  function TrimEnd(s: string): (r: string)
    ensures |r| <= |s|
    ensures r == [] || !IsWhiteSpace(r[|r| - 1])
  {
    if s != [] && IsWhiteSpace(s[|s| - 1]) then TrimEnd(s[..|s| - 1]) else s
  }

  /** `trimEnd` keeps a prefix of `s`... */
  lemma {:induction false} TrimEndPrefix(s: string)
    ensures TrimEnd(s) == s[..|TrimEnd(s)|]
  {
    if s != [] && IsWhiteSpace(s[|s| - 1]) {
      TrimEndPrefix(s[..|s| - 1]);
      assert s[..|s| - 1][..|TrimEnd(s)|] == s[..|TrimEnd(s)|];
    }
  }

  /** ... and drops only white space. */
  lemma {:induction false} TrimEndDropsWhiteSpace(s: string)
    ensures AllWhiteSpace(s[|TrimEnd(s)|..])
  {
    if s != [] && IsWhiteSpace(s[|s| - 1]) {
      var t := s[..|s| - 1];
      TrimEndDropsWhiteSpace(t);
      var k := |TrimEnd(s)|;
      forall j | 0 <= j < |s| - k ensures IsWhiteSpace(s[k..][j]) {
        if k + j < |s| - 1 { assert s[k..][j] == t[k..][j]; }
      }
    }
  }

  /** `s.trim()`: no longer than `s`, without white space at either end. */
  function Trim(s: string): (r: string)
    ensures |r| <= |s| && IsTrimmed(r)
  {
    TrimBothEnds(s);
    TrimEnd(TrimStart(s))
  }

  lemma TrimBothEnds(s: string)
    ensures IsTrimmed(TrimEnd(TrimStart(s)))
  {
    var t := TrimStart(s);
    TrimEndPrefix(t);
    assert TrimEnd(t) != [] ==> TrimEnd(t)[0] == t[0];
  }

  /** The trimmed string is the infix of `s` between its leading and its
      trailing white space. */
  lemma TrimInfix(s: string)
    ensures var r := Trim(s); var i := |s| - |TrimStart(s)|;
      i + |r| <= |s| && r == s[i..i + |r|] &&
      AllWhiteSpace(s[..i]) && AllWhiteSpace(s[i + |r|..])
  {
    var t := TrimStart(s);
    var r := TrimEnd(t);
    var i := |s| - |t|;
    TrimStartSuffix(s);
    TrimStartDropsWhiteSpace(s);
    TrimEndPrefix(t);
    TrimEndDropsWhiteSpace(t);
    SliceOfSuffix(s, i, |r|);
  }

  lemma SliceOfSuffix(s: string, i: nat, n: nat)
    requires i + n <= |s|
    ensures s[i..][..n] == s[i..i + n] && s[i..][n..] == s[i + n..]
  {
  }

  /** `trim` gives the empty string exactly for all-white-space input. */
  lemma TrimBlank(s: string)
    ensures Trim(s) == [] <==> AllWhiteSpace(s)
  {
    var t := TrimStart(s);
    var i := |s| - |t|;
    TrimStartSuffix(s);
    if t != [] {
      assert t[0] == s[i];
    }
    if TrimEnd(t) == [] {
      TrimStartDropsWhiteSpace(s);
      TrimEndDropsWhiteSpace(t);
      assert t[0..] == t;
      WhiteSpaceConcat(s[..i], t);
      assert s == s[..i] + t;
    }
  }

  lemma WhiteSpaceConcat(a: string, b: string)
    requires AllWhiteSpace(a) && AllWhiteSpace(b)
    ensures AllWhiteSpace(a + b)
  {
    forall k | 0 <= k < |a + b| ensures IsWhiteSpace((a + b)[k]) {
      if k >= |a| { assert (a + b)[k] == b[k - |a|]; }
    }
  }

  /** Trimming a trimmed string changes nothing... */
  lemma TrimTrimmed(s: string)
    requires IsTrimmed(s)
    ensures Trim(s) == s
  {
    assert TrimStart(s) == s;
    assert TrimEnd(s) == s;
  }

  /** ... so `trim` is idempotent. */
  lemma TrimIdempotent(s: string)
    ensures Trim(Trim(s)) == Trim(s)
  {
    TrimTrimmed(Trim(s));
  }

  /** Trimming removes characters, never adds one. */
  lemma TrimWithin(s: string, c: char)
    requires c in Trim(s)
    ensures c in s
  {
    var r := Trim(s);
    var i := |s| - |TrimStart(s)|;
    TrimInfix(s);
    var k :| 0 <= k < |r| && r[k] == c;
    assert s[i + k] == c;
  }

  /** White space around a trimmed, non-blank string is exactly what `trim` removes. */
  lemma TrimPadded(p: string, x: string, q: string)
    requires AllWhiteSpace(p) && AllWhiteSpace(q)
    requires x != [] && IsTrimmed(x)
    ensures Trim(p + x + q) == x
  {
    var u := x + q;
    assert u[0] == x[0];
    assert p + x + q == p + u;
    TrimStartPadded(p, u);
    TrimEndPadded(x, q);
  }

  lemma {:induction false} TrimStartPadded(p: string, t: string)
    requires AllWhiteSpace(p)
    requires t != [] && !IsWhiteSpace(t[0])
    ensures TrimStart(p + t) == t
  {
    if p == [] {
      assert p + t == t;
    } else {
      assert (p + t)[1..] == p[1..] + t;
      TrimStartPadded(p[1..], t);
    }
  }

  lemma {:induction false} TrimEndPadded(t: string, q: string)
    requires AllWhiteSpace(q)
    requires t != [] && !IsWhiteSpace(t[|t| - 1])
    ensures TrimEnd(t + q) == t
  {
    if q == [] {
      assert t + q == t;
    } else {
      assert (t + q)[..|t + q| - 1] == t + q[..|q| - 1];
      TrimEndPadded(t, q[..|q| - 1]);
    }
  }
}
