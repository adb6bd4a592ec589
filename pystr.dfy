/**
 * The handful of Python `str` operations the playlist code relies on,
 * modelled concretely. Whitespace is ASCII whitespace as `str.isspace`
 * sees it; case mapping is ASCII only.
 *
 * They are used throughout `mediaflow_proxy/routes/playlist_builder.py`.
 */
module PyStr {

  /** `c.isspace()` for ASCII: tab, line feed, vertical tab, form feed,
      carriage return, the four information separators and space. */
  predicate IsSpace(c: char) {
    c == ' ' || (9 <= c as int <= 13) || (28 <= c as int <= 31)
  }

  /** The end of the run of whitespace that starts at `i`. */
  function LeadEnd(s: string, i: nat): (k: nat)
    requires i <= |s|
    ensures i <= k <= |s|
    ensures forall j :: i <= j < k ==> IsSpace(s[j])
    ensures k < |s| ==> !IsSpace(s[k])
    decreases |s| - i
  {
    if i < |s| && IsSpace(s[i]) then LeadEnd(s, i + 1) else i
  }

  /** The start of the run of whitespace that ends just before `j`. */
  function TrailStart(s: string, j: nat): (k: nat)
    requires j <= |s|
    ensures k <= j
    ensures forall i :: k <= i < j ==> IsSpace(s[i])
    ensures k > 0 ==> !IsSpace(s[k - 1])
  {
    if j > 0 && IsSpace(s[j - 1]) then TrailStart(s, j - 1) else j
  }

  /** `s.lstrip()`: drops the leading whitespace and nothing else. */
  function LStrip(s: string): (r: string)
    ensures |r| <= |s| && r == s[|s| - |r|..]
    ensures forall i :: 0 <= i < |s| - |r| ==> IsSpace(s[i])
    ensures r != [] ==> !IsSpace(r[0])
  {
    s[LeadEnd(s, 0)..]
  }

  /** `s.rstrip()`: drops the trailing whitespace and nothing else. */
  function RStrip(s: string): (r: string)
    ensures |r| <= |s| && r == s[..|r|]
    ensures forall i :: |r| <= i < |s| ==> IsSpace(s[i])
    ensures r != [] ==> !IsSpace(r[|r| - 1])
  {
    s[..TrailStart(s, |s|)]
  }

  /** `s.strip()` */
  function Strip(s: string): string {
    LStrip(RStrip(s))
  }

  /** `s.rstrip(c)` for a single character `c`. */
  function RStripChar(s: string, c: char): (r: string)
    ensures |r| <= |s| && r == s[..|r|]
    ensures forall i :: |r| <= i < |s| ==> s[i] == c
    ensures r != [] ==> r[|r| - 1] != c
    decreases |s|
  {
    if s != [] && s[|s| - 1] == c then RStripChar(s[..|s| - 1], c) else s
  }

  /** `s.startswith(p)` */
  predicate StartsWith(s: string, p: string) {
    |p| <= |s| && s[..|p|] == p
  }

  /** `p in s` for a substring `p`. */
  predicate Contains(s: string, p: string)
    decreases |s|
  {
    StartsWith(s, p) || (s != [] && Contains(s[1..], p))
  }

  /** `s.index(c)`: the first position of `c`. */
  function IndexOf(s: string, c: char): (i: nat)
    requires c in s
    ensures i < |s| && s[i] == c && c !in s[..i]
  {
    if s[0] == c then 0 else
      var k := IndexOf(s[1..], c);
      assert s[1..][..k] == s[1..k + 1];
      1 + k
  }

  /** `s.rindex(c)`: the last position of `c`. */
  function LastIndexOf(s: string, c: char): (i: nat)
    requires c in s
    ensures i < |s| && s[i] == c && c !in s[i + 1..]
    decreases |s|
  {
    if s[|s| - 1] == c then |s| - 1 else
      assert c in s[..|s| - 1] by {
        var k :| 0 <= k < |s| && s[k] == c;
        assert s[..|s| - 1][k] == c;
      }
      LastIndexOf(s[..|s| - 1], c)
  }

  /** `s.split(c, 1)[0]` when `c in s`. */
  function Before(s: string, c: char): string
    requires c in s
  {
    s[..IndexOf(s, c)]
  }

  /** `s.split(c, 1)[1]` when `c in s`. */
  function After(s: string, c: char): string
    requires c in s
  {
    s[IndexOf(s, c) + 1..]
  }

  /** Text cut at its first separator gives back the two sides. */
  lemma SplitAt(x: string, c: char, y: string)
    requires c !in x
    ensures c in x + [c] + y
    ensures Before(x + [c] + y, c) == x && After(x + [c] + y, c) == y
  {
    var s := x + [c] + y;
    assert s[|x|] == c;
    assert s[..|x|] == x;
    assert IndexOf(s, c) == |x|;
  }

  /** `s.rsplit(c, 1)[0]`: everything before the last `c`, or all of `s`. */
  function RSplitHead(s: string, c: char): (r: string)
    ensures StartsWith(s, r)
  {
    if c in s then s[..LastIndexOf(s, c)] else s
  }

  /** `s.split(c)` for a single-character separator. */
  function Split(s: string, c: char): (parts: seq<string>)
    ensures |parts| > 0
    ensures forall i :: 0 <= i < |parts| ==> c !in parts[i]
    decreases |s|
  {
    if c in s then [Before(s, c)] + Split(After(s, c), c) else [s]
  }

  /** `c.join(parts)` for a single-character separator. */
  function Join(parts: seq<string>, c: char): string
    decreases |parts|
  {
    if |parts| == 0 then []
    else if |parts| == 1 then parts[0]
    else parts[0] + [c] + Join(parts[1..], c)
  }

  lemma JoinCons(p: string, ps: seq<string>, c: char)
    requires ps != []
    ensures Join([p] + ps, c) == p + [c] + Join(ps, c)
  {
    assert ([p] + ps)[1..] == ps;
  }

  /** Joining what was split gives back the original text. */
  lemma {:induction false} JoinSplit(s: string, c: char)
    ensures Join(Split(s, c), c) == s
    decreases |s|
  {
    if c in s {
      var i := IndexOf(s, c);
      JoinSplit(After(s, c), c);
      assert s == s[..i] + [c] + s[i + 1..];
    }
  }

  /** Splitting what was joined gives back the parts, provided none of them holds the separator. */
  lemma {:induction false} SplitJoin(parts: seq<string>, c: char)
    requires |parts| > 0
    requires forall i :: 0 <= i < |parts| ==> c !in parts[i]
    ensures Split(Join(parts, c), c) == parts
    decreases |parts|
  {
    if |parts| > 1 {
      var s := Join(parts, c);
      assert s == parts[0] + [c] + Join(parts[1..], c);
      assert s[|parts[0]|] == c;
      var i := IndexOf(s, c);
      assert s[..|parts[0]|] == parts[0];
      assert i == |parts[0]|;
      assert Before(s, c) == parts[0];
      assert After(s, c) == Join(parts[1..], c);
      SplitJoin(parts[1..], c);
    } else {
      assert Join(parts, c) == parts[0];
    }
  }

  /** ASCII upper-casing; any other character is left alone. */
  function Upper(c: char): char {
    if 'a' <= c <= 'z' then (c as int - 32) as char else c
  }

  /** ASCII lower-casing; any other character is left alone. */
  function Lower(c: char): char {
    if 'A' <= c <= 'Z' then (c as int + 32) as char else c
  }

  function LowerAll(s: string): (r: string)
    ensures |r| == |s| && forall i :: 0 <= i < |s| ==> r[i] == Lower(s[i])
  {
    seq(|s|, i requires 0 <= i < |s| => Lower(s[i]))
  }

  /** `w.capitalize()`: the first character upper case, all others lower case. */
  function Capitalize(w: string): (r: string)
    ensures |r| == |w|
    ensures forall i :: 0 <= i < |w| ==> r[i] == (if i == 0 then Upper(w[0]) else Lower(w[i]))
  {
    if w == [] then [] else [Upper(w[0])] + LowerAll(w[1..])
  }

  /** Removing trailing line feeds before stripping changes nothing: both strip them. */
  lemma {:induction false} StripAfterRStripNewline(s: string)
    ensures Strip(RStripChar(s, '\n')) == Strip(s)
  {
    RStripNewline(s);
  }

  lemma RStripNewline(s: string)
    ensures RStrip(RStripChar(s, '\n')) == RStrip(s)
  {
    var t := RStripChar(s, '\n');
    var r := RStrip(t);
    var b := |r|;
    forall i | b <= i < |s| ensures IsSpace(s[i]) {
      if i < |t| {
        assert s[i] == t[i];
      }
    }
    if b > 0 {
      assert s[b - 1] == t[b - 1] == r[b - 1];
    }
    RStripUnique(s, b);
    assert s[..b] == t[..b];
  }

  /** A text whose first character is not whitespace keeps that character first
      after stripping, so testing the stripped text for a prefix ending in a
      non-space is the same as testing the text itself. */
  lemma StripKeepsPrefix(s: string, p: string)
    requires s != [] && !IsSpace(s[0])
    requires p != [] && !IsSpace(p[|p| - 1])
    ensures StartsWith(Strip(s), p) <==> StartsWith(s, p)
  {
    var r := RStrip(s);
    assert r != [] && r[0] == s[0];
    LStripUnique(r, 0);
    assert r[0..] == r;
    if StartsWith(s, p) {
      assert |p| <= |r|;
      assert r[..|p|] == s[..|p|];
    }
    if StartsWith(r, p) {
      assert s[..|p|] == r[..|p|];
    }
  }

  /** `RStrip` is the only cut that leaves whitespace behind and a non-space last. */
  lemma RStripUnique(s: string, b: nat)
    requires b <= |s|
    requires forall i :: b <= i < |s| ==> IsSpace(s[i])
    requires b == 0 || !IsSpace(s[b - 1])
    ensures RStrip(s) == s[..b]
  {
    var r := RStrip(s);
    assert |r| <= b;
    assert |r| >= b;
  }

  /** `LStrip` is the only cut that leaves whitespace in front and a non-space first. */
  lemma LStripUnique(s: string, a: nat)
    requires a <= |s|
    requires forall i :: 0 <= i < a ==> IsSpace(s[i])
    requires a == |s| || !IsSpace(s[a])
    ensures LStrip(s) == s[a..]
  {
    var r := LStrip(s);
    assert |s| - |r| <= a;
    assert |s| - |r| >= a;
  }

  /** `s.strip()` is `s[a..b]` exactly when only whitespace lies outside `a..b`
      and the kept text is empty or has non-space characters at both ends. */
  lemma StripUnique(s: string, a: nat, b: nat)
    requires a <= b <= |s|
    requires forall i :: 0 <= i < a ==> IsSpace(s[i])
    requires forall i :: b <= i < |s| ==> IsSpace(s[i])
    requires a < b ==> !IsSpace(s[a]) && !IsSpace(s[b - 1])
    ensures Strip(s) == s[a..b]
  {
    if a == b {
      RStripUnique(s, 0);
      assert s[..0] == [];
    } else {
      RStripUnique(s, b);
      LStripUnique(s[..b], a);
      assert s[..b][a..] == s[a..b];
    }
  }

  /** Where `s.strip()` cuts. */
  lemma StripBounds(s: string) returns (a: nat, b: nat)
    ensures a <= b <= |s| && Strip(s) == s[a..b]
    ensures forall i :: 0 <= i < a ==> IsSpace(s[i])
    ensures forall i :: b <= i < |s| ==> IsSpace(s[i])
    ensures a < b ==> !IsSpace(s[a]) && !IsSpace(s[b - 1])
  {
    var r := RStrip(s);
    var l := LStrip(r);
    b := |r|;
    a := |r| - |l|;
    CutTwice(s, r, l, a, b);
  }

  /** Cutting a tail and then a head of whitespace is one cut of both. */
  lemma CutTwice(s: string, r: string, l: string, a: nat, b: nat)
    requires b <= |s| && r == s[..b] && a <= |r| && l == r[a..]
    requires forall i :: b <= i < |s| ==> IsSpace(s[i])
    requires forall i :: 0 <= i < a ==> IsSpace(r[i])
    requires r != [] ==> !IsSpace(r[|r| - 1])
    requires l != [] ==> !IsSpace(l[0])
    ensures l == s[a..b]
    ensures forall i :: 0 <= i < a ==> IsSpace(s[i])
    ensures a < b ==> !IsSpace(s[a]) && !IsSpace(s[b - 1])
  {
    forall i | 0 <= i < a ensures IsSpace(s[i]) {
      assert s[i] == r[i];
    }
    if a < b {
      assert s[a] == l[0] && s[b - 1] == r[|r| - 1];
    }
  }

  lemma RStripAround(x: string, c: char, y: string)
    requires !IsSpace(c)
    ensures RStrip(x + [c] + y) == x + [c] + RStrip(y)
  {
    var ry := RStrip(y);
    TailCut(x, c, y, ry);
    RStripUnique(x + [c] + y, |x| + 1 + |ry|);
  }

  /** The whitespace cut from the end of `y` is the end of `x + [c] + y`. */
  lemma TailCut(x: string, c: char, y: string, ry: string)
    requires |ry| <= |y| && ry == y[..|ry|] && !IsSpace(c)
    requires forall i :: |ry| <= i < |y| ==> IsSpace(y[i])
    requires ry != [] ==> !IsSpace(ry[|ry| - 1])
    ensures var t := x + [c] + y; var b := |x| + 1 + |ry|;
      0 < b <= |t| && (forall i :: b <= i < |t| ==> IsSpace(t[i])) && !IsSpace(t[b - 1])
      && t[..b] == x + [c] + ry
  {
    var t := x + [c] + y;
    var b := |x| + 1 + |ry|;
    forall i | b <= i < |t| ensures IsSpace(t[i]) {
      assert t[i] == y[i - |x| - 1];
    }
    assert t[b - 1] == if ry == [] then c else ry[|ry| - 1];
    assert t[..b] == x + [c] + ry;
  }

  lemma LStripAround(x: string, c: char, y: string)
    requires !IsSpace(c)
    ensures LStrip(x + [c] + y) == LStrip(x) + [c] + y
  {
    var lx := LStrip(x);
    var a := |x| - |lx|;
    HeadCut(x, lx, c, y, a);
    LStripUnique(x + [c] + y, a);
  }

  /** The whitespace cut from the front of `x` is the front of `x + [c] + y`. */
  lemma HeadCut(x: string, lx: string, c: char, y: string, a: nat)
    requires a <= |x| && lx == x[a..] && !IsSpace(c)
    requires forall i :: 0 <= i < a ==> IsSpace(x[i])
    requires lx != [] ==> !IsSpace(lx[0])
    ensures var t := x + [c] + y;
      a < |t| && (forall i :: 0 <= i < a ==> IsSpace(t[i])) && !IsSpace(t[a])
      && t[a..] == lx + [c] + y
  {
    var t := x + [c] + y;
    forall i | 0 <= i < a ensures IsSpace(t[i]) {
      assert t[i] == x[i];
    }
    assert x == x[..a] + lx;
    assert t == x[..a] + (lx + [c] + y);
    assert t[a] == if lx == [] then c else lx[0];
  }

  /** Stripping a text around a non-space separator strips only its two ends. */
  lemma StripAround(x: string, c: char, y: string)
    requires !IsSpace(c)
    ensures Strip(x + [c] + y) == LStrip(x) + [c] + RStrip(y)
  {
    RStripAround(x, c, y);
    LStripAround(x, c, RStrip(y));
  }

  /** Cutting off whitespace before stripping changes nothing. */
  lemma StripInner(x: string, i: nat, j: nat)
    requires i <= j <= |x|
    requires forall k :: 0 <= k < i ==> IsSpace(x[k])
    requires forall k :: j <= k < |x| ==> IsSpace(x[k])
    ensures Strip(x[i..j]) == Strip(x)
  {
    var a, b := StripBounds(x);
    if a < b {
      StripInnerText(x, i, j, a, b);
    } else {
      assert forall k :: 0 <= k < |x| ==> IsSpace(x[k]);
      StripSpaces(x);
      StripSpaces(x[i..j]);
    }
  }

  /** Text made only of whitespace strips to nothing. */
  lemma StripSpaces(m: string)
    requires forall k :: 0 <= k < |m| ==> IsSpace(m[k])
    ensures Strip(m) == []
  {
    StripUnique(m, 0, 0);
  }

  lemma StripInnerText(x: string, i: nat, j: nat, a: nat, b: nat)
    requires i <= j <= |x| && a < b <= |x|
    requires forall k :: 0 <= k < i ==> IsSpace(x[k])
    requires forall k :: j <= k < |x| ==> IsSpace(x[k])
    requires !IsSpace(x[a]) && !IsSpace(x[b - 1])
    requires forall k :: 0 <= k < a ==> IsSpace(x[k])
    requires forall k :: b <= k < |x| ==> IsSpace(x[k])
    ensures i <= a && b <= j && Strip(x[i..j]) == x[a..b]
  {
    InnerCut(x, i, j, a, b);
    StripUnique(x[i..j], a - i, b - i);
    SliceOfSlice(x, i, j, a, b);
  }

  lemma InnerCut(x: string, i: nat, j: nat, a: nat, b: nat)
    requires i <= j <= |x| && a < b <= |x|
    requires forall k :: 0 <= k < i ==> IsSpace(x[k])
    requires forall k :: j <= k < |x| ==> IsSpace(x[k])
    requires !IsSpace(x[a]) && !IsSpace(x[b - 1])
    requires forall k :: 0 <= k < a ==> IsSpace(x[k])
    requires forall k :: b <= k < |x| ==> IsSpace(x[k])
    ensures i <= a < b <= j
    ensures var m := x[i..j];
      (forall k :: 0 <= k < a - i ==> IsSpace(m[k]))
      && (forall k :: b - i <= k < |m| ==> IsSpace(m[k]))
      && !IsSpace(m[a - i]) && !IsSpace(m[b - i - 1])
  {
    var m := x[i..j];
    forall k | 0 <= k < a - i ensures IsSpace(m[k]) {
      assert m[k] == x[i + k];
    }
    forall k | b - i <= k < |m| ensures IsSpace(m[k]) {
      assert m[k] == x[i + k];
    }
    assert m[a - i] == x[a] && m[b - i - 1] == x[b - 1];
  }

  lemma SliceOfSlice(x: string, i: nat, j: nat, a: nat, b: nat)
    requires i <= a <= b <= j <= |x|
    ensures x[i..j][a - i..b - i] == x[a..b]
  {
    var m := x[i..j];
    forall k | 0 <= k < b - a ensures m[a - i..b - i][k] == x[a..b][k] {
      assert m[a - i..b - i][k] == m[a - i + k] == x[a + k];
    }
  }

  lemma StripLStrip(x: string)
    ensures Strip(LStrip(x)) == Strip(x)
  {
    var l := LStrip(x);
    var i := |x| - |l|;
    assert x[i..|x|] == l;
    StripInner(x, i, |x|);
  }

  lemma StripRStrip(x: string)
    ensures Strip(RStrip(x)) == Strip(x)
  {
    var r := RStrip(x);
    assert x[0..|r|] == r;
    StripInner(x, 0, |r|);
  }
}
